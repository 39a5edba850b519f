/** Exactly when the paper trader holds a row, and what it says, in terms of the data it polled. */
module PaperRows {
  import opened Types
  import opened Slippage
  import opened Conditions
  import opened Strategies
  import opened PaperTrading
  import opened ReplayTrades
  import Engine

  /** The market is known and unresolved, the strategy is about it and had started by then. */
  ghost predicate InScope(w: World, s: StrategyRow, market: string, snap: Snapshot) {
    && snap.marketId == market && market in w.meta && w.meta[market].resolved == false
    && s.ticker in {"", w.meta[market].ticker} && s.eventType in {"", w.meta[market].eventType}
    && s.startedAt <= snap.ts
  }

  /** The strategy's entry section is absent or holds at the snapshot, without any history. */
  ghost predicate Wanted(w: World, s: StrategyRow, market: string, snap: Snapshot)
    requires s.spec.Some? && s.spec.value.ConditionBased? && market in w.meta
  {
    var spec := s.spec.value;
    var open := if market in w.opens then Some(w.opens[market]) else None;
    var vals := ValuesAt(spec, [], snap, Context(w.meta[market].resolutionAt, open));
    !Given(spec.entry) || Truth(SectionNode(spec.entry), vals, map[])
  }

  /** The asks the strategy buys from. */
  function AsksFor(s: StrategyRow, snap: Snapshot): seq<Level>
    requires s.spec.Some? && s.spec.value.ConditionBased?
  {
    if s.spec.value.alwaysUp then snap.yesAsks else snap.noAsks
  }

  /** Something is for sale, at a price. */
  ghost predicate ForSale(asks: seq<Level>) {
    asks != [] && 0.0 < asks[0].price < 1.0 && Depth(asks) > 0.0
  }

  /** The snapshot is in scope, the entry is wanted there and the asks can fill it. */
  ghost predicate Due(w: World, s: StrategyRow, market: string, snap: Snapshot)
    requires s.spec.Some? && s.spec.value.ConditionBased?
  {
    InScope(w, s, market, snap) && Wanted(w, s, market, snap) && ForSale(AsksFor(s, snap))
  }

  /** The row of a purchase from these asks, while it is open. */
  ghost predicate BoughtFor(asks: seq<Level>, usd: real, snap: Snapshot, row: Position) {
    && asks != []
    && asks[0].price <= row.fillPrice <= LastAskTouched(asks, usd)
    && row.sizeUsd == Min(usd, Depth(asks))
    && row.slippageBps == (row.fillPrice - asks[0].price) * 10000.0
    && row.fees * 10000.0 == row.sizeUsd * (360.0 * Min(row.fillPrice, 1.0 - row.fillPrice))
    && row.underlyingPrice == snap.underlyingPrice && row.status == Open
  }

  lemma {:induction false} FillIsPurchase(asks: seq<Level>, usd: real, snap: Snapshot, f: Fill, row: Position)
    requires usd > 0.0 && AskBook(asks) && BuyFill(asks, usd) == Some(f)
    requires row == Position(row.side, f.avgPrice, f.usd, f.slippageBps, PlatformFee(Polymarket, f.usd, f.avgPrice),
                             snap.underlyingPrice, Open)
    ensures BoughtFor(asks, usd, snap, row)
  {
    BuyFillsWhatIsThere(asks, usd);
    BuyPriceBetween(asks, usd);
    FeeOf(Polymarket, f.usd, f.avgPrice);
  }

  lemma {:induction false} RowIsPurchase(snap: Snapshot, a: Action, asks: seq<Level>)
    requires a.sizeUsd > 0.0 && AskBook(asks)
    requires (a.side == BuyYes && asks == snap.yesAsks) || (a.side == BuyNo && asks == snap.noAsks)
    ensures RowFor(snap, a).Some? <==> ForSale(asks)
    ensures RowFor(snap, a).Some? ==>
      RowFor(snap, a).value.side == a.side && BoughtFor(asks, a.sizeUsd, snap, RowFor(snap, a).value)
  {
    BuyFillsWhatIsThere(asks, a.sizeUsd);
    if RowFor(snap, a).Some? {
      FillIsPurchase(asks, a.sizeUsd, snap, BuyFill(asks, a.sizeUsd).value, RowFor(snap, a).value);
    }
  }

  /** A strategy that buys for a positive amount, with no cross condition on entry. */
  ghost predicate Buyer(s: StrategyRow) {
    && s.spec.Some? && s.spec.value.ConditionBased? && s.spec.value.sizeUsd > 0.0
    && NoCrossEntry(s.spec.value)
  }

  lemma {:induction false} FiresIffDue(w: World, s: StrategyRow, market: string, snap: Snapshot)
    requires Buyer(s) && AskBook(AsksFor(s, snap))
    ensures Fires(w, s, market, snap).Some? <==> Due(w, s, market, snap)
    ensures Fires(w, s, market, snap).Some? ==>
      var row := Fires(w, s, market, snap).value;
      && (row.side == BuyYes <==> s.spec.value.alwaysUp) && (row.side == BuyNo <==> !s.spec.value.alwaysUp)
      && BoughtFor(AsksFor(s, snap), s.spec.value.sizeUsd, snap, row)
  {
    var spec := s.spec.value;
    if Tradeable(w, snap) {
      NoKeysDistinct(SectionNode(spec.entry));
      EntryIsSection(spec, EMPTY_CROSS, [], snap, ContextOf(w, snap));
      RowIsPurchase(snap, Action(if spec.alwaysUp then BuyYes else BuyNo, spec.sizeUsd), AsksFor(s, snap));
    }
  }

  ghost predicate DueAt(w: World, s: StrategyRow, market: string, stream: seq<Snapshot>, k: nat) {
    k < |stream| && s.spec.Some? && s.spec.value.ConditionBased? && Due(w, s, market, stream[k])
  }

  /** Of the snapshots of the stream, k is the first that was due, and this is the purchase made there. */
  ghost predicate FirstPurchase(
      w: World, s: StrategyRow, market: string, stream: seq<Snapshot>, k: nat, row: Position)
  {
    && DueAt(w, s, market, stream, k) && (forall j: nat :: j < k ==> !DueAt(w, s, market, stream, j))
    && (row.side == BuyYes <==> s.spec.value.alwaysUp) && (row.side == BuyNo <==> !s.spec.value.alwaysUp)
    && BoughtFor(AsksFor(s, stream[k]), s.spec.value.sizeUsd, stream[k], row)
  }

  lemma {:induction false} FirstTriggerIsPurchase(
      w: World, s: StrategyRow, market: string, stream: seq<Snapshot>, m: nat)
    requires Buyer(s) && m <= |stream| && forall k :: 0 <= k < m ==> AskBook(AsksFor(s, stream[k]))
    ensures FirstTrigger(w, s, market, stream[..m]) == None ==>
      forall k: nat :: k < m ==> !DueAt(w, s, market, stream, k)
    ensures FirstTrigger(w, s, market, stream[..m]).Some? ==>
      exists k: nat :: k < m
        && FirstPurchase(w, s, market, stream, k, FirstTrigger(w, s, market, stream[..m]).value)
  {
    var first := FirstTrigger(w, s, market, stream[..m]);
    FirstTriggerIsEarliest(w, s, market, stream[..m]);
    forall k: nat | k < m
      ensures stream[..m][k] == stream[k]
      ensures Fires(w, s, market, stream[k]).Some? <==> DueAt(w, s, market, stream, k)
    {
      FiresIffDue(w, s, market, stream[k]);
    }
    if first.Some? {
      var k: nat :| k < m && Fires(w, s, market, stream[..m][k]) == first
                    && forall j :: 0 <= j < k ==> Fires(w, s, market, stream[..m][j]) == None;
      FiresIffDue(w, s, market, stream[k]);
      assert FirstPurchase(w, s, market, stream, k, first.value);
    }
  }

  /**
   After any gapless polls a strategy has a row for a market exactly when some snapshot seen
   so far was due; the row is then the purchase at the first of them.
   */
  lemma {:induction false} RowIffDue(
      w: World, strategies: seq<StrategyRow>, stream: seq<Snapshot>, windows: seq<Window>, i: nat, market: string)
    requires Plain(strategies) && i < |strategies| && Buyer(strategies[i])
    requires WithinStream(windows, |stream|) && NoGaps(windows) && Frontier(windows) <= |stream|
    requires forall k :: 0 <= k < |stream| ==> AskBook(AsksFor(strategies[i], stream[k]))
    ensures
      var row := PaperTrading.Lookup(RunPolls(w, strategies, stream, windows).positions, Key(strategies[i].id, market));
      && (row == None <==> forall k: nat :: k < Frontier(windows) ==> !DueAt(w, strategies[i], market, stream, k))
      && (row.Some? ==>
            exists k: nat :: k < Frontier(windows) && FirstPurchase(w, strategies[i], market, stream, k, row.value))
  {
    PollsInsertFirstTriggers(w, strategies, stream, windows, i, market);
    FirstTriggerIsPurchase(w, strategies[i], market, stream, Frontier(windows));
  }

  /** What a strategy remembers about one market is changed by that market's snapshots only. */
  lemma {:induction false} MemoriesAreSeparate(
      w: World, strategies: seq<StrategyRow>, snaps: seq<Snapshot>, st: State, key: Key)
    requires forall i, j :: 0 <= i < |snaps| && 0 <= j < |strategies| ==>
      Key(strategies[j].id, snaps[i].marketId) != key
    ensures Remembered(Scan(w, strategies, snaps, st).instances, key) == Remembered(st.instances, key)
  {
    if snaps != [] {
      var n := |snaps| - 1;
      MemoriesAreSeparate(w, strategies, snaps[..n], st, key);
      SnapshotKeepsMemory(w, strategies, snaps[n], Scan(w, strategies, snaps[..n], st), key);
    }
  }

  lemma {:induction false} SnapshotKeepsMemory(
      w: World, strategies: seq<StrategyRow>, snap: Snapshot, st: State, key: Key)
    requires forall j :: 0 <= j < |strategies| ==> Key(strategies[j].id, snap.marketId) != key
    ensures Remembered(OneSnapshot(w, strategies, snap, st).instances, key) == Remembered(st.instances, key)
  {
    if strategies != [] {
      SnapshotKeepsMemory(w, strategies[..|strategies| - 1], snap, st, key);
    }
  }

  /** Once its market is resolved, an open row carries the outcome and the profit the engine would settle it at. */
  lemma {:induction false} ResolvedRowsCarryOutcome(t: Table, key: Key, yesPrice: real)
    requires key in t && t[key].status == Open && (t[key].fillPrice > 0.0 || t[key].side.IsBuy())
    ensures
      var settled := SettleMarket(t, key.market, yesPrice);
      && settled[key] == t[key].(status := settled[key].status)
      && settled[key].status
         == Status.Closed(yesPrice, Engine.SettledPnl(t[key].side, t[key].fillPrice, t[key].sizeUsd, yesPrice))
      && forall other :: other in t && other.market != key.market ==> settled[other] == t[other]
  {
    PaperPnlAgreesWithEngine(t[key].side, t[key].fillPrice, t[key].sizeUsd, yesPrice);
  }
}

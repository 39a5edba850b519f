/** Every trade in the log of a replay is what the market gave at some snapshot for what the strategy asked. */
module ReplayTrades {
  import opened Types
  import opened Slippage
  import opened Strategies
  import opened Engine
  import opened ReplayProofs
  import L = LimitOrder

  // ------------------------------------------------------------------ fees

  predicate OnKalshi(marketId: string) { |marketId| >= 7 && marketId[..7] == "kalshi:" }

  /** Seven basis points on Kalshi; on Polymarket 360 times the distance of the price from the nearer edge. */
  ghost predicate FeeDue(marketId: string, usd: real, price: real, fee: real) {
    fee * 10000.0 == usd * (if OnKalshi(marketId) then 7.0 else 360.0 * Min(price, 1.0 - price))
  }

  lemma FeeIsDue(snap: Snapshot, price: real, usd: real, slippageBps: real)
    ensures FeeDue(snap.marketId, usd, price, WithFee(snap, price, usd, slippageBps).fee)
  {
    PrefixOfSeven("kalshi:", snap.marketId);
    FeeOf(PlatformOf(snap.marketId), usd, price);
  }

  lemma PrefixOfSeven(prefix: string, s: string)
    requires |prefix| == 7
    ensures prefix <= s <==> |s| >= 7 && s[..7] == prefix
  {
  }

  lemma FeeOf(platform: Platform, usd: real, price: real)
    ensures platform.Kalshi? ==> PlatformFee(platform, usd, price) * 10000.0 == usd * 7.0
    ensures platform.Polymarket? ==>
      PlatformFee(platform, usd, price) * 10000.0 == usd * (360.0 * Min(price, 1.0 - price))
    ensures platform.OtherPlatform? ==> PlatformFee(platform, usd, price) == 0.0
  {
  }

  // --------------------------------------------------------------- entries

  /** Walking the asks: within the ceiling, for what they hold, between the best ask and the last one touched. */
  ghost predicate WalkedIn(config: Config, asks: seq<Level>, usd: real, t: Trade) {
    && asks != [] && asks[0].price <= config.maxFillPrice
    && asks[0].price <= t.price <= LastAskTouched(asks, usd)
    && t.size == Min(usd, Depth(asks))
    && t.slippageBps == (t.price - asks[0].price) * 10000.0
    && FeeDue(t.marketId, t.size, t.price, t.fees)
  }

  /** Halfway between the best bid and the best ask, without slippage, for the fee due. */
  ghost predicate Midway(bids: seq<Level>, asks: seq<Level>, t: Trade) {
    && bids != [] && asks != []
    && 2.0 * t.price == bids[0].price + asks[0].price
    && t.slippageBps == 0.0
    && FeeDue(t.marketId, t.size, t.price, t.fees)
  }

  /** A limit price is kept between one cent and 99. */
  function Clamped(price: real): real {
    if price < 0.01 then 0.01 else if price > 0.99 then 0.99 else price
  }

  /** A resting order: whole size, free of charge, set off from the best ask, or for a seller from the mid. */
  ghost predicate Rested(config: Config, bids: seq<Level>, asks: seq<Level>, a: Action, t: Trade) {
    && t.size == a.sizeUsd && t.slippageBps == 0.0 && t.fees == 0.0 && asks != []
    && (a.side.IsBuy() ==>
          asks[0].price <= config.maxFillPrice && t.price == Clamped(asks[0].price + config.limitOffsetCents / 100.0))
    && (!a.side.IsBuy() ==>
          bids != []
          && t.price == Clamped((bids[0].price + asks[0].price) / 2.0 + config.limitOffsetCents / 100.0))
  }

  ghost predicate Stamped(t: Trade, snap: Snapshot) {
    t.ts == snap.ts && t.marketId == snap.marketId && t.underlyingPrice == snap.underlyingPrice
  }

  /** A purchase from sorted asks. */
  ghost predicate WalksAsks(asks: seq<Level>, a: Action) { a.side.IsBuy() && a.sizeUsd > 0.0 && AskBook(asks) }

  /** What an entry looks like that answers this action at this snapshot. */
  ghost predicate Answers(config: Config, snap: Snapshot, a: Action, t: Trade) {
    var bids, asks := BidsOf(snap, a.side), AsksOf(snap, a.side);
    && Stamped(t, snap) && t.side == a.side
    && (config.orderType.LimitOrder? ==> Rested(config, bids, asks, a, t))
    && (config.orderType.MarketOrder? && config.fillMode.AtMid? ==> Midway(bids, asks, t) && t.size == a.sizeUsd)
    && (config.orderType.MarketOrder? && config.fillMode.WalkTheBook? && WalksAsks(asks, a) ==>
          WalkedIn(config, asks, a.sizeUsd, t))
  }

  lemma {:induction false} EntryAnswers(
      config: Config, snaps: seq<Snapshot>, i: nat, a: Action, b: Booking, pnl: Option<real>)
    requires i < |snaps| && OpenBooking(config, snaps, i, a) == Some(b)
    ensures Answers(config, snaps[i], a, BookedTrade(snaps[i], a.side, b, pnl))
  {
    FeeIsDue(snaps[i], b.price, b.usd, b.slippageBps);
    if config.orderType.LimitOrder? {
      LimitAnswers(config, snaps, i, a, b, pnl);
    } else if config.fillMode.WalkTheBook? && WalksAsks(AsksOf(snaps[i], a.side), a) {
      MarketBuyTakesTheAsks(config, snaps, i, a);
      BuyPriceBetween(AsksOf(snaps[i], a.side), a.sizeUsd);
    }
  }

  lemma {:induction false} LimitAnswers(
      config: Config, snaps: seq<Snapshot>, i: nat, a: Action, b: Booking, pnl: Option<real>)
    requires i < |snaps| && config.orderType.LimitOrder? && OpenBooking(config, snaps, i, a) == Some(b)
    ensures
      Rested(config, BidsOf(snaps[i], a.side), AsksOf(snaps[i], a.side), a, BookedTrade(snaps[i], a.side, b, pnl))
  {
    LimitEntryIsMaker(config, snaps, i, a);
    var o, start := PlacedOrder(config, snaps[i], a).value, FirstIndex(snaps, i);
    L.ScanFinds(o, snaps, start, start);
  }

  /** A market buy goes through exactly when the best ask is a price within the ceiling and something is for sale. */
  lemma {:induction false} BuyGoesThroughIff(config: Config, snaps: seq<Snapshot>, i: nat, a: Action)
    requires i < |snaps| && a.side.IsBuy() && a.sizeUsd > 0.0
    requires config.orderType.MarketOrder? && config.fillMode.WalkTheBook? && AskBook(AsksOf(snaps[i], a.side))
    ensures
      var asks := AsksOf(snaps[i], a.side);
      OpenBooking(config, snaps, i, a).Some? <==>
        && asks != [] && 0.0 < asks[0].price < 1.0 && asks[0].price <= config.maxFillPrice
        && Depth(asks) > 0.0
  {
    BuyFillsWhatIsThere(AsksOf(snaps[i], a.side), a.sizeUsd);
  }

  /** At the mid, an entry goes through exactly when both sides are quoted and a buyer's ask is within the ceiling. */
  lemma MidEntryGoesThroughIff(config: Config, snaps: seq<Snapshot>, i: nat, a: Action)
    requires i < |snaps| && config.orderType.MarketOrder? && config.fillMode.AtMid?
    ensures
      var bids, asks := BidsOf(snaps[i], a.side), AsksOf(snaps[i], a.side);
      OpenBooking(config, snaps, i, a).Some? <==>
        bids != [] && asks != [] && (a.side.IsBuy() ==> asks[0].price <= config.maxFillPrice)
  {
  }

  // ---------------------------------------------------------------- closes

  /** The shares an entry bought. */
  function Bought(entry: Trade): real {
    if entry.price > 0.0 then entry.size / entry.price else 0.0
  }

  predicate OnYes(side: Side) { side == BuyYes || side == SellYes }

  /** Walking the bids: for as many of the shares as they want, at no more than the best of them. */
  ghost predicate WalkedOut(bids: seq<Level>, held: real, t: Trade) {
    Taken(bids, held, t.price, t.size, t.slippageBps) && FeeDue(t.marketId, t.size, t.price, t.fees)
  }

  ghost predicate Taken(bids: seq<Level>, held: real, price: real, usd: real, slippageBps: real) {
    && held > 0.0 && bids != [] && 0.0 <= price <= bids[0].price
    && price * Min(held, SharesOffered(bids)) == usd
    && slippageBps == (bids[0].price - price) * 10000.0
  }

  lemma {:induction false} FillIsTaken(bids: seq<Level>, held: real)
    requires BidBook(bids) && SellFill(bids, held).Some?
    ensures
      var f := SellFill(bids, held).value;
      Taken(bids, held, f.avgPrice, f.usd, f.slippageBps)
  {
    SellFillsWhatIsThere(bids, held);
  }

  lemma CloseIsSale(config: Config, p: Position, snap: Snapshot, b: Booking)
    requires CloseBooking(config, p, snap) == Some(b) && config.fillMode.WalkTheBook? && p.side.IsBuy()
    ensures SellFill(BidsOf(snap, p.side), SharesHeld(p)).Some?
    ensures
      var f := SellFill(BidsOf(snap, p.side), SharesHeld(p)).value;
      b == WithFee(snap, f.avgPrice, f.usd, f.slippageBps)
  {
  }

  /** What the close of an entry looks like at this snapshot. */
  ghost predicate Undoes(config: Config, snap: Snapshot, entry: Trade, t: Trade) {
    var bids, asks := BidsOf(snap, entry.side), AsksOf(snap, entry.side);
    && Stamped(t, snap)
    && OnYes(t.side) == OnYes(entry.side) && t.side.IsBuy() != entry.side.IsBuy()
    && (config.fillMode.AtMid? ==> Midway(bids, asks, t) && t.size == Bought(entry) * t.price)
    && (config.fillMode.WalkTheBook? && entry.side.IsBuy() && BidBook(bids) ==> WalkedOut(bids, Bought(entry), t))
  }

  lemma {:induction false} CloseUndoes(
      config: Config, p: Position, snap: Snapshot, b: Booking, entry: Trade, pnl: Option<real>)
    requires CloseBooking(config, p, snap) == Some(b)
    requires p.side == entry.side && p.entryPrice == entry.price && p.entryUsd == entry.size
    ensures Undoes(config, snap, entry, BookedTrade(snap, CloseSide(p.side), b, pnl))
  {
    if config.fillMode.AtMid? {
      MidCloseUndoes(config, p, snap, b, pnl);
    } else if p.side.IsBuy() && BidBook(BidsOf(snap, p.side)) {
      WalkCloseUndoes(config, p, snap, b, pnl);
    }
  }

  lemma MidCloseUndoes(config: Config, p: Position, snap: Snapshot, b: Booking, pnl: Option<real>)
    requires CloseBooking(config, p, snap) == Some(b) && config.fillMode.AtMid?
    ensures Midway(BidsOf(snap, p.side), AsksOf(snap, p.side), BookedTrade(snap, CloseSide(p.side), b, pnl))
    ensures b.usd == SharesHeld(p) * b.price
  {
    FeeIsDue(snap, b.price, b.usd, b.slippageBps);
  }

  lemma {:induction false} WalkCloseUndoes(config: Config, p: Position, snap: Snapshot, b: Booking, pnl: Option<real>)
    requires CloseBooking(config, p, snap) == Some(b) && config.fillMode.WalkTheBook?
    requires p.side.IsBuy() && BidBook(BidsOf(snap, p.side))
    ensures WalkedOut(BidsOf(snap, p.side), SharesHeld(p), BookedTrade(snap, CloseSide(p.side), b, pnl))
  {
    FeeIsDue(snap, b.price, b.usd, b.slippageBps);
    CloseIsSale(config, p, snap, b);
    FillIsTaken(BidsOf(snap, p.side), SharesHeld(p));
  }

  /** A close goes through exactly when shares are held and the best bid for them is a price someone wants them at. */
  lemma {:induction false} CloseGoesThroughIff(config: Config, p: Position, snap: Snapshot)
    requires config.fillMode.WalkTheBook? && p.side.IsBuy() && BidBook(BidsOf(snap, p.side))
    ensures
      var bids := BidsOf(snap, p.side);
      CloseBooking(config, p, snap).Some? <==>
        && SharesHeld(p) > 0.0 && bids != [] && 0.0 < bids[0].price < 1.0 && SharesOffered(bids) > 0.0
  {
    if SharesHeld(p) > 0.0 {
      SellFillsWhatIsThere(BidsOf(snap, p.side), SharesHeld(p));
    }
  }

  // ------------------------------------------------------------------ the log

  /** The trade at place j was made at snapshot i: an entry for what was asked there, or the close of the one before. */
  ghost predicate MadeAt(params: Params, snaps: seq<Snapshot>, i: nat, trades: seq<Trade>, j: nat)
    requires i < |snaps| && j < |trades|
  {
    if j % 2 == 1 then Undoes(params.config, snaps[i], trades[j - 1], trades[j])
    else
      EntryAsked(params, snaps, i).Some?
      && Answers(params.config, snaps[i], EntryAsked(params, snaps, i).value, trades[j])
  }

  ghost predicate MadeBefore(params: Params, snaps: seq<Snapshot>, k: nat, trades: seq<Trade>, j: nat)
    requires k <= |snaps| && j < |trades|
  {
    exists i: nat :: i < k && MadeAt(params, snaps, i, trades, j)
  }

  /** The first n trades were made at the first k snapshots. */
  ghost predicate AllMade(params: Params, snaps: seq<Snapshot>, k: nat, trades: seq<Trade>, n: nat)
    requires k <= |snaps| && n <= |trades|
  {
    forall j: nat :: j < n ==> MadeBefore(params, snaps, k, trades, j)
  }

  /** What a trade says beside its profit. */
  ghost predicate SameFill(t: Trade, u: Trade) {
    t == u.(pnl := t.pnl, resolutionYesPrice := t.resolutionYesPrice)
  }

  lemma AnswersAlike(config: Config, snap: Snapshot, a: Action, t: Trade, u: Trade)
    requires SameFill(t, u) && Answers(config, snap, a, t)
    ensures Answers(config, snap, a, u)
  {
  }

  lemma UndoesAlike(config: Config, snap: Snapshot, entry: Trade, t: Trade, entry': Trade, t': Trade)
    requires SameFill(entry, entry') && SameFill(t, t') && Undoes(config, snap, entry, t)
    ensures Undoes(config, snap, entry', t')
  {
  }

  lemma {:induction false} MadeAlike(
      params: Params, snaps: seq<Snapshot>, i: nat, trades: seq<Trade>, others: seq<Trade>, j: nat)
    requires i < |snaps| && j < |trades| && j < |others| && MadeAt(params, snaps, i, trades, j)
    requires forall h :: 0 <= h <= j ==> SameFill(trades[h], others[h])
    ensures MadeAt(params, snaps, i, others, j)
  {
    if j % 2 == 1 {
      UndoesAlike(params.config, snaps[i], trades[j - 1], trades[j], others[j - 1], others[j]);
    } else {
      AnswersAlike(params.config, snaps[i], EntryAsked(params, snaps, i).value, trades[j], others[j]);
    }
  }

  lemma {:induction false} MadeStays(
      params: Params, snaps: seq<Snapshot>, k: nat, later: nat, trades: seq<Trade>, others: seq<Trade>, n: nat)
    requires k <= later <= |snaps| && n <= |trades| && n <= |others| && AllMade(params, snaps, k, trades, n)
    requires forall h :: 0 <= h < n ==> SameFill(trades[h], others[h])
    ensures AllMade(params, snaps, later, others, n)
  {
    forall j: nat | j < n ensures MadeBefore(params, snaps, later, others, j) {
      assert MadeBefore(params, snaps, k, trades, j);
      var i: nat :| i < k && MadeAt(params, snaps, i, trades, j);
      MadeAlike(params, snaps, i, trades, others, j);
    }
  }

  /** One step of a replay: what is booked, entered in the ledger. */
  lemma StepBooks(params: Params, snaps: seq<Snapshot>, k: nat)
    requires k < |snaps|
    ensures
      var g := RunTo(DeskOf(params), snaps, k).ledger;
      RunTo(DeskOf(params), snaps, k + 1).ledger == Book(g, snaps[k], BookedAt(params, snaps, k))
  {
  }

  /** Booked while flat: what was asked for, if the market gives it. */
  lemma EntryBooksAsked(params: Params, snaps: seq<Snapshot>, k: nat)
    requires k < |snaps| && RunTo(DeskOf(params), snaps, k).ledger.position.None?
    ensures
      var asked := EntryAsked(params, snaps, k);
      BookedAt(params, snaps, k) ==
        if asked.None? then None
        else OnSide(asked.value.side, OpenBooking(params.config, snaps, k, asked.value))
  {
  }

  /** Booked in a position: its close, if one is wanted and the market takes it. */
  lemma CloseBooksHeld(params: Params, snaps: seq<Snapshot>, k: nat)
    requires k < |snaps| && RunTo(DeskOf(params), snaps, k).ledger.position.Some?
    ensures
      var p := RunTo(DeskOf(params), snaps, k).ledger.position.value;
      || BookedAt(params, snaps, k) == None
      || BookedAt(params, snaps, k) == OnSide(CloseSide(p.side), CloseBooking(params.config, p, snaps[k]))
  {
  }

  /** The old trades keep their fills, and one more follows them. */
  ghost predicate Continues(before: seq<Trade>, after: seq<Trade>) {
    |after| == |before| + 1 && forall h :: 0 <= h < |before| ==> SameFill(before[h], after[h])
  }

  lemma {:induction false} OpeningIsMade(params: Params, snaps: seq<Snapshot>, k: nat, g: Ledger, b: Booking)
    requires k < |snaps| && g.position.None? && |g.trades| % 2 == 0
    requires EntryAsked(params, snaps, k).Some?
    requires OpenBooking(params.config, snaps, k, EntryAsked(params, snaps, k).value) == Some(b)
    ensures
      var after := Opened(g, snaps[k], EntryAsked(params, snaps, k).value.side, b).trades;
      Continues(g.trades, after) && MadeAt(params, snaps, k, after, |g.trades|)
  {
    EntryAnswers(params.config, snaps, k, EntryAsked(params, snaps, k).value, b, None);
  }

  lemma {:induction false} ClosingIsMade(params: Params, snaps: seq<Snapshot>, k: nat, g: Ledger, b: Booking)
    requires k < |snaps| && g.position.Some? && Logged(g, MaxTrades(params.spec))
    requires CloseBooking(params.config, g.position.value, snaps[k]) == Some(b)
    ensures
      var after := Closed(g, snaps[k], b).trades;
      Continues(g.trades, after) && MadeAt(params, snaps, k, after, |g.trades|)
  {
    var p := g.position.value;
    var after := Closed(g, snaps[k], b).trades;
    CloseUndoes(params.config, p, snaps[k], b, after[|g.trades| - 1], Some(b.usd - p.entryUsd));
  }

  /** What a snapshot adds to the log was made there. */
  lemma {:induction false} NewTradeIsMade(params: Params, snaps: seq<Snapshot>, k: nat)
    requires k < |snaps|
    ensures
      var before := RunTo(DeskOf(params), snaps, k).ledger.trades;
      var after := RunTo(DeskOf(params), snaps, k + 1).ledger.trades;
      || after == before
      || (Continues(before, after) && MadeAt(params, snaps, k, after, |before|))
  {
    var g := RunTo(DeskOf(params), snaps, k).ledger;
    RunKeepsLog(DeskOf(params), snaps, k);
    StepBooks(params, snaps, k);
    var booked := BookedAt(params, snaps, k);
    if booked.Some? {
      if g.position.Some? {
        CloseBooksHeld(params, snaps, k);
        ClosingIsMade(params, snaps, k, g, booked.value.1);
      } else {
        EntryBooksAsked(params, snaps, k);
        OpeningIsMade(params, snaps, k, g, booked.value.1);
      }
    }
  }

  function LogAt(params: Params, snaps: seq<Snapshot>, k: nat): seq<Trade>
    requires k <= |snaps|
  {
    RunTo(DeskOf(params), snaps, k).ledger.trades
  }

  /** Every trade of the log was made at one of the snapshots so far. */
  ghost predicate MadeSoFar(params: Params, snaps: seq<Snapshot>, k: nat)
    requires k <= |snaps|
  {
    AllMade(params, snaps, k, LogAt(params, snaps, k), |LogAt(params, snaps, k)|)
  }

  lemma {:induction false} NextIsMade(params: Params, snaps: seq<Snapshot>, k: nat)
    requires k < |snaps| && MadeSoFar(params, snaps, k)
    ensures MadeSoFar(params, snaps, k + 1)
  {
    NewTradeIsMade(params, snaps, k);
    var n := |LogAt(params, snaps, k)|;
    MadeStays(params, snaps, k, k + 1, LogAt(params, snaps, k), LogAt(params, snaps, k + 1), n);
    if |LogAt(params, snaps, k + 1)| > n {
      MadeHere(params, snaps, k, k + 1, LogAt(params, snaps, k + 1), n);
      OneMoreMade(params, snaps, k + 1, LogAt(params, snaps, k + 1), n);
    }
  }

  lemma MadeHere(params: Params, snaps: seq<Snapshot>, k: nat, later: nat, trades: seq<Trade>, n: nat)
    requires k < later <= |snaps| && n < |trades| && MadeAt(params, snaps, k, trades, n)
    ensures MadeBefore(params, snaps, later, trades, n)
  {
  }

  lemma OneMoreMade(params: Params, snaps: seq<Snapshot>, later: nat, trades: seq<Trade>, n: nat)
    requires later <= |snaps| && n + 1 == |trades|
    requires AllMade(params, snaps, later, trades, n) && MadeBefore(params, snaps, later, trades, n)
    ensures AllMade(params, snaps, later, trades, |trades|)
  {
    forall j: nat | j < |trades| ensures MadeBefore(params, snaps, later, trades, j) {
      assert j < n || j == n;
    }
  }

  lemma {:induction false} MadeStepByStep(params: Params, snaps: seq<Snapshot>, k: nat)
    requires k <= |snaps| && MadeSoFar(params, snaps, 0)
    requires forall i :: 0 <= i < k && MadeSoFar(params, snaps, i) ==> MadeSoFar(params, snaps, i + 1)
    ensures MadeSoFar(params, snaps, k)
  {
    if k > 0 {
      MadeStepByStep(params, snaps, k - 1);
    }
  }

  lemma {:induction false} RunTradesAreMade(params: Params, snaps: seq<Snapshot>, k: nat)
    requires k <= |snaps|
    ensures MadeSoFar(params, snaps, k)
  {
    forall i | 0 <= i < k && MadeSoFar(params, snaps, i) ensures MadeSoFar(params, snaps, i + 1) {
      NextIsMade(params, snaps, i);
    }
    MadeStepByStep(params, snaps, k);
  }

  /**
   The log of a finished replay holds what the market gave: each entry answers an action the
   strategy asked for at some snapshot, each close undoes the entry before it at another.
   */
  lemma {:induction false} ReplayTradesAreMade(params: Params, snaps: seq<Snapshot>, y: real)
    ensures AllMade(params, snaps, |snaps|, Replay(params, snaps, y).trades, |Replay(params, snaps, y).trades|)
  {
    RunTradesAreMade(params, snaps, |snaps|);
    var trades := LogAt(params, snaps, |snaps|);
    MadeStays(params, snaps, |snaps|, |snaps|, trades, Settled(trades, y), |trades|);
  }

  // -------------------------------------------------------- the cap on entries

  lemma {:induction false} FunctionTradesNext(params: Params, snaps: seq<Snapshot>, k: nat)
    requires k < |snaps| && params.spec.FunctionStrategy? && |LogAt(params, snaps, k)| <= 1
    ensures |LogAt(params, snaps, k + 1)| <= 1
  {
    RunKeepsLog(DeskOf(params), snaps, k);
    if RunTo(DeskOf(params), snaps, k).ledger.position.Some? {
      HoldsOn(params, snaps, k);
    } else {
      StepBooks(params, snaps, k);
    }
  }

  /** A function strategy enters once at most and never leaves before settlement. */
  lemma {:induction false} FunctionStrategiesTradeOnce(params: Params, snaps: seq<Snapshot>, y: real)
    requires params.spec.FunctionStrategy?
    ensures |Replay(params, snaps, y).trades| <= 1
  {
    FunctionLogIsShort(params, snaps, |snaps|);
  }

  /** A condition-based strategy enters at most as often as it is set to. */
  lemma {:induction false} ConditionEntriesAreCapped(params: Params, snaps: seq<Snapshot>, y: real)
    requires params.spec.ConditionBased?
    ensures Replay(params, snaps, y).trades == []
         || (|Replay(params, snaps, y).trades| + 1) / 2 <= params.spec.maxTrades
  {
    ReplayBooksBalance(params, snaps, y);
  }

  /** And it is asked for an entry at every snapshot at which it is flat and has entered less often than that. */
  lemma {:induction false} FlatBelowCapIsAsked(params: Params, snaps: seq<Snapshot>, k: nat)
    requires k < |snaps| && params.spec.ConditionBased? && |LogAt(params, snaps, k)| % 2 == 0
    ensures
      var st := RunTo(DeskOf(params), snaps, k);
      EntryAsked(params, snaps, k) ==
        if |LogAt(params, snaps, k)| / 2 >= params.spec.maxTrades then None
        else Decide(params.spec, st.cross, WindowBefore(snaps, k, 59), snaps[k],
                    Context(params.resolutionAt, Some(snaps[0]))).action
  {
    RunKeepsLog(DeskOf(params), snaps, k);
    HandedIsJustBefore(DeskOf(params), snaps, k);
  }

  lemma {:induction false} FunctionLogIsShort(params: Params, snaps: seq<Snapshot>, k: nat)
    requires k <= |snaps| && params.spec.FunctionStrategy?
    ensures |LogAt(params, snaps, k)| <= 1
  {
    if k > 0 {
      FunctionLogIsShort(params, snaps, k - 1);
      FunctionTradesNext(params, snaps, k - 1);
    }
  }
}

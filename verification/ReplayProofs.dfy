/** What holds of every replay, whatever the strategy and the market do. */
module ReplayProofs {
  import opened Types
  import opened Reals
  import opened Slippage
  import opened Strategies
  import opened Engine
  import L = LimitOrder

  // ------------------------------------------------------- history window

  function WindowBefore(snaps: seq<Snapshot>, k: nat, size: nat): seq<Snapshot>
    requires k <= |snaps|
  {
    snaps[(if k < size then 0 else k - size)..k]
  }

  lemma PushSlides(snaps: seq<Snapshot>, k: nat)
    requires k < |snaps|
    ensures Push(WindowBefore(snaps, k, 60), snaps[k]) == WindowBefore(snaps, k + 1, 60)
  {
  }

  lemma HandedWindow(snaps: seq<Snapshot>, k: nat)
    requires k < |snaps|
    ensures Handed(WindowBefore(snaps, k + 1, 60)) == WindowBefore(snaps, k, 59)
  {
  }

  /** The deque holds the last sixty snapshots. */
  lemma {:induction false} HistoryIsWindow(desk: Desk, snaps: seq<Snapshot>, k: nat)
    requires k <= |snaps|
    ensures RunTo(desk, snaps, k).history == WindowBefore(snaps, k, 60)
  {
    if k > 0 {
      HistoryIsWindow(desk, snaps, k - 1);
      PushSlides(snaps, k - 1);
    }
  }

  /** The strategy is handed exactly the at most 59 snapshots just before the current one. */
  lemma {:induction false} HandedIsJustBefore(desk: Desk, snaps: seq<Snapshot>, i: nat)
    requires i < |snaps|
    ensures Handed(Push(RunTo(desk, snaps, i).history, snaps[i])) == snaps[(if i < 59 then 0 else i - 59)..i]
  {
    HistoryIsWindow(desk, snaps, i);
    PushSlides(snaps, i);
    HandedWindow(snaps, i);
  }

  // ------------------------------------------------------------ trade log

  function TotalFees(trades: seq<Trade>): real {
    if trades == [] then 0.0 else trades[0].fees + TotalFees(trades[1..])
  }

  /** A close undoes its entry's side and carries the whole round trip's profit. */
  predicate ClosesEntry(entry: Trade, close: Trade) {
    && close.side == CloseSide(entry.side)
    && entry.pnl == Some(0.0)
    && close.pnl == Some(close.size - entry.size)
  }

  /** Entries sit at even places, each followed by its close; only a last entry may be open. */
  ghost predicate Alternating(trades: seq<Trade>) {
    && (forall j :: 0 <= j < |trades| && j % 2 == 1 ==> ClosesEntry(trades[j - 1], trades[j]))
    && (|trades| % 2 == 1 ==> trades[|trades| - 1].pnl == None)
  }

  ghost predicate Holds(p: Position, trades: seq<Trade>) {
    && |trades| > 0
    && p.entryIdx == |trades| - 1
    && var entry := trades[|trades| - 1];
       p.side == entry.side && p.entryPrice == entry.price && p.entryUsd == entry.size
  }

  ghost predicate Logged(g: Ledger, maxTrades: int) {
    && Alternating(g.trades)
    && (g.position.Some? <==> |g.trades| % 2 == 1)
    && (g.position.Some? ==> Holds(g.position.value, g.trades))
    && g.fills == (|g.trades| + 1) / 2
    && (g.fills == 0 || g.fills <= maxTrades)
    && g.fees == TotalFees(g.trades)
  }

  lemma {:induction false} FeesAppend(a: seq<Trade>, t: Trade)
    ensures TotalFees(a + [t]) == TotalFees(a) + t.fees
  {
    if a != [] {
      FeesAppend(a[1..], t);
      assert (a + [t])[1..] == a[1..] + [t];
    }
  }

  lemma {:induction false} FeesUpdate(a: seq<Trade>, i: nat, t: Trade)
    requires i < |a| && t.fees == a[i].fees
    ensures TotalFees(a[i := t]) == TotalFees(a)
  {
    if i > 0 {
      FeesUpdate(a[1..], i - 1, t);
      assert a[i := t][1..] == a[1..][i - 1 := t];
    } else {
      assert a[i := t][1..] == a[1..];
    }
  }

  lemma {:induction false} BookKeepsLog(g: Ledger, snap: Snapshot, booked: Option<(Side, Booking)>, maxTrades: int)
    requires Logged(g, maxTrades) && PositionInLog(g)
    requires booked.Some? && g.position.None? ==> g.fills < maxTrades
    ensures Logged(Book(g, snap, booked), maxTrades)
  {
    if booked.Some? {
      var b := booked.value.1;
      if g.position.Some? {
        var idx := g.position.value.entryIdx;
        var entry := g.trades[idx].(pnl := Some(0.0));
        FeesUpdate(g.trades, idx, entry);
        FeesAppend(g.trades[idx := entry], Closed(g, snap, b).trades[|g.trades|]);
      } else {
        FeesAppend(g.trades, BookedTrade(snap, booked.value.0, b, None));
      }
    }
  }

  lemma EntriesAreCapped(desk: Desk, snaps: seq<Snapshot>, i: nat, st: State)
    requires i < |snaps|
    ensures NextOutcome(desk, snaps, i, st).booked.Some? && st.ledger.position.None? ==>
      st.ledger.fills < desk.maxTrades
  {
  }

  /** The ledger of every replay satisfies the log invariant, after every snapshot. */
  lemma {:induction false} RunKeepsLog(desk: Desk, snaps: seq<Snapshot>, k: nat)
    requires k <= |snaps|
    ensures Logged(RunTo(desk, snaps, k).ledger, desk.maxTrades)
  {
    if k > 0 {
      RunKeepsLog(desk, snaps, k - 1);
      var st := RunTo(desk, snaps, k - 1);
      EntriesAreCapped(desk, snaps, k - 1, st);
      BookKeepsLog(st.ledger, snaps[k - 1], NextOutcome(desk, snaps, k - 1, st).booked, desk.maxTrades);
    }
  }

  // ----------------------------------------------------------- accounting

  /** Proceeds minus cost of every closed position, plus the settlement of an open one. */
  function Realised(trades: seq<Trade>, yesResolvedPrice: real): real {
    if trades == [] then 0.0
    else if |trades| == 1 then
      SettledPnl(trades[0].side, trades[0].price, trades[0].size, yesResolvedPrice)
    else trades[1].size - trades[0].size + Realised(trades[2..], yesResolvedPrice)
  }

  lemma {:induction false} SettledIsRealised(trades: seq<Trade>, y: real)
    requires Alternating(trades)
    ensures TotalPnl(Settled(trades, y)) == Realised(trades, y)
  {
    var s := Settled(trades, y);
    if |trades| == 1 {
      assert s[1..] == [];
    } else if trades != [] {
      assert ClosesEntry(trades[0], trades[1]);
      assert s[1..][1..] == Settled(trades[2..], y);
      TailAlternates(trades);
      SettledIsRealised(trades[2..], y);
    }
  }

  lemma TailAlternates(trades: seq<Trade>)
    requires Alternating(trades) && |trades| >= 2
    ensures Alternating(trades[2..])
  {
  }

  lemma {:induction false} SettlingKeeps(trades: seq<Trade>, y: real)
    ensures TotalFees(Settled(trades, y)) == TotalFees(trades)
    ensures Realised(Settled(trades, y), y) == Realised(trades, y)
    decreases |trades|
  {
    if trades != [] {
      SettlingKeeps(trades[1..], y);
      if |trades| > 1 {
        SettlingKeeps(trades[2..], y);
        assert Settled(trades, y)[2..] == Settled(trades[2..], y);
      }
    }
  }

  /** The trade carries the resolution and the profit it settles at. */
  predicate SettledAt(t: Trade, y: real) {
    t.resolutionYesPrice == Some(y) && t.pnl == Some(SettledPnl(t.side, t.price, t.size, y))
  }

  /** Every trade is settled: closes carry their round trip, an open position the resolution. */
  ghost predicate AllSettled(trades: seq<Trade>, y: real) {
    var n := |trades|;
    && (forall j :: 0 <= j < n && j % 2 == 1 ==> ClosesEntry(trades[j - 1], trades[j]))
    && (forall j :: 0 <= j < n ==> trades[j].pnl.Some?)
    && (n % 2 == 1 ==> SettledAt(trades[n - 1], y))
  }

  /** The finished books: settled trades, the cap on entries, and totals that add up. */
  ghost predicate BooksBalance(r: Result, y: real, maxTrades: int) {
    && AllSettled(r.trades, y)
    && (r.trades != [] ==> (|r.trades| + 1) / 2 <= maxTrades)
    && r.pnl == Realised(r.trades, y)
    && r.fees == TotalFees(r.trades)
  }

  lemma SettlingSettlesAll(trades: seq<Trade>, y: real)
    requires Alternating(trades)
    ensures AllSettled(Settled(trades, y), y)
  {
  }

  lemma {:induction false} SettlingBalances(g: Ledger, y: real, maxTrades: int)
    requires Logged(g, maxTrades)
    ensures BooksBalance(Result(Settled(g.trades, y), TotalPnl(Settled(g.trades, y)), g.fees), y, maxTrades)
  {
    SettlingSettlesAll(g.trades, y);
    SettledIsRealised(g.trades, y);
    SettlingKeeps(g.trades, y);
  }

  /** The books of every replay balance. */
  lemma {:induction false} ReplayBooksBalance(params: Params, snaps: seq<Snapshot>, y: real)
    ensures BooksBalance(Replay(params, snaps, y), y, MaxTrades(params.spec))
  {
    RunKeepsLog(DeskOf(params), snaps, |snaps|);
    SettlingBalances(RunTo(DeskOf(params), snaps, |snaps|).ledger, y, MaxTrades(params.spec));
  }

  // ----------------------------------------------------------- worst case

  /** USD put into entries. */
  function Staked(trades: seq<Trade>): real {
    if trades == [] then 0.0
    else if |trades| == 1 then trades[0].size
    else trades[0].size + Staked(trades[2..])
  }

  ghost predicate SoundSnapshot(s: Snapshot) {
    Sound(s.yesBids) && Sound(s.yesAsks) && Sound(s.noBids) && Sound(s.noAsks)
  }

  /** The strategy only ever buys, for a non-negative amount. */
  ghost predicate BuysOnly(spec: StrategySpec) {
    match spec
    case FunctionStrategy(decide) =>
      forall h, s, r :: decide(h, s, r).Some? ==>
        decide(h, s, r).value.side.IsBuy() && decide(h, s, r).value.sizeUsd >= 0.0
    case ConditionBased(_, _, _, _, sizeUsd, _, _) => sizeUsd >= 0.0
  }

  /** Trades move non-negative amounts at non-negative prices, and entries are buys. */
  ghost predicate Priced(trades: seq<Trade>) {
    forall j :: 0 <= j < |trades| ==>
      trades[j].price >= 0.0 && trades[j].size >= 0.0 && (j % 2 == 0 ==> trades[j].side.IsBuy())
  }

  lemma {:induction false} BuyTotalsNonNegative(levels: seq<Level>, usd: real)
    requires Sound(levels) && usd >= 0.0
    requires levels != [] ==> usd > 0.0 || levels[0].price > 0.0
    ensures BuyTotals(levels, usd).usd >= 0.0 && BuyTotals(levels, usd).shares >= 0.0
  {
    if levels != [] {
      MulNonNegative(levels[0].price, levels[0].size);
      if usd > Notional(levels[0]) {
        BuyTotalsNonNegative(levels[1..], usd - Notional(levels[0]));
      } else {
        DivNonNegative(usd, levels[0].price);
      }
    }
  }

  lemma DivNonNegative(x: real, y: real)
    requires x >= 0.0 && y >= 0.0 && y != 0.0
    ensures x / y >= 0.0
  {
  }

  lemma {:induction false} SellTotalsNonNegative(levels: seq<Level>, shares: real)
    requires Sound(levels) && shares >= 0.0
    ensures SellTotals(levels, shares).usd >= 0.0
  {
    if levels != [] {
      var take := Min(shares, levels[0].size);
      MulNonNegative(take, levels[0].price);
      SellTotalsNonNegative(levels[1..], shares - take);
    }
  }

  lemma {:induction false} FillsNonNegative(levels: seq<Level>, amount: real)
    requires Sound(levels) && amount >= 0.0
    ensures BuyFill(levels, amount).Some? ==>
      BuyFill(levels, amount).value.usd >= 0.0 && BuyFill(levels, amount).value.avgPrice >= 0.0
    ensures SellFill(levels, amount).Some? ==>
      SellFill(levels, amount).value.usd >= 0.0 && SellFill(levels, amount).value.avgPrice >= 0.0
  {
    if BuyFill(levels, amount).Some? {
      BuyTotalsNonNegative(levels, amount);
      var t := BuyTotals(levels, amount);
      DivNonNegative(t.usd, t.shares);
    }
    if SellFill(levels, amount).Some? {
      SellTotalsNonNegative(levels, amount);
      var t := SellTotals(levels, amount);
      DivNonNegative(t.usd, t.shares);
    }
  }

  lemma {:induction false} OpenBookingPriced(config: Config, snaps: seq<Snapshot>, i: nat, a: Action)
    requires i < |snaps| && SoundSnapshot(snaps[i]) && a.sizeUsd >= 0.0
    ensures OpenBooking(config, snaps, i, a).Some? ==>
      OpenBooking(config, snaps, i, a).value.price >= 0.0 && OpenBooking(config, snaps, i, a).value.usd >= 0.0
  {
    FillsNonNegative(BookForSide(snaps[i], a.side), a.sizeUsd);
    var reference := LimitReference(snaps[i], a.side);
    if config.orderType.LimitOrder? && reference.Some? {
      var o, start := AsLimitOrder(config, a, reference.value), FirstIndex(snaps, i);
      if L.Scan(o, snaps, start).Some? {
        L.ScanFinds(o, snaps, start, start);
      }
    }
  }

  lemma HeldNonNegative(p: Position)
    requires p.entryUsd >= 0.0
    ensures SharesHeld(p) >= 0.0
  {
  }

  lemma MidWorthNonNegative(p: Position, mid: real)
    requires p.entryUsd >= 0.0 && mid >= 0.0
    ensures WorthAtMid(p, mid) >= 0.0
  {
  }

  lemma {:induction false} CloseBookingPriced(config: Config, p: Position, snap: Snapshot)
    requires SoundSnapshot(snap) && p.entryUsd >= 0.0
    ensures CloseBooking(config, p, snap).Some? ==>
      CloseBooking(config, p, snap).value.price >= 0.0 && CloseBooking(config, p, snap).value.usd >= 0.0
  {
    var mid := MidForSide(snap, CloseSide(p.side));
    if config.fillMode.WalkTheBook? {
      HeldNonNegative(p);
      FillsNonNegative(BookForSide(snap, CloseSide(p.side)), SharesHeld(p));
    } else if mid.Some? {
      MidWorthNonNegative(p, mid.value);
    }
  }

  ghost predicate PricedBooking(b: Booking) { b.price >= 0.0 && b.usd >= 0.0 }

  /** On these snapshots the desk only opens with buys, and whatever it books is priced. */
  ghost predicate PricedDesk(desk: Desk, snaps: seq<Snapshot>) {
    && (forall p: Position, cross, earlier, i, ctx :: 0 <= i < |snaps| && p.entryUsd >= 0.0 ==>
          var booked := desk.exit(p, cross, earlier, snaps[i], ctx).booked;
          booked.Some? ==> PricedBooking(booked.value.1))
    && (forall cross, earlier, i: nat, ctx :: i < |snaps| ==>
          var booked := desk.entry(cross, earlier, (snaps, i), ctx).booked;
          booked.Some? ==> PricedBooking(booked.value.1) && booked.value.0.IsBuy())
  }

  lemma {:induction false} BuyingDeskIsPriced(params: Params, snaps: seq<Snapshot>)
    requires BuysOnly(params.spec) && forall i :: 0 <= i < |snaps| ==> SoundSnapshot(snaps[i])
    ensures PricedDesk(DeskOf(params), snaps)
  {
    var desk := DeskOf(params);
    forall p: Position, cross, earlier, i, ctx | 0 <= i < |snaps| && p.entryUsd >= 0.0
      ensures
        var booked := desk.exit(p, cross, earlier, snaps[i], ctx).booked;
        booked.Some? ==> PricedBooking(booked.value.1)
    {
      CloseBookingPriced(params.config, p, snaps[i]);
    }
    forall cross, earlier, i: nat, ctx | i < |snaps|
      ensures
        var booked := desk.entry(cross, earlier, (snaps, i), ctx).booked;
        booked.Some? ==> PricedBooking(booked.value.1) && booked.value.0.IsBuy()
    {
      EntryIsPriced(params, cross, earlier, snaps, i, ctx);
    }
  }

  lemma {:induction false} EntryIsPriced(
      params: Params, cross: CrossMaps, earlier: seq<Snapshot>, snaps: seq<Snapshot>, i: nat, ctx: Context)
    requires i < |snaps| && SoundSnapshot(snaps[i]) && BuysOnly(params.spec)
    ensures
      var booked := EntryOutcome(params, cross, earlier, (snaps, i), ctx).booked;
      booked.Some? ==> PricedBooking(booked.value.1) && booked.value.0.IsBuy()
  {
    var action := Decide(params.spec, cross, earlier, snaps[i], ctx).action;
    if action.Some? {
      OpenBookingPriced(params.config, snaps, i, action.value);
    }
  }

  ghost predicate PricedAt(desk: Desk, snaps: seq<Snapshot>, i: nat)
    requires i <= |snaps|
  {
    Priced(RunTo(desk, snaps, i).ledger.trades)
  }

  lemma {:induction false} NextIsPriced(desk: Desk, snaps: seq<Snapshot>, i: nat)
    requires i < |snaps| && PricedDesk(desk, snaps) && PricedAt(desk, snaps, i)
    ensures PricedAt(desk, snaps, i + 1)
  {
    RunKeepsLog(desk, snaps, i);
    var st := RunTo(desk, snaps, i);
    BookKeepsPriced(st.ledger, snaps[i], NextOutcome(desk, snaps, i, st).booked, desk.maxTrades);
  }

  lemma {:induction false} PricedStepByStep(desk: Desk, snaps: seq<Snapshot>, k: nat)
    requires k <= |snaps|
    requires forall i :: 0 <= i < k && PricedAt(desk, snaps, i) ==> PricedAt(desk, snaps, i + 1)
    ensures PricedAt(desk, snaps, k)
  {
    if k > 0 {
      PricedStepByStep(desk, snaps, k - 1);
    }
  }

  lemma {:induction false} RunIsPriced(desk: Desk, snaps: seq<Snapshot>, k: nat)
    requires k <= |snaps| && PricedDesk(desk, snaps)
    ensures PricedAt(desk, snaps, k)
  {
    forall i | 0 <= i < k && PricedAt(desk, snaps, i) ensures PricedAt(desk, snaps, i + 1) {
      NextIsPriced(desk, snaps, i);
    }
    PricedStepByStep(desk, snaps, k);
  }

  lemma BookKeepsPriced(g: Ledger, snap: Snapshot, booked: Option<(Side, Booking)>, maxTrades: int)
    requires Logged(g, maxTrades) && PositionInLog(g) && Priced(g.trades)
    requires booked.Some? ==>
      && PricedBooking(booked.value.1)
      && (g.position.None? ==> booked.value.0.IsBuy())
    ensures Priced(Book(g, snap, booked).trades)
  {
  }

  lemma {:induction false} LossAtMostStake(trades: seq<Trade>, y: real)
    requires Priced(trades) && 0.0 <= y <= 1.0
    ensures Realised(trades, y) >= -Staked(trades)
  {
    if |trades| == 1 {
      SettlementLossAtMostSize(trades[0].side, trades[0].price, trades[0].size, y);
    } else if trades != [] {
      LossAtMostStake(trades[2..], y);
    }
  }

  lemma PayoffBounds(shares: real, v: real)
    requires shares >= 0.0 && 0.0 <= v <= 1.0
    ensures 0.0 <= shares * v <= shares
  {
  }

  lemma SettlementLossAtMostSize(side: Side, price: real, size: real, y: real)
    requires side.IsBuy() && size >= 0.0 && 0.0 <= y <= 1.0
    ensures SettledPnl(side, price, size, y) >= -size
  {
  }

  /** A settled buy loses at most its stake, and gains at most what a payout of one per share leaves. */
  lemma SettlementBounds(side: Side, price: real, size: real, y: real)
    requires side.IsBuy() && price > 0.0 && size >= 0.0 && 0.0 <= y <= 1.0
    ensures -size <= SettledPnl(side, price, size, y) <= size / price - size
  {
    DivNonNegative(size, price);
    PayoffBounds(size / price, ValuePerShare(side, y));
  }

  /** A winning token pays one per share, a losing one nothing; a seller gets the price and owes the payout. */
  lemma WinnersArePaid(price: real, size: real)
    requires price > 0.0
    ensures SettledPnl(BuyYes, price, size, 1.0) == size / price - size
    ensures SettledPnl(BuyYes, price, size, 0.0) == -size
    ensures SettledPnl(BuyNo, price, size, 0.0) == size / price - size
    ensures SettledPnl(BuyNo, price, size, 1.0) == -size
    ensures SettledPnl(SellYes, price, size, 1.0) == size - size / price
    ensures SettledPnl(SellYes, price, size, 0.0) == size
    ensures SettledPnl(SellNo, price, size, 0.0) == size - size / price
    ensures SettledPnl(SellNo, price, size, 1.0) == size
  {
  }

  lemma QuotientOfProduct(n: real, p: real)
    requires p != 0.0
    ensures n * p / p == n
  {
  }

  /**
   Settlement only moves money: a buyer's gain is the seller's loss, and equal share
   counts of YES at p and NO at 1 - p cost exactly what they pay, however it resolves.
   */
  lemma {:induction false} SettlementIsZeroSum(p: real, size: real, shares: real, y: real)
    requires 0.0 < p < 1.0
    ensures SettledPnl(BuyYes, p, size, y) + SettledPnl(SellYes, p, size, y) == 0.0
    ensures SettledPnl(BuyNo, p, size, y) + SettledPnl(SellNo, p, size, y) == 0.0
    ensures SettledPnl(BuyYes, p, shares * p, y) + SettledPnl(BuyNo, 1.0 - p, shares * (1.0 - p), y) == 0.0
  {
    QuotientOfProduct(shares, p);
    QuotientOfProduct(shares, 1.0 - p);
    OppositePayoffs(size / p, y);
    OppositePayoffs(size / p, 1.0 - y);
    assert shares * y + shares * (1.0 - y) == shares * p + shares * (1.0 - p);
  }

  lemma OppositePayoffs(shares: real, v: real)
    ensures shares * v + shares * -v == 0.0
  {
  }

  /** A run that only buys never loses more than it put in. */
  lemma {:induction false} BuyOnlyLossIsBounded(params: Params, snaps: seq<Snapshot>, y: real)
    requires BuysOnly(params.spec) && 0.0 <= y <= 1.0
    requires forall i :: 0 <= i < |snaps| ==> SoundSnapshot(snaps[i])
    ensures Replay(params, snaps, y).pnl >= -Staked(Replay(params, snaps, y).trades)
  {
    var desk := DeskOf(params);
    BuyingDeskIsPriced(params, snaps);
    RunIsPriced(desk, snaps, |snaps|);
    RunKeepsLog(desk, snaps, |snaps|);
    var trades := RunTo(desk, snaps, |snaps|).ledger.trades;
    SettledIsRealised(trades, y);
    LossAtMostStake(trades, y);
    StakedAfterSettling(trades, y);
  }

  lemma {:induction false} StakedAfterSettling(trades: seq<Trade>, y: real)
    ensures Staked(Settled(trades, y)) == Staked(trades)
  {
    if |trades| > 1 {
      StakedAfterSettling(trades[2..], y);
      assert Settled(trades, y)[2..] == Settled(trades[2..], y);
    }
  }

  // ------------------------------------------------- prices paid and received

  /** The asks and bids of the token a trade is about. */
  function AsksOf(snap: Snapshot, side: Side): seq<Level> {
    if side == BuyYes || side == SellYes then snap.yesAsks else snap.noAsks
  }

  function BidsOf(snap: Snapshot, side: Side): seq<Level> {
    if side == BuyYes || side == SellYes then snap.yesBids else snap.noBids
  }

  /**
   A market buy is booked only if the best ask is within the ceiling, for what the asks
   hold, at an average between the best ask and the last one touched.
   */
  lemma {:induction false} MarketBuyTakesTheAsks(config: Config, snaps: seq<Snapshot>, i: nat, a: Action)
    requires i < |snaps| && a.side.IsBuy() && a.sizeUsd > 0.0
    requires config.orderType.MarketOrder? && config.fillMode.WalkTheBook?
    requires AskBook(AsksOf(snaps[i], a.side)) && OpenBooking(config, snaps, i, a).Some?
    ensures
      var asks, b := AsksOf(snaps[i], a.side), OpenBooking(config, snaps, i, a).value;
      && asks != [] && asks[0].price <= config.maxFillPrice
      && asks[0].price <= b.price <= LastAskTouched(asks, a.sizeUsd)
      && b.usd == Min(a.sizeUsd, Depth(asks))
      && b.fee == PlatformFee(PlatformOf(snaps[i].marketId), b.usd, b.price)
  {
    BuyFillsWhatIsThere(AsksOf(snaps[i], a.side), a.sizeUsd);
    BuyPriceBetween(AsksOf(snaps[i], a.side), a.sizeUsd);
  }

  /** A close sells what the bids want, and all that is held exactly when they want that much. */
  lemma {:induction false} CloseSellsWhatIsBid(config: Config, p: Position, snap: Snapshot)
    requires p.side.IsBuy() && config.fillMode.WalkTheBook? && BidBook(BidsOf(snap, p.side))
    requires CloseBooking(config, p, snap).Some?
    ensures
      var b := CloseBooking(config, p, snap).value;
      SoldFor(b.price, b.usd, SharesHeld(p), SharesOffered(BidsOf(snap, p.side)))
  {
    var bids, held := BidsOf(snap, p.side), SharesHeld(p);
    CloseIsFill(config, p, snap);
    SellFillsWhatIsThere(bids, held);
    SoldOut(SellFill(bids, held).value.avgPrice, SellFill(bids, held).value.usd, held, SharesOffered(bids));
  }

  /** Walking the bids, a close is booked at what the sale of the shares held brings. */
  lemma CloseIsFill(config: Config, p: Position, snap: Snapshot)
    requires p.side.IsBuy() && config.fillMode.WalkTheBook?
    requires CloseBooking(config, p, snap).Some?
    ensures SharesHeld(p) > 0.0 && SellFill(BidsOf(snap, p.side), SharesHeld(p)).Some?
    ensures
      var b, f := CloseBooking(config, p, snap).value, SellFill(BidsOf(snap, p.side), SharesHeld(p)).value;
      b.price == f.avgPrice && b.usd == f.usd
  {
  }

  /** Either way the position is gone: what a thin book leaves over is forfeited. */
  lemma {:induction false} ThinCloseForfeitsTheRest(
      config: Config, g: Ledger, p: Position, snap: Snapshot, b: Booking)
    requires g.position == Some(p) && PositionInLog(g) && p.side.IsBuy() && config.fillMode.WalkTheBook?
    requires BidBook(BidsOf(snap, p.side)) && SharesOffered(BidsOf(snap, p.side)) < SharesHeld(p)
    requires CloseBooking(config, p, snap) == Some(b)
    ensures b.usd == b.price * SharesOffered(BidsOf(snap, p.side))
    ensures Closed(g, snap, b).position == None
    ensures Closed(g, snap, b).trades[|g.trades|].pnl == Some(b.usd - p.entryUsd)
  {
    ThinProceeds(config, p, snap, b);
    ClosedFrees(g, snap, b);
  }

  lemma ThinProceeds(config: Config, p: Position, snap: Snapshot, b: Booking)
    requires p.side.IsBuy() && config.fillMode.WalkTheBook? && BidBook(BidsOf(snap, p.side))
    requires CloseBooking(config, p, snap) == Some(b) && SharesOffered(BidsOf(snap, p.side)) < SharesHeld(p)
    ensures b.usd == b.price * SharesOffered(BidsOf(snap, p.side))
  {
    CloseSellsWhatIsBid(config, p, snap);
  }

  lemma ClosedFrees(g: Ledger, snap: Snapshot, b: Booking)
    requires g.position.Some? && PositionInLog(g)
    ensures Closed(g, snap, b).position == None
    ensures Closed(g, snap, b).trades[|g.trades|].pnl == Some(b.usd - g.position.value.entryUsd)
  {
  }

  /** The lesser of what is held and what is wanted, sold at this price; all of it exactly when that is wanted. */
  ghost predicate SoldFor(price: real, usd: real, held: real, wanted: real) {
    && price >= 0.0
    && usd == price * Min(held, wanted)
    && (wanted < held ==> usd == price * wanted)
    && (price > 0.0 ==> (usd == price * held <==> held <= wanted))
  }

  lemma SoldOut(price: real, usd: real, held: real, wanted: real)
    requires price >= 0.0 && price * Min(held, wanted) == usd
    ensures SoldFor(price, usd, held, wanted)
  {
    if held <= wanted {
      SameProduct(price, Min(held, wanted), held);
    } else {
      SameProduct(price, Min(held, wanted), wanted);
      if price > 0.0 {
        MoreIsMore(price, wanted, held);
      }
    }
  }

  lemma MoreIsMore(price: real, less: real, more: real)
    requires price > 0.0 && less < more
    ensures price * less < price * more
  {
    MulPositive(price, more - less);
    assert price * more - price * less == price * (more - less);
  }

  /** Entering and leaving on the same sorted, uncrossed snapshot never makes money. */
  lemma {:induction false} ImmediateExitNeverProfits(config: Config, snaps: seq<Snapshot>, i: nat, a: Action, idx: nat)
    requires i < |snaps| && a.side.IsBuy() && a.sizeUsd > 0.0
    requires config.orderType.MarketOrder? && config.fillMode.WalkTheBook?
    requires
      var asks, bids := AsksOf(snaps[i], a.side), BidsOf(snaps[i], a.side);
      && AskBook(asks) && BidBook(bids)
      && (asks != [] && bids != [] ==> bids[0].price <= asks[0].price)
    requires OpenBooking(config, snaps, i, a).Some?
    ensures
      var b := OpenBooking(config, snaps, i, a).value;
      var close := CloseBooking(config, Position(a.side, b.price, b.usd, idx), snaps[i]);
      close.Some? ==> close.value.usd <= b.usd
  {
    var asks, bids := AsksOf(snaps[i], a.side), BidsOf(snaps[i], a.side);
    BuyFillsWhatIsThere(asks, a.sizeUsd);
    RoundTripNeverProfits(asks, bids, a.sizeUsd);
  }

  /**
   Filled and closed at the mid of the same snapshot, a buy comes back for what it cost
   exactly when the mid is positive or nothing was spent.
   */
  lemma MidRoundTripIsNeutral(config: Config, snaps: seq<Snapshot>, i: nat, a: Action, idx: nat)
    requires i < |snaps| && a.side.IsBuy()
    requires config.orderType.MarketOrder? && config.fillMode.AtMid?
    requires OpenBooking(config, snaps, i, a).Some?
    ensures
      var b := OpenBooking(config, snaps, i, a).value;
      var close := CloseBooking(config, Position(a.side, b.price, b.usd, idx), snaps[i]);
      && b.usd == a.sizeUsd && close.Some? && close.value.price == b.price
      && (close.value.usd == b.usd <==> b.price > 0.0 || b.usd == 0.0)
  {
  }

  /**
   A limit entry is booked for its whole size, free of fee and slippage, at a price within
   bounds that is no worse than the ask it undercuts, because the order filled before its
   deadline.
   */
  lemma {:induction false} LimitEntryIsMaker(config: Config, snaps: seq<Snapshot>, i: nat, a: Action)
    requires i < |snaps| && config.orderType.LimitOrder? && OpenBooking(config, snaps, i, a).Some?
    ensures
      var b, ask := OpenBooking(config, snaps, i, a).value, BestAskForSide(snaps[i], a.side);
      && b.fee == 0.0 && b.slippageBps == 0.0 && b.usd == a.sizeUsd && 0.01 <= b.price <= 0.99
      && (ask.Some? && ask.value >= 0.01 && config.limitOffsetCents <= 0.0 ==> b.price <= ask.value)
      && exists j :: FilledBy(config, snaps, FirstIndex(snaps, i), j, a, b.price)
  {
    var o, start := PlacedOrder(config, snaps[i], a).value, FirstIndex(snaps, i);
    L.ScanFinds(o, snaps, start, start);
    assert FilledBy(config, snaps, start, L.Scan(o, snaps, start).value.index, a, o.price);
  }

  /** An order for the action, resting at this price since `start`, is filled by snapshot j within its time. */
  ghost predicate FilledBy(config: Config, snaps: seq<Snapshot>, start: nat, j: nat, a: Action, price: real) {
    && start <= j < |snaps|
    && snaps[j].ts <= snaps[start].ts + config.limitTimeoutS
    && L.FillsAt(L.Order(a.side, price, config.limitTimeoutS, a.sizeUsd, config.queueAware), snaps, start, j)
  }

  // ------------------------------------------------------ non-anticipation

  /** What a trade commits to at the moment it is made. */
  datatype FillRecord = FillRecord(ts: real, side: Side, price: real, size: real, fees: real)

  function FillOf(t: Trade): FillRecord { FillRecord(t.ts, t.side, t.price, t.size, t.fees) }

  /** Entries at a snapshot before m do not depend on the snapshots from m on. */
  ghost predicate EntriesLookBack(desk: Desk, snaps: seq<Snapshot>, m: nat)
    requires m <= |snaps|
  {
    forall cross, earlier, i: nat, ctx :: i < m ==>
      desk.entry(cross, earlier, (snaps[..m], i), ctx) == desk.entry(cross, earlier, (snaps, i), ctx)
  }

  lemma MarketEntriesLookBack(params: Params, snaps: seq<Snapshot>, m: nat)
    requires m <= |snaps| && params.config.orderType.MarketOrder?
    ensures EntriesLookBack(DeskOf(params), snaps, m)
  {
  }

  /** Then a replay's state after k snapshots does not depend on later ones. */
  lemma {:induction false} RunDoesNotAnticipate(desk: Desk, snaps: seq<Snapshot>, m: nat, k: nat)
    requires k <= m <= |snaps| && EntriesLookBack(desk, snaps, m)
    ensures RunTo(desk, snaps[..m], k) == RunTo(desk, snaps, k)
  {
    if k > 0 {
      RunDoesNotAnticipate(desk, snaps, m, k - 1);
    }
  }

  /** `late` starts with the very fills of `early`; the others carry the time of a snapshot in [m, k). */
  ghost predicate Extends(early: seq<Trade>, late: seq<Trade>, snaps: seq<Snapshot>, m: nat, k: nat)
    requires m <= k <= |snaps|
  {
    && |early| <= |late|
    && (forall t :: 0 <= t < |early| ==> FillOf(late[t]) == FillOf(early[t]))
    && forall t :: |early| <= t < |late| ==> StampedIn(late[t].ts, snaps, m, k)
  }

  ghost predicate StampedIn(ts: real, snaps: seq<Snapshot>, m: nat, k: nat)
    requires m <= k <= |snaps|
  {
    exists i :: m <= i < k && ts == snaps[i].ts
  }

  lemma ExtendsItself(trades: seq<Trade>, snaps: seq<Snapshot>, m: nat)
    requires m <= |snaps|
    ensures Extends(trades, trades, snaps, m, m)
  {
  }

  lemma NextExtends(desk: Desk, early: seq<Trade>, snaps: seq<Snapshot>, m: nat, k: nat)
    requires m <= k < |snaps| && Extends(early, RunTo(desk, snaps, k).ledger.trades, snaps, m, k)
    ensures Extends(early, RunTo(desk, snaps, k + 1).ledger.trades, snaps, m, k + 1)
  {
  }

  /** Fills are never rewritten, and new ones are stamped with the snapshot that made them. */
  lemma {:induction false} FillsOnlyGrow(desk: Desk, snaps: seq<Snapshot>, m: nat, k: nat)
    requires m <= k <= |snaps|
    ensures Extends(RunTo(desk, snaps, m).ledger.trades, RunTo(desk, snaps, k).ledger.trades, snaps, m, k)
    decreases k
  {
    if m == k {
      ExtendsItself(RunTo(desk, snaps, m).ledger.trades, snaps, m);
    } else {
      FillsOnlyGrow(desk, snaps, m, k - 1);
      NextExtends(desk, RunTo(desk, snaps, m).ledger.trades, snaps, m, k - 1);
    }
  }

  /**
   Replaying a prefix makes exactly the fills the full replay makes on that prefix:
   they come first in the full log, and everything after them is stamped later.
   */
  lemma {:induction false} PrefixReplayAgrees(params: Params, snaps: seq<Snapshot>, m: nat, y: real)
    requires m <= |snaps| && params.config.orderType.MarketOrder?
    ensures Extends(Replay(params, snaps[..m], y).trades, Replay(params, snaps, y).trades, snaps, m, |snaps|)
  {
    var desk := DeskOf(params);
    MarketEntriesLookBack(params, snaps, m);
    RunDoesNotAnticipate(desk, snaps, m, m);
    FillsOnlyGrow(desk, snaps, m, |snaps|);
  }

  /** The limit order placed at snapshot i, if one is. */
  function PlacedOrder(config: Config, snap: Snapshot, a: Action): Option<L.Order> {
    if !config.orderType.LimitOrder? || TooExpensive(config, snap, a.side) then None
    else
      match LimitReference(snap, a.side)
      case None => None
      case Some(reference) => Some(AsLimitOrder(config, a, reference))
  }

  /** The order the entry places, if it places one, has been decided by the snapshots at hand. */
  ghost predicate OrderDecided(config: Config, past: seq<Snapshot>, i: nat, a: Action)
    requires i < |past|
  {
    var order := PlacedOrder(config, past[i], a);
    order.Some? ==> L.Decided(order.value, past, FirstIndex(past, i))
  }

  /**
   Exactly when an entry does not depend on what comes later: no limit order is placed, or
   the snapshots at hand already fill it or pass its deadline.
   */
  lemma {:induction false} EntryNeedsNoFutureIffDecided(config: Config, past: seq<Snapshot>, i: nat, a: Action)
    requires i < |past|
    ensures (forall rest :: OpenBooking(config, past + rest, i, a) == OpenBooking(config, past, i, a))
       <==> OrderDecided(config, past, i, a)
  {
    var order := PlacedOrder(config, past[i], a);
    if order.None? {
      forall rest ensures OpenBooking(config, past + rest, i, a) == OpenBooking(config, past, i, a) {
        assert (past + rest)[i] == past[i];
      }
    } else {
      var start := FirstIndex(past, i);
      L.SealedIffDecided(order.value, past, start);
      forall rest
        ensures OpenBooking(config, past + rest, i, a) == OpenBooking(config, past, i, a)
           <==> L.Scan(order.value, past + rest, start) == L.Scan(order.value, past, start)
      {
        LimitBookingIsScan(config, past, rest, i, a, order.value);
      }
    }
  }

  /** A limit entry tells fills apart only by whether they happen. */
  lemma {:induction false} LimitBookingIsScan(
      config: Config, past: seq<Snapshot>, rest: seq<Snapshot>, i: nat, a: Action, o: L.Order)
    requires i < |past| && PlacedOrder(config, past[i], a) == Some(o)
    ensures OpenBooking(config, past + rest, i, a) == OpenBooking(config, past, i, a)
       <==> L.Scan(o, past + rest, FirstIndex(past, i)) == L.Scan(o, past, FirstIndex(past, i))
  {
    var all, start := past + rest, FirstIndex(past, i);
    assert all[i] == past[i] && all[..|past|] == past;
    FirstIndexOfPrefix(all, |past|, i, 0);
    L.LookAhead(o, all, start, |past|);
    if L.Scan(o, all, start).Some? {
      L.ScanFinds(o, all, start, start);
    }
  }

  /** The replay of the past asks the strategy for an entry at snapshot i, and gets one. */
  ghost function EntryAsked(params: Params, past: seq<Snapshot>, i: nat): Option<Action>
    requires i < |past|
  {
    var st := RunTo(DeskOf(params), past, i);
    if st.ledger.position.Some? || st.ledger.fills >= MaxTrades(params.spec) then None
    else
      Decide(params.spec, st.cross, Handed(Push(st.history, past[i])), past[i],
             Context(params.resolutionAt, Some(past[0]))).action
  }

  /** What the replay books at snapshot i. */
  function BookedAt(params: Params, snaps: seq<Snapshot>, i: nat): Option<(Side, Booking)>
    requires i < |snaps|
  {
    NextOutcome(DeskOf(params), snaps, i, RunTo(DeskOf(params), snaps, i)).booked
  }

  /** Whatever entry the replay of the past makes at snapshot i is decided within it. */
  ghost predicate EntryDecided(params: Params, past: seq<Snapshot>, i: nat)
    requires i < |past|
  {
    EntryAsked(params, past, i).Some? ==> OrderDecided(params.config, past, i, EntryAsked(params, past, i).value)
  }

  /** The replay of the past is that of this continuation, up to k snapshots. */
  ghost predicate RunsAlike(desk: Desk, past: seq<Snapshot>, rest: seq<Snapshot>, k: nat)
    requires k <= |past|
  {
    RunTo(desk, past + rest, k) == RunTo(desk, past, k)
  }

  /** What comes after the past makes no difference to the first k snapshots. */
  ghost predicate NeedsNoFuture(desk: Desk, past: seq<Snapshot>, k: nat)
    requires k <= |past|
  {
    forall rest :: RunsAlike(desk, past, rest, k)
  }

  /** Runs that agree so far part only if an entry is asked for and booked differently. */
  lemma NextPartsAtBooking(params: Params, past: seq<Snapshot>, rest: seq<Snapshot>, i: nat)
    requires i < |past| && RunsAlike(DeskOf(params), past, rest, i)
    ensures RunsAlike(DeskOf(params), past, rest, i + 1) <==>
      (EntryAsked(params, past, i).Some? ==>
         OpenBooking(params.config, past + rest, i, EntryAsked(params, past, i).value)
         == OpenBooking(params.config, past, i, EntryAsked(params, past, i).value))
  {
  }

  /**
   Exactly when a replay does not anticipate: up to k snapshots its state is the same
   whatever comes later, if and only if every entry it makes before k is decided by then.
   */
  lemma {:induction false} ReplayNeedsNoFutureIffDecided(params: Params, past: seq<Snapshot>, k: nat)
    requires k <= |past|
    ensures (forall j :: 0 <= j <= k ==> NeedsNoFuture(DeskOf(params), past, j))
       <==> (forall i :: 0 <= i < k ==> EntryDecided(params, past, i))
  {
    if forall i :: 0 <= i < k ==> EntryDecided(params, past, i) {
      forall j | 0 <= j <= k ensures NeedsNoFuture(DeskOf(params), past, j) {
        forall rest ensures RunsAlike(DeskOf(params), past, rest, j) {
          forall i | 0 <= i < j && RunsAlike(DeskOf(params), past, rest, i)
            ensures RunsAlike(DeskOf(params), past, rest, i + 1)
          {
            DecidedNextAlike(params, past, rest, i);
          }
          AlikeStepByStep(DeskOf(params), past, rest, j);
        }
      }
    }
    if forall j :: 0 <= j <= k ==> NeedsNoFuture(DeskOf(params), past, j) {
      forall i | 0 <= i < k ensures EntryDecided(params, past, i) {
        assert NeedsNoFuture(DeskOf(params), past, i) && NeedsNoFuture(DeskOf(params), past, i + 1);
        AlikeIsDecided(params, past, i);
      }
    }
  }

  lemma {:induction false} AlikeStepByStep(desk: Desk, past: seq<Snapshot>, rest: seq<Snapshot>, j: nat)
    requires j <= |past|
    requires forall i :: 0 <= i < j && RunsAlike(desk, past, rest, i) ==> RunsAlike(desk, past, rest, i + 1)
    ensures RunsAlike(desk, past, rest, j)
  {
    if j > 0 {
      AlikeStepByStep(desk, past, rest, j - 1);
    }
  }

  lemma {:induction false} DecidedNextAlike(params: Params, past: seq<Snapshot>, rest: seq<Snapshot>, i: nat)
    requires i < |past| && EntryDecided(params, past, i) && RunsAlike(DeskOf(params), past, rest, i)
    ensures RunsAlike(DeskOf(params), past, rest, i + 1)
  {
    var a := EntryAsked(params, past, i);
    NextPartsAtBooking(params, past, rest, i);
    if a.Some? {
      EntryNeedsNoFutureIffDecided(params.config, past, i, a.value);
    }
  }

  lemma {:induction false} AlikeIsDecided(params: Params, past: seq<Snapshot>, i: nat)
    requires i < |past|
    requires NeedsNoFuture(DeskOf(params), past, i) && NeedsNoFuture(DeskOf(params), past, i + 1)
    ensures EntryDecided(params, past, i)
  {
    var a := EntryAsked(params, past, i);
    if a.Some? {
      forall rest
        ensures OpenBooking(params.config, past + rest, i, a.value) == OpenBooking(params.config, past, i, a.value)
      {
        assert RunsAlike(DeskOf(params), past, rest, i) && RunsAlike(DeskOf(params), past, rest, i + 1);
        NextPartsAtBooking(params, past, rest, i);
      }
      EntryNeedsNoFutureIffDecided(params.config, past, i, a.value);
    }
  }

  lemma {:induction false} FirstIndexOfPrefix(snaps: seq<Snapshot>, m: nat, i: nat, from: nat)
    requires from <= i < m <= |snaps|
    ensures FirstIndexFrom(snaps[..m], i, from) == FirstIndexFrom(snaps, i, from)
    decreases i - from
  {
    if snaps[from] != snaps[i] {
      FirstIndexOfPrefix(snaps, m, i, from + 1);
    }
  }

  /** An order two cents below the ask, resting at 0.48, is not filled at the first snapshot but is at the second. */
  lemma WaitsForSecond(config: Config, s0: Snapshot, s1: Snapshot, a: Action)
    requires a == Action(BuyYes, 10.0) && config == Config(WalkTheBook, 1.0, LimitOrder, -2.0, 60.0, false)
    requires s0.ts == 0.0 && s0.yesAsks == [Level(0.50, 10.0)] && s0.yesBids == [Level(0.49, 10.0)]
    requires s1.ts == 1.0 && s1.yesAsks == [Level(0.50, 10.0)] && s1.yesBids == [Level(0.40, 10.0)]
    ensures OpenBooking(config, [s0], 0, a) == None
    ensures OpenBooking(config, [s0, s1], 0, a) == Some(Booking(0.48, 10.0, 0.0, 0.0))
  {
    var o := L.Order(BuyYes, 0.48, 60.0, 10.0, false);
    var one, two := [s0], [s0, s1];
    assert AsLimitOrder(config, a, 0.50) == o;
    assert FirstIndex(one, 0) == 0 && FirstIndex(two, 0) == 0;
    assert L.Scan(o, one, 0) == None by {
      assert L.ScanFrom(o, one, 0, 1) == None;
    }
    L.EarliestFill(o, two, 0, 1);
  }

  lemma AsksAtOnce(params: Params, cross: CrossMaps, earlier: seq<Snapshot>, m: Moment, ctx: Context, a: Action)
    requires params.spec == FunctionStrategy((h, s, r) => Some(a))
    ensures EntryOutcome(params, cross, earlier, m, ctx).booked
         == OnSide(a.side, OpenBooking(params.config, m.0, m.1, a))
  {
  }

  /** A strategy that always asks gets what its first snapshot books. */
  lemma AlwaysAsks(params: Params, snaps: seq<Snapshot>, a: Action)
    requires params.spec == FunctionStrategy((h, s, r) => Some(a)) && snaps != []
    ensures RunTo(DeskOf(params), snaps, 1).ledger
         == Book(START.ledger, snaps[0], OnSide(a.side, OpenBooking(params.config, snaps, 0, a)))
  {
    var desk, ctx := DeskOf(params), Context(params.resolutionAt, Some(snaps[0]));
    AsksAtOnce(params, EMPTY_CROSS, [], (snaps, 0), ctx, a);
    assert RunTo(desk, snaps, 0) == START && Handed(Push([], snaps[0])) == [];
    assert NextOutcome(desk, snaps, 0, START) == EntryOutcome(params, EMPTY_CROSS, [], (snaps, 0), ctx);
  }

  /** A function strategy holds what it has. */
  lemma HoldsOn(params: Params, snaps: seq<Snapshot>, i: nat)
    requires params.spec.FunctionStrategy? && i < |snaps| && RunTo(DeskOf(params), snaps, i).ledger.position.Some?
    ensures RunTo(DeskOf(params), snaps, i + 1).ledger == RunTo(DeskOf(params), snaps, i).ledger
  {
  }

  /**
   Limit orders do anticipate: a fill stamped at the first snapshot appears only once
   the second one is known.
   */
  lemma LimitOrdersAnticipate(params: Params, s0: Snapshot, s1: Snapshot, y: real)
    requires params.spec == FunctionStrategy((h, s, r) => Some(Action(BuyYes, 10.0)))
    requires params.config == Config(WalkTheBook, 1.0, LimitOrder, -2.0, 60.0, false)
    requires s0.ts == 0.0 && s0.yesAsks == [Level(0.50, 10.0)] && s0.yesBids == [Level(0.49, 10.0)]
    requires s1.ts == 1.0 && s1.yesAsks == [Level(0.50, 10.0)] && s1.yesBids == [Level(0.40, 10.0)]
    ensures Replay(params, [s0], y).trades == []
    ensures |Replay(params, [s0, s1], y).trades| == 1 && Replay(params, [s0, s1], y).trades[0].ts == s0.ts
  {
    var a := Action(BuyYes, 10.0);
    WaitsForSecond(params.config, s0, s1, a);
    AlwaysAsks(params, [s0], a);
    AlwaysAsks(params, [s0, s1], a);
    HoldsOn(params, [s0, s1], 1);
  }
}

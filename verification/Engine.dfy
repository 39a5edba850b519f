/**
 Replay of one market: entries, take-profit / stop-loss exits, re-entry cap, settlement.
 `ReplaySingleMarket` is the loop; `RunTo` is its state after k snapshots.
 */
module Engine {
  import opened Types
  import opened Slippage
  import opened Strategies
  import L = LimitOrder

  const HISTORY_WINDOW: nat := 60

  datatype FillMode = WalkTheBook | AtMid

  datatype OrderType = MarketOrder | LimitOrder

  datatype Config = Config(
    fillMode: FillMode,
    maxFillPrice: real,
    orderType: OrderType,
    limitOffsetCents: real,
    limitTimeoutS: real,
    queueAware: bool)

  datatype Trade = Trade(
    ts: real,
    marketId: string,
    side: Side,
    price: real,
    size: real,
    slippageBps: real,
    fees: real,
    pnl: Option<real>,
    resolutionYesPrice: Option<real>,
    underlyingPrice: Option<real>)

  datatype Position = Position(side: Side, entryPrice: real, entryUsd: real, entryIdx: nat)

  datatype Params = Params(spec: StrategySpec, config: Config, resolutionAt: Option<real>)

  /** The running account of one replay. */
  datatype Ledger = Ledger(trades: seq<Trade>, position: Option<Position>, fees: real, fills: int)

  datatype State = State(history: seq<Snapshot>, ledger: Ledger, cross: CrossMaps)

  datatype Result = Result(trades: seq<Trade>, pnl: real, fees: real)

  /** Price, USD, slippage and fee of a fill the engine is about to book. */
  datatype Booking = Booking(price: real, usd: real, slippageBps: real, fee: real)

  function PlatformOf(marketId: string): Platform {
    if "kalshi:" <= marketId then Kalshi else Polymarket
  }

  function CloseSide(side: Side): Side {
    match side
    case BuyYes => SellYes
    case SellYes => BuyYes
    case BuyNo => SellNo
    case SellNo => BuyNo
  }

  function MidOf(bids: seq<Level>, asks: seq<Level>): Option<real> {
    if bids != [] && asks != [] then Some((bids[0].price + asks[0].price) / 2.0) else None
  }

  function MidForSide(snap: Snapshot, side: Side): Option<real> {
    if side == BuyYes || side == SellYes then MidOf(snap.yesBids, snap.yesAsks)
    else MidOf(snap.noBids, snap.noAsks)
  }

  function BestAskForSide(snap: Snapshot, side: Side): Option<real> {
    if side == BuyYes && snap.yesAsks != [] then Some(snap.yesAsks[0].price)
    else if side == BuyNo && snap.noAsks != [] then Some(snap.noAsks[0].price)
    else None
  }

  function SharesHeld(p: Position): real {
    if p.entryPrice > 0.0 then p.entryUsd / p.entryPrice else 0.0
  }

  /** A mid-price close pretends the whole share count clears at the mid. */
  function WorthAtMid(p: Position, mid: real): real { SharesHeld(p) * mid }

  function WithFee(snap: Snapshot, price: real, usd: real, slippageBps: real): Booking {
    Booking(price, usd, slippageBps, PlatformFee(PlatformOf(snap.marketId), usd, price))
  }

  function CloseBooking(config: Config, p: Position, snap: Snapshot): Option<Booking> {
    var side := CloseSide(p.side);
    if config.fillMode.AtMid? then
      match MidForSide(snap, side)
      case None => None
      case Some(mid) => Some(WithFee(snap, mid, WorthAtMid(p, mid), 0.0))
    else
      match SellFill(BookForSide(snap, side), SharesHeld(p))
      case None => None
      case Some(f) => Some(WithFee(snap, f.avgPrice, f.usd, f.slippageBps))
  }

  /** Where a snapshot equal to snaps[i] first occurs. */
  function FirstIndex(snaps: seq<Snapshot>, i: nat): (j: nat)
    requires i < |snaps|
    ensures j <= i && snaps[j] == snaps[i] && forall k :: 0 <= k < j ==> snaps[k] != snaps[i]
  {
    FirstIndexFrom(snaps, i, 0)
  }

  function FirstIndexFrom(snaps: seq<Snapshot>, i: nat, from: nat): (j: nat)
    requires from <= i < |snaps|
    ensures from <= j <= i && snaps[j] == snaps[i] && forall k :: from <= k < j ==> snaps[k] != snaps[i]
    decreases i - from
  {
    if snaps[from] == snaps[i] then from else FirstIndexFrom(snaps, i, from + 1)
  }

  function LimitPrice(reference: real, offsetCents: real): real {
    Max(0.01, Min(0.99, reference + offsetCents / 100.0))
  }

  function AsLimitOrder(config: Config, a: Action, reference: real): L.Order {
    L.Order(a.side, LimitPrice(reference, config.limitOffsetCents), config.limitTimeoutS, a.sizeUsd, config.queueAware)
  }

  /** The price a limit order is placed relative to: the best ask, else the mid. */
  function LimitReference(snap: Snapshot, side: Side): Option<real> {
    var bestAsk := BestAskForSide(snap, side);
    if bestAsk.Some? then bestAsk else MidForSide(snap, side)
  }

  predicate TooExpensive(config: Config, snap: Snapshot, side: Side) {
    var bestAsk := BestAskForSide(snap, side);
    side.IsBuy() && bestAsk.Some? && bestAsk.value > config.maxFillPrice
  }

  function OpenBooking(config: Config, snaps: seq<Snapshot>, i: nat, a: Action): Option<Booking>
    requires i < |snaps|
  {
    var snap := snaps[i];
    if TooExpensive(config, snap, a.side) then None
    else if config.orderType.LimitOrder? then
      match LimitReference(snap, a.side)
      case None => None
      case Some(reference) =>
        match L.Scan(AsLimitOrder(config, a, reference), snaps, FirstIndex(snaps, i))
        case None => None
        case Some(f) => Some(Booking(f.avgPrice, f.usd, 0.0, 0.0))
    else if config.fillMode.AtMid? then
      match MidForSide(snap, a.side)
      case None => None
      case Some(mid) => Some(WithFee(snap, mid, a.sizeUsd, 0.0))
    else
      match BuyFill(BookForSide(snap, a.side), a.sizeUsd)
      case None => None
      case Some(f) => Some(WithFee(snap, f.avgPrice, f.usd, f.slippageBps))
  }

  function BookedTrade(snap: Snapshot, side: Side, b: Booking, pnl: Option<real>): Trade {
    Trade(snap.ts, snap.marketId, side, b.price, b.usd, b.slippageBps, b.fee, pnl, None, snap.underlyingPrice)
  }

  /** A bounded deque: the oldest snapshot drops out. */
  function Push(history: seq<Snapshot>, snap: Snapshot): seq<Snapshot> {
    if |history| >= HISTORY_WINDOW then history[1..] + [snap] else history + [snap]
  }

  predicate PositionInLog(g: Ledger) {
    g.position.Some? ==> g.position.value.entryIdx < |g.trades|
  }

  function Closed(g: Ledger, snap: Snapshot, b: Booking): Ledger
    requires g.position.Some? && PositionInLog(g)
  {
    var p := g.position.value;
    var close := BookedTrade(snap, CloseSide(p.side), b, Some(b.usd - p.entryUsd));
    var entry := g.trades[p.entryIdx].(pnl := Some(0.0));
    Ledger(g.trades[p.entryIdx := entry] + [close], None, g.fees + b.fee, g.fills)
  }

  function Opened(g: Ledger, snap: Snapshot, side: Side, b: Booking): Ledger {
    Ledger(g.trades + [BookedTrade(snap, side, b, None)],
           Some(Position(side, b.price, b.usd, |g.trades|)),
           g.fees + b.fee,
           g.fills + 1)
  }

  /** What a snapshot leads to, and what the strategy remembers afterwards. */
  datatype Outcome = Outcome(booked: Option<(Side, Booking)>, cross: CrossMaps)

  function OnSide(side: Side, b: Option<Booking>): Option<(Side, Booking)> {
    if b.Some? then Some((side, b.value)) else None
  }

  const NO_SNAPSHOT := Snapshot("", 0.0, [], [], [], [], None, "")

  /** A place in a stream of snapshots. */
  type Moment = m: (seq<Snapshot>, nat) | m.1 < |m.0| witness ([NO_SNAPSHOT], 0)

  /** In a position: ask the strategy whether to leave, then try to close. */
  function ExitOutcome(
      params: Params, p: Position, cross: CrossMaps, earlier: seq<Snapshot>, snap: Snapshot, ctx: Context): Outcome
  {
    var d := DecideExit(params.spec, cross, earlier, snap, ctx);
    Outcome(if d.exit then OnSide(CloseSide(p.side), CloseBooking(params.config, p, snap)) else None, d.cross)
  }

  /** Flat: ask the strategy whether to enter, then try to open. */
  function EntryOutcome(
      params: Params, cross: CrossMaps, earlier: seq<Snapshot>, m: Moment, ctx: Context): Outcome
  {
    var d := Decide(params.spec, cross, earlier, m.0[m.1], ctx);
    Outcome(if d.action.None? then None
            else OnSide(d.action.value.side, OpenBooking(params.config, m.0, m.1, d.action.value)), d.cross)
  }

  /** Everything the replay loop asks of a strategy and its execution parameters. */
  datatype Desk = Desk(
    exit: (Position, CrossMaps, seq<Snapshot>, Snapshot, Context) -> Outcome,
    entry: (CrossMaps, seq<Snapshot>, Moment, Context) -> Outcome,
    maxTrades: int,
    resolutionAt: Option<real>)

  function DeskOf(params: Params): Desk {
    Desk((p, cross, earlier, snap, ctx) => ExitOutcome(params, p, cross, earlier, snap, ctx),
         (cross, earlier, m: Moment, ctx) => EntryOutcome(params, cross, earlier, m, ctx),
         MaxTrades(params.spec), params.resolutionAt)
  }

  /** Everything before the newest snapshot of the deque. */
  function Handed(history: seq<Snapshot>): seq<Snapshot> {
    if history == [] then [] else history[..|history| - 1]
  }

  function Book(g: Ledger, snap: Snapshot, booked: Option<(Side, Booking)>): Ledger
    requires PositionInLog(g)
  {
    if booked.None? then g
    else if g.position.Some? then Closed(g, snap, booked.value.1)
    else Opened(g, snap, booked.value.0, booked.value.1)
  }

  const START := State([], Ledger([], None, 0.0, 0), EMPTY_CROSS)

  /** What snapshot i leads to, given the deque including it and where the replay stands. */
  function OutcomeAt(
      desk: Desk, snaps: seq<Snapshot>, i: nat,
      history: seq<Snapshot>, position: Option<Position>, fills: int, cross: CrossMaps): Outcome
    requires i < |snaps|
  {
    var ctx := Context(desk.resolutionAt, Some(snaps[0]));
    if position.Some? then desk.exit(position.value, cross, Handed(history), snaps[i], ctx)
    else if fills >= desk.maxTrades then Outcome(None, cross)
    else desk.entry(cross, Handed(history), (snaps, i), ctx)
  }

  function NextOutcome(desk: Desk, snaps: seq<Snapshot>, i: nat, st: State): Outcome
    requires i < |snaps|
  {
    OutcomeAt(desk, snaps, i, Push(st.history, snaps[i]), st.ledger.position, st.ledger.fills, st.cross)
  }

  /** The replay after k snapshots. */
  function RunTo(desk: Desk, snaps: seq<Snapshot>, k: nat): (st: State)
    requires k <= |snaps|
    ensures PositionInLog(st.ledger)
  {
    if k == 0 then START
    else
      var st := RunTo(desk, snaps, k - 1);
      var o := NextOutcome(desk, snaps, k - 1, st);
      State(Push(st.history, snaps[k - 1]), Book(st.ledger, snaps[k - 1], o.booked), o.cross)
  }

  // ---------------------------------------------------------- settlement

  function ValuePerShare(side: Side, yesResolvedPrice: real): real {
    match side
    case BuyYes => yesResolvedPrice
    case BuyNo => 1.0 - yesResolvedPrice
    case SellYes => -yesResolvedPrice
    case SellNo => -(1.0 - yesResolvedPrice)
  }

  function SettledPnl(side: Side, price: real, size: real, yesResolvedPrice: real): real {
    var shares := if price > 0.0 then size / price else 0.0;
    var payoff := shares * ValuePerShare(side, yesResolvedPrice);
    if side.IsBuy() then payoff - size else size + payoff
  }

  function SettleTradePnl(t: Trade, yesResolvedPrice: real): Trade {
    t.(pnl := Some(SettledPnl(t.side, t.price, t.size, yesResolvedPrice)),
       resolutionYesPrice := Some(yesResolvedPrice))
  }

  function Settled(trades: seq<Trade>, yesResolvedPrice: real): (r: seq<Trade>)
    ensures |r| == |trades|
    ensures forall i :: 0 <= i < |trades| ==>
      r[i] == if trades[i].pnl.Some? then trades[i] else SettleTradePnl(trades[i], yesResolvedPrice)
  {
    if trades == [] then []
    else [if trades[0].pnl.Some? then trades[0] else SettleTradePnl(trades[0], yesResolvedPrice)]
         + Settled(trades[1..], yesResolvedPrice)
  }

  function PnlOf(t: Trade): real { if t.pnl.Some? then t.pnl.value else 0.0 }

  function TotalPnl(trades: seq<Trade>): real {
    if trades == [] then 0.0 else PnlOf(trades[0]) + TotalPnl(trades[1..])
  }

  function Replay(params: Params, snaps: seq<Snapshot>, yesResolvedPrice: real): Result {
    var g := RunTo(DeskOf(params), snaps, |snaps|).ledger;
    var settled := Settled(g.trades, yesResolvedPrice);
    Result(settled, TotalPnl(settled), g.fees)
  }

  // ------------------------------------------------------------- the loops

  method CloseAt(config: Config, p: Position, snap: Snapshot) returns (b: Option<Booking>)
    ensures b == CloseBooking(config, p, snap)
  {
    var side := CloseSide(p.side);
    if config.fillMode == AtMid {
      var mid := MidForSide(snap, side);
      if mid.None? {
        return None;
      }
      return Some(WithFee(snap, mid.value, WorthAtMid(p, mid.value), 0.0));
    }
    var fill := WalkBookToSellShares(snap, side, SharesHeld(p));
    if fill.None? {
      return None;
    }
    return Some(WithFee(snap, fill.value.avgPrice, fill.value.usd, fill.value.slippageBps));
  }

  method OpenAt(config: Config, snaps: seq<Snapshot>, i: nat, a: Action) returns (b: Option<Booking>)
    requires i < |snaps|
    ensures b == OpenBooking(config, snaps, i, a)
  {
    var snap := snaps[i];
    if TooExpensive(config, snap, a.side) {
      return None;
    }
    if config.orderType == LimitOrder {
      var reference := LimitReference(snap, a.side);
      if reference.None? {
        return None;
      }
      var fill := L.TryLimitFill(snaps, FirstIndex(snaps, i), AsLimitOrder(config, a, reference.value));
      if fill.None? {
        return None;
      }
      return Some(Booking(fill.value.avgPrice, fill.value.usd, 0.0, 0.0));
    }
    if config.fillMode == AtMid {
      var mid := MidForSide(snap, a.side);
      if mid.None? {
        return None;
      }
      return Some(WithFee(snap, mid.value, a.sizeUsd, 0.0));
    }
    var fill := WalkBook(snap, a.side, a.sizeUsd);
    if fill.None? {
      return None;
    }
    return Some(WithFee(snap, fill.value.avgPrice, fill.value.usd, fill.value.slippageBps));
  }

  /** What to book at snapshot i, consulting the strategy only when it has a say. */
  method Consult(
      params: Params, snaps: seq<Snapshot>, i: nat, strategy: Strategy,
      history: seq<Snapshot>, position: Option<Position>, fills: int)
    returns (booked: Option<(Side, Booking)>)
    requires i < |snaps| && strategy.Valid() && params.spec == strategy.spec
    modifies strategy.entryCross, strategy.exitCross
    ensures Outcome(booked, strategy.Cross()) ==
            OutcomeAt(DeskOf(params), snaps, i, history, position, fills, old(strategy.Cross()))
  {
    var snap := snaps[i];
    var earlier := Handed(history);
    var ctx := Context(params.resolutionAt, Some(snaps[0]));
    if position.Some? {
      var exit := strategy.OnInPosition(earlier, snap, ctx);
      if !exit {
        return None;
      }
      var closing := CloseAt(params.config, position.value, snap);
      return OnSide(CloseSide(position.value.side), closing);
    }
    if fills >= MaxTrades(params.spec) {
      return None;
    }
    var action := strategy.Enter(earlier, snap, ctx);
    if action.None? {
      return None;
    }
    var opening := OpenAt(params.config, snaps, i, action.value);
    return OnSide(action.value.side, opening);
  }

  method BookInto(
      trades0: seq<Trade>, position0: Option<Position>, fees0: real, fills0: int,
      snap: Snapshot, booked: Option<(Side, Booking)>)
    returns (trades: seq<Trade>, position: Option<Position>, fees: real, fills: int)
    requires PositionInLog(Ledger(trades0, position0, fees0, fills0))
    ensures Ledger(trades, position, fees, fills) == Book(Ledger(trades0, position0, fees0, fills0), snap, booked)
  {
    trades, position, fees, fills := trades0, position0, fees0, fills0;
    if booked.None? {
      return;
    }
    var (side, b) := booked.value;
    fees := fees + b.fee;
    if position.Some? {
      var p := position.value;
      var close := BookedTrade(snap, CloseSide(p.side), b, Some(b.usd - p.entryUsd));
      trades := trades[p.entryIdx := trades[p.entryIdx].(pnl := Some(0.0))] + [close];
      position := None;
    } else {
      trades := trades + [BookedTrade(snap, side, b, None)];
      position := Some(Position(side, b.price, b.usd, |trades| - 1));
      fills := fills + 1;
    }
  }

  /** Whatever the strategy remembered before, the replay is that of a fresh one. */
  method ReplaySingleMarket(
      snaps: seq<Snapshot>, strategy: Strategy, config: Config, resolutionAt: Option<real>, yesResolvedPrice: real)
    returns (trades: seq<Trade>, pnl: real, fees: real)
    requires strategy.Valid()
    modifies strategy
    ensures strategy.Valid()
    ensures fresh(strategy.entryCross) || strategy.entryCross == old(strategy.entryCross)
    ensures fresh(strategy.exitCross) || strategy.exitCross == old(strategy.exitCross)
    ensures Result(trades, pnl, fees) == Replay(Params(strategy.spec, config, resolutionAt), snaps, yesResolvedPrice)
  {
    trades, pnl, fees := [], 0.0, 0.0;
    if snaps == [] {
      return;
    }
    var params := Params(strategy.spec, config, resolutionAt);
    strategy.ResetMarketState();
    var history: seq<Snapshot> := [];
    var position: Option<Position> := None;
    var fills := 0;
    for i := 0 to |snaps|
      invariant strategy.Valid() && fresh(strategy.entryCross) && fresh(strategy.exitCross)
      invariant history == RunTo(DeskOf(params), snaps, i).history
      invariant Ledger(trades, position, fees, fills) == RunTo(DeskOf(params), snaps, i).ledger
      invariant strategy.Cross() == RunTo(DeskOf(params), snaps, i).cross
    {
      var snap := snaps[i];
      history := Push(history, snap);
      var booked := Consult(params, snaps, i, strategy, history, position, fills);
      trades, position, fees, fills := BookInto(trades, position, fees, fills, snap, booked);
    }
    trades := Settled(trades, yesResolvedPrice);
    pnl := TotalPnl(trades);
  }
}

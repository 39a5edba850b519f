/**
 The paper-trading worker: overlapping polls over the snapshot stream, conflict-free
 inserts into the positions table, and settlement of resolved markets.
 */
module PaperTrading {
  import opened Types
  import opened Slippage
  import opened Conditions
  import opened Strategies
  import Engine
  import ReplayProofs

  datatype Key = Key(strategy: int, market: string)

  datatype Status = Open | Closed(resolutionYesPrice: real, pnl: real)

  datatype Position = Position(
    side: Side,
    fillPrice: real,
    sizeUsd: real,
    slippageBps: real,
    fees: real,
    underlyingPrice: Option<real>,
    status: Status)

  /** Rows are unique per strategy and market. */
  type Table = map<Key, Position>

  /** An active strategy; `spec` is None when its specification cannot be built, "" filters nothing. */
  datatype StrategyRow = StrategyRow(
    id: int, spec: Option<StrategySpec>, ticker: string, eventType: string, startedAt: real)

  datatype Meta = Meta(ticker: string, eventType: string, resolutionAt: Option<real>, resolved: bool)

  /** Market data as the databases hold it. */
  datatype World = World(meta: map<string, Meta>, opens: map<string, Snapshot>)

  /** The table, and what each cached strategy instance remembers. */
  datatype State = State(positions: Table, instances: map<Key, CrossMaps>)

  predicate Tradeable(w: World, snap: Snapshot) {
    snap.marketId in w.meta && !w.meta[snap.marketId].resolved
  }

  /** The strategy's filters accept the snapshot and its instance can be built. */
  predicate Considers(w: World, s: StrategyRow, snap: Snapshot)
    requires Tradeable(w, snap)
  {
    var meta := w.meta[snap.marketId];
    && (s.ticker == "" || s.ticker == meta.ticker)
    && (s.eventType == "" || s.eventType == meta.eventType)
    && snap.ts >= s.startedAt
    && s.spec.Some?
  }

  function ContextOf(w: World, snap: Snapshot): Context
    requires Tradeable(w, snap)
  {
    Context(w.meta[snap.marketId].resolutionAt,
            if snap.marketId in w.opens then Some(w.opens[snap.marketId]) else None)
  }

  function Remembered(instances: map<Key, CrossMaps>, key: Key): CrossMaps {
    if key in instances then instances[key] else EMPTY_CROSS
  }

  /** The row a triggered action would insert, if the book can fill it. */
  function RowFor(snap: Snapshot, a: Action): Option<Position> {
    match BuyFill(BookForSide(snap, a.side), a.sizeUsd)
    case None => None
    case Some(f) =>
      Some(Position(a.side, f.avgPrice, f.usd, f.slippageBps, PlatformFee(Polymarket, f.usd, f.avgPrice),
                    snap.underlyingPrice, Open))
  }

  function RowOf(snap: Snapshot, action: Option<Action>): Option<Position> {
    if action.None? then None else RowFor(snap, action.value)
  }

  /** INSERT ... ON CONFLICT DO NOTHING. */
  function Inserted(t: Table, key: Key, row: Option<Position>): Table {
    if row.None? || key in t then t else t[key := row.value]
  }

  function OnePair(w: World, s: StrategyRow, snap: Snapshot, st: State): State {
    if !Tradeable(w, snap) || !Considers(w, s, snap) then st
    else
      var key := Key(s.id, snap.marketId);
      var d := Decide(s.spec.value, Remembered(st.instances, key), [], snap, ContextOf(w, snap));
      State(Inserted(st.positions, key, RowOf(snap, d.action)), st.instances[key := d.cross])
  }

  function OneSnapshot(w: World, strategies: seq<StrategyRow>, snap: Snapshot, st: State): State {
    if strategies == [] then st
    else
      var n := |strategies| - 1;
      OnePair(w, strategies[n], snap, OneSnapshot(w, strategies[..n], snap, st))
  }

  function Scan(w: World, strategies: seq<StrategyRow>, snaps: seq<Snapshot>, st: State): State {
    if snaps == [] then st
    else
      var n := |snaps| - 1;
      OneSnapshot(w, strategies, snaps[n], Scan(w, strategies, snaps[..n], st))
  }

  // ---------------------------------------------------------- settlement

  function ComputePnl(side: Side, fillPrice: real, sizeUsd: real, yesPrice: real): real {
    if fillPrice <= 0.0 then -sizeUsd
    else
      var shares := sizeUsd / fillPrice;
      match side
      case BuyYes => shares * yesPrice - sizeUsd
      case BuyNo => shares * (1.0 - yesPrice) - sizeUsd
      case SellYes => sizeUsd + shares * (-yesPrice)
      case SellNo => sizeUsd + shares * (-(1.0 - yesPrice))
  }

  function Settle(p: Position, yesPrice: real): Position {
    if p.status.Open? then p.(status := Status.Closed(yesPrice, ComputePnl(p.side, p.fillPrice, p.sizeUsd, yesPrice)))
    else p
  }

  function SettleMarket(t: Table, market: string, yesPrice: real): Table {
    map key | key in t :: if key.market == market then Settle(t[key], yesPrice) else t[key]
  }

  class PaperTrader {
    var positions: Table
    var instances: map<Key, CrossMaps>

    function Contents(): State
      reads this
    {
      State(positions, instances)
    }

    constructor ()
      ensures Contents() == State(map[], map[])
    {
      positions, instances := map[], map[];
    }

    method OpenPosition(key: Key, row: Position) returns (inserted: bool)
      modifies this`positions
      ensures inserted == (key !in old(positions))
      ensures positions == Inserted(old(positions), key, Some(row))
    {
      inserted := key !in positions;
      if inserted {
        positions := positions[key := row];
      }
    }

    method Evaluate(w: World, s: StrategyRow, snap: Snapshot) returns (added: nat)
      modifies this
      ensures Contents() == OnePair(w, s, snap, old(Contents()))
      ensures |positions| == |old(positions)| + added
    {
      added := 0;
      if !Tradeable(w, snap) || !Considers(w, s, snap) {
        return;
      }
      var key := Key(s.id, snap.marketId);
      var d := Decide(s.spec.value, Remembered(instances, key), [], snap, ContextOf(w, snap));
      instances := instances[key := d.cross];
      if d.action.None? {
        return;
      }
      var fill := WalkBook(snap, d.action.value.side, d.action.value.sizeUsd);
      if fill.None? {
        return;
      }
      var f := fill.value;
      var fee := PlatformFee(Polymarket, f.usd, f.avgPrice);
      var inserted := OpenPosition(
        key, Position(d.action.value.side, f.avgPrice, f.usd, f.slippageBps, fee, snap.underlyingPrice, Open));
      if inserted {
        added := 1;
      }
    }

    /** The snapshot by strategy double loop; the result counts exactly the rows added. */
    method OpenPositionsForNewSnapshots(w: World, strategies: seq<StrategyRow>, snaps: seq<Snapshot>)
      returns (added: nat)
      modifies this
      ensures Contents() == Scan(w, strategies, snaps, old(Contents()))
      ensures |positions| == |old(positions)| + added
    {
      added := 0;
      ghost var st := Contents();
      for i := 0 to |snaps|
        invariant Contents() == Scan(w, strategies, snaps[..i], st)
        invariant |positions| == |old(positions)| + added
      {
        assert snaps[..i + 1][..i] == snaps[..i];
        ghost var before := Contents();
        for j := 0 to |strategies|
          invariant Contents() == OneSnapshot(w, strategies[..j], snaps[i], before)
          invariant |positions| == |old(positions)| + added
        {
          assert strategies[..j + 1][..j] == strategies[..j];
          var one := Evaluate(w, strategies[j], snaps[i]);
          added := added + one;
        }
        assert strategies[..|strategies|] == strategies;
      }
      assert snaps[..|snaps|] == snaps;
    }

    /** Closes every open row of a market in one transaction. */
    method SettlePositionsForMarket(market: string, yesPrice: real) returns (n: nat)
      modifies this`positions
      ensures positions == SettleMarket(old(positions), market, yesPrice)
      ensures n == |OpenOn(old(positions), market)|
    {
      var rows := OpenOn(positions, market);
      n := |rows|;
      var pending := rows;
      while pending != {}
        invariant pending <= rows && positions.Keys == old(positions).Keys
        invariant forall key :: key in positions ==>
          positions[key] == if key in rows - pending then Settle(old(positions)[key], yesPrice) else old(positions)[key]
        decreases |pending|
      {
        var key :| key in pending;
        pending := pending - {key};
        var p := positions[key];
        var pnl := ComputePnl(p.side, p.fillPrice, p.sizeUsd, yesPrice);
        positions := positions[key := p.(status := Status.Closed(yesPrice, pnl))];
      }
    }
  }

  /** Keys of the open rows of a market. */
  function OpenOn(t: Table, market: string): set<Key> {
    set key | key in t && key.market == market && t[key].status.Open?
  }

  // --------------------------------------------- what a scan leaves behind

  function Lookup(t: Table, key: Key): Option<Position> { if key in t then Some(t[key]) else None }

  function OrElse(a: Option<Position>, b: Option<Position>): Option<Position> { if a.Some? then a else b }

  /** The row this snapshot alone would give a strategy without cross conditions. */
  function Fires(w: World, s: StrategyRow, market: string, snap: Snapshot): Option<Position> {
    if snap.marketId != market || !Tradeable(w, snap) || !Considers(w, s, snap) then None
    else RowOf(snap, Decide(s.spec.value, EMPTY_CROSS, [], snap, ContextOf(w, snap)).action)
  }

  /** The row of the earliest snapshot that triggers and can be filled. */
  function FirstTrigger(w: World, s: StrategyRow, market: string, snaps: seq<Snapshot>): Option<Position> {
    if snaps == [] then None
    else
      var n := |snaps| - 1;
      OrElse(FirstTrigger(w, s, market, snaps[..n]), Fires(w, s, market, snaps[n]))
  }

  lemma {:induction false} FirstTriggerIsEarliest(w: World, s: StrategyRow, market: string, snaps: seq<Snapshot>)
    ensures FirstTrigger(w, s, market, snaps) == None ==>
      forall i :: 0 <= i < |snaps| ==> Fires(w, s, market, snaps[i]) == None
    ensures FirstTrigger(w, s, market, snaps).Some? ==>
      exists i :: 0 <= i < |snaps| && Fires(w, s, market, snaps[i]) == FirstTrigger(w, s, market, snaps)
                  && forall j :: 0 <= j < i ==> Fires(w, s, market, snaps[j]) == None
  {
    if snaps != [] {
      var n := |snaps| - 1;
      var front := snaps[..n];
      FirstTriggerIsEarliest(w, s, market, front);
      if FirstTrigger(w, s, market, front).Some? {
        var i :| 0 <= i < n && Fires(w, s, market, front[i]) == FirstTrigger(w, s, market, front)
                 && forall j :: 0 <= j < i ==> Fires(w, s, market, front[j]) == None;
        assert Fires(w, s, market, snaps[i]) == FirstTrigger(w, s, market, snaps);
        forall j | 0 <= j < i ensures Fires(w, s, market, snaps[j]) == None {
          assert front[j] == snaps[j];
        }
      } else {
        forall j | 0 <= j < n ensures Fires(w, s, market, snaps[j]) == None {
          assert front[j] == snaps[j];
        }
      }
    }
  }

  /** Strategies have distinct ids and no cross conditions on entry. */
  ghost predicate Plain(strategies: seq<StrategyRow>) {
    && (forall i, j :: 0 <= i < j < |strategies| ==> strategies[i].id != strategies[j].id)
    && (forall i :: 0 <= i < |strategies| && strategies[i].spec.Some? ==> NoCrossEntry(strategies[i].spec.value))
  }

  /** One pair touches one key, the way a fresh instance would. */
  lemma PairInserts(w: World, s: StrategyRow, snap: Snapshot, st: State, key: Key)
    requires s.spec.Some? ==> NoCrossEntry(s.spec.value)
    ensures Lookup(OnePair(w, s, snap, st).positions, key) ==
      OrElse(Lookup(st.positions, key), if key.strategy == s.id then Fires(w, s, key.market, snap) else None)
  {
    if Tradeable(w, snap) && Considers(w, s, snap) {
      StatelessWithoutCross(s.spec.value, Remembered(st.instances, Key(s.id, snap.marketId)), [], snap,
                            ContextOf(w, snap));
    }
  }

  lemma {:induction false} SnapshotInserts(
      w: World, strategies: seq<StrategyRow>, snap: Snapshot, st: State, i: nat, market: string)
    requires Plain(strategies) && i < |strategies|
    ensures Lookup(OneSnapshot(w, strategies, snap, st).positions, Key(strategies[i].id, market)) ==
      OrElse(Lookup(st.positions, Key(strategies[i].id, market)), Fires(w, strategies[i], market, snap))
  {
    var n := |strategies| - 1;
    var key := Key(strategies[i].id, market);
    PairInserts(w, strategies[n], snap, OneSnapshot(w, strategies[..n], snap, st), key);
    if i < n {
      SnapshotInserts(w, strategies[..n], snap, st, i, market);
    } else {
      OthersUntouched(w, strategies[..n], snap, st, key);
    }
  }

  lemma {:induction false} OthersUntouched(
      w: World, strategies: seq<StrategyRow>, snap: Snapshot, st: State, key: Key)
    requires Plain(strategies) && forall i :: 0 <= i < |strategies| ==> strategies[i].id != key.strategy
    ensures Lookup(OneSnapshot(w, strategies, snap, st).positions, key) == Lookup(st.positions, key)
  {
    if strategies != [] {
      var n := |strategies| - 1;
      OthersUntouched(w, strategies[..n], snap, st, key);
      PairInserts(w, strategies[n], snap, OneSnapshot(w, strategies[..n], snap, st), key);
    }
  }

  /** After a scan a row is the one already there, else that of its earliest fillable trigger. */
  lemma {:induction false} ScanInserts(
      w: World, strategies: seq<StrategyRow>, snaps: seq<Snapshot>, st: State, i: nat, market: string)
    requires Plain(strategies) && i < |strategies|
    ensures Lookup(Scan(w, strategies, snaps, st).positions, Key(strategies[i].id, market)) ==
      OrElse(Lookup(st.positions, Key(strategies[i].id, market)), FirstTrigger(w, strategies[i], market, snaps))
  {
    if snaps != [] {
      var n := |snaps| - 1;
      ScanInserts(w, strategies, snaps[..n], st, i, market);
      SnapshotInserts(w, strategies, snaps[n], Scan(w, strategies, snaps[..n], st), i, market);
    }
  }

  lemma {:induction false} ScanTouchesOnlyStrategies(
      w: World, strategies: seq<StrategyRow>, snaps: seq<Snapshot>, st: State, key: Key)
    requires Plain(strategies) && forall i :: 0 <= i < |strategies| ==> strategies[i].id != key.strategy
    ensures Lookup(Scan(w, strategies, snaps, st).positions, key) == Lookup(st.positions, key)
  {
    if snaps != [] {
      var n := |snaps| - 1;
      ScanTouchesOnlyStrategies(w, strategies, snaps[..n], st, key);
      OthersUntouched(w, strategies, snaps[n], Scan(w, strategies, snaps[..n], st), key);
    }
  }

  /** The snapshot may open a row for the strategy, and this is the fill of what the strategy decides at it. */
  ghost predicate Opens(w: World, s: StrategyRow, snap: Snapshot, key: Key, row: Position) {
    && key == Key(s.id, snap.marketId)
    && Tradeable(w, snap) && Considers(w, s, snap)
    && exists cross :: RowOf(snap, Decide(s.spec.value, cross, [], snap, ContextOf(w, snap)).action) == Some(row)
  }

  /** The row was there before, or some strategy opened it at some snapshot. */
  ghost predicate Explained(
      w: World, strategies: seq<StrategyRow>, snaps: seq<Snapshot>, before: Table, key: Key, row: Position)
  {
    || Lookup(before, key) == Some(row)
    || exists i, j :: 0 <= i < |snaps| && 0 <= j < |strategies| && Opens(w, strategies[j], snaps[i], key, row)
  }

  /**
   With or without cross conditions, a scan adds no row that its strategy's filters, its
   start time and the market's resolution did not allow at the snapshot it was filled at.
   */
  lemma {:induction false} RowsAreEligible(
      w: World, strategies: seq<StrategyRow>, snaps: seq<Snapshot>, st: State, key: Key)
    requires key in Scan(w, strategies, snaps, st).positions
    ensures Explained(w, strategies, snaps, st.positions, key, Scan(w, strategies, snaps, st).positions[key])
  {
    if snaps != [] {
      var n := |snaps| - 1;
      var before := Scan(w, strategies, snaps[..n], st);
      SnapshotRowsAreEligible(w, strategies, snaps[n], before, key);
      if key in before.positions {
        RowsAreEligible(w, strategies, snaps[..n], st, key);
      }
    }
  }

  lemma {:induction false} SnapshotRowsAreEligible(
      w: World, strategies: seq<StrategyRow>, snap: Snapshot, st: State, key: Key)
    requires key in OneSnapshot(w, strategies, snap, st).positions
    ensures
      var row := OneSnapshot(w, strategies, snap, st).positions[key];
      || Lookup(st.positions, key) == Some(row)
      || exists j :: 0 <= j < |strategies| && Opens(w, strategies[j], snap, key, row)
  {
    if strategies != [] {
      var n := |strategies| - 1;
      var before := OneSnapshot(w, strategies[..n], snap, st);
      if key in before.positions {
        SnapshotRowsAreEligible(w, strategies[..n], snap, st, key);
      }
    }
  }

  // ------------------------------------------------------ overlapping polls

  /** A poll scans stream[from..to]. */
  datatype Window = Window(from: nat, to: nat)

  ghost predicate WithinStream(windows: seq<Window>, n: nat) {
    forall k :: 0 <= k < |windows| ==> windows[k].from <= windows[k].to <= n
  }

  /** How far into the stream the polls have got. */
  function Frontier(windows: seq<Window>): nat {
    if windows == [] then 0
    else
      var before, w := Frontier(windows[..|windows| - 1]), windows[|windows| - 1];
      if w.to > before then w.to else before
  }

  /** Every poll reaches back to where the earlier ones had got, so nothing is skipped. */
  ghost predicate NoGaps(windows: seq<Window>) {
    windows != [] ==>
      && NoGaps(windows[..|windows| - 1])
      && windows[|windows| - 1].from <= Frontier(windows[..|windows| - 1])
  }

  function RunPolls(w: World, strategies: seq<StrategyRow>, stream: seq<Snapshot>, windows: seq<Window>): State
    requires forall k :: 0 <= k < |windows| ==> windows[k].from <= windows[k].to <= |stream|
  {
    if windows == [] then State(map[], map[])
    else
      var last := windows[|windows| - 1];
      Scan(w, strategies, stream[last.from..last.to], RunPolls(w, strategies, stream, windows[..|windows| - 1]))
  }

  lemma {:induction false} FrontierWithin(windows: seq<Window>, n: nat)
    requires WithinStream(windows, n)
    ensures Frontier(windows) <= n
  {
    if windows != [] {
      FrontierWithin(windows[..|windows| - 1], n);
    }
  }

  lemma {:induction false} FirstTriggerConcat(
      w: World, s: StrategyRow, market: string, a: seq<Snapshot>, b: seq<Snapshot>)
    ensures FirstTrigger(w, s, market, a + b) ==
      OrElse(FirstTrigger(w, s, market, a), FirstTrigger(w, s, market, b))
  {
    if b == [] {
      assert a + b == a;
    } else {
      var n := |b| - 1;
      assert (a + b)[..|a + b| - 1] == a + b[..n];
      FirstTriggerConcat(w, s, market, a, b[..n]);
    }
  }

  /** Looking again at part of what was seen changes nothing. */
  lemma {:induction false} OverlapAddsNothing(
      w: World, s: StrategyRow, market: string, stream: seq<Snapshot>, seen: nat, from: nat, to: nat)
    requires from <= seen <= |stream| && from <= to <= |stream|
    ensures OrElse(FirstTrigger(w, s, market, stream[..seen]), FirstTrigger(w, s, market, stream[from..to])) ==
      FirstTrigger(w, s, market, stream[..(if to > seen then to else seen)])
  {
    if to > seen {
      assert stream[..to] == stream[..seen] + stream[seen..to];
      assert stream[..seen] == stream[..from] + stream[from..seen];
      assert stream[from..to] == stream[from..seen] + stream[seen..to];
      FirstTriggerConcat(w, s, market, stream[..seen], stream[seen..to]);
      FirstTriggerConcat(w, s, market, stream[..from], stream[from..seen]);
      FirstTriggerConcat(w, s, market, stream[from..seen], stream[seen..to]);
    } else {
      assert stream[..seen] == stream[..from] + stream[from..to] + stream[to..seen];
      FirstTriggerConcat(w, s, market, stream[..from] + stream[from..to], stream[to..seen]);
      FirstTriggerConcat(w, s, market, stream[..from], stream[from..to]);
    }
  }

  lemma {:induction false} PollsInsertFirstTriggers(
      w: World, strategies: seq<StrategyRow>, stream: seq<Snapshot>, windows: seq<Window>, i: nat, market: string)
    requires Plain(strategies) && i < |strategies|
    requires WithinStream(windows, |stream|) && NoGaps(windows) && Frontier(windows) <= |stream|
    ensures Lookup(RunPolls(w, strategies, stream, windows).positions, Key(strategies[i].id, market)) ==
      FirstTrigger(w, strategies[i], market, stream[..Frontier(windows)])
  {
    if windows != [] {
      var earlier, last := windows[..|windows| - 1], windows[|windows| - 1];
      FrontierWithin(earlier, |stream|);
      PollsInsertFirstTriggers(w, strategies, stream, earlier, i, market);
      ScanInserts(w, strategies, stream[last.from..last.to], RunPolls(w, strategies, stream, earlier), i, market);
      OverlapAddsNothing(w, strategies[i], market, stream, Frontier(earlier), last.from, last.to);
    }
  }

  lemma {:induction false} PollsTouchOnlyStrategies(
      w: World, strategies: seq<StrategyRow>, stream: seq<Snapshot>, windows: seq<Window>, key: Key)
    requires Plain(strategies) && WithinStream(windows, |stream|)
    requires forall i :: 0 <= i < |strategies| ==> strategies[i].id != key.strategy
    ensures Lookup(RunPolls(w, strategies, stream, windows).positions, key) == None
  {
    if windows != [] {
      var earlier, last := windows[..|windows| - 1], windows[|windows| - 1];
      PollsTouchOnlyStrategies(w, strategies, stream, earlier, key);
      ScanTouchesOnlyStrategies(w, strategies, stream[last.from..last.to],
                                RunPolls(w, strategies, stream, earlier), key);
    }
  }

  /**
   Exactly-once effect: polls without gaps, however they overlap, leave the very table a
   single pass over the same part of the stream leaves.
   */
  lemma {:induction false} OverlappingPollsAreOnePass(
      w: World, strategies: seq<StrategyRow>, stream: seq<Snapshot>, windows: seq<Window>)
    requires Plain(strategies)
    requires WithinStream(windows, |stream|) && NoGaps(windows) && Frontier(windows) <= |stream|
    ensures RunPolls(w, strategies, stream, windows).positions ==
            Scan(w, strategies, stream[..Frontier(windows)], State(map[], map[])).positions
  {
    var polled := RunPolls(w, strategies, stream, windows).positions;
    var once := Scan(w, strategies, stream[..Frontier(windows)], State(map[], map[])).positions;
    forall key: Key ensures Lookup(polled, key) == Lookup(once, key) {
      if i: nat :| i < |strategies| && strategies[i].id == key.strategy {
        PollsInsertFirstTriggers(w, strategies, stream, windows, i, key.market);
        ScanInserts(w, strategies, stream[..Frontier(windows)], State(map[], map[]), i, key.market);
      } else {
        PollsTouchOnlyStrategies(w, strategies, stream, windows, key);
        ScanTouchesOnlyStrategies(w, strategies, stream[..Frontier(windows)], State(map[], map[]), key);
      }
    }
    SameLookups(polled, once);
  }

  lemma SameLookups(a: Table, b: Table)
    requires forall key: Key :: Lookup(a, key) == Lookup(b, key)
    ensures a == b
  {
    assert forall key :: key in a ==> Lookup(b, key) == Some(a[key]);
    assert forall key :: key in b ==> Lookup(a, key) == Some(b[key]);
  }

  // ------------------------------------------------------- life of a row

  datatype Operation =
    | Polled(w: World, strategies: seq<StrategyRow>, snaps: seq<Snapshot>)
    | Resolved(market: string, yesPrice: real)

  function Perform(st: State, op: Operation): State {
    match op
    case Polled(w, strategies, snaps) => Scan(w, strategies, snaps, st)
    case Resolved(market, yesPrice) => st.(positions := SettleMarket(st.positions, market, yesPrice))
  }

  function PerformAll(st: State, ops: seq<Operation>): State {
    if ops == [] then st else Perform(PerformAll(st, ops[..|ops| - 1]), ops[|ops| - 1])
  }

  /** The row is as it was, or has been closed with the profit of its own fill. */
  ghost predicate Aged(before: Position, after: Position) {
    || after == before
    || (before.status.Open? && exists yesPrice :: after == Settle(before, yesPrice))
  }

  ghost predicate OnlyAged(before: Table, after: Table) {
    forall key :: key in before ==> key in after && Aged(before[key], after[key])
  }

  lemma {:induction false} ScanKeepsRows(
      w: World, strategies: seq<StrategyRow>, snaps: seq<Snapshot>, st: State, key: Key)
    requires key in st.positions
    ensures key in Scan(w, strategies, snaps, st).positions
    ensures Scan(w, strategies, snaps, st).positions[key] == st.positions[key]
  {
    if snaps != [] {
      var n := |snaps| - 1;
      ScanKeepsRows(w, strategies, snaps[..n], st, key);
      SnapshotKeepsRows(w, strategies, snaps[n], Scan(w, strategies, snaps[..n], st), key);
    }
  }

  lemma {:induction false} SnapshotKeepsRows(
      w: World, strategies: seq<StrategyRow>, snap: Snapshot, st: State, key: Key)
    requires key in st.positions
    ensures key in OneSnapshot(w, strategies, snap, st).positions
    ensures OneSnapshot(w, strategies, snap, st).positions[key] == st.positions[key]
  {
    if strategies != [] {
      SnapshotKeepsRows(w, strategies[..|strategies| - 1], snap, st, key);
    }
  }

  /** Rows only ever go from absent to open to closed, whatever strategies, data and resolutions come. */
  lemma {:induction false} RowsOnlyAge(st: State, ops: seq<Operation>)
    ensures OnlyAged(st.positions, PerformAll(st, ops).positions)
  {
    if ops != [] {
      var n := |ops| - 1;
      RowsOnlyAge(st, ops[..n]);
      var mid, op := PerformAll(st, ops[..n]), ops[n];
      forall key | key in st.positions
        ensures key in Perform(mid, op).positions && Aged(st.positions[key], Perform(mid, op).positions[key])
      {
        if op.Polled? {
          ScanKeepsRows(op.w, op.strategies, op.snaps, mid, key);
        } else if mid.positions[key].status.Open? && key.market == op.market {
          assert Perform(mid, op).positions[key] == Settle(st.positions[key], op.yesPrice);
        }
      }
    }
  }

  // ------------------------------------------- three ways to settle a trade

  /**
   The paper trader's profit formula agrees with the engine's exactly when the fill
   price is positive, the trade is a buy, or nothing was traded: at a price of zero the
   engine credits a sale with its size where the paper trader debits it.
   */
  lemma PaperPnlAgreesWithEngine(side: Side, price: real, size: real, y: real)
    ensures ComputePnl(side, price, size, y) == Engine.SettledPnl(side, price, size, y)
      <==> price > 0.0 || side.IsBuy() || size == 0.0
  {
  }

  /**
   The rows the worker inserts never meet that case: an average price of zero means nothing
   was spent, so every row settles alike in both formulas, whatever the outcome.
   */
  lemma {:induction false} InsertedRowsSettleAlike(snap: Snapshot, a: Action, y: real)
    requires ReplayProofs.SoundSnapshot(snap) && a.sizeUsd >= 0.0 && RowFor(snap, a).Some?
    ensures
      var p := RowFor(snap, a).value;
      ComputePnl(p.side, p.fillPrice, p.sizeUsd, y) == Engine.SettledPnl(p.side, p.fillPrice, p.sizeUsd, y)
  {
    var t := BuyTotals(BookForSide(snap, a.side), a.sizeUsd);
    ReplayProofs.BuyTotalsNonNegative(BookForSide(snap, a.side), a.sizeUsd);
    AveragePrice(t.usd, t.shares);
    PaperPnlAgreesWithEngine(a.side, t.usd / t.shares, t.usd, y);
  }

  lemma AveragePrice(usd: real, shares: real)
    requires usd >= 0.0 && shares > 0.0
    ensures usd / shares > 0.0 || usd == 0.0
  {
  }

  /** The settlement payoff agrees with the engine's formula exactly at positive prices or for nothing. */
  lemma PayoffAgreesWithEngine(side: Side, price: real, size: real, y: real)
    ensures SettlementPayoff(side, price, size, y) == Engine.SettledPnl(side, price, size, y)
      <==> price > 0.0 || size == 0.0
  {
  }
}

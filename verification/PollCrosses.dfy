/**
 Scanning a snapshot twice: exactly when it is harmless to a strategy whose entry section
 remembers values.
 */
module PollCrosses {
  import opened Types
  import opened Slippage
  import opened Conditions
  import opened Strategies
  import opened SharedCrosses
  import opened PaperTrading

  ghost predicate HasCross(node: Node) { exists c :: c in Leaves(node) && Remembers(c) }

  // ------------------------------------------------- one section, four looks

  /** Read near, cross leaves are past their thresholds and the others hold; read far, they are before them. */
  ghost predicate NearAndFar(node: Node, near: Values, far: Values) {
    forall c :: c in Leaves(node) ==>
      if Remembers(c) then
        near(c).Some? && far(c).Some? && Crossed(c.op, far(c).value, c.value.value, near(c).value)
      else LeafTruth(c, near, map[])
  }

  /** What looking at the section leaves behind: every cross leaf's value. */
  ghost predicate Remembering(node: Node, m: CrossMap, vals: Values) {
    forall c :: c in Leaves(node) && Remembers(c) ==> ConditionKey(c) in m && Some(m[ConditionKey(c)]) == vals(c)
  }

  lemma {:induction false} LookRemembers(node: Node, vals: Values, m: CrossMap)
    requires AndOnly(node) && Distinct(node)
    requires forall c :: c in Leaves(node) && Remembers(c) ==> vals(c).Some?
    ensures Remembering(node, Eval(node, vals, m).cross, vals)
    ensures Eval(node, vals, m).truth <==> NoEmptyGroup(node) && forall c :: c in Leaves(node) ==> LeafTruth(c, vals, m)
  {
    EvalRefinesTruth(node, vals, m);
    AndOnlyVisitsAll(node, vals, m);
  }

  /** Seen for the first time, a section with a cross leaf does not hold. */
  lemma {:induction false} FirstLookFails(node: Node, near: Values, far: Values)
    requires AndOnly(node) && Distinct(node) && HasCross(node) && NearAndFar(node, near, far)
    ensures !Eval(node, near, map[]).truth && Remembering(node, Eval(node, near, map[]).cross, near)
  {
    LookRemembers(node, near, map[]);
    var c :| c in Leaves(node) && Remembers(c);
    assert !LeafTruth(c, near, map[]);
  }

  /** Nor does it when its values step back over their thresholds. */
  lemma {:induction false} FarLookFails(node: Node, near: Values, far: Values, m: CrossMap)
    requires AndOnly(node) && Distinct(node) && HasCross(node) && NearAndFar(node, near, far)
    requires Remembering(node, m, near)
    ensures !Eval(node, far, m).truth && Remembering(node, Eval(node, far, m).cross, far)
  {
    LookRemembers(node, far, m);
    var c :| c in Leaves(node) && Remembers(c);
    assert !LeafTruth(c, far, m);
  }

  /** Seen again after them, the first values look like a crossing. */
  lemma {:induction false} SecondLookFires(node: Node, near: Values, far: Values, m: CrossMap)
    requires AndOnly(node) && Distinct(node) && NoEmptyGroup(node) && NearAndFar(node, near, far)
    requires Remembering(node, m, far)
    ensures Eval(node, near, m).truth
  {
    LookRemembers(node, near, m);
  }

  // ------------------------------------------------------- one strategy, polled

  /** The memory of the strategy's entry section for the snapshot's market. */
  function EntryMemory(s: StrategyRow, snap: Snapshot, st: State): CrossMap {
    Remembered(st.instances, Key(s.id, snap.marketId)).entry
  }

  function EntryNode(s: StrategyRow): Node
    requires s.spec.Some? && s.spec.value.ConditionBased?
  {
    SectionNode(s.spec.value.entry)
  }

  function ValuesFor(w: World, s: StrategyRow, snap: Snapshot): Values
    requires s.spec.Some? && s.spec.value.ConditionBased? && Tradeable(w, snap)
  {
    ValuesAt(s.spec.value, [], snap, ContextOf(w, snap))
  }

  function EntryAction(s: StrategyRow): Action
    requires s.spec.Some? && s.spec.value.ConditionBased?
  {
    Action(if s.spec.value.alwaysUp then BuyYes else BuyNo, s.spec.value.sizeUsd)
  }

  /** One evaluation, in terms of the entry's tree. */
  lemma PairLooks(w: World, s: StrategyRow, snap: Snapshot, st: State)
    requires s.spec.Some? && s.spec.value.ConditionBased? && Given(s.spec.value.entry)
    requires Tradeable(w, snap) && Considers(w, s, snap)
    ensures
      var o, after := Eval(EntryNode(s), ValuesFor(w, s, snap), EntryMemory(s, snap, st)), OnePair(w, s, snap, st);
      && EntryMemory(s, snap, after) == o.cross
      && after.positions == Inserted(st.positions, Key(s.id, snap.marketId),
                                     if o.truth then RowFor(snap, EntryAction(s)) else None)
  {
    GivenIsTree(s.spec.value.entry, ValuesFor(w, s, snap), EntryMemory(s, snap, st));
  }

  lemma OneStrategy(w: World, s: StrategyRow, snap: Snapshot, st: State)
    ensures OneSnapshot(w, [s], snap, st) == OnePair(w, s, snap, st)
  {
    assert [s][..0] == [];
  }

  lemma TwoSnapshots(w: World, s: StrategyRow, s0: Snapshot, s1: Snapshot, st: State)
    ensures Scan(w, [s], [s0, s1], st) == OnePair(w, s, s1, OnePair(w, s, s0, st))
  {
    OneStrategy(w, s, s0, st);
    OneStrategy(w, s, s1, OnePair(w, s, s0, st));
    assert [s0, s1][..1] == [s0] && [s0][..0] == [];
    assert Scan(w, [s], [s0], st) == OneSnapshot(w, [s], s0, Scan(w, [s], [], st));
  }

  const NOTHING := State(map[], map[])

  /** Two snapshots of one market: the first reads near and can be filled, the second reads far. */
  ghost predicate Misleads(w: World, s: StrategyRow, s0: Snapshot, s1: Snapshot) {
    && s.spec.Some? && s.spec.value.ConditionBased? && Given(s.spec.value.entry)
    && s0.marketId == s1.marketId && Tradeable(w, s0) && Considers(w, s, s0) && Considers(w, s, s1)
    && AndOnly(EntryNode(s)) && Distinct(EntryNode(s)) && NoEmptyGroup(EntryNode(s)) && HasCross(EntryNode(s))
    && NearAndFar(EntryNode(s), ValuesFor(w, s, s0), ValuesFor(w, s, s1))
    && RowFor(s0, EntryAction(s)).Some?
  }

  lemma {:induction false} OnePassOpensNothing(w: World, s: StrategyRow, s0: Snapshot, s1: Snapshot)
    requires Misleads(w, s, s0, s1)
    ensures
      var st := OnePair(w, s, s1, OnePair(w, s, s0, NOTHING));
      st.positions == map[] && Remembering(EntryNode(s), EntryMemory(s, s0, st), ValuesFor(w, s, s1))
  {
    var node, near, far := EntryNode(s), ValuesFor(w, s, s0), ValuesFor(w, s, s1);
    var st := OnePair(w, s, s0, NOTHING);
    PairLooks(w, s, s0, NOTHING);
    FirstLookFails(node, near, far);
    PairLooks(w, s, s1, st);
    FarLookFails(node, near, far, EntryMemory(s, s1, st));
  }

  lemma {:induction false} SecondPassOpens(w: World, s: StrategyRow, s0: Snapshot, s1: Snapshot, st: State)
    requires Misleads(w, s, s0, s1)
    requires Remembering(EntryNode(s), EntryMemory(s, s0, st), ValuesFor(w, s, s1))
    ensures Key(s.id, s0.marketId) in OnePair(w, s, s1, OnePair(w, s, s0, st)).positions
  {
    PairLooks(w, s, s0, st);
    SecondLookFires(EntryNode(s), ValuesFor(w, s, s0), ValuesFor(w, s, s1), EntryMemory(s, s0, st));
    PairLooks(w, s, s1, OnePair(w, s, s0, st));
  }

  lemma RunTwice(w: World, s: StrategyRow, s0: Snapshot, s1: Snapshot)
    ensures RunPolls(w, [s], [s0, s1], [Window(0, 2), Window(0, 2)])
         == Scan(w, [s], [s0, s1], Scan(w, [s], [s0, s1], NOTHING))
  {
    var windows := [Window(0, 2), Window(0, 2)];
    assert windows[..1] == [Window(0, 2)] && windows[..1][..0] == [];
    assert [s0, s1][0..2] == [s0, s1];
    assert RunPolls(w, [s], [s0, s1], windows[..1]) == Scan(w, [s], [s0, s1], NOTHING);
  }

  /**
   Values past their thresholds, then values before them, never cross in one pass, but
   polling the two twice sees the first again after the second and opens a position.
   */
  lemma {:induction false} OverlapFakesACross(w: World, s: StrategyRow, s0: Snapshot, s1: Snapshot)
    requires Misleads(w, s, s0, s1)
    ensures Scan(w, [s], [s0, s1], NOTHING).positions == map[]
    ensures Key(s.id, s0.marketId) in RunPolls(w, [s], [s0, s1], [Window(0, 2), Window(0, 2)]).positions
  {
    var st := OnePair(w, s, s1, OnePair(w, s, s0, NOTHING));
    OnePassOpensNothing(w, s, s0, s1);
    SecondPassOpens(w, s, s0, s1, st);
    TwoSnapshots(w, s, s0, s1, NOTHING);
    TwoSnapshots(w, s, s0, s1, st);
    RunTwice(w, s, s0, s1);
  }

  // --------------------------------------------------- exactly when harmless

  /** The strategy, with another extractor behind its conditions. */
  function Reading(s: StrategyRow, extract: Extractor): StrategyRow
    requires s.spec.Some? && s.spec.value.ConditionBased?
  {
    s.(spec := Some(s.spec.value.(extract := extract)))
  }

  /** Polling through these windows leaves the table of one pass. */
  ghost predicate PollsLikeOnePass(
      w: World, strategies: seq<StrategyRow>, stream: seq<Snapshot>, windows: seq<Window>)
    requires WithinStream(windows, |stream|)
  {
    && Frontier(windows) <= |stream|
    && RunPolls(w, strategies, stream, windows).positions ==
       Scan(w, strategies, stream[..Frontier(windows)], NOTHING).positions
  }

  /** Whatever the values, the market data, the stream and the gapless polls, overlap changes nothing. */
  ghost predicate OverlapHarmless(s: StrategyRow)
    requires s.spec.Some? && s.spec.value.ConditionBased?
  {
    forall extract: Extractor, w, stream, windows :: WithinStream(windows, |stream|) && NoGaps(windows) ==>
      PollsLikeOnePass(w, [Reading(s, extract)], stream, windows)
  }

  /**
   Scanning snapshots twice is harmless to an AND-only entry section with distinct
   fingerprints exactly when it has no cross condition or can never hold.
   */
  lemma {:induction false} OverlapHarmlessIffNoCross(s: StrategyRow)
    requires s.spec.Some? && s.spec.value.ConditionBased? && s.spec.value.sizeUsd > 0.0
    requires AndOnly(EntryNode(s)) && Distinct(EntryNode(s))
    ensures OverlapHarmless(s) <==> !HasCross(EntryNode(s)) || !CanFire(EntryNode(s))
  {
    if HasCross(EntryNode(s)) && CanFire(EntryNode(s)) {
      FiringCrossHarmed(s);
    } else {
      forall extract: Extractor, w, stream, windows | WithinStream(windows, |stream|) && NoGaps(windows)
        ensures PollsLikeOnePass(w, [Reading(s, extract)], stream, windows)
      {
        HarmlessPolls(w, Reading(s, extract), stream, windows);
      }
    }
  }

  lemma {:induction false} HarmlessPolls(w: World, s: StrategyRow, stream: seq<Snapshot>, windows: seq<Window>)
    requires s.spec.Some? && s.spec.value.ConditionBased?
    requires AndOnly(EntryNode(s)) && Distinct(EntryNode(s))
    requires !HasCross(EntryNode(s)) || !CanFire(EntryNode(s))
    requires WithinStream(windows, |stream|) && NoGaps(windows)
    ensures PollsLikeOnePass(w, [s], stream, windows)
  {
    FrontierWithin(windows, |stream|);
    if HasCross(EntryNode(s)) {
      CrossIsGiven(s.spec.value.entry);
      PollsAddNothing(w, s, stream, windows);
      ScanAddsNothing(w, s, stream[..Frontier(windows)], NOTHING);
    } else {
      assert Keys(Leaves(EntryNode(s))) == {};
      OverlappingPollsAreOnePass(w, [s], stream, windows);
    }
  }

  lemma CrossIsGiven(entry: Section)
    requires HasCross(SectionNode(entry))
    ensures Given(entry)
  {
  }

  /** A section with an empty group, or a leaf that cannot hold, never fires. */
  lemma {:induction false} NeverFires(w: World, s: StrategyRow, snap: Snapshot, st: State)
    requires s.spec.Some? && s.spec.value.ConditionBased? && Given(s.spec.value.entry)
    requires AndOnly(EntryNode(s)) && Distinct(EntryNode(s)) && !CanFire(EntryNode(s))
    ensures OnePair(w, s, snap, st).positions == st.positions
  {
    if Tradeable(w, snap) && Considers(w, s, snap) {
      PairLooks(w, s, snap, st);
      EvalRefinesTruth(EntryNode(s), ValuesFor(w, s, snap), EntryMemory(s, snap, st));
      AndOnlyVisitsAll(EntryNode(s), ValuesFor(w, s, snap), EntryMemory(s, snap, st));
    }
  }

  lemma {:induction false} ScanAddsNothing(w: World, s: StrategyRow, snaps: seq<Snapshot>, st: State)
    requires s.spec.Some? && s.spec.value.ConditionBased? && Given(s.spec.value.entry)
    requires AndOnly(EntryNode(s)) && Distinct(EntryNode(s)) && !CanFire(EntryNode(s))
    ensures Scan(w, [s], snaps, st).positions == st.positions
  {
    if snaps != [] {
      var n := |snaps| - 1;
      var before := Scan(w, [s], snaps[..n], st);
      ScanAddsNothing(w, s, snaps[..n], st);
      OneStrategy(w, s, snaps[n], before);
      NeverFires(w, s, snaps[n], before);
    }
  }

  lemma {:induction false} PollsAddNothing(w: World, s: StrategyRow, stream: seq<Snapshot>, windows: seq<Window>)
    requires s.spec.Some? && s.spec.value.ConditionBased? && Given(s.spec.value.entry)
    requires AndOnly(EntryNode(s)) && Distinct(EntryNode(s)) && !CanFire(EntryNode(s))
    requires WithinStream(windows, |stream|)
    ensures RunPolls(w, [s], stream, windows).positions == map[]
  {
    if windows != [] {
      var earlier, last := windows[..|windows| - 1], windows[|windows| - 1];
      PollsAddNothing(w, s, stream, earlier);
      ScanAddsNothing(w, s, stream[last.from..last.to], RunPolls(w, [s], stream, earlier));
    }
  }

  // ------------------------------------------------------------- the witness

  /** A snapshot that a buy of either token can be filled from. */
  function Fillable(at: real): Snapshot {
    Snapshot("m", at, [], [Level(0.5, 1.0)], [], [Level(0.5, 1.0)], None, "")
  }

  lemma FillableFills(at: real, a: Action)
    requires a.side.IsBuy() && a.sizeUsd > 0.0
    ensures RowFor(Fillable(at), a).Some?
  {
    var book := [Level(0.5, 1.0)];
    assert book[1..] == [];
    BuyFillsWhatIsThere(book, a.sizeUsd);
  }

  /** Past the threshold, or before it, by the probe's bounds. */
  function NearReading(p: Probe, c: Leaf): Option<real> { Readings(p)(c) }

  function FarReading(p: Probe, c: Leaf): Option<real> {
    if c.op == CrossesAbove then Some(p.lo - 1.0) else Some(p.hi + 1.0)
  }

  lemma ProbeIsNearAndFar(p: Probe, node: Node, near: Values, far: Values)
    requires Fits(p) && p.leaves == Leaves(node) && forall c :: c in Leaves(node) ==> CanHold(c)
    requires forall c :: near(c) == NearReading(p, c) && far(c) == FarReading(p, c)
    ensures NearAndFar(node, near, far)
  {
  }

  lemma {:induction false} DistinctFixesDirection(node: Node)
    requires Distinct(node)
    ensures KeysFixDirection(Leaves(node))
  {
    forall c, d | c in Leaves(node) && d in Leaves(node) && Remembers(c) && Remembers(d)
                  && ConditionKey(c) == ConditionKey(d)
      ensures c.op == d.op
    {
      SameKeySameLeaf(node, c, d);
    }
  }

  /** Near at the first moment, far at any other. */
  function Wavering(p: Probe, first: real): Extractor {
    (c, h, snap: Snapshot, ctx) => if snap.ts == first then NearReading(p, c) else FarReading(p, c)
  }

  lemma {:induction false} FiringCrossHarmed(s: StrategyRow)
    requires s.spec.Some? && s.spec.value.ConditionBased? && s.spec.value.sizeUsd > 0.0
    requires AndOnly(EntryNode(s)) && Distinct(EntryNode(s)) && HasCross(EntryNode(s)) && CanFire(EntryNode(s))
    ensures !OverlapHarmless(s)
  {
    DistinctFixesDirection(EntryNode(s));
    CrossIsGiven(s.spec.value.entry);
    var p := ProbeFor(Leaves(EntryNode(s)));
    WaveringMisleads(s, p);
    HarmedByTwoPolls(OneMarket(s), s, Wavering(p, s.startedAt), Fillable(s.startedAt), Fillable(s.startedAt + 1.0));
  }

  /** One open market that the strategy's filters accept. */
  function OneMarket(s: StrategyRow): World {
    World(map["m" := Meta(s.ticker, s.eventType, None, false)], map[])
  }

  lemma {:induction false} WaveringMisleads(s: StrategyRow, p: Probe)
    requires s.spec.Some? && s.spec.value.ConditionBased? && s.spec.value.sizeUsd > 0.0 && Given(s.spec.value.entry)
    requires AndOnly(EntryNode(s)) && Distinct(EntryNode(s)) && HasCross(EntryNode(s)) && CanFire(EntryNode(s))
    requires Fits(p) && p.leaves == Leaves(EntryNode(s))
    ensures Misleads(OneMarket(s), Reading(s, Wavering(p, s.startedAt)),
                     Fillable(s.startedAt), Fillable(s.startedAt + 1.0))
  {
    var w, r := OneMarket(s), Reading(s, Wavering(p, s.startedAt));
    var s0, s1 := Fillable(s.startedAt), Fillable(s.startedAt + 1.0);
    ProbeIsNearAndFar(p, EntryNode(s), ValuesFor(w, r, s0), ValuesFor(w, r, s1));
    FillableFills(s.startedAt, EntryAction(r));
  }

  lemma {:induction false} HarmedByTwoPolls(
      w: World, s: StrategyRow, extract: Extractor, s0: Snapshot, s1: Snapshot)
    requires s.spec.Some? && s.spec.value.ConditionBased? && Misleads(w, Reading(s, extract), s0, s1)
    ensures !OverlapHarmless(s)
  {
    var stream, windows := [s0, s1], [Window(0, 2), Window(0, 2)];
    OverlapFakesACross(w, Reading(s, extract), s0, s1);
    TwiceIsGapless();
    assert stream[..2] == stream;
    assert !PollsLikeOnePass(w, [Reading(s, extract)], stream, windows);
  }

  lemma TwiceIsGapless()
    ensures
      var windows := [Window(0, 2), Window(0, 2)];
      WithinStream(windows, 2) && NoGaps(windows) && Frontier(windows) == 2
  {
    var windows := [Window(0, 2), Window(0, 2)];
    assert windows[..1] == [Window(0, 2)] && windows[..1][..0] == [];
    assert Frontier(windows[..1]) == 2 && NoGaps(windows[..1]);
  }
}

/** What the entry section remembers over a replay, and when entries fire because of it. */
module ReplayMemory {
  import opened Types
  import opened Conditions
  import opened Strategies
  import opened Engine
  import opened ReplayProofs

  /** Flat and below the cap: the replay consults the entry section at snapshot i. */
  ghost predicate Consulted(params: Params, snaps: seq<Snapshot>, i: nat)
    requires i < |snaps|
  {
    var g := RunTo(DeskOf(params), snaps, i).ledger;
    g.position.None? && g.fills < MaxTrades(params.spec)
  }

  /** What the entry's leaves compute at snapshot i, from at most 59 snapshots before it. */
  function ValuesIn(params: Params, snaps: seq<Snapshot>, i: nat): Values
    requires i < |snaps| && params.spec.ConditionBased?
  {
    ValuesAt(params.spec, WindowBefore(snaps, i, 59), snaps[i], Context(params.resolutionAt, Some(snaps[0])))
  }

  /** The flagged ones among some values. */
  function Flagged(flags: seq<bool>, all: seq<Values>): seq<Values>
    requires |flags| == |all|
  {
    if flags == [] then []
    else
      var n := |flags| - 1;
      Flagged(flags[..n], all[..n]) + if flags[n] then [all[n]] else []
  }

  /** The values of exactly the snapshots, before k, at which the entry section was consulted. */
  ghost function EntryRun(params: Params, snaps: seq<Snapshot>, k: nat): seq<Values>
    requires k <= |snaps| && params.spec.ConditionBased?
  {
    Flagged(Flags(params, snaps, k), AllValues(params, snaps, k))
  }

  ghost function Flags(params: Params, snaps: seq<Snapshot>, k: nat): (flags: seq<bool>)
    requires k <= |snaps|
    ensures |flags| == k && forall i :: 0 <= i < k ==> flags[i] == Consulted(params, snaps, i)
  {
    seq(k, i requires 0 <= i < k => Consulted(params, snaps, i))
  }

  function AllValues(params: Params, snaps: seq<Snapshot>, k: nat): (all: seq<Values>)
    requires k <= |snaps| && params.spec.ConditionBased?
    ensures |all| == k && forall i :: 0 <= i < k ==> all[i] == ValuesIn(params, snaps, i)
  {
    seq(k, i requires 0 <= i < k => ValuesIn(params, snaps, i))
  }

  function Memories(params: Params, snaps: seq<Snapshot>, k: nat): (memories: seq<CrossMap>)
    requires k <= |snaps|
    ensures |memories| == k + 1 && forall i :: 0 <= i <= k ==> memories[i] == MemoryAt(params, snaps, i)
  {
    seq(k + 1, i requires 0 <= i <= k => MemoryAt(params, snaps, i))
  }

  /** What the entry section remembers after k snapshots of the replay. */
  function MemoryAt(params: Params, snaps: seq<Snapshot>, k: nat): CrossMap
    requires k <= |snaps|
  {
    RunTo(DeskOf(params), snaps, k).cross.entry
  }

  /** A memory that every flagged step evaluates and no other touches is that of the flagged run. */
  lemma {:induction false} FlaggedMemory(node: Node, memory: seq<CrossMap>, flags: seq<bool>, all: seq<Values>)
    requires |memory| == |flags| + 1 && |flags| == |all| && memory[0] == map[]
    requires forall i :: 0 <= i < |flags| ==>
      memory[i + 1] == if flags[i] then Eval(node, all[i], memory[i]).cross else memory[i]
    ensures memory[|flags|] == CrossAfter(node, Flagged(flags, all))
  {
    if flags != [] {
      var n := |flags| - 1;
      FlaggedMemory(node, memory[..n + 1], flags[..n], all[..n]);
      var before := Flagged(flags[..n], all[..n]);
      assert (before + [all[n]])[..|before|] == before && before + [] == before;
    }
  }

  /** What one decision does to the memory of the entry section. */
  lemma EntryDecisionRemembers(
      spec: StrategySpec, cross: CrossMaps, history: seq<Snapshot>, current: Snapshot, ctx: Context)
    requires spec.ConditionBased?
    ensures
      var o := Eval(SectionNode(spec.entry), ValuesAt(spec, history, current, ctx), cross.entry);
      var d := Decide(spec, cross, history, current, ctx);
      && d.cross.entry == o.cross
      && (d.action.Some? <==> !Given(spec.entry) || o.truth)
    ensures DecideExit(spec, cross, history, current, ctx).cross.entry == cross.entry
  {
  }

  /** One snapshot of a replay: only a consultation touches the memory of the entry section. */
  lemma {:induction false} SnapshotRemembers(params: Params, snaps: seq<Snapshot>, i: nat)
    requires i < |snaps| && params.spec.ConditionBased?
    ensures
      var before, after := MemoryAt(params, snaps, i), MemoryAt(params, snaps, i + 1);
      after == if Consulted(params, snaps, i)
               then Eval(SectionNode(params.spec.entry), ValuesIn(params, snaps, i), before).cross else before
  {
    var st, ctx := RunTo(DeskOf(params), snaps, i), Context(params.resolutionAt, Some(snaps[0]));
    HandedIsJustBefore(DeskOf(params), snaps, i);
    EntryDecisionRemembers(params.spec, st.cross, WindowBefore(snaps, i, 59), snaps[i], ctx);
  }

  /**
   Over any replay, the entry section's memory is that of evaluating its tree once at each
   snapshot at which it was consulted, and at no other.
   */
  lemma {:induction false} EntryMemory(params: Params, snaps: seq<Snapshot>, k: nat)
    requires k <= |snaps| && params.spec.ConditionBased?
    ensures MemoryAt(params, snaps, k)
         == CrossAfter(SectionNode(params.spec.entry), EntryRun(params, snaps, k))
  {
    var node := SectionNode(params.spec.entry);
    var memories, flags, all := Memories(params, snaps, k), Flags(params, snaps, k), AllValues(params, snaps, k);
    forall i | 0 <= i < k
      ensures memories[i + 1] == if flags[i] then Eval(node, all[i], memories[i]).cross else memories[i]
    {
      SnapshotRemembers(params, snaps, i);
    }
    FlaggedMemory(node, memories, flags, all);
  }

  /** A leaf holds after a run: a cross leaf against its last computable value, any other by itself. */
  predicate HoldsAfter(c: Leaf, run: seq<Values>, now: Values) {
    if Remembers(c) then
      && now(c).Some? && LastComputable(c, run).Some?
      && Crossed(c.op, LastComputable(c, run).value, c.value.value, now(c).value)
    else LeafTruth(c, now, map[])
  }

  /** Every condition of an AND-only tree holds after a run, and no group is empty. */
  ghost predicate AllHold(node: Node, run: seq<Values>, now: Values) {
    NoEmptyGroup(node) && forall c :: c in Leaves(node) ==> HoldsAfter(c, run, now)
  }

  lemma {:induction false} AndOnlyHolds(node: Node, run: seq<Values>, now: Values)
    requires AndOnly(node) && Distinct(node)
    ensures Eval(node, now, CrossAfter(node, run)).truth <==> AllHold(node, run, now)
  {
    AndOnlyRun(node, run, now);
    forall c | c in Leaves(node)
      ensures LeafTruth(c, now, CrossAfter(node, run)) == HoldsAfter(c, run, now)
    {
      if Remembers(c) {
        assert c.op == CrossesAbove || c.op == CrossesBelow;
      }
    }
  }

  /**
   In a replay of an AND-only entry section, a consultation asks for an entry exactly when
   every condition holds, cross conditions against their most recent computable value among
   the snapshots at which the section was consulted before.
   */
  lemma {:induction false} EntryFiresInReplay(params: Params, snaps: seq<Snapshot>, i: nat)
    requires i < |snaps| && params.spec.ConditionBased? && Consulted(params, snaps, i)
    requires Given(params.spec.entry)
    requires AndOnly(SectionNode(params.spec.entry)) && Distinct(SectionNode(params.spec.entry))
    ensures EntryAsked(params, snaps, i).Some? <==>
      AllHold(SectionNode(params.spec.entry), EntryRun(params, snaps, i), ValuesIn(params, snaps, i))
  {
    var st, ctx := RunTo(DeskOf(params), snaps, i), Context(params.resolutionAt, Some(snaps[0]));
    EntryMemory(params, snaps, i);
    HandedIsJustBefore(DeskOf(params), snaps, i);
    EntryDecisionRemembers(params.spec, st.cross, WindowBefore(snaps, i, 59), snaps[i], ctx);
    AndOnlyHolds(SectionNode(params.spec.entry), EntryRun(params, snaps, i), ValuesIn(params, snaps, i));
  }
}

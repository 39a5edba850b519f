/**
 What take-profit and stop-loss remember over a replay, and when exits fire because of it.
 Both sections write one map, which outlives the position.
 */
module ExitMemory {
  import opened Types
  import opened Conditions
  import opened Strategies
  import opened Engine
  import opened ReplayProofs
  import opened ReplayMemory

  /** In a position: the replay consults the exit sections at snapshot i. */
  ghost predicate Held(params: Params, snaps: seq<Snapshot>, i: nat)
    requires i < |snaps|
  {
    RunTo(DeskOf(params), snaps, i).ledger.position.Some?
  }

  /** What both exit sections remember after k snapshots of the replay. */
  function ExitMapAt(params: Params, snaps: seq<Snapshot>, k: nat): CrossMap
    requires k <= |snaps|
  {
    RunTo(DeskOf(params), snaps, k).cross.exit
  }

  function Extended(run: seq<Values>, seen: bool, now: Values): seq<Values> {
    if seen then run + [now] else run
  }

  /** What take-profit saw before snapshot k: every snapshot spent in a position, whichever it was. */
  ghost function ProfitRun(params: Params, snaps: seq<Snapshot>, k: nat): seq<Values>
    requires k <= |snaps| && params.spec.ConditionBased?
  {
    if k == 0 then []
    else Extended(ProfitRun(params, snaps, k - 1), Held(params, snaps, k - 1), ValuesIn(params, snaps, k - 1))
  }

  /** Every take-profit condition holds, cross conditions against what take-profit saw before. */
  ghost predicate TakesProfit(params: Params, snaps: seq<Snapshot>, i: nat)
    requires i < |snaps| && params.spec.ConditionBased?
  {
    AllHold(SectionNode(params.spec.takeProfit), ProfitRun(params, snaps, i), ValuesIn(params, snaps, i))
  }

  /** What stop-loss saw before snapshot k: those of them at which take-profit did not fire. */
  ghost function StopRun(params: Params, snaps: seq<Snapshot>, k: nat): seq<Values>
    requires k <= |snaps| && params.spec.ConditionBased?
  {
    if k == 0 then []
    else
      Extended(StopRun(params, snaps, k - 1),
               Held(params, snaps, k - 1) && !TakesProfit(params, snaps, k - 1), ValuesIn(params, snaps, k - 1))
  }

  ghost predicate StopsLoss(params: Params, snaps: seq<Snapshot>, i: nat)
    requires i < |snaps| && params.spec.ConditionBased?
  {
    AllHold(SectionNode(params.spec.stopLoss), StopRun(params, snaps, i), ValuesIn(params, snaps, i))
  }

  // ------------------------------------------------------------ one evaluation

  /** The map holds, for every cross condition of the tree, its last computable value of the run. */
  ghost predicate HoldsRun(node: Node, m: CrossMap, run: seq<Values>) {
    forall c :: c in Leaves(node) && Remembers(c) ==> Lookup(m, ConditionKey(c)) == LastComputable(c, run)
  }

  lemma LastOfExtended(c: Leaf, run: seq<Values>, now: Values)
    ensures LastComputable(c, run + [now]) == if now(c).Some? then now(c) else LastComputable(c, run)
  {
    assert (run + [now])[..|run|] == run;
  }

  /** Against such a map an AND-only tree holds exactly when all its conditions hold after the run. */
  lemma {:induction false} TruthAfterRun(node: Node, m: CrossMap, run: seq<Values>, now: Values)
    requires AndOnly(node) && HoldsRun(node, m, run)
    ensures Truth(node, now, m) == AllHold(node, run, now)
  {
    AndOnlyVisitsAll(node, now, m);
    forall c | c in Leaves(node)
      ensures LeafTruth(c, now, m) == HoldsAfter(c, run, now)
    {
      LeafAfterRun(c, m, run, now);
    }
  }

  lemma LeafAfterRun(c: Leaf, m: CrossMap, run: seq<Values>, now: Values)
    requires Remembers(c) ==> Lookup(m, ConditionKey(c)) == LastComputable(c, run)
    ensures LeafTruth(c, now, m) == HoldsAfter(c, run, now)
  {
  }

  /** Evaluating an AND-only tree brings its own references up to date. */
  lemma {:induction false} EvalExtendsRun(node: Node, m: CrossMap, run: seq<Values>, now: Values)
    requires AndOnly(node) && Distinct(node) && HoldsRun(node, m, run)
    ensures HoldsRun(node, Eval(node, now, m).cross, run + [now])
  {
    var after := Eval(node, now, m).cross;
    EvalRefinesTruth(node, now, m);
    AndOnlyVisitsAll(node, now, m);
    forall c | c in Leaves(node) && Remembers(c)
      ensures Lookup(after, ConditionKey(c)) == LastComputable(c, run + [now])
    {
      LastOfExtended(c, run, now);
      forall d | d in Leaves(node) && Remembers(d) && ConditionKey(d) == ConditionKey(c)
        ensures d == c
      {
        SameKeySameLeaf(node, c, d);
      }
    }
  }

  /** Evaluating a tree with other fingerprints leaves them alone. */
  lemma {:induction false} EvalSparesRun(other: Node, node: Node, m: CrossMap, run: seq<Values>, now: Values)
    requires Distinct(other) && Keys(Leaves(other)) !! Keys(Leaves(node)) && HoldsRun(node, m, run)
    ensures HoldsRun(node, Eval(other, now, m).cross, run)
  {
    EvalRefinesTruth(other, now, m);
    VisitedWithin(other, now, m);
    KeysMonotone(Visited(other, now, m), Leaves(other));
    UnrecordedAgree(m, Eval(other, now, m).cross, Visited(other, now, m), now, Keys(Leaves(node)));
  }

  /** The exit map after one consultation. */
  function AfterExit(spec: StrategySpec, m: CrossMap, now: Values): CrossMap
    requires spec.ConditionBased?
  {
    var profit := Eval(SectionNode(spec.takeProfit), now, m);
    if profit.truth then profit.cross else Eval(SectionNode(spec.stopLoss), now, profit.cross).cross
  }

  lemma ExitDecisionRemembers(
      spec: StrategySpec, cross: CrossMaps, history: seq<Snapshot>, current: Snapshot, ctx: Context)
    requires spec.ConditionBased?
    ensures DecideExit(spec, cross, history, current, ctx).cross.exit
         == AfterExit(spec, cross.exit, ValuesAt(spec, history, current, ctx))
    ensures Decide(spec, cross, history, current, ctx).cross.exit == cross.exit
  {
    var vals := ValuesAt(spec, history, current, ctx);
    GivenIsTree(spec.takeProfit, vals, cross.exit);
    GivenIsTree(spec.stopLoss, vals, Eval(SectionNode(spec.takeProfit), vals, cross.exit).cross);
  }

  /** Both exit sections are AND-only and share no fingerprint. */
  ghost predicate AndOnlyExits(spec: StrategySpec) {
    && spec.ConditionBased? && ExitDistinct(spec)
    && AndOnly(SectionNode(spec.takeProfit)) && AndOnly(SectionNode(spec.stopLoss))
  }

  lemma {:induction false} ExitExtendsRuns(
      spec: StrategySpec, m: CrossMap, profits: seq<Values>, stops: seq<Values>, now: Values)
    requires AndOnlyExits(spec)
    requires HoldsRun(SectionNode(spec.takeProfit), m, profits) && HoldsRun(SectionNode(spec.stopLoss), m, stops)
    ensures
      var tp, sl, after := SectionNode(spec.takeProfit), SectionNode(spec.stopLoss), AfterExit(spec, m, now);
      && HoldsRun(tp, after, Extended(profits, true, now))
      && HoldsRun(sl, after, Extended(stops, !AllHold(tp, profits, now), now))
  {
    var tp, sl := SectionNode(spec.takeProfit), SectionNode(spec.stopLoss);
    var profit := Eval(tp, now, m);
    EvalRefinesTruth(tp, now, m);
    TruthAfterRun(tp, m, profits, now);
    EvalExtendsRun(tp, m, profits, now);
    EvalSparesRun(tp, sl, m, stops, now);
    EvalExtendsRun(sl, profit.cross, stops, now);
    EvalSparesRun(sl, tp, profit.cross, profits + [now], now);
  }

  // ---------------------------------------------------------------- a replay

  /** One snapshot of a replay: only a consultation in a position touches the exit map. */
  lemma {:induction false} SnapshotRemembersExit(params: Params, snaps: seq<Snapshot>, i: nat)
    requires i < |snaps| && params.spec.ConditionBased?
    ensures ExitMapAt(params, snaps, i + 1)
         == if Held(params, snaps, i)
            then AfterExit(params.spec, ExitMapAt(params, snaps, i), ValuesIn(params, snaps, i))
            else ExitMapAt(params, snaps, i)
  {
    var st, ctx := RunTo(DeskOf(params), snaps, i), Context(params.resolutionAt, Some(snaps[0]));
    HandedIsJustBefore(DeskOf(params), snaps, i);
    ExitDecisionRemembers(params.spec, st.cross, WindowBefore(snaps, i, 59), snaps[i], ctx);
  }

  /**
   Over any replay, take-profit compares with the last computable value of all snapshots
   spent in a position, earlier positions included, and stop-loss with that of those at
   which take-profit did not fire.
   */
  lemma {:induction false} ExitsRemember(params: Params, snaps: seq<Snapshot>, k: nat)
    requires k <= |snaps| && AndOnlyExits(params.spec)
    ensures HoldsRun(SectionNode(params.spec.takeProfit), ExitMapAt(params, snaps, k), ProfitRun(params, snaps, k))
    ensures HoldsRun(SectionNode(params.spec.stopLoss), ExitMapAt(params, snaps, k), StopRun(params, snaps, k))
  {
    if k > 0 {
      var i := k - 1;
      ExitsRemember(params, snaps, i);
      SnapshotRemembersExit(params, snaps, i);
      ExitExtendsRuns(params.spec, ExitMapAt(params, snaps, i), ProfitRun(params, snaps, i),
                      StopRun(params, snaps, i), ValuesIn(params, snaps, i));
    }
  }

  /**
   In a position, the replay closes exactly when take-profit or stop-loss holds after what
   each has seen, for whatever the market then gives.
   */
  lemma {:induction false} ExitFiresInReplay(params: Params, snaps: seq<Snapshot>, i: nat)
    requires i < |snaps| && AndOnlyExits(params.spec) && Held(params, snaps, i)
    ensures
      var p := RunTo(DeskOf(params), snaps, i).ledger.position.value;
      BookedAt(params, snaps, i)
        == if TakesProfit(params, snaps, i) || StopsLoss(params, snaps, i)
           then OnSide(CloseSide(p.side), CloseBooking(params.config, p, snaps[i]))
           else None
  {
    var st, ctx := RunTo(DeskOf(params), snaps, i), Context(params.resolutionAt, Some(snaps[0]));
    var now, m := ValuesIn(params, snaps, i), ExitMapAt(params, snaps, i);
    ExitsRemember(params, snaps, i);
    HandedIsJustBefore(DeskOf(params), snaps, i);
    ExitIsEither(params.spec, st.cross, WindowBefore(snaps, i, 59), snaps[i], ctx);
    TruthAfterRun(SectionNode(params.spec.takeProfit), m, ProfitRun(params, snaps, i), now);
    TruthAfterRun(SectionNode(params.spec.stopLoss), m, StopRun(params, snaps, i), now);
  }
}

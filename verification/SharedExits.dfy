/**
 Take-profit and stop-loss write one map: exactly when exits still mean either section,
 read against the map at the start of the snapshot.
 */
module SharedExits {
  import opened Types
  import opened Conditions
  import opened SharedCrosses
  import opened Strategies

  /** The exit decision on the two trees: stop-loss sees what take-profit left behind. */
  predicate Exits(tp: Node, sl: Node, vals: Values, m: CrossMap) {
    Eval(tp, vals, m).truth || Eval(sl, vals, Eval(tp, vals, m).cross).truth
  }

  ghost predicate ExitsOnEither(tp: Node, sl: Node, vals: Values, m: CrossMap) {
    Exits(tp, sl, vals, m) <==> Truth(tp, vals, m) || Truth(sl, vals, m)
  }

  /** The exit decision of a strategy is either of its sections, read against the map as it was. */
  ghost predicate DecidesOnEither(
      spec: StrategySpec, cross: CrossMaps, history: seq<Snapshot>, current: Snapshot, ctx: Context)
    requires spec.ConditionBased?
  {
    var vals := ValuesAt(spec, history, current, ctx);
    DecideExit(spec, cross, history, current, ctx).exit <==>
      || Truth(SectionNode(spec.takeProfit), vals, cross.exit)
      || Truth(SectionNode(spec.stopLoss), vals, cross.exit)
  }

  lemma DecisionIsExits(
      spec: StrategySpec, cross: CrossMaps, history: seq<Snapshot>, current: Snapshot, ctx: Context)
    requires spec.ConditionBased?
    ensures DecideExit(spec, cross, history, current, ctx).exit
         == Exits(SectionNode(spec.takeProfit), SectionNode(spec.stopLoss),
                  ValuesAt(spec, history, current, ctx), cross.exit)
  {
    var vals := ValuesAt(spec, history, current, ctx);
    GivenIsTree(spec.takeProfit, vals, cross.exit);
    GivenIsTree(spec.stopLoss, vals, Eval(SectionNode(spec.takeProfit), vals, cross.exit).cross);
  }

  /** A cross condition stands under both sections. */
  ghost predicate SharesCross(tp: Node, sl: Node) {
    exists c :: c in Leaves(tp) && c in Leaves(sl) && Remembers(c)
  }

  /** Whatever holds under stop-loss holds under take-profit as well. */
  ghost predicate ProfitFirst(tp: Node, sl: Node) {
    NoEmptyGroup(tp) && Leaves(tp) <= Leaves(sl)
  }

  /** AND-only sections, neither with two cross conditions under one fingerprint. */
  ghost predicate AndOnlyPair(tp: Node, sl: Node) {
    AndOnly(tp) && AndOnly(sl) && Distinct(tp) && Distinct(sl)
  }

  lemma ExitsInTruths(tp: Node, sl: Node, vals: Values, m: CrossMap)
    requires AndOnlyPair(tp, sl)
    ensures Exits(tp, sl, vals, m) <==> Truth(tp, vals, m) || Truth(sl, vals, Eval(tp, vals, m).cross)
    ensures Recorded(m, Eval(tp, vals, m).cross, Leaves(tp), vals)
  {
    EvalRefinesTruth(tp, vals, m);
    EvalRefinesTruth(sl, vals, Eval(tp, vals, m).cross);
    AndOnlyVisitsAll(tp, vals, m);
  }

  // ---------------------------------------------------------- where it holds

  lemma {:induction false} NeverHolds(sl: Node, vals: Values, m: CrossMap)
    requires AndOnly(sl) && !CanFire(sl)
    ensures !Truth(sl, vals, m)
  {
    AndOnlyVisitsAll(sl, vals, m);
  }

  lemma {:induction false} SeparateMapsAgree(tp: Node, sl: Node, vals: Values, m: CrossMap)
    requires AndOnlyPair(tp, sl) && Keys(Leaves(tp)) !! Keys(Leaves(sl))
    ensures ExitsOnEither(tp, sl, vals, m)
  {
    var after := Eval(tp, vals, m).cross;
    ExitsInTruths(tp, sl, vals, m);
    UnrecordedAgree(m, after, Leaves(tp), vals, Keys(Leaves(sl)));
    TruthFrame(sl, vals, m, after);
  }

  lemma JustRecorded(c: Leaf, before: CrossMap, after: CrossMap, visited: set<Leaf>, vals: Values)
    requires Recorded(before, after, visited, vals) && c in visited && Remembers(c)
    ensures !LeafTruth(c, vals, after)
  {
  }

  /** A cross condition under both sections never stops out: take-profit overwrites its reference. */
  lemma {:induction false} SharedCrossNeverStops(tp: Node, sl: Node, vals: Values, m: CrossMap)
    requires AndOnlyPair(tp, sl) && SharesCross(tp, sl)
    ensures Exits(tp, sl, vals, m) <==> Truth(tp, vals, m)
  {
    var after := Eval(tp, vals, m).cross;
    var c :| c in Leaves(tp) && c in Leaves(sl) && Remembers(c);
    ExitsInTruths(tp, sl, vals, m);
    AndOnlyVisitsAll(sl, vals, after);
    JustRecorded(c, m, after, Leaves(tp), vals);
  }

  lemma {:induction false} ProfitCoversStop(tp: Node, sl: Node, vals: Values, m: CrossMap)
    requires AndOnlyPair(tp, sl) && SharesCross(tp, sl) && ProfitFirst(tp, sl)
    ensures ExitsOnEither(tp, sl, vals, m)
  {
    SharedCrossNeverStops(tp, sl, vals, m);
    AndOnlyVisitsAll(tp, vals, m);
    AndOnlyVisitsAll(sl, vals, m);
  }

  // ---------------------------------------------------------- where it fails

  /** An experiment: one more leaf, what it reads, and the memory before. */
  datatype Trial = Trial(probe: Probe, other: Leaf, value: Option<real>, before: CrossMap)

  /** Stop-loss conditions read past their thresholds, one leaf as given, nothing else can be computed. */
  function TrialReading(t: Trial, leaf: Leaf): Option<real> {
    if leaf in t.probe.leaves then Readings(t.probe)(leaf) else if leaf == t.other then t.value else None
  }

  ghost predicate Reads(vals: Values, t: Trial) { forall leaf :: vals(leaf) == TrialReading(t, leaf) }

  ghost predicate Differs(tp: Node, sl: Node, t: Trial) {
    forall vals: Values :: Reads(vals, t) ==> !ExitsOnEither(tp, sl, vals, t.before)
  }

  lemma {:induction false} StopProbe(sl: Node) returns (p: Probe)
    requires Distinct(sl)
    ensures Fits(p) && p.leaves == Leaves(sl)
  {
    forall c, d |
      c in Leaves(sl) && d in Leaves(sl) && Remembers(c) && Remembers(d) && ConditionKey(c) == ConditionKey(d)
      ensures c == d
    {
      SameKeySameLeaf(sl, c, d);
    }
    p := ProbeFor(Leaves(sl));
  }

  /** Past their thresholds, and on the far side of them before, all conditions of stop-loss hold. */
  lemma {:induction false} StopHolds(sl: Node, t: Trial, vals: Values, m: CrossMap)
    requires AndOnly(sl) && CanFire(sl) && Fits(t.probe) && t.probe.leaves == Leaves(sl) && Reads(vals, t)
    requires Agree(FarSide(t.probe, Keys(Leaves(sl))), m, Keys(Leaves(sl)))
    ensures Truth(sl, vals, m)
  {
    AndOnlyVisitsAll(sl, vals, m);
    forall d | d in Leaves(sl) ensures LeafTruth(d, vals, m) {
      FarSideHolds(t.probe, d);
      if Remembers(d) {
        assert ConditionKey(d) in Keys(Leaves(sl));
      }
    }
  }

  /** With a cross condition in common, a crossing that take-profit cannot act on is lost. */
  lemma {:induction false} StopIsLost(tp: Node, sl: Node) returns (t: Trial)
    requires AndOnlyPair(tp, sl) && CanFire(sl) && SharesCross(tp, sl) && !ProfitFirst(tp, sl)
    ensures Differs(tp, sl, t)
  {
    var p := StopProbe(sl);
    var c :| c in Leaves(sl) && Remembers(c);
    t := Trial(p, c, None, FarSide(p, Keys(p.leaves)));
    forall vals: Values | Reads(vals, t) ensures !ExitsOnEither(tp, sl, vals, t.before) {
      StopHolds(sl, t, vals, t.before);
      SharedCrossNeverStops(tp, sl, vals, t.before);
      AndOnlyVisitsAll(tp, vals, t.before);
    }
  }

  /** With only a fingerprint in common, take-profit's value passes for an earlier one of stop-loss's. */
  lemma {:induction false} StopIsFaked(tp: Node, sl: Node) returns (t: Trial)
    requires AndOnlyPair(tp, sl) && CanFire(sl) && !SharesCross(tp, sl)
    requires !(Keys(Leaves(tp)) !! Keys(Leaves(sl)))
    ensures Differs(tp, sl, t)
  {
    var p := StopProbe(sl);
    var key :| key in Keys(Leaves(tp)) && key in Keys(Leaves(sl));
    var c :| c in Leaves(tp) && Remembers(c) && ConditionKey(c) == key;
    var far := FarSide(p, Keys(p.leaves));
    t := Trial(p, c, Some(far[key]), far - {key});
    forall vals: Values | Reads(vals, t) ensures !ExitsOnEither(tp, sl, vals, t.before) {
      TrialFakes(tp, sl, t, far, vals);
    }
  }

  /** Take-profit completes the memory that stop-loss needs to hold; before, neither held. */
  lemma {:induction false} TrialFakes(tp: Node, sl: Node, t: Trial, far: CrossMap, vals: Values)
    requires AndOnlyPair(tp, sl) && CanFire(sl) && !SharesCross(tp, sl)
    requires Fits(t.probe) && t.probe.leaves == Leaves(sl) && far == FarSide(t.probe, Keys(Leaves(sl)))
    requires t.other in Leaves(tp) && Remembers(t.other) && ConditionKey(t.other) in Keys(Leaves(sl))
    requires t.value == Some(far[ConditionKey(t.other)]) && t.before == far - {ConditionKey(t.other)}
    requires Reads(vals, t)
    ensures !ExitsOnEither(tp, sl, vals, t.before)
  {
    var key := ConditionKey(t.other);
    ExitsInTruths(tp, sl, vals, t.before);
    BlindWithout(tp, key, vals, t.before);
    BlindWithout(sl, key, vals, t.before);
    OnlyOneRead(tp, sl, t, vals);
    OnlyOneRecorded(t.before, Eval(tp, vals, t.before).cross, Leaves(tp), vals, t.other);
    PutBack(far, key);
    StopHolds(sl, t, vals, far);
  }

  /** An AND-only tree with a cross condition of which nothing is remembered does not hold. */
  lemma {:induction false} BlindWithout(node: Node, key: string, vals: Values, m: CrossMap)
    requires AndOnly(node) && key in Keys(Leaves(node)) && key !in m
    ensures !Truth(node, vals, m)
  {
    AndOnlyVisitsAll(node, vals, m);
    var c :| c in Leaves(node) && Remembers(c) && ConditionKey(c) == key;
    assert !LeafTruth(c, vals, m);
  }

  lemma PutBack(m: CrossMap, key: string)
    requires key in m
    ensures key !in m - {key} && (m - {key})[key := m[key]] == m
  {
  }

  lemma OnlyOneRead(tp: Node, sl: Node, t: Trial, vals: Values)
    requires !SharesCross(tp, sl) && t.probe.leaves == Leaves(sl) && Reads(vals, t)
    requires t.other in Leaves(tp) && Remembers(t.other)
    ensures vals(t.other) == t.value
    ensures forall d :: d in Leaves(tp) && Remembers(d) && vals(d).Some? ==> d == t.other
  {
  }

  lemma OnlyOneRecorded(before: CrossMap, after: CrossMap, visited: set<Leaf>, vals: Values, c: Leaf)
    requires Recorded(before, after, visited, vals)
    requires c in visited && Remembers(c) && vals(c).Some?
    requires forall d :: d in visited && Remembers(d) && vals(d).Some? ==> d == c
    ensures after == before[ConditionKey(c) := vals(c).value]
  {
  }

  /**
   Stop-loss can never hold, or the sections share no fingerprint, or they share a cross
   condition and take-profit asks for nothing that stop-loss does not.
   */
  ghost predicate Excused(tp: Node, sl: Node) {
    || !CanFire(sl)
    || Keys(Leaves(tp)) !! Keys(Leaves(sl))
    || (SharesCross(tp, sl) && ProfitFirst(tp, sl))
  }

  lemma {:induction false} ExcusedAgrees(tp: Node, sl: Node, vals: Values, m: CrossMap)
    requires AndOnlyPair(tp, sl) && Excused(tp, sl)
    ensures ExitsOnEither(tp, sl, vals, m)
  {
    if !CanFire(sl) {
      ExitsInTruths(tp, sl, vals, m);
      NeverHolds(sl, vals, m);
      NeverHolds(sl, vals, Eval(tp, vals, m).cross);
    } else if Keys(Leaves(tp)) !! Keys(Leaves(sl)) {
      SeparateMapsAgree(tp, sl, vals, m);
    } else {
      ProfitCoversStop(tp, sl, vals, m);
    }
  }

  /**
   AND-only sections that share one map: exits mean either section, whatever the values
   and the memory, exactly when one of the three excuses applies.
   */
  lemma {:induction false} ExitsOnEitherIff(
      spec: StrategySpec, history: seq<Snapshot>, current: Snapshot, ctx: Context)
    requires spec.ConditionBased? && AndOnlyPair(SectionNode(spec.takeProfit), SectionNode(spec.stopLoss))
    ensures (forall extract: Extractor, cross ::
               DecidesOnEither(spec.(extract := extract), cross, history, current, ctx))
       <==> Excused(SectionNode(spec.takeProfit), SectionNode(spec.stopLoss))
  {
    var tp, sl := SectionNode(spec.takeProfit), SectionNode(spec.stopLoss);
    if Excused(tp, sl) {
      forall extract: Extractor, cross
        ensures DecidesOnEither(spec.(extract := extract), cross, history, current, ctx)
      {
        var vals := ValuesAt(spec.(extract := extract), history, current, ctx);
        DecisionIsExits(spec.(extract := extract), cross, history, current, ctx);
        ExcusedAgrees(tp, sl, vals, cross.exit);
      }
    } else {
      var t := Unexcused(tp, sl);
      var extract: Extractor, cross := (leaf, _, _, _) => TrialReading(t, leaf), CrossMaps(map[], t.before);
      DecisionIsExits(spec.(extract := extract), cross, history, current, ctx);
      assert Reads(ValuesAt(spec.(extract := extract), history, current, ctx), t);
      assert !DecidesOnEither(spec.(extract := extract), cross, history, current, ctx);
    }
  }

  lemma Unexcused(tp: Node, sl: Node) returns (t: Trial)
    requires AndOnlyPair(tp, sl) && !Excused(tp, sl)
    ensures Differs(tp, sl, t)
  {
    if SharesCross(tp, sl) {
      t := StopIsLost(tp, sl);
    } else {
      t := StopIsFaked(tp, sl);
    }
  }
}

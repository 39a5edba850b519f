/**
 Strategies as the engine sees them: a plain decision function, or the Strategy
 Builder's condition-based object, which remembers values for its cross conditions.
 */
module Strategies {
  import opened Types
  import opened Conditions

  datatype Context = Context(resolutionAt: Option<real>, marketOpen: Option<Snapshot>)

  type Extractor = (Leaf, seq<Snapshot>, Snapshot, Context) -> Option<real>

  datatype StrategySpec =
    | FunctionStrategy(decide: (seq<Snapshot>, Snapshot, Option<real>) -> Option<Action>)
    | ConditionBased(
        entry: Section,
        takeProfit: Section,
        stopLoss: Section,
        alwaysUp: bool,
        sizeUsd: real,
        maxTrades: int,
        extract: Extractor)

  datatype CrossMaps = CrossMaps(entry: CrossMap, exit: CrossMap)

  const EMPTY_CROSS := CrossMaps(map[], map[])

  datatype Decision = Decision(action: Option<Action>, cross: CrossMaps)

  datatype ExitDecision = ExitDecision(exit: bool, cross: CrossMaps)

  /** The section is present: an empty list counts as absent, a tree never does. */
  predicate Given(s: Section) {
    match s
    case NoSection => false
    case FlatList(conditions) => conditions != []
    case Tree(_) => true
  }

  function ValuesAt(spec: StrategySpec, history: seq<Snapshot>, current: Snapshot, ctx: Context): Values
    requires spec.ConditionBased?
  {
    c => spec.extract(c, history, current, ctx)
  }

  function EvalGiven(s: Section, vals: Values, m: CrossMap): Outcome {
    if Given(s) then EvalSection(s, vals, m) else Outcome(false, m)
  }

  /** Asked to enter; an absent entry section means "at the first opportunity". */
  function Decide(
      spec: StrategySpec, cross: CrossMaps, history: seq<Snapshot>, current: Snapshot, ctx: Context): Decision
  {
    match spec
    case FunctionStrategy(decide) => Decision(decide(history, current, ctx.resolutionAt), cross)
    case ConditionBased(entry, _, _, alwaysUp, sizeUsd, _, _) =>
      var o := EvalGiven(entry, ValuesAt(spec, history, current, ctx), cross.entry);
      var action := Action(if alwaysUp then BuyYes else BuyNo, sizeUsd);
      Decision(if Given(entry) && !o.truth then None else Some(action), cross.(entry := o.cross))
  }

  /** Asked whether to leave: stop-loss is only looked at when take-profit does not fire. */
  function DecideExit(
      spec: StrategySpec, cross: CrossMaps, history: seq<Snapshot>, current: Snapshot, ctx: Context): ExitDecision
  {
    match spec
    case FunctionStrategy(_) => ExitDecision(false, cross)
    case ConditionBased(_, takeProfit, stopLoss, _, _, _, _) =>
      var vals := ValuesAt(spec, history, current, ctx);
      var tp := EvalGiven(takeProfit, vals, cross.exit);
      if tp.truth then ExitDecision(true, cross.(exit := tp.cross))
      else
        var sl := EvalGiven(stopLoss, vals, tp.cross);
        ExitDecision(sl.truth, cross.(exit := sl.cross))
  }

  function MaxTrades(spec: StrategySpec): int {
    if spec.ConditionBased? then spec.maxTrades else 1
  }

  class Strategy {
    const spec: StrategySpec
    var entryCross: CrossState
    var exitCross: CrossState

    ghost predicate Valid()
      reads this
    {
      entryCross != exitCross
    }

    ghost function Cross(): CrossMaps
      reads this, entryCross, exitCross
    {
      CrossMaps(entryCross.prev, exitCross.prev)
    }

    constructor (spec: StrategySpec)
      ensures Valid() && this.spec == spec && Cross() == EMPTY_CROSS
      ensures fresh(entryCross) && fresh(exitCross)
    {
      this.spec := spec;
      entryCross := new CrossState();
      exitCross := new CrossState();
    }

    /** A new market starts with nothing remembered. */
    method ResetMarketState()
      modifies this
      ensures Valid() && Cross() == EMPTY_CROSS
      ensures fresh(entryCross) && fresh(exitCross)
    {
      entryCross := new CrossState();
      exitCross := new CrossState();
    }

    method Enter(history: seq<Snapshot>, current: Snapshot, ctx: Context) returns (action: Option<Action>)
      requires Valid()
      modifies entryCross
      ensures Valid() && Decision(action, Cross()) == Decide(spec, old(Cross()), history, current, ctx)
    {
      match spec {
        case FunctionStrategy(decide) =>
          action := decide(history, current, ctx.resolutionAt);
        case ConditionBased(entry, _, _, alwaysUp, sizeUsd, _, _) =>
          if Given(entry) {
            var fires := EvaluateSection(entry, ValuesAt(spec, history, current, ctx), entryCross);
            if !fires {
              return None;
            }
          }
          action := Some(Action(if alwaysUp then BuyYes else BuyNo, sizeUsd));
      }
    }

    method OnInPosition(history: seq<Snapshot>, current: Snapshot, ctx: Context) returns (exit: bool)
      requires Valid()
      modifies exitCross
      ensures Valid() && ExitDecision(exit, Cross()) == DecideExit(spec, old(Cross()), history, current, ctx)
    {
      match spec {
        case FunctionStrategy(_) =>
          exit := false;
        case ConditionBased(_, takeProfit, stopLoss, _, _, _, _) =>
          var vals := ValuesAt(spec, history, current, ctx);
          if Given(takeProfit) {
            var profit := EvaluateSection(takeProfit, vals, exitCross);
            if profit {
              return true;
            }
          }
          if Given(stopLoss) {
            var stop := EvaluateSection(stopLoss, vals, exitCross);
            if stop {
              return true;
            }
          }
          exit := false;
      }
    }
  }

  // -------------------------------------------------------- what sections mean

  /** The tree a section stands for; an absent one never fires. */
  function SectionNode(s: Section): Node {
    match s
    case NoSection => Group(And, None, [])
    case FlatList(conditions) => Group(And, None, conditions)
    case Tree(root) => root
  }

  lemma GivenIsTree(s: Section, vals: Values, m: CrossMap)
    ensures EvalGiven(s, vals, m) == Eval(SectionNode(s), vals, m)
  {
  }

  /** Fingerprints are distinct within and across the two sections that share a map. */
  ghost predicate ExitDistinct(spec: StrategySpec)
    requires spec.ConditionBased?
  {
    var tp, sl := SectionNode(spec.takeProfit), SectionNode(spec.stopLoss);
    Distinct(tp) && Distinct(sl) && Keys(Leaves(tp)) !! Keys(Leaves(sl))
  }

  /** An entry happens exactly when the section is absent or holds, in the configured direction. */
  lemma {:induction false} EntryIsSection(
      spec: StrategySpec, cross: CrossMaps, history: seq<Snapshot>, current: Snapshot, ctx: Context)
    requires spec.ConditionBased? && Distinct(SectionNode(spec.entry))
    ensures
      var action := Decide(spec, cross, history, current, ctx).action;
      && (action.Some? <==>
            !Given(spec.entry) || Truth(SectionNode(spec.entry), ValuesAt(spec, history, current, ctx), cross.entry))
      && (action.Some? ==> action.value.sizeUsd == spec.sizeUsd
                           && (action.value.side == BuyYes <==> spec.alwaysUp)
                           && (action.value.side == BuyNo <==> !spec.alwaysUp))
  {
    var vals := ValuesAt(spec, history, current, ctx);
    GivenIsTree(spec.entry, vals, cross.entry);
    EvalRefinesTruth(SectionNode(spec.entry), vals, cross.entry);
  }

  /** No entry section, or an empty list, enters at the first opportunity; anything else has to hold. */
  lemma AbsentEntryAlwaysEnters(
      spec: StrategySpec, cross: CrossMaps, history: seq<Snapshot>, current: Snapshot, ctx: Context)
    requires spec.ConditionBased?
    ensures spec.entry in {NoSection, FlatList([])} ==> Decide(spec, cross, history, current, ctx).action.Some?
    ensures spec.entry !in {NoSection, FlatList([])} ==>
      (Decide(spec, cross, history, current, ctx).action.Some? <==>
         EvalSection(spec.entry, ValuesAt(spec, history, current, ctx), cross.entry).truth)
  {
  }

  /** An exit happens exactly when either section holds against the map at the start of the snapshot. */
  lemma {:induction false} ExitIsEither(
      spec: StrategySpec, cross: CrossMaps, history: seq<Snapshot>, current: Snapshot, ctx: Context)
    requires spec.ConditionBased? && ExitDistinct(spec)
    ensures
      var vals := ValuesAt(spec, history, current, ctx);
      DecideExit(spec, cross, history, current, ctx).exit <==>
        || Truth(SectionNode(spec.takeProfit), vals, cross.exit)
        || Truth(SectionNode(spec.stopLoss), vals, cross.exit)
  {
    var vals := ValuesAt(spec, history, current, ctx);
    var tp, sl := SectionNode(spec.takeProfit), SectionNode(spec.stopLoss);
    GivenIsTree(spec.takeProfit, vals, cross.exit);
    EvalRefinesTruth(tp, vals, cross.exit);
    var after := Eval(tp, vals, cross.exit).cross;
    GivenIsTree(spec.stopLoss, vals, after);
    VisitedWithin(tp, vals, cross.exit);
    KeysMonotone(Visited(tp, vals, cross.exit), Leaves(tp));
    UnrecordedAgree(cross.exit, after, Visited(tp, vals, cross.exit), vals, Keys(Leaves(sl)));
    EvalRefinesTruth(sl, vals, after);
    TruthFrame(sl, vals, cross.exit, after);
  }

  /** Entry decisions do not look at remembered values. */
  ghost predicate NoCrossEntry(spec: StrategySpec) {
    spec.ConditionBased? ==> Keys(Leaves(SectionNode(spec.entry))) == {}
  }

  lemma StatelessWithoutCross(
      spec: StrategySpec, cross: CrossMaps, history: seq<Snapshot>, current: Snapshot, ctx: Context)
    requires NoCrossEntry(spec)
    ensures Decide(spec, cross, history, current, ctx) ==
            Decision(Decide(spec, EMPTY_CROSS, history, current, ctx).action, cross)
  {
    if spec.ConditionBased? {
      var vals, node := ValuesAt(spec, history, current, ctx), SectionNode(spec.entry);
      GivenIsTree(spec.entry, vals, cross.entry);
      GivenIsTree(spec.entry, vals, map[]);
      WithoutCrossLeaves(node, vals, cross.entry);
      WithoutCrossLeaves(node, vals, map[]);
    }
  }
}

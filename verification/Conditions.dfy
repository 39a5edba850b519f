/**
 Condition trees of the Strategy Builder.
 `Eval` says what the evaluator loops compute: left to right, threading the
 cross-detection map, short-circuiting OR but not AND.  `Truth` and `Visited` are the
 pure reading of the same tree; the lemmas connect the two.
 */
module Conditions {
  import opened Types

  datatype Op = Gte | Gt | Lte | Lt | Eq | Neq | CrossesAbove | CrossesBelow | OtherOp(name: string)

  datatype ParamType =
    | TokenPrice
    | Spread
    | TimeToResolution
    | TimeSinceOpen
    | CoinMoveUsd
    | CoinMovePct
    | CoinVolatility
    | TokenVolatility
    | OtherType(name: string)

  /** A primitive condition; `value` is the threshold when `valueText` parses as a number. */
  datatype Leaf = Leaf(
    ctype: ParamType,
    op: Op,
    side: string,
    windowSec: string,
    valueText: string,
    value: Option<real>)

  datatype Join = And | Or

  /** `connectors[i]` joins child i+1 to the result so far; an unknown entry is None. */
  datatype Node =
    | Single(leaf: Leaf)
    | Group(op: Join, connectors: Option<seq<Option<Join>>>, children: seq<Node>)

  datatype Section = NoSection | FlatList(conditions: seq<Node>) | Tree(root: Node)

  /** What each leaf's extractor computes at one snapshot; None when it cannot. */
  type Values = Leaf -> Option<real>

  type CrossMap = map<string, real>

  datatype Outcome = Outcome(truth: bool, cross: CrossMap)

  predicate IsCross(op: Op) { op == CrossesAbove || op == CrossesBelow }

  predicate ValidOp(ctype: ParamType, op: Op) {
    match ctype
    case TokenPrice | CoinMoveUsd | CoinMovePct => !op.OtherOp?
    case OtherType(_) => false
    case _ => op == Gte || op == Gt || op == Lte || op == Lt
  }

  function TypeText(t: ParamType): string {
    match t
    case TokenPrice => "token_price"
    case Spread => "spread"
    case TimeToResolution => "time_to_resolution_s"
    case TimeSinceOpen => "time_since_market_open_s"
    case CoinMoveUsd => "coin_move_since_open_usd"
    case CoinMovePct => "coin_move_since_open_pct"
    case CoinVolatility => "coin_price_volatility"
    case TokenVolatility => "token_price_volatility"
    case OtherType(name) => name
  }

  function OpText(op: Op): string {
    match op
    case Gte => ">="
    case Gt => ">"
    case Lte => "<="
    case Lt => "<"
    case Eq => "=="
    case Neq => "!="
    case CrossesAbove => "crosses_above"
    case CrossesBelow => "crosses_below"
    case OtherOp(name) => name
  }

  /** Fingerprint under which a cross leaf remembers its previous value. */
  function ConditionKey(c: Leaf): string {
    TypeText(c.ctype) + "|" + c.side + "|" + c.windowSec + "|" + OpText(c.op) + "|" + c.valueText
  }

  function ApplyBasicOp(lhs: real, op: Op, rhs: real): bool {
    match op
    case Gte => lhs >= rhs
    case Gt => lhs > rhs
    case Lte => lhs <= rhs
    case Lt => lhs < rhs
    case Eq => lhs == rhs
    case Neq => lhs != rhs
    case _ => false
  }

  /** A leaf that reads and writes the cross-detection map when its value is computable. */
  predicate Remembers(c: Leaf) {
    ValidOp(c.ctype, c.op) && IsCross(c.op) && c.value.Some?
  }

  predicate Crossed(op: Op, prev: real, threshold: real, lhs: real) {
    match op
    case CrossesAbove => prev < threshold <= lhs
    case CrossesBelow => prev > threshold >= lhs
    case _ => false
  }

  function EvalLeaf(c: Leaf, vals: Values, m: CrossMap): Outcome {
    if !ValidOp(c.ctype, c.op) || c.value.None? || vals(c).None? then Outcome(false, m)
    else
      var lhs, rhs, key := vals(c).value, c.value.value, ConditionKey(c);
      if !IsCross(c.op) then Outcome(ApplyBasicOp(lhs, c.op, rhs), m)
      else Outcome(key in m && Crossed(c.op, m[key], rhs, lhs), m[key := lhs])
  }

  function JoinAt(g: Node, i: nat): Join
    requires g.Group?
  {
    if g.connectors.Some? && i < |g.connectors.value| && g.connectors.value[i].Some?
    then g.connectors.value[i].value
    else g.op
  }

  function Connect(j: Join, a: bool, b: bool): bool {
    if j.And? then a && b else a || b
  }

  function Eval(node: Node, vals: Values, m: CrossMap): Outcome
    decreases node, 1, 0
  {
    match node
    case Single(c) => EvalLeaf(c, vals, m)
    case Group(_, _, children) =>
      if children == [] then Outcome(false, m) else EvalFirst(node, |children|, vals, m)
  }

  /** State of the group loop once the first k children have been dealt with. */
  function EvalFirst(g: Node, k: nat, vals: Values, m: CrossMap): Outcome
    requires g.Group? && 1 <= k <= |g.children|
    decreases g, 0, k
  {
    if k == 1 then Eval(g.children[0], vals, m)
    else
      var acc, join, child := EvalFirst(g, k - 1, vals, m), JoinAt(g, k - 2), g.children[k - 1];
      if join.Or? && acc.truth then acc
      else
        var o := Eval(child, vals, acc.cross);
        Outcome(Connect(join, acc.truth, o.truth), o.cross)
  }

  function EvalSection(s: Section, vals: Values, m: CrossMap): Outcome {
    match s
    case NoSection => Outcome(false, m)
    case FlatList(conditions) =>
      if conditions == [] then Outcome(false, m) else Eval(Group(And, None, conditions), vals, m)
    case Tree(root) => Eval(root, vals, m)
  }

  // ------------------------------------------------------------- the loops

  /** The dict a strategy passes down for the evaluator to update in place. */
  class CrossState {
    var prev: CrossMap

    constructor ()
      ensures prev == map[]
    {
      prev := map[];
    }
  }

  method EvaluateOne(c: Leaf, vals: Values, cross: CrossState) returns (r: bool)
    modifies cross
    ensures Outcome(r, cross.prev) == EvalLeaf(c, vals, old(cross.prev))
  {
    if !ValidOp(c.ctype, c.op) || c.value.None? {
      return false;
    }
    var lhs := vals(c);
    if lhs.None? {
      return false;
    }
    if !IsCross(c.op) {
      return ApplyBasicOp(lhs.value, c.op, c.value.value);
    }
    var key := ConditionKey(c);
    var before := if key in cross.prev then Some(cross.prev[key]) else None;
    cross.prev := cross.prev[key := lhs.value];
    if before.None? {
      return false;
    }
    return Crossed(c.op, before.value, c.value.value, lhs.value);
  }

  method EvaluateNode(node: Node, vals: Values, cross: CrossState) returns (r: bool)
    modifies cross
    ensures Outcome(r, cross.prev) == Eval(node, vals, old(cross.prev))
    decreases node
  {
    if node.Single? {
      r := EvaluateOne(node.leaf, vals, cross);
      return;
    }
    if node.children == [] {
      return false;
    }
    r := EvaluateNode(node.children[0], vals, cross);
    for i := 1 to |node.children|
      invariant Outcome(r, cross.prev) == EvalFirst(node, i, vals, old(cross.prev))
    {
      var join := JoinAt(node, i - 1);
      if join == And && !r {
        // The child is still walked so that its cross state stays in step.
        var ignored := EvaluateNode(node.children[i], vals, cross);
        continue;
      }
      if join == Or && r {
        continue;
      }
      var childValue := EvaluateNode(node.children[i], vals, cross);
      if join == And {
        r := r && childValue;
      } else {
        r := r || childValue;
      }
    }
  }

  method EvaluateSection(s: Section, vals: Values, cross: CrossState) returns (r: bool)
    modifies cross
    ensures Outcome(r, cross.prev) == EvalSection(s, vals, old(cross.prev))
  {
    match s {
      case NoSection =>
        return false;
      case FlatList(conditions) =>
        if conditions == [] {
          return false;
        }
        r := EvaluateNode(Group(And, None, conditions), vals, cross);
      case Tree(root) =>
        r := EvaluateNode(root, vals, cross);
    }
  }

  // -------------------------------------------------------- pure semantics

  function LeafTruth(c: Leaf, vals: Values, m: CrossMap): bool {
    EvalLeaf(c, vals, m).truth
  }

  /** The left-associated fold of leaf truths, all read against the same map. */
  function Truth(node: Node, vals: Values, m: CrossMap): bool
    decreases node, 1, 0
  {
    match node
    case Single(c) => LeafTruth(c, vals, m)
    case Group(_, _, children) => children != [] && TruthFirst(node, |children|, vals, m)
  }

  function TruthFirst(g: Node, k: nat, vals: Values, m: CrossMap): bool
    requires g.Group? && 1 <= k <= |g.children|
    decreases g, 0, k
  {
    if k == 1 then Truth(g.children[0], vals, m)
    else Connect(JoinAt(g, k - 2), TruthFirst(g, k - 1, vals, m), Truth(g.children[k - 1], vals, m))
  }

  /** The leaves reached: only an OR that already holds skips its next operand. */
  ghost function Visited(node: Node, vals: Values, m: CrossMap): set<Leaf>
    decreases node, 1, 0
  {
    match node
    case Single(c) => {c}
    case Group(_, _, children) => if children == [] then {} else VisitedFirst(node, |children|, vals, m)
  }

  ghost function VisitedFirst(g: Node, k: nat, vals: Values, m: CrossMap): set<Leaf>
    requires g.Group? && 1 <= k <= |g.children|
    decreases g, 0, k
  {
    if k == 1 then Visited(g.children[0], vals, m)
    else if JoinAt(g, k - 2).Or? && TruthFirst(g, k - 1, vals, m) then VisitedFirst(g, k - 1, vals, m)
    else VisitedFirst(g, k - 1, vals, m) + Visited(g.children[k - 1], vals, m)
  }

  ghost function Leaves(node: Node): set<Leaf>
    decreases node, 1, 0
  {
    match node
    case Single(c) => {c}
    case Group(_, _, children) => if children == [] then {} else LeavesFirst(node, |children|)
  }

  ghost function LeavesFirst(g: Node, k: nat): set<Leaf>
    requires g.Group? && 1 <= k <= |g.children|
    decreases g, 0, k
  {
    if k == 1 then Leaves(g.children[0]) else LeavesFirst(g, k - 1) + Leaves(g.children[k - 1])
  }

  /** Fingerprints the given leaves can write. */
  ghost function Keys(leaves: set<Leaf>): set<string> {
    set c | c in leaves && Remembers(c) :: ConditionKey(c)
  }

  /** No two cross leaves of the tree share a fingerprint. */
  ghost predicate Distinct(node: Node)
    decreases node, 1, 0
  {
    match node
    case Single(_) => true
    case Group(_, _, children) => children == [] || DistinctFirst(node, |children|)
  }

  ghost predicate DistinctFirst(g: Node, k: nat)
    requires g.Group? && 1 <= k <= |g.children|
    decreases g, 0, k
  {
    if k == 1 then Distinct(g.children[0])
    else
      && DistinctFirst(g, k - 1)
      && Distinct(g.children[k - 1])
      && Keys(LeavesFirst(g, k - 1)) !! Keys(Leaves(g.children[k - 1]))
  }

  ghost predicate Agree(m: CrossMap, n: CrossMap, keys: set<string>) {
    forall k :: k in keys ==> (k in m <==> k in n) && (k in m ==> m[k] == n[k])
  }

  /** `after` is `before` with exactly the computable cross leaves of `visited` recorded. */
  ghost predicate Recorded(before: CrossMap, after: CrossMap, visited: set<Leaf>, vals: Values) {
    && (forall c :: c in visited && Remembers(c) && vals(c).Some? ==>
          ConditionKey(c) in after && after[ConditionKey(c)] == vals(c).value)
    && (forall k :: (forall c :: c in visited && Remembers(c) && vals(c).Some? ==> ConditionKey(c) != k) ==>
          (k in before <==> k in after) && (k in before ==> before[k] == after[k]))
  }

  lemma {:induction false} VisitedWithin(node: Node, vals: Values, m: CrossMap)
    ensures Visited(node, vals, m) <= Leaves(node)
    decreases node, 1, 0
  {
    if node.Group? && node.children != [] {
      VisitedFirstWithin(node, |node.children|, vals, m);
    }
  }

  lemma {:induction false} VisitedFirstWithin(g: Node, k: nat, vals: Values, m: CrossMap)
    requires g.Group? && 1 <= k <= |g.children|
    ensures VisitedFirst(g, k, vals, m) <= LeavesFirst(g, k)
    decreases g, 0, k
  {
    VisitedWithin(g.children[k - 1], vals, m);
    if k > 1 {
      VisitedFirstWithin(g, k - 1, vals, m);
    }
  }

  /** Only the tree's own fingerprints matter to its reading. */
  lemma {:induction false} TruthFrame(node: Node, vals: Values, m: CrossMap, n: CrossMap)
    requires Agree(m, n, Keys(Leaves(node)))
    ensures Truth(node, vals, m) == Truth(node, vals, n)
    ensures Visited(node, vals, m) == Visited(node, vals, n)
    decreases node, 1, 0
  {
    match node
    case Single(c) =>
      if Remembers(c) {
        assert ConditionKey(c) in Keys({c});
      }
    case Group(_, _, children) =>
      if children != [] {
        TruthFirstFrame(node, |children|, vals, m, n);
      }
  }

  lemma {:induction false} TruthFirstFrame(g: Node, k: nat, vals: Values, m: CrossMap, n: CrossMap)
    requires g.Group? && 1 <= k <= |g.children|
    requires Agree(m, n, Keys(LeavesFirst(g, k)))
    ensures TruthFirst(g, k, vals, m) == TruthFirst(g, k, vals, n)
    ensures VisitedFirst(g, k, vals, m) == VisitedFirst(g, k, vals, n)
    decreases g, 0, k
  {
    assert Keys(Leaves(g.children[k - 1])) <= Keys(LeavesFirst(g, k));
    TruthFrame(g.children[k - 1], vals, m, n);
    if k > 1 {
      assert Keys(LeavesFirst(g, k - 1)) <= Keys(LeavesFirst(g, k));
      TruthFirstFrame(g, k - 1, vals, m, n);
    }
  }

  /**
   The threaded, short-circuiting evaluator means its pure reading: leaf truths against
   the map at the start, and exactly the visited computable cross leaves recorded.
   */
  lemma {:induction false} EvalRefinesTruth(node: Node, vals: Values, m: CrossMap)
    requires Distinct(node)
    ensures Eval(node, vals, m).truth == Truth(node, vals, m)
    ensures Recorded(m, Eval(node, vals, m).cross, Visited(node, vals, m), vals)
    decreases node, 1, 0
  {
    if node.Group? && node.children != [] {
      EvalFirstRefinesTruth(node, |node.children|, vals, m);
    }
  }

  lemma {:induction false} EvalFirstRefinesTruth(g: Node, k: nat, vals: Values, m: CrossMap)
    requires g.Group? && 1 <= k <= |g.children| && DistinctFirst(g, k)
    ensures EvalFirst(g, k, vals, m).truth == TruthFirst(g, k, vals, m)
    ensures Recorded(m, EvalFirst(g, k, vals, m).cross, VisitedFirst(g, k, vals, m), vals)
    decreases g, 0, k
  {
    if k == 1 {
      EvalRefinesTruth(g.children[0], vals, m);
    } else {
      EvalFirstRefinesTruth(g, k - 1, vals, m);
      if !(JoinAt(g, k - 2).Or? && EvalFirst(g, k - 1, vals, m).truth) {
        VisitedFirstWithin(g, k - 1, vals, m);
        ChildRefinesTruth(g.children[k - 1], vals, m, EvalFirst(g, k - 1, vals, m).cross,
                          VisitedFirst(g, k - 1, vals, m), LeavesFirst(g, k - 1));
      }
    }
  }

  /** The step for a child evaluated after the leaves `first` (among `left`) were recorded. */
  lemma {:induction false} ChildRefinesTruth(
      child: Node, vals: Values, m: CrossMap, acc: CrossMap, first: set<Leaf>, left: set<Leaf>)
    requires Distinct(child) && first <= left && Keys(left) !! Keys(Leaves(child))
    requires Recorded(m, acc, first, vals)
    ensures Eval(child, vals, acc).truth == Truth(child, vals, m)
    ensures Recorded(m, Eval(child, vals, acc).cross, first + Visited(child, vals, m), vals)
    decreases child, 1, 1
  {
    KeysMonotone(first, left);
    UnrecordedAgree(m, acc, first, vals, Keys(Leaves(child)));
    TruthFrame(child, vals, m, acc);
    EvalRefinesTruth(child, vals, acc);
    VisitedWithin(child, vals, m);
    KeysMonotone(Visited(child, vals, m), Leaves(child));
    RecordedTwice(m, acc, Eval(child, vals, acc).cross, first, Visited(child, vals, m), vals);
  }

  lemma KeysMonotone(a: set<Leaf>, b: set<Leaf>)
    requires a <= b
    ensures Keys(a) <= Keys(b)
  {
  }

  lemma UnrecordedAgree(m: CrossMap, after: CrossMap, first: set<Leaf>, vals: Values, keys: set<string>)
    requires Recorded(m, after, first, vals) && Keys(first) !! keys
    ensures Agree(m, after, keys)
  {
  }

  lemma RecordedTwice(a: CrossMap, b: CrossMap, c: CrossMap, first: set<Leaf>, second: set<Leaf>, vals: Values)
    requires Recorded(a, b, first, vals) && Recorded(b, c, second, vals)
    requires Keys(first) !! Keys(second)
    ensures Recorded(a, c, first + second, vals)
  {
    forall x | x in first && Remembers(x) && vals(x).Some?
      ensures ConditionKey(x) in c && c[ConditionKey(x)] == vals(x).value
    {
      assert ConditionKey(x) in Keys(first);
    }
    forall k | (forall x :: x in first + second && Remembers(x) && vals(x).Some? ==> ConditionKey(x) != k)
      ensures (k in a <==> k in c) && (k in a ==> a[k] == c[k])
    {
      assert forall x :: x in first && Remembers(x) && vals(x).Some? ==> ConditionKey(x) != k;
      assert forall x :: x in second && Remembers(x) && vals(x).Some? ==> ConditionKey(x) != k;
    }
  }

  /** A tree without cross leaves neither reads nor writes the map. */
  lemma {:induction false} WithoutCrossLeaves(node: Node, vals: Values, m: CrossMap)
    requires Keys(Leaves(node)) == {}
    ensures Eval(node, vals, m) == Outcome(Truth(node, vals, map[]), m)
  {
    NoKeysDistinct(node);
    EvalRefinesTruth(node, vals, m);
    TruthFrame(node, vals, m, map[]);
    VisitedWithin(node, vals, m);
    var after := Eval(node, vals, m).cross;
    forall c | c in Visited(node, vals, m) ensures !Remembers(c) {
      assert Remembers(c) ==> ConditionKey(c) in Keys(Leaves(node));
    }
    assert after == m;
  }

  lemma {:induction false} NoKeysDistinct(node: Node)
    requires Keys(Leaves(node)) == {}
    ensures Distinct(node)
    decreases node, 1, 0
  {
    if node.Group? && node.children != [] {
      NoKeysDistinctFirst(node, |node.children|);
    }
  }

  lemma {:induction false} NoKeysDistinctFirst(g: Node, k: nat)
    requires g.Group? && 1 <= k <= |g.children| && Keys(LeavesFirst(g, k)) == {}
    ensures DistinctFirst(g, k)
    decreases g, 0, k
  {
    assert Keys(Leaves(g.children[k - 1])) <= Keys(LeavesFirst(g, k));
    NoKeysDistinct(g.children[k - 1]);
    if k > 1 {
      assert Keys(LeavesFirst(g, k - 1)) <= Keys(LeavesFirst(g, k));
      NoKeysDistinctFirst(g, k - 1);
    }
  }

  function AndPair(c: Leaf, d: Leaf): Node { Group(And, None, [Single(c), Single(d)]) }

  /** Threaded and pure evaluation of a pair of cross leaves, written out. */
  lemma AndPairUnfolds(c: Leaf, d: Leaf, vals: Values, m: CrossMap)
    ensures Eval(AndPair(c, d), vals, m).truth ==
            (LeafTruth(c, vals, m) && LeafTruth(d, vals, EvalLeaf(c, vals, m).cross))
    ensures Truth(AndPair(c, d), vals, m) == (LeafTruth(c, vals, m) && LeafTruth(d, vals, m))
  {
    var g := AndPair(c, d);
    assert EvalFirst(g, 1, vals, m) == EvalLeaf(c, vals, m);
    assert Eval(g.children[1], vals, EvalLeaf(c, vals, m).cross) == EvalLeaf(d, vals, EvalLeaf(c, vals, m).cross);
    assert TruthFirst(g, 1, vals, m) == LeafTruth(c, vals, m);
    assert Truth(g.children[1], vals, m) == LeafTruth(d, vals, m);
  }

  /** Two numbers and a start from which sharing one memory gives the pair away. */
  lemma SharedMemoryShows(c: Leaf, d: Leaf) returns (vals: Values, m: CrossMap)
    requires Remembers(c) && Remembers(d) && ConditionKey(c) == ConditionKey(d)
    ensures Eval(AndPair(c, d), vals, m).truth != Truth(AndPair(c, d), vals, m)
  {
    var vc, vd := c.value.value, d.value.value;
    var prev, x, y;
    if c.op == d.op == CrossesAbove {
      prev, x, y := Min(vc, vd) - 1.0, Max(vc, vd), Max(vc, vd);
    } else if c.op == d.op {
      prev, x, y := Max(vc, vd) + 1.0, Min(vc, vd), Min(vc, vd);
    } else if c.op == CrossesAbove {
      prev, x, y := Min(vd, vc - 1.0), Max(vc, vd + 1.0), vd;
    } else {
      prev, x, y := Max(vd, vc + 1.0), Min(vc, vd - 1.0), vd;
    }
    vals := leaf => if leaf == c then Some(x) else Some(y);
    m := map[ConditionKey(c) := prev];
    AndPairUnfolds(c, d, vals, m);
  }

  /** An AND of two cross leaves means its pure reading, always, exactly when their fingerprints differ. */
  lemma {:induction false} AndPairIffDistinct(c: Leaf, d: Leaf)
    requires Remembers(c) && Remembers(d)
    ensures (forall vals: Values, m: CrossMap :: Eval(AndPair(c, d), vals, m).truth == Truth(AndPair(c, d), vals, m))
       <==> ConditionKey(c) != ConditionKey(d)
  {
    if ConditionKey(c) == ConditionKey(d) {
      var vals, m := SharedMemoryShows(c, d);
    } else {
      DistinctPair(c, d);
      forall vals: Values, m: CrossMap ensures Eval(AndPair(c, d), vals, m).truth == Truth(AndPair(c, d), vals, m) {
        EvalRefinesTruth(AndPair(c, d), vals, m);
      }
    }
  }

  lemma DistinctPair(c: Leaf, d: Leaf)
    requires ConditionKey(c) != ConditionKey(d)
    ensures Distinct(AndPair(c, d))
  {
    var g := AndPair(c, d);
    assert g.children[0] == Single(c) && g.children[1] == Single(d);
    assert LeavesFirst(g, 1) == Leaves(g.children[0]) == {c};
    assert Leaves(g.children[1]) == {d};
    KeyOfOne(c);
    KeyOfOne(d);
    assert DistinctFirst(g, 1);
    assert DistinctFirst(g, 2);
  }

  lemma KeyOfOne(c: Leaf)
    ensures forall k :: k in Keys({c}) ==> k == ConditionKey(c)
  {
  }

  /**
   Fingerprints are not per condition: joining a cross leaf with a copy of itself by AND
   gives a group that never fires, whatever the market does.
   */
  lemma DuplicateCrossNeverFires(c: Leaf, vals: Values, m: CrossMap)
    requires Remembers(c)
    ensures !Eval(AndPair(c, c), vals, m).truth
  {
    AndPairUnfolds(c, c, vals, m);
  }

  // --------------------------------------------------------------- nesting

  /** The first k children become a nested group; every join is written out. */
  function Nested(g: Node, k: nat): Node
    requires g.Group? && 1 <= k <= |g.children|
  {
    Group(g.op, Some(seq(k - 1, i requires 0 <= i => Some(JoinAt(g, i)))), g.children[..k])
  }

  function FoldedAt(g: Node, k: nat): Node
    requires g.Group? && 1 <= k <= |g.children|
  {
    Group(g.op, Some(seq(|g.children| - k, i requires 0 <= i => Some(JoinAt(g, k - 1 + i)))),
          [Nested(g, k)] + g.children[k..])
  }

  /** Bracketing the first k children changes neither the result nor the final map. */
  lemma {:induction false} NestingPrefixChangesNothing(g: Node, k: nat, vals: Values, m: CrossMap)
    requires g.Group? && 1 <= k <= |g.children|
    ensures Eval(FoldedAt(g, k), vals, m) == Eval(g, vals, m)
  {
    NestedPrefix(g, k, k, vals, m);
    FoldedRest(g, k, |g.children| - k + 1, vals, m);
  }

  lemma {:induction false} NestedPrefix(g: Node, k: nat, i: nat, vals: Values, m: CrossMap)
    requires g.Group? && 1 <= i <= k <= |g.children|
    ensures EvalFirst(Nested(g, k), i, vals, m) == EvalFirst(g, i, vals, m)
  {
    if i > 1 {
      NestedPrefix(g, k, i - 1, vals, m);
      assert JoinAt(Nested(g, k), i - 2) == JoinAt(g, i - 2);
    }
  }

  lemma {:induction false} FoldedRest(g: Node, k: nat, j: nat, vals: Values, m: CrossMap)
    requires g.Group? && 1 <= k <= |g.children| && 1 <= j <= |g.children| - k + 1
    ensures EvalFirst(FoldedAt(g, k), j, vals, m) == EvalFirst(g, k + j - 1, vals, m)
  {
    var f := FoldedAt(g, k);
    if j == 1 {
      assert f.children[0] == Nested(g, k);
      NestedPrefix(g, k, k, vals, m);
    } else {
      FoldedRest(g, k, j - 1, vals, m);
      assert f.children[j - 1] == g.children[k + j - 2];
      assert JoinAt(f, j - 2) == JoinAt(g, k + j - 3);
    }
  }

  // ------------------------------------------------------------ whole runs

  /** The cross map after evaluating a tree once per snapshot, starting empty. */
  function CrossAfter(node: Node, run: seq<Values>): CrossMap {
    if run == [] then map[]
    else Eval(node, run[|run| - 1], CrossAfter(node, run[..|run| - 1])).cross
  }

  function Lookup(m: CrossMap, k: string): Option<real> {
    if k in m then Some(m[k]) else None
  }

  /** The leaf is reached at snapshot t of the run. */
  ghost predicate VisitedAt(node: Node, c: Leaf, run: seq<Values>, t: nat)
    requires t < |run|
  {
    c in Visited(node, run[t], CrossAfter(node, run[..t]))
  }

  /** The leaf fires at snapshot t of the run. */
  ghost predicate FiresAt(node: Node, c: Leaf, run: seq<Values>, t: nat)
    requires t < |run|
  {
    VisitedAt(node, c, run, t) && LeafTruth(c, run[t], CrossAfter(node, run[..t]))
  }

  /** The value the leaf had when it was last reached with a computable value. */
  ghost function LastVisitedValue(node: Node, c: Leaf, run: seq<Values>): Option<real> {
    if run == [] then None
    else
      var t := |run| - 1;
      if VisitedAt(node, c, run, t) && run[t](c).Some? then run[t](c)
      else LastVisitedValue(node, c, run[..t])
  }

  /** The leaf's most recent computable value. */
  function LastComputable(c: Leaf, run: seq<Values>): Option<real> {
    if run == [] then None
    else if run[|run| - 1](c).Some? then run[|run| - 1](c)
    else LastComputable(c, run[..|run| - 1])
  }

  lemma {:induction false} SameKeySameLeaf(node: Node, c: Leaf, d: Leaf)
    requires Distinct(node) && c in Leaves(node) && d in Leaves(node)
    requires Remembers(c) && Remembers(d) && ConditionKey(c) == ConditionKey(d)
    ensures c == d
    decreases node, 1, 0
  {
    if node.Group? && node.children != [] {
      SameKeySameLeafFirst(node, |node.children|, c, d);
    }
  }

  lemma {:induction false} SameKeySameLeafFirst(g: Node, k: nat, c: Leaf, d: Leaf)
    requires g.Group? && 1 <= k <= |g.children| && DistinctFirst(g, k)
    requires c in LeavesFirst(g, k) && d in LeavesFirst(g, k)
    requires Remembers(c) && Remembers(d) && ConditionKey(c) == ConditionKey(d)
    ensures c == d
    decreases g, 0, k
  {
    var last := g.children[k - 1];
    if c in Leaves(last) && d in Leaves(last) {
      SameKeySameLeaf(last, c, d);
    } else {
      assert c in Leaves(last) ==> ConditionKey(c) in Keys(Leaves(last));
      assert d in Leaves(last) ==> ConditionKey(d) in Keys(Leaves(last));
      if k > 1 {
        assert c in LeavesFirst(g, k - 1) ==> ConditionKey(c) in Keys(LeavesFirst(g, k - 1));
        assert d in LeavesFirst(g, k - 1) ==> ConditionKey(d) in Keys(LeavesFirst(g, k - 1));
        SameKeySameLeafFirst(g, k - 1, c, d);
      }
    }
  }

  /** In any tree, a cross leaf is compared with its last visited value. */
  lemma {:induction false} ReferenceIsLastVisit(node: Node, c: Leaf, run: seq<Values>)
    requires Distinct(node) && c in Leaves(node) && Remembers(c)
    ensures Lookup(CrossAfter(node, run), ConditionKey(c)) == LastVisitedValue(node, c, run)
  {
    if run != [] {
      var t := |run| - 1;
      var before := CrossAfter(node, run[..t]);
      ReferenceIsLastVisit(node, c, run[..t]);
      EvalRefinesTruth(node, run[t], before);
      VisitedWithin(node, run[t], before);
      if !(VisitedAt(node, c, run, t) && run[t](c).Some?) {
        forall d | d in Visited(node, run[t], before) && Remembers(d) && run[t](d).Some?
          ensures ConditionKey(d) != ConditionKey(c)
        {
          if ConditionKey(d) == ConditionKey(c) {
            SameKeySameLeaf(node, c, d);
          }
        }
      }
    }
  }

  /** The snapshot that set the reference. */
  lemma {:induction false} LastVisitWitness(node: Node, c: Leaf, run: seq<Values>) returns (s: nat)
    requires LastVisitedValue(node, c, run).Some?
    ensures s < |run| && VisitedAt(node, c, run, s) && run[s](c) == LastVisitedValue(node, c, run)
    ensures forall t :: s < t < |run| ==> !(VisitedAt(node, c, run, t) && run[t](c).Some?)
  {
    var last := |run| - 1;
    if VisitedAt(node, c, run, last) && run[last](c).Some? {
      s := last;
    } else {
      s := LastVisitWitness(node, c, run[..last]);
      assert run[..last][..s] == run[..s];
      forall t | s < t < |run| ensures !(VisitedAt(node, c, run, t) && run[t](c).Some?) {
        if t < last {
          assert run[..last][..t] == run[..t];
          assert !(VisitedAt(node, c, run[..last], t) && run[..last][t](c).Some?);
        }
      }
    }
  }

  /** Strictly on the side of the threshold that a crossing comes from. */
  predicate Before(c: Leaf, x: real)
    requires Remembers(c)
  {
    if c.op == CrossesAbove then x < c.value.value else x > c.value.value
  }

  /** Between two firings of a cross leaf it was visited strictly before its threshold. */
  lemma {:induction false} FiringsAreSeparated(node: Node, c: Leaf, run: seq<Values>, t1: nat, t2: nat)
    requires Distinct(node) && c in Leaves(node) && Remembers(c)
    requires t1 < t2 < |run| && FiresAt(node, c, run, t1) && FiresAt(node, c, run, t2)
    ensures exists s :: t1 < s < t2 && VisitedAt(node, c, run, s) && run[s](c).Some? && Before(c, run[s](c).value)
  {
    var upTo := run[..t2];
    ReferenceIsLastVisit(node, c, upTo);
    var s := LastVisitWitness(node, c, upTo);
    assert upTo[..s] == run[..s] && upTo[..t1] == run[..t1];
    assert VisitedAt(node, c, upTo, t1) && upTo[t1](c).Some?;
    assert t1 < s;
    assert VisitedAt(node, c, run, s);
  }

  ghost predicate AndOnly(node: Node)
    decreases node, 1, 0
  {
    match node
    case Single(_) => true
    case Group(_, _, children) => children == [] || AndOnlyFirst(node, |children|)
  }

  ghost predicate AndOnlyFirst(g: Node, k: nat)
    requires g.Group? && 1 <= k <= |g.children|
    decreases g, 0, k
  {
    && AndOnly(g.children[k - 1])
    && (k > 1 ==> JoinAt(g, k - 2).And? && AndOnlyFirst(g, k - 1))
  }

  /** An empty group can never hold, so a tree with one joined by AND never fires. */
  ghost predicate NoEmptyGroup(node: Node)
    decreases node, 1, 0
  {
    match node
    case Single(_) => true
    case Group(_, _, children) => children != [] && NoEmptyGroupFirst(node, |children|)
  }

  ghost predicate NoEmptyGroupFirst(g: Node, k: nat)
    requires g.Group? && 1 <= k <= |g.children|
    decreases g, 0, k
  {
    NoEmptyGroup(g.children[k - 1]) && (k > 1 ==> NoEmptyGroupFirst(g, k - 1))
  }

  /** An AND-only tree visits every leaf, false siblings or not, and holds when all of them do. */
  lemma {:induction false} AndOnlyVisitsAll(node: Node, vals: Values, m: CrossMap)
    requires AndOnly(node)
    ensures Visited(node, vals, m) == Leaves(node)
    ensures Truth(node, vals, m) <==> NoEmptyGroup(node) && forall c :: c in Leaves(node) ==> LeafTruth(c, vals, m)
    decreases node, 1, 0
  {
    if node.Group? && node.children != [] {
      AndOnlyFirstVisitsAll(node, |node.children|, vals, m);
    }
  }

  lemma {:induction false} AndOnlyFirstVisitsAll(g: Node, k: nat, vals: Values, m: CrossMap)
    requires g.Group? && 1 <= k <= |g.children| && AndOnlyFirst(g, k)
    ensures VisitedFirst(g, k, vals, m) == LeavesFirst(g, k)
    ensures TruthFirst(g, k, vals, m) <==>
      NoEmptyGroupFirst(g, k) && forall c :: c in LeavesFirst(g, k) ==> LeafTruth(c, vals, m)
    decreases g, 0, k
  {
    AndOnlyVisitsAll(g.children[k - 1], vals, m);
    if k > 1 {
      AndOnlyFirstVisitsAll(g, k - 1, vals, m);
    }
  }

  lemma {:induction false} AndOnlyRemembersAll(node: Node, c: Leaf, run: seq<Values>)
    requires AndOnly(node) && c in Leaves(node)
    ensures LastVisitedValue(node, c, run) == LastComputable(c, run)
  {
    if run != [] {
      var t := |run| - 1;
      AndOnlyVisitsAll(node, run[t], CrossAfter(node, run[..t]));
      AndOnlyRemembersAll(node, c, run[..t]);
    }
  }

  /**
   Over a whole run of an AND-only section: the section fires exactly when it has no
   empty group and every leaf holds, and a crosses_above leaf holds exactly when its most recent earlier
   computable value was below the threshold and the current one is at or above it.
   */
  lemma {:induction false} AndOnlyRun(node: Node, run: seq<Values>, now: Values)
    requires AndOnly(node) && Distinct(node)
    ensures
      var m := CrossAfter(node, run);
      && (Eval(node, now, m).truth <==>
            NoEmptyGroup(node) && forall c :: c in Leaves(node) ==> LeafTruth(c, now, m))
      && (forall c :: c in Leaves(node) && Remembers(c) && c.op == CrossesAbove ==>
            (LeafTruth(c, now, m) <==>
              && now(c).Some?
              && LastComputable(c, run).Some?
              && LastComputable(c, run).value < c.value.value <= now(c).value))
      && (forall c :: c in Leaves(node) && Remembers(c) && c.op == CrossesBelow ==>
            (LeafTruth(c, now, m) <==>
              && now(c).Some?
              && LastComputable(c, run).Some?
              && LastComputable(c, run).value > c.value.value >= now(c).value))
  {
    var m := CrossAfter(node, run);
    EvalRefinesTruth(node, now, m);
    AndOnlyVisitsAll(node, now, m);
    forall c | c in Leaves(node) && Remembers(c)
      ensures Lookup(m, ConditionKey(c)) == LastComputable(c, run)
    {
      ReferenceIsLastVisit(node, c, run);
      AndOnlyRemembersAll(node, c, run);
    }
  }
}

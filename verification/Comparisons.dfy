/**
 What one condition and one join mean by themselves: which operators a type admits, how
 comparisons follow the value, which conditions share a fingerprint, and how connectors
 combine a group from left to right.
 */
module Comparisons {
  import opened Types
  import opened Conditions

  /** A section of one condition, under the given operator. */
  function OneLeaf(c: Leaf, op: Op): Section { FlatList([Single(c.(op := op))]) }

  predicate Fires(c: Leaf, op: Op, vals: Values, m: CrossMap) { EvalSection(OneLeaf(c, op), vals, m).truth }

  lemma OneLeafUnfolds(c: Leaf, op: Op, vals: Values, m: CrossMap)
    ensures EvalSection(OneLeaf(c, op), vals, m) == EvalLeaf(c.(op := op), vals, m)
  {
    var leaf := c.(op := op);
    var g := Group(And, None, [Single(leaf)]);
    assert Eval(Single(leaf), vals, m) == EvalLeaf(leaf, vals, m);
    assert EvalFirst(g, 1, vals, m) == Eval(g.children[0], vals, m);
  }

  /** Extractors look at the type, the side and the window of a condition, not at its operator. */
  ghost predicate Reads(vals: Values, c: Leaf, x: real) { forall op :: vals(c.(op := op)) == Some(x) }

  /** Known types, all of which admit the order comparisons. */
  predicate Ordered(t: ParamType) { !t.OtherType? }

  /** Types that admit equality and crossings as well. */
  predicate Exact(t: ParamType) { t == TokenPrice || t == CoinMoveUsd || t == CoinMovePct }

  // ---------------------------------------------------------- comparisons

  /** Below, at and above the threshold: which comparisons fire. */
  lemma {:induction false} ComparisonTable(c: Leaf, vals: Values, x: real, m: CrossMap)
    requires Ordered(c.ctype) && c.value.Some? && Reads(vals, c, x)
    ensures x < c.value.value ==>
      && Fires(c, Lt, vals, m) && Fires(c, Lte, vals, m)
      && !Fires(c, Gt, vals, m) && !Fires(c, Gte, vals, m)
      && !Fires(c, Eq, vals, m) && (Fires(c, Neq, vals, m) <==> Exact(c.ctype))
    ensures x == c.value.value ==>
      && !Fires(c, Lt, vals, m) && Fires(c, Lte, vals, m)
      && !Fires(c, Gt, vals, m) && Fires(c, Gte, vals, m)
      && (Fires(c, Eq, vals, m) <==> Exact(c.ctype)) && !Fires(c, Neq, vals, m)
    ensures x > c.value.value ==>
      && !Fires(c, Lt, vals, m) && !Fires(c, Lte, vals, m)
      && Fires(c, Gt, vals, m) && Fires(c, Gte, vals, m)
      && !Fires(c, Eq, vals, m) && (Fires(c, Neq, vals, m) <==> Exact(c.ctype))
  {
    OneLeafUnfolds(c, Lt, vals, m);
    OneLeafUnfolds(c, Lte, vals, m);
    OneLeafUnfolds(c, Gt, vals, m);
    OneLeafUnfolds(c, Gte, vals, m);
    OneLeafUnfolds(c, Eq, vals, m);
    OneLeafUnfolds(c, Neq, vals, m);
  }

  /** Each comparison has its negation, and a value is below, at or above the threshold, never two of them. */
  lemma {:induction false} ComparisonsPartition(c: Leaf, vals: Values, x: real, m: CrossMap)
    requires Ordered(c.ctype) && c.value.Some? && Reads(vals, c, x)
    ensures Fires(c, Gte, vals, m) <==> !Fires(c, Lt, vals, m)
    ensures Fires(c, Lte, vals, m) <==> !Fires(c, Gt, vals, m)
    ensures Exact(c.ctype) ==>
      && (Fires(c, Neq, vals, m) <==> !Fires(c, Eq, vals, m))
      && (Fires(c, Lt, vals, m) || Fires(c, Eq, vals, m) || Fires(c, Gt, vals, m))
      && !(Fires(c, Lt, vals, m) && Fires(c, Gt, vals, m))
      && !(Fires(c, Eq, vals, m) && (Fires(c, Lt, vals, m) || Fires(c, Gt, vals, m)))
  {
    ComparisonTable(c, vals, x, m);
  }

  /** As the value rises, `>=` and `>` stay true; as it falls, `<=` and `<` do. */
  lemma {:induction false} ComparisonsFollowTheValue(
      c: Leaf, low: Values, x: real, high: Values, y: real, m: CrossMap, n: CrossMap)
    requires Ordered(c.ctype) && c.value.Some? && Reads(low, c, x) && Reads(high, c, y) && x <= y
    ensures Fires(c, Gte, low, m) ==> Fires(c, Gte, high, n)
    ensures Fires(c, Gt, low, m) ==> Fires(c, Gt, high, n)
    ensures Fires(c, Lte, high, n) ==> Fires(c, Lte, low, m)
    ensures Fires(c, Lt, high, n) ==> Fires(c, Lt, low, m)
  {
    ComparisonTable(c, low, x, m);
    ComparisonTable(c, high, y, n);
  }

  // ------------------------------------------- which conditions ever fire

  /** The operator is one the type admits. */
  predicate Admits(t: ParamType, op: Op) {
    match op
    case Gte | Gt | Lte | Lt => Ordered(t)
    case OtherOp(_) => false
    case _ => Exact(t)
  }

  /** The extractor computes nothing for anything but this reading. */
  function Reading(x: Option<real>): Values { _ => x }

  /** A value that fires the condition, coming from the far side of its threshold. */
  function FiringValue(op: Op, threshold: real): real {
    match op
    case Gt | Neq => threshold + 1.0
    case Lt => threshold - 1.0
    case _ => threshold
  }

  function FarSide(op: Op, threshold: real): real {
    if op == CrossesAbove then threshold - 1.0 else threshold + 1.0
  }

  /**
   Some value and some memory fire a condition exactly when its threshold is a number and
   its operator one that its type admits; otherwise it leaves the memory alone as well.
   */
  lemma {:induction false} FiresIffAdmitted(c: Leaf)
    ensures (exists vals: Values, m :: Fires(c, c.op, vals, m)) <==> c.value.Some? && Admits(c.ctype, c.op)
    ensures !Admits(c.ctype, c.op) || c.value.None? ==>
      forall vals: Values, m :: EvalSection(OneLeaf(c, c.op), vals, m).cross == m
  {
    if c.value.Some? && Admits(c.ctype, c.op) {
      var vals: Values := Reading(Some(FiringValue(c.op, c.value.value)));
      var m := map[ConditionKey(c) := FarSide(c.op, c.value.value)];
      OneLeafUnfolds(c, c.op, vals, m);
      assert Fires(c, c.op, vals, m);
    } else {
      forall vals: Values, m ensures EvalSection(OneLeaf(c, c.op), vals, m) == Outcome(false, m) {
        OneLeafUnfolds(c, c.op, vals, m);
      }
    }
  }

  // ------------------------------------------------------------ fingerprints

  predicate Unbarred(s: string) { '|' !in s }

  /** No free text of the condition contains the separator. */
  predicate TextsUnbarred(c: Leaf) { Unbarred(c.side) && Unbarred(c.windowSec) && Unbarred(c.valueText) }

  lemma {:induction false} FirstPartsAgree(a: string, rest: string, b: string, more: string)
    requires Unbarred(a) && Unbarred(b) && a + "|" + rest == b + "|" + more
    ensures a == b && rest == more
  {
    var whole := a + "|" + rest;
    if |a| < |b| {
      BarComesEarlier(a, rest, b, more);
    } else if |b| < |a| {
      BarComesEarlier(b, more, a, rest);
    } else {
      assert a == whole[..|a|] && b == (b + "|" + more)[..|a|];
      assert rest == whole[|a| + 1..] && more == (b + "|" + more)[|a| + 1..];
    }
  }

  lemma BarComesEarlier(a: string, rest: string, b: string, more: string)
    requires Unbarred(b) && |a| < |b|
    ensures a + "|" + rest != b + "|" + more
  {
    assert (a + "|" + rest)[|a|] == '|' && (b + "|" + more)[|a|] == b[|a|];
  }

  lemma KeyParts(c: Leaf)
    ensures ConditionKey(c)
         == TypeText(c.ctype) + "|" + (c.side + "|" + (c.windowSec + "|" + (OpText(c.op) + "|" + c.valueText)))
  {
    Regroup(TypeText(c.ctype), c.side, c.windowSec, OpText(c.op), c.valueText);
  }

  lemma Regroup(a: string, b: string, c: string, d: string, e: string)
    ensures a + "|" + b + "|" + c + "|" + d + "|" + e == a + "|" + (b + "|" + (c + "|" + (d + "|" + e)))
  {
  }

  /** Cross conditions share a fingerprint exactly when they agree in type, side, window, operator and value. */
  lemma {:induction false} FingerprintsTellApart(c: Leaf, d: Leaf)
    requires Remembers(c) && Remembers(d) && TextsUnbarred(c) && TextsUnbarred(d)
    ensures ConditionKey(c) == ConditionKey(d) <==>
      && c.ctype == d.ctype && c.side == d.side && c.windowSec == d.windowSec
      && c.op == d.op && c.valueText == d.valueText
  {
    NamesTellApart(c, d);
    NamesUnbarred(c);
    NamesUnbarred(d);
    KeyParts(c);
    KeyParts(d);
    if ConditionKey(c) == ConditionKey(d) {
      var c3, d3 := OpText(c.op) + "|" + c.valueText, OpText(d.op) + "|" + d.valueText;
      var c2, d2 := c.windowSec + "|" + c3, d.windowSec + "|" + d3;
      var c1, d1 := c.side + "|" + c2, d.side + "|" + d2;
      FirstPartsAgree(TypeText(c.ctype), c1, TypeText(d.ctype), d1);
      FirstPartsAgree(c.side, c2, d.side, d2);
      FirstPartsAgree(c.windowSec, c3, d.windowSec, d3);
      FirstPartsAgree(OpText(c.op), c.valueText, OpText(d.op), d.valueText);
    }
  }

  lemma NamesUnbarred(c: Leaf)
    requires Remembers(c)
    ensures Unbarred(TypeText(c.ctype)) && Unbarred(OpText(c.op))
  {
  }

  /** Types and operators with crossings are told apart by their names. */
  lemma NamesTellApart(c: Leaf, d: Leaf)
    requires Remembers(c) && Remembers(d)
    ensures TypeText(c.ctype) == TypeText(d.ctype) <==> c.ctype == d.ctype
    ensures OpText(c.op) == OpText(d.op) <==> c.op == d.op
  {
    var price, usd, pct := TypeText(TokenPrice), TypeText(CoinMoveUsd), TypeText(CoinMovePct);
    assert price[0] == 't' && usd[0] == 'c' && pct[0] == 'c' && usd[21] == 'u' && pct[21] == 'p';
    assert OpText(CrossesAbove)[8] == 'a' && OpText(CrossesBelow)[8] == 'b';
  }

  /** Without conditions nothing fires and nothing is remembered, in whichever form they are missing. */
  lemma EmptySectionsNeverHold(s: Section, op: Join, connectors: Option<seq<Option<Join>>>, vals: Values, m: CrossMap)
    requires s in {NoSection, FlatList([]), Tree(Group(op, connectors, []))}
    ensures EvalSection(s, vals, m) == Outcome(false, m)
  {
  }

  // -------------------------------------------------------------- connectors

  /** The group without its last child. */
  function Front(g: Node): Node
    requires g.Group? && g.children != []
  {
    g.(children := g.children[..|g.children| - 1])
  }

  lemma {:induction false} FrontTruth(g: Node, k: nat, vals: Values, m: CrossMap)
    requires g.Group? && 1 <= k < |g.children|
    ensures TruthFirst(Front(g), k, vals, m) == TruthFirst(g, k, vals, m)
  {
    if k > 1 {
      FrontTruth(g, k - 1, vals, m);
    }
  }

  /** What the connector list says about the join of child i + 1, if anything. */
  function Listed(g: Node, i: nat): Option<Join>
    requires g.Group?
  {
    if g.connectors.Some? && i < |g.connectors.value| then g.connectors.value[i] else None
  }

  /**
   The last child of a group joins everything before it by its own connector, and by the
   group's operator where the list is absent, too short or unreadable there.
   */
  lemma {:induction false} LastChildJoins(g: Node, vals: Values, m: CrossMap)
    requires g.Group? && |g.children| >= 2
    ensures
      var last, before := Truth(g.children[|g.children| - 1], vals, m), Truth(Front(g), vals, m);
      var listed := Listed(g, |g.children| - 2);
      && (listed == Some(And) || (listed == None && g.op == And) ==> (Truth(g, vals, m) <==> before && last))
      && (listed == Some(Or) || (listed == None && g.op == Or) ==> (Truth(g, vals, m) <==> before || last))
  {
    FrontTruth(g, |g.children| - 1, vals, m);
  }

  /** Every join in the tree is an OR, and no group is empty. */
  ghost predicate OrOnly(node: Node)
    decreases node, 1, 0
  {
    match node
    case Single(_) => true
    case Group(_, _, children) => children != [] && OrOnlyFirst(node, |children|)
  }

  ghost predicate OrOnlyFirst(g: Node, k: nat)
    requires g.Group? && 1 <= k <= |g.children|
    decreases g, 0, k
  {
    && OrOnly(g.children[k - 1])
    && (k > 1 ==> OrOnlyFirst(g, k - 1)
                  && (Listed(g, k - 2) == Some(Or) || (Listed(g, k - 2) == None && g.op == Or)))
  }

  /** An OR-only tree holds exactly when one of its leaves does. */
  lemma {:induction false} OrOnlyHolds(node: Node, vals: Values, m: CrossMap)
    requires OrOnly(node)
    ensures Truth(node, vals, m) <==> exists c :: c in Leaves(node) && LeafTruth(c, vals, m)
    decreases node, 1, 0
  {
    match node
    case Single(c) => assert c in Leaves(node);
    case Group(_, _, children) => OrOnlyFirstHolds(node, |children|, vals, m);
  }

  lemma {:induction false} OrOnlyFirstHolds(g: Node, k: nat, vals: Values, m: CrossMap)
    requires g.Group? && 1 <= k <= |g.children| && OrOnlyFirst(g, k)
    ensures TruthFirst(g, k, vals, m) <==> exists c :: c in LeavesFirst(g, k) && LeafTruth(c, vals, m)
    decreases g, 0, k
  {
    OrOnlyHolds(g.children[k - 1], vals, m);
    if k > 1 {
      OrOnlyFirstHolds(g, k - 1, vals, m);
    }
  }

  /**
   Evaluation with memory: an OR whose front already holds leaves the last child alone; any
   other join evaluates it against the memory the front leaves behind.
   */
  lemma {:induction false} LastChildIsThreaded(g: Node, vals: Values, m: CrossMap)
    requires g.Group? && |g.children| >= 2
    ensures
      var front, listed := Eval(Front(g), vals, m), Listed(g, |g.children| - 2);
      var last := Eval(g.children[|g.children| - 1], vals, front.cross);
      && (listed == Some(And) || (listed == None && g.op == And) ==>
            Eval(g, vals, m) == Outcome(front.truth && last.truth, last.cross))
      && (listed == Some(Or) || (listed == None && g.op == Or) ==>
            Eval(g, vals, m) == if front.truth then front else last)
  {
    FrontEval(g, |g.children| - 1, vals, m);
  }

  lemma {:induction false} FrontEval(g: Node, k: nat, vals: Values, m: CrossMap)
    requires g.Group? && 1 <= k < |g.children|
    ensures EvalFirst(Front(g), k, vals, m) == EvalFirst(g, k, vals, m)
  {
    if k > 1 {
      FrontEval(g, k - 1, vals, m);
    }
  }
}

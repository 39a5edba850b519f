/** Exactly when an AND-only tree with cross conditions means its pure reading. */
module SharedCrosses {
  import opened Types
  import opened Conditions

  /** Some value of the leaf, and some memory, make it hold. */
  predicate CanHold(c: Leaf) { ValidOp(c.ctype, c.op) && c.value.Some? }

  /** Some values and some memory make an AND-only tree hold. */
  ghost predicate CanFire(node: Node) {
    NoEmptyGroup(node) && forall c :: c in Leaves(node) ==> CanHold(c)
  }

  /** No fingerprint stands for crossings in both directions. */
  ghost predicate KeysFixDirection(leaves: set<Leaf>) {
    forall c, d :: c in leaves && d in leaves && Remembers(c) && Remembers(d) && ConditionKey(c) == ConditionKey(d) ==>
      c.op == d.op
  }

  /** A value for which a plain comparison holds. */
  function Satisfying(op: Op, v: real): real {
    match op
    case Gt | Neq => v + 1.0
    case Lt => v - 1.0
    case _ => v
  }

  /**
   An experiment on some leaves: every threshold lies between `lo` and `hi`, every cross
   leaf is read past its threshold, and `above` are the fingerprints crossing upwards.
   */
  datatype Probe = Probe(leaves: set<Leaf>, above: set<string>, lo: real, hi: real)

  ghost predicate Fits(p: Probe) {
    forall c :: c in p.leaves && Remembers(c) ==>
      p.lo <= c.value.value <= p.hi && (c.op == CrossesAbove <==> ConditionKey(c) in p.above)
  }

  function Past(p: Probe, above: bool): real { if above then p.hi else p.lo }

  function Readings(p: Probe): Values {
    c => if Remembers(c) then Some(Past(p, c.op == CrossesAbove))
         else if c.value.Some? then Some(Satisfying(c.op, c.value.value))
         else None
  }

  /** The memory holds the value past the threshold: the fingerprint cannot fire again. */
  predicate Spent(p: Probe, m: CrossMap, key: string) {
    key in m && m[key] == Past(p, key in p.above)
  }

  ghost predicate NoneSpent(p: Probe, m: CrossMap, keys: set<string>) {
    forall k :: k in keys ==> !Spent(p, m, k)
  }

  lemma LeafSpends(p: Probe, c: Leaf, m: CrossMap)
    requires Fits(p) && c in p.leaves
    ensures Remembers(c) ==> Spent(p, EvalLeaf(c, Readings(p), m).cross, ConditionKey(c))
    ensures Remembers(c) && Spent(p, m, ConditionKey(c)) ==> !LeafTruth(c, Readings(p), m)
    ensures forall k :: Spent(p, m, k) ==> Spent(p, EvalLeaf(c, Readings(p), m).cross, k)
  {
  }

  /** An AND-only tree walks all its leaves, so it spends all its fingerprints, and frees none. */
  lemma {:induction false} TreeSpends(p: Probe, node: Node, m: CrossMap)
    requires Fits(p) && AndOnly(node) && Leaves(node) <= p.leaves
    ensures
      var after := Eval(node, Readings(p), m).cross;
      && (forall k :: k in Keys(Leaves(node)) ==> Spent(p, after, k))
      && (forall k :: Spent(p, m, k) ==> Spent(p, after, k))
    decreases node, 1, 0
  {
    match node
    case Single(c) => LeafSpends(p, c, m);
    case Group(_, _, children) =>
      if children != [] {
        FirstSpend(p, node, |children|, m);
      }
  }

  lemma {:induction false} FirstSpend(p: Probe, g: Node, k: nat, m: CrossMap)
    requires Fits(p) && g.Group? && 1 <= k <= |g.children| && AndOnlyFirst(g, k) && LeavesFirst(g, k) <= p.leaves
    ensures
      var after := EvalFirst(g, k, Readings(p), m).cross;
      && (forall key :: key in Keys(LeavesFirst(g, k)) ==> Spent(p, after, key))
      && (forall key :: Spent(p, m, key) ==> Spent(p, after, key))
    decreases g, 0, k
  {
    if k == 1 {
      TreeSpends(p, g.children[0], m);
    } else {
      FirstSpend(p, g, k - 1, m);
      TreeSpends(p, g.children[k - 1], EvalFirst(g, k - 1, Readings(p), m).cross);
      KeysOfUnion(LeavesFirst(g, k - 1), Leaves(g.children[k - 1]));
    }
  }

  lemma KeysOfUnion(a: set<Leaf>, b: set<Leaf>)
    ensures Keys(a + b) == Keys(a) + Keys(b)
  {
  }

  /** A tree that holds found every fingerprint unspent, so no two of its cross leaves share one. */
  lemma {:induction false} HoldingIsDistinct(p: Probe, node: Node, m: CrossMap)
    requires Fits(p) && AndOnly(node) && Leaves(node) <= p.leaves && Eval(node, Readings(p), m).truth
    ensures Distinct(node) && NoneSpent(p, m, Keys(Leaves(node)))
    decreases node, 1, 0
  {
    match node
    case Single(c) => LeafSpends(p, c, m);
    case Group(_, _, children) => FirstHoldingDistinct(p, node, |children|, m);
  }

  lemma {:induction false} FirstHoldingDistinct(p: Probe, g: Node, k: nat, m: CrossMap)
    requires Fits(p) && g.Group? && 1 <= k <= |g.children| && AndOnlyFirst(g, k) && LeavesFirst(g, k) <= p.leaves
    requires EvalFirst(g, k, Readings(p), m).truth
    ensures DistinctFirst(g, k) && NoneSpent(p, m, Keys(LeavesFirst(g, k)))
    decreases g, 0, k
  {
    if k == 1 {
      HoldingIsDistinct(p, g.children[0], m);
    } else {
      FirstHoldingDistinct(p, g, k - 1, m);
      var first, after := LeavesFirst(g, k - 1), EvalFirst(g, k - 1, Readings(p), m).cross;
      FirstSpend(p, g, k - 1, m);
      HoldingIsDistinct(p, g.children[k - 1], after);
      SpentApart(p, m, after, first, Leaves(g.children[k - 1]));
    }
  }

  /** Fingerprints spent on the way are not among those found unspent afterwards. */
  lemma SpentApart(p: Probe, m: CrossMap, after: CrossMap, first: set<Leaf>, next: set<Leaf>)
    requires NoneSpent(p, m, Keys(first)) && NoneSpent(p, after, Keys(next))
    requires forall k :: k in Keys(first) || Spent(p, m, k) ==> Spent(p, after, k)
    ensures Keys(first) !! Keys(next) && NoneSpent(p, m, Keys(first + next))
  {
    KeysOfUnion(first, next);
  }

  /** A memory that lies on the far side of every threshold. */
  function FarSide(p: Probe, keys: set<string>): CrossMap {
    map k | k in keys :: if k in p.above then p.lo - 1.0 else p.hi + 1.0
  }

  lemma FarSideHolds(p: Probe, c: Leaf)
    requires Fits(p) && c in p.leaves && CanHold(c)
    ensures LeafTruth(c, Readings(p), FarSide(p, Keys(p.leaves)))
  {
  }

  lemma {:induction false} Thresholds(leaves: set<Leaf>) returns (lo: real, hi: real)
    ensures lo <= hi && forall c :: c in leaves && c.value.Some? ==> lo <= c.value.value <= hi
    decreases |leaves|
  {
    if leaves == {} {
      lo, hi := 0.0, 0.0;
    } else {
      var c := Pick(leaves);
      lo, hi := Thresholds(leaves - {c});
      if c.value.Some? {
        lo, hi := Min(lo, c.value.value), Max(hi, c.value.value);
      }
      assert forall d :: d in leaves ==> d == c || d in leaves - {c};
    }
  }

  lemma {:induction false} ProbeFor(leaves: set<Leaf>) returns (p: Probe)
    requires KeysFixDirection(leaves)
    ensures Fits(p) && p.leaves == leaves
  {
    var lo, hi := Thresholds(leaves);
    p := Probe(leaves, set c | c in leaves && Remembers(c) && c.op == CrossesAbove :: ConditionKey(c), lo, hi);
    forall c | c in leaves && Remembers(c) ensures c.op == CrossesAbove <==> ConditionKey(c) in p.above {
      if ConditionKey(c) in p.above {
        var d :| d in leaves && Remembers(d) && d.op == CrossesAbove && ConditionKey(d) == ConditionKey(c);
      }
    }
  }

  /** The threaded evaluator and the pure reading agree on every snapshot and memory. */
  ghost predicate MeansItsReading(node: Node) {
    forall vals: Values, m: CrossMap :: Eval(node, vals, m).truth == Truth(node, vals, m)
  }

  /**
   An AND-only tree whose leaves can all hold means its pure reading, whatever the values
   and the memory, exactly when no two of its cross leaves share a fingerprint.
   */
  lemma {:induction false} AndOnlyIffDistinct(node: Node)
    requires AndOnly(node) && CanFire(node) && KeysFixDirection(Leaves(node))
    ensures MeansItsReading(node) <==> Distinct(node)
  {
    if Distinct(node) {
      forall vals: Values, m: CrossMap ensures Eval(node, vals, m).truth == Truth(node, vals, m) {
        EvalRefinesTruth(node, vals, m);
      }
    }
    if MeansItsReading(node) {
      var p := ProbeFor(Leaves(node));
      var m := FarSide(p, Keys(p.leaves));
      forall c | c in Leaves(node) ensures LeafTruth(c, Readings(p), m) {
        FarSideHolds(p, c);
      }
      AndOnlyVisitsAll(node, Readings(p), m);
      assert Eval(node, Readings(p), m).truth;
      HoldingIsDistinct(p, node, m);
    }
  }
}

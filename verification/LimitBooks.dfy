/** Which part of a snapshot decides a limit order, and that YES and NO orders fare alike. */
module LimitBooks {
  import opened Types
  import opened LimitOrder

  // ---------------------------------------------------- the order's own side

  /** Both snapshots carry the same time and the same levels where an order of this side rests. */
  ghost predicate SameQueue(side: Side, s: Snapshot, t: Snapshot) {
    && s.ts == t.ts
    && match side
       case BuyYes => s.yesBids == t.yesBids
       case BuyNo => s.noBids == t.noBids
       case SellYes => s.yesAsks == t.yesAsks
       case SellNo => s.noAsks == t.noAsks
  }

  ghost predicate SameQueues(side: Side, snaps: seq<Snapshot>, others: seq<Snapshot>) {
    |snaps| == |others| && forall i :: 0 <= i < |snaps| ==> SameQueue(side, snaps[i], others[i])
  }

  lemma {:induction false} SameDecrease(
      o: Order, q: Order, snaps: seq<Snapshot>, others: seq<Snapshot>, start: nat, j: nat)
    requires |snaps| == |others| && start <= j < |snaps|
    requires forall i :: 0 <= i < |snaps| ==>
      SizeAtLevel(snaps[i], o.side, o.price) == SizeAtLevel(others[i], q.side, q.price)
    ensures CumulativeDecrease(o, snaps, start, j) == CumulativeDecrease(q, others, start, j)
  {
    if j > start {
      SameDecrease(o, q, snaps, others, start, j - 1);
    }
  }

  /** Orders that agree on price, size, timeout and model, over streams that look alike to them. */
  ghost predicate LookAlike(o: Order, q: Order, snaps: seq<Snapshot>, others: seq<Snapshot>) {
    && o.(side := q.side) == q && |snaps| == |others|
    && (forall i :: 0 <= i < |snaps| ==> snaps[i].ts == others[i].ts)
    && (forall i :: 0 <= i < |snaps| ==>
          BookCrossed(snaps[i], o.side, o.price) == BookCrossed(others[i], q.side, q.price))
    && (o.queueAware ==> forall i :: 0 <= i < |snaps| ==>
          SizeAtLevel(snaps[i], o.side, o.price) == SizeAtLevel(others[i], q.side, q.price))
  }

  lemma {:induction false} LookAlikesFillAlike(
      o: Order, q: Order, snaps: seq<Snapshot>, others: seq<Snapshot>, start: nat, i: nat)
    requires LookAlike(o, q, snaps, others) && start <= i <= |snaps| && start < |snaps|
    ensures ScanFrom(o, snaps, start, i) == ScanFrom(q, others, start, i)
    decreases |snaps| - i
  {
    if i < |snaps| {
      if o.queueAware {
        SameDecrease(o, q, snaps, others, start, i);
      }
      assert FillsAt(o, snaps, start, i) == FillsAt(q, others, start, i);
      LookAlikesFillAlike(o, q, snaps, others, start, i + 1);
    }
  }

  /** The fate of an order depends on the times and on the side of the book it rests on, nothing else. */
  lemma {:induction false} OnlyOwnQueueMatters(o: Order, snaps: seq<Snapshot>, others: seq<Snapshot>, start: nat)
    requires start < |snaps| && SameQueues(o.side, snaps, others)
    ensures Scan(o, snaps, start) == Scan(o, others, start)
  {
    forall i | 0 <= i < |snaps| ensures BookSideForLimit(snaps[i], o.side) == BookSideForLimit(others[i], o.side) {
      assert SameQueue(o.side, snaps[i], others[i]);
    }
    LookAlikesFillAlike(o, o, snaps, others, start, start);
  }

  // --------------------------------------------------------------- symmetry

  /** The same market with YES and NO exchanged. */
  function Mirrored(s: Snapshot): Snapshot {
    s.(yesBids := s.noBids, yesAsks := s.noAsks, noBids := s.yesBids, noAsks := s.yesAsks)
  }

  function MirroredStream(snaps: seq<Snapshot>): (r: seq<Snapshot>)
    ensures |r| == |snaps| && forall i :: 0 <= i < |snaps| ==> r[i] == Mirrored(snaps[i])
  {
    seq(|snaps|, i requires 0 <= i < |snaps| => Mirrored(snaps[i]))
  }

  function OtherToken(side: Side): Side {
    match side
    case BuyYes => BuyNo
    case BuyNo => BuyYes
    case SellYes => SellNo
    case SellNo => SellYes
  }

  /** An order for NO fares in any market as one for YES does in its mirror image. */
  lemma {:induction false} TokensAreAlike(o: Order, snaps: seq<Snapshot>, start: nat)
    requires start < |snaps|
    ensures Scan(o.(side := OtherToken(o.side)), MirroredStream(snaps), start) == Scan(o, snaps, start)
  {
    LookAlikesFillAlike(o, o.(side := OtherToken(o.side)), snaps, MirroredStream(snaps), start, start);
  }

  // ---------------------------------------------------------- plain crossing

  /** The best bid of the token has come down to a buyer, or its best ask up to a seller. */
  ghost predicate Reached(side: Side, s: Snapshot, price: real) {
    match side
    case BuyYes => s.yesBids != [] && s.yesBids[0].price <= price
    case BuyNo => s.noBids != [] && s.noBids[0].price <= price
    case SellYes => s.yesAsks != [] && s.yesAsks[0].price >= price
    case SellNo => s.noAsks != [] && s.noAsks[0].price >= price
  }

  /** Without queue awareness an order fills exactly at the first snapshot in time whose best level has reached it. */
  lemma {:induction false} PlainFillsWhenReached(o: Order, snaps: seq<Snapshot>, start: nat, j: nat)
    requires start <= j < |snaps| && !o.queueAware
    ensures Scan(o, snaps, start) == Some(LimitFill(o.price, o.sizeUsd, j)) <==>
      && (forall k :: start <= k <= j ==> snaps[k].ts - snaps[start].ts <= o.timeoutS)
      && Reached(o.side, snaps[j], o.price)
      && forall k :: start <= k < j ==> !Reached(o.side, snaps[k], o.price)
  {
    EarliestFill(o, snaps, start, j);
    assert forall k :: start <= k < |snaps| ==> FillsAt(o, snaps, start, k) == Reached(o.side, snaps[k], o.price);
  }

  // ------------------------------------------------------------------ queues

  predicate Near(level: Level, price: real) { -0.0001 < level.price - price < 0.0001 }

  ghost predicate FirstNear(levels: seq<Level>, price: real, i: nat) {
    i < |levels| && Near(levels[i], price) && forall k :: 0 <= k < i ==> !Near(levels[k], price)
  }

  /** The queue is the first level within a hundredth of a cent of the price, or none. */
  lemma {:induction false} QueueIsFirstNear(levels: seq<Level>, price: real)
    ensures (forall i :: 0 <= i < |levels| ==> !Near(levels[i], price)) ==> SizeAt(levels, price) == 0.0
    ensures forall i: nat :: FirstNear(levels, price, i) ==> SizeAt(levels, price) == levels[i].size
  {
    if levels != [] && !Near(levels[0], price) {
      QueueIsFirstNear(levels[1..], price);
      forall i: nat | FirstNear(levels, price, i) ensures SizeAt(levels, price) == levels[i].size {
        assert FirstNear(levels[1..], price, i - 1);
      }
    }
  }

  /** A queue that only shrinks has shrunk by the difference. */
  lemma {:induction false} ShrinkingQueue(o: Order, snaps: seq<Snapshot>, start: nat, j: nat)
    requires start <= j < |snaps|
    requires forall k :: start < k <= j ==>
      SizeAtLevel(snaps[k], o.side, o.price) <= SizeAtLevel(snaps[k - 1], o.side, o.price)
    ensures CumulativeDecrease(o, snaps, start, j)
         == SizeAtLevel(snaps[start], o.side, o.price) - SizeAtLevel(snaps[j], o.side, o.price)
  {
    if j > start {
      ShrinkingQueue(o, snaps, start, j - 1);
    }
  }

  lemma {:induction false} GrowingQueue(o: Order, snaps: seq<Snapshot>, start: nat, j: nat)
    requires start <= j < |snaps|
    requires forall k :: start < k <= j ==>
      SizeAtLevel(snaps[k], o.side, o.price) >= SizeAtLevel(snaps[k - 1], o.side, o.price)
    ensures CumulativeDecrease(o, snaps, start, j) == 0.0
  {
    if j > start {
      GrowingQueue(o, snaps, start, j - 1);
    }
  }

  /** The queue ahead is empty at the start, or it never shrinks. */
  ghost predicate NoQueueMoves(o: Order, snaps: seq<Snapshot>, start: nat)
    requires start < |snaps|
  {
    || SizeAtLevel(snaps[start], o.side, o.price) == 0.0
    || (SizeAtLevel(snaps[start], o.side, o.price) > 0.0
        && forall k :: start < k < |snaps| ==>
             SizeAtLevel(snaps[k], o.side, o.price) >= SizeAtLevel(snaps[k - 1], o.side, o.price))
  }

  /** Where no one queues ahead, or no one ahead ever leaves, minding the queue makes no difference. */
  lemma {:induction false} StillQueueIsPlain(o: Order, snaps: seq<Snapshot>, start: nat, i: nat)
    requires start <= i <= |snaps| && start < |snaps| && NoQueueMoves(o, snaps, start)
    ensures ScanFrom(o.(queueAware := true), snaps, start, i) == ScanFrom(o.(queueAware := false), snaps, start, i)
    decreases |snaps| - i
  {
    if i < |snaps| {
      var aware := o.(queueAware := true);
      if SizeAtLevel(snaps[start], o.side, o.price) > 0.0 {
        GrowingQueue(aware, snaps, start, i);
      }
      StillQueueIsPlain(o, snaps, start, i + 1);
    }
  }

  /**
   A queue that only shrinks fills the order at the first snapshot at which it is used up,
   unless the market reaches the price before.
   */
  lemma {:induction false} ShrinkingQueueFillsWhenUsedUp(o: Order, snaps: seq<Snapshot>, start: nat, j: nat)
    requires start <= j < |snaps| && o.queueAware && SizeAtLevel(snaps[start], o.side, o.price) > 0.0
    requires forall k :: start < k <= j ==>
      SizeAtLevel(snaps[k], o.side, o.price) <= SizeAtLevel(snaps[k - 1], o.side, o.price)
    requires forall k :: start <= k <= j ==> snaps[k].ts - snaps[start].ts <= o.timeoutS
    requires forall k :: start <= k <= j ==> !Reached(o.side, snaps[k], o.price)
    ensures Scan(o, snaps, start) == Some(LimitFill(o.price, o.sizeUsd, j)) <==>
      && SizeAtLevel(snaps[j], o.side, o.price) <= 0.0
      && forall k :: start <= k < j ==> SizeAtLevel(snaps[k], o.side, o.price) > 0.0
  {
    EarliestFill(o, snaps, start, j);
    forall k | start <= k <= j
      ensures FillsAt(o, snaps, start, k) <==> SizeAtLevel(snaps[k], o.side, o.price) <= 0.0
    {
      ShrinkingQueue(o, snaps, start, k);
      assert !BookCrossed(snaps[k], o.side, o.price);
    }
  }
}

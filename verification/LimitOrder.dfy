/** The forward-scanning limit-order simulator of the backtest engine. */
module LimitOrder {
  import opened Types

  datatype Order = Order(side: Side, price: real, timeoutS: real, sizeUsd: real, queueAware: bool)

  datatype LimitFill = LimitFill(avgPrice: real, usd: real, index: nat)

  /** The side of the book a resting order joins. */
  function BookSideForLimit(snap: Snapshot, side: Side): seq<Level> {
    match side
    case BuyYes => snap.yesBids
    case BuyNo => snap.noBids
    case SellYes => snap.yesAsks
    case SellNo => snap.noAsks
  }

  function SizeAt(levels: seq<Level>, price: real): real {
    if levels == [] then 0.0
    else if Abs(levels[0].price - price) < 0.0001 then levels[0].size
    else SizeAt(levels[1..], price)
  }

  function SizeAtLevel(snap: Snapshot, side: Side, price: real): real {
    SizeAt(BookSideForLimit(snap, side), price)
  }

  predicate BookCrossed(snap: Snapshot, side: Side, limitPrice: real) {
    var levels := BookSideForLimit(snap, side);
    levels != [] && if side.IsBuy() then levels[0].price <= limitPrice else levels[0].price >= limitPrice
  }

  /** How far the queue at the limit price has shrunk in total since the order was placed. */
  function CumulativeDecrease(o: Order, snaps: seq<Snapshot>, start: nat, j: nat): real
    requires start <= j < |snaps|
  {
    if j == start then 0.0
    else
      CumulativeDecrease(o, snaps, start, j - 1)
      + Max(0.0, SizeAtLevel(snaps[j - 1], o.side, o.price) - SizeAtLevel(snaps[j], o.side, o.price))
  }

  predicate QueueDepleted(o: Order, snaps: seq<Snapshot>, start: nat, j: nat)
    requires start <= j < |snaps|
  {
    var initial := SizeAtLevel(snaps[start], o.side, o.price);
    initial != 0.0 && CumulativeDecrease(o, snaps, start, j) >= initial
  }

  predicate FillsAt(o: Order, snaps: seq<Snapshot>, start: nat, j: nat)
    requires start <= j < |snaps|
  {
    BookCrossed(snaps[j], o.side, o.price) || (o.queueAware && QueueDepleted(o, snaps, start, j))
  }

  /** The order is still alive at snapshot j: no snapshot so far is past the deadline. */
  ghost predicate LiveAt(o: Order, snaps: seq<Snapshot>, start: nat, j: nat)
    requires start <= j < |snaps|
  {
    forall k :: start <= k <= j ==> snaps[k].ts <= snaps[start].ts + o.timeoutS
  }

  function ScanFrom(o: Order, snaps: seq<Snapshot>, start: nat, j: nat): Option<LimitFill>
    requires start <= j <= |snaps|
    decreases |snaps| - j
  {
    if j == |snaps| || snaps[j].ts > snaps[start].ts + o.timeoutS then None
    else if FillsAt(o, snaps, start, j) then Some(LimitFill(o.price, o.sizeUsd, j))
    else ScanFrom(o, snaps, start, j + 1)
  }

  function Scan(o: Order, snaps: seq<Snapshot>, start: nat): Option<LimitFill>
    requires start < |snaps|
  {
    ScanFrom(o, snaps, start, start)
  }

  method TryLimitFill(snaps: seq<Snapshot>, startIdx: nat, o: Order) returns (fill: Option<LimitFill>)
    requires startIdx < |snaps|
    ensures fill == Scan(o, snaps, startIdx)
  {
    var deadline := snaps[startIdx].ts + o.timeoutS;
    var initialQueue, prevSize, cumulativeDecrease := 0.0, 0.0, 0.0;
    if o.queueAware {
      initialQueue := SizeAtLevel(snaps[startIdx], o.side, o.price);
      prevSize := initialQueue;
    }
    for j := startIdx to |snaps|
      invariant Scan(o, snaps, startIdx) == ScanFrom(o, snaps, startIdx, j)
      invariant o.queueAware ==> initialQueue == SizeAtLevel(snaps[startIdx], o.side, o.price)
      invariant o.queueAware && j == startIdx ==> prevSize == initialQueue && cumulativeDecrease == 0.0
      invariant o.queueAware && j > startIdx ==>
        && prevSize == SizeAtLevel(snaps[j - 1], o.side, o.price)
        && cumulativeDecrease == CumulativeDecrease(o, snaps, startIdx, j - 1)
    {
      var snap := snaps[j];
      if snap.ts > deadline {
        return None;
      }
      if BookCrossed(snap, o.side, o.price) {
        return Some(LimitFill(o.price, o.sizeUsd, j));
      }
      if o.queueAware {
        var curSize := SizeAtLevel(snap, o.side, o.price);
        var delta := prevSize - curSize;
        if delta > 0.0 {
          cumulativeDecrease := cumulativeDecrease + delta;
        }
        prevSize := curSize;
        if initialQueue != 0.0 && cumulativeDecrease >= initialQueue {
          return Some(LimitFill(o.price, o.sizeUsd, j));
        }
      }
    }
    return None;
  }

  lemma {:induction false} ScanIsEarliest(o: Order, snaps: seq<Snapshot>, start: nat, i: nat, j: nat)
    requires start <= i <= j < |snaps|
    requires LiveAt(o, snaps, start, j) && FillsAt(o, snaps, start, j)
    requires forall k :: i <= k < j ==> !FillsAt(o, snaps, start, k)
    ensures ScanFrom(o, snaps, start, i) == Some(LimitFill(o.price, o.sizeUsd, j))
    decreases j - i
  {
    assert snaps[i].ts <= snaps[start].ts + o.timeoutS;
    if i < j {
      ScanIsEarliest(o, snaps, start, i + 1, j);
    }
  }

  lemma {:induction false} ScanFinds(o: Order, snaps: seq<Snapshot>, start: nat, i: nat)
    requires start <= i <= |snaps| && ScanFrom(o, snaps, start, i).Some?
    requires forall k :: start <= k < i ==> snaps[k].ts <= snaps[start].ts + o.timeoutS
    ensures
      var f := ScanFrom(o, snaps, start, i).value;
      && f.avgPrice == o.price && f.usd == o.sizeUsd
      && i <= f.index < |snaps| && LiveAt(o, snaps, start, f.index) && FillsAt(o, snaps, start, f.index)
      && forall k :: i <= k < f.index ==> !FillsAt(o, snaps, start, k)
    decreases |snaps| - i
  {
    if !FillsAt(o, snaps, start, i) {
      ScanFinds(o, snaps, start, i + 1);
    }
  }

  /** An order fills at j exactly when j is the first snapshot, up to the deadline, that crosses or depletes. */
  lemma {:induction false} EarliestFill(o: Order, snaps: seq<Snapshot>, start: nat, j: nat)
    requires start <= j < |snaps|
    ensures Scan(o, snaps, start) == Some(LimitFill(o.price, o.sizeUsd, j)) <==>
      && LiveAt(o, snaps, start, j)
      && FillsAt(o, snaps, start, j)
      && forall k :: start <= k < j ==> !FillsAt(o, snaps, start, k)
  {
    if Scan(o, snaps, start).Some? {
      ScanFinds(o, snaps, start, start);
    }
    if LiveAt(o, snaps, start, j) && FillsAt(o, snaps, start, j)
       && (forall k :: start <= k < j ==> !FillsAt(o, snaps, start, k)) {
      ScanIsEarliest(o, snaps, start, start, j);
    }
  }

  /** An order with a live filling snapshot is filled no later than it. */
  lemma {:induction false} FillsByThen(o: Order, snaps: seq<Snapshot>, start: nat, i: nat, j: nat)
    requires start <= i <= j < |snaps|
    requires LiveAt(o, snaps, start, j) && FillsAt(o, snaps, start, j)
    ensures ScanFrom(o, snaps, start, i).Some? && ScanFrom(o, snaps, start, i).value.index <= j
    decreases j - i
  {
    assert snaps[i].ts <= snaps[start].ts + o.timeoutS;
    if !FillsAt(o, snaps, start, i) {
      FillsByThen(o, snaps, start, i + 1, j);
    }
  }

  /** The queue-aware model fills whenever the plain one does, and never later. */
  lemma {:induction false} QueueAwareFillsNoLater(o: Order, snaps: seq<Snapshot>, start: nat)
    requires start < |snaps| && Scan(o.(queueAware := false), snaps, start).Some?
    ensures
      var aware := Scan(o.(queueAware := true), snaps, start);
      aware.Some? && aware.value.index <= Scan(o.(queueAware := false), snaps, start).value.index
  {
    var plain, aware := o.(queueAware := false), o.(queueAware := true);
    ScanFinds(plain, snaps, start, start);
    var j := Scan(plain, snaps, start).value.index;
    assert LiveAt(aware, snaps, start, j) by {
      assert LiveAt(plain, snaps, start, j);
    }
    FillsByThen(aware, snaps, start, start, j);
  }

  /** Waiting longer keeps the fill the shorter wait found. */
  lemma {:induction false} LongerTimeoutKeepsFill(o: Order, snaps: seq<Snapshot>, start: nat, longer: real)
    requires start < |snaps| && o.timeoutS <= longer && Scan(o, snaps, start).Some?
    ensures Scan(o.(timeoutS := longer), snaps, start) == Scan(o, snaps, start)
  {
    var patient := o.(timeoutS := longer);
    ScanFinds(o, snaps, start, start);
    var j := Scan(o, snaps, start).value.index;
    forall k | start <= k <= j ensures FillsAt(patient, snaps, start, k) == FillsAt(o, snaps, start, k) {
      DecreaseIgnoresTimeout(o, snaps, start, k, longer);
    }
    ScanIsEarliest(patient, snaps, start, start, j);
  }

  lemma {:induction false} DecreaseIgnoresTimeout(o: Order, snaps: seq<Snapshot>, start: nat, j: nat, longer: real)
    requires start <= j < |snaps|
    ensures CumulativeDecrease(o.(timeoutS := longer), snaps, start, j) == CumulativeDecrease(o, snaps, start, j)
  {
    if j > start {
      DecreaseIgnoresTimeout(o, snaps, start, j - 1, longer);
    }
  }

  /** The total decrease is at least the net one. */
  lemma {:induction false} DecreaseAtLeastNet(o: Order, snaps: seq<Snapshot>, start: nat, j: nat)
    requires start <= j < |snaps|
    ensures CumulativeDecrease(o, snaps, start, j)
         >= SizeAtLevel(snaps[start], o.side, o.price) - SizeAtLevel(snaps[j], o.side, o.price)
  {
    if j > start {
      DecreaseAtLeastNet(o, snaps, start, j - 1);
    }
  }

  /** A non-empty level seen empty before the deadline always means filled by then. */
  lemma {:induction false} EmptiedLevelMeansFilled(o: Order, snaps: seq<Snapshot>, start: nat, j: nat)
    requires start <= j < |snaps| && o.queueAware && LiveAt(o, snaps, start, j)
    requires SizeAtLevel(snaps[start], o.side, o.price) > 0.0
    requires SizeAtLevel(snaps[j], o.side, o.price) <= 0.0
    ensures Scan(o, snaps, start).Some? && Scan(o, snaps, start).value.index <= j
  {
    DecreaseAtLeastNet(o, snaps, start, j);
    FillsByThen(o, snaps, start, start, j);
  }

  /** The fill, if it happens before snapshot m. */
  function Before(fill: Option<LimitFill>, m: nat): Option<LimitFill> {
    if fill.Some? && fill.value.index < m then fill else None
  }

  /**
   How far an order looks ahead: cutting the stream at m takes away exactly the fills
   at or after m.
   */
  lemma {:induction false} LookAhead(o: Order, snaps: seq<Snapshot>, start: nat, m: nat)
    requires start < m <= |snaps|
    ensures Scan(o, snaps[..m], start) == Before(Scan(o, snaps, start), m)
  {
    LookAheadFrom(o, snaps, start, start, m);
  }

  lemma {:induction false} LookAheadFrom(o: Order, snaps: seq<Snapshot>, start: nat, i: nat, m: nat)
    requires start < m <= |snaps| && start <= i <= m
    ensures ScanFrom(o, snaps[..m], start, i) == Before(ScanFrom(o, snaps, start, i), m)
    decreases m - i
  {
    if i == m {
      IndexAtLeast(o, snaps, start, i);
    } else {
      DecreaseOfPrefix(o, snaps, start, i, m);
      assert snaps[..m][start] == snaps[start] && snaps[..m][i] == snaps[i];
      assert FillsAt(o, snaps[..m], start, i) == FillsAt(o, snaps, start, i);
      LookAheadFrom(o, snaps, start, i + 1, m);
    }
  }

  lemma {:induction false} IndexAtLeast(o: Order, snaps: seq<Snapshot>, start: nat, i: nat)
    requires start <= i <= |snaps|
    ensures ScanFrom(o, snaps, start, i).Some? ==> i <= ScanFrom(o, snaps, start, i).value.index < |snaps|
    decreases |snaps| - i
  {
    if i < |snaps| {
      IndexAtLeast(o, snaps, start, i + 1);
    }
  }

  lemma {:induction false} DecreaseOfPrefix(o: Order, snaps: seq<Snapshot>, start: nat, j: nat, m: nat)
    requires start <= j < m <= |snaps|
    ensures CumulativeDecrease(o, snaps[..m], start, j) == CumulativeDecrease(o, snaps, start, j)
  {
    if j > start {
      DecreaseOfPrefix(o, snaps, start, j - 1, m);
    }
  }

  /** The fate of an order is sealed by these snapshots: it filled, or one of them is past its deadline. */
  ghost predicate Decided(o: Order, past: seq<Snapshot>, start: nat)
    requires start < |past|
  {
    Scan(o, past, start).Some? || exists k :: start <= k < |past| && past[k].ts > past[start].ts + o.timeoutS
  }

  /** A snapshot in which every book sits at the order's price, stamped at its deadline. */
  function Crossing(o: Order, placed: Snapshot): Snapshot {
    var book := [Level(o.price, 1.0)];
    Snapshot(placed.marketId, placed.ts + o.timeoutS, book, book, book, book, None, "")
  }

  /** Later snapshots cannot change the fate of an order exactly when the ones at hand have sealed it. */
  lemma {:induction false} SealedIffDecided(o: Order, past: seq<Snapshot>, start: nat)
    requires start < |past|
    ensures (forall rest :: Scan(o, past + rest, start) == Scan(o, past, start)) <==> Decided(o, past, start)
  {
    if Decided(o, past, start) {
      forall rest ensures Scan(o, past + rest, start) == Scan(o, past, start) {
        DecidedStays(o, past, rest, start);
      }
    } else {
      var rest := [Crossing(o, past[start])];
      var j := |past|;
      assert (past + rest)[j] == rest[0] && (past + rest)[start] == past[start];
      assert LiveAt(o, past + rest, start, j);
      assert BookCrossed((past + rest)[j], o.side, o.price);
      FillsByThen(o, past + rest, start, start, j);
    }
  }

  lemma {:induction false} DecidedStays(o: Order, past: seq<Snapshot>, rest: seq<Snapshot>, start: nat)
    requires start < |past| && Decided(o, past, start)
    ensures Scan(o, past + rest, start) == Scan(o, past, start)
  {
    var all := past + rest;
    assert all[..|past|] == past;
    LookAhead(o, all, start, |past|);
    if Scan(o, all, start).Some? {
      ScanFinds(o, all, start, start);
      assert forall k :: start <= k < |past| ==> all[k] == past[k];
    }
  }
}

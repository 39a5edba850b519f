/**
 The cursors of the paper trader's poll loop: which snapshots its queries reach when
 cycles take long or fail.
 */
module PollCursors {
  import opened Types
  import opened PaperTrading

  const LOOKBACK_S: real := 10.0

  const QUERY_LIMIT: nat := 100000

  /**
   One cycle: it starts, its query later sees the first `visible` snapshots, and it scans
   them all, or fails after scanning some.
   */
  datatype Poll = Poll(start: real, visible: nat, failedAfter: Option<nat>)

  /** The first snapshot at or after a time, in a stream ordered by time. */
  function FirstSince(stream: seq<Snapshot>, since: real): (i: nat)
    ensures i <= |stream|
    ensures forall k :: 0 <= k < i ==> stream[k].ts < since
    ensures i < |stream| ==> stream[i].ts >= since
  {
    if stream == [] || stream[0].ts >= since then 0 else 1 + FirstSince(stream[1..], since)
  }

  /** What a query returns: the visible snapshots since a time, oldest first, up to the limit. */
  function Queried(stream: seq<Snapshot>, since: real, visible: nat): (w: Window)
    ensures w.from <= w.to
  {
    var from := FirstSince(stream, since);
    var to := if visible < from then from else visible;
    Window(from, if to - from > QUERY_LIMIT then from + QUERY_LIMIT else to)
  }

  lemma {:induction false} FirstSinceSplits(stream: seq<Snapshot>, since: real, i: nat)
    requires forall a, b :: 0 <= a < b < |stream| ==> stream[a].ts <= stream[b].ts
    requires i < |stream|
    ensures stream[i].ts >= since <==> FirstSince(stream, since) <= i
  {
    if FirstSince(stream, since) <= i {
      assert stream[FirstSince(stream, since)].ts <= stream[i].ts;
    }
  }

  /** In a stream ordered by time a query returns the visible snapshots since then, the oldest 100000 of them. */
  lemma {:induction false} QueryReturnsOldest(stream: seq<Snapshot>, since: real, visible: nat, i: nat)
    requires forall a, b :: 0 <= a < b < |stream| ==> stream[a].ts <= stream[b].ts
    requires visible <= |stream| && i < |stream|
    ensures
      var w := Queried(stream, since, visible);
      && w.to - w.from <= 100000
      && (w.from <= i < w.to ==> i < visible && stream[i].ts >= since)
      && (w.to - w.from < 100000 && i < visible && stream[i].ts >= since ==> w.from <= i < w.to)
      && (w.to <= i < visible && w.from < w.to ==> w.to - w.from == 100000 && stream[i].ts >= stream[w.to - 1].ts)
  {
    FirstSinceSplits(stream, since, i);
  }

  /** What a cycle scans of it. */
  function Scanned(stream: seq<Snapshot>, since: real, poll: Poll): Window {
    var w := Queried(stream, since, poll.visible);
    if poll.failedAfter.Some? && poll.failedAfter.value < w.to - w.from
    then Window(w.from, w.from + poll.failedAfter.value) else w
  }

  /** Failed or not, each cycle looks back ten seconds before the start of the one before it. */
  function SinceOf(firstSince: real, polls: seq<Poll>, k: nat): real
    requires k <= |polls|
  {
    if k == 0 then firstSince else polls[k - 1].start - LOOKBACK_S
  }

  function CycleWindows(stream: seq<Snapshot>, firstSince: real, polls: seq<Poll>): (windows: seq<Window>)
    ensures |windows| == |polls|
  {
    if polls == [] then []
    else
      var n := |polls| - 1;
      CycleWindows(stream, firstSince, polls[..n]) + [Scanned(stream, SinceOf(firstSince, polls, n), polls[n])]
  }

  /** How far into the stream the first k cycles have got. */
  function Reached(stream: seq<Snapshot>, firstSince: real, polls: seq<Poll>, k: nat): nat
    requires k <= |polls|
  {
    if k == 0 then 0
    else
      var before := Reached(stream, firstSince, polls, k - 1);
      var w := Scanned(stream, SinceOf(firstSince, polls, k - 1), polls[k - 1]);
      if w.to > before then w.to else before
  }

  /** Snapshot i is older than cycle k looks back, and none before it has scanned it. */
  ghost predicate SkippedBy(stream: seq<Snapshot>, firstSince: real, polls: seq<Poll>, k: nat, i: nat) {
    && k < |polls| && i < |stream|
    && Reached(stream, firstSince, polls, k) <= i < FirstSince(stream, SinceOf(firstSince, polls, k))
  }

  lemma WindowsNext(stream: seq<Snapshot>, firstSince: real, polls: seq<Poll>, k: nat)
    requires k < |polls|
    ensures CycleWindows(stream, firstSince, polls[..k + 1])
         == CycleWindows(stream, firstSince, polls[..k])
            + [Scanned(stream, SinceOf(firstSince, polls, k), polls[k])]
  {
    assert polls[..k + 1][..k] == polls[..k];
  }

  lemma {:induction false} ReachedIsFrontier(stream: seq<Snapshot>, firstSince: real, polls: seq<Poll>, k: nat)
    requires k <= |polls|
    ensures Frontier(CycleWindows(stream, firstSince, polls[..k])) == Reached(stream, firstSince, polls, k)
  {
    if k > 0 {
      ReachedIsFrontier(stream, firstSince, polls, k - 1);
      WindowsNext(stream, firstSince, polls, k - 1);
      FrontierSnoc(CycleWindows(stream, firstSince, polls[..k - 1]),
                   Scanned(stream, SinceOf(firstSince, polls, k - 1), polls[k - 1]));
    }
  }

  lemma FrontierSnoc(windows: seq<Window>, w: Window)
    ensures Frontier(windows + [w]) == if w.to > Frontier(windows) then w.to else Frontier(windows)
    ensures NoGaps(windows + [w]) <==> NoGaps(windows) && w.from <= Frontier(windows)
  {
    assert (windows + [w])[..|windows|] == windows;
  }

  /** Cycle k looks back to where the others had got. */
  ghost predicate LooksBack(stream: seq<Snapshot>, firstSince: real, polls: seq<Poll>, k: nat)
    requires k < |polls|
  {
    FirstSince(stream, SinceOf(firstSince, polls, k)) <= Reached(stream, firstSince, polls, k)
  }

  /** A cycle skips nothing exactly when it looks back far enough. */
  lemma LooksBackIffSkipsNone(stream: seq<Snapshot>, firstSince: real, polls: seq<Poll>, k: nat)
    requires k < |polls|
    ensures (forall i :: !SkippedBy(stream, firstSince, polls, k, i)) <==> LooksBack(stream, firstSince, polls, k)
  {
    var reached := Reached(stream, firstSince, polls, k);
    if reached < FirstSince(stream, SinceOf(firstSince, polls, k)) {
      assert SkippedBy(stream, firstSince, polls, k, reached);
    }
  }

  lemma {:induction false} NoGapsNext(stream: seq<Snapshot>, firstSince: real, polls: seq<Poll>, k: nat)
    requires k < |polls|
    ensures NoGaps(CycleWindows(stream, firstSince, polls[..k + 1])) <==>
      NoGaps(CycleWindows(stream, firstSince, polls[..k])) && LooksBack(stream, firstSince, polls, k)
  {
    WindowsNext(stream, firstSince, polls, k);
    ReachedIsFrontier(stream, firstSince, polls, k);
    FrontierSnoc(CycleWindows(stream, firstSince, polls[..k]),
                 Scanned(stream, SinceOf(firstSince, polls, k), polls[k]));
  }

  /** Flags that hold as long as every step so far does. */
  lemma {:induction false} HoldsWhileSteps(holds: seq<bool>, steps: seq<bool>, k: nat)
    requires |holds| == |steps| + 1 && holds[0] && k <= |steps|
    requires forall i :: 0 <= i < |steps| ==> holds[i + 1] == (holds[i] && steps[i])
    ensures holds[k] <==> forall j :: 0 <= j < k ==> steps[j]
  {
    if k > 0 {
      HoldsWhileSteps(holds, steps, k - 1);
    }
  }

  ghost function PrefixesWithoutGaps(stream: seq<Snapshot>, firstSince: real, polls: seq<Poll>): (flags: seq<bool>)
    ensures |flags| == |polls| + 1
    ensures forall k :: 0 <= k <= |polls| ==> flags[k] == NoGaps(CycleWindows(stream, firstSince, polls[..k]))
  {
    seq(|polls| + 1, k requires 0 <= k <= |polls| => NoGaps(CycleWindows(stream, firstSince, polls[..k])))
  }

  ghost function LookBacks(stream: seq<Snapshot>, firstSince: real, polls: seq<Poll>): (flags: seq<bool>)
    ensures |flags| == |polls|
    ensures forall k :: 0 <= k < |polls| ==> flags[k] == LooksBack(stream, firstSince, polls, k)
  {
    seq(|polls|, k requires 0 <= k < |polls| => LooksBack(stream, firstSince, polls, k))
  }

  /** Cycles, failed ones among them, leave no gaps exactly when each looks back far enough. */
  lemma {:induction false} NoGapsIffLookBack(stream: seq<Snapshot>, firstSince: real, polls: seq<Poll>)
    ensures NoGaps(CycleWindows(stream, firstSince, polls))
       <==> forall k :: 0 <= k < |polls| ==> LooksBack(stream, firstSince, polls, k)
  {
    var holds, steps := PrefixesWithoutGaps(stream, firstSince, polls), LookBacks(stream, firstSince, polls);
    forall i | 0 <= i < |polls| ensures holds[i + 1] == (holds[i] && steps[i]) {
      NoGapsNext(stream, firstSince, polls, i);
    }
    HoldsWhileSteps(holds, steps, |polls|);
    assert polls[..|polls|] == polls;
    assert forall k :: 0 <= k < |polls| ==> steps[k] == LooksBack(stream, firstSince, polls, k);
  }

  /** Equivalently: none of them skips a snapshot. */
  lemma {:induction false} NoGapsIffNoneSkipped(stream: seq<Snapshot>, firstSince: real, polls: seq<Poll>)
    ensures NoGaps(CycleWindows(stream, firstSince, polls))
       <==> forall k, i :: !SkippedBy(stream, firstSince, polls, k, i)
  {
    NoGapsIffLookBack(stream, firstSince, polls);
    if k :| 0 <= k < |polls| && !LooksBack(stream, firstSince, polls, k) {
      LooksBackIffSkipsNone(stream, firstSince, polls, k);
    } else {
      forall k: nat, i: nat ensures !SkippedBy(stream, firstSince, polls, k, i) {
        if k < |polls| {
          LooksBackIffSkipsNone(stream, firstSince, polls, k);
        }
      }
    }
  }

  /** When cycles start in order, what one skips is never scanned. */
  lemma {:induction false} SkippedForGood(
      stream: seq<Snapshot>, firstSince: real, polls: seq<Poll>, k: nat, i: nat, later: nat)
    requires SkippedBy(stream, firstSince, polls, k, i) && later < |polls|
    requires forall a, b :: 0 <= a < b < |polls| ==> polls[a].start <= polls[b].start
    requires polls[0].start - LOOKBACK_S >= firstSince
    ensures
      var w := Scanned(stream, SinceOf(firstSince, polls, later), polls[later]);
      w == CycleWindows(stream, firstSince, polls)[later] && !(w.from <= i < w.to)
  {
    WindowAt(stream, firstSince, polls, later);
    if later < k {
      ReachedAtLeast(stream, firstSince, polls, later, k);
    } else {
      FirstSinceGrows(stream, SinceOf(firstSince, polls, k), SinceOf(firstSince, polls, later));
    }
  }

  lemma {:induction false} WindowAt(stream: seq<Snapshot>, firstSince: real, polls: seq<Poll>, k: nat)
    requires k < |polls|
    ensures CycleWindows(stream, firstSince, polls)[k] == Scanned(stream, SinceOf(firstSince, polls, k), polls[k])
  {
    if k < |polls| - 1 {
      WindowAt(stream, firstSince, polls[..|polls| - 1], k);
    }
  }

  lemma {:induction false} ReachedAtLeast(
      stream: seq<Snapshot>, firstSince: real, polls: seq<Poll>, j: nat, k: nat)
    requires j < k <= |polls|
    ensures Scanned(stream, SinceOf(firstSince, polls, j), polls[j]).to <= Reached(stream, firstSince, polls, k)
  {
    if j < k - 1 {
      ReachedAtLeast(stream, firstSince, polls, j, k - 1);
    }
  }

  lemma {:induction false} FirstSinceGrows(stream: seq<Snapshot>, a: real, b: real)
    requires a <= b
    ensures FirstSince(stream, a) <= FirstSince(stream, b)
  {
  }

  // ------------------------------------------- starts and failures decide

  /** What is known of a cycle beforehand: when it starts, and whether it completes. */
  datatype Cycle = Cycle(start: real, completes: bool)

  /** These polls carry out the plan on this stream, which begins where the first query looks. */
  ghost predicate CarriesOut(stream: seq<Snapshot>, firstSince: real, polls: seq<Poll>, plan: seq<Cycle>) {
    && (forall i, j :: 0 <= i < j < |stream| ==> stream[i].ts <= stream[j].ts)
    && FirstSince(stream, firstSince) == 0
    && |polls| == |plan|
    && (forall k :: 0 <= k < |polls| ==> Follows(stream, polls[k], plan[k]))
    && (forall k :: 0 <= k < |polls| ==>
          polls[k].visible <= 100000 + FirstSince(stream, SinceOf(firstSince, polls, k)))
  }

  /** A cycle as planned: one that completes sees at least what was stamped before its start. */
  ghost predicate Follows(stream: seq<Snapshot>, poll: Poll, cycle: Cycle) {
    && poll.start == cycle.start
    && (poll.failedAfter == None <==> cycle.completes)
    && poll.visible <= |stream|
    && (cycle.completes ==> FirstSince(stream, poll.start) <= poll.visible)
  }

  /** Cycle j completes, no later than k, and started at most ten seconds before it. */
  ghost predicate Covers(plan: seq<Cycle>, j: nat, k: nat) {
    j <= k < |plan| && plan[j].completes && plan[k].start - 10.0 <= plan[j].start
  }

  /** The query after cycle k looks back to before the first one, or to before a completed cycle started. */
  ghost predicate Backed(plan: seq<Cycle>, firstSince: real, k: nat)
    requires k < |plan|
  {
    plan[k].start - 10.0 <= firstSince || exists j :: Covers(plan, j, k)
  }

  ghost predicate Safe(plan: seq<Cycle>, firstSince: real) {
    forall k :: 0 <= k < |plan| - 1 ==> Backed(plan, firstSince, k)
  }

  lemma {:induction false} CoverReaches(
      stream: seq<Snapshot>, firstSince: real, polls: seq<Poll>, plan: seq<Cycle>, j: nat, k: nat)
    requires CarriesOut(stream, firstSince, polls, plan) && 0 < k < |polls| && Covers(plan, j, k - 1)
    ensures FirstSince(stream, SinceOf(firstSince, polls, k))
         <= Scanned(stream, SinceOf(firstSince, polls, j), polls[j]).to
  {
    assert Follows(stream, polls[j], plan[j]) && Follows(stream, polls[k - 1], plan[k - 1]);
    FirstSinceGrows(stream, SinceOf(firstSince, polls, k), polls[j].start);
    CompletedReaches(stream, SinceOf(firstSince, polls, j), polls[j]);
  }

  /** A completed cycle within the query limit reaches everything it saw. */
  lemma CompletedReaches(stream: seq<Snapshot>, since: real, poll: Poll)
    requires poll.failedAfter == None && poll.visible <= QUERY_LIMIT + FirstSince(stream, since)
    ensures poll.visible <= Scanned(stream, since, poll).to
  {
  }

  lemma {:induction false} CoveredLooksBack(
      stream: seq<Snapshot>, firstSince: real, polls: seq<Poll>, plan: seq<Cycle>, j: nat, k: nat)
    requires CarriesOut(stream, firstSince, polls, plan) && 0 < k < |polls| && Covers(plan, j, k - 1)
    ensures LooksBack(stream, firstSince, polls, k)
  {
    CoverReaches(stream, firstSince, polls, plan, j, k);
    ReachedAtLeast(stream, firstSince, polls, j, k);
  }

  lemma {:induction false} EarlyLooksBack(
      stream: seq<Snapshot>, firstSince: real, polls: seq<Poll>, plan: seq<Cycle>, k: nat)
    requires CarriesOut(stream, firstSince, polls, plan) && k < |polls| && SinceOf(firstSince, polls, k) <= firstSince
    ensures LooksBack(stream, firstSince, polls, k)
  {
    FirstSinceGrows(stream, SinceOf(firstSince, polls, k), firstSince);
  }

  lemma {:induction false} BackedLooksBack(
      stream: seq<Snapshot>, firstSince: real, polls: seq<Poll>, plan: seq<Cycle>, k: nat)
    requires CarriesOut(stream, firstSince, polls, plan) && k < |polls|
    requires k > 0 ==> Backed(plan, firstSince, k - 1)
    ensures LooksBack(stream, firstSince, polls, k)
  {
    if SinceOf(firstSince, polls, k) <= firstSince {
      EarlyLooksBack(stream, firstSince, polls, plan, k);
    } else {
      var j :| Covers(plan, j, k - 1);
      CoveredLooksBack(stream, firstSince, polls, plan, j, k);
    }
  }

  /** A safe plan leaves no gaps, however long its cycles take and whatever its failed ones scanned. */
  lemma {:induction false} CursorsLeaveNoGaps(
      stream: seq<Snapshot>, firstSince: real, polls: seq<Poll>, plan: seq<Cycle>)
    requires CarriesOut(stream, firstSince, polls, plan) && Safe(plan, firstSince)
    ensures
      var windows := CycleWindows(stream, firstSince, polls);
      NoGaps(windows) && WithinStream(windows, |stream|) && Frontier(windows) <= |stream|
  {
    forall k | 0 <= k < |polls| ensures LooksBack(stream, firstSince, polls, k) {
      BackedLooksBack(stream, firstSince, polls, plan, k);
    }
    NoGapsIffLookBack(stream, firstSince, polls);
    forall k | 0 <= k < |polls|
      ensures var w := CycleWindows(stream, firstSince, polls)[k]; w.from <= w.to <= |stream|
    {
      WindowAt(stream, firstSince, polls, k);
    }
    FrontierWithin(CycleWindows(stream, firstSince, polls), |stream|);
  }

  /** Whatever the stream and whatever failed cycles scanned, carrying out the plan leaves no gaps. */
  ghost predicate NeverSkips(plan: seq<Cycle>, firstSince: real) {
    forall stream, polls :: CarriesOut(stream, firstSince, polls, plan) ==>
      NoGaps(CycleWindows(stream, firstSince, polls))
  }

  /**
   The cursors never skip a snapshot exactly when every query but the first looks back to
   before the first one, or to before the start of a cycle that completed.
   */
  lemma {:induction false} NeverSkipsIffSafe(plan: seq<Cycle>, firstSince: real)
    ensures NeverSkips(plan, firstSince) <==> Safe(plan, firstSince)
  {
    if Safe(plan, firstSince) {
      forall stream, polls | CarriesOut(stream, firstSince, polls, plan)
        ensures NoGaps(CycleWindows(stream, firstSince, polls))
      {
        CursorsLeaveNoGaps(stream, firstSince, polls, plan);
      }
    } else {
      var k :| 0 <= k < |plan| - 1 && !Backed(plan, firstSince, k);
      UnbackedSkips(plan, firstSince, k);
    }
  }

  /** The latest of the first look-back and the starts of the cycles completed by k. */
  function LastSeen(plan: seq<Cycle>, firstSince: real, k: nat): real
    requires k < |plan|
  {
    var before := if k == 0 then firstSince else LastSeen(plan, firstSince, k - 1);
    if plan[k].completes then Max(before, plan[k].start) else before
  }

  lemma {:induction false} LastSeenBounds(plan: seq<Cycle>, firstSince: real, k: nat, bound: real)
    requires k < |plan| && firstSince < bound
    requires forall j :: 0 <= j <= k && plan[j].completes ==> plan[j].start < bound
    ensures firstSince <= LastSeen(plan, firstSince, k) < bound
    ensures forall j :: 0 <= j <= k && plan[j].completes ==> plan[j].start <= LastSeen(plan, firstSince, k)
  {
    if k > 0 {
      LastSeenBounds(plan, firstSince, k - 1, bound);
    }
  }

  /** Cycles up to k that see nothing, and later ones that see the one snapshot there is. */
  function BlindUntil(plan: seq<Cycle>, k: nat): (polls: seq<Poll>)
    ensures |polls| == |plan|
    ensures forall i :: 0 <= i < |plan| ==>
      polls[i] == Poll(plan[i].start, if i <= k then 0 else 1, if plan[i].completes then None else Some(0))
  {
    seq(|plan|, i requires 0 <= i < |plan| =>
      Poll(plan[i].start, if i <= k then 0 else 1, if plan[i].completes then None else Some(0)))
  }

  /** A snapshot stamped when something was last seen is too old for the query after cycle k. */
  lemma {:induction false} UnbackedSkips(plan: seq<Cycle>, firstSince: real, k: nat)
    requires k + 1 < |plan| && !Backed(plan, firstSince, k)
    ensures !NeverSkips(plan, firstSince)
  {
    forall j | 0 <= j <= k && plan[j].completes ensures plan[j].start < plan[k].start - LOOKBACK_S {
      assert !Covers(plan, j, k);
    }
    LastSeenBounds(plan, firstSince, k, plan[k].start - LOOKBACK_S);
    var at := LastSeen(plan, firstSince, k);
    BlindCarriesOut(plan, firstSince, k, at);
    BlindSkips(at, firstSince, BlindUntil(plan, k), k + 1);
    NoGapsIffLookBack([Stamped(at)], firstSince, BlindUntil(plan, k));
  }

  lemma {:induction false} BlindCarriesOut(plan: seq<Cycle>, firstSince: real, k: nat, at: real)
    requires k < |plan| && firstSince <= at
    requires forall j :: 0 <= j <= k && plan[j].completes ==> plan[j].start <= at
    ensures CarriesOut([Stamped(at)], firstSince, BlindUntil(plan, k), plan)
  {
    OneSnapshotSince(at);
  }

  function Stamped(at: real): Snapshot { Snapshot("m", at, [], [], [], [], None, "") }

  lemma OneSnapshotSince(at: real)
    ensures forall since :: FirstSince([Stamped(at)], since) == if at >= since then 0 else 1
  {
    assert [Stamped(at)][1..] == [];
  }

  /** Cycles that see nothing before a query that starts too late: some query starts too late first. */
  lemma {:induction false} BlindSkips(at: real, firstSince: real, polls: seq<Poll>, k: nat)
    requires k < |polls| && at < SinceOf(firstSince, polls, k) && firstSince <= at
    requires forall i :: 0 <= i < k ==> polls[i].visible == 0
    ensures exists late :: 0 <= late < |polls| && !LooksBack([Stamped(at)], firstSince, polls, late)
  {
    OneSnapshotSince(at);
    if late :| 0 <= late < k && at < SinceOf(firstSince, polls, late) {
      BlindSkips(at, firstSince, polls, late);
    } else {
      BlindReachNothing([Stamped(at)], firstSince, polls, k);
      assert !LooksBack([Stamped(at)], firstSince, polls, k);
    }
  }

  lemma {:induction false} BlindReachNothing(stream: seq<Snapshot>, firstSince: real, polls: seq<Poll>, k: nat)
    requires k <= |polls|
    requires forall i :: 0 <= i < k ==>
      polls[i].visible == 0 && FirstSince(stream, SinceOf(firstSince, polls, i)) == 0
    ensures Reached(stream, firstSince, polls, k) == 0
  {
    if k > 0 {
      BlindReachNothing(stream, firstSince, polls, k - 1);
    }
  }
}

/** Maximum drawdown of a sequence of per-market results. */
module Drawdown {
  import opened Types

  /** Total of the first k results. */
  function Total(pnls: seq<real>, k: nat): real
    requires k <= |pnls|
  {
    if k == 0 then 0.0 else Total(pnls, k - 1) + pnls[k - 1]
  }

  /** Change of the running total between two moments. */
  function Change(pnls: seq<real>, i: nat, j: nat): real
    requires i <= j <= |pnls|
  {
    Total(pnls, j) - Total(pnls, i)
  }

  /** `d` is the worst fall from a running total to a later one (or none at all). */
  ghost predicate IsWorstFall(pnls: seq<real>, d: real) {
    && (forall i, j :: 0 <= i <= j <= |pnls| ==> d <= Change(pnls, i, j))
    && (exists i, j :: 0 <= i <= j <= |pnls| && d == Change(pnls, i, j))
  }

  /** The highest running total so far, zero at the start. */
  function Peak(pnls: seq<real>, k: nat): real
    requires k <= |pnls|
  {
    if k == 0 then 0.0 else Max(Peak(pnls, k - 1), Total(pnls, k))
  }

  function WorstFallTo(pnls: seq<real>, k: nat): real
    requires k <= |pnls|
  {
    if k == 0 then 0.0 else Min(WorstFallTo(pnls, k - 1), Total(pnls, k) - Peak(pnls, k))
  }

  function WorstFall(pnls: seq<real>): real { WorstFallTo(pnls, |pnls|) }

  lemma {:induction false} PeakIsHighest(pnls: seq<real>, k: nat) returns (top: nat)
    requires k <= |pnls|
    ensures top <= k && Peak(pnls, k) == Total(pnls, top)
    ensures forall i :: 0 <= i <= k ==> Total(pnls, i) <= Peak(pnls, k)
  {
    if k == 0 {
      top := 0;
    } else {
      top := PeakIsHighest(pnls, k - 1);
      if Peak(pnls, k) == Total(pnls, k) {
        top := k;
      }
    }
  }

  lemma {:induction false} WorstFallIsWorst(pnls: seq<real>, k: nat) returns (from: nat, to: nat)
    requires k <= |pnls|
    ensures from <= to <= k && WorstFallTo(pnls, k) == Change(pnls, from, to)
    ensures forall i, j :: 0 <= i <= j <= k ==> WorstFallTo(pnls, k) <= Change(pnls, i, j)
  {
    if k == 0 {
      from, to := 0, 0;
    } else {
      from, to := WorstFallIsWorst(pnls, k - 1);
      var top := PeakIsHighest(pnls, k);
      if Total(pnls, k) - Peak(pnls, k) < WorstFallTo(pnls, k - 1) {
        from, to := top, k;
      }
    }
  }

  method MaxDrawdown(pnls: seq<real>) returns (drawdown: real)
    ensures IsWorstFall(pnls, drawdown) && drawdown == WorstFall(pnls)
  {
    var peak, running := 0.0, 0.0;
    drawdown := 0.0;
    for k := 0 to |pnls|
      invariant running == Total(pnls, k) && peak == Peak(pnls, k) && drawdown == WorstFallTo(pnls, k)
    {
      running := running + pnls[k];
      if running > peak {
        peak := running;
      }
      drawdown := Min(drawdown, running - peak);
    }
    ghost var from, to := WorstFallIsWorst(pnls, |pnls|);
  }

  lemma {:induction false} TotalOfConcat(a: seq<real>, b: seq<real>, k: nat)
    requires k <= |a| + |b|
    ensures Total(a + b, k) == if k <= |a| then Total(a, k) else Total(a, |a|) + Total(b, k - |a|)
  {
    if k > 0 {
      TotalOfConcat(a, b, k - 1);
    }
  }

  /** A drawdown is never positive, and only gets worse in a longer history. */
  lemma {:induction false} ConcatIsNoBetter(a: seq<real>, b: seq<real>, da: real, db: real, dab: real)
    requires IsWorstFall(a, da) && IsWorstFall(b, db) && IsWorstFall(a + b, dab)
    ensures dab <= Min(da, db) <= 0.0
  {
    assert Change(a, 0, 0) == 0.0;
    var i, j :| 0 <= i <= j <= |a| && da == Change(a, i, j);
    TotalOfConcat(a, b, i);
    TotalOfConcat(a, b, j);
    assert Change(a + b, i, j) == da;
    var p, q :| 0 <= p <= q <= |b| && db == Change(b, p, q);
    TotalOfConcat(a, b, |a| + p);
    TotalOfConcat(a, b, |a| + q);
    assert Change(a + b, |a| + p, |a| + q) == db;
  }

  lemma WorstFallIsUnique(pnls: seq<real>, d: real, e: real)
    requires IsWorstFall(pnls, d) && IsWorstFall(pnls, e)
    ensures d == e
  {
  }
}

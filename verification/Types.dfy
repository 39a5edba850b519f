/** Values shared by the backtest, collector and paper-trading models. */
module Types {

  datatype Option<+T> = None | Some(value: T)

  datatype Level = Level(price: real, size: real)

  datatype Side = BuyYes | SellYes | BuyNo | SellNo {
    predicate IsBuy() { this == BuyYes || this == BuyNo }
  }

  datatype Snapshot = Snapshot(
    marketId: string,
    ts: real,
    yesBids: seq<Level>,
    yesAsks: seq<Level>,
    noBids: seq<Level>,
    noAsks: seq<Level>,
    underlyingPrice: Option<real>,
    underlyingTicker: string)

  /** What a strategy asks for: trade this side for this many USD. */
  datatype Action = Action(side: Side, sizeUsd: real)

  function Min(a: real, b: real): real { if a <= b then a else b }

  function Max(a: real, b: real): real { if a <= b then b else a }

  function Abs(a: real): real { if a < 0.0 then -a else a }

  function Sum(xs: seq<real>): real {
    if xs == [] then 0.0 else xs[0] + Sum(xs[1..])
  }

  lemma Pick<T>(s: set<T>) returns (x: T)
    requires s != {}
    ensures x in s
  {
    x :| x in s;
  }

  /** Induction over flags: the first holds, and each one carries the next. */
  lemma {:induction false} EachCarriesNext(flags: seq<bool>, k: nat)
    requires k < |flags| && flags[0] && forall i :: 0 <= i < |flags| - 1 && flags[i] ==> flags[i + 1]
    ensures flags[k]
  {
    if k > 0 {
      EachCarriesNext(flags, k - 1);
    }
  }
}

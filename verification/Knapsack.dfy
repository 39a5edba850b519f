/**
 Fractional knapsack over items sorted best rate first.  Walking an order book is
 this problem twice: a buy spends USD at `1 / price` shares per USD with room for
 `price * size` USD at each level, a sale spends shares at `price` USD per share
 with room for `size` shares.
 */
module Knapsack {
  import opened Reals
  import opened Types

  datatype Item = Item(rate: real, cap: real)

  ghost predicate Valid(items: seq<Item>) {
    forall i :: 0 <= i < |items| ==> items[i].cap >= 0.0
  }

  /** Rates never increase: the greedy walk meets the best one first. */
  ghost predicate BestFirst(items: seq<Item>) {
    forall i, j :: 0 <= i < j < |items| ==> items[j].rate <= items[i].rate
  }

  /** A knapsack that greedy solves: room everywhere, rates non-negative and never increasing. */
  ghost predicate Sorted(items: seq<Item>) {
    && Valid(items)
    && BestFirst(items)
    && (forall i :: 0 <= i < |items| ==> items[i].rate >= 0.0)
  }

  ghost predicate RatesAtMost(items: seq<Item>, r: real) {
    forall i :: 0 <= i < |items| ==> items[i].rate <= r
  }

  /** What some of the budget earns at an item. */
  function Gain(amount: real, item: Item): real { amount * item.rate }

  function Capacity(items: seq<Item>): real {
    if items == [] then 0.0 else items[0].cap + Capacity(items[1..])
  }

  /** What the greedy walk is worth for a given budget. */
  function Greedy(items: seq<Item>, budget: real): real {
    if items == [] then 0.0
    else if budget <= items[0].cap then Gain(budget, items[0])
    else Gain(items[0].cap, items[0]) + Greedy(items[1..], budget - items[0].cap)
  }

  /** How much of the budget the greedy walk puts to use. */
  function Used(items: seq<Item>, budget: real): real {
    if items == [] then 0.0
    else if budget <= items[0].cap then budget
    else items[0].cap + Used(items[1..], budget - items[0].cap)
  }

  /** The rate of the last item the walk touches. */
  function LastRate(items: seq<Item>, budget: real): real
    requires items != []
  {
    if budget <= items[0].cap || |items| == 1 then items[0].rate
    else LastRate(items[1..], budget - items[0].cap)
  }

  /** A way to spread a budget over the items. */
  ghost predicate Feasible(items: seq<Item>, budget: real, alloc: seq<real>) {
    && |alloc| == |items|
    && (forall i :: 0 <= i < |items| ==> 0.0 <= alloc[i] <= items[i].cap)
    && Sum(alloc) <= budget
  }

  ghost function Worth(items: seq<Item>, alloc: seq<real>): real
    requires |alloc| == |items|
  {
    if items == [] then 0.0 else Gain(alloc[0], items[0]) + Worth(items[1..], alloc[1..])
  }

  lemma {:induction false} UsedIsMin(items: seq<Item>, budget: real)
    requires Valid(items) && budget >= 0.0
    ensures Capacity(items) >= 0.0
    ensures Used(items, budget) == Min(budget, Capacity(items))
  {
    if items != [] {
      CapacityNonNegative(items[1..]);
      if budget > items[0].cap {
        UsedIsMin(items[1..], budget - items[0].cap);
      }
    }
  }

  lemma {:induction false} CapacityNonNegative(items: seq<Item>)
    requires Valid(items)
    ensures Capacity(items) >= 0.0
  {
    if items != [] {
      CapacityNonNegative(items[1..]);
    }
  }

  /** Nothing is gained beyond the capacity. */
  lemma {:induction false} Saturates(items: seq<Item>, budget: real)
    requires Valid(items) && budget >= 0.0
    ensures Greedy(items, budget) == Greedy(items, Used(items, budget))
  {
    if items != [] {
      var v := items[0].cap;
      if budget > v {
        UsedIsMin(items[1..], budget - v);
        Saturates(items[1..], budget - v);
        GreedyOfZero(items[1..]);
      }
    }
  }

  lemma GreedyOfZero(items: seq<Item>)
    requires Valid(items)
    ensures Greedy(items, 0.0) == 0.0
  {
  }

  /** One more unit of budget is worth at most the best rate. */
  lemma {:induction false} Lipschitz(items: seq<Item>, a: real, b: real, r: real)
    requires Valid(items) && RatesAtMost(items, r) && r >= 0.0
    requires 0.0 <= a <= b
    ensures Greedy(items, b) - Greedy(items, a) <= (b - a) * r
  {
    if items == [] {
      MulNonNegative(b - a, r);
    } else {
      var v, rest := items[0].cap, items[1..];
      if b <= v {
        RiseWithin(a, b, items[0], r);
      } else if a <= v {
        Lipschitz(rest, 0.0, b - v, r);
        GreedyOfZero(rest);
        RiseAcross(a, v, b, items[0], Greedy(rest, b - v), r);
      } else {
        Lipschitz(rest, a - v, b - v, r);
        assert (b - v) - (a - v) == b - a;
      }
    }
  }

  lemma RiseWithin(a: real, b: real, item: Item, r: real)
    requires a <= b && item.rate <= r
    ensures Gain(b, item) - Gain(a, item) <= (b - a) * r
  {
    MulMono(item.rate, r, b - a);
    assert b * item.rate - a * item.rate == item.rate * (b - a);
  }

  lemma RiseAcross(a: real, v: real, b: real, item: Item, g: real, r: real)
    requires a <= v <= b && item.rate <= r && g <= (b - v - 0.0) * r
    ensures Gain(v, item) + g - Gain(a, item) <= (b - a) * r
  {
    RiseWithin(a, v, item, r);
    assert (b - a) * r == (b - v) * r + (v - a) * r;
  }

  /** The greedy value is at most the budget used at the best rate. */
  lemma {:induction false} AtMostBestRate(items: seq<Item>, budget: real, r: real)
    requires Valid(items) && RatesAtMost(items, r) && r >= 0.0 && budget >= 0.0
    ensures Greedy(items, budget) <= Used(items, budget) * r
  {
    UsedIsMin(items, budget);
    Saturates(items, budget);
    GreedyOfZero(items);
    Lipschitz(items, 0.0, Used(items, budget), r);
  }

  /** The greedy value is at least the budget used at the last rate touched. */
  lemma {:induction false} AtLeastLastRate(items: seq<Item>, budget: real)
    requires Valid(items) && BestFirst(items) && items != [] && budget >= 0.0
    ensures Greedy(items, budget) >= Used(items, budget) * LastRate(items, budget)
  {
    var v := items[0].cap;
    if budget > v && |items| > 1 {
      AtLeastLastRate(items[1..], budget - v);
      LastRateIsLower(items, budget);
      AddAtLowerRate(v, Used(items[1..], budget - v), items[0], LastRate(items[1..], budget - v),
                     Greedy(items[1..], budget - v));
    }
  }

  lemma {:induction false} LastRateIsLower(items: seq<Item>, budget: real)
    requires BestFirst(items) && items != []
    ensures LastRate(items, budget) <= items[0].rate
  {
    if budget > items[0].cap && |items| > 1 {
      LastRateIsLower(items[1..], budget - items[0].cap);
    }
  }

  lemma AddAtLowerRate(v: real, u: real, item: Item, last: real, g: real)
    requires v >= 0.0 && last <= item.rate && g >= u * last
    ensures Gain(v, item) + g >= (v + u) * last
  {
  }

  lemma {:induction false} UsedAtRates(items: seq<Item>, budget: real, used: real, value: real, r: real)
    requires Sorted(items) && items != [] && budget >= 0.0
    requires used == Used(items, budget) && value == Greedy(items, budget) && r == LastRate(items, budget)
    ensures used >= 0.0
    ensures used * r <= value <= used * items[0].rate
  {
    UsedIsMin(items, budget);
    AtMostBestRate(items, budget, items[0].rate);
    AtLeastLastRate(items, budget);
  }

  /** `best` and `last` enclose the average price `usd / shares`. */
  ghost predicate Bracketed(usd: real, shares: real, best: real, last: real) {
    && 0.0 < best <= last
    && best * shares <= usd <= last * shares
    && usd >= 0.0
    && shares >= 0.0
    && (shares > 0.0 <==> usd > 0.0)
  }

  lemma Bracket(usd: real, shares: real, best: real, r0: real, last: real, r: real)
    requires usd >= 0.0 && 0.0 < best <= last && best * r0 == 1.0 && last * r == 1.0
    requires usd * r <= shares <= usd * r0
    ensures Bracketed(usd, shares, best, last)
  {
  }

  /** Rates are shares per USD: their reciprocals enclose the USD paid per share. */
  lemma {:induction false} PricesBracket(
      items: seq<Item>, budget: real, used: real, value: real, r: real, best: real, last: real)
    requires Sorted(items) && items != [] && budget >= 0.0
    requires used == Used(items, budget) && value == Greedy(items, budget) && r == LastRate(items, budget)
    requires 0.0 < best <= last && best * items[0].rate == 1.0 && last * r == 1.0
    ensures Bracketed(used, value, best, last)
  {
    UsedAtRates(items, budget, used, value, r);
    Bracket(used, value, best, items[0].rate, last, r);
  }

  /** Spending less than greedy on the first item and more on the rest never pays. */
  lemma {:induction false} FirstItemFirst(items: seq<Item>, budget: real, a: real)
    requires Sorted(items) && items != []
    requires 0.0 <= a <= items[0].cap && a <= budget
    ensures Gain(a, items[0]) + Greedy(items[1..], budget - a) <= Greedy(items, budget)
  {
    var r0, v, rest := items[0].rate, items[0].cap, items[1..];
    if budget <= v {
      Lipschitz(rest, 0.0, budget - a, r0);
      GreedyOfZero(rest);
    } else {
      Lipschitz(rest, budget - v, budget - a, r0);
    }
  }

  /** No way of spreading the budget is worth more than the greedy one. */
  lemma {:induction false} GreedyIsOptimal(items: seq<Item>, budget: real, alloc: seq<real>)
    requires Sorted(items)
    requires Feasible(items, budget, alloc)
    ensures Worth(items, alloc) <= Greedy(items, budget)
  {
    if items != [] {
      SumNonNegative(alloc[1..]);
      GreedyIsOptimal(items[1..], budget - alloc[0], alloc[1..]);
      FirstItemFirst(items, budget, alloc[0]);
    }
  }

  lemma {:induction false} SumNonNegative(xs: seq<real>)
    requires forall i :: 0 <= i < |xs| ==> xs[i] >= 0.0
    ensures Sum(xs) >= 0.0
  {
    if xs != [] {
      SumNonNegative(xs[1..]);
    }
  }

  ghost function GreedyAlloc(items: seq<Item>, budget: real): seq<real> {
    if items == [] then []
    else
      var take := Min(budget, items[0].cap);
      [take] + GreedyAlloc(items[1..], budget - take)
  }

  /** The greedy value is reached by a spread of the budget, so it is the optimum itself. */
  lemma {:induction false} GreedyIsAchieved(items: seq<Item>, budget: real)
    requires Valid(items) && budget >= 0.0
    ensures Feasible(items, budget, GreedyAlloc(items, budget))
    ensures Sum(GreedyAlloc(items, budget)) == Used(items, budget)
    ensures Worth(items, GreedyAlloc(items, budget)) == Greedy(items, budget)
  {
    if items != [] {
      var take := Min(budget, items[0].cap);
      GreedyIsAchieved(items[1..], budget - take);
      GreedyOfZero(items[1..]);
      UsedIsMin(items[1..], budget - take);
      var alloc := GreedyAlloc(items, budget);
      assert alloc[1..] == GreedyAlloc(items[1..], budget - take);
    }
  }

  /** Past a budget, one more unit is worth at most the last rate touched. */
  lemma {:induction false} MarginBelowLastRate(items: seq<Item>, a: real, more: real)
    requires Sorted(items) && items != [] && a >= 0.0 && more >= 0.0
    ensures Greedy(items, a + more) - Greedy(items, a) <= more * LastRate(items, a)
  {
    if a <= items[0].cap || |items| == 1 {
      MarginWithinFirst(items, a, more);
    } else {
      MarginBelowLastRate(items[1..], a - items[0].cap, more);
      PastFirst(items, a, more);
    }
  }

  lemma MarginWithinFirst(items: seq<Item>, a: real, more: real)
    requires Sorted(items) && items != [] && a >= 0.0 && more >= 0.0
    ensures Greedy(items, a + more) - Greedy(items, a) <= more * items[0].rate
  {
    Lipschitz(items, a, a + more, items[0].rate);
  }

  lemma PastFirst(items: seq<Item>, a: real, more: real)
    requires |items| > 1 && items[0].cap < a && more >= 0.0
    ensures LastRate(items, a) == LastRate(items[1..], a - items[0].cap)
    ensures Greedy(items, a + more) - Greedy(items, a)
         == Greedy(items[1..], a - items[0].cap + more) - Greedy(items[1..], a - items[0].cap)
  {
    assert a + more - items[0].cap == a - items[0].cap + more;
  }

  lemma Concave(a: real, b: real, ga: real, gb: real, r: real)
    requires 0.0 <= a <= b && gb - ga <= (b - a) * r && a * r <= ga
    ensures a * gb <= b * ga
  {
  }

  /** Value per unit of budget used never improves as the budget grows. */
  lemma {:induction false} Diminishing(items: seq<Item>, a: real, b: real)
    requires Sorted(items) && 0.0 <= a <= b
    ensures Used(items, a) <= Used(items, b)
    ensures Used(items, a) * Greedy(items, b) <= Used(items, b) * Greedy(items, a)
  {
    UsedIsMin(items, a);
    UsedIsMin(items, b);
    if items != [] {
      Saturates(items, a);
      Saturates(items, b);
      DiminishingWithin(items, Used(items, a), Used(items, b), Greedy(items, a), Greedy(items, b));
    }
  }

  lemma {:induction false} DiminishingWithin(items: seq<Item>, a: real, b: real, ga: real, gb: real)
    requires Sorted(items) && items != [] && 0.0 <= a <= b && a <= Capacity(items)
    requires ga == Greedy(items, a) && gb == Greedy(items, b)
    ensures a * gb <= b * ga
  {
    UsedIsMin(items, a);
    var r := LastRate(items, a);
    AtLeastLastRate(items, a);
    MarginBelowLastRate(items, a, b - a);
    Concave(a, b, ga, gb, r);
  }

  /** Each unit of value costs more as the budget grows. */
  lemma {:induction false} UnitCostGrows(items: seq<Item>, a: real, b: real)
    requires Sorted(items) && 0.0 <= a <= b && Greedy(items, a) > 0.0 && Greedy(items, b) > 0.0
    ensures Used(items, a) / Greedy(items, a) <= Used(items, b) / Greedy(items, b)
  {
    Diminishing(items, a, b);
    FractionOrder(Used(items, a), Greedy(items, a), Used(items, b), Greedy(items, b));
  }

  /** Each unit of budget used earns less as the budget grows. */
  lemma {:induction false} UnitGainFalls(items: seq<Item>, a: real, b: real)
    requires Sorted(items) && 0.0 <= a <= b && Used(items, a) > 0.0 && Used(items, b) > 0.0
    ensures Greedy(items, b) / Used(items, b) <= Greedy(items, a) / Used(items, a)
  {
    Diminishing(items, a, b);
    FractionOrder(Greedy(items, b), Used(items, b), Greedy(items, a), Used(items, a));
  }
}

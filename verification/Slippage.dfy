/**
 Fills simulated by walking the order book, and what they cost.
 `WalkBook` and `WalkBookToSellShares` are the two loops; `BuyFill` and `SellFill`
 say what they compute, and the lemmas say what that is worth.
 */
module Slippage {
  import opened Types
  import opened Knapsack
  import opened Reals

  /** Average price, USD changing hands, slippage in basis points. */
  datatype Fill = Fill(avgPrice: real, usd: real, slippageBps: real)

  datatype Totals = Totals(usd: real, shares: real)

  function BookForSide(snap: Snapshot, side: Side): seq<Level> {
    match side
    case BuyYes => snap.yesAsks
    case SellYes => snap.yesBids
    case BuyNo => snap.noAsks
    case SellNo => snap.noBids
  }

  predicate Tradable(levels: seq<Level>) {
    levels != [] && 0.0 < levels[0].price < 1.0
  }

  /** Levels carry no negative price or size. */
  ghost predicate Sound(levels: seq<Level>) {
    forall i :: 0 <= i < |levels| ==> levels[i].price >= 0.0 && levels[i].size >= 0.0
  }

  /** Best (lowest) ask first. */
  ghost predicate AskBook(levels: seq<Level>) {
    && Sound(levels)
    && forall i, j :: 0 <= i < j < |levels| ==> levels[i].price <= levels[j].price
  }

  /** Best (highest) bid first. */
  ghost predicate BidBook(levels: seq<Level>) {
    && Sound(levels)
    && forall i, j :: 0 <= i < j < |levels| ==> levels[j].price <= levels[i].price
  }

  /** USD value resting at a level. */
  function Notional(level: Level): real { level.price * level.size }

  function SharesFor(usd: real, level: Level): real
    requires level.price != 0.0
  {
    usd / level.price
  }

  function UsdFor(shares: real, level: Level): real { shares * level.price }

  /** Summary of a finished walk against the best price. */
  function FillOf(t: Totals, best: real): Fill
    requires t.shares != 0.0
  {
    var avg := t.usd / t.shares;
    Fill(avg, t.usd, Abs(avg - best) * 10000.0)
  }

  lemma FillOfBounds(t: Totals, best: real, lo: real, hi: real)
    requires t.shares > 0.0 && lo * t.shares <= t.usd <= hi * t.shares
    ensures lo <= FillOf(t, best).avgPrice <= hi
    ensures FillOf(t, best).avgPrice * t.shares == t.usd
    ensures best <= lo ==> FillOf(t, best).slippageBps == (FillOf(t, best).avgPrice - best) * 10000.0
    ensures hi <= best ==> FillOf(t, best).slippageBps == (best - FillOf(t, best).avgPrice) * 10000.0
  {
    DivBounds(t.usd, t.shares, lo, hi);
    DivTimes(t.usd, t.shares);
  }

  // ---------------------------------------------------------------- buying

  /**
   USD spent and shares received.  A division by a zero price cannot happen: past the
   first level some USD always remain, and a free level never holds that many.
   */
  function BuyTotals(levels: seq<Level>, usd: real): Totals
    requires levels != [] ==> usd > 0.0 || levels[0].price > 0.0
  {
    if levels == [] then Totals(0.0, 0.0)
    else
      var available := Notional(levels[0]);
      if usd <= available then Totals(usd, SharesFor(usd, levels[0]))
      else
        var rest := BuyTotals(levels[1..], usd - available);
        Totals(available + rest.usd, levels[0].size + rest.shares)
  }

  function BuyFill(levels: seq<Level>, usd: real): Option<Fill> {
    if !Tradable(levels) then None
    else
      var t := BuyTotals(levels, usd);
      if t.shares == 0.0 then None else Some(FillOf(t, levels[0].price))
  }

  method WalkBook(snap: Snapshot, side: Side, sizeUsd: real) returns (fill: Option<Fill>)
    ensures fill == BuyFill(BookForSide(snap, side), sizeUsd)
  {
    var levels := BookForSide(snap, side);
    if levels == [] {
      return None;
    }
    var best := levels[0].price;
    if best <= 0.0 || best >= 1.0 {
      return None;
    }
    var remainingUsd := sizeUsd;
    var totalCost, totalShares, filledUsd := 0.0, 0.0, 0.0;
    ghost var all := BuyTotals(levels, sizeUsd);
    var i := 0;
    while i < |levels|
      invariant 0 <= i <= |levels|
      invariant i > 0 ==> remainingUsd > 0.0
      invariant i == 0 ==> remainingUsd == sizeUsd
      invariant filledUsd == totalCost
      invariant all.usd == totalCost + BuyTotals(levels[i..], remainingUsd).usd
      invariant all.shares == totalShares + BuyTotals(levels[i..], remainingUsd).shares
    {
      var level := levels[i];
      assert levels[i..][1..] == levels[i + 1..];
      var available := Notional(level);
      if remainingUsd <= available {
        var shares := SharesFor(remainingUsd, level);
        totalCost := totalCost + remainingUsd;
        totalShares := totalShares + shares;
        filledUsd := filledUsd + remainingUsd;
        remainingUsd := 0.0;
        break;
      }
      totalCost := totalCost + available;
      totalShares := totalShares + level.size;
      filledUsd := filledUsd + available;
      remainingUsd := remainingUsd - available;
      i := i + 1;
    }
    if totalShares == 0.0 {
      return None;
    }
    var avg := totalCost / totalShares;
    return Some(Fill(avg, filledUsd, Abs(avg - best) * 10000.0));
  }

  /** Seen by a buyer, a level turns USD into shares at `1 / price`, up to its USD worth. */
  function BuyItem(level: Level): Item
    requires level.price > 0.0
  {
    Item(1.0 / level.price, Notional(level))
  }

  lemma BuyItemOrder(l: Level, m: Level)
    requires 0.0 < l.price <= m.price && l.size >= 0.0
    ensures 0.0 < BuyItem(m).rate <= BuyItem(l).rate
    ensures BuyItem(l).cap >= 0.0
    ensures BuyItem(l).cap * BuyItem(l).rate == l.size
  {
  }

  function BuyItems(levels: seq<Level>): (items: seq<Item>)
    requires forall i :: 0 <= i < |levels| ==> levels[i].price > 0.0
    ensures |items| == |levels|
    ensures forall i :: 0 <= i < |levels| ==> items[i] == BuyItem(levels[i])
  {
    if levels == [] then [] else [BuyItem(levels[0])] + BuyItems(levels[1..])
  }

  /** USD the whole ask book can absorb. */
  function Depth(levels: seq<Level>): real {
    if levels == [] then 0.0 else Notional(levels[0]) + Depth(levels[1..])
  }

  /** Shares bought when `alloc[i]` USD are spent at level i. */
  ghost function SharesBought(levels: seq<Level>, alloc: seq<real>): real
    requires |alloc| == |levels|
    requires forall i :: 0 <= i < |levels| ==> levels[i].price > 0.0
  {
    if levels == [] then 0.0 else SharesFor(alloc[0], levels[0]) + SharesBought(levels[1..], alloc[1..])
  }

  /** A way to spend at most `usd`, within what each level offers. */
  ghost predicate Purchase(levels: seq<Level>, usd: real, alloc: seq<real>) {
    && |alloc| == |levels|
    && (forall i :: 0 <= i < |levels| ==> 0.0 <= alloc[i] <= Notional(levels[i]))
    && Sum(alloc) <= usd
  }

  /** The last level a purchase reaches. */
  function LastLevel(levels: seq<Level>, usd: real): (last: Level)
    requires levels != []
    ensures last in levels
  {
    var available := Notional(levels[0]);
    if usd <= available || |levels| == 1 then levels[0] else LastLevel(levels[1..], usd - available)
  }

  function LastAskTouched(levels: seq<Level>, usd: real): real
    requires levels != []
  {
    LastLevel(levels, usd).price
  }

  lemma {:induction false} BuyItemsSorted(levels: seq<Level>)
    requires AskBook(levels) && (levels != [] ==> levels[0].price > 0.0)
    ensures Sorted(BuyItems(levels))
  {
    var items := BuyItems(levels);
    forall i, j | 0 <= i <= j < |items|
      ensures 0.0 < items[j].rate <= items[i].rate && items[i].cap >= 0.0
    {
      BuyItemOrder(levels[i], levels[j]);
    }
  }

  lemma SharesForIsGain(usd: real, level: Level)
    requires level.price > 0.0
    ensures SharesFor(usd, level) == Gain(usd, BuyItem(level))
  {
  }

  lemma WholeLevel(level: Level)
    requires level.price > 0.0
    ensures Gain(Notional(level), BuyItem(level)) == level.size
  {
  }

  lemma {:induction false} BuyIsGreedy(levels: seq<Level>, usd: real)
    requires AskBook(levels) && (levels != [] ==> levels[0].price > 0.0) && usd >= 0.0
    ensures BuyTotals(levels, usd) == Totals(Used(BuyItems(levels), usd), Greedy(BuyItems(levels), usd))
  {
    if levels != [] {
      WholeLevel(levels[0]);
      SharesForIsGain(usd, levels[0]);
      if usd > Notional(levels[0]) {
        BuyIsGreedy(levels[1..], usd - Notional(levels[0]));
      }
    }
  }

  lemma {:induction false} DepthIsCapacity(levels: seq<Level>)
    requires forall i :: 0 <= i < |levels| ==> levels[i].price > 0.0
    ensures Capacity(BuyItems(levels)) == Depth(levels)
  {
    if levels != [] {
      DepthIsCapacity(levels[1..]);
    }
  }

  lemma {:induction false} LastLevelIsLastItem(levels: seq<Level>, usd: real)
    requires levels != [] && forall i :: 0 <= i < |levels| ==> levels[i].price > 0.0
    ensures LastLevel(levels, usd).price > 0.0
    ensures LastRate(BuyItems(levels), usd) == BuyItem(LastLevel(levels, usd)).rate
  {
    if usd > Notional(levels[0]) && |levels| > 1 {
      LastLevelIsLastItem(levels[1..], usd - Notional(levels[0]));
    }
  }

  lemma PriceTimesRate(level: Level, rate: real)
    requires level.price > 0.0 && rate == BuyItem(level).rate
    ensures level.price * rate == 1.0
  {
  }

  lemma LastAskAtLeast(levels: seq<Level>, usd: real)
    requires AskBook(levels) && levels != []
    ensures LastAskTouched(levels, usd) >= levels[0].price
  {
  }

  lemma {:induction false} SharesBoughtIsWorth(levels: seq<Level>, alloc: seq<real>)
    requires |alloc| == |levels|
    requires forall i :: 0 <= i < |levels| ==> levels[i].price > 0.0
    ensures SharesBought(levels, alloc) == Worth(BuyItems(levels), alloc)
  {
    if levels != [] {
      SharesForIsGain(alloc[0], levels[0]);
      SharesBoughtIsWorth(levels[1..], alloc[1..]);
    }
  }

  /** The walk in numbers: what is spent, and the two prices that bracket the average. */
  lemma {:induction false} BuySummary(levels: seq<Level>, usd: real)
    requires AskBook(levels) && Tradable(levels) && usd > 0.0
    ensures Depth(levels) >= 0.0
    ensures BuyTotals(levels, usd).usd == Min(usd, Depth(levels))
    ensures Bracketed(BuyTotals(levels, usd).usd, BuyTotals(levels, usd).shares,
                      levels[0].price, LastAskTouched(levels, usd))
  {
    BuyIsGreedy(levels, usd);
    BuyItemsSorted(levels);
    DepthIsCapacity(levels);
    UsedIsMin(BuyItems(levels), usd);
    GreedyIsBracketed(levels, usd);
  }

  lemma {:induction false} GreedyIsBracketed(levels: seq<Level>, usd: real)
    requires AskBook(levels) && Tradable(levels) && usd > 0.0
    ensures Bracketed(Used(BuyItems(levels), usd), Greedy(BuyItems(levels), usd),
                      levels[0].price, LastAskTouched(levels, usd))
  {
    BuyItemsSorted(levels);
    LastLevelIsLastItem(levels, usd);
    LastAskAtLeast(levels, usd);
    RatesBracket(BuyItems(levels), usd, levels[0], LastLevel(levels, usd));
  }

  /** When the first and last rates are those of two levels, their prices enclose the average. */
  lemma {:induction false} RatesBracket(items: seq<Item>, budget: real, first: Level, last: Level)
    requires Sorted(items) && items != [] && budget >= 0.0 && 0.0 < first.price <= last.price
    requires items[0].rate == BuyItem(first).rate && LastRate(items, budget) == BuyItem(last).rate
    ensures Bracketed(Used(items, budget), Greedy(items, budget), first.price, last.price)
  {
    var r := LastRate(items, budget);
    PriceTimesRate(first, items[0].rate);
    PriceTimesRate(last, r);
    PricesBracket(items, budget, Used(items, budget), Greedy(items, budget), r, first.price, last.price);
  }

  /**
   Exactly when a purchase fills, and for how much: on a thin book it fills partially,
   although the docstring announces None.
   */
  lemma {:induction false} BuyFillsWhatIsThere(levels: seq<Level>, usd: real)
    requires AskBook(levels) && usd > 0.0
    ensures BuyFill(levels, usd).Some? <==> Tradable(levels) && Depth(levels) > 0.0
    ensures BuyFill(levels, usd).Some? ==>
      var f := BuyFill(levels, usd).value;
      f.usd == Min(usd, Depth(levels)) && f.usd > 0.0 && f.avgPrice > 0.0
  {
    if Tradable(levels) {
      BuySummary(levels, usd);
      var t := BuyTotals(levels, usd);
      if t.shares > 0.0 {
        DivPositive(t.usd, t.shares);
      }
    }
  }

  /** No purchase within the budget gets more shares, and one gets exactly as many. */
  lemma {:induction false} BuyIsOptimal(levels: seq<Level>, usd: real)
    requires AskBook(levels) && usd > 0.0 && BuyFill(levels, usd).Some?
    ensures
      var f := BuyFill(levels, usd).value;
      && f.avgPrice != 0.0
      && (forall i :: 0 <= i < |levels| ==> levels[i].price > 0.0)
      && (forall alloc :: Purchase(levels, usd, alloc) ==> SharesBought(levels, alloc) <= f.usd / f.avgPrice)
      && (exists alloc :: Purchase(levels, usd, alloc) && Sum(alloc) == f.usd
                          && SharesBought(levels, alloc) == f.usd / f.avgPrice)
  {
    BuyFillsWhatIsThere(levels, usd);
    BuyItemsSorted(levels);
    BuyIsGreedy(levels, usd);
    var items, t := BuyItems(levels), BuyTotals(levels, usd);
    DivOfQuotient(t.usd, t.shares);
    forall alloc | Purchase(levels, usd, alloc)
      ensures SharesBought(levels, alloc) <= t.shares
    {
      NoPurchaseBeatsGreedy(levels, usd, alloc);
    }
    GreedyPurchase(levels, usd);
  }

  lemma {:induction false} NoPurchaseBeatsGreedy(levels: seq<Level>, usd: real, alloc: seq<real>)
    requires AskBook(levels) && Tradable(levels) && usd > 0.0 && Purchase(levels, usd, alloc)
    ensures SharesBought(levels, alloc) <= BuyTotals(levels, usd).shares
  {
    BuyItemsSorted(levels);
    BuyIsGreedy(levels, usd);
    SharesBoughtIsWorth(levels, alloc);
    GreedyIsOptimal(BuyItems(levels), usd, alloc);
  }

  lemma {:induction false} GreedyPurchase(levels: seq<Level>, usd: real)
    requires AskBook(levels) && Tradable(levels) && usd > 0.0
    ensures
      var alloc := GreedyAlloc(BuyItems(levels), usd);
      && Purchase(levels, usd, alloc)
      && Sum(alloc) == BuyTotals(levels, usd).usd
      && SharesBought(levels, alloc) == BuyTotals(levels, usd).shares
  {
    BuyItemsSorted(levels);
    BuyIsGreedy(levels, usd);
    GreedyIsAchieved(BuyItems(levels), usd);
    SharesBoughtIsWorth(levels, GreedyAlloc(BuyItems(levels), usd));
  }

  /** The average paid lies between the best price and the last price touched. */
  lemma {:induction false} BuyPriceBetween(levels: seq<Level>, usd: real)
    requires AskBook(levels) && usd > 0.0 && BuyFill(levels, usd).Some?
    ensures
      var f := BuyFill(levels, usd).value;
      && levels[0].price <= f.avgPrice <= LastAskTouched(levels, usd)
      && f.slippageBps == (f.avgPrice - levels[0].price) * 10000.0
  {
    BuySummary(levels, usd);
    var t := BuyTotals(levels, usd);
    FillOfBounds(t, levels[0].price, levels[0].price, LastAskTouched(levels, usd));
  }

  /** A larger order never gets a better average price or less slippage. */
  lemma {:induction false} BuyPriceGrows(levels: seq<Level>, a: real, b: real)
    requires AskBook(levels) && 0.0 < a <= b && BuyFill(levels, a).Some?
    ensures BuyFill(levels, b).Some?
    ensures
      var f, g := BuyFill(levels, a).value, BuyFill(levels, b).value;
      f.avgPrice <= g.avgPrice && f.slippageBps <= g.slippageBps && f.usd <= g.usd
  {
    BuyFillsWhatIsThere(levels, a);
    BuyFillsWhatIsThere(levels, b);
    AveragesGrow(levels, a, b);
    BuyPriceBetween(levels, a);
    BuyPriceBetween(levels, b);
  }

  lemma {:induction false} AveragesGrow(levels: seq<Level>, a: real, b: real)
    requires AskBook(levels) && 0.0 < a <= b && BuyFill(levels, a).Some? && BuyFill(levels, b).Some?
    ensures BuyFill(levels, a).value.avgPrice <= BuyFill(levels, b).value.avgPrice
  {
    SharesNotNegative(levels, a);
    SharesNotNegative(levels, b);
    AveragesOrdered(levels, a, b);
  }

  lemma {:induction false} AveragesOrdered(levels: seq<Level>, a: real, b: real)
    requires AskBook(levels) && Tradable(levels) && 0.0 < a <= b
    requires BuyTotals(levels, a).shares > 0.0 && BuyTotals(levels, b).shares > 0.0
    ensures FillOf(BuyTotals(levels, a), levels[0].price).avgPrice
         <= FillOf(BuyTotals(levels, b), levels[0].price).avgPrice
  {
    BuyItemsSorted(levels);
    BuyIsGreedy(levels, a);
    BuyIsGreedy(levels, b);
    UnitCostGrows(BuyItems(levels), a, b);
  }

  lemma {:induction false} SharesNotNegative(levels: seq<Level>, usd: real)
    requires AskBook(levels) && Tradable(levels) && usd > 0.0
    ensures BuyTotals(levels, usd).shares >= 0.0
  {
    BuySummary(levels, usd);
  }

  /** A one-level book worth 5 USD answers a 100 USD order with a 5 USD fill. */
  lemma ThinBookStillFills()
    ensures BuyFill([Level(0.5, 10.0)], 100.0) == Some(Fill(0.5, 5.0, 0.0))
  {
  }

  // --------------------------------------------------------------- selling

  function SellTotals(levels: seq<Level>, shares: real): Totals {
    if levels == [] then Totals(0.0, 0.0)
    else
      var take := Min(shares, levels[0].size);
      var rest := if shares - take <= 0.0 then Totals(0.0, 0.0) else SellTotals(levels[1..], shares - take);
      Totals(UsdFor(take, levels[0]) + rest.usd, take + rest.shares)
  }

  function SellFill(levels: seq<Level>, shares: real): Option<Fill> {
    if shares <= 0.0 || !Tradable(levels) then None
    else
      var t := SellTotals(levels, shares);
      if t.shares <= 0.0 then None else Some(FillOf(t, levels[0].price))
  }

  method WalkBookToSellShares(snap: Snapshot, side: Side, shares: real) returns (fill: Option<Fill>)
    ensures fill == SellFill(BookForSide(snap, side), shares)
  {
    var levels := BookForSide(snap, side);
    if levels == [] || shares <= 0.0 {
      return None;
    }
    var best := levels[0].price;
    if best <= 0.0 || best >= 1.0 {
      return None;
    }
    var remainingShares := shares;
    var totalUsd, totalSharesTaken := 0.0, 0.0;
    ghost var all := SellTotals(levels, shares);
    var i := 0;
    while i < |levels|
      invariant 0 <= i <= |levels|
      invariant all.usd == totalUsd + SellTotals(levels[i..], remainingShares).usd
      invariant all.shares == totalSharesTaken + SellTotals(levels[i..], remainingShares).shares
    {
      var level := levels[i];
      assert levels[i..][1..] == levels[i + 1..];
      var takeShares := Min(remainingShares, level.size);
      totalUsd := totalUsd + UsdFor(takeShares, level);
      totalSharesTaken := totalSharesTaken + takeShares;
      remainingShares := remainingShares - takeShares;
      i := i + 1;
      if remainingShares <= 0.0 {
        break;
      }
    }
    if totalSharesTaken <= 0.0 {
      return None;
    }
    var avg := totalUsd / totalSharesTaken;
    return Some(Fill(avg, totalUsd, Abs(avg - best) * 10000.0));
  }

  function SellItems(levels: seq<Level>): (items: seq<Item>)
    ensures |items| == |levels|
    ensures forall i :: 0 <= i < |levels| ==> items[i] == Item(levels[i].price, levels[i].size)
  {
    if levels == [] then [] else [Item(levels[0].price, levels[0].size)] + SellItems(levels[1..])
  }

  function SharesOffered(levels: seq<Level>): real {
    if levels == [] then 0.0 else levels[0].size + SharesOffered(levels[1..])
  }

  /** USD received when `alloc[i]` shares are sold at level i. */
  ghost function Proceeds(levels: seq<Level>, alloc: seq<real>): real
    requires |alloc| == |levels|
  {
    if levels == [] then 0.0 else UsdFor(alloc[0], levels[0]) + Proceeds(levels[1..], alloc[1..])
  }

  /** A way to sell at most `shares`, within what each level takes. */
  ghost predicate Sale(levels: seq<Level>, shares: real, alloc: seq<real>) {
    && |alloc| == |levels|
    && (forall i :: 0 <= i < |levels| ==> 0.0 <= alloc[i] <= levels[i].size)
    && Sum(alloc) <= shares
  }

  lemma SellItemsSorted(levels: seq<Level>)
    requires BidBook(levels)
    ensures Sorted(SellItems(levels))
  {
  }

  lemma UsdForIsGain(shares: real, level: Level)
    ensures UsdFor(shares, level) == Gain(shares, Item(level.price, level.size))
  {
  }

  lemma {:induction false} SellIsGreedy(levels: seq<Level>, shares: real)
    requires BidBook(levels) && shares >= 0.0
    ensures SellTotals(levels, shares) == Totals(Greedy(SellItems(levels), shares), Used(SellItems(levels), shares))
  {
    if levels != [] {
      UsdForIsGain(Min(shares, levels[0].size), levels[0]);
      if shares > levels[0].size {
        SellIsGreedy(levels[1..], shares - levels[0].size);
      }
    }
  }

  lemma {:induction false} OfferedIsCapacity(levels: seq<Level>)
    ensures Capacity(SellItems(levels)) == SharesOffered(levels)
  {
    if levels != [] {
      OfferedIsCapacity(levels[1..]);
    }
  }

  lemma {:induction false} ProceedsIsWorth(levels: seq<Level>, alloc: seq<real>)
    requires |alloc| == |levels|
    ensures Proceeds(levels, alloc) == Worth(SellItems(levels), alloc)
  {
    if levels != [] {
      ProceedsIsWorth(levels[1..], alloc[1..]);
    }
  }

  lemma {:induction false} SellSummary(levels: seq<Level>, shares: real)
    requires BidBook(levels) && Tradable(levels) && shares > 0.0
    ensures SellTotals(levels, shares).shares == Min(shares, SharesOffered(levels))
    ensures 0.0 <= SellTotals(levels, shares).usd <= levels[0].price * SellTotals(levels, shares).shares
  {
    var items := SellItems(levels);
    SellItemsSorted(levels);
    SellIsGreedy(levels, shares);
    OfferedIsCapacity(levels);
    UsedIsMin(items, shares);
    AtMostBestRate(items, shares, items[0].rate);
    GreedyNonNegative(items, shares);
  }

  /** A sale fills exactly when someone bids, for as many shares as are bid for. */
  lemma {:induction false} SellFillsWhatIsThere(levels: seq<Level>, shares: real)
    requires BidBook(levels) && shares > 0.0
    ensures SellFill(levels, shares).Some? <==> Tradable(levels) && SharesOffered(levels) > 0.0
    ensures SellFill(levels, shares).Some? ==>
      var f := SellFill(levels, shares).value;
      && f.avgPrice * Min(shares, SharesOffered(levels)) == f.usd
      && 0.0 <= f.avgPrice <= levels[0].price
      && f.slippageBps == (levels[0].price - f.avgPrice) * 10000.0
  {
    if Tradable(levels) {
      SellSummary(levels, shares);
      if SharesOffered(levels) > 0.0 {
        FillOfBounds(SellTotals(levels, shares), levels[0].price, 0.0, levels[0].price);
      }
    }
  }

  /** The price of the last bid a sale reaches. */
  function LastBidTouched(levels: seq<Level>, shares: real): real
    requires levels != []
  {
    if shares <= levels[0].size || |levels| == 1 then levels[0].price
    else LastBidTouched(levels[1..], shares - levels[0].size)
  }

  lemma {:induction false} LastBidIsLastRate(levels: seq<Level>, shares: real)
    requires levels != []
    ensures LastRate(SellItems(levels), shares) == LastBidTouched(levels, shares)
  {
    if shares > levels[0].size && |levels| > 1 {
      LastBidIsLastRate(levels[1..], shares - levels[0].size);
    }
  }

  /** The average received lies between the last bid touched and the best one. */
  lemma {:induction false} SellPriceBetween(levels: seq<Level>, shares: real)
    requires BidBook(levels) && shares > 0.0 && Tradable(levels) && SharesOffered(levels) > 0.0
    ensures SellFill(levels, shares).Some?
    ensures LastBidTouched(levels, shares) <= SellFill(levels, shares).value.avgPrice <= levels[0].price
  {
    SellTotalsBetween(levels, shares);
    SellFillsWhatIsThere(levels, shares);
    FillOfBounds(SellTotals(levels, shares), levels[0].price, LastBidTouched(levels, shares), levels[0].price);
  }

  lemma {:induction false} SellTotalsBetween(levels: seq<Level>, shares: real)
    requires BidBook(levels) && shares > 0.0 && Tradable(levels)
    ensures LastBidTouched(levels, shares) * SellTotals(levels, shares).shares
         <= SellTotals(levels, shares).usd <= levels[0].price * SellTotals(levels, shares).shares
  {
    var items := SellItems(levels);
    SellItemsSorted(levels);
    SellIsGreedy(levels, shares);
    LastBidIsLastRate(levels, shares);
    UsedAtRates(items, shares, Used(items, shares), Greedy(items, shares), LastRate(items, shares));
  }

  lemma {:induction false} GreedyNonNegative(items: seq<Item>, budget: real)
    requires Sorted(items) && budget >= 0.0
    ensures Greedy(items, budget) >= 0.0
  {
    if items != [] && budget > items[0].cap {
      GreedyNonNegative(items[1..], budget - items[0].cap);
    }
  }

  /** No sale of at most that many shares brings more USD, and one brings exactly as much. */
  lemma {:induction false} SellIsOptimal(levels: seq<Level>, shares: real)
    requires BidBook(levels) && shares > 0.0 && Tradable(levels) && SharesOffered(levels) > 0.0
    ensures SellFill(levels, shares).Some?
    ensures forall alloc :: Sale(levels, shares, alloc) ==>
      Proceeds(levels, alloc) <= SellFill(levels, shares).value.usd
    ensures exists alloc :: Sale(levels, shares, alloc) && Sum(alloc) == Min(shares, SharesOffered(levels))
                            && Proceeds(levels, alloc) == SellFill(levels, shares).value.usd
  {
    SellFillsWhatIsThere(levels, shares);
    SellItemsSorted(levels);
    SellIsGreedy(levels, shares);
    OfferedIsCapacity(levels);
    var items := SellItems(levels);
    UsedIsMin(items, shares);
    forall alloc | Sale(levels, shares, alloc)
      ensures Proceeds(levels, alloc) <= SellFill(levels, shares).value.usd
    {
      ProceedsIsWorth(levels, alloc);
      GreedyIsOptimal(items, shares, alloc);
    }
    var best := GreedyAlloc(items, shares);
    GreedyIsAchieved(items, shares);
    ProceedsIsWorth(levels, best);
    assert Sale(levels, shares, best);
  }

  /** Selling more shares never raises the average price. */
  lemma {:induction false} SellPriceFalls(levels: seq<Level>, a: real, b: real)
    requires BidBook(levels) && 0.0 < a <= b && Tradable(levels) && SharesOffered(levels) > 0.0
    ensures SellFill(levels, a).Some? && SellFill(levels, b).Some?
    ensures
      var f, g := SellFill(levels, a).value, SellFill(levels, b).value;
      g.avgPrice <= f.avgPrice && f.slippageBps <= g.slippageBps && f.usd <= g.usd
  {
    SellFillsWhatIsThere(levels, a);
    SellFillsWhatIsThere(levels, b);
    AveragesFall(levels, a, b);
  }

  lemma {:induction false} AveragesFall(levels: seq<Level>, a: real, b: real)
    requires BidBook(levels) && 0.0 < a <= b && SellFill(levels, a).Some? && SellFill(levels, b).Some?
    ensures SellFill(levels, b).value.avgPrice <= SellFill(levels, a).value.avgPrice
    ensures SellFill(levels, a).value.usd <= SellFill(levels, b).value.usd
  {
    SellItemsSorted(levels);
    SellIsGreedy(levels, a);
    SellIsGreedy(levels, b);
    UnitGainFalls(SellItems(levels), a, b);
    GreedyGrows(SellItems(levels), a, b);
  }

  lemma {:induction false} GreedyGrows(items: seq<Item>, a: real, b: real)
    requires Sorted(items) && 0.0 <= a <= b
    ensures Greedy(items, a) <= Greedy(items, b)
  {
    if items != [] {
      var r0, v := items[0].rate, items[0].cap;
      if b <= v {
        MulMono(a, b, r0);
      } else if a <= v {
        MulMono(a, v, r0);
        GreedyNonNegative(items[1..], b - v);
      } else {
        GreedyGrows(items[1..], a - v, b - v);
      }
    }
  }

  // ------------------------------------------------------------ round trip

  /**
   Buying and selling everything back into the same uncrossed book never makes money.
   `usd / avgPrice` is how a close computes the shares it holds.
   */
  lemma {:induction false} RoundTripNeverProfits(asks: seq<Level>, bids: seq<Level>, usd: real)
    requires AskBook(asks) && BidBook(bids) && usd > 0.0
    requires asks != [] && bids != [] ==> bids[0].price <= asks[0].price
    requires BuyFill(asks, usd).Some? && BuyFill(asks, usd).value.avgPrice > 0.0
    ensures
      var bought := BuyFill(asks, usd).value;
      var sold := SellFill(bids, bought.usd / bought.avgPrice);
      sold.Some? ==> sold.value.usd <= bought.usd <= usd
  {
    BuyFillsWhatIsThere(asks, usd);
    BuyPriceBetween(asks, usd);
    Resale(bids, BuyFill(asks, usd).value);
  }

  lemma {:induction false} Resale(bids: seq<Level>, bought: Fill)
    requires BidBook(bids) && bought.usd > 0.0 && bought.avgPrice > 0.0
    requires bids != [] ==> bids[0].price <= bought.avgPrice
    ensures
      var sold := SellFill(bids, bought.usd / bought.avgPrice);
      sold.Some? ==> sold.value.usd <= bought.usd
  {
    var shares := bought.usd / bought.avgPrice;
    DivTimes(bought.usd, bought.avgPrice);
    DivPositive(bought.usd, bought.avgPrice);
    SellFillsWhatIsThere(bids, shares);
    if SellFill(bids, shares).Some? {
      BuyHighSellLow(SellFill(bids, shares).value.avgPrice, bought.avgPrice, Min(shares, SharesOffered(bids)), shares);
    }
  }

  lemma BuyHighSellLow(soldAt: real, boughtAt: real, sold: real, bought: real)
    requires 0.0 <= soldAt <= boughtAt && sold <= bought && bought >= 0.0
    ensures soldAt * sold <= boughtAt * bought
  {
  }

  // ------------------------------------------------- settlement and fees

  function SettlementPayoff(side: Side, avgFillPrice: real, filledUsd: real, yesResolvedPrice: real): real {
    var shares := if avgFillPrice > 0.0 then filledUsd / avgFillPrice else 0.0;
    match side
    case BuyYes => shares * (yesResolvedPrice - avgFillPrice)
    case SellYes => shares * (avgFillPrice - yesResolvedPrice)
    case BuyNo => shares * (1.0 - yesResolvedPrice - avgFillPrice)
    case SellNo => shares * (avgFillPrice - (1.0 - yesResolvedPrice))
  }

  const POLYMARKET_TAKER_BPS_AT_MIDPOINT: real := 180.0
  const KALSHI_FEE_BPS: real := 7.0

  datatype Platform = Kalshi | Polymarket | OtherPlatform

  function PlatformFee(platform: Platform, notionalUsd: real, fillPrice: real): real {
    match platform
    case Kalshi => notionalUsd * KALSHI_FEE_BPS / 10000.0
    case Polymarket =>
      var scale := Min(fillPrice, 1.0 - fillPrice) * 2.0;
      notionalUsd * (POLYMARKET_TAKER_BPS_AT_MIDPOINT / 10000.0) * scale
    case OtherPlatform => 0.0
  }

  /** The fee peaks at 1.8% at the midpoint, vanishes at both edges and treats YES and NO alike. */
  lemma PolymarketFeeShape(notional: real, p: real, q: real)
    requires notional >= 0.0 && 0.0 <= p <= q <= 0.5
    ensures PlatformFee(Polymarket, notional, p) <= PlatformFee(Polymarket, notional, q)
    ensures PlatformFee(Polymarket, notional, p) == PlatformFee(Polymarket, notional, 1.0 - p)
    ensures PlatformFee(Polymarket, notional, 0.0) == 0.0
    ensures PlatformFee(Polymarket, notional, 0.5) == notional * 0.018
  {
  }
}

/**
 The live order book of one market: full snapshots and deltas folded into four
 price-to-size maps, from which rows are emitted.
 */
module MarketBooks {
  import opened Types
  import Slippage
  import Engine

  /** Any asset other than YES is filed under NO. */
  datatype Asset = Yes | No

  /** Any order side other than BUY is an ask. */
  datatype BookSide = Bids | Asks

  datatype Event =
    | Full(asset: Asset, bids: seq<Level>, asks: seq<Level>)
    | Delta(asset: Asset, side: BookSide, price: real, size: real)

  type Ladder = map<real, real>

  datatype Books = Books(yesBids: Ladder, yesAsks: Ladder, noBids: Ladder, noAsks: Ladder) {
    function Side(asset: Asset, side: BookSide): Ladder {
      match (asset, side)
      case (Yes, Bids) => yesBids
      case (Yes, Asks) => yesAsks
      case (No, Bids) => noBids
      case (No, Asks) => noAsks
    }
  }

  const EMPTY := Books(map[], map[], map[], map[])

  /** A dict built from levels: a repeated price keeps its last size. */
  function LadderOf(levels: seq<Level>): Ladder {
    if levels == [] then map[]
    else
      var last := levels[|levels| - 1];
      LadderOf(levels[..|levels| - 1])[last.price := last.size]
  }

  function Replaced(b: Books, asset: Asset, bids: seq<Level>, asks: seq<Level>): Books {
    if asset.Yes? then b.(yesBids := LadderOf(bids), yesAsks := LadderOf(asks))
    else b.(noBids := LadderOf(bids), noAsks := LadderOf(asks))
  }

  function Written(m: Ladder, price: real, size: real): Ladder {
    if size <= 0.0 then m - {price} else m[price := size]
  }

  function Changed(b: Books, asset: Asset, side: BookSide, price: real, size: real): Books {
    match (asset, side)
    case (Yes, Bids) => b.(yesBids := Written(b.yesBids, price, size))
    case (Yes, Asks) => b.(yesAsks := Written(b.yesAsks, price, size))
    case (No, Bids) => b.(noBids := Written(b.noBids, price, size))
    case (No, Asks) => b.(noAsks := Written(b.noAsks, price, size))
  }

  function Apply(b: Books, e: Event): Books {
    match e
    case Full(asset, bids, asks) => Replaced(b, asset, bids, asks)
    case Delta(asset, side, price, size) => Changed(b, asset, side, price, size)
  }

  function After(log: seq<Event>): Books {
    if log == [] then EMPTY else Apply(After(log[..|log| - 1]), log[|log| - 1])
  }

  // ------------------------------------------------------------ best price

  predicate Better(side: BookSide, p: real, q: real) {
    if side.Bids? then p > q else p < q
  }

  ghost predicate IsBest(side: BookSide, prices: set<real>, b: real) {
    b in prices && forall p :: p in prices ==> p == b || Better(side, b, p)
  }

  lemma {:induction false} BestExists(side: BookSide, prices: set<real>)
    requires prices != {}
    ensures exists b :: IsBest(side, prices, b)
    decreases |prices|
  {
    var p := Pick(prices);
    var rest := prices - {p};
    if rest == {} {
      forall q | q in prices ensures q == p {
        assert q !in rest;
      }
      assert IsBest(side, prices, p);
    } else {
      BestExists(side, rest);
      var b :| IsBest(side, rest, b);
      var c := if Better(side, b, p) then b else p;
      forall q | q in prices ensures q == c || Better(side, c, q) {
        assert q != p ==> q in rest;
      }
      assert IsBest(side, prices, c);
    }
  }

  /** max of the bids, min of the asks. */
  function BestPrice(side: BookSide, prices: set<real>): (b: real)
    requires prices != {}
    ensures IsBest(side, prices, b)
  {
    BestExists(side, prices);
    var b :| b in prices && forall p :: p in prices ==> p == b || Better(side, b, p);
    b
  }

  function SortedLevels(side: BookSide, m: Ladder): seq<Level>
    decreases |m|
  {
    if m == map[] then []
    else
      var p := BestPrice(side, m.Keys);
      Shrinks(m, p);
      [Level(p, m[p])] + SortedLevels(side, m - {p})
  }

  lemma Shrinks(m: Ladder, p: real)
    requires p in m
    ensures |m - {p}| == |m| - 1
  {
  }

  function TopTen(levels: seq<Level>): seq<Level> { if |levels| <= 10 then levels else levels[..10] }

  function MidYes(b: Books): Option<real> {
    if b.yesBids == map[] || b.yesAsks == map[] then None
    else Some((BestPrice(Bids, b.yesBids.Keys) + BestPrice(Asks, b.yesAsks.Keys)) / 2.0)
  }

  // ------------------------------------------------------------- the class

  datatype Row = Row(
    marketId: string,
    ts: real,
    yesBids: seq<Level>,
    yesAsks: seq<Level>,
    noBids: seq<Level>,
    noAsks: seq<Level>,
    bestYesBid: Option<real>,
    bestYesAsk: Option<real>,
    midYes: Option<real>,
    spreadYes: Option<real>,
    ticker: string,
    underlyingPrice: Option<real>)

  class MarketBook {
    const marketId: string
    const ticker: string
    var yesBids: Ladder
    var yesAsks: Ladder
    var noBids: Ladder
    var noAsks: Ladder

    function Contents(): Books
      reads this
    {
      Books(yesBids, yesAsks, noBids, noAsks)
    }

    constructor (marketId: string, ticker: string)
      ensures Contents() == After([])
      ensures this.marketId == marketId && this.ticker == ticker
    {
      this.marketId, this.ticker := marketId, ticker;
      yesBids, yesAsks, noBids, noAsks := map[], map[], map[], map[];
    }

    method ReplaceFullBook(asset: Asset, bids: seq<Level>, asks: seq<Level>)
      modifies this
      ensures Contents() == Apply(old(Contents()), Full(asset, bids, asks))
    {
      var bidsDict, asksDict := LadderOf(bids), LadderOf(asks);
      if asset == Yes {
        yesBids := bidsDict;
        yesAsks := asksDict;
      } else {
        noBids := bidsDict;
        noAsks := asksDict;
      }
    }

    method ApplyDelta(asset: Asset, side: BookSide, price: real, size: real)
      modifies this
      ensures Contents() == Apply(old(Contents()), Delta(asset, side, price, size))
    {
      match (asset, side) {
        case (Yes, Bids) => yesBids := Written(yesBids, price, size);
        case (Yes, Asks) => yesAsks := Written(yesAsks, price, size);
        case (No, Bids) => noBids := Written(noBids, price, size);
        case (No, Asks) => noAsks := Written(noAsks, price, size);
      }
    }

    method CurrentMidYes() returns (mid: Option<real>)
      ensures mid == MidYes(Contents())
    {
      if yesBids == map[] || yesAsks == map[] {
        return None;
      }
      return Some((BestPrice(Bids, yesBids.Keys) + BestPrice(Asks, yesAsks.Keys)) / 2.0);
    }

    /** Each side of a row is the best ten levels, and its mid is the live one. */
    method ToRow(ts: real, underlyingPrice: Option<real>) returns (row: Row)
      ensures IsBestTen(Bids, yesBids, row.yesBids) && IsBestTen(Asks, yesAsks, row.yesAsks)
      ensures IsBestTen(Bids, noBids, row.noBids) && IsBestTen(Asks, noAsks, row.noAsks)
      ensures row.midYes == MidYes(Contents())
      ensures row.midYes.Some? ==>
        && row.bestYesBid.Some? && row.bestYesAsk.Some? && row.spreadYes.Some?
        && row.midYes.value == (row.bestYesBid.value + row.bestYesAsk.value) / 2.0
        && row.spreadYes.value == row.bestYesAsk.value - row.bestYesBid.value
      ensures row.bestYesBid == if row.yesBids == [] then None else Some(row.yesBids[0].price)
      ensures row.bestYesAsk == if row.yesAsks == [] then None else Some(row.yesAsks[0].price)
      ensures row.marketId == marketId && row.ticker == ticker && row.ts == ts && row.underlyingPrice == underlyingPrice
    {
      var yb, ya := TopTen(SortedLevels(Bids, yesBids)), TopTen(SortedLevels(Asks, yesAsks));
      var nb, na := TopTen(SortedLevels(Bids, noBids)), TopTen(SortedLevels(Asks, noAsks));
      TopTenIsBest(Bids, yesBids);
      TopTenIsBest(Asks, yesAsks);
      TopTenIsBest(Bids, noBids);
      TopTenIsBest(Asks, noAsks);
      var bestYesBid := if yb == [] then None else Some(yb[0].price);
      var bestYesAsk := if ya == [] then None else Some(ya[0].price);
      var both := bestYesBid.Some? && bestYesAsk.Some?;
      var mid := if both then Some((bestYesBid.value + bestYesAsk.value) / 2.0) else None;
      var spread := if both then Some(bestYesAsk.value - bestYesBid.value) else None;
      row := Row(marketId, ts, yb, ya, nb, na, bestYesBid, bestYesAsk, mid, spread, ticker, underlyingPrice);
    }
  }

  // -------------------------------------------------------- what rows hold

  /** Strictly best first. */
  ghost predicate StrictlySorted(side: BookSide, levels: seq<Level>) {
    forall i, j :: 0 <= i < j < |levels| ==> Better(side, levels[i].price, levels[j].price)
  }

  ghost predicate FromLadder(m: Ladder, levels: seq<Level>) {
    forall i :: 0 <= i < |levels| ==> levels[i].price in m && m[levels[i].price] == levels[i].size
  }

  /** The levels of the ladder with the ten best prices (or all of them), in order. */
  ghost predicate IsBestTen(side: BookSide, m: Ladder, levels: seq<Level>) {
    && |levels| == (if |m| <= 10 then |m| else 10)
    && StrictlySorted(side, levels)
    && FromLadder(m, levels)
    && (levels == [] <==> m == map[])
    && (levels != [] ==> levels[0].price == BestPrice(side, m.Keys))
    && (forall p :: p in m ==>
          || HasPrice(levels, p)
          || (forall i :: 0 <= i < |levels| ==> Better(side, levels[i].price, p)))
  }

  /** All levels of the ladder, strictly best first. */
  ghost predicate SortsAll(side: BookSide, m: Ladder, levels: seq<Level>) {
    && |levels| == |m|
    && StrictlySorted(side, levels)
    && FromLadder(m, levels)
    && forall p :: p in m ==> HasPrice(levels, p)
  }

  ghost predicate HasPrice(levels: seq<Level>, p: real) {
    exists i :: 0 <= i < |levels| && levels[i].price == p
  }

  lemma {:induction false} SortedLevelsAreSorted(side: BookSide, m: Ladder)
    ensures SortsAll(side, m, SortedLevels(side, m))
    decreases |m|
  {
    if m != map[] {
      var p := BestPrice(side, m.Keys);
      Shrinks(m, p);
      SortedLevelsAreSorted(side, m - {p});
      BestThenRest(side, m, p, SortedLevels(side, m - {p}));
    }
  }

  lemma BestThenRest(side: BookSide, m: Ladder, p: real, tail: seq<Level>)
    requires IsBest(side, m.Keys, p) && |m - {p}| == |m| - 1 && SortsAll(side, m - {p}, tail)
    ensures SortsAll(side, m, [Level(p, m[p])] + tail)
  {
    var levels := [Level(p, m[p])] + tail;
    forall i, j | 0 <= i < j < |levels| ensures Better(side, levels[i].price, levels[j].price) {
      assert levels[j] == tail[j - 1];
    }
    forall q | q in m ensures HasPrice(levels, q) {
      if q == p {
        assert levels[0].price == q;
      } else {
        assert HasPrice(tail, q);
        var i :| 0 <= i < |tail| && tail[i].price == q;
        assert levels[i + 1].price == q;
      }
    }
  }

  lemma {:induction false} TopTenIsBest(side: BookSide, m: Ladder)
    ensures IsBestTen(side, m, TopTen(SortedLevels(side, m)))
  {
    SortedLevelsAreSorted(side, m);
    var all := SortedLevels(side, m);
    var levels := TopTen(all);
    forall p | p in m
      ensures || HasPrice(levels, p)
              || (forall i :: 0 <= i < |levels| ==> Better(side, levels[i].price, p))
    {
      assert HasPrice(all, p);
      var k :| 0 <= k < |all| && all[k].price == p;
      if k < |levels| {
        assert levels[k].price == p;
      }
    }
  }

  /** There is only one way to be the best ten. */
  lemma {:induction false} BestTenIsUnique(side: BookSide, m: Ladder, a: seq<Level>, b: seq<Level>, i: nat)
    requires IsBestTen(side, m, a) && IsBestTen(side, m, b) && i < |a|
    ensures a[i] == b[i]
  {
    if i > 0 {
      BestTenIsUnique(side, m, a, b, i - 1);
    }
    forall k | 0 <= k < i ensures a[k] == b[k] {
      BestTenIsUnique(side, m, a, b, k);
    }
    if a[i].price != b[i].price {
      NotBefore(side, m, a, b, i);
      NotBefore(side, m, b, a, i);
    }
  }

  lemma NotBefore(side: BookSide, m: Ladder, a: seq<Level>, b: seq<Level>, i: nat)
    requires IsBestTen(side, m, a) && IsBestTen(side, m, b) && i < |a|
    requires forall k :: 0 <= k < i ==> a[k] == b[k]
    ensures !Better(side, a[i].price, b[i].price)
  {
  }

  // ------------------------------------------------------------- the log

  /** The size a list of levels gives a price: its last mention. */
  function LastQuoted(levels: seq<Level>, price: real): Option<real> {
    if levels == [] then None
    else if levels[|levels| - 1].price == price then Some(levels[|levels| - 1].size)
    else LastQuoted(levels[..|levels| - 1], price)
  }

  predicate Touches(e: Event, asset: Asset, side: BookSide, price: real) {
    match e
    case Full(a, _, _) => a == asset
    case Delta(a, s, p, _) => a == asset && s == side && p == price
  }

  function QuotedBy(e: Event, side: BookSide): seq<Level>
    requires e.Full?
  {
    if side.Bids? then e.bids else e.asks
  }

  /** What the last event concerning a price said about it; a removal leaves nothing. */
  function LastWrite(log: seq<Event>, asset: Asset, side: BookSide, price: real): Option<real> {
    if log == [] then None
    else
      var e := log[|log| - 1];
      if !Touches(e, asset, side, price) then LastWrite(log[..|log| - 1], asset, side, price)
      else if e.Full? then LastQuoted(QuotedBy(e, side), price)
      else if e.size <= 0.0 then None
      else Some(e.size)
  }

  function Lookup(m: Ladder, price: real): Option<real> { if price in m then Some(m[price]) else None }

  lemma {:induction false} LadderIsLastQuoted(levels: seq<Level>, price: real)
    ensures Lookup(LadderOf(levels), price) == LastQuoted(levels, price)
  {
    if levels != [] {
      LadderIsLastQuoted(levels[..|levels| - 1], price);
    }
  }

  /**
   After any log, each side maps a price to its last write since that token's last full
   snapshot, and to nothing when that write removed it.
   */
  lemma {:induction false} BooksHoldLastWrites(log: seq<Event>, asset: Asset, side: BookSide, price: real)
    ensures Lookup(After(log).Side(asset, side), price) == LastWrite(log, asset, side, price)
  {
    if log != [] {
      BooksHoldLastWrites(log[..|log| - 1], asset, side, price);
      var e := log[|log| - 1];
      if e.Full? {
        LadderIsLastQuoted(QuotedBy(e, side), price);
      }
    }
  }

  /** An event about one token leaves the other untouched. */
  lemma OtherTokenUntouched(b: Books, e: Event, other: Asset, side: BookSide)
    requires e.asset != other
    ensures Apply(b, e).Side(other, side) == b.Side(other, side)
  {
  }

  /** The event at k was a full snapshot quoting this size, and nothing has touched the price since. */
  ghost predicate LastQuotedAt(log: seq<Event>, k: nat, asset: Asset, side: BookSide, price: real, size: real) {
    && k < |log|
    && log[k].Full? && log[k].asset == asset
    && LastQuoted(QuotedBy(log[k], side), price) == Some(size)
    && forall j :: k < j < |log| ==> !Touches(log[j], asset, side, price)
  }

  /**
   Exactly when a level without size stays in the book: a full snapshot quoted it so
   and nothing has touched it since.  Deltas never leave one behind.
   */
  lemma {:induction false} EmptyLevelsComeFromSnapshots(
      log: seq<Event>, asset: Asset, side: BookSide, price: real, size: real)
    requires size <= 0.0
    ensures Lookup(After(log).Side(asset, side), price) == Some(size) <==>
      exists k :: LastQuotedAt(log, k, asset, side, price, size)
  {
    BooksHoldLastWrites(log, asset, side, price);
    EmptyWrites(log, asset, side, price, size);
  }

  lemma {:induction false} EmptyWrites(log: seq<Event>, asset: Asset, side: BookSide, price: real, size: real)
    requires size <= 0.0
    ensures LastWrite(log, asset, side, price) == Some(size) <==>
      exists k :: LastQuotedAt(log, k, asset, side, price, size)
  {
    if log != [] {
      var n := |log| - 1;
      if Touches(log[n], asset, side, price) {
        LastTouchDecides(log, asset, side, price, size);
      } else {
        EmptyWrites(log[..n], asset, side, price, size);
        forall k | 0 <= k
          ensures LastQuotedAt(log, k, asset, side, price, size)
             <==> LastQuotedAt(log[..n], k, asset, side, price, size)
        {
          QuoteSurvives(log, k, asset, side, price, size);
        }
      }
    }
  }

  lemma LastTouchDecides(log: seq<Event>, asset: Asset, side: BookSide, price: real, size: real)
    requires log != [] && Touches(log[|log| - 1], asset, side, price) && size <= 0.0
    ensures LastWrite(log, asset, side, price) == Some(size) <==> LastQuotedAt(log, |log| - 1, asset, side, price, size)
    ensures forall k :: LastQuotedAt(log, k, asset, side, price, size) ==> k == |log| - 1
  {
  }

  lemma QuoteSurvives(log: seq<Event>, k: nat, asset: Asset, side: BookSide, price: real, size: real)
    requires log != [] && !Touches(log[|log| - 1], asset, side, price)
    ensures LastQuotedAt(log, k, asset, side, price, size)
       <==> LastQuotedAt(log[..|log| - 1], k, asset, side, price, size)
  {
  }

  /** A snapshot quoting an empty best ask puts it at the top of the emitted asks. */
  lemma SnapshotKeepsEmptyLevel()
    ensures
      var log := [Full(Yes, [], [Level(0.40, 0.0), Level(0.45, 10.0)])];
      After(log).yesAsks == map[0.40 := 0.0, 0.45 := 10.0] && IsBest(Asks, After(log).yesAsks.Keys, 0.40)
  {
  }

  // ----------------------------------------------- feeding the simulator

  ghost predicate SoundEvent(e: Event) {
    match e
    case Full(_, bids, asks) => Slippage.Sound(bids) && Slippage.Sound(asks)
    case Delta(_, _, price, _) => price >= 0.0
  }

  ghost predicate SoundLadder(m: Ladder) {
    forall p :: p in m ==> p >= 0.0 && m[p] >= 0.0
  }

  lemma {:induction false} LadderIsSound(levels: seq<Level>)
    requires Slippage.Sound(levels)
    ensures SoundLadder(LadderOf(levels))
  {
    if levels != [] {
      LadderIsSound(levels[..|levels| - 1]);
    }
  }

  lemma {:induction false} BooksAreSound(log: seq<Event>, asset: Asset, side: BookSide)
    requires forall k :: 0 <= k < |log| ==> SoundEvent(log[k])
    ensures SoundLadder(After(log).Side(asset, side))
  {
    if log != [] {
      BooksAreSound(log[..|log| - 1], asset, side);
      var e := log[|log| - 1];
      if e.Full? {
        LadderIsSound(QuotedBy(e, side));
      }
    }
  }

  /** Whatever the log, an emitted side is the sorted, best-first book the fill simulation assumes. */
  lemma {:induction false} RowsAreWalkable(log: seq<Event>, asset: Asset, levels: seq<Level>)
    requires forall k :: 0 <= k < |log| ==> SoundEvent(log[k])
    ensures IsBestTen(Asks, After(log).Side(asset, Asks), levels) ==> Slippage.AskBook(levels)
    ensures IsBestTen(Bids, After(log).Side(asset, Bids), levels) ==> Slippage.BidBook(levels)
  {
    BooksAreSound(log, asset, Asks);
    BooksAreSound(log, asset, Bids);
  }

  /** The mid at which the engine fills, read from an emitted row, is the live mid of the book. */
  lemma {:induction false} RowMidIsLiveMid(b: Books, snap: Snapshot)
    requires IsBestTen(Bids, b.yesBids, snap.yesBids) && IsBestTen(Asks, b.yesAsks, snap.yesAsks)
    ensures Engine.MidForSide(snap, BuyYes) == Engine.MidForSide(snap, SellYes) == MidYes(b)
    ensures Engine.BestAskForSide(snap, BuyYes)
         == if b.yesAsks == map[] then None else Some(BestPrice(Asks, b.yesAsks.Keys))
  {
  }
}

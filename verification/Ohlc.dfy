/** One-minute OHLC aggregation of the Binance trade stream. */
module Ohlc {
  import opened Types

  /** A time in milliseconds as a message carries it. */
  datatype Stamp = Absent | Garbled | Millis(ms: int)

  /** An aggTrade message; a price or quantity that is missing or not a number is None. */
  datatype Message = Message(
    symbol: string,
    price: Option<real>,
    qty: Option<real>,
    tradeTime: Stamp,
    eventTime: Stamp,
    buyerIsMaker: bool)

  datatype Trade = Trade(ticker: string, at: int, price: real, qty: real, takerIsBuyer: bool)

  datatype Row = Row(
    ticker: string,
    minute: int,
    open: real,
    high: real,
    low: real,
    close: real,
    volume: real,
    trades: nat,
    buyVolume: real,
    sellVolume: real)

  function TickerOf(symbol: string): string {
    if symbol == "BTCUSDT" then "BTC"
    else if symbol == "ETHUSDT" then "ETH"
    else if symbol == "SOLUSDT" then "SOL"
    else ""
  }

  /** Seconds since the epoch at the start of the minute. */
  function FloorMinute(ms: int): int {
    var sec := ms / 1000;
    sec - sec % 60
  }

  /** The trade time if it is there and not zero, else the event time. */
  function TimeOf(m: Message): Stamp {
    if m.tradeTime == Absent || m.tradeTime == Millis(0) then m.eventTime else m.tradeTime
  }

  /** The trade a message reports; None when it is dropped. */
  function Parse(m: Message): Option<Trade> {
    var at := TimeOf(m);
    if TickerOf(m.symbol) == "" || m.price.None? || m.qty.None? || !at.Millis? || at.ms == 0 then None
    else Some(Trade(TickerOf(m.symbol), at.ms, m.price.value, m.qty.value, !m.buyerIsMaker))
  }

  function Fresh(ticker: string, minute: int, firstPrice: real): Row {
    Row(ticker, minute, firstPrice, firstPrice, firstPrice, firstPrice, 0.0, 0, 0.0, 0.0)
  }

  function Added(r: Row, t: Trade): Row {
    r.(high := if t.price > r.high then t.price else r.high,
       low := if t.price < r.low then t.price else r.low,
       close := t.price,
       volume := r.volume + t.qty,
       trades := r.trades + 1,
       buyVolume := if t.takerIsBuyer then r.buyVolume + t.qty else r.buyVolume,
       sellVolume := if t.takerIsBuyer then r.sellVolume else r.sellVolume + t.qty)
  }

  // ------------------------------------------- one ticker's stream, as values

  /** Rows finished so far and the live one. */
  datatype View = View(rows: seq<Row>, live: Option<Row>)

  datatype Event = Traded(t: Trade) | Flushed(now: int) | Drained

  function OnTrade(v: View, t: Trade): View {
    var minute := FloorMinute(t.at);
    if v.live.Some? && v.live.value.minute == minute then v.(live := Some(Added(v.live.value, t)))
    else
      var rows := if v.live.Some? then v.rows + [v.live.value] else v.rows;
      View(rows, Some(Added(Fresh(t.ticker, minute, t.price), t)))
  }

  function OnFlush(v: View, nowMinute: int): View {
    if v.live.Some? && v.live.value.minute < nowMinute then View(v.rows + [v.live.value], None) else v
  }

  function OnEvent(v: View, e: Event, ticker: string): View {
    match e
    case Traded(t) => if t.ticker == ticker then OnTrade(v, t) else v
    case Flushed(now) => OnFlush(v, FloorMinute(now))
    case Drained => v
  }

  function Run(events: seq<Event>, ticker: string): View {
    if events == [] then View([], None)
    else OnEvent(Run(events[..|events| - 1], ticker), events[|events| - 1], ticker)
  }

  function RowsFor(rows: seq<Row>, ticker: string): seq<Row> {
    if rows == [] then []
    else
      var last := rows[|rows| - 1];
      RowsFor(rows[..|rows| - 1], ticker) + if last.ticker == ticker then [last] else []
  }

  // -------------------------------------------- the aggregator, as a value

  /**
   Live rows by ticker, the tickers in the order their entries were made, rows waiting to
   be inserted, and rows already handed over.
   */
  datatype Shelf = Shelf(order: seq<string>, live: map<string, Row>, queue: seq<Row>, delivered: seq<Row>)

  const EMPTY := Shelf([], map[], [], [])

  ghost predicate Distinct(names: seq<string>) {
    forall i, j :: 0 <= i < j < |names| ==> names[i] != names[j]
  }

  /** Every live row is filed under its own ticker, and listed once. */
  ghost predicate Filed(s: Shelf) {
    && Distinct(s.order)
    && (forall t :: t in s.order <==> t in s.live)
    && (forall t :: t in s.live ==> s.live[t].ticker == t)
  }

  /** A new minute queues the old row; a ticker keeps its place while it has an entry. */
  function Started(s: Shelf, ticker: string, minute: int, firstPrice: real): Shelf {
    var known := ticker in s.live;
    Shelf(if known then s.order else s.order + [ticker],
          s.live[ticker := Fresh(ticker, minute, firstPrice)],
          if known then s.queue + [s.live[ticker]] else s.queue,
          s.delivered)
  }

  function Counted(s: Shelf, t: Trade): Shelf
    requires t.ticker in s.live
  {
    s.(live := s.live[t.ticker := Added(s.live[t.ticker], t)])
  }

  predicate InMinute(s: Shelf, ticker: string, minute: int) { ticker in s.live && s.live[ticker].minute == minute }

  function WithTrade(s: Shelf, t: Trade): Shelf {
    var minute := FloorMinute(t.at);
    Counted(if InMinute(s, t.ticker, minute) then s else Started(s, t.ticker, minute, t.price), t)
  }

  function Without(names: seq<string>, name: string): seq<string> {
    if names == [] then []
    else Without(names[..|names| - 1], name) + if names[|names| - 1] == name then [] else [names[|names| - 1]]
  }

  function FlushTicker(s: Shelf, name: string, nowMinute: int): Shelf {
    if name in s.live && s.live[name].minute < nowMinute
    then Shelf(Without(s.order, name), s.live - {name}, s.queue + [s.live[name]], s.delivered)
    else s
  }

  /** The tickers are looked at in order. */
  function FlushAll(s: Shelf, names: seq<string>, nowMinute: int): Shelf {
    if names == [] then s
    else FlushTicker(FlushAll(s, names[..|names| - 1], nowMinute), names[|names| - 1], nowMinute)
  }

  function Handle(s: Shelf, e: Event): Shelf {
    match e
    case Traded(t) => WithTrade(s, t)
    case Flushed(now) => FlushAll(s, s.order, FloorMinute(now))
    case Drained => s.(queue := [], delivered := s.delivered + s.queue)
  }

  function After(events: seq<Event>): Shelf {
    if events == [] then EMPTY else Handle(After(events[..|events| - 1]), events[|events| - 1])
  }

  /** Everything one ticker has produced so far. */
  function ViewIn(s: Shelf, ticker: string): View {
    View(RowsFor(s.delivered + s.queue, ticker), if ticker in s.live then Some(s.live[ticker]) else None)
  }

  lemma RowsForSnoc(rows: seq<Row>, r: Row, ticker: string)
    ensures RowsFor(rows + [r], ticker) == RowsFor(rows, ticker) + if r.ticker == ticker then [r] else []
  {
  }

  lemma QueuedRows(delivered: seq<Row>, queue: seq<Row>, r: Row, ticker: string)
    ensures RowsFor(delivered + (queue + [r]), ticker)
         == RowsFor(delivered + queue, ticker) + if r.ticker == ticker then [r] else []
  {
    RowsForSnoc(delivered + queue, r, ticker);
    assert delivered + (queue + [r]) == (delivered + queue) + [r];
  }

  /** Starting a bucket queues what the ticker had, and concerns no other ticker. */
  lemma {:induction false} StartQueuesOld(s: Shelf, name: string, minute: int, price: real, ticker: string)
    requires Filed(s)
    ensures Filed(Started(s, name, minute, price))
    ensures name != ticker ==> ViewIn(Started(s, name, minute, price), ticker) == ViewIn(s, ticker)
    ensures name == ticker ==>
      ViewIn(Started(s, name, minute, price), ticker) ==
        View(ViewIn(s, ticker).rows + (if name in s.live then [s.live[name]] else []), Some(Fresh(name, minute, price)))
  {
    if name in s.live {
      QueuedRows(s.delivered, s.queue, s.live[name], ticker);
    }
  }

  lemma {:induction false} CountKeepsFiled(s: Shelf, t: Trade, ticker: string)
    requires Filed(s) && t.ticker in s.live
    ensures Filed(Counted(s, t))
    ensures ViewIn(Counted(s, t), ticker) == ViewIn(s, ticker).(
              live := if t.ticker == ticker then Some(Added(s.live[ticker], t)) else ViewIn(s, ticker).live)
  {
  }

  /** A trade advances its own ticker and no other. */
  lemma {:induction false} TradeAdvancesTicker(s: Shelf, t: Trade, ticker: string)
    requires Filed(s)
    ensures Filed(WithTrade(s, t))
    ensures ViewIn(WithTrade(s, t), ticker)
         == if t.ticker == ticker then OnTrade(ViewIn(s, ticker), t) else ViewIn(s, ticker)
  {
    var minute := FloorMinute(t.at);
    if InMinute(s, t.ticker, minute) {
      CountKeepsFiled(s, t, ticker);
    } else {
      StartQueuesOld(s, t.ticker, minute, t.price, ticker);
      CountKeepsFiled(Started(s, t.ticker, minute, t.price), t, ticker);
    }
  }

  lemma {:induction false} WithoutHas(names: seq<string>, name: string, t: string)
    ensures t in Without(names, name) <==> t in names && t != name
  {
    if names != [] {
      WithoutHas(names[..|names| - 1], name, t);
      assert t in names <==> t in names[..|names| - 1] || t == names[|names| - 1];
    }
  }

  lemma {:induction false} WithoutKeepsOthers(names: seq<string>, name: string)
    requires Distinct(names)
    ensures Distinct(Without(names, name))
    ensures forall t :: t in Without(names, name) <==> t in names && t != name
  {
    forall t ensures t in Without(names, name) <==> t in names && t != name {
      WithoutHas(names, name, t);
    }
    if names != [] {
      var front, last := names[..|names| - 1], names[|names| - 1];
      WithoutKeepsOthers(front, name);
      WithoutHas(front, name, last);
      assert last !in front;
    }
  }

  lemma {:induction false} FlushTickerKeepsFiled(s: Shelf, name: string, nowMinute: int)
    requires Filed(s)
    ensures Filed(FlushTicker(s, name, nowMinute))
  {
    if name in s.live && s.live[name].minute < nowMinute {
      WithoutKeepsOthers(s.order, name);
    }
  }

  lemma {:induction false} FlushTickerFlushesOne(s: Shelf, name: string, nowMinute: int, ticker: string)
    requires Filed(s)
    ensures ViewIn(FlushTicker(s, name, nowMinute), ticker)
         == if name == ticker then OnFlush(ViewIn(s, ticker), nowMinute) else ViewIn(s, ticker)
  {
    if name in s.live && s.live[name].minute < nowMinute {
      QueuedRows(s.delivered, s.queue, s.live[name], ticker);
    }
  }

  lemma {:induction false} FlushAllFlushesEach(s: Shelf, names: seq<string>, nowMinute: int, ticker: string)
    requires Filed(s) && Distinct(names)
    ensures Filed(FlushAll(s, names, nowMinute))
    ensures ViewIn(FlushAll(s, names, nowMinute), ticker)
         == if ticker in names then OnFlush(ViewIn(s, ticker), nowMinute) else ViewIn(s, ticker)
  {
    if names != [] {
      var front, last := names[..|names| - 1], names[|names| - 1];
      FlushAllFlushesEach(s, front, nowMinute, ticker);
      FlushTickerKeepsFiled(FlushAll(s, front, nowMinute), last, nowMinute);
      FlushTickerFlushesOne(FlushAll(s, front, nowMinute), last, nowMinute, ticker);
    }
  }

  /** The aggregator treats every ticker as if it were alone. */
  lemma {:induction false} TickersAreIndependent(events: seq<Event>, ticker: string)
    ensures Filed(After(events)) && ViewIn(After(events), ticker) == Run(events, ticker)
  {
    if events != [] {
      var before, e := After(events[..|events| - 1]), events[|events| - 1];
      TickersAreIndependent(events[..|events| - 1], ticker);
      match e
      case Traded(t) => TradeAdvancesTicker(before, t, ticker);
      case Flushed(now) => FlushAllFlushesEach(before, before.order, FloorMinute(now), ticker);
      case Drained => assert before.delivered + before.queue + [] == before.delivered + before.queue;
    }
  }

  predicate IsStale(live: map<string, Row>, name: string, nowMinute: int) {
    name in live && live[name].minute < nowMinute
  }

  /** The rows of past minutes, in the order of the names. */
  function StaleRows(live: map<string, Row>, names: seq<string>, nowMinute: int): seq<Row> {
    if names == [] then []
    else
      var last := names[|names| - 1];
      StaleRows(live, names[..|names| - 1], nowMinute) + if IsStale(live, last, nowMinute) then [live[last]] else []
  }

  /** One flush queues the rows of past minutes in the order their entries were made, and keeps the rest. */
  lemma {:induction false} FlushQueuesInOrder(s: Shelf, names: seq<string>, nowMinute: int)
    requires Distinct(names)
    ensures
      var after := FlushAll(s, names, nowMinute);
      && after.queue == s.queue + StaleRows(s.live, names, nowMinute)
      && (forall t :: t in after.live <==> t in s.live && !(t in names && IsStale(s.live, t, nowMinute)))
      && (forall t :: t in after.live ==> after.live[t] == s.live[t])
      && after.delivered == s.delivered
  {
    if names != [] {
      var front, last := names[..|names| - 1], names[|names| - 1];
      FlushQueuesInOrder(s, front, nowMinute);
      assert last !in front;
      assert forall t :: t in names <==> t in front || t == last;
    }
  }

  // -------------------------------------------------------------- the classes

  class Bucket {
    const ticker: string
    const minute: int
    var open: real
    var high: real
    var low: real
    var close: real
    var totalVolume: real
    var numTrades: nat
    var buyVolume: real
    var sellVolume: real

    function ToRow(): Row
      reads this
    {
      Row(ticker, minute, open, high, low, close, totalVolume, numTrades, buyVolume, sellVolume)
    }

    constructor (ticker: string, minute: int, firstPrice: real)
      ensures ToRow() == Fresh(ticker, minute, firstPrice)
      ensures this.ticker == ticker && this.minute == minute
    {
      this.ticker, this.minute := ticker, minute;
      open, high, low, close := firstPrice, firstPrice, firstPrice, firstPrice;
      totalVolume, numTrades, buyVolume, sellVolume := 0.0, 0, 0.0, 0.0;
    }

    method Add(t: Trade)
      modifies this
      ensures ToRow() == Added(old(ToRow()), t)
    {
      if t.price > high {
        high := t.price;
      }
      if t.price < low {
        low := t.price;
      }
      close := t.price;
      totalVolume := totalVolume + t.qty;
      numTrades := numTrades + 1;
      if t.takerIsBuyer {
        buyVolume := buyVolume + t.qty;
      } else {
        sellVolume := sellVolume + t.qty;
      }
    }
  }

  class Aggregator {
    var buckets: map<string, Bucket>
    var order: seq<string>          // keys of `buckets`, oldest entry first
    var queue: seq<Row>
    ghost var delivered: seq<Row>   // rows already handed over by Drain

    ghost function Contents(): Shelf
      reads this, buckets.Values
    {
      Shelf(order, map t | t in buckets :: buckets[t].ToRow(), queue, delivered)
    }

    /** Each bucket is filed under its own ticker, so no two tickers share one. */
    ghost predicate Separate()
      reads this, buckets.Values
    {
      forall t :: t in buckets ==> buckets[t].ticker == t
    }

    ghost predicate Valid()
      reads this, buckets.Values
    {
      Separate() && Filed(Contents())
    }

    constructor ()
      ensures Valid() && Contents() == After([])
    {
      buckets, order, queue, delivered := map[], [], [], [];
    }

    method HandleAggTrade(m: Message)
      requires Valid()
      modifies this, buckets.Values
      ensures Valid() && fresh(buckets.Values - old(buckets.Values))
      ensures Parse(m).None? ==> Contents() == old(Contents())
      ensures Parse(m).Some? ==> Contents() == WithTrade(old(Contents()), Parse(m).value)
    {
      var parsed := Parse(m);
      if parsed.None? {
        return;
      }
      var trade := parsed.value;
      var ticker, minute := trade.ticker, FloorMinute(trade.at);
      TradeAdvancesTicker(Contents(), trade, ticker);
      if ticker !in buckets || buckets[ticker].minute != minute {
        StartBucket(ticker, minute, trade.price);
      }
      AddTo(trade);
    }

    /** Queues the ticker's bucket, if it has one, and begins another. */
    method StartBucket(ticker: string, minute: int, firstPrice: real)
      requires Separate()
      modifies this
      ensures Separate() && fresh(buckets.Values - old(buckets.Values)) && ticker in buckets
      ensures Contents() == Started(old(Contents()), ticker, minute, firstPrice)
    {
      ghost var was := Contents();
      Finalise(ticker);
      var bucket := new Bucket(ticker, minute, firstPrice);
      buckets := buckets[ticker := bucket];
      assert Contents().live == Started(was, ticker, minute, firstPrice).live;
    }

    /** The old bucket's row is queued; a ticker without one takes the last place. */
    method Finalise(ticker: string)
      modifies this`queue, this`order
      ensures queue == old(queue) + if ticker in buckets then [buckets[ticker].ToRow()] else []
      ensures order == if ticker in buckets then old(order) else old(order) + [ticker]
    {
      if ticker in buckets {
        queue := queue + [buckets[ticker].ToRow()];
      } else {
        order := order + [ticker];
      }
    }

    method AddTo(trade: Trade)
      requires Separate() && trade.ticker in buckets
      modifies buckets.Values
      ensures Separate() && Contents() == Counted(old(Contents()), trade)
    {
      ghost var was := Contents();
      buckets[trade.ticker].Add(trade);
      assert Contents().live == Counted(was, trade).live;
    }

    method FlushOne(ticker: string, nowMinute: int)
      requires Separate() && ticker in buckets
      modifies this
      ensures Separate() && buckets.Values <= old(buckets.Values)
      ensures Contents() == FlushTicker(old(Contents()), ticker, nowMinute)
    {
      ghost var was := Contents();
      if buckets[ticker].minute < nowMinute {
        queue := queue + [buckets[ticker].ToRow()];
        buckets := buckets - {ticker};
        order := Without(order, ticker);
        assert Contents().live == was.live - {ticker};
      }
    }

    /** Moves every bucket of a past minute to the queue. */
    method FlushStale(now: int)
      requires Valid()
      modifies this
      ensures Valid() && buckets.Values <= old(buckets.Values)
      ensures Contents() == Handle(old(Contents()), Flushed(now))
    {
      var nowMinute, names := FloorMinute(now), order;
      ghost var was := Contents();
      for i := 0 to |names|
        invariant Separate() && buckets.Values <= old(buckets.Values)
        invariant Contents() == FlushAll(was, names[..i], nowMinute)
      {
        StillThere(was, names, i, nowMinute);
        FlushOne(names[i], nowMinute);
        assert names[..i + 1][..i] == names[..i];
      }
      assert names[..|names|] == names;
      FlushAllFlushesEach(was, names, nowMinute, "");
    }

    /** Hands the queued rows over for insertion. */
    method Drain() returns (rows: seq<Row>)
      requires Valid()
      modifies this
      ensures Valid() && buckets == old(buckets)
      ensures rows == old(queue) && Contents() == Handle(old(Contents()), Drained)
    {
      rows := queue;
      queue := [];
      delivered := delivered + rows;
    }
  }

  /** Flushing some tickers leaves the entries of the others. */
  lemma {:induction false} StillThere(s: Shelf, names: seq<string>, i: nat, nowMinute: int)
    requires Distinct(names) && i < |names| && names[i] in s.live
    ensures names[i] in FlushAll(s, names[..i], nowMinute).live
  {
    FlushQueuesInOrder(s, names[..i], nowMinute);
    assert names[i] !in names[..i];
  }

  // -------------------------------------------------- batch aggregation

  function MaxPrice(seg: seq<Trade>): real
    requires seg != []
  {
    if |seg| == 1 then seg[0].price else Max(MaxPrice(seg[..|seg| - 1]), seg[|seg| - 1].price)
  }

  function MinPrice(seg: seq<Trade>): real
    requires seg != []
  {
    if |seg| == 1 then seg[0].price else Min(MinPrice(seg[..|seg| - 1]), seg[|seg| - 1].price)
  }

  /** Quantity traded by the takers of one kind, or of either when `takers` is None. */
  function Volume(seg: seq<Trade>, takers: Option<bool>): real {
    if seg == [] then 0.0
    else
      var last := seg[|seg| - 1];
      Volume(seg[..|seg| - 1], takers) + if takers == None || takers == Some(last.takerIsBuyer) then last.qty else 0.0
  }

  lemma VolumeOfOne(t: Trade, takers: Option<bool>)
    ensures Volume([t], takers) == if takers == None || takers == Some(t.takerIsBuyer) then t.qty else 0.0
  {
  }

  /** The row of a whole segment at once. */
  function Summary(seg: seq<Trade>): Row
    requires seg != []
  {
    Row(seg[0].ticker, FloorMinute(seg[0].at), seg[0].price, MaxPrice(seg), MinPrice(seg), seg[|seg| - 1].price,
        Volume(seg, None), |seg|, Volume(seg, Some(true)), Volume(seg, Some(false)))
  }

  /** What the columns of a summary mean. */
  lemma {:induction false} SummaryMeaning(seg: seq<Trade>)
    requires seg != []
    ensures
      var r := Summary(seg);
      && (forall i :: 0 <= i < |seg| ==> r.low <= seg[i].price <= r.high)
      && (exists i :: 0 <= i < |seg| && seg[i].price == r.high)
      && (exists i :: 0 <= i < |seg| && seg[i].price == r.low)
      && r.buyVolume + r.sellVolume == r.volume
  {
    var n := |seg| - 1;
    if n == 0 {
      assert seg == [seg[0]];
      SummaryOfOne(seg[0]);
      assert seg[0].price == Summary(seg).high;
    } else {
      SummaryMeaning(seg[..n]);
      var i :| 0 <= i < n && seg[..n][i].price == MaxPrice(seg[..n]);
      var j :| 0 <= j < n && seg[..n][j].price == MinPrice(seg[..n]);
      assert seg[i].price == MaxPrice(seg[..n]) && seg[j].price == MinPrice(seg[..n]);
      assert seg[n].price == seg[n].price;
      forall k | 0 <= k < |seg| ensures Summary(seg).low <= seg[k].price <= Summary(seg).high {
        if k < n {
          assert seg[..n][k] == seg[k];
        }
      }
    }
  }

  /** The segments a ticker's stream is cut into: those finished, and the current one. */
  datatype Cut = Cut(done: seq<seq<Trade>>, current: seq<Trade>)

  function Over(c: Cut): seq<seq<Trade>> {
    if c.current == [] then c.done else c.done + [c.current]
  }

  function CutEvent(c: Cut, e: Event, ticker: string): Cut {
    match e
    case Traded(t) =>
      if t.ticker != ticker then c
      else if c.current != [] && FloorMinute(c.current[0].at) == FloorMinute(t.at)
      then c.(current := c.current + [t])
      else Cut(Over(c), [t])
    case Flushed(now) =>
      if c.current != [] && FloorMinute(c.current[0].at) < FloorMinute(now) then Cut(Over(c), []) else c
    case Drained => c
  }

  function CutStream(events: seq<Event>, ticker: string): Cut {
    if events == [] then Cut([], [])
    else CutEvent(CutStream(events[..|events| - 1], ticker), events[|events| - 1], ticker)
  }

  /** The ticker's trades, in order of arrival. */
  function TradesOf(events: seq<Event>, ticker: string): seq<Trade> {
    if events == [] then []
    else
      var e := events[|events| - 1];
      TradesOf(events[..|events| - 1], ticker) + if e.Traded? && e.t.ticker == ticker then [e.t] else []
  }

  function Flatten(segs: seq<seq<Trade>>): seq<Trade> {
    if segs == [] then [] else Flatten(segs[..|segs| - 1]) + segs[|segs| - 1]
  }

  ghost predicate OneMinute(seg: seq<Trade>, ticker: string) {
    forall i :: 0 <= i < |seg| ==> seg[i].ticker == ticker && FloorMinute(seg[i].at) == FloorMinute(seg[0].at)
  }

  /** Each row is the batch summary of its segment. */
  ghost predicate Summarises(v: View, c: Cut) {
    && |v.rows| == |c.done|
    && (forall i :: 0 <= i < |c.done| ==> c.done[i] != [] && v.rows[i] == Summary(c.done[i]))
    && v.live == if c.current == [] then None else Some(Summary(c.current))
  }

  ghost predicate CutsStream(c: Cut, ticker: string, trades: seq<Trade>) {
    && Flatten(c.done) + c.current == trades
    && OneMinute(c.current, ticker)
    && forall i :: 0 <= i < |c.done| ==> OneMinute(c.done[i], ticker)
  }

  lemma AddExtendsSummary(seg: seq<Trade>, t: Trade)
    requires seg != []
    ensures Added(Summary(seg), t) == Summary(seg + [t])
  {
  }

  lemma SummaryOfOne(t: Trade)
    ensures Added(Fresh(t.ticker, FloorMinute(t.at), t.price), t) == Summary([t])
  {
    VolumeOfOne(t, None);
    VolumeOfOne(t, Some(true));
    VolumeOfOne(t, Some(false));
  }

  lemma {:induction false} EventKeepsSummaries(v: View, c: Cut, e: Event, ticker: string)
    requires Summarises(v, c)
    ensures Summarises(OnEvent(v, e, ticker), CutEvent(c, e, ticker))
  {
    if e.Traded? {
      SummaryOfOne(e.t);
      if c.current != [] {
        AddExtendsSummary(c.current, e.t);
      }
    }
  }

  /** Closing the current segment loses nothing. */
  lemma Closing(c: Cut, ticker: string, trades: seq<Trade>)
    requires CutsStream(c, ticker, trades)
    ensures CutsStream(Cut(Over(c), []), ticker, trades)
  {
    if c.current != [] {
      assert Over(c)[..|c.done|] == c.done;
    }
    assert Flatten(Over(c)) == trades;
    assert Flatten(Over(c)) + [] == Flatten(Over(c));
  }

  lemma Extending(c: Cut, ticker: string, trades: seq<Trade>, t: Trade)
    requires CutsStream(c, ticker, trades) && t.ticker == ticker
    requires c.current != [] ==> FloorMinute(c.current[0].at) == FloorMinute(t.at)
    ensures CutsStream(Cut(c.done, c.current + [t]), ticker, trades + [t])
  {
  }

  lemma {:induction false} EventKeepsCut(c: Cut, e: Event, ticker: string, trades: seq<Trade>)
    requires CutsStream(c, ticker, trades)
    ensures CutsStream(CutEvent(c, e, ticker), ticker, trades + TradesOf([e], ticker))
  {
    assert TradesOf([e], ticker) == if e.Traded? && e.t.ticker == ticker then [e.t] else [] by {
      assert [e][..0] == [];
    }
    assert trades + [] == trades;
    Closing(c, ticker, trades);
    if e.Traded? && e.t.ticker == ticker {
      if c.current != [] && FloorMinute(c.current[0].at) == FloorMinute(e.t.at) {
        Extending(c, ticker, trades, e.t);
      } else {
        Extending(Cut(Over(c), []), ticker, trades, e.t);
        assert [] + [e.t] == [e.t];
      }
    }
  }

  /**
   Streaming equals batch: for any mix of trades, minute rollovers and stale flushes,
   the rows produced are the summaries of consecutive one-minute segments that together
   are the ticker's whole trade stream, and the live bucket is that of the last one.
   */
  lemma {:induction false} StreamingIsBatch(events: seq<Event>, ticker: string)
    ensures Summarises(Run(events, ticker), CutStream(events, ticker))
    ensures CutsStream(CutStream(events, ticker), ticker, TradesOf(events, ticker))
  {
    if events != [] {
      var n := |events| - 1;
      StreamingIsBatch(events[..n], ticker);
      EventKeepsSummaries(Run(events[..n], ticker), CutStream(events[..n], ticker), events[n], ticker);
      EventKeepsCut(CutStream(events[..n], ticker), events[n], ticker, TradesOf(events[..n], ticker));
      assert [events[n]][..0] == [] && TradesOf([], ticker) == [];
    }
  }
}

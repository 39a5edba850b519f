/** What the rows of the OHLC aggregator hold, in the trades' own milliseconds. */
module OhlcMinutes {
  import opened Types
  import opened Ohlc

  /** The row stands for a whole minute, and the time falls into it. */
  predicate Within(at: int, minute: int) {
    minute % 60 == 0 && 1000 * minute <= at < 1000 * minute + 60000
  }

  lemma MinuteHolds(at: int)
    ensures Within(at, FloorMinute(at))
  {
  }

  // ----------------------------------------------------------- rows of a run

  /** The segments of a ticker's stream behind its rows, the live one included. */
  function Segments(events: seq<Event>, ticker: string): seq<seq<Trade>> { Over(CutStream(events, ticker)) }

  /** Finished rows, and the live one if there is one. */
  function AllRows(events: seq<Event>, ticker: string): seq<Row> {
    var v := Run(events, ticker);
    v.rows + if v.live.Some? then [v.live.value] else []
  }

  /** The trades behind the rows, in the order they came. */
  function Concat(segs: seq<seq<Trade>>): seq<Trade> {
    if segs == [] then [] else segs[0] + Concat(segs[1..])
  }

  lemma {:induction false} ConcatSnoc(segs: seq<seq<Trade>>, last: seq<Trade>)
    ensures Concat(segs + [last]) == Concat(segs) + last
  {
    if segs == [] {
      assert [last][1..] == [];
      assert Concat([last]) == last + [];
    } else {
      ConcatSnoc(segs[1..], last);
      assert (segs + [last])[1..] == segs[1..] + [last];
      assert segs[0] + (Concat(segs[1..]) + last) == segs[0] + Concat(segs[1..]) + last;
    }
  }

  lemma {:induction false} FlattenIsConcat(segs: seq<seq<Trade>>)
    ensures Flatten(segs) == Concat(segs)
  {
    if segs != [] {
      var n := |segs| - 1;
      FlattenIsConcat(segs[..n]);
      ConcatSnoc(segs[..n], segs[n]);
      assert segs == segs[..n] + [segs[n]];
    }
  }

  /** The row stands for the very minute of each of these trades of the ticker, and for nothing else. */
  ghost predicate CoversMinute(row: Row, seg: seq<Trade>, ticker: string) {
    && seg != [] && row.ticker == ticker && row.trades == |seg|
    && forall i :: 0 <= i < |seg| ==> seg[i].ticker == ticker && Within(seg[i].at, row.minute)
  }

  lemma SummaryCovers(seg: seq<Trade>, ticker: string)
    requires seg != [] && OneMinute(seg, ticker)
    ensures CoversMinute(Summary(seg), seg, ticker)
  {
    forall i | 0 <= i < |seg| ensures Within(seg[i].at, Summary(seg).minute) {
      MinuteHolds(seg[i].at);
    }
  }

  /**
   Over any trades, flushes and drains, each row of a ticker, the live one included, counts
   the trades of one stretch of its stream, all of which fall into the minute it is
   labelled with; the stretches are the whole stream.
   */
  lemma {:induction false} RowsKeepToTheirMinute(events: seq<Event>, ticker: string)
    ensures
      var segs, rows := Segments(events, ticker), AllRows(events, ticker);
      && |rows| == |segs| && Concat(segs) == TradesOf(events, ticker)
      && forall r :: 0 <= r < |rows| ==> CoversMinute(rows[r], segs[r], ticker)
  {
    StreamingIsBatch(events, ticker);
    var c := CutStream(events, ticker);
    var segs, rows := Segments(events, ticker), AllRows(events, ticker);
    FlattenIsConcat(segs);
    FlattenOver(c);
    forall r | 0 <= r < |rows| ensures CoversMinute(rows[r], segs[r], ticker) {
      SummaryCovers(segs[r], ticker);
    }
  }

  lemma FlattenOver(c: Cut)
    ensures Flatten(Over(c)) == Flatten(c.done) + c.current
  {
    if c.current == [] {
      assert Flatten(c.done) + c.current == Flatten(c.done);
    } else {
      assert (c.done + [c.current])[..|c.done|] == c.done;
    }
  }

  /** Some full minute begins after the one time and no later than the other. */
  ghost predicate MinuteBetween(earlier: int, later: int) {
    exists k: int :: earlier < 60000 * k <= later
  }

  /**
   A trade of the ticker joins the live row exactly when no minute begins between that
   row's last trade and it, either way round; otherwise it begins a row of its own.
   */
  lemma {:induction false} TradeJoinsItsMinute(events: seq<Event>, ticker: string, t: Trade)
    requires t.ticker == ticker && CutStream(events, ticker).current != []
    ensures
      var before, after := CutStream(events, ticker), CutStream(events + [Traded(t)], ticker);
      var last := before.current[|before.current| - 1].at;
      if MinuteBetween(last, t.at) || MinuteBetween(t.at, last)
      then after == Cut(before.done + [before.current], [t])
      else after == Cut(before.done, before.current + [t])
  {
    StreamingIsBatch(events, ticker);
    var before := CutStream(events, ticker);
    var last := before.current[|before.current| - 1].at;
    assert (events + [Traded(t)])[..|events|] == events;
    SameMinuteIff(last, t.at);
  }

  lemma SameMinuteIff(a: int, b: int)
    ensures FloorMinute(a) == FloorMinute(b) <==> !MinuteBetween(a, b) && !MinuteBetween(b, a)
  {
    MinuteHolds(a);
    MinuteHolds(b);
    var m, n := FloorMinute(a) / 60, FloorMinute(b) / 60;
    if m < n {
      assert a < 60000 * n <= b;
    } else if n < m {
      assert b < 60000 * m <= a;
    } else {
      forall k: int ensures !(a < 60000 * k <= b) && !(b < 60000 * k <= a) {
        assert FloorMinute(a) == 60 * m;
      }
    }
  }

  /** A flush queues exactly the rows whose minute is over by then, and keeps the others live. */
  lemma {:induction false} FlushEndsMinutes(events: seq<Event>, ticker: string, now: int)
    ensures
      var before, after := Run(events, ticker), Run(events + [Flushed(now)], ticker);
      if before.live.Some? && 1000 * before.live.value.minute + 60000 <= now
      then after == View(before.rows + [before.live.value], None)
      else after == before
  {
    assert (events + [Flushed(now)])[..|events|] == events;
    var live := Run(events, ticker).live;
    if live.Some? {
      RowsKeepToTheirMinute(events, ticker);
      var rows := AllRows(events, ticker);
      assert rows[|rows| - 1] == live.value;
      LiveIsWholeMinute(rows[|rows| - 1], Segments(events, ticker)[|rows| - 1], ticker);
      PastMinuteIff(live.value.minute, now);
    }
  }

  /** After a flush no ticker has a live row whose minute has ended. */
  lemma {:induction false} NoEndedMinuteStays(events: seq<Event>, now: int, ticker: string)
    requires ticker in After(events + [Flushed(now)]).live
    ensures now < 1000 * After(events + [Flushed(now)]).live[ticker].minute + 60000
  {
    TickersAreIndependent(events + [Flushed(now)], ticker);
    FlushEndsMinutes(events, ticker, now);
  }

  lemma LiveIsWholeMinute(row: Row, seg: seq<Trade>, ticker: string)
    requires CoversMinute(row, seg, ticker)
    ensures row.minute % 60 == 0
  {
    assert Within(seg[0].at, row.minute);
  }

  lemma PastMinuteIff(minute: int, now: int)
    requires minute % 60 == 0
    ensures minute < FloorMinute(now) <==> 1000 * minute + 60000 <= now
  {
    MinuteHolds(now);
  }

  // ---------------------------------------------------------- reading messages

  /** When the message's trade took place: the event time stands in for a trade time that is absent or zero. */
  ghost predicate TookPlace(m: Message, at: int) {
    && at != 0
    && (m.tradeTime == Millis(at) || ((m.tradeTime == Absent || m.tradeTime == Millis(0)) && m.eventTime == Millis(at)))
  }

  /** Messages are dropped exactly when they are about another symbol, unreadable or without a time. */
  lemma MessagesReported(m: Message)
    ensures Parse(m).Some? <==>
      && m.symbol in {"BTCUSDT", "ETHUSDT", "SOLUSDT"} && m.price.Some? && m.qty.Some?
      && exists at :: TookPlace(m, at)
    ensures Parse(m).Some? ==>
      var t := Parse(m).value;
      && m.symbol == t.ticker + "USDT" && TookPlace(m, t.at)
      && t.price == m.price.value && t.qty == m.qty.value
  {
    assert m.symbol == TickerOf(m.symbol) + "USDT" || TickerOf(m.symbol) == "";
    if TimeOf(m).Millis? && TimeOf(m).ms != 0 {
      assert TookPlace(m, TimeOf(m).ms);
    }
  }

  /** Whose order was resting decides the volume: a maker who buys meets a taker who sells. */
  lemma TakersFillTheirVolume(s: Shelf, m: Message)
    requires Parse(m).Some? && InMinute(s, Parse(m).value.ticker, FloorMinute(Parse(m).value.at))
    ensures
      var ticker := Parse(m).value.ticker;
      var before, after := s.live[ticker], WithTrade(s, Parse(m).value).live[ticker];
      && after.volume == before.volume + m.qty.value
      && after.sellVolume == before.sellVolume + (if m.buyerIsMaker then m.qty.value else 0.0)
      && after.buyVolume == before.buyVolume + (if m.buyerIsMaker then 0.0 else m.qty.value)
      && after.open == before.open && after.close == m.price.value
  {
  }
}

/** Parameter sweeps: one strategy object replayed over many cached markets, cell by cell. */
module Sweep {
  import opened Types
  import opened Strategies
  import opened Engine
  import opened Drawdown
  import opened ReplayProofs
  import opened ReplayTrades
  import Sharpe

  datatype Market = Market(resolutionAt: Option<real>, outcomeYesPrice: real, snapshots: seq<Snapshot>)

  datatype Summary = Summary(
    totalPnl: real, totalFees: real, netPnl: real, winRate: real, sharpe: Option<real>, maxDrawdown: real,
    nTrades: nat, nMarkets: nat)

  /** What the model takes as given: which replays raise an exception, and the square root. */
  datatype Outside = Outside(raises: (StrategySpec, Market) -> bool, sqrt: real -> real)

  /** What one market, or several together, contribute to a cell. */
  datatype Tally = Tally(pnl: real, fees: real, trades: nat, wins: nat, losses: nat) {
    function Plus(t: Tally): Tally {
      Tally(pnl + t.pnl, fees + t.fees, trades + t.trades, wins + t.wins, losses + t.losses)
    }
  }

  const NOTHING := Tally(0.0, 0.0, 0, 0, 0)

  /** A sweep replays with the engine's default execution parameters. */
  const SWEEP_CONFIG := Config(WalkTheBook, 1.0, MarketOrder, -2.0, 60.0, false)

  /** The replay of one market by a strategy built for it alone. */
  function FreshReplay(spec: StrategySpec, m: Market): Result {
    Replay(Params(spec, SWEEP_CONFIG, m.resolutionAt), m.snapshots, m.outcomeYesPrice)
  }

  function FreshReplays(spec: StrategySpec): Market -> Result { m => FreshReplay(spec, m) }

  /** A market without trades counts for nothing; profit after fees makes a win. */
  function Share(r: Result): Tally {
    if r.trades == [] then NOTHING
    else Tally(r.pnl, r.fees, |r.trades|, if r.pnl > r.fees then 1 else 0, if r.pnl > r.fees then 0 else 1)
  }

  function TallyOf(replay: Market -> Result, cached: seq<Market>): Tally {
    if cached == [] then NOTHING
    else TallyOf(replay, cached[..|cached| - 1]).Plus(Share(replay(cached[|cached| - 1])))
  }

  /** A market's result after fees, if it traded. */
  function NetOf(r: Result): seq<real> { if r.trades == [] then [] else [r.pnl - r.fees] }

  /** Net results of the markets that traded, in order. */
  function NetPnls(replay: Market -> Result, cached: seq<Market>): seq<real> {
    if cached == [] then []
    else
      var r := replay(cached[|cached| - 1]);
      NetPnls(replay, cached[..|cached| - 1]) + NetOf(r)
  }

  function WinRate(t: Tally): real {
    if t.wins + t.losses > 0 then t.wins as real / (t.wins + t.losses) as real else 0.0
  }

  function SummaryOf(t: Tally, pnls: seq<real>, sqrt: real -> real): Summary {
    Summary(t.pnl, t.fees, t.pnl - t.fees, WinRate(t), Sharpe.Ratio(pnls, sqrt), WorstFall(pnls),
            t.trades, t.wins + t.losses)
  }

  /** The summary of fresh replays of the markets. */
  function FreshSummary(spec: StrategySpec, cached: seq<Market>, sqrt: real -> real): Summary {
    SummaryOf(TallyOf(FreshReplays(spec), cached), NetPnls(FreshReplays(spec), cached), sqrt)
  }

  ghost predicate SomeRaise(out: Outside, spec: StrategySpec, cached: seq<Market>) {
    exists i :: 0 <= i < |cached| && out.raises(spec, cached[i])
  }

  /** No summary exactly when the replay of some market raises an exception. */
  ghost function CellResult(spec: StrategySpec, cached: seq<Market>, out: Outside): Option<Summary> {
    if SomeRaise(out, spec, cached) then None else Some(FreshSummary(spec, cached, out.sqrt))
  }

  /** One object replays every market in turn; each gets what a fresh strategy would give it. */
  method ReplayGridCell(cached: seq<Market>, strategy: Strategy, out: Outside) returns (s: Option<Summary>)
    requires strategy.Valid()
    modifies strategy
    ensures strategy.Valid() && s == CellResult(strategy.spec, cached, out)
  {
    var totals := NOTHING;
    var perMarketPnls: seq<real> := [];
    for i := 0 to |cached|
      invariant strategy.Valid() && CountedTo(FreshReplays(strategy.spec), cached, i, totals, perMarketPnls)
      invariant !SomeRaise(out, strategy.spec, cached[..i])
    {
      RaiseNext(out, strategy.spec, cached, i);
      var r := ReplayMarket(cached[i], strategy, out);
      if r.None? {
        return None;
      }
      totals, perMarketPnls := CountNext(cached, i, r.value, totals, perMarketPnls, FreshReplays(strategy.spec));
    }
    assert cached[..|cached|] == cached;
    var summary := Report(cached, totals, perMarketPnls, out.sqrt, FreshReplays(strategy.spec));
    s := Some(summary);
  }

  lemma RaiseNext(out: Outside, spec: StrategySpec, cached: seq<Market>, i: nat)
    requires i < |cached| && !SomeRaise(out, spec, cached[..i])
    ensures SomeRaise(out, spec, cached[..i + 1]) <==> out.raises(spec, cached[i])
    ensures out.raises(spec, cached[i]) ==> SomeRaise(out, spec, cached)
  {
    assert cached[..i + 1] == cached[..i] + [cached[i]];
  }

  /** The accumulators after the first i markets. */
  ghost predicate CountedTo(replay: Market -> Result, cached: seq<Market>, i: nat, totals: Tally, pnls: seq<real>)
    requires i <= |cached|
  {
    totals == TallyOf(replay, cached[..i]) && pnls == NetPnls(replay, cached[..i])
  }

  method CountNext(
      cached: seq<Market>, i: nat, r: Result, totals0: Tally, pnls0: seq<real>, ghost replay: Market -> Result)
    returns (totals: Tally, pnls: seq<real>)
    requires i < |cached| && r == replay(cached[i]) && CountedTo(replay, cached, i, totals0, pnls0)
    ensures CountedTo(replay, cached, i + 1, totals, pnls)
  {
    TallyNext(replay, cached, i);
    totals, pnls := CountMarket(r, totals0, pnls0);
  }

  method Report(
      cached: seq<Market>, t: Tally, pnls: seq<real>, sqrt: real -> real, ghost replay: Market -> Result)
    returns (s: Summary)
    requires CountedTo(replay, cached, |cached|, t, pnls)
    ensures s == SummaryOf(TallyOf(replay, cached), NetPnls(replay, cached), sqrt)
  {
    assert cached[..|cached|] == cached;
    var drawdown := MaxDrawdown(pnls);
    s := Summary(t.pnl, t.fees, t.pnl - t.fees, WinRate(t), Sharpe.Ratio(pnls, sqrt), drawdown,
                 t.trades, t.wins + t.losses);
  }

  method ReplayMarket(m: Market, strategy: Strategy, out: Outside) returns (r: Option<Result>)
    requires strategy.Valid()
    modifies strategy
    ensures strategy.Valid()
    ensures r == if out.raises(strategy.spec, m) then None else Some(FreshReplays(strategy.spec)(m))
  {
    if out.raises(strategy.spec, m) {
      return None;
    }
    var trades, pnl, fees :=
      ReplaySingleMarket(m.snapshots, strategy, SWEEP_CONFIG, m.resolutionAt, m.outcomeYesPrice);
    r := Some(Result(trades, pnl, fees));
  }

  method CountMarket(r: Result, totals0: Tally, pnls0: seq<real>) returns (totals: Tally, pnls: seq<real>)
    ensures totals == totals0.Plus(Share(r))
    ensures pnls == pnls0 + NetOf(r)
  {
    totals, pnls := totals0, pnls0;
    if r.trades == [] {
      return;
    }
    var wins, losses := totals.wins, totals.losses;
    if r.pnl > r.fees {
      wins := wins + 1;
    } else {
      losses := losses + 1;
    }
    totals := Tally(totals.pnl + r.pnl, totals.fees + r.fees, totals.trades + |r.trades|, wins, losses);
    pnls := pnls + [r.pnl - r.fees];
  }

  lemma TallyNext(replay: Market -> Result, cached: seq<Market>, i: nat)
    requires i < |cached|
    ensures TallyOf(replay, cached[..i + 1]) == TallyOf(replay, cached[..i]).Plus(Share(replay(cached[i])))
    ensures NetPnls(replay, cached[..i + 1]) == NetPnls(replay, cached[..i]) +
      NetOf(replay(cached[i]))
  {
    assert cached[..i + 1][..i] == cached[..i];
  }

  // ------------------------------------------------ what a cell counts

  function Wins(pnls: seq<real>): nat {
    if pnls == [] then 0 else Wins(pnls[..|pnls| - 1]) + if pnls[|pnls| - 1] > 0.0 then 1 else 0
  }

  /**
   A cell's totals are those of the net results of the markets that traded: how many there
   are, how many are strictly positive, and what they add up to.
   */
  lemma {:induction false} TallyCountsNetPnls(replay: Market -> Result, cached: seq<Market>)
    ensures
      var t, pnls := TallyOf(replay, cached), NetPnls(replay, cached);
      && t.wins + t.losses == |pnls|
      && t.wins == Wins(pnls)
      && t.pnl - t.fees == Sharpe.Total(pnls)
  {
    if cached != [] {
      var n := |cached| - 1;
      TallyCountsNetPnls(replay, cached[..n]);
      var r, before := replay(cached[n]), NetPnls(replay, cached[..n]);
      if r.trades != [] {
        assert (before + [r.pnl - r.fees])[..|before|] == before;
      } else {
        assert before + [] == before;
      }
    }
  }

  /** A figure of one market's result. */
  datatype Figure = Profit | Cost | Count {
    function Of(r: Result): real {
      match this
      case Profit => r.pnl
      case Cost => r.fees
      case Count => |r.trades| as real
    }
  }

  /** Summed over all markets. */
  function SumOver(replay: Market -> Result, cached: seq<Market>, figure: Figure): real {
    if cached == [] then 0.0
    else SumOver(replay, cached[..|cached| - 1], figure) + figure.Of(replay(cached[|cached| - 1]))
  }

  /** A market without trades has neither profit nor fees. */
  ghost predicate IdleIsFree(replay: Market -> Result) {
    forall m :: replay(m).trades == [] ==> replay(m).pnl == 0.0 && replay(m).fees == 0.0
  }

  lemma {:induction false} FreshReplaysAreFreeWhenIdle(spec: StrategySpec)
    ensures IdleIsFree(FreshReplays(spec))
  {
    forall m | FreshReplay(spec, m).trades == []
      ensures FreshReplay(spec, m).pnl == 0.0 && FreshReplay(spec, m).fees == 0.0
    {
      ReplayBooksBalance(Params(spec, SWEEP_CONFIG, m.resolutionAt), m.snapshots, m.outcomeYesPrice);
    }
  }

  lemma {:induction false} TallySumsMarkets(replay: Market -> Result, cached: seq<Market>)
    requires IdleIsFree(replay)
    ensures
      var t := TallyOf(replay, cached);
      && t.pnl == SumOver(replay, cached, Profit)
      && t.fees == SumOver(replay, cached, Cost)
      && t.trades as real == SumOver(replay, cached, Count)
  {
    if cached != [] {
      TallySumsMarkets(replay, cached[..|cached| - 1]);
    }
  }

  ghost predicate IsShare(rate: real, part: nat, whole: nat) { rate * whole as real == part as real }

  /** Sums over all the markets, and the rest from the net results of those that traded. */
  ghost predicate Reports(
      s: Summary, replay: Market -> Result, cached: seq<Market>, pnls: seq<real>, sqrt: real -> real)
  {
    && s.totalPnl == SumOver(replay, cached, Profit)
    && s.totalFees == SumOver(replay, cached, Cost)
    && s.nTrades as real == SumOver(replay, cached, Count)
    && s.netPnl == s.totalPnl - s.totalFees == Sharpe.Total(pnls)
    && s.nMarkets == |pnls|
    && IsWorstFall(pnls, s.maxDrawdown) && s.sharpe == Sharpe.Ratio(pnls, sqrt)
  }

  /** The tally and the net results are those of these markets. */
  ghost predicate Counts(t: Tally, pnls: seq<real>, replay: Market -> Result, cached: seq<Market>) {
    && t.pnl == SumOver(replay, cached, Profit)
    && t.fees == SumOver(replay, cached, Cost)
    && t.trades as real == SumOver(replay, cached, Count)
    && t.wins + t.losses == |pnls| && t.wins == Wins(pnls) && t.pnl - t.fees == Sharpe.Total(pnls)
  }

  lemma {:induction false} CountsReport(
      t: Tally, pnls: seq<real>, replay: Market -> Result, cached: seq<Market>, sqrt: real -> real)
    requires Counts(t, pnls, replay, cached)
    ensures Reports(SummaryOf(t, pnls, sqrt), replay, cached, pnls, sqrt)
  {
    DrawdownIsWorstFall(pnls);
  }

  lemma {:induction false} TallyCounts(replay: Market -> Result, cached: seq<Market>)
    requires IdleIsFree(replay)
    ensures Counts(TallyOf(replay, cached), NetPnls(replay, cached), replay, cached)
  {
    TallySumsMarkets(replay, cached);
    TallyCountsNetPnls(replay, cached);
  }

  lemma WinsAreShare(t: Tally, n: nat, wins: nat)
    requires t.wins + t.losses == n && t.wins == wins
    ensures IsShare(WinRate(t), wins, n)
  {
  }

  lemma {:induction false} DrawdownIsWorstFall(pnls: seq<real>)
    ensures IsWorstFall(pnls, WorstFall(pnls))
  {
    var from, to := WorstFallIsWorst(pnls, |pnls|);
  }

  /** That is what a cell reports of fresh replays. */
  lemma {:induction false} CellsReportMarkets(spec: StrategySpec, cached: seq<Market>, sqrt: real -> real)
    ensures Reports(FreshSummary(spec, cached, sqrt), FreshReplays(spec), cached,
                    NetPnls(FreshReplays(spec), cached), sqrt)
  {
    var replay := FreshReplays(spec);
    FreshReplaysAreFreeWhenIdle(spec);
    TallyCounts(replay, cached);
    CountsReport(TallyOf(replay, cached), NetPnls(replay, cached), replay, cached, sqrt);
  }

  /** Its win rate is the share of strictly positive results among them. */
  lemma {:induction false} CellsReportWins(spec: StrategySpec, cached: seq<Market>, sqrt: real -> real)
    ensures
      var s, pnls := FreshSummary(spec, cached, sqrt), NetPnls(FreshReplays(spec), cached);
      IsShare(s.winRate, Wins(pnls), |pnls|)
  {
    TallyCountsNetPnls(FreshReplays(spec), cached);
    WinsAreShare(TallyOf(FreshReplays(spec), cached), |NetPnls(FreshReplays(spec), cached)|,
                 Wins(NetPnls(FreshReplays(spec), cached)));
  }

  /** Sweeps walk the book with market orders under a ceiling of one, and that is what their trades show. */
  lemma {:induction false} SweepTradesAreMade(spec: StrategySpec, m: Market)
    ensures
      var params := Params(spec, Config(WalkTheBook, 1.0, MarketOrder, -2.0, 60.0, false), m.resolutionAt);
      var trades := FreshReplay(spec, m).trades;
      AllMade(params, m.snapshots, |m.snapshots|, trades, |trades|)
  {
    ReplayTradesAreMade(Params(spec, SWEEP_CONFIG, m.resolutionAt), m.snapshots, m.outcomeYesPrice);
  }

  /** No markets, or none that trade, give a win rate of zero; otherwise it is a proper fraction of them. */
  lemma WinRateIsFraction(t: Tally)
    ensures 0.0 <= WinRate(t) <= 1.0
    ensures WinRate(t) * (t.wins + t.losses) as real == t.wins as real || t.wins + t.losses == 0
  {
  }

  // ------------------------------------------------ order of the markets

  lemma PlusAssociates(a: Tally, b: Tally, c: Tally)
    ensures a.Plus(b).Plus(c) == a.Plus(b.Plus(c))
  {
  }

  lemma TallyOfSnoc(replay: Market -> Result, a: seq<Market>, m: Market)
    ensures TallyOf(replay, a + [m]) == TallyOf(replay, a).Plus(Share(replay(m)))
  {
  }

  lemma {:induction false} TallyOfConcat(replay: Market -> Result, a: seq<Market>, b: seq<Market>)
    ensures TallyOf(replay, a + b) == TallyOf(replay, a).Plus(TallyOf(replay, b))
  {
    if b == [] {
      assert a + b == a;
    } else {
      var front, m := b[..|b| - 1], b[|b| - 1];
      assert b == front + [m] && a + b == (a + front) + [m];
      TallyOfConcat(replay, a, front);
      TallyOfSnoc(replay, a + front, m);
      TallyOfSnoc(replay, front, m);
      PlusAssociates(TallyOf(replay, a), TallyOf(replay, front), Share(replay(m)));
    }
  }

  /** A market can be moved to the end. */
  lemma {:induction false} MoveToEnd(replay: Market -> Result, b: seq<Market>, j: nat)
    requires j < |b|
    ensures TallyOf(replay, b) == TallyOf(replay, b[..j] + b[j + 1..] + [b[j]])
  {
    var front, m, back := b[..j], b[j], b[j + 1..];
    assert b == front + ([m] + back);
    TallyOfConcat(replay, front, [m] + back);
    TallyOfConcat(replay, [m], back);
    TallyOfConcat(replay, front, back);
    TallyOfConcat(replay, front + back, [m]);
  }

  /** Reordering the markets changes none of a cell's totals. */
  lemma {:induction false} OrderDoesNotMatter(replay: Market -> Result, a: seq<Market>, b: seq<Market>)
    requires multiset(a) == multiset(b)
    ensures TallyOf(replay, a) == TallyOf(replay, b)
    decreases |a|
  {
    if a == [] {
      assert |b| == |multiset(a)| == 0;
    } else {
      var n, m := |a| - 1, a[|a| - 1];
      assert a == a[..n] + [m];
      assert m in multiset(b);
      var j :| 0 <= j < |b| && b[j] == m;
      var others := b[..j] + b[j + 1..];
      assert b == b[..j] + [m] + b[j + 1..];
      assert multiset(others) == multiset(b) - multiset{m};
      assert multiset(a[..n]) == multiset(a) - multiset{m};
      OrderDoesNotMatter(replay, a[..n], others);
      MoveToEnd(replay, b, j);
      TallyOfConcat(replay, a[..n], [m]);
      TallyOfConcat(replay, others, [m]);
    }
  }

  lemma {:induction false} NetPnlsOfConcat(replay: Market -> Result, a: seq<Market>, b: seq<Market>)
    ensures NetPnls(replay, a + b) == NetPnls(replay, a) + NetPnls(replay, b)
  {
    if b == [] {
      assert a + b == a;
    } else {
      assert (a + b)[..|a + b| - 1] == a + b[..|b| - 1];
      NetPnlsOfConcat(replay, a, b[..|b| - 1]);
    }
  }

  /** Reordered markets give the same net results, reordered. */
  lemma {:induction false} NetPnlsReorder(replay: Market -> Result, a: seq<Market>, b: seq<Market>)
    requires multiset(a) == multiset(b)
    ensures multiset(NetPnls(replay, a)) == multiset(NetPnls(replay, b))
    decreases |a|
  {
    if a == [] {
      assert |b| == |multiset(a)| == 0;
    } else {
      var n, m := |a| - 1, a[|a| - 1];
      assert a == a[..n] + [m];
      assert m in multiset(b);
      var j :| 0 <= j < |b| && b[j] == m;
      var others := b[..j] + b[j + 1..];
      assert b == b[..j] + [m] + b[j + 1..];
      assert multiset(others) == multiset(b) - multiset{m};
      assert multiset(a[..n]) == multiset(a) - multiset{m};
      NetPnlsReorder(replay, a[..n], others);
      NetPnlsWithout(replay, b, j);
    }
  }

  /** Taking out a market takes out its net result. */
  lemma {:induction false} NetPnlsWithout(replay: Market -> Result, b: seq<Market>, j: nat)
    requires j < |b|
    ensures multiset(NetPnls(replay, b))
         == multiset(NetPnls(replay, b[..j] + b[j + 1..])) + multiset(NetOf(replay(b[j])))
  {
    var front, m, back := b[..j], b[j], b[j + 1..];
    assert b == front + ([m] + back);
    NetPnlsOfConcat(replay, front, [m] + back);
    NetPnlsOfConcat(replay, [m], back);
    NetPnlsOfConcat(replay, front, back);
    assert [m][..0] == [] && NetPnls(replay, [m]) == NetOf(replay(m));
  }

  /** Two cells over reordered markets agree on everything but drawdown, which depends on the order. */
  lemma {:induction false} CellsIgnoreOrder(
      spec: StrategySpec, a: seq<Market>, b: seq<Market>, sqrt: real -> real)
    requires multiset(a) == multiset(b)
    ensures
      var s, t := FreshSummary(spec, a, sqrt), FreshSummary(spec, b, sqrt);
      t == s.(maxDrawdown := t.maxDrawdown)
  {
    var replay := FreshReplays(spec);
    OrderDoesNotMatter(replay, a, b);
    NetPnlsReorder(replay, a, b);
    Sharpe.RatioIgnoresOrder(NetPnls(replay, a), NetPnls(replay, b), sqrt);
  }

  // ------------------------------------------------------------- the grid

  datatype Axis = Axis(start: real, end: real, steps: int)

  /** A missing axis gives one cell; fewer than one step counts as one. */
  function AxisValues(axis: Option<Axis>): seq<Option<real>> {
    match axis
    case None => [None]
    case Some(a) =>
      if a.steps <= 1 then [Some(a.start)]
      else seq(a.steps, i requires 0 <= i => Some(GridPoint(a, i)))
  }

  function GridPoint(a: Axis, i: int): real
    requires a.steps > 1
  {
    a.start + i as real * ((a.end - a.start) / (a.steps - 1) as real)
  }

  /** Both ends are on the grid and consecutive values are equally far apart. */
  lemma AxisIsEven(a: Axis, i: nat)
    requires a.steps > 1 && i + 1 < a.steps
    ensures
      var v := AxisValues(Some(a));
      && |v| == a.steps && v[0] == Some(a.start) && v[a.steps - 1] == Some(a.end)
      && v[i].Some? && v[i + 1].Some?
      && (v[i + 1].value - v[i].value) * (a.steps - 1) as real == a.end - a.start
  {
  }

  /** No axis leaves the parameter alone, and an axis of one step or fewer is its start. */
  lemma ShortAxes(a: Axis)
    ensures AxisValues(None) == [None]
    ensures a.steps < 2 ==> AxisValues(Some(a)) == [Some(a.start)]
  {
  }

  const FAILED_CELL := Summary(0.0, 0.0, 0.0, 0.0, None, 0.0, 0, 0)

  /** A rejected specification, or an exception in any replay, gives the failed cell. */
  ghost function CellOf(spec: Option<StrategySpec>, cached: seq<Market>, out: Outside): Summary {
    if spec.None? || CellResult(spec.value, cached, out).None? then FAILED_CELL
    else CellResult(spec.value, cached, out).value
  }

  /** A cell that could not be replayed shows nothing gained, lost or traded. */
  lemma FailedCellsAreEmpty(spec: Option<StrategySpec>, cached: seq<Market>, out: Outside)
    requires spec == None || SomeRaise(out, spec.value, cached)
    ensures
      var s := CellOf(spec, cached, out);
      && s.totalPnl == s.totalFees == s.netPnl == s.winRate == s.maxDrawdown == 0.0
      && s.sharpe == None && s.nTrades == s.nMarkets == 0
  {
  }

  method RunCell(cached: seq<Market>, spec: Option<StrategySpec>, out: Outside) returns (summary: Summary)
    ensures summary == CellOf(spec, cached, out)
  {
    if spec.None? {
      return FAILED_CELL;
    }
    var strategy := new Strategy(spec.value);
    var cell := ReplayGridCell(cached, strategy, out);
    summary := if cell.Some? then cell.value else FAILED_CELL;
  }

  /** The strategy of each cell; None stands for a specification that is rejected. */
  type Builder = (Option<real>, Option<real>) -> Option<StrategySpec>

  method RunCells(
      cached: seq<Market>, build: Builder, out: Outside, xs: seq<Option<real>>, ys: seq<Option<real>>)
    returns (cells: seq<seq<Summary>>)
    ensures |cells| == |ys| && forall y :: 0 <= y < |ys| ==> |cells[y]| == |xs|
    ensures forall y, x :: 0 <= y < |ys| && 0 <= x < |xs| ==> cells[y][x] == CellOf(build(xs[x], ys[y]), cached, out)
  {
    cells := [];
    for yi := 0 to |ys|
      invariant |cells| == yi && forall y :: 0 <= y < yi ==> |cells[y]| == |xs|
      invariant forall y, x :: 0 <= y < yi && 0 <= x < |xs| ==> cells[y][x] == CellOf(build(xs[x], ys[y]), cached, out)
    {
      var row := RunRow(cached, build, out, xs, ys[yi]);
      cells := cells + [row];
    }
  }

  method RunRow(cached: seq<Market>, build: Builder, out: Outside, xs: seq<Option<real>>, y: Option<real>)
    returns (row: seq<Summary>)
    ensures |row| == |xs| && forall x :: 0 <= x < |xs| ==> row[x] == CellOf(build(xs[x], y), cached, out)
  {
    row := [];
    for xi := 0 to |xs|
      invariant |row| == xi && forall x :: 0 <= x < xi ==> row[x] == CellOf(build(xs[x], y), cached, out)
    {
      var summary := RunCell(cached, build(xs[xi], y), out);
      row := row + [summary];
    }
  }

  predicate RowMajorBefore(y: nat, x: nat, y': nat, x': nat) { y < y' || (y == y' && x < x') }

  /** The first cell, row by row, with the highest net result; None when there are no cells. */
  method BestCell(cells: seq<seq<Summary>>) returns (bestX: nat, bestY: nat, best: Option<real>)
    ensures best.None? ==> bestX == 0 && bestY == 0 && forall y :: 0 <= y < |cells| ==> cells[y] == []
    ensures best.Some? ==>
      && bestY < |cells| && bestX < |cells[bestY]| && cells[bestY][bestX].netPnl == best.value
      && forall y, x :: 0 <= y < |cells| && 0 <= x < |cells[y]| ==>
           && cells[y][x].netPnl <= best.value
           && (RowMajorBefore(y, x, bestY, bestX) ==> cells[y][x].netPnl < best.value)
  {
    bestX, bestY, best := 0, 0, None;
    for yi := 0 to |cells|
      invariant best.None? ==> bestX == 0 && bestY == 0 && forall y :: 0 <= y < yi ==> cells[y] == []
      invariant best.Some? ==>
        && bestY < yi && bestX < |cells[bestY]| && cells[bestY][bestX].netPnl == best.value
        && forall y, x :: 0 <= y < yi && 0 <= x < |cells[y]| ==>
             && cells[y][x].netPnl <= best.value
             && (RowMajorBefore(y, x, bestY, bestX) ==> cells[y][x].netPnl < best.value)
    {
      for xi := 0 to |cells[yi]|
        invariant best.None? ==> xi == 0 && bestX == 0 && bestY == 0 && forall y :: 0 <= y < yi ==> cells[y] == []
        invariant best.Some? ==>
          && bestY <= yi && bestX < |cells[bestY]| && (bestY == yi ==> bestX < xi)
          && cells[bestY][bestX].netPnl == best.value
          && forall y, x :: 0 <= y <= yi && 0 <= x < (if y == yi then xi else |cells[y]|) ==>
               && cells[y][x].netPnl <= best.value
               && (RowMajorBefore(y, x, bestY, bestX) ==> cells[y][x].netPnl < best.value)
      {
        var v := cells[yi][xi].netPnl;
        if best.None? || v > best.value {
          best := Some(v);
          bestX, bestY := xi, yi;
        }
      }
    }
  }
}

/** The per-ticker loops around the analysis: the `/api/analyze` endpoints of
    api-server.js and api/analyze.js, which answer one record per requested
    ticker, and the command-line `analyzeAll`, which keeps the tickers that could
    be analysed and ranks them by score. The history request is a parameter:
    `fetch(k, t)` is what the `k`-th request, for ticker `t`, gave. */
module Batch {
  import opened Optional
  import opened Bars
  import opened Sorting
  import opened RelativeStrength
  import opened Recommendation
  import opened Analysis

  /** What the history request gave: the bars (`None` for a `null` result), or
      the message of the error it threw. */
  datatype Fetched = Fetched(result: Option<seq<Bar>>) | Threw(message: string)

  /** Usable data: neither `!result` nor `result.length === 0`. */
  predicate HasData(f: Fetched)
  {
    f.Fetched? && f.result.Some? && |f.result.value| > 0
  }

  /** The request's `tickers` field: a falsy value (absent, `null`, `""`, ...),
      some other non-array value, or an array. */
  datatype TickersField = Falsy | NotArray | TickerArray(tickers: seq<string>)

  /** The two HTTP endpoints: the Express server and the serverless handler. */
  datatype Endpoint = ExpressServer | ServerlessHandler

  function VariantOf(e: Endpoint): Variant
  {
    if e == ExpressServer then ApiServer else Serverless
  }

  /** The 400 message each endpoint gives a request without tickers. */
  function RejectionMessage(e: Endpoint): (m: string)
    ensures |m| > 15 && m[..15] == "Please provide "
    ensures e == ServerlessHandler <==> m[|m| - 1] == 's'
  {
    match e
    case ExpressServer => "Please provide at least one ticker"
    case ServerlessHandler => "Please provide an array of stock tickers"
  }

  /** The message for a ticker without data: api-server.js pushes a fixed
      error; api/analyze.js throws one naming the ticker, which its handler
      catches into the record. */
  function NoDataMessage(e: Endpoint, ticker: string): (m: string)
    ensures e == ServerlessHandler ==>
              |m| == 18 + |ticker| && m[..18] == "No data found for " && m[18..] == ticker
  {
    if e == ExpressServer then "Could not fetch data" else "No data found for " + ticker
  }

  /** Only the serverless message tells tickers apart. */
  lemma NoDataMessageNamesTicker(t: string, u: string)
    ensures NoDataMessage(ExpressServer, t) == NoDataMessage(ExpressServer, u)
    ensures t != u ==> NoDataMessage(ServerlessHandler, t) != NoDataMessage(ServerlessHandler, u)
  {
    if NoDataMessage(ServerlessHandler, t) == NoDataMessage(ServerlessHandler, u) {
      assert NoDataMessage(ServerlessHandler, t)[18..] == NoDataMessage(ServerlessHandler, u)[18..];
    }
  }

  /** One element of `results`: an analysis, or `{ ticker, error }`. */
  datatype Record = Analyzed(ticker: string, result: Scored) | Failed(ticker: string, error: string)

  /** The reply: `400 { error }`, or `{ results }`. */
  datatype Response = BadRequest(error: string) | Results(records: seq<Record>)

  /** The body of the per-ticker `try`: a thrown fetch becomes `{ ticker, error:
      error.message }`, missing data the endpoint's no-data error, and data is
      analysed in the endpoint's variant. */
  function TickerRecord(e: Endpoint, ticker: string, f: Fetched, sqrt: real -> real): (r: Record)
    ensures r.ticker == ticker
    ensures r.Analyzed? <==> HasData(f)
    ensures f.Threw? ==> r == Failed(ticker, f.message)
    ensures f.Fetched? && !HasData(f) ==> r == Failed(ticker, NoDataMessage(e, ticker))
    ensures r.Analyzed? ==> (r.result.DetailedResult? <==> e == ExpressServer)
    ensures r.Analyzed? ==> AdviceOf(r.result) == Recommend(ScoreOf(r.result))
  {
    match f
    case Threw(message) => Failed(ticker, message)
    case Fetched(result) =>
      if result.Some? && |result.value| > 0 then
        Analyzed(ticker, AnalyzeBars(VariantOf(e), result.value, sqrt))
      else Failed(ticker, NoDataMessage(e, ticker))
  }

  /** A request without a non-empty ticker array is rejected before any fetch;
      otherwise the loop pushes exactly one record per ticker, in request order,
      and each record depends only on its own ticker and its own fetch, so a
      failing ticker leaves the others untouched. */
  method Serve(e: Endpoint, field: TickersField, fetch: (nat, string) -> Fetched, sqrt: real -> real)
    returns (resp: Response)
    ensures resp.BadRequest? <==> !(field.TickerArray? && |field.tickers| > 0)
    ensures resp.BadRequest? ==> resp.error == RejectionMessage(e)
    ensures resp.Results? ==> |resp.records| == |field.tickers|
    ensures resp.Results? ==> forall k :: 0 <= k < |resp.records| ==>
              resp.records[k] == TickerRecord(e, field.tickers[k], fetch(k, field.tickers[k]), sqrt)
  {
    if !(field.TickerArray? && |field.tickers| > 0) {
      return BadRequest(RejectionMessage(e));
    }
    var tickers := field.tickers;
    var records := PushEach(tickers, (k: nat, t: string) => TickerRecord(e, t, fetch(k, t), sqrt));
    return Results(records);
  }

  /** `for (const x of xs) results.push(f(x))`, where `f` also sees the
      iteration number: one result per element, in order. */
  method PushEach<A, B>(xs: seq<A>, f: (nat, A) -> B) returns (ys: seq<B>)
    ensures |ys| == |xs|
    ensures forall k :: 0 <= k < |xs| ==> ys[k] == f(k, xs[k])
  {
    ys := [];
    var k := 0;
    while k < |xs|
      invariant k <= |xs| && |ys| == k
      invariant forall j :: 0 <= j < k ==> ys[j] == f(j, xs[j])
    {
      ys := ys + [f(k, xs[k])];
      k := k + 1;
    }
  }

  /** `x ? x.toFixed(2) : null` in a result record: a falsy indicator
      (undefined, `NaN` or exactly 0) is reported as missing. */
  function NullIfFalsy(x: Option<real>): (r: Option<real>)
    ensures r.Some? <==> Truthy(x)
    ensures r.Some? ==> r == x
  {
    if Truthy(x) then x else None
  }

  /** The indicator fields of a result record. `None` is JSON `null` in
      api-server.js and the placeholder `'-'` in api/analyze.js. */
  datatype Report = Report(
    ticker: string, price: real, score: real, advice: Advice, signals: string,
    rsi: Option<real>, macd: Option<real>, sma20: Option<real>, sma50: Option<real>,
    sma200: Option<real>, bbUpper: Option<real>, bbLower: Option<real>, bbPosition: Option<real>)

  /** A reported field: present exactly when the indicator is truthy, and then
      the indicator's own value. */
  predicate ReportsTruthy(reported: Option<real>, x: Option<real>)
  {
    (reported.Some? <==> Truthy(x)) && (reported.Some? ==> reported == x)
  }

  /** The result record of api-server.js and api/analyze.js: the ticker, the
      latest close, the score and its advice, the signal text, and each of the
      eight indicators reported only when truthy. */
  function ReportOf(ticker: string, s: Scored): (rep: Report)
    ensures rep.ticker == ticker && rep.price == s.reading.price as real
    ensures rep.score == ScoreOf(s) && rep.advice == AdviceOf(s)
    ensures s.DetailedResult? && |s.detailed.tags| == 0 ==> rep.signals == "None"
    ensures s.DetailedResult? && Join(s.detailed.tags, ", ") != "" ==> rep.signals == Join(s.detailed.tags, ", ")
    ensures s.DetailedResult? && Join(s.detailed.tags, ", ") == "" ==> rep.signals == "None"
    ensures s.LightResult? ==> rep.signals == s.light.signals
    ensures ReportsTruthy(rep.rsi, s.reading.rsi) && ReportsTruthy(rep.macd, s.reading.macd)
    ensures ReportsTruthy(rep.sma20, s.reading.sma20) && ReportsTruthy(rep.sma50, s.reading.sma50)
    ensures ReportsTruthy(rep.sma200, s.reading.sma200)
    ensures ReportsTruthy(rep.bbUpper, s.reading.upper) && ReportsTruthy(rep.bbLower, s.reading.lower)
    ensures ReportsTruthy(rep.bbPosition, s.reading.bbPosition)
  {
    var r := s.reading;
    Report(ticker, r.price as real, ScoreOf(s), AdviceOf(s),
           if s.DetailedResult? then SignalText(s.detailed.tags) else s.light.signals,
           NullIfFalsy(r.rsi), NullIfFalsy(r.macd), NullIfFalsy(r.sma20), NullIfFalsy(r.sma50),
           NullIfFalsy(r.sma200), NullIfFalsy(r.upper), NullIfFalsy(r.lower), NullIfFalsy(r.bbPosition))
  }

  /** The record of an analysed history carries the latest close, and its
      advice is the band of the score it reports. */
  lemma ReportFollowsAnalysis(ticker: string, v: Variant, bars: seq<Bar>, sqrt: real -> real)
    requires |bars| > 0
    ensures var rep := ReportOf(ticker, AnalyzeBars(v, bars, sqrt));
            && rep.advice == Recommend(rep.score)
            && rep.price == bars[|bars| - 1].close as real
            && (v != Serverless ==> 0.0 <= rep.score <= 100.0)
  {
  }

  /** A strictly falling history has an RSI of exactly 0, a defined value that
      api-server.js nevertheless reports as `null`. */
  lemma FallingSeriesRsiReportedNull(ticker: string, bars: seq<Bar>, sqrt: real -> real)
    requires |bars| > RsiPeriod
    requires forall j :: 0 <= j < |bars| - 1 ==> bars[j].close > bars[j + 1].close
    ensures IndexedReading(bars, sqrt).rsi == Some(0.0)
    ensures ReportOf(ticker, AnalyzeBars(ApiServer, bars, sqrt)).rsi.None?
  {
    var closes := Closes(bars);
    RsiOfFallingSeries(closes, RsiPeriod);
    assert IndexedReading(bars, sqrt).rsi == Rsi(closes, RsiPeriod)[|closes| - 1];
    assert AnalyzeBars(ApiServer, bars, sqrt).reading == IndexedReading(bars, sqrt);
  }

  /** `{ ticker, score, currentPrice }` returned by the command-line `analyzeStock`. */
  datatype Summary = Summary(ticker: string, score: real, price: real)

  /** `analyzeStock(ticker)` on the command line: `null` when the request threw
      or gave no data, otherwise the detailed score and the latest close. */
  function CliSummary(ticker: string, f: Fetched, sqrt: real -> real): (r: Option<Summary>)
    ensures r.Some? <==> HasData(f)
    ensures r.Some? ==> r.value.ticker == ticker && 0.0 <= r.value.score <= 100.0
    ensures r.Some? ==> r.value.price == f.result.value[|f.result.value| - 1].close as real
  {
    if HasData(f) then
      var bars := f.result.value;
      Some(Summary(ticker, ScoreOf(AnalyzeBars(CommandLine, bars, sqrt)), bars[|bars| - 1].close as real))
    else None
  }

  /** The `analyzeStock` result of every ticker, in order. */
  function Outcomes(tickers: seq<string>, fetch: (nat, string) -> Fetched, sqrt: real -> real): (r: seq<Option<Summary>>)
    ensures |r| == |tickers|
  {
    seq(|tickers|, k requires 0 <= k < |tickers| => CliSummary(tickers[k], fetch(k, tickers[k]), sqrt))
  }

  /** Sort key of `(a, b) => b.score - a.score`: higher scores first. */
  function ByScoreDescending(s: Summary): real
  {
    -s.score
  }

  /** `analyzeAll`: the summaries of the tickers that could be analysed, sorted
      by score from highest to lowest; tickers with equal scores keep their
      order. */
  method AnalyzeAll(tickers: seq<string>, fetch: (nat, string) -> Fetched, sqrt: real -> real)
    returns (ranked: seq<Summary>)
    ensures multiset(ranked) == multiset(Present(Outcomes(tickers, fetch, sqrt)))
    ensures forall x :: x in ranked <==>
              exists k :: 0 <= k < |tickers| && CliSummary(tickers[k], fetch(k, tickers[k]), sqrt) == Some(x)
    ensures forall i, j :: 0 <= i < j < |ranked| ==> ranked[i].score >= ranked[j].score
    ensures forall s :: WithKey(ranked, ByScoreDescending, s)
                     == WithKey(Present(Outcomes(tickers, fetch, sqrt)), ByScoreDescending, s)
  {
    var kept := KeepPresent(Outcomes(tickers, fetch, sqrt));
    ranked := SortBy(kept, ByScoreDescending);
    RankedSummaries(kept);
    AnalysedMembers(tickers, fetch, sqrt);
  }

  /** The collecting loop of `analyzeAll`: `if (result) results.push(result)`
      keeps the non-null results in order. */
  method KeepPresent<T>(outs: seq<Option<T>>) returns (kept: seq<T>)
    ensures kept == Present(outs)
  {
    kept := [];
    var k := 0;
    while k < |outs|
      invariant k <= |outs|
      invariant kept == Present(outs[..k])
    {
      assert outs[..k + 1] == outs[..k] + [outs[k]];
      PresentAppend(outs[..k], [outs[k]]);
      if outs[k].Some? {
        kept := kept + [outs[k].value];
      }
      k := k + 1;
    }
    assert outs[..k] == outs;
  }

  /** A summary is kept exactly when some ticker's analysis produced it. */
  lemma AnalysedMembers(tickers: seq<string>, fetch: (nat, string) -> Fetched, sqrt: real -> real)
    ensures forall x :: x in Present(Outcomes(tickers, fetch, sqrt)) <==>
              exists k :: 0 <= k < |tickers| && CliSummary(tickers[k], fetch(k, tickers[k]), sqrt) == Some(x)
  {
    var outs := Outcomes(tickers, fetch, sqrt);
    PresentMembers(outs);
    forall x | x in Present(outs)
      ensures exists k :: 0 <= k < |tickers| && CliSummary(tickers[k], fetch(k, tickers[k]), sqrt) == Some(x)
    {
      var m :| 0 <= m < |outs| && outs[m] == Some(x);
      assert CliSummary(tickers[m], fetch(m, tickers[m]), sqrt) == outs[m];
    }
    forall x, m | 0 <= m < |tickers| && CliSummary(tickers[m], fetch(m, tickers[m]), sqrt) == Some(x)
      ensures x in Present(outs)
    {
      assert outs[m] == Some(x);
    }
  }

  /** Sorting keeps the summaries, puts higher scores first and keeps the order
      of equal scores. */
  lemma RankedSummaries(kept: seq<Summary>)
    ensures var ranked := SortBy(kept, ByScoreDescending);
            && (forall x :: x in ranked <==> x in kept)
            && (forall i, j :: 0 <= i < j < |ranked| ==> ranked[i].score >= ranked[j].score)
            && (forall s :: WithKey(ranked, ByScoreDescending, s) == WithKey(kept, ByScoreDescending, s))
  {
    var ranked := SortBy(kept, ByScoreDescending);
    forall s
      ensures WithKey(ranked, ByScoreDescending, s) == WithKey(kept, ByScoreDescending, s)
    {
      SortStable(kept, ByScoreDescending, s);
    }
    forall i, j | 0 <= i < j < |ranked|
      ensures ranked[i].score >= ranked[j].score
    {
      assert ByScoreDescending(ranked[i]) <= ByScoreDescending(ranked[j]);
    }
    SameMembers(ranked, kept);
  }
}

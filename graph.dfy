/**
 * The pipeline orchestrator (src/graph.py): three stages, researcher ->
 * analyst -> writer, run once per ticker. Every service the stages call
 * (web search, market data, chart rendering, the language model) is a
 * function parameter bundled in Services.
 */
module Graph {
  import opened Wrappers
  import opened Text
  import opened FinancialTools
  import opened Llm

  /** The search request the researcher sends: the templated query and the result cap. */
  datatype SearchRequest = SearchRequest(query: string, maxResults: nat)

  /** What the search provider gives: the result records (each a field map), or the exception's message. */
  datatype SearchOutcome = SearchFailed(message: string) | SearchHits(hits: seq<map<string, string>>)

  /**
   * The outside world as the pipeline sees it. One history per ticker serves both
   * the price tool and the analyst (both ask for the same one-month window);
   * `render` is pandas' to_string of the closes; `chartRenders` says whether
   * mplfinance manages to write the chart file.
   */
  datatype Services = Services(
    history: string -> HistoryFetch,
    render: seq<Bar> -> string,
    profile: string -> InfoFetch,
    chartRenders: (string, seq<Bar>) -> bool,
    search: SearchRequest -> SearchOutcome,
    env: map<string, string>,
    provider: (Client, ChatRequest) -> Reply)

  // ---------------------------------------------------------------------------
  // Researcher

  const MaxNewsResults: nat := 5

  function SearchQuery(ticker: string): string {
    ticker + " stock latest news financial analysis"
  }

  function NewsFallback(ticker: string): string {
    "Unable to fetch news for " + ticker
  }

  /** Every hit has the two keys the summary reads (a missing one raises KeyError). */
  predicate HitsReadable(hits: seq<map<string, string>>) {
    forall k :: 0 <= k < |hits| ==> "title" in hits[k] && "body" in hits[k]
  }

  function NewsLine(hit: map<string, string>): string
    requires "title" in hit && "body" in hit
  {
    "- " + hit["title"] + ": " + hit["body"]
  }

  function NewsLines(hits: seq<map<string, string>>): (r: seq<string>)
    requires HitsReadable(hits)
    ensures |r| == |hits|
    ensures forall k :: 0 <= k < |hits| ==> r[k] == NewsLine(hits[k])
  {
    seq(|hits|, k requires 0 <= k < |hits| => NewsLine(hits[k]))
  }

  /** researcher_node: the hits as "- title: body" lines joined by newlines, or the fallback text. */
  function Researcher(ticker: string, svc: Services): string {
    match svc.search(SearchRequest(SearchQuery(ticker), MaxNewsResults))
    case SearchFailed(_) => NewsFallback(ticker)
    case SearchHits(hits) =>
      if HitsReadable(hits) then Join(NewsLines(hits), "\n") else NewsFallback(ticker)
  }

  /**
   * The news summary has one line per search hit, in the order of the hits
   * (when titles and bodies hold no line break); no hits give an empty
   * summary, not the fallback; a failed search or a hit without title or body
   * gives the fallback.
   */
  lemma NewsSummaryShape(ticker: string, svc: Services)
    ensures var outcome := svc.search(SearchRequest(SearchQuery(ticker), MaxNewsResults));
      var summary := Researcher(ticker, svc);
      && (outcome.SearchFailed? ==> summary == NewsFallback(ticker))
      && (outcome.SearchHits? && !HitsReadable(outcome.hits) ==> summary == NewsFallback(ticker))
      && (outcome.SearchHits? && outcome.hits == [] ==> summary == "")
      && (outcome.SearchHits? && outcome.hits != [] && HitsReadable(outcome.hits) &&
          (forall k :: 0 <= k < |outcome.hits| ==>
             '\n' !in outcome.hits[k]["title"] && '\n' !in outcome.hits[k]["body"]) ==>
            Lines(summary) == NewsLines(outcome.hits))
  {
    var outcome := svc.search(SearchRequest(SearchQuery(ticker), MaxNewsResults));
    if outcome.SearchHits? && outcome.hits != [] && HitsReadable(outcome.hits) &&
       (forall k :: 0 <= k < |outcome.hits| ==>
          '\n' !in outcome.hits[k]["title"] && '\n' !in outcome.hits[k]["body"]) {
      var lines := NewsLines(outcome.hits);
      forall k | 0 <= k < |lines| ensures '\n' !in lines[k] {
        var hit := outcome.hits[k];
        assert lines[k] == "- " + hit["title"] + ": " + hit["body"];
      }
      LinesOfJoin(lines);
    }
  }

  // ---------------------------------------------------------------------------
  // Analyst

  /** The analyst's signal; Label is the text the program stores for it. */
  datatype Signal = Bullish | Bearish {
    function Label(): (r: string)
      ensures r == "BULLISH" <==> this == Bullish
      ensures r == "BEARISH" <==> this == Bearish
    {
      match this
      case Bullish => "BULLISH"
      case Bearish => "BEARISH"
    }
  }

  /**
   * The metrics the analyst computes, as numbers; the program shows them
   * through `:.2f` and `:,` formatting, which is left out. `pctChange` is None
   * where floating point would give inf or nan (a previous close of zero).
   */
  datatype Metrics = Metrics(currentPrice: real, change: real, pctChange: Option<real>, volume: int, signal: Signal)

  datatype AnalystResult = AnalystResult(financialData: string, chartPath: string, metrics: Option<Metrics>)

  function Closes(bars: seq<Bar>): (r: seq<real>)
    ensures |r| == |bars|
    ensures forall k :: 0 <= k < |bars| ==> r[k] == bars[k].close
  {
    seq(|bars|, k requires 0 <= k < |bars| => bars[k].close)
  }

  function Sum(xs: seq<real>): real
    decreases |xs|
  {
    if xs == [] then 0.0 else xs[0] + Sum(xs[1..])
  }

  const SmaWindow: nat := 20

  /**
   * `rolling(window=20).mean().iloc[-1]`: the mean of the last 20 closes, or
   * None (pandas' NaN) when there are fewer than 20.
   */
  function Sma20(closes: seq<real>): (r: Option<real>)
    ensures r.Some? <==> |closes| >= SmaWindow
  {
    if |closes| < SmaWindow then None
    else Some(Sum(closes[|closes| - SmaWindow..]) / SmaWindow as real)
  }

  /** `signal = "BULLISH" if current_price > sma_20 else "BEARISH"`; a comparison with NaN is false. */
  function SignalFor(closes: seq<real>): (s: Signal)
    requires |closes| >= 1
    ensures s == Bullish <==>
      (|closes| >= SmaWindow && closes[|closes| - 1] * SmaWindow as real > Sum(closes[|closes| - SmaWindow..]))
  {
    var sma := Sma20(closes);
    if sma.Some? && closes[|closes| - 1] > sma.value then Bullish else Bearish
  }

  /**
   * The stored text is "BULLISH" exactly when the last close is above the
   * 20-close mean, and "BEARISH" otherwise, including when the mean is NaN.
   */
  lemma SignalLabel(closes: seq<real>)
    requires |closes| >= 1
    ensures SignalFor(closes).Label() ==
      if |closes| >= SmaWindow && closes[|closes| - 1] * SmaWindow as real > Sum(closes[|closes| - SmaWindow..])
      then "BULLISH" else "BEARISH"
  {
  }

  /** With fewer than twenty closes the average is NaN, so the signal is BEARISH. */
  lemma ShortHistoryIsBearish(closes: seq<real>)
    requires 1 <= |closes| < SmaWindow
    ensures SignalFor(closes) == Bearish
  {
  }

  lemma {:induction false} SumBelow(xs: seq<real>, bound: real)
    requires |xs| >= 1
    requires forall k :: 0 <= k < |xs| - 1 ==> xs[k] < bound
    requires xs[|xs| - 1] <= bound
    ensures |xs| > 1 ==> Sum(xs) < |xs| as real * bound
    ensures Sum(xs) <= |xs| as real * bound
    decreases |xs|
  {
    if |xs| > 1 {
      SumBelow(xs[1..], bound);
    }
  }

  lemma {:induction false} SumOfConstant(xs: seq<real>, c: real)
    requires forall k :: 0 <= k < |xs| ==> xs[k] == c
    ensures Sum(xs) == |xs| as real * c
    decreases |xs|
  {
    if xs != [] { SumOfConstant(xs[1..], c); }
  }

  /** A last close above each of the nineteen before it is above their mean: BULLISH. */
  lemma NewHighIsBullish(closes: seq<real>)
    requires |closes| >= SmaWindow
    requires forall k :: |closes| - SmaWindow <= k < |closes| - 1 ==> closes[k] < closes[|closes| - 1]
    ensures SignalFor(closes) == Bullish
  {
    var window := closes[|closes| - SmaWindow..];
    SumBelow(window, closes[|closes| - 1]);
  }

  /** Twenty equal closes sit exactly on their mean, which is not "above": BEARISH. */
  lemma FlatWindowIsBearish(closes: seq<real>)
    requires |closes| >= SmaWindow
    requires forall k :: |closes| - SmaWindow <= k < |closes| ==> closes[k] == closes[|closes| - 1]
    ensures SignalFor(closes) == Bearish
  {
    SumOfConstant(closes[|closes| - SmaWindow..], closes[|closes| - 1]);
  }

  /** The metric rule, for a history of at least two bars. */
  function ComputeMetrics(bars: seq<Bar>): (m: Metrics)
    requires |bars| >= 2
    ensures m.currentPrice == bars[|bars| - 1].close
    ensures m.change == bars[|bars| - 1].close - bars[|bars| - 2].close
    ensures bars[|bars| - 2].close != 0.0 ==>
      m.pctChange == Some(m.change / bars[|bars| - 2].close * 100.0)
    ensures bars[|bars| - 2].close == 0.0 ==> m.pctChange == None
    ensures m.volume == bars[|bars| - 1].volume
    ensures m.signal == SignalFor(Closes(bars))
  {
    var current := bars[|bars| - 1].close;
    var previous := bars[|bars| - 2].close;
    var change := current - previous;
    Metrics(current, change, if previous == 0.0 then None else Some(change / previous * 100.0),
            bars[|bars| - 1].volume, SignalFor(Closes(bars)))
  }

  function ChartFilename(ticker: string): string {
    ticker + "_chart.png"
  }

  /** The analyst's text for the writer: the profile and the prices between fixed separators. */
  function FinancialData(info: string, prices: string): (r: string)
    ensures |r| == |info| + |prices| + 30
    ensures "--- INFO ---\n" <= r
    ensures r[13..13 + |info|] == info
    ensures r[13 + |info|..|r| - |prices|] == "\n\n--- PRICES ---\n"
    ensures r[|r| - |prices|..] == prices
  {
    "--- INFO ---\n" + info + "\n\n--- PRICES ---\n" + prices
  }

  /**
   * analyst_node. The try block runs in order: fetch the history; on an empty
   * history the chart name is cleared; otherwise read the last two closes (with
   * one bar, iloc[-2] raises before any metric is stored), store the metrics,
   * then render the chart (a failure clears the chart name but keeps the metrics).
   */
  function Analyst(ticker: string, svc: Services): (r: AnalystResult)
    ensures r.financialData ==
      FinancialData(GetCompanyInfo(svc.profile(ticker)), GetStockPrices(ticker, svc.history(ticker), svc.render))
    ensures r.metrics.Some? <==> svc.history(ticker).History? && |svc.history(ticker).bars| >= 2
    ensures r.metrics.Some? ==> r.metrics.value == ComputeMetrics(svc.history(ticker).bars)
    ensures r.chartPath != "" <==> r.metrics.Some? && svc.chartRenders(ticker, svc.history(ticker).bars)
    ensures r.chartPath != "" ==> r.chartPath == ChartFilename(ticker)
  {
    var prices := GetStockPrices(ticker, svc.history(ticker), svc.render);
    var info := GetCompanyInfo(svc.profile(ticker));
    var data := FinancialData(info, prices);
    match svc.history(ticker)
    case HistoryFailed(_) => AnalystResult(data, "", None)
    case History(bars) =>
      if bars == [] then AnalystResult(data, "", None)
      else if |bars| < 2 then AnalystResult(data, "", None)
      else
        var metrics := ComputeMetrics(bars);
        AnalystResult(data, if svc.chartRenders(ticker, bars) then ChartFilename(ticker) else "", Some(metrics))
  }

  // ---------------------------------------------------------------------------
  // Writer and the whole pipeline

  /** writer_node(ticker, news, data) hands its arguments to generate_report as (ticker, data, news). */
  function Writer(ticker: string, news: string, data: string, svc: Services): Result<string, string> {
    GenerateReport(ticker, data, news, svc.env, svc.provider)
  }

  /** The record run_analysis returns. */
  datatype AnalysisRecord = AnalysisRecord(ticker: string, finalReport: string, chartPath: string, metrics: Option<Metrics>)

  /**
   * run_analysis: research, analysis, writing in that order. Only the writer can
   * raise; its exception propagates (as Failure) and no record is produced.
   */
  function RunAnalysis(ticker: string, svc: Services): (r: Result<AnalysisRecord, string>)
    ensures var analysis := Analyst(ticker, svc);
      var report := GenerateReport(ticker, analysis.financialData, Researcher(ticker, svc), svc.env, svc.provider);
      && (r.Success? <==> report.Success?)
      && (r.Failure? ==> r.error == report.error)
      && (r.Success? ==> r.value == AnalysisRecord(ticker, report.value, analysis.chartPath, analysis.metrics))
  {
    var news := Researcher(ticker, svc);
    var analysis := Analyst(ticker, svc);
    match Writer(ticker, news, analysis.financialData, svc)
    case Failure(e) => Failure(e)
    case Success(report) => Success(AnalysisRecord(ticker, report, analysis.chartPath, analysis.metrics))
  }

  /**
   * A ticker without history still gets a report: the record has an empty chart
   * path and no metrics, and whether it exists depends only on the writer.
   */
  lemma NoHistoryStillReports(ticker: string, svc: Services)
    requires svc.history(ticker) == History([])
    ensures RunAnalysis(ticker, svc).Success? <==>
      GenerateReport(ticker, Analyst(ticker, svc).financialData, Researcher(ticker, svc), svc.env, svc.provider).Success?
    ensures RunAnalysis(ticker, svc).Success? ==>
      RunAnalysis(ticker, svc).value.chartPath == "" && RunAnalysis(ticker, svc).value.metrics == None
    ensures Analyst(ticker, svc).financialData ==
      FinancialData(GetCompanyInfo(svc.profile(ticker)), NoDataPrefix + ticker + ".")
  {
  }

  /** The state dictionary the callers pass in; only its ticker is read. */
  datatype PipelineState = PipelineState(ticker: string, messages: seq<string>)

  /** LegacyAppAdapter.invoke: the same record as run_analysis on the state's ticker. */
  function Invoke(state: PipelineState, svc: Services): (r: Result<AnalysisRecord, string>)
    ensures r == RunAnalysis(state.ticker, svc)
  {
    RunAnalysis(state.ticker, svc)
  }

  /** One update the stream yields: the finished stage and its output. */
  datatype Update =
    | ResearcherUpdate(newsSummary: string)
    | AnalystUpdate(result: AnalystResult)
    | WriterUpdate(finalReport: string)

  /**
   * LegacyAppAdapter.stream: yields the researcher's, the analyst's and the
   * writer's update in that order, computed with the same data flow as
   * run_analysis. When the writer raises, the two earlier updates have already
   * been yielded and the exception ends the stream.
   */
  method Stream(state: PipelineState, svc: Services) returns (updates: seq<Update>, raised: Option<string>)
    ensures |updates| == if raised.None? then 3 else 2
    ensures updates[0] == ResearcherUpdate(Researcher(state.ticker, svc))
    ensures updates[1] == AnalystUpdate(Analyst(state.ticker, svc))
    ensures raised.None? <==> Invoke(state, svc).Success?
    ensures raised.Some? ==> raised.value == Invoke(state, svc).error
    ensures raised.None? ==> updates[2] == WriterUpdate(Invoke(state, svc).value.finalReport)
    ensures raised.None? ==>
      (Invoke(state, svc).value.chartPath == updates[1].result.chartPath &&
       Invoke(state, svc).value.metrics == updates[1].result.metrics)
  {
    var ticker := state.ticker;
    updates := [];
    var newsSummary := Researcher(ticker, svc);
    updates := updates + [ResearcherUpdate(newsSummary)];
    var analystResult := Analyst(ticker, svc);
    updates := updates + [AnalystUpdate(analystResult)];
    var report := Writer(ticker, newsSummary, analystResult.financialData, svc);
    match report
    case Failure(e) =>
      raised := Some(e);
    case Success(finalReport) =>
      updates := updates + [WriterUpdate(finalReport)];
      raised := None;
  }
}

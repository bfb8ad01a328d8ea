/**
 * The web front end (streamlit_app.py) without its markup: the agent cards'
 * status line, the ticker gate, the fold of the pipeline's stream updates
 * into the report shown, the commit to the session state, the error
 * classification, the PDF export and the reset.
 */
module StreamlitApp {
  import opened Wrappers
  import opened Text
  import opened Graph
  import PdfGenerator

  // ---------------------------------------------------------------------------
  // render_agent_card

  /** The fixed status texts of an agent card; "running" shows the caller's log line. */
  function StatusTexts(log: string): map<string, string> {
    map["waiting" := "Waiting...", "running" := log, "complete" := "Complete", "error" := "Error"]
  }

  /** status_text.get(status, log): an unknown status shows the log line too. */
  function StatusText(status: string, log: string): (r: string)
    ensures status == "waiting" ==> r == "Waiting..."
    ensures status == "complete" ==> r == "Complete"
    ensures status == "error" ==> r == "Error"
    ensures status !in {"waiting", "complete", "error"} ==> r == log
  {
    var texts := StatusTexts(log);
    if status in texts then texts[status] else log
  }

  /** What an agent card shows, apart from its markup. */
  datatype Card = Card(number: string, role: string, name: string, status: string, statusLine: string, progressBar: bool)

  function RenderAgentCard(number: string, role: string, name: string, status: string, log: string): (c: Card)
    ensures c.progressBar <==> status == "running"
    ensures c.statusLine == StatusText(status, log)
    ensures c.number == number && c.role == role && c.name == name && c.status == status
  {
    Card(number, role, name, status, StatusText(status, log), status == "running")
  }

  /** Only a running card shows its log line and its progress bar together. */
  lemma {:induction false} RunningCardShowsLog(number: string, role: string, name: string, status: string, log: string)
    requires log !in {"Waiting...", "Complete", "Error"}
    ensures var c := RenderAgentCard(number, role, name, status, log);
      c.progressBar ==> c.statusLine == log
    ensures var c := RenderAgentCard(number, role, name, status, log);
      c.statusLine == log <==> status !in {"waiting", "complete", "error"}
  {
    var c := RenderAgentCard(number, role, name, status, log);
    if status == "waiting" {
      assert c.statusLine == "Waiting...";
    } else if status == "complete" {
      assert c.statusLine == "Complete";
    } else if status == "error" {
      assert c.statusLine == "Error";
    }
  }

  // ---------------------------------------------------------------------------
  // The ticker gate

  /** `if submitted and ticker`: the raw input must be non-empty. */
  predicate ShouldRun(submitted: bool, ticker: string) {
    submitted && ticker != ""
  }

  /** ticker.upper().strip() */
  function NormaliseTicker(ticker: string): (r: string)
    ensures NoLower(r)
    ensures r == [] || (!IsSpace(r[0]) && !IsSpace(r[|r| - 1]))
    ensures r == [] <==> AllSpace(ticker)
  {
    UpperKeepsSpaces(ticker);
    StripKeepsNoLower(Upper(ticker));
    Strip(Upper(ticker))
  }

  /** Normalising twice changes nothing. */
  lemma NormaliseTickerIdempotent(ticker: string)
    ensures NormaliseTicker(NormaliseTicker(ticker)) == NormaliseTicker(ticker)
  {
    var once := NormaliseTicker(ticker);
    UpperOfUpper(once);
    StripOfStripped(once);
  }

  // ---------------------------------------------------------------------------
  // The fold of the stream's updates

  /** The last analyst update's result, if any. */
  function LastAnalyst(updates: seq<Update>): (r: Option<AnalystResult>)
    ensures r.Some? <==> exists k :: 0 <= k < |updates| && updates[k].AnalystUpdate?
    ensures r.Some? ==>
      exists k :: 0 <= k < |updates| && updates[k] == AnalystUpdate(r.value) &&
        (forall j :: k < j < |updates| ==> !updates[j].AnalystUpdate?)
    decreases |updates|
  {
    if updates == [] then None
    else
      var last := updates[|updates| - 1];
      var earlier := LastAnalyst(updates[..|updates| - 1]);
      if last.AnalystUpdate? then
        assert updates[|updates| - 1] == AnalystUpdate(last.result);
        Some(last.result)
      else
        assert forall k :: 0 <= k < |updates| - 1 ==> updates[..|updates| - 1][k] == updates[k];
        earlier
  }

  /** The last writer update's report, if any. */
  function LastWriter(updates: seq<Update>): (r: Option<string>)
    ensures r.Some? <==> exists k :: 0 <= k < |updates| && updates[k].WriterUpdate?
    ensures r.Some? ==>
      exists k :: 0 <= k < |updates| && updates[k] == WriterUpdate(r.value) &&
        (forall j :: k < j < |updates| ==> !updates[j].WriterUpdate?)
    decreases |updates|
  {
    if updates == [] then None
    else
      var last := updates[|updates| - 1];
      var earlier := LastWriter(updates[..|updates| - 1]);
      if last.WriterUpdate? then
        assert updates[|updates| - 1] == WriterUpdate(last.finalReport);
        Some(last.finalReport)
      else
        assert forall k :: 0 <= k < |updates| - 1 ==> updates[..|updates| - 1][k] == updates[k];
        earlier
  }

  /** What the loop leaves in final_report, chart_path and metrics. */
  datatype Folded = Folded(finalReport: string, chartPath: string, metrics: Option<Metrics>)

  /**
   * The specification of the fold: the chart path and the metrics of the last
   * analyst update and the report of the last writer update, with "", "" and {}
   * (None) when there is no such update.
   */
  function FoldSpec(updates: seq<Update>): Folded {
    var analyst := LastAnalyst(updates);
    var writer := LastWriter(updates);
    Folded(
      if writer.Some? then writer.value else "",
      if analyst.Some? then analyst.value.chartPath else "",
      if analyst.Some? then analyst.value.metrics else None)
  }

  /**
   * The loop over app.stream: researcher updates change no variable, analyst
   * updates set chart_path and metrics, writer updates set final_report.
   */
  method FoldUpdates(updates: seq<Update>) returns (folded: Folded)
    ensures folded == FoldSpec(updates)
  {
    var finalReport := "";
    var chartPath := "";
    var metrics: Option<Metrics> := None;
    for i := 0 to |updates|
      invariant Folded(finalReport, chartPath, metrics) == FoldSpec(updates[..i])
    {
      assert updates[..i + 1][..i] == updates[..i];
      match updates[i]
      case ResearcherUpdate(_) =>
      case AnalystUpdate(result) =>
        chartPath := result.chartPath;
        metrics := result.metrics;
      case WriterUpdate(report) =>
        finalReport := report;
    }
    assert updates[..|updates|] == updates;
    folded := Folded(finalReport, chartPath, metrics);
  }

  /**
   * A completed stream (researcher, analyst, writer) folds to the analyst's
   * chart and metrics and the writer's report.
   */
  lemma CompletedStreamFolds(updates: seq<Update>)
    requires |updates| == 3 && updates[0].ResearcherUpdate? && updates[1].AnalystUpdate? && updates[2].WriterUpdate?
    ensures FoldSpec(updates) == Folded(updates[2].finalReport, updates[1].result.chartPath, updates[1].result.metrics)
  {
    assert updates[..2][..1] == [updates[0]];
    assert LastAnalyst(updates[..2]) == Some(updates[1].result);
    assert updates[..2][..1][..0] == [];
    assert LastWriter(updates[..2][..1]) == None;
  }

  /** Researcher updates never change what the fold produces. */
  lemma FoldIgnoresResearcher(updates: seq<Update>, news: string)
    ensures FoldSpec(updates + [ResearcherUpdate(news)]) == FoldSpec(updates)
  {
    assert (updates + [ResearcherUpdate(news)])[..|updates|] == updates;
  }

  // ---------------------------------------------------------------------------
  // Error classification

  const RateLimitPhrase := "rate limit"

  /** `"rate limit" in str(e).lower()` */
  predicate IsRateLimit(message: string) {
    Contains(Lower(message), RateLimitPhrase)
  }

  lemma {:induction false} LowerSlice(s: string, i: nat, j: nat)
    requires i <= j <= |s|
    ensures Lower(s)[i..j] == Lower(s[i..j])
  {
    assert forall k :: 0 <= k < j - i ==> Lower(s)[i..j][k] == Lower(s[i..j])[k];
  }

  /** The phrase, in any mix of cases, starts at position i of the message. */
  predicate PhraseAt(message: string, i: nat) {
    i + |RateLimitPhrase| <= |message| && Lower(message[i..i + |RateLimitPhrase|]) == RateLimitPhrase
  }

  /** The test matches the phrase in any mix of upper and lower case, and nothing else. */
  lemma RateLimitIffPhrase(message: string)
    ensures IsRateLimit(message) <==> exists i: nat :: PhraseAt(message, i)
  {
    if IsRateLimit(message) {
      var i := ContainsWitness(Lower(message), RateLimitPhrase);
      LowerSlice(message, i, i + |RateLimitPhrase|);
      assert PhraseAt(message, i);
    }
    forall i: nat | PhraseAt(message, i)
      ensures IsRateLimit(message)
    {
      LowerSlice(message, i, i + |RateLimitPhrase|);
      ContainsAt(Lower(message), RateLimitPhrase, i);
    }
  }

  // ---------------------------------------------------------------------------
  // The session

  /** st.session_state.report_data once a run has completed. */
  datatype ReportData = ReportData(ticker: string, report: string, chart: string, metrics: Option<Metrics>)

  /** How one press of "Generate Report" ends. */
  datatype RunOutcome =
    | NotRun
    | InvalidTicker(ticker: string)
    | Completed
    | RateLimited
    | Failed(message: string)

  /** The saved PDF: its file name and the elements written to it. */
  datatype SavedPdf = SavedPdf(path: string, events: seq<PdfGenerator.Event>)

  function PdfName(ticker: string): string {
    ticker + "_Report.pdf"
  }

  /** The outcome of one press of "Generate Report", as the page reports it. */
  function SubmitOutcome(submitted: bool, ticker: string, validate: string -> bool, svc: Services): RunOutcome {
    if !ShouldRun(submitted, ticker) then NotRun
    else
      var clean := NormaliseTicker(ticker);
      if !validate(clean) then InvalidTicker(clean)
      else
        match Invoke(PipelineState(clean, []), svc)
        case Success(_) => Completed
        case Failure(error) => if IsRateLimit(error) then RateLimited else Failed(error)
  }

  /** What a completed run stores: the normalised ticker and the record's report, chart and metrics. */
  function Committed(ticker: string, svc: Services): ReportData
    requires Invoke(PipelineState(NormaliseTicker(ticker), []), svc).Success?
  {
    var record := Invoke(PipelineState(NormaliseTicker(ticker), []), svc).value;
    ReportData(NormaliseTicker(ticker), record.finalReport, record.chartPath, record.metrics)
  }

  /**
   * The outcomes a press can have: nothing without a submitted non-empty ticker,
   * a refusal of a ticker the check rejects, completion exactly when the pipeline
   * succeeds, and otherwise a rate-limit notice or the error's own message.
   */
  lemma SubmitOutcomeCases(submitted: bool, ticker: string, validate: string -> bool, svc: Services)
    ensures var outcome := SubmitOutcome(submitted, ticker, validate, svc);
      var clean := NormaliseTicker(ticker);
      var run := Invoke(PipelineState(clean, []), svc);
      && (!submitted || ticker == "" <==> outcome == NotRun)
      && (ShouldRun(submitted, ticker) && !validate(clean) <==> outcome == InvalidTicker(clean))
      && (outcome.Completed? <==> ShouldRun(submitted, ticker) && validate(clean) && run.Success?)
      && (outcome.RateLimited? <==> ShouldRun(submitted, ticker) && validate(clean) && run.Failure? && IsRateLimit(run.error))
      && (outcome.Failed? <==> ShouldRun(submitted, ticker) && validate(clean) && run.Failure? && !IsRateLimit(run.error))
      && (outcome.Failed? ==> outcome.message == run.error)
  {
  }

  /** The per-browser session state. */
  class Session {
    var reportData: Option<ReportData>

    /** A fresh session has no report. */
    constructor ()
      ensures reportData == None
    {
      reportData := None;
    }

    /**
     * One press of "Generate Report": the gate, the ticker check (`validate`
     * stands for validate_ticker), the stream and its fold, and the commit.
     * The report is committed only when the whole stream is consumed; an
     * invalid ticker or a raised error leaves the session as it was.
     */
    method Submit(submitted: bool, ticker: string, validate: string -> bool, svc: Services)
      returns (outcome: RunOutcome)
      modifies this
      ensures outcome == SubmitOutcome(submitted, ticker, validate, svc)
      ensures reportData == if outcome.Completed? then Some(Committed(ticker, svc)) else old(reportData)
    {
      if !(submitted && ticker != "") {
        return NotRun;
      }
      var cleanTicker := NormaliseTicker(ticker);
      if !validate(cleanTicker) {
        return InvalidTicker(cleanTicker);
      }
      var state := PipelineState(cleanTicker, []);
      var updates, raised := Stream(state, svc);
      var folded := FoldUpdates(updates);
      match raised
      case Some(error) =>
        outcome := if IsRateLimit(error) then RateLimited else Failed(error);
      case None =>
        CompletedStreamFolds(updates);
        reportData := Some(ReportData(cleanTicker, folded.finalReport, folded.chartPath, folded.metrics));
        outcome := Completed;
    }

    /** The download button's file: create_pdf on the committed report, saved as "<ticker>_Report.pdf". */
    method ExportPdf(chartExists: bool) returns (saved: Option<SavedPdf>)
      ensures reportData.None? ==> saved.None?
      ensures reportData.Some? ==>
        var data := reportData.value;
        saved == Some(SavedPdf(PdfName(data.ticker), PdfGenerator.Layout(data.ticker, data.report, data.chart, chartExists)))
    {
      if reportData.None? {
        return None;
      }
      var data := reportData.value;
      var path, events := PdfGenerator.CreatePdf(data.ticker, data.report, PdfName(data.ticker), data.chart, chartExists);
      saved := Some(SavedPdf(path, events));
    }

    /** "New Analysis": forget the report. */
    method NewAnalysis()
      modifies this
      ensures reportData == None
    {
      reportData := None;
    }
  }
}

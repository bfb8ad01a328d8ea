# AI Investment Committee: a Dafny model

The system is a small equity-research pipeline behind a Streamlit page. For one
ticker:

- a researcher stage collects news from a web search;
- an analyst stage fetches a month of prices and the company profile, computes
  a few metrics and a BULLISH/BEARISH signal, and renders a candlestick chart;
- a writer stage asks a language model for a report in six `### ` sections.

The page streams the three stages' updates and keeps the finished report in
the session. It exports the report as a PDF, whose layout comes from splitting
the report on `###` markers.

This project models the deterministic logic between those service calls, and
proves what that logic promises. The modules are:

- `Text`: Python's `strip`, `upper`, `lower`, `replace`, `in`, `split` and
  `join` on ASCII text.
- `FinancialTools`: the price and profile texts of the market-data adapter,
  including their error strings.
- `Llm`: the credential gate, the prompt template and the one chat request.
- `Graph`: the researcher's summary, the analyst's metrics, signal and chart
  name, the writer, `run_analysis`, and the adapter's `invoke` and `stream`.
- `PdfGenerator`: the split of the report, the treatment of each piece, text
  cleaning, chart placement, and `create_pdf` as a loop that appends to the
  document.
- `StreamlitApp`: the agent-card status line, the ticker gate, the fold of the
  stream's updates, the commit to the session, error classification, the PDF
  export and the reset.
- `ReportContract`: lemmas across files. A report written with the prompt's
  headers splits into exactly those sections in order. This holds as long as
  the text before the first header and the section bodies hold no further
  `###\s+` match. Other '#' characters, "## " sub-headings among them, are
  allowed. Such a report gets one chart when the chart is available and none
  otherwise, provided the text before the first header does not mention
  "Quantitative Data" (if it does, its first line becomes a titled piece of
  its own, and that can add a second chart).

Services are parameters of the model. The pipeline's services are bundled as
`Graph.Services`:

- the price history, the profile, the search, the environment and the language
  model;
- pandas' `to_string` of the closes (`render`);
- whether mplfinance writes the chart (`chartRenders`).

Two more are plain parameters of the operations that use them:

- whether the chart file exists when the PDF is built (`chartExists`, taken by
  `PdfGenerator.CreatePdf` and `StreamlitApp.Session.ExportPdf`);
- `validate_ticker`'s lookup (`validate`, taken by `StreamlitApp.Session.Submit`
  and `StreamlitApp.SubmitOutcome`).

The stateful parts are imperative Dafny:

- `PdfGenerator.ReportPdf` is a class whose methods append events. `CreatePdf`
  loops over the split pieces, and its postcondition ties the document to the
  function `Layout`.
- `StreamlitApp.FoldUpdates` is the loop over the stream, proved against
  `FoldSpec`.
- `StreamlitApp.Session` holds `report_data`. `Submit` commits to it, and
  `NewAnalysis` resets it.

Whitespace is Python's `str.isspace` restricted to ASCII: space, `\t \n \v \f
\r` and `\x1c`-`\x1f`. The same set serves `strip()` and the regular
expression `\s`. Upper and lower case are the ASCII letters.

## Model

| member | source | states |
|---|---|---|
| FinancialTools.GetStockPrices | src/tools/financial_tools.py:4-20 | The definition of get_stock_prices: the fetch error's text, the no-data text, or the rendered closes. What a reader can tell from the text is proved in PriceTextsAreDistinguishable. |
| FinancialTools.PriceTextsAreDistinguishable | src/tools/financial_tools.py:9-20 | Reading the price text back recovers what happened: an empty history gives exactly "Error: No data found for ticker <t>.", a fetch exception gives "Error fetching data: " followed by the message, and any other history gives the rendered closes. This holds when the rendering does not itself start with "Error". |
| FinancialTools.Field | src/tools/financial_tools.py:32-34 | The definition of `info.get(key, 'N/A')`: the stored value when the key is present, "N/A" otherwise. What the profile text promises is proved in ProfileHasThreeLines. |
| FinancialTools.GetCompanyInfo | src/tools/financial_tools.py:22-37 | The definition of get_company_info: the three tagged fields joined by line breaks, or the error text. Its properties are proved in ProfileHasThreeLines and ProfileErrorIsDistinguishable. |
| FinancialTools.ProfileHasThreeLines | src/tools/financial_tools.py:31-35 | The profile splits into exactly three lines. They are "Company: " with longName, "Sector: " with sector and "Summary: " with longBusinessSummary, in that order, and each missing key shows "N/A". This holds when those three values contain no line break; other keys may hold anything. |
| FinancialTools.ProfileErrorIsDistinguishable | src/tools/financial_tools.py:26-37 | A text starts with "Company: " exactly when the profile was fetched. A failed fetch gives exactly "Error fetching info: " followed by the exception's message, and that message can be read back after the prefix. |
| Llm.GetLlmClient | src/llm.py:9-18 | It fails exactly when GROQ_API_KEY is unset or empty, and then with the fixed message. Otherwise the client carries that key. |
| Llm.HeaderLines | src/llm.py:32-38 | The definition of the six header lines: "### " followed by each header name, in the prompt's order. Their place at the end of the prompt is proved in PromptEndsWithHeaderLines. |
| Llm.Prompt | src/llm.py:26-38 | The definition of the prompt template: the introduction with the ticker, "DATA: " with the data, "NEWS: " with the news, then the instruction and the six header lines. Its properties are proved in PromptEmbedsInputs and PromptEndsWithHeaderLines. |
| Llm.PromptEmbedsInputs | src/llm.py:26-30 | The prompt contains the ticker, the data and the news verbatim. |
| Llm.PromptEndsWithHeaderLines | src/llm.py:26-38 | Whatever the inputs, the last six lines of the prompt are the six header lines, in order. |
| Llm.Request | src/llm.py:40-44 | The definition of the one request: the fixed model, one user message holding the prompt, and temperature 0. That the outcome depends only on it is proved in GenerationDependsOnlyOnTheRequest. |
| Llm.GenerateReport | src/llm.py:20-46 | The credential gate comes first. Without a key the result is the gate's error. With a key, the result is the provider's content unchanged, or the provider's error message. |
| Llm.MissingKeyFailsBeforeAnyRequest | src/llm.py:24 | Without a key the outcome does not depend on the provider at all, so no request is made. |
| Llm.GenerationDependsOnlyOnTheRequest | src/llm.py:40-46 | With a key, two providers that answer the fixed request alike give the same report. |
| Graph.Researcher | src/graph.py:13-29 | The definition of researcher_node: the hits joined as news lines, or the fallback text. What the summary promises is proved in NewsSummaryShape. |
| Graph.NewsLines | src/graph.py:25 | The definition of the "- title: body" lines, one per search hit, in hit order. That the summary splits back into them is proved in NewsSummaryShape. |
| Graph.NewsSummaryShape | src/graph.py:19-29 | The search asks for at most 5 results. A failed search, or a hit without a title or body, gives "Unable to fetch news for <t>". No hits give "". Otherwise, when no title or body contains a line break, the summary splits back into the hits' lines, in order. |
| Graph.Closes | src/graph.py:48-55 | The definition of the closing prices, one per bar, in order. The signal built on them is characterised in SignalFor, ShortHistoryIsBearish, NewHighIsBullish and FlatWindowIsBearish. |
| Graph.Sma20 | src/graph.py:55 | The 20-close moving average exists exactly when there are at least 20 closes; with fewer, pandas gives NaN. |
| Graph.SignalFor | src/graph.py:56 | BULLISH exactly when there are at least 20 closes and the last close is above the mean of the last 20 (20 times the last close exceeds their sum). A comparison with NaN is false, so otherwise BEARISH. |
| Graph.SignalLabel | src/graph.py:56 | The stored signal text is "BULLISH" exactly when there are at least 20 closes and the last is above the mean of the last 20. Otherwise it is "BEARISH". |
| Graph.ShortHistoryIsBearish | src/graph.py:55-56 | With fewer than 20 closes the signal is BEARISH. |
| Graph.NewHighIsBullish | src/graph.py:55-56 | A last close above each of the 19 before it gives BULLISH. |
| Graph.FlatWindowIsBearish | src/graph.py:55-56 | Twenty equal closes give BEARISH, because the last close is not above its own mean. |
| Graph.ComputeMetrics | src/graph.py:48-64 | The current price is the last close. The change is the last close minus the previous one. The percentage is change / previous × 100, or none for a previous close of 0. The volume is the last bar's. The signal is the Sma20 rule. |
| Graph.FinancialData | src/graph.py:89 | The text is "--- INFO ---\n", then the profile, then "\n\n--- PRICES ---\n", then the prices, and nothing else. |
| Graph.Analyst | src/graph.py:31-92 | The financial data joins the profile and price texts. Metrics exist exactly when the history has at least two bars, and equal ComputeMetrics then. The chart path is non-empty exactly when metrics exist and the chart renders, and is then "<t>_chart.png". |
| Graph.Writer | src/graph.py:94-102 | The definition of writer_node: generate_report with the arguments reordered from (ticker, news, data) to (ticker, data, news). RunAnalysis states that the writer gets the researcher's news and the analyst's data. |
| Graph.RunAnalysis | src/graph.py:104-132 | The writer receives the researcher's news and the analyst's financial data. The record exists exactly when the writer succeeds, and holds the ticker, the report and the analyst's chart and metrics. Otherwise the writer's error propagates. |
| Graph.NoHistoryStillReports | src/graph.py:42-46 | An empty history gives no metrics and an empty chart path, and the financial data carries the no-data text. Whether a record exists then depends only on the writer. |
| Graph.Invoke | src/graph.py:138-142 | The definition of `invoke`: the same record as `run_analysis` on the state's ticker. How the stream agrees with it is proved in Stream and CompletedStreamFolds. |
| Graph.Stream | src/graph.py:144-158 | The stream yields the researcher's update and then the analyst's update. It then yields the writer's update exactly when `invoke` succeeds, or ends with invoke's error. The writer's report, chart and metrics are those of invoke's record. |
| PdfGenerator.Segments | src/pdf_generator.py:56 | The split of the report on `###\s+` always has at least one piece, and the first piece is a prefix of the text. The round trip is proved in SegmentsRoundTrip. |
| PdfGenerator.SegmentsRoundTrip | src/pdf_generator.py:56 | The split loses nothing. The pieces, with the removed separators put back between them, give the report again. There is one separator between each two pieces, and each is a whole, non-empty match of `###\s+`. |
| PdfGenerator.SegmentsHoldNoSeparator | src/pdf_generator.py:56 | No piece of the split contains a `###\s+` match. |
| PdfGenerator.SegmentsOfPlainPrefix | src/pdf_generator.py:56 | Text without '#' in front of the report only lengthens the first piece. |
| PdfGenerator.SegmentsOfUncutPrefix | src/pdf_generator.py:56 | Text holding no `###\s+` match, followed by the end or by a "###" marker, only lengthens the first piece. This holds even when that text ends in '#' characters. |
| PdfGenerator.SegmentsAtMarker | src/pdf_generator.py:56 | "### " followed by a visible character cuts the text right there, leaving an empty piece in front. |
| PdfGenerator.SectionTitle | src/pdf_generator.py:35 | The title is written upper-cased, its length unchanged. |
| PdfGenerator.CleanBody | src/pdf_generator.py:41 | The cleaned body has no "**", no "* " and no surrounding whitespace. |
| PdfGenerator.Classify | src/pdf_generator.py:59-75 | The definition of the loop's decision for a piece: skipped, untitled body, or title and body. Its cases are proved in ClassifyBlank, ClassifyUntitled and ClassifyTitled. |
| PdfGenerator.ClassifyBlank | src/pdf_generator.py:59 | A piece is skipped exactly when it is whitespace only. |
| PdfGenerator.ClassifyUntitled | src/pdf_generator.py:74-75 | A non-blank piece without a line break is body text, taken whole. |
| PdfGenerator.ClassifyTitled | src/pdf_generator.py:60-63 | A non-blank piece with a line break is titled. The title is the stripped text before the first line break, and the body is the stripped rest. |
| PdfGenerator.PieceEvents | src/pdf_generator.py:59-75 | The definition of the elements one classified piece appends. Its image count is proved in PieceImageCount, and its clean bodies in BodiesAreClean. |
| PdfGenerator.SegmentEvents | src/pdf_generator.py:59-75 | The definition of the elements one piece of the split appends: PieceEvents of its classification. What a titled piece writes is spelled out in SegmentEventsTitled. |
| PdfGenerator.SegmentEventsTitled | src/pdf_generator.py:60-73 | A titled piece writes a Title (the stripped first line, upper-cased), then a Body (the stripped rest, cleaned). An Image follows exactly when the title contains "Quantitative Data", the chart path is non-empty and the file exists. |
| PdfGenerator.Layout | src/pdf_generator.py:52-53 | The first element is always the heading "EQUITY RESEARCH: <ticker>". |
| PdfGenerator.LayoutOfAppend | src/pdf_generator.py:58 | The layout of the pieces is the layouts of each piece, one after another, in split order. |
| PdfGenerator.ReportPdf.AddHeading | src/pdf_generator.py:52-53 | Appends exactly the heading element and keeps everything written before. |
| PdfGenerator.ReportPdf.AddSectionTitle | src/pdf_generator.py:32-36 | Appends exactly one Title holding the title upper-cased, and keeps everything written before. |
| PdfGenerator.ReportPdf.AddSectionBody | src/pdf_generator.py:38-43 | Appends exactly one Body holding the cleaned text, and keeps everything written before. |
| PdfGenerator.ReportPdf.AddImage | src/pdf_generator.py:72 | Appends exactly one Image with the given path, and keeps everything written before. |
| PdfGenerator.ReportPdf.AddPiece | src/pdf_generator.py:59-75 | One pass of the loop body appends exactly the elements that SegmentEvents gives for that piece. |
| PdfGenerator.CreatePdf | src/pdf_generator.py:47-78 | It returns save_path unchanged. The document it builds is exactly Layout: the heading, then each piece's elements in split order. |
| PdfGenerator.BodiesAreClean | src/pdf_generator.py:41-75 | No Body element anywhere in the document contains "**" or "* ". |
| PdfGenerator.ImagesFollowTitledBodies | src/pdf_generator.py:65-73 | Every Image comes straight after a Body that comes straight after a Title, so never after an untitled piece. Every Image shows the given chart, and only when the chart is available. |
| PdfGenerator.PieceImageCount | src/pdf_generator.py:70-73 | One piece gives one Image when it is titled, its title names "Quantitative Data" and the chart is available, and none otherwise. |
| PdfGenerator.LayoutImageCount | src/pdf_generator.py:58-73 | The document's Image count is the number of titled pieces whose title contains "Quantitative Data" when the chart is available, and 0 otherwise. |
| StreamlitApp.StatusText | streamlit_app.py:422-442 | waiting shows "Waiting...", complete "Complete" and error "Error". Running, and any status not in the table, shows the log line. |
| StreamlitApp.RenderAgentCard | streamlit_app.py:421-447 | The definition of a card: the progress bar shows exactly for status "running", the status line is StatusText, and the other fields are passed through. What a card shows is proved in RunningCardShowsLog. |
| StreamlitApp.RunningCardShowsLog | streamlit_app.py:422-442 | For a log that is none of the fixed texts, a card shows the log exactly when its status is not waiting, complete or error. A card with a progress bar shows the log. |
| StreamlitApp.NormaliseTicker | streamlit_app.py:495 | `upper().strip()` leaves no lower-case letter and no surrounding whitespace. It is empty exactly when the input is whitespace only. |
| StreamlitApp.NormaliseTickerIdempotent | streamlit_app.py:495 | Normalising twice gives the same ticker. |
| StreamlitApp.LastAnalyst | streamlit_app.py:515-517 | There is a result exactly when some update is an analyst update. It is then the result of the last analyst update: no analyst update comes after it. |
| StreamlitApp.LastWriter | streamlit_app.py:520-521 | There is a report exactly when some update is a writer update. It is then the report of the last writer update: no writer update comes after it. |
| StreamlitApp.FoldUpdates | streamlit_app.py:505-522 | The loop leaves FoldSpec: the last analyst update's chart and metrics, the last writer update's report, and "", "", {} when there is none. |
| StreamlitApp.CompletedStreamFolds | streamlit_app.py:505-529 | A researcher, analyst, writer stream folds to the writer's report and the analyst's chart and metrics. |
| StreamlitApp.FoldIgnoresResearcher | streamlit_app.py:512-514 | A researcher update changes nothing the fold produces. |
| StreamlitApp.IsRateLimit | streamlit_app.py:532-533 | The definition of the rate-limit test: "rate limit" occurs in the lower-cased message. Its meaning is proved in RateLimitIffPhrase. |
| StreamlitApp.RateLimitIffPhrase | streamlit_app.py:532-533 | The rate-limit branch is taken exactly when "rate limit", in any mix of cases, occurs somewhere in the message. |
| StreamlitApp.SubmitOutcome | streamlit_app.py:494-539 | The definition of how one press ends: not run, invalid ticker, completed, rate limited, or failed with the message. Its cases are proved in SubmitOutcomeCases, and Session.Submit is proved to produce it. |
| StreamlitApp.SubmitOutcomeCases | streamlit_app.py:494-539 | Nothing runs without a submitted, non-empty ticker. A rejected ticker is refused under its normalised form, before any stage runs. A run completes exactly when invoke succeeds. Otherwise the rate-limit or generic branch is chosen by the message. |
| StreamlitApp.Session.Submit | streamlit_app.py:494-539 | The outcome is SubmitOutcome. `report_data` changes only on completion, to the normalised ticker and the record's report, chart and metrics; otherwise it is left as it was. |
| StreamlitApp.Session.ExportPdf | streamlit_app.py:543-598 | Without a report, nothing is exported. With one, the file is "<ticker>_Report.pdf" and holds the Layout of the stored report and chart. |
| StreamlitApp.Session.NewAnalysis | streamlit_app.py:610-611 | `report_data` becomes empty. |
| StreamlitApp.Session.constructor | streamlit_app.py:459-460 | A new session has no report. |
| ReportContract.SegmentsOfReport | src/pdf_generator.py:56 | A preamble with no `###\s+` match, followed by well-formed "### header\nbody" sections whose bodies hold no such match either, splits into the preamble and then one piece per section, in order. |
| ReportContract.PieceIsTitled | src/pdf_generator.py:60-63 | Each such piece is titled: the stripped header over the stripped body. |
| ReportContract.LayoutOfReport | src/pdf_generator.py:52-75 | Such a report lays out as the heading, the preamble's elements, and then each section's title, body and possible image, in header order. |
| ReportContract.PromptHeadersAreNames | src/llm.py:33-38 | All six prompt headers survive the split intact. |
| ReportContract.OneQuantitativeHeader | src/llm.py:33-38 | Exactly one of the six headers, "Quantitative Data", names the quantitative data. |
| ReportContract.OneChartPerReport | src/pdf_generator.py:70-73 | A report with the prompt's six headers gets exactly one Image when the chart is available, and none otherwise. This holds when the bodies and the preamble hold no further `###\s+` match and the preamble does not name the quantitative data. |
| Text.StripSpan | src/pdf_generator.py:41 | `strip()` keeps a contiguous piece of its argument, and only whitespace lies around that piece. |
| Text.RemovingDoubleStarLeavesNone | src/pdf_generator.py:41 | After `replace('**', '')` no "**" is left. |
| Text.RewritingStarSpaceLeavesNone | src/pdf_generator.py:41 | When the text has no "**", `replace('* ', '- ')` leaves neither "**" nor "* ". |
| Text.LinesOfJoin | src/graph.py:25 | Joining a non-empty list of texts without line breaks by "\n", and splitting again, gives the list back. (An empty list joins to "", which splits to [""].) |

## Left out

- FPDF itself is not modelled: fonts, colours, cell geometry, page breaks, and the per-page header and footer (src/pdf_generator.py:6-30). The document is the sequence of elements written to it. `pdf.output` writing the file is not modelled.
- `os.path.exists` on the chart is a boolean parameter, and the file system is not modelled.
- Chart rendering (`mpf.plot`) is an oracle that says whether the file gets written.
- The `:.2f` and `:,` formatting of the metrics (src/graph.py:58-64) is not modelled. Metrics are kept as numbers over `real`, and a division by a zero previous close is None, where numpy would give inf or nan.
- pandas' `to_string` of the closes is a parameter (`render`).
- The market data, web search and language-model calls are function parameters. One history oracle serves both the price tool and the analyst, since both ask for the same one-month window.
- `load_dotenv` is not modelled. The environment is a map.
- `print` logging in the stages is not modelled.
- `validate_ticker`'s provider lookup (streamlit_app.py:450-455) is a boolean oracle, `validate`.
- A whitespace-only ticker passes the gate and is checked as the empty ticker. The model keeps that behaviour.
- Streamlit is not modelled: HTML and CSS, the columns and placeholders, the metrics grid and report display (streamlit_app.py:550-594), and the download button.
- `st.stop` and `st.rerun` are modelled as the end of `Submit` and of `NewAnalysis`.
- The cards re-rendered during the fold are not modelled. `RenderAgentCard` models one card.
- StreamlitApp.Session.ExportPdf: the PDF is the list of elements and the file name. Reading the file back for the download is not modelled.
- StreamlitApp.FoldUpdates: each chunk of the stream has exactly one node entry, so the inner `chunk.items()` loop is the match on the update.
- The file-name race is not modelled: concurrent runs for the same ticker share `<ticker>_chart.png` and `<ticker>_Report.pdf`.
- Only ASCII is modelled. Unicode whitespace, case mapping and normalisation are not.
- The analysis record holds the ticker, report, chart path and metrics, as the code builds it (src/graph.py:127-132). It does not carry the news or the financial data.
- PdfGenerator.Segments: the split is a left-to-right scan for `###` followed by a greedy run of whitespace, which is what `re.split` does with this pattern. Regular expressions in general are not modelled.

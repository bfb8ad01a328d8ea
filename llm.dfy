/**
 * The report generator (src/llm.py): a credential gate, one fixed prompt
 * template, and one deterministic chat completion. The provider is a
 * function parameter; it receives the client the gate produced.
 */
module Llm {
  import opened Wrappers
  import opened Text

  const ApiKeyVariable := "GROQ_API_KEY"
  const MissingKeyMessage := "\U{274C} Error: GROQ_API_KEY not found. Please configure your .env file or system secrets."
  const ModelName := "llama-3.3-70b-versatile"

  /** A configured provider client: it carries the key it was built with. */
  datatype Client = Client(apiKey: string)

  /** One chat completion request with a single message. */
  datatype ChatRequest = ChatRequest(model: string, role: string, content: string, temperature: int)

  /** What the provider answers: the first choice's content, or an exception's message. */
  datatype Reply = Completion(content: string) | ProviderError(message: string)

  /**
   * get_llm_client: a client for the key in the environment, or the ValueError
   * when the variable is unset or empty (both are falsy to `if not api_key`).
   */
  function GetLlmClient(env: map<string, string>): (r: Result<Client, string>)
    ensures r.Failure? <==> ApiKeyVariable !in env || env[ApiKeyVariable] == ""
    ensures r.Failure? ==> r.error == MissingKeyMessage
    ensures r.Success? ==> r.value.apiKey == env[ApiKeyVariable]
  {
    if ApiKeyVariable !in env || env[ApiKeyVariable] == "" then Failure(MissingKeyMessage)
    else Success(Client(env[ApiKeyVariable]))
  }

  /** The six section headers the prompt demands, in the order it lists them. */
  const Headers: seq<string> := ["Executive Summary", "Company Profile", "Market Analysis",
                                  "Quantitative Data", "Risk Factors", "Legal Notice"]

  /** The Markdown header line for one section. */
  function HeaderLine(name: string): (r: string)
    ensures "### " <= r && r[4..] == name
  {
    "### " + name
  }

  function HeaderLines(): (r: seq<string>)
    ensures |r| == |Headers|
    ensures forall k :: 0 <= k < |Headers| ==> r[k] == HeaderLine(Headers[k])
  {
    seq(|Headers|, k requires 0 <= k < |Headers| => HeaderLine(Headers[k]))
  }

  // The fixed pieces of the prompt template, between the three interpolated values.
  const Intro := "You are a Senior Investment Banker. \nWrite a professional equity research report for: "
  const DataLabel := ".\n\nDATA: "
  const NewsLabel := "\nNEWS: "
  const StructureLabel := "\n\nStructure using EXACTLY these Markdown headers:"

  /** What follows the news: the instruction and the six header lines. */
  function Closing(): string {
    StructureLabel + "\n" + Join(HeaderLines(), "\n")
  }

  /** The prompt template of generate_report. */
  function Prompt(ticker: string, data: string, news: string): string {
    Intro + ticker + DataLabel + data + NewsLabel + news + Closing()
  }

  /** Each interpolated value of a seven-piece template occurs in the result. */
  lemma InterpolatedValuesOccur(a: string, x: string, b: string, y: string, c: string, z: string, d: string)
    ensures Contains(a + x + b + y + c + z + d, x)
    ensures Contains(a + x + b + y + c + z + d, y)
    ensures Contains(a + x + b + y + c + z + d, z)
  {
    var s := a + x + b + y + c + z + d;
    assert s == a + x + (b + y + c + z + d);
    ContainsMiddle(a, x, b + y + c + z + d);
    assert s == (a + x + b) + y + (c + z + d);
    ContainsMiddle(a + x + b, y, c + z + d);
    assert s == (a + x + b + y + c) + z + d;
    ContainsMiddle(a + x + b + y + c, z, d);
  }

  /** The ticker, the data and the news all appear verbatim in the prompt. */
  lemma PromptEmbedsInputs(ticker: string, data: string, news: string)
    ensures Contains(Prompt(ticker, data, news), ticker)
    ensures Contains(Prompt(ticker, data, news), data)
    ensures Contains(Prompt(ticker, data, news), news)
  {
    InterpolatedValuesOccur(Intro, ticker, DataLabel, data, NewsLabel, news, Closing());
  }

  /** Regrouping a template whose last piece starts with a line break. */
  lemma SplitBeforeLastLine(a: string, x: string, b: string, y: string, c: string, z: string, d: string, e: string)
    ensures a + x + b + y + c + z + (d + "\n" + e) == (a + x + b + y + c + z + d) + "\n" + e
  {
  }

  /**
   * The last six lines of the prompt are the six header lines
   * "### Executive Summary" ... "### Legal Notice", in that order,
   * whatever the data and the news contain.
   */
  lemma PromptEndsWithHeaderLines(ticker: string, data: string, news: string)
    ensures var lines := Lines(Prompt(ticker, data, news));
      |lines| >= 6 && lines[|lines| - 6..] == HeaderLines()
  {
    var hl := HeaderLines();
    forall k | 0 <= k < |hl| ensures '\n' !in hl[k] {
      var name := Headers[k];
      assert '\n' !in name;
      assert hl[k] == "### " + name;
    }
    LinesOfJoin(hl);
    var before := Intro + ticker + DataLabel + data + NewsLabel + news + StructureLabel;
    SplitBeforeLastLine(Intro, ticker, DataLabel, data, NewsLabel, news, StructureLabel, Join(hl, "\n"));
    assert Prompt(ticker, data, news) == before + "\n" + Join(hl, "\n");
    LinesOfNewline(before, Join(hl, "\n"));
    var lines := Lines(Prompt(ticker, data, news));
    assert lines == Lines(before) + hl;
  }

  /** The one request generate_report sends: the prompt as a user message, the fixed model, temperature 0. */
  function Request(ticker: string, data: string, news: string): (q: ChatRequest)
    ensures q.model == ModelName && q.role == "user" && q.temperature == 0
    ensures q.content == Prompt(ticker, data, news)
  {
    ChatRequest(ModelName, "user", Prompt(ticker, data, news), 0)
  }

  /**
   * generate_report: the credential gate first, then one request; the reply's
   * content is returned unchanged and a provider exception surfaces as its message.
   */
  function GenerateReport(ticker: string, data: string, news: string, env: map<string, string>,
                          provider: (Client, ChatRequest) -> Reply): (r: Result<string, string>)
    ensures GetLlmClient(env).Failure? ==> r == Failure(MissingKeyMessage)
    ensures GetLlmClient(env).Success? ==>
      r == match provider(GetLlmClient(env).value, Request(ticker, data, news))
           case Completion(content) => Success(content)
           case ProviderError(message) => Failure(message)
  {
    match GetLlmClient(env)
    case Failure(e) => Failure(e)
    case Success(client) =>
      match provider(client, Request(ticker, data, news))
      case Completion(content) => Success(content)
      case ProviderError(message) => Failure(message)
  }

  /**
   * A missing key fails before the provider is asked anything: the outcome is
   * the same whatever the provider would have answered.
   */
  lemma MissingKeyFailsBeforeAnyRequest(ticker: string, data: string, news: string, env: map<string, string>,
                                        p1: (Client, ChatRequest) -> Reply, p2: (Client, ChatRequest) -> Reply)
    requires ApiKeyVariable !in env || env[ApiKeyVariable] == ""
    ensures GenerateReport(ticker, data, news, env, p1) == GenerateReport(ticker, data, news, env, p2) == Failure(MissingKeyMessage)
  {
  }

  /**
   * Generation is deterministic: with the key present, the report depends only on
   * what the provider answers to the fixed request, so equal inputs give equal reports.
   */
  lemma GenerationDependsOnlyOnTheRequest(ticker: string, data: string, news: string, env: map<string, string>,
                                          p1: (Client, ChatRequest) -> Reply, p2: (Client, ChatRequest) -> Reply)
    requires GetLlmClient(env).Success?
    requires p1(GetLlmClient(env).value, Request(ticker, data, news)) == p2(GetLlmClient(env).value, Request(ticker, data, news))
    ensures GenerateReport(ticker, data, news, env, p1) == GenerateReport(ticker, data, news, env, p2)
  {
  }
}

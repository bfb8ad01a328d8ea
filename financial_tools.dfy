/**
 * The market-data adapter (src/tools/financial_tools.py): it turns what the
 * provider returns for a ticker into text for the language model, and turns
 * provider failures into error strings instead of exceptions.
 */
module FinancialTools {
  import opened Text

  /** One daily bar of the provider's price history, as far as the program reads it. */
  datatype Bar = Bar(close: real, volume: int)

  /** What `Ticker(t).history(period="1mo")` gives: the bars, or the exception's message. */
  datatype HistoryFetch = HistoryFailed(message: string) | History(bars: seq<Bar>)

  /** What `Ticker(t).info` gives: the profile record, or the exception's message. */
  datatype InfoFetch = InfoFailed(message: string) | Info(fields: map<string, string>)

  const NoDataPrefix := "Error: No data found for ticker "
  const FetchErrorPrefix := "Error fetching data: "
  const InfoErrorPrefix := "Error fetching info: "
  const Unknown := "N/A"

  /**
   * get_stock_prices: the provider's rendering of the closing prices (pandas'
   * to_string, passed in as `render`), or one of two error texts.
   */
  function GetStockPrices(ticker: string, history: HistoryFetch, render: seq<Bar> -> string): string {
    match history
    case HistoryFailed(message) => FetchErrorPrefix + message
    case History(bars) =>
      if bars == [] then NoDataPrefix + ticker + "." else render(bars)
  }

  /** How a caller can read back the text get_stock_prices returned. */
  datatype PriceText = NoData | FetchError(message: string) | Prices(text: string)

  function ReadPriceText(ticker: string, s: string): PriceText {
    if s == NoDataPrefix + ticker + "." then NoData
    else if FetchErrorPrefix <= s then FetchError(s[|FetchErrorPrefix|..])
    else Prices(s)
  }

  /**
   * The two error texts and the price table can be told apart: reading the
   * text back recovers which case happened and, for a fetch error, the
   * exception's message. This holds as long as the price table itself does
   * not start with "Error" (pandas starts it with the index name).
   */
  lemma PriceTextsAreDistinguishable(ticker: string, history: HistoryFetch, render: seq<Bar> -> string)
    requires history.History? && history.bars != [] ==> !("Error" <= render(history.bars))
    ensures ReadPriceText(ticker, GetStockPrices(ticker, history, render)) ==
      match history
      case HistoryFailed(message) => FetchError(message)
      case History(bars) => if bars == [] then NoData else Prices(render(bars))
  {
    var s := GetStockPrices(ticker, history, render);
    match history
    case HistoryFailed(message) =>
      assert s[5] == ' ' && (NoDataPrefix + ticker + ".")[5] == ':';
      assert FetchErrorPrefix <= s && s[|FetchErrorPrefix|..] == message;
    case History(bars) =>
      if bars != [] {
        assert "Error" <= NoDataPrefix + ticker + ".";
        assert "Error" <= FetchErrorPrefix;
      }
  }

  /** `info.get(key, 'N/A')`. */
  function Field(fields: map<string, string>, key: string): (r: string)
    ensures key in fields ==> r == fields[key]
    ensures key !in fields ==> r == Unknown
  {
    if key in fields then fields[key] else Unknown
  }

  function CompanyLine(fields: map<string, string>): string { "Company: " + Field(fields, "longName") }
  function SectorLine(fields: map<string, string>): string { "Sector: " + Field(fields, "sector") }
  function SummaryLine(fields: map<string, string>): string { "Summary: " + Field(fields, "longBusinessSummary") }

  /** get_company_info: a three-line profile, or the error text. */
  function GetCompanyInfo(info: InfoFetch): string {
    match info
    case InfoFailed(message) => InfoErrorPrefix + message
    case Info(fields) => CompanyLine(fields) + "\n" + SectorLine(fields) + "\n" + SummaryLine(fields)
  }

  /**
   * The profile is exactly three lines, Company, Sector and Summary in that
   * order, each taken from its key or "N/A" when the key is missing (provided
   * the values themselves hold no line break).
   */
  lemma ProfileHasThreeLines(fields: map<string, string>)
    requires forall key :: key in {"longName", "sector", "longBusinessSummary"} && key in fields ==> '\n' !in fields[key]
    ensures Lines(GetCompanyInfo(Info(fields))) == [
      "Company: " + (if "longName" in fields then fields["longName"] else "N/A"),
      "Sector: " + (if "sector" in fields then fields["sector"] else "N/A"),
      "Summary: " + (if "longBusinessSummary" in fields then fields["longBusinessSummary"] else "N/A")]
  {
    TaggedLine("Company: ", Field(fields, "longName"));
    TaggedLine("Sector: ", Field(fields, "sector"));
    TaggedLine("Summary: ", Field(fields, "longBusinessSummary"));
    LinesOfThree(CompanyLine(fields), SectorLine(fields), SummaryLine(fields));
  }

  lemma TaggedLine(tag: string, value: string)
    requires '\n' !in tag && '\n' !in value
    ensures '\n' !in tag + value
  {
  }

  lemma AfterPrefix(prefix: string, rest: string)
    ensures prefix <= prefix + rest && (prefix + rest)[|prefix|..] == rest
  {
  }

  /** A profile and a profile error never look alike, and the error keeps the exception's message. */
  lemma ProfileErrorIsDistinguishable(info: InfoFetch)
    ensures "Company: " <= GetCompanyInfo(info) <==> info.Info?
    ensures info.InfoFailed? ==> GetCompanyInfo(info) == InfoErrorPrefix + info.message
    ensures info.InfoFailed? ==> GetCompanyInfo(info)[|InfoErrorPrefix|..] == info.message
  {
    match info
    case InfoFailed(message) =>
      AfterPrefix(InfoErrorPrefix, message);
      assert GetCompanyInfo(info)[0] == 'E';
    case Info(fields) =>
      AfterPrefix("Company: ", Field(fields, "longName") + "\n" + SectorLine(fields) + "\n" + SummaryLine(fields));
  }
}

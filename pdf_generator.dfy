/**
 * The document renderer (src/pdf_generator.py). The PDF library is reduced to
 * the sequence of layout elements the renderer appends to the document, in
 * order; fonts, positions, pagination and the per-page header and footer are
 * the library's business and are not modelled.
 */
module PdfGenerator {
  import opened Text

  // ---------------------------------------------------------------------------
  // re.split(r'###\s+', report_text)

  /** The length of the whitespace run at the start of s (greedy `\s+`). */
  function SpaceRun(s: string): (n: nat)
    ensures n <= |s|
    ensures forall k :: 0 <= k < n ==> IsSpace(s[k])
    ensures n == |s| || !IsSpace(s[n])
    decreases |s|
  {
    if s != [] && IsSpace(s[0]) then 1 + SpaceRun(s[1..]) else 0
  }

  /** The length of a match of `###\s+` at the very start of s, or 0 when there is none. */
  function SeparatorLen(s: string): (n: nat)
    ensures n == 0 || 4 <= n <= |s|
    ensures n > 0 <==> |s| > 3 && "###" <= s && IsSpace(s[3])
    ensures n > 0 ==> forall k :: 3 <= k < n ==> IsSpace(s[k])
    ensures n > 0 ==> n == |s| || !IsSpace(s[n])
  {
    if |s| > 3 && "###" <= s && IsSpace(s[3]) then 3 + SpaceRun(s[3..]) else 0
  }

  /**
   * The pieces between the matches of `###\s+`, scanning leftmost-first: a match
   * at the start gives a leading empty piece, one at the end a trailing empty piece.
   */
  function Segments(s: string): (r: seq<string>)
    ensures |r| >= 1
    ensures r[0] <= s
    decreases |s|
  {
    if s == [] then [[]]
    else
      var m := SeparatorLen(s);
      if m > 0 then [[]] + Segments(s[m..])
      else
        var rest := Segments(s[1..]);
        [[s[0]] + rest[0]] + rest[1..]
  }

  /** The matches of `###\s+` the split removes, in order: one between each two pieces. */
  function Seps(s: string): (r: seq<string>)
    ensures |Segments(s)| == |r| + 1
    decreases |s|
  {
    if s == [] then []
    else
      var m := SeparatorLen(s);
      if m > 0 then [s[..m]] + Seps(s[m..]) else Seps(s[1..])
  }

  /** The pieces put back together, each removed separator back in its place. */
  function Interleave(pieces: seq<string>, seps: seq<string>): string
    requires |pieces| == |seps| + 1
    decreases |seps|
  {
    if seps == [] then pieces[0] else pieces[0] + seps[0] + Interleave(pieces[1..], seps[1..])
  }

  /** Lengthening the first piece by one character lengthens the joined text by it. */
  lemma InterleaveOfLongerFirst(c: char, pieces: seq<string>, seps: seq<string>)
    requires |pieces| == |seps| + 1
    ensures Interleave([[c] + pieces[0]] + pieces[1..], seps) == [c] + Interleave(pieces, seps)
  {
    var longer := [[c] + pieces[0]] + pieces[1..];
    assert longer[0] == [c] + pieces[0] && longer[1..] == pieces[1..];
  }

  /** A run of whitespace only is taken whole by the greedy `\s+`. */
  lemma SpaceRunOfSpaces(t: string)
    requires forall k :: 0 <= k < |t| ==> IsSpace(t[k])
    ensures SpaceRun(t) == |t|
  {
  }

  /** What the scan removes as a separator is itself one whole match of `###\s+`. */
  lemma SeparatorIsWholeMatch(s: string)
    requires SeparatorLen(s) > 0
    ensures SeparatorLen(s[..SeparatorLen(s)]) == SeparatorLen(s)
  {
    var m := SeparatorLen(s);
    var sep := s[..m];
    assert sep[..3] == s[..3] && sep[3] == s[3];
    assert sep[3..] == s[3..m];
    SpaceRunOfSpaces(sep[3..]);
  }

  lemma InterleaveCons(a: string, sep: string, pieces: seq<string>, seps: seq<string>)
    requires |pieces| == |seps| + 1
    ensures Interleave([a] + pieces, [sep] + seps) == a + sep + Interleave(pieces, seps)
  {
    assert ([a] + pieces)[0] == a && ([a] + pieces)[1..] == pieces;
    assert ([sep] + seps)[0] == sep && ([sep] + seps)[1..] == seps;
  }

  lemma SplitAtMatch(s: string, m: nat)
    requires s != [] && m == SeparatorLen(s) > 0
    ensures Segments(s) == [[]] + Segments(s[m..]) && Seps(s) == [s[..m]] + Seps(s[m..])
  {
  }

  lemma InterleaveAfterMatch(s: string, m: nat)
    requires s != [] && m == SeparatorLen(s) > 0
    requires Interleave(Segments(s[m..]), Seps(s[m..])) == s[m..]
    ensures Interleave(Segments(s), Seps(s)) == s
  {
    SplitAtMatch(s, m);
    InterleaveCons([], s[..m], Segments(s[m..]), Seps(s[m..]));
    assert [] + s[..m] + s[m..] == s;
  }

  lemma InterleaveUnmatched(s: string)
    requires s != [] && SeparatorLen(s) == 0
    requires Interleave(Segments(s[1..]), Seps(s[1..])) == s[1..]
    ensures Interleave(Segments(s), Seps(s)) == s
  {
    SegmentsOfUnmatched(s);
    InterleaveOfLongerFirst(s[0], Segments(s[1..]), Seps(s[1..]));
    assert [s[0]] + s[1..] == s;
  }

  /**
   * The split loses nothing: the pieces, with the removed separators put back
   * between them, give the text again, and every removed separator is a whole,
   * non-empty match of `###\s+`.
   */
  lemma {:induction false} SegmentsRoundTrip(s: string)
    ensures Interleave(Segments(s), Seps(s)) == s
    ensures forall i :: 0 <= i < |Seps(s)| ==> SeparatorLen(Seps(s)[i]) == |Seps(s)[i]| > 0
    decreases |s|
  {
    if s != [] {
      var m := SeparatorLen(s);
      if m > 0 {
        SegmentsRoundTrip(s[m..]);
        InterleaveAfterMatch(s, m);
        SeparatorIsWholeMatch(s);
        SepsAfterMatch(s, m);
      } else {
        SegmentsRoundTrip(s[1..]);
        InterleaveUnmatched(s);
      }
    }
  }

  lemma SepsAfterMatch(s: string, m: nat)
    requires s != [] && m == SeparatorLen(s) > 0
    requires SeparatorLen(s[..m]) == m
    requires forall i :: 0 <= i < |Seps(s[m..])| ==> SeparatorLen(Seps(s[m..])[i]) == |Seps(s[m..])[i]| > 0
    ensures forall i :: 0 <= i < |Seps(s)| ==> SeparatorLen(Seps(s)[i]) == |Seps(s)[i]| > 0
  {
    SplitAtMatch(s, m);
    AllWholeMatchesCons(s[..m], Seps(s[m..]));
  }

  lemma AllWholeMatchesCons(sep: string, seps: seq<string>)
    requires SeparatorLen(sep) == |sep| > 0
    requires forall i :: 0 <= i < |seps| ==> SeparatorLen(seps[i]) == |seps[i]| > 0
    ensures forall i :: 0 <= i < |[sep] + seps| ==> SeparatorLen(([sep] + seps)[i]) == |([sep] + seps)[i]| > 0
  {
    assert forall i :: 1 <= i < |[sep] + seps| ==> ([sep] + seps)[i] == seps[i - 1];
  }

  /** No match of `###\s+` starts anywhere in t. */
  predicate NoSeparator(t: string) {
    forall k :: 0 <= k < |t| ==> SeparatorLen(t[k..]) == 0
  }

  /** A match at the start of a prefix is a match at the start of the whole text. */
  lemma SeparatorInPrefix(t: string, s: string)
    requires t <= s
    ensures SeparatorLen(t) > 0 ==> SeparatorLen(s) > 0
  {
    if |t| > 3 {
      assert t[..4] == s[..4];
    }
  }

  lemma NoSeparatorCons(c: char, t: string)
    requires NoSeparator(t) && SeparatorLen([c] + t) == 0
    ensures NoSeparator([c] + t)
  {
    forall k | 0 < k < |[c] + t| ensures SeparatorLen(([c] + t)[k..]) == 0 {
      assert ([c] + t)[k..] == t[k - 1..];
    }
  }

  lemma NoSeparatorAfterMatch(s: string)
    requires s != [] && SeparatorLen(s) > 0
    requires forall i :: 0 <= i < |Segments(s[SeparatorLen(s)..])| ==> NoSeparator(Segments(s[SeparatorLen(s)..])[i])
    ensures forall i :: 0 <= i < |Segments(s)| ==> NoSeparator(Segments(s)[i])
  {
    var r := Segments(s);
    var m := SeparatorLen(s);
    assert forall i :: 1 <= i < |r| ==> r[i] == Segments(s[m..])[i - 1];
  }

  lemma SegmentsOfUnmatched(s: string)
    requires s != [] && SeparatorLen(s) == 0
    ensures Segments(s) == [[s[0]] + Segments(s[1..])[0]] + Segments(s[1..])[1..]
  {
  }

  lemma FirstPieceIsPrefix(s: string)
    requires s != []
    ensures [s[0]] + Segments(s[1..])[0] <= s
  {
  }

  lemma NoSeparatorReplacingFirst(first: string, rest: seq<string>, r: seq<string>)
    requires |rest| >= 1 && r == [first] + rest[1..]
    requires forall i :: 0 <= i < |rest| ==> NoSeparator(rest[i])
    requires NoSeparator(first)
    ensures forall i :: 0 <= i < |r| ==> NoSeparator(r[i])
  {
    assert forall i :: 1 <= i < |r| ==> r[i] == rest[i];
  }

  /** No piece of the split contains a separator: the split found every match. */
  lemma {:induction false} SegmentsHoldNoSeparator(s: string)
    ensures forall i :: 0 <= i < |Segments(s)| ==> NoSeparator(Segments(s)[i])
    decreases |s|
  {
    if s != [] {
      var m := SeparatorLen(s);
      if m > 0 {
        SegmentsHoldNoSeparator(s[m..]);
        NoSeparatorAfterMatch(s);
      } else {
        SegmentsHoldNoSeparator(s[1..]);
        var rest := Segments(s[1..]);
        var first := [s[0]] + rest[0];
        SegmentsOfUnmatched(s);
        FirstPieceIsPrefix(s);
        SeparatorInPrefix(first, s);
        NoSeparatorCons(s[0], rest[0]);
        NoSeparatorReplacingFirst(first, rest, Segments(s));
      }
    }
  }

  /** Text without '#' is never cut: it only lengthens the first piece. */
  lemma {:induction false} SegmentsOfPlainPrefix(a: string, t: string)
    requires '#' !in a
    ensures Segments(a + t) == [a + Segments(t)[0]] + Segments(t)[1..]
    decreases |a|
  {
    if a == [] {
      assert a + t == t && a + Segments(t)[0] == Segments(t)[0];
    } else {
      var s := a + t;
      assert s[0] == a[0] && s[0] != '#';
      assert SeparatorLen(s) == 0;
      assert s[1..] == a[1..] + t;
      SegmentsOfPlainPrefix(a[1..], t);
      var rest := Segments(a[1..] + t);
      assert Segments(s) == [[a[0]] + rest[0]] + rest[1..];
      assert [a[0]] + (a[1..] + Segments(t)[0]) == a + Segments(t)[0];
    }
  }

  /** Whether a match starts at s is decided by s's first four characters. */
  lemma SeparatorOfLongPrefix(a: string, s: string)
    requires a <= s && |a| > 3
    ensures SeparatorLen(s) > 0 <==> SeparatorLen(a) > 0
  {
    assert s[..3] == a[..3] && s[3] == a[3];
  }

  /** Before a text that opens with "###", a tail of '#' characters cannot start a match. */
  lemma NoMatchBeforeMarker(a: string, t: string)
    requires a != [] && SeparatorLen(a) == 0 && (t == [] || "###" <= t)
    ensures SeparatorLen(a + t) == 0
  {
    var s := a + t;
    if |a| > 3 {
      SeparatorOfLongPrefix(a, s);
    } else if |s| > 3 {
      assert s[3] == t[3 - |a|] == '#';
    }
  }

  lemma NoSeparatorTail(a: string)
    requires a != [] && NoSeparator(a)
    ensures NoSeparator(a[1..]) && SeparatorLen(a) == 0
  {
    assert a[0..] == a;
    forall k | 0 <= k < |a[1..]| ensures SeparatorLen(a[1..][k..]) == 0 {
      assert a[1..][k..] == a[k + 1..];
    }
  }

  /**
   * Text holding no match of `###\s+` is never cut, even when it ends in '#'
   * characters, as long as what follows is the end or the next "###" marker.
   */
  lemma {:induction false} SegmentsOfUncutPrefix(a: string, t: string)
    requires NoSeparator(a) && (t == [] || "###" <= t)
    ensures Segments(a + t) == [a + Segments(t)[0]] + Segments(t)[1..]
    decreases |a|
  {
    if a == [] {
      assert a + t == t && a + Segments(t)[0] == Segments(t)[0];
    } else {
      var s := a + t;
      NoSeparatorTail(a);
      NoMatchBeforeMarker(a, t);
      assert s[0] == a[0] && s[1..] == a[1..] + t;
      SegmentsOfUncutPrefix(a[1..], t);
      SegmentsOfUnmatched(s);
      assert [a[0]] + (a[1..] + Segments(t)[0]) == a + Segments(t)[0];
    }
  }

  /** A header marker "### " followed by a non-blank character cuts the text right there. */
  lemma SegmentsAtMarker(q: string)
    requires q != [] && !IsSpace(q[0])
    ensures Segments("### " + q) == [[]] + Segments(q)
  {
    var s := "### " + q;
    assert s[3] == ' ' && s[4..] == q && s[3..][1..] == q;
    assert SpaceRun(s[3..]) == 1;
    assert SeparatorLen(s) == 4;
  }

  // ---------------------------------------------------------------------------
  // add_section_title, add_section_body

  /** The text add_section_title writes: the title upper-cased. */
  function SectionTitle(title: string): (r: string)
    ensures |r| == |title| && NoLower(r)
  {
    Upper(title)
  }

  /**
   * The text add_section_body writes: every "**" removed, then every "* "
   * rewritten to "- ", then stripped. No bold marker and no "* " bullet is
   * left, and the text has no surrounding whitespace.
   */
  function CleanBody(body: string): (r: string)
    ensures !Contains(r, "**") && !Contains(r, "* ")
    ensures r == [] || (!IsSpace(r[0]) && !IsSpace(r[|r| - 1]))
  {
    var unbolded := Replace(body, "**", "");
    RemovingDoubleStarLeavesNone(body);
    var bulleted := Replace(unbolded, "* ", "- ");
    RewritingStarSpaceLeavesNone(unbolded);
    StripKeepsAbsence(bulleted, "**");
    StripKeepsAbsence(bulleted, "* ");
    Strip(bulleted)
  }

  // ---------------------------------------------------------------------------
  // The layout create_pdf produces

  /** One element appended to the document. */
  datatype Event = Heading(text: string) | Title(text: string) | Body(text: string) | Image(path: string)

  /** How the loop of create_pdf treats one piece of the split. */
  datatype Piece = Skipped | Untitled(text: string) | Titled(title: string, body: string)

  function Classify(segment: string): Piece {
    if Strip(segment) == [] then Skipped
    else
      var lines := SplitFirstLine(segment);
      if |lines| > 1 then Titled(Strip(lines[0]), Strip(lines[1])) else Untitled(segment)
  }

  /** A piece is skipped exactly when it is blank. */
  lemma ClassifyBlank(segment: string)
    ensures Classify(segment).Skipped? <==> AllSpace(segment)
  {
  }

  /** A non-blank piece without a line break is body text, written as it is. */
  lemma ClassifyUntitled(segment: string)
    ensures !AllSpace(segment) && '\n' !in segment ==> Classify(segment) == Untitled(segment)
  {
  }

  lemma ClassifyFirstLine(segment: string)
    requires !AllSpace(segment) && '\n' in segment
    ensures Classify(segment) == Titled(Strip(SplitFirstLine(segment)[0]), Strip(SplitFirstLine(segment)[1]))
  {
  }

  /**
   * A non-blank piece with a line break is a titled section cut at the first
   * one: the stripped first line is the title, the stripped rest the body.
   */
  lemma ClassifyTitled(segment: string)
    requires !AllSpace(segment) && '\n' in segment
    ensures var i := IndexOf(segment, '\n');
      i < |segment| && Classify(segment) == Titled(Strip(segment[..i]), Strip(segment[i + 1..]))
  {
    var lines := SplitFirstLine(segment);
    var j := |lines[0]|;
    assert segment[j] == '\n';
    assert forall k :: 0 <= k < j ==> segment[k] == lines[0][k];
    assert IndexOf(segment, '\n') == j;
    assert segment[..j] == lines[0] && segment[j + 1..] == lines[1];
    ClassifyFirstLine(segment);
  }

  /** The chart goes in only when a path was given and the file exists. */
  predicate ChartAvailable(chartPath: string, chartExists: bool) {
    chartPath != "" && chartExists
  }

  const QuantitativeData := "Quantitative Data"

  /** A titled section gets the chart when its title mentions "Quantitative Data". */
  predicate WantsChart(piece: Piece) {
    piece.Titled? && Contains(piece.title, QuantitativeData)
  }

  function PieceEvents(piece: Piece, chartPath: string, chartExists: bool): seq<Event> {
    match piece
    case Skipped => []
    case Untitled(text) => [Body(CleanBody(text))]
    case Titled(title, body) =>
      [Title(SectionTitle(title)), Body(CleanBody(body))] +
      (if Contains(title, QuantitativeData) && ChartAvailable(chartPath, chartExists) then [Image(chartPath)] else [])
  }

  /** The elements create_pdf appends for one piece of the split. */
  function SegmentEvents(segment: string, chartPath: string, chartExists: bool): seq<Event> {
    PieceEvents(Classify(segment), chartPath, chartExists)
  }

  lemma SegmentEventsBlank(segment: string, chartPath: string, chartExists: bool)
    requires Strip(segment) == []
    ensures SegmentEvents(segment, chartPath, chartExists) == []
  {
  }

  lemma SegmentEventsUntitled(segment: string, chartPath: string, chartExists: bool)
    requires Strip(segment) != [] && |SplitFirstLine(segment)| == 1
    ensures SegmentEvents(segment, chartPath, chartExists) == [Body(CleanBody(segment))]
  {
  }

  lemma PieceEventsTitled(title: string, body: string, chartPath: string, chartExists: bool)
    ensures PieceEvents(Titled(title, body), chartPath, chartExists) ==
      [Title(SectionTitle(title)), Body(CleanBody(body))] +
      (if Contains(title, QuantitativeData) && ChartAvailable(chartPath, chartExists) then [Image(chartPath)] else [])
  {
  }

  lemma SegmentEventsTitled(segment: string, chartPath: string, chartExists: bool)
    requires Strip(segment) != [] && |SplitFirstLine(segment)| == 2
    ensures var title := Strip(SplitFirstLine(segment)[0]);
      SegmentEvents(segment, chartPath, chartExists) ==
        [Title(SectionTitle(title)), Body(CleanBody(Strip(SplitFirstLine(segment)[1])))] +
        (if Contains(title, QuantitativeData) && ChartAvailable(chartPath, chartExists) then [Image(chartPath)] else [])
  {
    ClassifyFirstLine(segment);
    PieceEventsTitled(Strip(SplitFirstLine(segment)[0]), Strip(SplitFirstLine(segment)[1]), chartPath, chartExists);
  }

  /** The body of create_pdf's loop, as a function from a piece to what it appends. */
  function Render(chartPath: string, chartExists: bool): string -> seq<Event> {
    segment => SegmentEvents(segment, chartPath, chartExists)
  }

  /** The elements a loop appends when it renders each piece in turn. */
  function LayoutOf(render: string -> seq<Event>, segments: seq<string>): seq<Event>
    decreases |segments|
  {
    if segments == [] then [] else render(segments[0]) + LayoutOf(render, segments[1..])
  }

  lemma {:induction false} LayoutOfAppend(render: string -> seq<Event>, segments: seq<string>, segment: string)
    ensures LayoutOf(render, segments + [segment]) == LayoutOf(render, segments) + render(segment)
    decreases |segments|
  {
    if segments == [] {
      assert [] + [segment] == [segment] && [segment][1..] == [];
    } else {
      assert (segments + [segment])[1..] == segments[1..] + [segment];
      LayoutOfAppend(render, segments[1..], segment);
    }
  }

  /** A property every rendered element has holds of every element of the layout. */
  lemma {:induction false} LayoutOfAll(render: string -> seq<Event>, segments: seq<string>, ok: Event -> bool)
    requires forall segment: string, k :: 0 <= k < |render(segment)| ==> ok(render(segment)[k])
    ensures forall k :: 0 <= k < |LayoutOf(render, segments)| ==> ok(LayoutOf(render, segments)[k])
    decreases |segments|
  {
    if segments != [] {
      LayoutOfAll(render, segments[1..], ok);
      var head := render(segments[0]);
      var tail := LayoutOf(render, segments[1..]);
      assert forall k :: |head| <= k < |head| + |tail| ==> (head + tail)[k] == tail[k - |head|];
    }
  }

  function HeadingText(ticker: string): string {
    "EQUITY RESEARCH: " + ticker
  }

  /** Everything create_pdf writes, in order: the heading, then every piece of the split. */
  function Layout(ticker: string, reportText: string, chartPath: string, chartExists: bool): (r: seq<Event>)
    ensures |r| >= 1 && r[0] == Heading(HeadingText(ticker))
  {
    [Heading(HeadingText(ticker))] + LayoutOf(Render(chartPath, chartExists), Segments(reportText))
  }

  // ---------------------------------------------------------------------------
  // The document object and create_pdf

  lemma TakeOneMore<T>(s: seq<T>, i: nat)
    requires i < |s|
    ensures s[..i + 1] == s[..i] + [s[i]]
  {
  }

  lemma TakeAll<T>(s: seq<T>)
    ensures s[..|s|] == s
  {
  }

  lemma AppendAssociates(a: seq<Event>, b: seq<Event>, c: seq<Event>)
    ensures a + b + c == a + (b + c)
  {
  }

  lemma AppendSection(start: seq<Event>, title: Event, body: Event, image: Event, chart: bool)
    ensures (if chart then start + [title] + [body] + [image] else start + [title] + [body]) ==
      start + ([title, body] + (if chart then [image] else []))
  {
  }

  /** InvestmentReportPDF, seen as the list of elements written to it so far. */
  class ReportPdf {
    var events: seq<Event>

    constructor ()
      ensures events == []
    {
      events := [];
    }

    /** The centred title cell at the top of the first page. */
    method AddHeading(text: string)
      modifies this
      ensures events == old(events) + [Heading(text)]
    {
      events := events + [Heading(text)];
    }

    method AddSectionTitle(title: string)
      modifies this
      ensures events == old(events) + [Title(SectionTitle(title))]
    {
      events := events + [Title(SectionTitle(title))];
    }

    method AddSectionBody(body: string)
      modifies this
      ensures events == old(events) + [Body(CleanBody(body))]
    {
      events := events + [Body(CleanBody(body))];
    }

    method AddImage(path: string)
      modifies this
      ensures events == old(events) + [Image(path)]
    {
      events := events + [Image(path)];
    }

    /**
     * One turn of create_pdf's loop: a blank piece is skipped, a piece with a
     * line break becomes a title and a body (and the chart, for the
     * quantitative section), any other piece becomes a body.
     */
    method AddPiece(segment: string, chartPath: string, chartExists: bool)
      modifies this
      ensures events == old(events) + SegmentEvents(segment, chartPath, chartExists)
    {
      if Strip(segment) == [] {
        SegmentEventsBlank(segment, chartPath, chartExists);
        return;
      }
      var lines := SplitFirstLine(segment);
      if |lines| > 1 {
        var title := Strip(lines[0]);
        var body := Strip(lines[1]);
        ghost var start := events;
        AddSectionTitle(title);
        AddSectionBody(body);
        ghost var chart := Contains(title, QuantitativeData) && chartPath != "" && chartExists;
        if Contains(title, QuantitativeData) && chartPath != "" && chartExists {
          AddImage(chartPath);
        }
        AppendSection(start, Title(SectionTitle(title)), Body(CleanBody(body)), Image(chartPath), chart);
        SegmentEventsTitled(segment, chartPath, chartExists);
      } else {
        AddSectionBody(segment);
        SegmentEventsUntitled(segment, chartPath, chartExists);
      }
    }
  }

  /**
   * create_pdf: writes the heading, then walks the pieces of the split in order,
   * skipping blank ones; returns the save path unchanged and the elements written.
   * `chartExists` stands for os.path.exists(chart_path); a missing chart path
   * (None in the program) is the empty string here.
   */
  method CreatePdf(ticker: string, reportText: string, savePath: string, chartPath: string, chartExists: bool)
    returns (path: string, events: seq<Event>)
    ensures path == savePath
    ensures events == Layout(ticker, reportText, chartPath, chartExists)
  {
    var pdf := new ReportPdf();
    pdf.AddHeading(HeadingText(ticker));
    var segments := Segments(reportText);
    ghost var render := Render(chartPath, chartExists);
    for i := 0 to |segments|
      invariant pdf.events == [Heading(HeadingText(ticker))] + LayoutOf(render, segments[..i])
    {
      TakeOneMore(segments, i);
      LayoutOfAppend(render, segments[..i], segments[i]);
      AppendAssociates([Heading(HeadingText(ticker))], LayoutOf(render, segments[..i]), render(segments[i]));
      pdf.AddPiece(segments[i], chartPath, chartExists);
    }
    TakeAll(segments);
    path := savePath;
    events := pdf.events;
  }

  // ---------------------------------------------------------------------------
  // Properties of the layout

  /** A body element free of "**" and of "* " (anything else passes). */
  predicate CleanIfBody(e: Event) {
    e.Body? ==> !Contains(e.text, "**") && !Contains(e.text, "* ")
  }

  lemma SectionBodiesAreClean(title: string, body: string, images: seq<Event>)
    requires !Contains(body, "**") && !Contains(body, "* ")
    requires forall k :: 0 <= k < |images| ==> images[k].Image?
    ensures var events := [Title(title), Body(body)] + images;
      forall k :: 0 <= k < |events| ==> CleanIfBody(events[k])
  {
  }

  lemma PieceBodiesAreClean(piece: Piece, chartPath: string, chartExists: bool)
    ensures forall k :: 0 <= k < |PieceEvents(piece, chartPath, chartExists)| ==>
      CleanIfBody(PieceEvents(piece, chartPath, chartExists)[k])
  {
    match piece
    case Skipped =>
    case Untitled(text) =>
      assert PieceEvents(piece, chartPath, chartExists) == [Body(CleanBody(text))];
    case Titled(title, body) =>
      var images: seq<Event> := if Contains(title, QuantitativeData) && ChartAvailable(chartPath, chartExists) then [Image(chartPath)] else [];
      SectionBodiesAreClean(SectionTitle(title), CleanBody(body), images);
  }

  lemma RenderBodiesAreClean(chartPath: string, chartExists: bool)
    ensures forall segment: string, k :: 0 <= k < |Render(chartPath, chartExists)(segment)| ==>
      CleanIfBody(Render(chartPath, chartExists)(segment)[k])
  {
    forall segment: string {
      PieceBodiesAreClean(Classify(segment), chartPath, chartExists);
    }
  }

  /** A property of the heading and of every later element holds of the whole document. */
  lemma AllWithHeading(heading: Event, rest: seq<Event>, ok: Event -> bool)
    requires ok(heading) && forall k :: 0 <= k < |rest| ==> ok(rest[k])
    ensures forall k :: 0 <= k < |[heading] + rest| ==> ok(([heading] + rest)[k])
  {
    assert forall k :: 1 <= k < 1 + |rest| ==> ([heading] + rest)[k] == rest[k - 1];
  }

  /** Every body text in the document is free of "**" and of "* ". */
  lemma BodiesAreClean(ticker: string, reportText: string, chartPath: string, chartExists: bool)
    ensures var layout := Layout(ticker, reportText, chartPath, chartExists);
      forall k :: 0 <= k < |layout| ==> CleanIfBody(layout[k])
  {
    var render := Render(chartPath, chartExists);
    RenderBodiesAreClean(chartPath, chartExists);
    LayoutOfAll(render, Segments(reportText), CleanIfBody);
    AllWithHeading(Heading(HeadingText(ticker)), LayoutOf(render, Segments(reportText)), CleanIfBody);
  }

  /** An image element carries the chart path and needs the chart to be available. */
  predicate ChartIfImage(e: Event, chartPath: string, chartExists: bool) {
    e.Image? ==> e.path == chartPath && ChartAvailable(chartPath, chartExists)
  }

  /** Every image sits right after a section's title and body. */
  predicate ImagesFollowSections(events: seq<Event>) {
    forall k :: 0 <= k < |events| && events[k].Image? ==> 2 <= k && events[k - 1].Body? && events[k - 2].Title?
  }

  lemma ImagesFollowSectionsAppend(a: seq<Event>, b: seq<Event>)
    requires ImagesFollowSections(a) && ImagesFollowSections(b)
    ensures ImagesFollowSections(a + b)
  {
    forall k | 0 <= k < |a + b| && (a + b)[k].Image?
      ensures 2 <= k && (a + b)[k - 1].Body? && (a + b)[k - 2].Title?
    {
      if k >= |a| {
        assert (a + b)[k] == b[k - |a|];
        assert (a + b)[k - 1] == b[k - 1 - |a|] || k - 1 - |a| < 0;
      }
    }
  }

  lemma {:induction false} LayoutOfImagesFollowSections(render: string -> seq<Event>, segments: seq<string>)
    requires forall segment: string :: ImagesFollowSections(render(segment))
    ensures ImagesFollowSections(LayoutOf(render, segments))
    decreases |segments|
  {
    if segments != [] {
      LayoutOfImagesFollowSections(render, segments[1..]);
      ImagesFollowSectionsAppend(render(segments[0]), LayoutOf(render, segments[1..]));
    }
  }

  lemma SectionShape(title: string, body: string, chart: bool, chartPath: string, chartExists: bool)
    requires chart ==> ChartAvailable(chartPath, chartExists)
    ensures var events := [Title(title), Body(body)] + (if chart then [Image(chartPath)] else []);
      ImagesFollowSections(events) && forall k :: 0 <= k < |events| ==> ChartIfImage(events[k], chartPath, chartExists)
  {
  }

  lemma PieceImagesFollowSections(piece: Piece, chartPath: string, chartExists: bool)
    ensures var events := PieceEvents(piece, chartPath, chartExists);
      ImagesFollowSections(events) && forall k :: 0 <= k < |events| ==> ChartIfImage(events[k], chartPath, chartExists)
  {
    match piece
    case Skipped =>
    case Untitled(text) =>
      assert PieceEvents(piece, chartPath, chartExists) == [Body(CleanBody(text))];
    case Titled(title, body) =>
      SectionShape(SectionTitle(title), CleanBody(body), Contains(title, QuantitativeData) && ChartAvailable(chartPath, chartExists), chartPath, chartExists);
  }

  lemma RenderImagesFollowSections(chartPath: string, chartExists: bool)
    ensures forall segment: string :: ImagesFollowSections(Render(chartPath, chartExists)(segment))
    ensures forall segment: string, k :: 0 <= k < |Render(chartPath, chartExists)(segment)| ==>
      ChartIfImage(Render(chartPath, chartExists)(segment)[k], chartPath, chartExists)
  {
    forall segment: string {
      PieceImagesFollowSections(Classify(segment), chartPath, chartExists);
    }
  }

  /**
   * An image only ever follows a section's title and body, carries the chart
   * path, and needs the chart to be available.
   */
  lemma ImagesFollowTitledBodies(ticker: string, reportText: string, chartPath: string, chartExists: bool)
    ensures var layout := Layout(ticker, reportText, chartPath, chartExists);
      ImagesFollowSections(layout) &&
      forall k :: 0 <= k < |layout| ==> ChartIfImage(layout[k], chartPath, chartExists)
  {
    var render := Render(chartPath, chartExists);
    var segments := Segments(reportText);
    var heading := Heading(HeadingText(ticker));
    RenderImagesFollowSections(chartPath, chartExists);
    LayoutOfAll(render, segments, e => ChartIfImage(e, chartPath, chartExists));
    AllWithHeading(heading, LayoutOf(render, segments), e => ChartIfImage(e, chartPath, chartExists));
    LayoutOfImagesFollowSections(render, segments);
    ImagesFollowSectionsAppend([heading], LayoutOf(render, segments));
  }

  function CountImages(events: seq<Event>): nat
    decreases |events|
  {
    if events == [] then 0 else (if events[0].Image? then 1 else 0) + CountImages(events[1..])
  }

  lemma {:induction false} CountImagesAppend(a: seq<Event>, b: seq<Event>)
    ensures CountImages(a + b) == CountImages(a) + CountImages(b)
    decreases |a|
  {
    if a == [] {
      assert a + b == b;
    } else {
      assert (a + b)[1..] == a[1..] + b;
      CountImagesAppend(a[1..], b);
    }
  }

  /** The number of titled sections whose (stripped) title mentions "Quantitative Data". */
  function QuantitativeSections(segments: seq<string>): nat
    decreases |segments|
  {
    if segments == [] then 0
    else (if WantsChart(Classify(segments[0])) then 1 else 0) + QuantitativeSections(segments[1..])
  }

  lemma SectionImageCount(title: Event, body: Event, image: Event, chart: bool)
    requires !title.Image? && !body.Image? && image.Image?
    ensures CountImages([title, body] + (if chart then [image] else [])) == if chart then 1 else 0
  {
    var rest: seq<Event> := if chart then [image] else [];
    var events := [title, body] + rest;
    assert events[1..][1..] == rest;
    assert CountImages(events) == CountImages(events[1..]) == CountImages(rest);
    if chart {
      assert CountImages(rest) == 1 + CountImages(rest[1..]);
    }
  }

  lemma PieceImageCount(piece: Piece, chartPath: string, chartExists: bool)
    ensures CountImages(PieceEvents(piece, chartPath, chartExists)) ==
      if WantsChart(piece) && ChartAvailable(chartPath, chartExists) then 1 else 0
  {
    match piece
    case Skipped =>
    case Untitled(text) =>
      assert PieceEvents(piece, chartPath, chartExists) == [Body(CleanBody(text))];
    case Titled(title, body) =>
      PieceEventsTitled(title, body, chartPath, chartExists);
      SectionImageCount(Title(SectionTitle(title)), Body(CleanBody(body)), Image(chartPath),
        Contains(title, QuantitativeData) && ChartAvailable(chartPath, chartExists));
  }

  /**
   * There is one image per titled section whose title mentions "Quantitative Data"
   * when the chart is available, and none otherwise.
   */
  lemma {:induction false} ImageCount(segments: seq<string>, chartPath: string, chartExists: bool)
    ensures CountImages(LayoutOf(Render(chartPath, chartExists), segments)) ==
      if ChartAvailable(chartPath, chartExists) then QuantitativeSections(segments) else 0
    decreases |segments|
  {
    if segments != [] {
      var render := Render(chartPath, chartExists);
      ImageCount(segments[1..], chartPath, chartExists);
      PieceImageCount(Classify(segments[0]), chartPath, chartExists);
      CountImagesAppend(render(segments[0]), LayoutOf(render, segments[1..]));
    }
  }

  /** The whole document: images counted the same way. */
  lemma LayoutImageCount(ticker: string, reportText: string, chartPath: string, chartExists: bool)
    ensures CountImages(Layout(ticker, reportText, chartPath, chartExists)) ==
      if ChartAvailable(chartPath, chartExists) then QuantitativeSections(Segments(reportText)) else 0
  {
    ImageCount(Segments(reportText), chartPath, chartExists);
    CountImagesAppend([Heading(HeadingText(ticker))], LayoutOf(Render(chartPath, chartExists), Segments(reportText)));
  }
}

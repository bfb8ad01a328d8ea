/**
 * The contract between the writer and the PDF: the writer's prompt asks for a
 * report made of "### <header>" sections, and create_pdf splits on `###\s+`.
 * A report written the way the prompt asks therefore comes apart into exactly
 * its sections, each a titled piece, and the chart lands under the one section
 * whose header names the quantitative data.
 */
module ReportContract {
  import opened Text
  import Llm
  import opened PdfGenerator

  /** One section as the prompt asks for it: the header line, a line break, the body. */
  function Section(header: string, body: string): string {
    Llm.HeaderLine(header) + "\n" + body
  }

  /** The sections one after the other. */
  function Sections(headers: seq<string>, bodies: seq<string>): string
    requires |headers| == |bodies|
    decreases |headers|
  {
    if headers == [] then "" else Section(headers[0], bodies[0]) + Sections(headers[1..], bodies[1..])
  }

  /** The piece the split leaves of each section: the header's name, the line break, the body. */
  function Pieces(headers: seq<string>, bodies: seq<string>): (r: seq<string>)
    requires |headers| == |bodies|
    ensures |r| == |headers|
    ensures forall k :: 0 <= k < |r| ==> r[k] == headers[k] + "\n" + bodies[k]
    decreases |headers|
  {
    if headers == [] then [] else [headers[0] + "\n" + bodies[0]] + Pieces(headers[1..], bodies[1..])
  }

  /** A header name that survives the split intact: it starts with a visible character and holds no '#' and no line break. */
  predicate HeaderName(header: string) {
    header != [] && !IsSpace(header[0]) && '#' !in header && '\n' !in header
  }

  /** Sections whose headers are names and whose bodies hold no match of `###\s+`. */
  predicate WellFormed(headers: seq<string>, bodies: seq<string>) {
    |headers| == |bodies| && forall k :: 0 <= k < |headers| ==> HeaderName(headers[k]) && NoSeparator(bodies[k])
  }

  lemma WellFormedTail(headers: seq<string>, bodies: seq<string>)
    requires WellFormed(headers, bodies) && headers != []
    ensures WellFormed(headers[1..], bodies[1..])
  {
    forall k | 0 <= k < |headers| - 1
      ensures HeaderName(headers[1..][k]) && NoSeparator(bodies[1..][k])
    {
      assert headers[1..][k] == headers[k + 1] && bodies[1..][k] == bodies[k + 1];
    }
  }

  lemma HeadAndTail<T>(x: T, xs: seq<T>)
    ensures ([x] + xs)[0] == x && ([x] + xs)[1..] == xs
  {
  }

  lemma JoinEmptyHead(a: string, ps: seq<string>)
    ensures [a + ([""] + ps)[0]] + ([""] + ps)[1..] == [a] + ps
  {
    HeadAndTail("", ps);
    assert a + "" == a;
  }

  lemma LayoutOfCons(render: string -> seq<Event>, x: string, xs: seq<string>)
    ensures LayoutOf(render, [x] + xs) == render(x) + LayoutOf(render, xs)
  {
    HeadAndTail(x, xs);
  }

  lemma LayoutAfterHeading(heading: Event, render: string -> seq<Event>, segments: seq<string>,
                           x: string, xs: seq<string>, tail: seq<Event>)
    requires segments == [x] + xs && LayoutOf(render, xs) == tail
    ensures [heading] + LayoutOf(render, segments) == [heading] + render(x) + tail
  {
    LayoutOfCons(render, x, xs);
  }

  lemma SectionsCons(header: string, body: string, rest: string)
    ensures Section(header, body) + rest == "### " + ((header + "\n" + body) + rest)
  {
  }

  /** Sections are empty or open with the "###" of their first header. */
  lemma SectionsStart(headers: seq<string>, bodies: seq<string>)
    requires |headers| == |bodies|
    ensures Sections(headers, bodies) == [] || "###" <= Sections(headers, bodies)
  {
    if headers != [] {
      SectionsCons(headers[0], bodies[0], Sections(headers[1..], bodies[1..]));
    }
  }

  /** Text without '#' in front of text without a match holds no match either. */
  lemma NoSeparatorAfterPlain(a: string, b: string)
    requires '#' !in a && NoSeparator(b)
    ensures NoSeparator(a + b)
  {
    forall k | 0 <= k < |a + b| ensures SeparatorLen((a + b)[k..]) == 0 {
      if k < |a| {
        assert (a + b)[k..][0] == a[k];
      } else {
        assert (a + b)[k..] == b[k - |a|..];
      }
    }
  }

  /** A section's piece holds no match when its body holds none. */
  lemma PieceHasNoSeparator(header: string, body: string)
    requires HeaderName(header) && NoSeparator(body)
    ensures NoSeparator(header + "\n" + body)
  {
    NoSeparatorAfterPlain(header + "\n", body);
  }

  /** Well-formed sections split into one empty leading piece followed by the sections' pieces. */
  lemma {:induction false} SegmentsOfSections(headers: seq<string>, bodies: seq<string>)
    requires WellFormed(headers, bodies)
    ensures Segments(Sections(headers, bodies)) == [""] + Pieces(headers, bodies)
    decreases |headers|
  {
    if headers == [] {
      assert Pieces(headers, bodies) == [];
    } else {
      WellFormedTail(headers, bodies);
      SegmentsOfSections(headers[1..], bodies[1..]);
      var rest := Sections(headers[1..], bodies[1..]);
      var piece := headers[0] + "\n" + bodies[0];
      PieceHasNoSeparator(headers[0], bodies[0]);
      SectionsStart(headers[1..], bodies[1..]);
      SegmentsOfUncutPrefix(piece, rest);
      JoinEmptyHead(piece, Pieces(headers[1..], bodies[1..]));
      SectionsCons(headers[0], bodies[0], rest);
      assert (piece + rest)[0] == headers[0][0];
      SegmentsAtMarker(piece + rest);
    }
  }

  /** Text before the first header that holds no match stays one piece of its own. */
  lemma SegmentsOfReport(preamble: string, headers: seq<string>, bodies: seq<string>)
    requires NoSeparator(preamble) && WellFormed(headers, bodies)
    ensures Segments(preamble + Sections(headers, bodies)) == [preamble] + Pieces(headers, bodies)
  {
    SegmentsOfSections(headers, bodies);
    SectionsStart(headers, bodies);
    SegmentsOfUncutPrefix(preamble, Sections(headers, bodies));
    JoinEmptyHead(preamble, Pieces(headers, bodies));
  }

  lemma PieceParts(header: string, body: string)
    requires HeaderName(header)
    ensures var segment := header + "\n" + body;
      && !AllSpace(segment) && IndexOf(segment, '\n') == |header|
      && segment[..|header|] == header && segment[|header| + 1..] == body
  {
    var segment := header + "\n" + body;
    assert segment[0] == header[0] && !IsSpace(segment[0]);
    IndexOfAfter(header, '\n', body);
    assert segment[..|header|] == header && segment[|header| + 1..] == body;
  }

  lemma ClassifyAt(segment: string, i: nat, title: string, body: string)
    requires !AllSpace(segment) && IndexOf(segment, '\n') == i < |segment|
    requires segment[..i] == title && segment[i + 1..] == body
    ensures Classify(segment) == Titled(Strip(title), Strip(body))
  {
    ClassifyTitled(segment);
  }

  /** Every section's piece is a titled piece: the stripped header over the stripped body. */
  lemma PieceIsTitled(header: string, body: string)
    requires HeaderName(header)
    ensures Classify(header + "\n" + body) == Titled(Strip(header), Strip(body))
  {
    PieceParts(header, body);
    ClassifyAt(header + "\n" + body, |header|, header, body);
  }

  /** The elements the sections give in the PDF, section by section. */
  function SectionsLayout(headers: seq<string>, bodies: seq<string>, chartPath: string, chartExists: bool): seq<Event>
    requires |headers| == |bodies|
    decreases |headers|
  {
    if headers == [] then []
    else
      PieceEvents(Titled(Strip(headers[0]), Strip(bodies[0])), chartPath, chartExists) +
      SectionsLayout(headers[1..], bodies[1..], chartPath, chartExists)
  }

  lemma {:induction false} LayoutOfPieces(headers: seq<string>, bodies: seq<string>, chartPath: string, chartExists: bool)
    requires WellFormed(headers, bodies)
    ensures LayoutOf(Render(chartPath, chartExists), Pieces(headers, bodies)) ==
      SectionsLayout(headers, bodies, chartPath, chartExists)
    decreases |headers|
  {
    if headers != [] {
      WellFormedTail(headers, bodies);
      LayoutOfPieces(headers[1..], bodies[1..], chartPath, chartExists);
      PieceIsTitled(headers[0], bodies[0]);
      LayoutOfCons(Render(chartPath, chartExists), headers[0] + "\n" + bodies[0], Pieces(headers[1..], bodies[1..]));
    }
  }

  /**
   * A report written as the prompt asks lays out as the document heading, the
   * preamble's elements, then each section's title, body and (for the
   * quantitative section with a chart) image, in the order of the headers.
   */
  lemma LayoutOfReport(ticker: string, preamble: string, headers: seq<string>, bodies: seq<string>,
                       chartPath: string, chartExists: bool)
    requires NoSeparator(preamble) && WellFormed(headers, bodies)
    ensures Layout(ticker, preamble + Sections(headers, bodies), chartPath, chartExists) ==
      [Heading(HeadingText(ticker))] + SegmentEvents(preamble, chartPath, chartExists) +
      SectionsLayout(headers, bodies, chartPath, chartExists)
  {
    var render := Render(chartPath, chartExists);
    SegmentsOfReport(preamble, headers, bodies);
    LayoutOfPieces(headers, bodies, chartPath, chartExists);
    LayoutAfterHeading(Heading(HeadingText(ticker)), render, Segments(preamble + Sections(headers, bodies)),
      preamble, Pieces(headers, bodies), SectionsLayout(headers, bodies, chartPath, chartExists));
    assert render(preamble) == SegmentEvents(preamble, chartPath, chartExists);
  }

  // ---------------------------------------------------------------------------
  // The six headers of the prompt

  /** The headers the prompt lists are all well-formed names. */
  lemma PromptHeadersAreNames()
    ensures forall k :: 0 <= k < |Llm.Headers| ==> HeaderName(Llm.Headers[k])
  {
    forall k | 0 <= k < |Llm.Headers| ensures HeaderName(Llm.Headers[k]) {
      HeaderIsName(k);
    }
  }

  lemma HeaderIsName(k: nat)
    requires k < |Llm.Headers|
    ensures HeaderName(Llm.Headers[k])
  {
    var h := Llm.Headers[k];
    if k == 0 {
      assert h == "Executive Summary";
    } else if k == 1 {
      assert h == "Company Profile";
    } else if k == 2 {
      assert h == "Market Analysis";
    } else if k == 3 {
      assert h == "Quantitative Data";
    } else if k == 4 {
      assert h == "Risk Factors";
    } else {
      assert h == "Legal Notice";
    }
  }

  /** How many of the headers, stripped, name the quantitative data. */
  function QuantitativeHeaders(headers: seq<string>): nat
    decreases |headers|
  {
    if headers == [] then 0
    else (if Contains(Strip(headers[0]), QuantitativeData) then 1 else 0) + QuantitativeHeaders(headers[1..])
  }

  lemma {:induction false} QuantitativePieces(headers: seq<string>, bodies: seq<string>)
    requires WellFormed(headers, bodies)
    ensures QuantitativeSections(Pieces(headers, bodies)) == QuantitativeHeaders(headers)
    decreases |headers|
  {
    if headers != [] {
      WellFormedTail(headers, bodies);
      QuantitativePieces(headers[1..], bodies[1..]);
      PieceIsTitled(headers[0], bodies[0]);
      QuantitativeCons(headers[0] + "\n" + bodies[0], Pieces(headers[1..], bodies[1..]));
    }
  }

  lemma QuantitativeCons(x: string, xs: seq<string>)
    ensures QuantitativeSections([x] + xs) == (if WantsChart(Classify(x)) then 1 else 0) + QuantitativeSections(xs)
  {
    HeadAndTail(x, xs);
  }

  lemma {:induction false} QuantitativeHeadersCount(headers: seq<string>, k: int)
    requires forall j :: 0 <= j < |headers| ==> (Contains(Strip(headers[j]), QuantitativeData) <==> j == k)
    ensures QuantitativeHeaders(headers) == if 0 <= k < |headers| then 1 else 0
    decreases |headers|
  {
    if headers != [] {
      forall j | 0 <= j < |headers| - 1
        ensures Contains(Strip(headers[1..][j]), QuantitativeData) <==> j == k - 1
      {
        assert headers[1..][j] == headers[j + 1];
      }
      QuantitativeHeadersCount(headers[1..], k - 1);
    }
  }

  lemma NotContainedInShorter(s: string, p: string)
    requires |s| < |p|
    ensures !Contains(s, p)
  {
  }

  /** Of the prompt's headers, only "Quantitative Data" names the quantitative data. */
  lemma HeaderMentionsQuantitative(j: nat)
    requires j < |Llm.Headers|
    ensures Contains(Strip(Llm.Headers[j]), QuantitativeData) <==> j == 3
  {
    var h := Llm.Headers[j];
    assert h != [] && !IsSpace(h[0]) && !IsSpace(h[|h| - 1]);
    StripOfStripped(h);
    if j == 0 {
      assert !(QuantitativeData <= h);
      NotContainedInShorter(h[1..], QuantitativeData);
    } else if j == 3 {
      assert QuantitativeData <= h;
    } else {
      NotContainedInShorter(h, QuantitativeData);
    }
  }

  /** Exactly one of the prompt's headers names the quantitative data. */
  lemma OneQuantitativeHeader()
    ensures QuantitativeHeaders(Llm.Headers) == 1
  {
    forall j | 0 <= j < |Llm.Headers|
      ensures Contains(Strip(Llm.Headers[j]), QuantitativeData) <==> j == 3
    {
      HeaderMentionsQuantitative(j);
    }
    QuantitativeHeadersCount(Llm.Headers, 3);
  }

  /** A preamble that does not mention the quantitative data never asks for the chart. */
  lemma PreambleWantsNoChart(preamble: string)
    requires !Contains(preamble, QuantitativeData)
    ensures !WantsChart(Classify(preamble))
  {
    if !AllSpace(preamble) && '\n' in preamble {
      ClassifyTitled(preamble);
      var i := IndexOf(preamble, '\n');
      ContainsInSlice(preamble, QuantitativeData, 0, i);
      assert preamble[0..i] == preamble[..i];
      StripKeepsAbsence(preamble[..i], QuantitativeData);
    } else if !AllSpace(preamble) {
      ClassifyUntitled(preamble);
    } else {
      ClassifyBlank(preamble);
    }
  }

  /**
   * A report that follows the prompt's six headers gets the chart exactly once
   * when the chart file exists, and no image at all otherwise.
   */
  lemma OneChartPerReport(ticker: string, preamble: string, bodies: seq<string>, chartPath: string, chartExists: bool)
    requires NoSeparator(preamble) && !Contains(preamble, QuantitativeData)
    requires |bodies| == |Llm.Headers| && forall k :: 0 <= k < |bodies| ==> NoSeparator(bodies[k])
    ensures CountImages(Layout(ticker, preamble + Sections(Llm.Headers, bodies), chartPath, chartExists)) ==
      if ChartAvailable(chartPath, chartExists) then 1 else 0
  {
    PromptHeadersAreNames();
    SegmentsOfReport(preamble, Llm.Headers, bodies);
    LayoutImageCount(ticker, preamble + Sections(Llm.Headers, bodies), chartPath, chartExists);
    QuantitativePieces(Llm.Headers, bodies);
    OneQuantitativeHeader();
    PreambleWantsNoChart(preamble);
    QuantitativeCons(preamble, Pieces(Llm.Headers, bodies));
  }
}

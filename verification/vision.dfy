/** The OCR service (`extract_text` of the vision client): turns the lines the read
    operation recognised, page by page, into line records, page records, the joined text
    and summary metadata. The remote read, its polling loop and the operation id are I/O;
    the model starts from the operation's final outcome. */
module Vision {
  import opened Wrappers
  import opened Text
  import opened Seqs

  /** A recognised line as the SDK hands it over. Attributes the object may lack are
      `Absent`; `appearance` is either missing, `None`, or an object whose `confidence`
      attribute is missing or `None` (both read as `None`) or a number. */
  datatype SdkLine = SdkLine(
    text: string,
    appearance: Field<Option<real>>,
    confidence: Field<real>,
    boundingBox: Field<seq<real>>,
    language: Field<string>)

  /** The final state of the read operation: its pages of lines, a status other than
      "succeeded", or an exception (whose text is the message). */
  datatype ReadOutcome = Succeeded(pages: seq<seq<SdkLine>>) | Unsuccessful | Raised(message: string)

  datatype LineRecord = LineRecord(
    text: string,
    confidence: Option<real>,
    boundingBox: Option<seq<real>>,
    language: Option<string>,
    page: int)

  datatype PageRecord = PageRecord(pageNumber: int, lines: seq<LineRecord>, pageText: string)

  datatype Metadata = Metadata(totalLines: int, totalPages: int, averageConfidence: Option<real>)

  /** The returned dictionary; `error` is `None` where the dictionary has no such key. */
  datatype Payload = Payload(
    status: string,
    textLines: seq<LineRecord>,
    fullText: string,
    error: Option<string>,
    pageCount: int,
    pages: seq<PageRecord>,
    metadata: Option<Metadata>)

  const FailedToExtract := "Failed to extract text"

  /** A line's confidence: an `appearance` attribute, when there is one, decides alone
      (its own `confidence`, or `None`); only without it is the line's `confidence` used. */
  function LineConfidence(line: SdkLine): (r: Option<real>)
    ensures line.appearance.Absent? ==> r == line.confidence.AsOption()
    ensures line.appearance.Null? ==> r.None?
    ensures line.appearance.Present? ==> r == line.appearance.value
  {
    match line.appearance
    case Absent => line.confidence.AsOption()
    case Null => None
    case Present(c) => c
  }

  /** With an `appearance` attribute present, the line's own `confidence` is never read. */
  lemma AppearanceShadowsConfidence(line: SdkLine, other: Field<real>)
    requires !line.appearance.Absent?
    ensures LineConfidence(line.(confidence := other)) == LineConfidence(line)
  {
  }

  /** The record of one line on page `page` (numbered from 1). */
  function Record(line: SdkLine, page: int): (r: LineRecord)
    ensures r.text == line.text && r.page == page
    ensures r.confidence == LineConfidence(line)
    ensures r.boundingBox == line.boundingBox.AsOption()
    ensures r.language == line.language.AsOption()
  {
    LineRecord(line.text, LineConfidence(line), line.boundingBox.AsOption(),
               line.language.AsOption(), page)
  }

  function PageLines(lines: seq<SdkLine>, page: int): (r: seq<LineRecord>)
    ensures |r| == |lines|
    ensures forall i :: 0 <= i < |lines| ==> r[i] == Record(lines[i], page)
  {
    seq(|lines|, i requires 0 <= i < |lines| => Record(lines[i], page))
  }

  /** The texts of some line records, in order. */
  function Texts(records: seq<LineRecord>): (r: seq<string>)
    ensures |r| == |records|
    ensures forall i :: 0 <= i < |records| ==> r[i] == records[i].text
  {
    seq(|records|, i requires 0 <= i < |records| => records[i].text)
  }

  lemma TextsAppend(a: seq<LineRecord>, b: seq<LineRecord>)
    ensures Texts(a + b) == Texts(a) + Texts(b)
  {
  }

  /** The record of the page at index `index` of the result. */
  function Page(lines: seq<SdkLine>, index: nat): (r: PageRecord)
    ensures r.pageNumber == index + 1
    ensures r.lines == PageLines(lines, index + 1)
    ensures r.pageText == Join(Texts(r.lines), "\n")
  {
    var records := PageLines(lines, index + 1);
    PageRecord(index + 1, records, Join(Texts(records), "\n"))
  }

  function Pages(pages: seq<seq<SdkLine>>): (r: seq<PageRecord>)
    ensures |r| == |pages|
    ensures forall i :: 0 <= i < |pages| ==> r[i] == Page(pages[i], i)
  {
    seq(|pages|, i requires 0 <= i < |pages| => Page(pages[i], i))
  }

  function LinesOf(pages: seq<PageRecord>): (r: seq<seq<LineRecord>>)
    ensures |r| == |pages|
    ensures forall i :: 0 <= i < |pages| ==> r[i] == pages[i].lines
  {
    seq(|pages|, i requires 0 <= i < |pages| => pages[i].lines)
  }

  /** Every page's line records, one page after another. */
  function AllLines(pages: seq<PageRecord>): seq<LineRecord> {
    Flatten(LinesOf(pages))
  }

  lemma AllLinesSnoc(pages: seq<PageRecord>, p: PageRecord)
    ensures AllLines(pages + [p]) == AllLines(pages) + p.lines
  {
    assert LinesOf(pages + [p])[..|pages|] == LinesOf(pages);
  }

  /** The confidences that are not `None`, in order. */
  function Confidences(records: seq<LineRecord>): (r: seq<real>)
    ensures |r| <= |records|
    decreases |records|
  {
    if |records| == 0 then []
    else
      var rest := Confidences(records[..|records| - 1]);
      match records[|records| - 1].confidence
      case None => rest
      case Some(c) => rest + [c]
  }

  /** Every kept confidence is some record's confidence, and every record's confidence
      is kept. */
  lemma {:induction false} ConfidencesComplete(records: seq<LineRecord>)
    ensures forall k :: 0 <= k < |Confidences(records)| ==>
      exists i :: 0 <= i < |records| && records[i].confidence == Some(Confidences(records)[k])
    ensures forall i :: 0 <= i < |records| && records[i].confidence.Some? ==>
      records[i].confidence.value in Confidences(records)
    decreases |records|
  {
    if |records| > 0 {
      var init := records[..|records| - 1];
      ConfidencesComplete(init);
      var rest := Confidences(init);
      var cs := Confidences(records);
      var last := records[|records| - 1];
      assert last.confidence.None? ==> cs == rest;
      assert last.confidence.Some? ==> cs == rest + [last.confidence.value];
      forall k | 0 <= k < |cs|
        ensures exists i :: 0 <= i < |records| && records[i].confidence == Some(cs[k])
      {
        if k < |rest| {
          assert cs[k] == rest[k];
          var i :| 0 <= i < |init| && init[i].confidence == Some(rest[k]);
          assert records[i] == init[i];
          assert records[i].confidence == Some(cs[k]);
        } else {
          var i := |records| - 1;
          assert records[i].confidence == Some(cs[k]);
        }
      }
      forall i | 0 <= i < |records| && records[i].confidence.Some?
        ensures records[i].confidence.value in cs
      {
        if i < |init| {
          assert init[i] == records[i];
          assert records[i].confidence.value in rest;
        }
      }
    } else {
      assert |Confidences(records)| == 0;
    }
  }

  /** `sum(values) / len(values)`, or `None` for no values. */
  function Average(values: seq<real>): (r: Option<real>)
    ensures r.None? <==> |values| == 0
  {
    if |values| == 0 then None else Some(Sum(values) / |values| as real)
  }

  /** An average of values in `[lo, hi]` lies in `[lo, hi]`. */
  lemma AverageBounds(values: seq<real>, lo: real, hi: real)
    requires |values| > 0
    requires forall i :: 0 <= i < |values| ==> lo <= values[i] <= hi
    ensures lo <= Average(values).value <= hi
  {
    var n := |values| as real;
    SumBounds(values, lo, hi);
    assert n * lo == lo * n && n * hi == hi * n;
    QuotientAtLeast(Sum(values), lo, n);
    QuotientAtMost(Sum(values), hi, n);
  }

  /** The body returned on any failure: status "error", the message, nothing extracted. */
  function FailurePayload(message: string): (p: Payload)
    ensures p.status == "error" && p.error == Some(message)
    ensures p.textLines == [] && p.fullText == "" && p.pageCount == 0 && p.pages == []
    ensures p.metadata.None?
  {
    Payload("error", [], "", Some(message), 0, [], None)
  }

  /** `extract_text` from the read operation's final outcome. On success the page records
      number the pages from 1, `text_lines` lists every page's records in order, the full
      text joins every line's text with newlines, and the metadata counts lines and pages
      and averages the confidences that are not `None`. */
  method ExtractText(outcome: ReadOutcome) returns (p: Payload)
    ensures outcome.Raised? ==> p == FailurePayload(outcome.message)
    ensures outcome.Unsuccessful? ==> p == FailurePayload(FailedToExtract)
    ensures outcome.Succeeded? ==>
      && p.status == "success" && p.error.None?
      && p.pages == Pages(outcome.pages)
      && p.textLines == AllLines(p.pages)
      && p.fullText == Join(Texts(p.textLines), "\n")
      && p.pageCount == |outcome.pages|
      && p.metadata == Some(Metadata(|p.textLines|, |outcome.pages|, Average(Confidences(p.textLines))))
  {
    match outcome
    case Raised(message) =>
      p := FailurePayload(message);
    case Unsuccessful =>
      p := FailurePayload(FailedToExtract);
    case Succeeded(pages) =>
      var textLines: seq<LineRecord> := [];
      var fullText: seq<string> := [];
      var pageResults: seq<PageRecord> := [];
      var k := 0;
      while k < |pages|
        invariant 0 <= k <= |pages|
        invariant pageResults == Pages(pages[..k])
        invariant textLines == AllLines(pageResults)
        invariant fullText == Texts(textLines)
      {
        var pageLines;
        pageLines, textLines, fullText := ReadPage(pages[k], k + 1, textLines, fullText);
        var page := PageRecord(k + 1, pageLines, Join(Texts(pageLines), "\n"));
        assert page == Page(pages[k], k);
        AllLinesSnoc(pageResults, page);
        assert pages[..k + 1] == pages[..k] + [pages[k]];
        pageResults := pageResults + [page];
        k := k + 1;
      }
      assert pages[..k] == pages;
      var confidenceValues := Confidences(textLines);
      var averageConfidence := Average(confidenceValues);
      p := Payload("success", textLines, Join(fullText, "\n"), None, |pageResults|, pageResults,
                   Some(Metadata(|textLines|, |pageResults|, averageConfidence)));
  }

  /** One page of the loop in `extract_text`: each line's record is appended to the page's
      lines and to all lines, and its text to the full text. */
  method ReadPage(lines: seq<SdkLine>, number: int, textLinesBefore: seq<LineRecord>,
                  fullTextBefore: seq<string>)
    returns (pageLines: seq<LineRecord>, textLines: seq<LineRecord>, fullText: seq<string>)
    requires fullTextBefore == Texts(textLinesBefore)
    ensures pageLines == PageLines(lines, number)
    ensures textLines == textLinesBefore + pageLines
    ensures fullText == Texts(textLines)
  {
    pageLines, textLines, fullText := [], textLinesBefore, fullTextBefore;
    var j := 0;
    while j < |lines|
      invariant 0 <= j <= |lines|
      invariant pageLines == PageLines(lines[..j], number)
      invariant textLines == textLinesBefore + pageLines
      invariant fullText == Texts(textLines)
    {
      var line := lines[j];
      var lineData := Record(line, number);
      assert lines[..j + 1] == lines[..j] + [line];
      TextsAppend(textLines, [lineData]);
      textLines := textLines + [lineData];
      pageLines := pageLines + [lineData];
      fullText := fullText + [line.text];
      j := j + 1;
    }
    assert lines[..j] == lines;
  }

  /** The page texts, in page order. */
  function PageTexts(pages: seq<PageRecord>): (r: seq<string>)
    ensures |r| == |pages|
    ensures forall i :: 0 <= i < |pages| ==> r[i] == pages[i].pageText
  {
    seq(|pages|, i requires 0 <= i < |pages| => pages[i].pageText)
  }

  function TextsOfPages(pages: seq<PageRecord>): (r: seq<seq<string>>)
    ensures |r| == |pages|
    ensures forall i :: 0 <= i < |pages| ==> r[i] == Texts(pages[i].lines)
  {
    seq(|pages|, i requires 0 <= i < |pages| => Texts(pages[i].lines))
  }

  /** The line texts of all pages are the pages' line texts one page after another. */
  lemma {:induction false} TextsOfAllLines(pages: seq<PageRecord>)
    ensures Texts(AllLines(pages)) == Flatten(TextsOfPages(pages))
    decreases |pages|
  {
    if |pages| > 0 {
      var init := pages[..|pages| - 1];
      var last := pages[|pages| - 1];
      TextsOfAllLines(init);
      assert init + [last] == pages;
      AllLinesSnoc(init, last);
      TextsAppend(AllLines(init), last.lines);
      assert TextsOfPages(pages)[..|pages| - 1] == TextsOfPages(init);
    } else {
      assert LinesOf(pages) == [];
    }
  }

  /** When no page is blank, the full text is the page texts joined with newlines. */
  lemma FullTextJoinsPageTexts(pages: seq<seq<SdkLine>>)
    requires forall i :: 0 <= i < |pages| ==> |pages[i]| > 0
    ensures var records := Pages(pages);
      Join(Texts(AllLines(records)), "\n") == Join(PageTexts(records), "\n")
  {
    var records := Pages(pages);
    TextsOfAllLines(records);
    JoinFlatten(TextsOfPages(records), "\n");
    assert JoinEach(TextsOfPages(records), "\n") == PageTexts(records);
  }

  /** A blank page adds nothing to the full text but an empty page text between its
      neighbours: pages "a", blank, "b" give the full text "a\nb" while their page texts
      joined read "a\n\nb". */
  lemma BlankPageExample()
    ensures var a := SdkLine("a", Absent, Absent, Absent, Absent);
      var b := SdkLine("b", Absent, Absent, Absent, Absent);
      var records := Pages([[a], [], [b]]);
      && Join(Texts(AllLines(records)), "\n") == "a\nb"
      && Join(PageTexts(records), "\n") == "a\n\nb"
  {
    var a := SdkLine("a", Absent, Absent, Absent, Absent);
    var b := SdkLine("b", Absent, Absent, Absent, Absent);
    var records := Pages([[a], [], [b]]);
    TextsOfAllLines(records);
    BlankPageRecords(a, b);
    FlattenAroundEmpty(["a"], ["b"]);
    JoinTwo("a", "b", "\n");
    JoinThree("a", "", "b", "\n");
  }

  /** The records of pages "a", blank, "b": one line on the first and last page each. */
  lemma BlankPageRecords(a: SdkLine, b: SdkLine)
    requires a.text == "a" && b.text == "b"
    ensures TextsOfPages(Pages([[a], [], [b]])) == [["a"], [], ["b"]]
    ensures PageTexts(Pages([[a], [], [b]])) == ["a", "", "b"]
  {
    var records := Pages([[a], [], [b]]);
    assert records[0].lines == [Record(a, 1)];
    assert records[1].lines == [];
    assert records[2].lines == [Record(b, 3)];
    var groups := TextsOfPages(records);
    assert groups[0] == ["a"] && groups[1] == [] && groups[2] == ["b"];
    assert records[0].pageText == "a" && records[1].pageText == "" && records[2].pageText == "b";
  }

  lemma FlattenAroundEmpty(x: seq<string>, y: seq<string>)
    ensures Flatten([x, [], y]) == x + y
  {
    var g: seq<seq<string>> := [x, [], y];
    assert g[..1][..0] == [];
    assert Flatten(g[..1]) == x;
    assert g[..2][..1] == g[..1];
    assert Flatten(g[..2]) == x;
  }

  lemma JoinTwo(x: string, y: string, sep: string)
    ensures Join([x, y], sep) == x + sep + y
  {
    assert [x, y][..1] == [x];
  }

  lemma JoinThree(x: string, y: string, z: string, sep: string)
    ensures Join([x, y, z], sep) == x + sep + y + sep + z
  {
    assert [x, y, z][..2] == [x, y];
    JoinTwo(x, y, sep);
  }

  /** One line record per recognised line, and the records of page `i` carry page
      number `i + 1`. */
  lemma LineCount(pages: seq<seq<SdkLine>>)
    ensures |AllLines(Pages(pages))| == TotalLength(pages)
    ensures forall i :: 0 <= i < |pages| ==>
      |Pages(pages)[i].lines| == |pages[i]|
      && forall j :: 0 <= j < |pages[i]| ==> Pages(pages)[i].lines[j].page == i + 1
  {
    FlattenLength(LinesOf(Pages(pages)));
    TotalLengthAgrees(LinesOf(Pages(pages)), pages);
  }

  /** The average confidence is `None` exactly when no line has a confidence, and
      otherwise lies within any bounds every line's confidence respects. */
  lemma AverageConfidenceBounds(records: seq<LineRecord>, lo: real, hi: real)
    requires forall i :: 0 <= i < |records| && records[i].confidence.Some? ==>
      lo <= records[i].confidence.value <= hi
    ensures Average(Confidences(records)).None? <==>
      forall i :: 0 <= i < |records| ==> records[i].confidence.None?
    ensures Average(Confidences(records)).Some? ==>
      lo <= Average(Confidences(records)).value <= hi
  {
    var cs := Confidences(records);
    ConfidencesComplete(records);
    if |cs| > 0 {
      forall k | 0 <= k < |cs| ensures lo <= cs[k] <= hi {
        var i :| 0 <= i < |records| && records[i].confidence == Some(cs[k]);
      }
      AverageBounds(cs, lo, hi);
      var i :| 0 <= i < |records| && records[i].confidence == Some(cs[0]);
    }
  }
}

/** The document-analysis service (`analyze_document` of the form-recognizer client): the
    lines of every analysed page become line records grouped by page, and their texts are
    joined into the full text. Starting the analysis and waiting for it are I/O; the
    model starts from the analysis result, or the message of the exception it raised. */
module Document {
  import opened Wrappers
  import opened Text
  import opened Seqs

  /** A line as the SDK hands it over; `confidence` and `polygon` may be missing. */
  datatype SdkLine = SdkLine(content: string, confidence: Field<real>, polygon: Field<seq<real>>)

  /** A page carries its own page number, which need not match its position. */
  datatype SdkPage = SdkPage(pageNumber: int, lines: seq<SdkLine>)

  datatype SdkResult = SdkResult(pages: seq<SdkPage>, docType: Field<string>, languages: Field<seq<string>>)

  datatype LineRecord = LineRecord(
    text: string,
    confidence: Option<real>,
    boundingBox: Option<seq<real>>,
    page: int)

  datatype Metadata = Metadata(documentType: Option<string>, languages: Option<seq<string>>)

  /** The returned dictionary: the full body on success, only `status` and `error` on
      failure. */
  datatype Payload =
    | Analyzed(pages: seq<seq<LineRecord>>, fullText: string, pageCount: int, metadata: Metadata)
    | Failed(error: string)
  {
    function Status(): (s: string)
      ensures Analyzed? <==> s == "success"
      ensures Failed? <==> s == "error"
    {
      if Analyzed? then "success" else "error"
    }
  }

  /** The record of one line of `page`: its page number is the page's own. */
  function Record(line: SdkLine, page: SdkPage): (r: LineRecord)
    ensures r.text == line.content && r.page == page.pageNumber
    ensures r.confidence == line.confidence.AsOption()
    ensures r.boundingBox == line.polygon.AsOption()
  {
    LineRecord(line.content, line.confidence.AsOption(), line.polygon.AsOption(), page.pageNumber)
  }

  function PageRecords(page: SdkPage): (r: seq<LineRecord>)
    ensures |r| == |page.lines|
    ensures forall j :: 0 <= j < |page.lines| ==> r[j] == Record(page.lines[j], page)
  {
    seq(|page.lines|, j requires 0 <= j < |page.lines| => Record(page.lines[j], page))
  }

  function AllPageRecords(pages: seq<SdkPage>): (r: seq<seq<LineRecord>>)
    ensures |r| == |pages|
    ensures forall i :: 0 <= i < |pages| ==> r[i] == PageRecords(pages[i])
  {
    seq(|pages|, i requires 0 <= i < |pages| => PageRecords(pages[i]))
  }

  function Texts(records: seq<LineRecord>): (r: seq<string>)
    ensures |r| == |records|
    ensures forall i :: 0 <= i < |records| ==> r[i] == records[i].text
  {
    seq(|records|, i requires 0 <= i < |records| => records[i].text)
  }

  lemma TextsAppend(a: seq<LineRecord>, b: seq<LineRecord>)
    ensures Texts(a + b) == Texts(a) + Texts(b)
  {
  }

  /** The metadata: `doc_type` and `languages` when the result has them, `None` when not. */
  function ResultMetadata(result: SdkResult): (m: Metadata)
    ensures m.documentType == result.docType.AsOption()
    ensures m.languages == result.languages.AsOption()
  {
    Metadata(result.docType.AsOption(), result.languages.AsOption())
  }

  /** `analyze_document`: on success, one list of line records per page in page order,
      the full text joining every line's text with newlines, the page count, and the
      metadata; any exception becomes a failure carrying its text and nothing else. */
  method AnalyzeDocument(outcome: Result<SdkResult, string>) returns (p: Payload)
    ensures outcome.Failure? ==> p == Failed(outcome.error)
    ensures outcome.Success? ==>
      var result := outcome.value;
      && p.Analyzed?
      && p.pages == AllPageRecords(result.pages)
      && p.fullText == Join(Texts(Flatten(p.pages)), "\n")
      && p.pageCount == |result.pages|
      && p.metadata == ResultMetadata(result)
  {
    match outcome
    case Failure(message) =>
      p := Failed(message);
    case Success(result) =>
      var pagesText: seq<seq<LineRecord>> := [];
      var fullText: seq<string> := [];
      var k := 0;
      while k < |result.pages|
        invariant 0 <= k <= |result.pages|
        invariant pagesText == AllPageRecords(result.pages[..k])
        invariant fullText == Texts(Flatten(pagesText))
      {
        var page := result.pages[k];
        var pageText: seq<LineRecord> := [];
        var j := 0;
        while j < |page.lines|
          invariant 0 <= j <= |page.lines|
          invariant pageText == PageRecords(page)[..j]
          invariant fullText == Texts(Flatten(pagesText)) + Texts(pageText)
        {
          var record := Record(page.lines[j], page);
          assert PageRecords(page)[..j + 1] == pageText + [record];
          TextsAppend(pageText, [record]);
          pageText := pageText + [record];
          fullText := fullText + [page.lines[j].content];
          j := j + 1;
        }
        assert pageText == PageRecords(page);
        assert AllPageRecords(result.pages[..k + 1]) == pagesText + [pageText];
        assert (pagesText + [pageText])[..|pagesText|] == pagesText;
        TextsAppend(Flatten(pagesText), pageText);
        pagesText := pagesText + [pageText];
        k := k + 1;
      }
      assert result.pages[..k] == result.pages;
      p := Analyzed(pagesText, Join(fullText, "\n"), |result.pages|, ResultMetadata(result));
  }

  /** Every line becomes exactly one record, and each record carries the page number of
      the page it came from, whatever that page's position. */
  lemma RecordsFollowPages(pages: seq<SdkPage>)
    ensures TotalLength(AllPageRecords(pages)) == TotalLength(seq(|pages|, i requires 0 <= i < |pages| => pages[i].lines))
    ensures forall i, j :: 0 <= i < |pages| && 0 <= j < |pages[i].lines| ==>
      AllPageRecords(pages)[i][j].page == pages[i].pageNumber
      && AllPageRecords(pages)[i][j].text == pages[i].lines[j].content
  {
    TotalLengthAgrees(AllPageRecords(pages), seq(|pages|, i requires 0 <= i < |pages| => pages[i].lines));
  }
}

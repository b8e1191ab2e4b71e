/**
 * Text-first extraction from a PDF document.  The document is given as what its two
 * libraries see of it: pdfplumber's pages (each `extract_text()` result, which may be
 * None) and PyMuPDF's pages (each `get_text()` result and its base64 PNG rendering).
 * A library that cannot open the bytes sees no pages at all (`None`).
 */
module PdfService {
  import opened Wrappers
  import opened Text

  /** One PyMuPDF page: its text, and its base64 PNG rendering (`None` when rendering raises). */
  datatype FitzPage = FitzPage(text: string, png: Option<string>)

  datatype PdfDocument = PdfDocument(
    plumberPages: Option<seq<Option<string>>>,
    fitzPages: Option<seq<FitzPage>>)

  /**
   * The line clean-up both extractors apply: split on "\n", strip each line,
   * drop the blank ones (the comprehension `[line.strip() for line in lines if line.strip()]`).
   */
  function StrippedLines(lines: seq<string>): (r: seq<string>)
    ensures |r| <= |lines|
    ensures forall i | 0 <= i < |r| :: r[i] != "" && IsStripped(r[i])
  {
    if lines == [] then []
    else
      var t := Strip(lines[0]);
      (if t != "" then [t] else []) + StrippedLines(lines[1..])
  }

  /**
   * `"\n".join(line.strip() for line in text.split("\n") if line.strip())`: "" exactly for
   * blank input, and otherwise text that is not blank.
   */
  function NormalizeLines(text: string): (r: string)
    ensures r == "" <==> IsBlank(text)
    ensures r == "" || !IsBlank(r)
  {
    var kept := StrippedLines(SplitLines(text));
    if kept != [] then
      JoinStartsWith(kept);
      StrippedLinesEmpty(SplitLines(text));
      SplitLinesBlank(text);
      JoinLines(kept)
    else
      StrippedLinesEmpty(SplitLines(text));
      SplitLinesBlank(text);
      JoinLines(kept)
  }

  /** Pages whose `extract_text()` is truthy, in page order. */
  function PlumberKept(pages: seq<Option<string>>): (kept: seq<string>)
    ensures forall i | 0 <= i < |kept| :: kept[i] != ""
  {
    if pages == [] then []
    else
      var last := pages[|pages| - 1];
      PlumberKept(pages[..|pages| - 1]) + (if last.Some? && last.value != "" then [last.value] else [])
  }

  /** Stripped text of the pages whose `get_text()` is not blank, in page order. */
  function FitzKept(pages: seq<FitzPage>): (kept: seq<string>)
    ensures forall i | 0 <= i < |kept| :: kept[i] != "" && IsStripped(kept[i])
  {
    if pages == [] then []
    else
      var last := pages[|pages| - 1];
      FitzKept(pages[..|pages| - 1]) + (if !IsBlank(last.text) then [Strip(last.text)] else [])
  }

  /** What `_extract_with_pdfplumber` returns. */
  function PlumberText(doc: PdfDocument): string {
    match doc.plumberPages
    case None => ""
    case Some(pages) => NormalizeLines(JoinLines(PlumberKept(pages)))
  }

  /** What `_extract_with_pymupdf` returns. */
  function FitzText(doc: PdfDocument): string {
    match doc.fitzPages
    case None => ""
    case Some(pages) => NormalizeLines(JoinLines(FitzKept(pages)))
  }

  /** `extract_text`: the first non-blank of the two extractors, otherwise "". */
  function DocumentText(doc: PdfDocument): (r: string)
    ensures r == "" || !IsBlank(r)
    ensures !IsBlank(PlumberText(doc)) ==> r == PlumberText(doc)
    ensures IsBlank(PlumberText(doc)) ==> r == FitzText(doc)
  {
    var primary := PlumberText(doc);
    if !IsBlank(primary) then primary
    else
      var secondary := FitzText(doc);
      if !IsBlank(secondary) then secondary else ""
  }

  /**
   * `is_image_based_pdf`: PyMuPDF opens the document and no page has non-blank text, which is
   * exactly when PyMuPDF opens it and its own extraction finds nothing.
   */
  predicate ImageBased(doc: PdfDocument)
    ensures ImageBased(doc) <==> doc.fitzPages.Some? && FitzText(doc) == ""
  {
    match doc.fitzPages
    case None => false
    case Some(pages) =>
      FitzKeptEmpty(pages);
      var kept := FitzKept(pages);
      if kept != [] then JoinStartsWith(kept); forall i | 0 <= i < |pages| :: IsBlank(pages[i].text)
      else forall i | 0 <= i < |pages| :: IsBlank(pages[i].text)
  }

  /** Renderings of the pages in order, up to the first page whose rendering fails. */
  function RenderedPrefix(pages: seq<FitzPage>): (images: seq<string>)
    ensures |images| <= |pages|
    ensures forall i | 0 <= i < |images| :: pages[i].png == Some(images[i])
    ensures |images| < |pages| ==> pages[|images|].png == None
  {
    if pages == [] || pages[0].png.None? then []
    else [pages[0].png.value] + RenderedPrefix(pages[1..])
  }

  /**
   * `pdf_pages_to_base64_images`: nothing when PyMuPDF cannot open the file, otherwise the
   * renderings of the leading pages, in order, up to the end or to a page that fails to render.
   */
  function PageImages(doc: PdfDocument): (images: seq<string>)
    ensures doc.fitzPages.None? ==> images == []
    ensures doc.fitzPages.Some? ==> var pages := doc.fitzPages.value;
              && |images| <= |pages|
              && (forall i | 0 <= i < |images| :: pages[i].png == Some(images[i]))
              && (|images| < |pages| ==> pages[|images|].png == None)
  {
    match doc.fitzPages
    case None => []
    case Some(pages) => RenderedPrefix(pages)
  }

  method ExtractWithPdfplumber(doc: PdfDocument) returns (text: string)
    ensures text == PlumberText(doc)
  {
    match doc.plumberPages
    case None =>
      text := "";
    case Some(pages) =>
      var textContent: seq<string> := [];
      for i := 0 to |pages|
        invariant textContent == PlumberKept(pages[..i])
      {
        assert pages[..i + 1][..i] == pages[..i];
        var pageText := pages[i];
        if pageText.Some? && pageText.value != "" {
          textContent := textContent + [pageText.value];
        }
      }
      assert pages[..|pages|] == pages;
      text := NormalizeLines(JoinLines(textContent));
  }

  method ExtractWithPymupdf(doc: PdfDocument) returns (text: string)
    ensures text == FitzText(doc)
  {
    match doc.fitzPages
    case None =>
      text := "";
    case Some(pages) =>
      var textContent: seq<string> := [];
      for i := 0 to |pages|
        invariant textContent == FitzKept(pages[..i])
      {
        assert pages[..i + 1][..i] == pages[..i];
        var pageText := pages[i].text;
        if pageText != "" && Strip(pageText) != "" {
          textContent := textContent + [Strip(pageText)];
        }
      }
      assert pages[..|pages|] == pages;
      text := NormalizeLines(JoinLines(textContent));
  }

  method ExtractText(doc: PdfDocument) returns (text: string)
    ensures text == DocumentText(doc)
  {
    text := ExtractWithPdfplumber(doc);
    if text != "" && Strip(text) != "" {
      return;
    }
    text := ExtractWithPymupdf(doc);
    if text != "" && Strip(text) != "" {
      return;
    }
    text := "";
  }

  method IsImageBasedPdf(doc: PdfDocument) returns (imageBased: bool)
    ensures imageBased == ImageBased(doc)
  {
    match doc.fitzPages
    case None =>
      imageBased := false;
    case Some(pages) =>
      var hasText := false;
      for i := 0 to |pages|
        invariant !hasText
        invariant forall k | 0 <= k < i :: IsBlank(pages[k].text)
      {
        if Strip(pages[i].text) != "" {
          hasText := true;
          break;
        }
      }
      imageBased := !hasText;
  }

  method PdfPagesToBase64Images(doc: PdfDocument) returns (images: seq<string>)
    ensures images == PageImages(doc)
  {
    images := [];
    match doc.fitzPages
    case None =>
    case Some(pages) =>
      for i := 0 to |pages|
        invariant |images| == i
        invariant forall k | 0 <= k < i :: pages[k].png == Some(images[k])
      {
        var png := pages[i].png;
        if png.None? {
          RenderedPrefixAt(pages, images);
          break;
        }
        images := images + [png.value];
      }
      if |images| == |pages| {
        RenderedPrefixAt(pages, images);
      }
  }

  /** `RenderedPrefix` is the only prefix of renderings that stops at the end or at a failed page. */
  lemma {:induction false} RenderedPrefixAt(pages: seq<FitzPage>, images: seq<string>)
    requires |images| <= |pages|
    requires forall k | 0 <= k < |images| :: pages[k].png == Some(images[k])
    requires |images| < |pages| ==> pages[|images|].png == None
    ensures RenderedPrefix(pages) == images
  {
    if images != [] {
      RenderedPrefixAt(pages[1..], images[1..]);
    }
  }

  /** Splitting into lines and cleaning them up gives newline-free lines. */
  lemma {:induction false} StrippedLinesNoNewline(lines: seq<string>)
    requires forall i | 0 <= i < |lines| :: '\n' !in lines[i]
    ensures forall i | 0 <= i < |StrippedLines(lines)| :: '\n' !in StrippedLines(lines)[i]
  {
    if lines != [] {
      StripKeeps(lines[0], '\n');
      StrippedLinesNoNewline(lines[1..]);
    }
  }

  /** Every line of `lines` is blank. */
  predicate AllBlank(lines: seq<string>) {
    lines == [] || (IsBlank(lines[0]) && AllBlank(lines[1..]))
  }

  /** Every line is dropped exactly when every line is blank. */
  lemma {:induction false} StrippedLinesEmpty(lines: seq<string>)
    ensures StrippedLines(lines) == [] <==> AllBlank(lines)
  {
    if lines != [] {
      StrippedLinesEmpty(lines[1..]);
    }
  }

  /** A text is blank exactly when each of its lines is. */
  lemma {:induction false} SplitLinesBlank(text: string)
    ensures AllBlank(SplitLines(text)) <==> IsBlank(text)
    decreases |text|
  {
    var k := Find(text, '\n');
    if k >= 0 {
      var head, rest := text[..k], text[k + 1..];
      assert SplitLines(text) == [head] + SplitLines(rest);
      assert AllBlank(SplitLines(text)) <==> IsBlank(head) && AllBlank(SplitLines(rest)) by {
        assert ([head] + SplitLines(rest))[1..] == SplitLines(rest);
      }
      SplitLinesBlank(rest);
      BlankAroundNewline(text, k);
    }
  }

  /** Text around a newline is blank exactly when both sides are. */
  lemma BlankAroundNewline(text: string, k: nat)
    requires k < |text| && text[k] == '\n'
    ensures IsBlank(text) <==> IsBlank(text[..k]) && IsBlank(text[k + 1..])
  {
    if IsBlank(text[..k]) && IsBlank(text[k + 1..]) {
      forall i | 0 <= i < |text| ensures IsSpace(text[i]) {
        if i < k {
          assert text[i] == text[..k][i];
        } else if i > k {
          assert text[i] == text[k + 1..][i - k - 1];
        }
      }
    }
  }

  /** A join whose first line is non-empty and stripped is not blank. */
  lemma JoinStartsWith(lines: seq<string>)
    requires lines != [] && lines[0] != "" && IsStripped(lines[0])
    ensures !IsBlank(JoinLines(lines))
  {
    var j := JoinLines(lines);
    if |lines| > 1 {
      assert j == lines[0] + "\n" + JoinLines(lines[1..]);
    }
    assert j[0] == lines[0][0];
  }

  /** The lines of the cleaned-up text are the stripped non-blank input lines, in order. */
  lemma NormalizedLines(text: string)
    ensures var r := NormalizeLines(text);
            r != "" ==> && SplitLines(r) == StrippedLines(SplitLines(text))
                        && forall i | 0 <= i < |SplitLines(r)| :: SplitLines(r)[i] != "" && IsStripped(SplitLines(r)[i])
  {
    var kept := StrippedLines(SplitLines(text));
    StrippedLinesNoNewline(SplitLines(text));
    if kept != [] {
      SplitJoin(kept);
    }
  }

  /** Already-clean lines pass through the clean-up unchanged. */
  lemma {:induction false} StrippedLinesFixed(lines: seq<string>)
    requires forall i | 0 <= i < |lines| :: lines[i] != "" && IsStripped(lines[i])
    ensures StrippedLines(lines) == lines
  {
    if lines != [] {
      StripUnique("", lines[0], "");
      assert "" + lines[0] + "" == lines[0];
      StrippedLinesFixed(lines[1..]);
    }
  }

  /** Cleaning up cleaned-up text changes nothing. */
  lemma NormalizeIdempotent(text: string)
    ensures NormalizeLines(NormalizeLines(text)) == NormalizeLines(text)
  {
    var kept := StrippedLines(SplitLines(text));
    StrippedLinesNoNewline(SplitLines(text));
    if kept == [] {
      assert SplitLines("") == [""];
    } else {
      SplitJoin(kept);
      StrippedLinesFixed(kept);
    }
  }

  /**
   * Blank extracted text together with "not image-based" happens only when PyMuPDF cannot
   * open the document: if it can, every page is blank.
   */
  lemma BlankTextMeansImageBasedOrUnopened(doc: PdfDocument)
    requires DocumentText(doc) == ""
    ensures doc.fitzPages.Some? ==> ImageBased(doc)
  {
  }

  /** No line is kept exactly when every page is blank. */
  lemma {:induction false} FitzKeptEmpty(pages: seq<FitzPage>)
    ensures FitzKept(pages) == [] <==> forall i | 0 <= i < |pages| :: IsBlank(pages[i].text)
  {
    if pages != [] {
      var init := pages[..|pages| - 1];
      FitzKeptEmpty(init);
      assert forall i | 0 <= i < |init| :: init[i] == pages[i];
    }
  }

  /** Page conversion gives one image per page, in page order, when every page renders. */
  lemma OnePerPage(doc: PdfDocument)
    requires doc.fitzPages.Some?
    requires forall i | 0 <= i < |doc.fitzPages.value| :: doc.fitzPages.value[i].png.Some?
    ensures |PageImages(doc)| == |doc.fitzPages.value|
    ensures forall i | 0 <= i < |PageImages(doc)| :: PageImages(doc)[i] == doc.fitzPages.value[i].png.value
  {
  }
}

/**
 * Text extraction from a parsed PDF. The parser itself (pdf.js) is outside the
 * model: a document arrives as its pages, each page as the text-content items
 * the parser reports for it.
 */
module PdfUtils {
  import opened JsStrings

  /** A text-content item: a text run carrying `str`, or a marked-content marker without it. */
  datatype Item = TextItem(str: string) | MarkedContent

  /** The items of one page, in the order the parser reports them. */
  type Page = seq<Item>

  /** Written after every page's text. */
  const PAGE_BREAK := "\n\n"

  /** An item's text: its `str`, or nothing for an item without one. */
  function ItemText(item: Item): string
  {
    match item
    case TextItem(str) => str
    case MarkedContent => ""
  }

  /** The texts of a page's items, in item order. */
  function ItemTexts(items: Page): seq<string>
  {
    seq(|items|, k requires 0 <= k < |items| => ItemText(items[k]))
  }

  /** A page's text: its item texts joined by single spaces. */
  function PageText(items: Page): string
  {
    Join(ItemTexts(items), " ")
  }

  /** The texts of all pages, in page order. */
  function PageTexts(pages: seq<Page>): seq<string>
  {
    seq(|pages|, k requires 0 <= k < |pages| => PageText(pages[k]))
  }

  /** The text accumulated over pages 1..numPages: each page's text followed by a page break. */
  function Accumulated(pages: seq<Page>): string
  {
    if |pages| == 0 then ""
    else Accumulated(pages[..|pages| - 1]) + PageText(pages[|pages| - 1]) + PAGE_BREAK
  }

  /** The extracted text of a document: the accumulation with surrounding whitespace removed. */
  function ExtractedText(pages: seq<Page>): string
  {
    Trim(Accumulated(pages))
  }

  /** The page loop: appends each page's text and a page break, then trims. */
  method ExtractTextFromPdf(pages: seq<Page>) returns (text: string)
    ensures text == ExtractedText(pages)
    ensures |pages| == 0 ==> text == ""
    ensures |text| > 0 ==> !IsWhitespace(text[0]) && !IsWhitespace(text[|text| - 1])
  {
    var fullText := "";
    for i := 1 to |pages| + 1
      invariant fullText == Accumulated(pages[..i - 1])
    {
      var pageText := PageText(pages[i - 1]);
      fullText := fullText + pageText + PAGE_BREAK;
      assert pages[..i][..i - 1] == pages[..i - 1];
    }
    assert pages[..|pages|] == pages;
    text := Trim(fullText);
  }

  /** A page of k >= 1 items is its item texts plus exactly k - 1 single-space separators. */
  lemma PageTextLength(items: Page)
    requires |items| > 0
    ensures |PageText(items)| == TotalLength(ItemTexts(items)) + |items| - 1
  {
    JoinLength(ItemTexts(items), " ");
  }

  /** The accumulation is the page texts joined by page breaks, with one more page break at the end. */
  lemma {:induction false} AccumulatedIsJoin(pages: seq<Page>)
    requires |pages| > 0
    ensures Accumulated(pages) == Join(PageTexts(pages), PAGE_BREAK) + PAGE_BREAK
  {
    var n := |pages|;
    if n == 1 {
      assert PageTexts(pages) == [PageText(pages[0])];
      assert pages[..0] == [];
    } else {
      var init := pages[..n - 1];
      AccumulatedIsJoin(init);
      assert PageTexts(pages) == PageTexts(init) + [PageText(pages[n - 1])];
      JoinAppend(PageTexts(init), PageText(pages[n - 1]), PAGE_BREAK);
    }
  }

  /** The extracted text is a whitespace-free-ended slice of the accumulation, and trimming it again changes nothing. */
  lemma ExtractedTextIsTrimmedSlice(pages: seq<Page>) returns (lo: nat, hi: nat)
    ensures lo <= hi <= |Accumulated(pages)| && ExtractedText(pages) == Accumulated(pages)[lo..hi]
    ensures forall k :: 0 <= k < lo ==> IsWhitespace(Accumulated(pages)[k])
    ensures forall k :: hi <= k < |Accumulated(pages)| ==> IsWhitespace(Accumulated(pages)[k])
    ensures Trim(ExtractedText(pages)) == ExtractedText(pages)
  {
    lo, hi := TrimIsSlice(Accumulated(pages));
    TrimIdempotent(Accumulated(pages));
  }
}

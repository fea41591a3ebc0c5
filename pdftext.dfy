/**
 * `extract_text_from_pdf` of main.py: the text of a PDF is the concatenation of the
 * text of its pages, in page order. Opening the document and extracting a page's text
 * are done by the PDF library and are represented by the list of page texts.
 */
module PdfText {

  /** The page texts, one after another. */
  function Concat(pages: seq<string>): string
  {
    if pages == [] then "" else Concat(pages[..|pages| - 1]) + pages[|pages| - 1]
  }

  /** The `text += page_text` loop. */
  method ExtractText(pages: seq<string>) returns (text: string)
    ensures text == Concat(pages)
  {
    text := "";
    for i := 0 to |pages|
      invariant text == Concat(pages[..i])
    {
      assert pages[..i + 1][..i] == pages[..i];
      text := text + pages[i];
    }
    assert pages[..|pages|] == pages;
  }

  /** The text of consecutive runs of pages is the concatenation of theirs. */
  lemma {:induction false} ConcatAppend(a: seq<string>, b: seq<string>)
    ensures Concat(a + b) == Concat(a) + Concat(b)
    decreases |b|
  {
    if b == [] {
      assert a + b == a;
    } else {
      var b' := b[..|b| - 1];
      assert (a + b)[..|a + b| - 1] == a + b';
      ConcatAppend(a, b');
    }
  }

  /** Every page's text appears, unchanged, right after the text of the pages before it. */
  lemma PageTextInPlace(pages: seq<string>, k: nat)
    requires k < |pages|
    ensures var at := |Concat(pages[..k])|;
      at + |pages[k]| <= |Concat(pages)| && Concat(pages)[at..at + |pages[k]|] == pages[k]
  {
    assert pages == pages[..k] + ([pages[k]] + pages[k + 1..]);
    ConcatAppend(pages[..k], [pages[k]] + pages[k + 1..]);
    ConcatAppend([pages[k]], pages[k + 1..]);
    assert [pages[k]][..0] == [];
  }
}

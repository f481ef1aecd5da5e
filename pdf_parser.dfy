/** Text extraction from an uploaded PDF (backend/app/analysis/pdf_parser.py).
    PyMuPDF is a parameter: it turns the uploaded bytes into either an error
    or the raw text of each page, in page order. */
module PdfParser {
  import opened Wrappers
  import opened Text

  type Byte = bv8

  /** What PyMuPDF makes of a byte string. */
  datatype Opened = OpenError(message: string) | Document(pages: seq<string>)

  const OpenErrorPrefix := "Could not open PDF: "
  const NoTextMessage := "No text could be extracted from this PDF. "
    + "It may be a scanned image \U{2014} only text-based PDFs are supported."
  const PageSeparator := "\n\n"

  predicate AllSpace(s: string) {
    forall k :: 0 <= k < |s| ==> IsPySpace(s[k])
  }

  /** The pages whose raw text is not empty, in page order. */
  function NonEmptyPages(pages: seq<string>): (r: seq<string>)
    ensures |r| <= |pages|
    ensures forall k :: 0 <= k < |r| ==> r[k] != "" && r[k] in pages
  {
    if pages == [] then []
    else (if pages[0] != "" then [pages[0]] else []) + NonEmptyPages(pages[1..])
  }

  /** Filtering a page list extended by one page extends the filtered list by
      that page when it is not empty. */
  lemma {:induction false} NonEmptyPagesSnoc(pages: seq<string>, p: string)
    ensures NonEmptyPages(pages + [p]) == NonEmptyPages(pages) + (if p != "" then [p] else [])
  {
    if pages != [] {
      assert (pages + [p])[1..] == pages[1..] + [p];
      NonEmptyPagesSnoc(pages[1..], p);
    }
  }

  /** The stripped text of every page whose raw text is not empty, in page
      order; defined on the last page, so that each turn of the page loop adds
      one step. */
  function Contributions(pages: seq<string>): (parts: seq<string>)
    ensures |parts| == |NonEmptyPages(pages)|
    ensures forall k :: 0 <= k < |parts| ==> parts[k] == PyStrip(NonEmptyPages(pages)[k])
  {
    if pages == [] then []
    else
      var init, last := pages[..|pages| - 1], pages[|pages| - 1];
      assert pages == init + [last];
      NonEmptyPagesSnoc(init, last);
      Contributions(init) + (if last != "" then [PyStrip(last)] else [])
  }

  /** `extract_text_from_pdf` as a function of what PyMuPDF read. */
  function ExtractText(doc: Opened): (r: Result<string, string>)
    ensures doc.OpenError? ==> r == Failure(OpenErrorPrefix + doc.message)
    ensures doc.Document? && r.Failure? ==> r.error == NoTextMessage
    ensures r.Success? ==> r.value != []
  {
    match doc
    case OpenError(m) => Failure(OpenErrorPrefix + m)
    case Document(pages) =>
      var fullText := PyStrip(Join(Contributions(pages), PageSeparator));
      if fullText == "" then Failure(NoTextMessage) else Success(fullText)
  }

  method ExtractTextFromPdf(pdfBytes: seq<Byte>, fitz: seq<Byte> -> Opened) returns (r: Result<string, string>)
    ensures r == ExtractText(fitz(pdfBytes))
    ensures r.Success? ==> r.value != [] && !IsPySpace(r.value[0]) && !IsPySpace(r.value[|r.value| - 1])
  {
    var doc := fitz(pdfBytes);
    if doc.OpenError? {
      return Failure(OpenErrorPrefix + doc.message);
    }
    var pages := doc.pages;
    var pagesText: seq<string> := [];
    var i := 0;
    while i < |pages|
      invariant 0 <= i <= |pages|
      invariant pagesText == Contributions(pages[..i])
    {
      ContributionsStep(pages, i);
      var text := pages[i];
      if text != "" {
        pagesText := pagesText + [PyStrip(text)];
      }
      i := i + 1;
    }
    assert pages[..i] == pages;
    var fullText := PyStrip(Join(pagesText, PageSeparator));
    StripShape(Join(pagesText, PageSeparator), IsPySpace);
    if fullText == "" {
      return Failure(NoTextMessage);
    }
    r := Success(fullText);
  }

  /** One more page extends the contributions by that page's part, if any. */
  lemma ContributionsStep(pages: seq<string>, i: nat)
    requires i < |pages|
    ensures Contributions(pages[..i + 1])
      == Contributions(pages[..i]) + (if pages[i] != "" then [PyStrip(pages[i])] else [])
  {
    assert pages[..i + 1][..i] == pages[..i];
  }

  /** Joining with a white-space separator gives white space exactly when
      every part is white space. */
  lemma {:induction false} JoinAllSpace(parts: seq<string>, sep: string)
    requires AllSpace(sep)
    ensures AllSpace(Join(parts, sep)) <==> forall i :: 0 <= i < |parts| ==> AllSpace(parts[i])
  {
    if |parts| > 1 {
      JoinAllSpace(parts[1..], sep);
      var rest := Join(parts[1..], sep);
      var whole := parts[0] + sep + rest;
      if AllSpace(whole) {
        forall k | 0 <= k < |parts[0]| ensures IsPySpace(parts[0][k]) {
          assert whole[k] == parts[0][k];
        }
        forall k | 0 <= k < |rest| ensures IsPySpace(rest[k]) {
          assert whole[|parts[0]| + |sep| + k] == rest[k];
        }
        forall i | 0 <= i < |parts| ensures AllSpace(parts[i]) {
          if i > 0 { assert parts[i] == parts[1..][i - 1]; }
        }
      }
      if forall i :: 0 <= i < |parts| ==> AllSpace(parts[i]) {
        forall i | 0 <= i < |parts| - 1 ensures AllSpace(parts[1..][i]) {
          assert parts[1..][i] == parts[i + 1];
        }
        assert AllSpace(whole);
      }
    }
  }

  /** A page's stripped text is white space exactly when the page is. */
  lemma StrippedAllSpace(page: string)
    ensures AllSpace(PyStrip(page)) <==> AllSpace(page)
  {
    StripShape(page, IsPySpace);
    StripEmptyIff(page, IsPySpace);
    var r := PyStrip(page);
    if AllSpace(page) {
      assert forall k :: 0 <= k < |page| ==> IsPySpace(page[k]);
      assert r == [];
    }
  }

  /** Stripping leaves nothing exactly when the text is all white space. */
  lemma PyStripEmptyIff(s: string)
    ensures PyStrip(s) == [] <==> AllSpace(s)
  {
    StripEmptyIff(s, IsPySpace);
    assert AllSpace(s) <==> forall k :: 0 <= k < |s| ==> IsPySpace(s[k]);
  }

  /** Every text of the list is white space. */
  predicate AllBlank(texts: seq<string>) {
    forall i :: 0 <= i < |texts| ==> AllSpace(texts[i])
  }

  lemma AllBlankAppend(texts: seq<string>, t: string)
    ensures AllBlank(texts + [t]) <==> AllBlank(texts) && AllSpace(t)
  {
    assert forall i :: 0 <= i < |texts| ==> (texts + [t])[i] == texts[i];
    assert (texts + [t])[|texts|] == t;
  }

  /** Every contribution is white space exactly when every page is. */
  lemma {:induction false} ContributionsAllSpace(pages: seq<string>)
    ensures AllBlank(Contributions(pages)) <==> AllBlank(pages)
  {
    if pages != [] {
      var init, last := pages[..|pages| - 1], pages[|pages| - 1];
      assert pages == init + [last];
      ContributionsAllSpace(init);
      AllBlankAppend(init, last);
      if last != "" {
        StrippedAllSpace(last);
        AllBlankAppend(Contributions(init), PyStrip(last));
      } else {
        assert Contributions(pages) == Contributions(init) + [] == Contributions(init);
        assert AllSpace(last);
      }
    }
  }

  /** Extraction reports the scanned-image error exactly when the document
      opens but no page holds anything other than white space. */
  lemma NoTextIffBlankPages(pages: seq<string>)
    ensures ExtractText(Document(pages)) == Failure(NoTextMessage) <==> AllBlank(pages)
  {
    var parts := Contributions(pages);
    var joined := Join(parts, PageSeparator);
    JoinAllSpace(parts, PageSeparator);
    ContributionsAllSpace(pages);
    PyStripEmptyIff(joined);
  }

  /** A returned text is never empty and has no white space at either end. */
  lemma ExtractedTextIsTrimmed(doc: Opened)
    ensures var r := ExtractText(doc);
      r.Success? ==> r.value != [] && !IsPySpace(r.value[0]) && !IsPySpace(r.value[|r.value| - 1])
  {
    if doc.Document? {
      StripShape(Join(Contributions(doc.pages), PageSeparator), IsPySpace);
    }
  }

  /** A page of white space is not skipped: it contributes an empty part, so
      the pages around it end up separated by two separators. */
  lemma BlankPageKeepsItsSeparator()
    ensures ExtractText(Document(["A", " ", "B"])) == Success("A\n\n\n\nB")
  {
    ThreePageContributions();
    JoinThree();
    StripKeepsTrimmed("A\n\n\n\nB", IsPySpace);
  }

  /** The three sample parts joined with the page separator. */
  lemma JoinThree()
    ensures Join(["A", "", "B"], PageSeparator) == "A\n\n\n\nB"
  {
    assert ["A", "", "B"][1..] == ["", "B"];
    assert ["", "B"][1..] == ["B"];
  }

  /** The parts of the three sample pages: the blank one gives an empty part. */
  lemma ThreePageContributions()
    ensures Contributions(["A", " ", "B"]) == ["A", "", "B"]
  {
    var pages := ["A", " ", "B"];
    assert pages[..2] == ["A", " "];
    assert pages[..2][..1] == ["A"];
    assert pages[..2][..1][..0] == [];
    StripSingle(' ');
    StripSingle('A');
    StripSingle('B');
    assert Contributions(["A"]) == ["A"];
    assert Contributions(["A", " "]) == ["A", ""];
  }

  /** A one-character page strips to nothing when the character is white
      space, and to itself otherwise. */
  lemma StripSingle(c: char)
    ensures PyStrip([c]) == if IsPySpace(c) then [] else [c]
  {
    if IsPySpace(c) {
      PyStripEmptyIff([c]);
    } else {
      StripKeepsTrimmed([c], IsPySpace);
    }
  }
}

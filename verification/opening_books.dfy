/**
  Opening a text: the scan finds its chapters, the outline groups them, and
  what comes out is a book that everything about turning pages applies to.
 */
module OpeningBooks {
  import opened Utf8
  import opened Pager
  import opened Outline
  import opened Directory
  import opened CanonicalPages
  import opened ChapterScan
  import opened ChapterIndex
  import opened ReaderPositions

  // The uncached path of OpenDocument for UTF-8 text, with the outline the reader builds from it.
  method OpenText(g: Grammar, t: Titles, doc: Document, frags: seq<seq<byte>>, bom: nat) returns (book: Result<Book>)
    requires Valid(doc.bytes) && Marked(doc.bytes, bom) && Sane(g) && Reads(frags, doc.bytes)
    ensures book.Ok? && book.value.doc == doc && GoodBook(book.value)
    ensures Describes(g, bom, doc.bytes, book.value.contents.chapters, |doc.bytes|)
    ensures IsOutline(t, book.value.contents.chapters, book.value.contents.outline)
  {
    hide *;
    var chapters := ScanChapters(g, frags, doc.bytes, |doc.bytes|, bom);
    ChaptersCanBeLaidOut(g, bom, doc);
    var outline := ChapterOutline(t, chapters.value);
    var contents := Contents(chapters.value, outline);
    OutlinesAreWellFormed(t, contents);
    BookIsGood(Book(doc, contents));
    book := Ok(Book(doc, contents));
  }

  lemma {:induction false} BookIsGood(b: Book)
    requires WellFormed(b.contents)
    requires forall i :: 0 <= i < |b.contents.chapters| ==> GoodChapter(b.doc, b.contents.chapters[i])
    ensures GoodBook(b)
  {
    hide WellFormed, GoodChapter;
  }
}

/**
  Turning pages, App/book-reader/app.go and chapter_pages.go: the reader keeps
  one window of pages, yet every page turn is the step of ReaderPositions on
  the list of canonical pages.
 */
module ReaderNavigation {
  import opened Utf8
  import opened Pager
  import opened PageTiling
  import opened SortSearch
  import opened ChapterPages
  import opened CanonicalPages
  import opened ReadWindowProof
  import opened Options
  import opened Directory
  import opened ReaderPositions
  import opened WindowLoading

  datatype Counted = Counted(chapter: Chapter, index: PageIndex)

  // Document.AlignLineStart: back to the start of the line, at most 64 KiB, else to the floor.
  function AlignLineStart(file: seq<byte>, offset: int, floor: int): int
    requires 0 <= floor && offset <= |file|
  {
    if offset <= floor then floor
    else
      var base := if offset - 64 * 1024 < floor then floor else offset - 64 * 1024;
      var n := AfterLastLF(file[base..offset]);
      if n > 0 then base + n else floor
  }

  lemma {:induction false} AlignedIsBoundary(file: seq<byte>, offset: int, floor: int)
    requires Valid(file) && 0 <= floor && offset <= |file| && Boundary(file, floor)
    ensures Boundary(file, AlignLineStart(file, offset, floor))
    ensures floor <= AlignLineStart(file, offset, floor) && AlignLineStart(file, offset, floor) <= if offset < floor then floor else offset
  {
    hide Valid;
    if offset > floor {
      var base := if offset - 64 * 1024 < floor then floor else offset - 64 * 1024;
      var n := AfterLastLF(file[base..offset]);
      if n > 0 {
        assert file[base..offset][n - 1] == file[base + n - 1];
        AsciiBoundary(file, base + n - 1);
      }
    }
  }

  predicate ValidPosition(c: Contents, k: int, offset: int) {
    0 <= k < |c.chapters| && c.chapters[k].start <= offset < c.chapters[k].end
  }

  // Where openChapter opens section k when section index is asked for: at a valid position of the section itself, at
  // the start of a later one, at the last line of an earlier one.
  ghost function OpeningOffset(b: Book, index: int, at: int, k: int): int
    requires GoodBook(b) && 0 <= k < |b.contents.chapters|
  {
    var chapter := b.contents.chapters[k];
    ChapterRange(b, k);
    var last := if chapter.end > chapter.start then chapter.end - 1 else chapter.start;
    var offset := if k == index then at
                  else if k > index then chapter.start
                  else AlignLineStart(b.doc.bytes, last, chapter.start);
    if ValidPosition(b.contents, k, offset) then offset else chapter.start
  }

  // Which pages are loaded: window w from its page j on, the first one possibly shortened.
  ghost predicate Loaded(ws: seq<Canon>, w: nat, j: nat, pages: seq<Page>, end: int) {
    && w < |ws| && j < |ws[w].window.pages|
    && |pages| == |ws[w].window.pages| - j
    && pages[1..] == ws[w].window.pages[j + 1..]
    && (pages[0].start == ws[w].window.pages[j].start ||
        ws[w].window.pages[j].start < pages[0].start < ws[w].window.pages[j].end)
    && end == ws[w].window.end
  }

  // The start of the line: behind the last line feed before the offset, looked for over 64 KiB and not before the floor;
  // without one, the floor.
  lemma {:induction false} LineStartIs(file: seq<byte>, offset: int, floor: int)
    requires 0 <= floor && offset <= |file|
    ensures var start, base := AlignLineStart(file, offset, floor), if offset - 65536 < floor then floor else offset - 65536;
      && (offset <= floor ==> start == floor)
      && (offset > floor && (exists i :: base <= i < offset && file[i] == 10) ==>
            base < start <= offset && file[start - 1] == 10 && forall i :: start <= i < offset ==> file[i] != 10)
      && (offset > floor && (forall i :: base <= i < offset ==> file[i] != 10) ==> start == floor)
  {
    if offset > floor {
      var base := if offset - 65536 < floor then floor else offset - 65536;
      var window := file[base..offset];
      var n := AfterLastLF(window);
      assert forall i :: base <= i < offset ==> file[i] == window[i - base];
      hide AfterLastLF;
    }
  }

  // Opening section k: itself at a position inside it, a later one at its start, an earlier one at the start of its last
  // line, the end of that line left aside.
  lemma {:induction false} OpensAt(b: Book, index: int, at: int, k: int)
    requires GoodBook(b) && 0 <= k < |b.contents.chapters|
    ensures var chapter, offset := b.contents.chapters[k], OpeningOffset(b, index, at, k);
      && 0 <= chapter.start <= chapter.end <= |b.doc.bytes|
      && (k == index ==> offset == if chapter.start <= at < chapter.end then at else chapter.start)
      && (k > index ==> offset == chapter.start)
      && (k < index && chapter.end > chapter.start ==>
            && chapter.start <= offset < chapter.end
            && (offset > chapter.start ==>
                  b.doc.bytes[offset - 1] == 10 && forall i :: offset <= i < chapter.end - 1 ==> b.doc.bytes[i] != 10)
            && (offset == chapter.start ==>
                  forall i :: chapter.start <= i < chapter.end - 1 && chapter.end - 65537 <= i ==> b.doc.bytes[i] != 10))
      && (k < index && chapter.end == chapter.start ==> offset == chapter.start)
  {
    hide *;
    var chapter := b.contents.chapters[k];
    ChapterRange(b, k);
    OpeningIs(b, index, at, k);
    var last := if chapter.end > chapter.start then chapter.end - 1 else chapter.start;
    LineStartIs(b.doc.bytes, last, chapter.start);
    PositionFacts(b.contents, k, at);
    PositionFacts(b.contents, k, chapter.start);
    PositionFacts(b.contents, k, AlignLineStart(b.doc.bytes, last, chapter.start));
  }

  // ---- What a read window is, in canonical pages ----

  // Any restored position of a section.
  lemma {:induction false} RestoredIsLoaded(b: Book, face: Face, k: nat, offset: nat) returns (w: nat, j: nat)
    requires GoodBook(b) && k < |b.contents.chapters| && Boundary(b.doc.bytes, offset)
    requires b.contents.chapters[k].start <= offset
    requires offset < b.contents.chapters[k].end || offset == b.contents.chapters[k].start
    ensures var ws := Layout(b, face, k);
            && Usable(IndexOf(ws))
            && var r := ReadWindow(b.doc, b.contents.chapters[k], face, IndexOf(ws), offset);
               && (r.Err? <==> HeadingTooLong(b.doc, b.contents.chapters[k], face, offset))
               && (r.Ok? ==> w < |ws| && Loaded(ws, w, j, r.value.pages, r.value.end) &&
                             (r.value.pages[0].start == offset || r.value.pages[0] == ws[w].window.pages[j]) &&
                             PageAt(IndexOf(ws).starts, offset) == PagesBefore(ws, w) + j)
  {
    var chapter := b.contents.chapters[k];
    var ls := SectionLaidOut(b, face, k);
    assert GoodChapter(b.doc, chapter);
    if chapter.start < chapter.end {
      hide *;
      var ws;
      ws, w, j := RestoresPosition(b.doc, chapter, face, offset);
      ShortenedIsLoaded(b.doc, chapter, face, ws, w, j, offset);
    } else {
      assert !HeadingTooLong(b.doc, chapter, face, offset);
      EmptyChapter(b.doc, chapter, face, Layout(b, face, k), ls);
      EmptyStart(b.doc, chapter, face, Layout(b, face, k), ls);
      w, j := 0, 0;
    }
  }

  lemma {:induction false} EmptyStart(doc: Document, chapter: Chapter, face: Face, ws: seq<Canon>, ls: seq<seq<Line>>)
    requires chapter.start == chapter.end
    requires WindowsTile(ws, chapter.start, chapter.end) && GoodWindows(doc, chapter, face, ws, ls)
    ensures ws[0].window.pages != [] && ws[0].window.pages[0].start == chapter.start
    ensures ws[0].window.pages[0].end == chapter.start
  {
    hide Valid, HeadingLen, PagesOf, Tiles, Lines, LoadWindow;
    assert GoodWindow(doc, chapter, face, ws[0], ls[0]);
    WindowPages(doc, chapter, face, ws[0], ls[0]);
  }

  lemma {:induction false} ShortenedIsLoaded(doc: Document, chapter: Chapter, face: Face, ws: seq<Canon>, w: nat,
                                             j: nat, offset: int)
    requires Usable(IndexOf(ws)) && Holds(ws, w, j, offset)
    requires var r := ReadWindow(doc, chapter, face, IndexOf(ws), offset);
             var pages := ws[w].window.pages;
             r.Ok? ==>
               && r.value.end == ws[w].window.end
               && |r.value.pages| == |pages| - j && r.value.pages[1..] == pages[j + 1..]
               && Shortened(doc, chapter, face, pages[j], r.value.pages[0], offset)
    ensures w < |ws| && j < |ws[w].window.pages|
    ensures var r := ReadWindow(doc, chapter, face, IndexOf(ws), offset);
            r.Ok? ==> Loaded(ws, w, j, r.value.pages, r.value.end) &&
                      (r.value.pages[0].start == offset || r.value.pages[0] == ws[w].window.pages[j])
  {
    hide ReadWindow, IndexOf, Usable, PerPage, Lines, PageOf;
  }

  // Every page number is some page of some window.
  lemma {:induction false} PageNumber(ws: seq<Canon>, p: nat) returns (w: nat, j: nat)
    requires p < |AllPages(ws)|
    ensures w < |ws| && j < |ws[w].window.pages| && PagesBefore(ws, w) + j == p
    decreases |ws|
  {
    var here := |ws[0].window.pages|;
    if p < here {
      w, j := 0, p;
    } else {
      w, j := PageNumber(ws[1..], p - here);
      w := w + 1;
    }
  }

  // Reading at the start of canonical page p loads from exactly that page.
  lemma {:induction false} ReadPage(b: Book, face: Face, k: nat, p: nat) returns (w: nat, j: nat)
    requires GoodBook(b) && k < |b.contents.chapters| && p < PagesOfSection(b, face, k)
    ensures var ws := Layout(b, face, k);
            && Usable(IndexOf(ws)) && p < |IndexOf(ws).starts|
            && w < |ws| && j < |ws[w].window.pages| && PagesBefore(ws, w) + j == p
            && IndexOf(ws).starts[p] == ws[w].window.pages[j].start
            && ReadWindow(b.doc, b.contents.chapters[k], face, IndexOf(ws), IndexOf(ws).starts[p]) ==
               Ok(Window(ws[w].window.pages[j..], ws[w].window.end))
  {
    var ws := Layout(b, face, k);
    var chapter := b.contents.chapters[k];
    assert GoodChapter(b.doc, chapter);
    assert IndexOf(ws).starts == PageStarts(AllPages(ws));
    hide *;
    var ls := SectionLaidOut(b, face, k);
    PagesCounted(b, face, k);
    w, j := PageNumber(ws, p);
    PageOfWindow(ws, w, j);
    ReadAtPageStart(b.doc, chapter, face, ws, ls, w, j);
  }

  lemma {:induction false} PagesCounted(b: Book, face: Face, k: nat)
    requires k < |b.contents.chapters|
    ensures PagesOfSection(b, face, k) == |AllPages(Layout(b, face, k))|
  {
  }

  // Canonical page starts are boundaries of the chapter, never in the failing situation.
  lemma {:induction false} WindowSuffixLoaded(ws: seq<Canon>, w: nat, j: nat)
    requires w < |ws| && j < |ws[w].window.pages|
    ensures Loaded(ws, w, j, ws[w].window.pages[j..], ws[w].window.end)
  {
    assert ws[w].window.pages[j..][1..] == ws[w].window.pages[j + 1..];
  }

  // The shown page's start is looked up as that page.
  lemma {:induction false} BookmarkPage(b: Book, face: Face, k: nat, w: nat, j: nat, pages: seq<Page>, end: int,
                                        at: nat)
    requires GoodBook(b) && k < |b.contents.chapters|
    requires Loaded(Layout(b, face, k), w, j, pages, end) && at < |pages|
    ensures var ws := Layout(b, face, k);
            && PagesBefore(ws, w) + j + at < PagesOfSection(b, face, k)
            && PageAt(PageStarts(AllPages(ws)), pages[at].start) == PagesBefore(ws, w) + j + at
  {
    hide *;
    var ws := Layout(b, face, k);
    var chapter := b.contents.chapters[k];
    ChapterGood(b, k);
    PagesCounted(b, face, k);
    LoadedPage(ws, w, j, pages, end, at);
    PageOfWindow(ws, w, j + at);
    var ls := SectionLaidOut(b, face, k);
    if chapter.start < chapter.end {
      NonemptyBookmark(b.doc, chapter, face, ws, ls, PagesBefore(ws, w) + j + at, pages[at].start);
    } else {
      EmptyBookmark(b.doc, chapter, face, ws, ls, w, j, pages, end);
    }
  }

  lemma {:induction false} NonemptyBookmark(doc: Document, chapter: Chapter, face: Face, ws: seq<Canon>,
                                            ls: seq<seq<Line>>, p: nat, offset: int)
    requires chapter.start < chapter.end
    requires WindowsTile(ws, chapter.start, chapter.end) && GoodWindows(doc, chapter, face, ws, ls)
    requires p < |AllPages(ws)|
    requires offset == AllPages(ws)[p].start || AllPages(ws)[p].start < offset < AllPages(ws)[p].end
    ensures PageAt(PageStarts(AllPages(ws)), offset) == p
  {
    hide *;
    FirstWindow(ws, chapter.start, chapter.end);
    PagesTileChapter(doc, chapter, face, ws, ls, chapter.start);
    FoundByStart(AllPages(ws), ShownFrom(ws[0]), chapter.end, p, offset);
  }

  lemma {:induction false} EmptyBookmark(doc: Document, chapter: Chapter, face: Face, ws: seq<Canon>,
                                         ls: seq<seq<Line>>, w: nat, j: nat, pages: seq<Page>, end: int)
    requires GoodChapter(doc, chapter) && chapter.start == chapter.end
    requires WindowsTile(ws, chapter.start, chapter.end) && GoodWindows(doc, chapter, face, ws, ls)
    requires Loaded(ws, w, j, pages, end)
    ensures |pages| == 1 && w == j == 0
    ensures PageAt(PageStarts(AllPages(ws)), pages[0].start) == PagesBefore(ws, 0) == 0
  {
    hide *;
    EmptyChapter(doc, chapter, face, ws, ls);
    EmptyStart(doc, chapter, face, ws, ls);
    SamePageStart(ws, w, j, pages, end);
    EmptyLookup(ws);
  }

  lemma {:induction false} FoundByStart(pages: seq<Page>, a: int, b: int, k: nat, offset: int)
    requires PagesTile(pages, a, b) && k < |pages|
    requires offset == pages[k].start || pages[k].start < offset < pages[k].end
    ensures PageAt(PageStarts(pages), offset) == k
  {
    hide *;
    PagesGrow(pages, a, b);
    PageAtFinds(pages, a, b, k, offset);
  }

  lemma {:induction false} EmptyLookup(ws: seq<Canon>)
    requires |ws| == 1 && |ws[0].window.pages| == 1
    ensures PageAt(PageStarts(AllPages(ws)), ws[0].window.pages[0].start) == 0 && PagesBefore(ws, 0) == 0
  {
    assert AllPages(ws) == ws[0].window.pages + AllPages([]) == ws[0].window.pages;
    CountIs(PageStarts(ws[0].window.pages), ws[0].window.pages[0].start, 1);
  }

  lemma {:induction false} LoadedPage(ws: seq<Canon>, w: nat, j: nat, pages: seq<Page>, end: int, at: nat)
    requires Loaded(ws, w, j, pages, end) && at < |pages|
    ensures w < |ws| && j + at < |ws[w].window.pages|
    ensures pages[at].start == ws[w].window.pages[j + at].start ||
            ws[w].window.pages[j + at].start < pages[at].start < ws[w].window.pages[j + at].end
  {
    assert at > 0 ==> pages[at] == pages[1..][at - 1] && ws[w].window.pages[j + at] == ws[w].window.pages[j + 1..][at - 1];
  }

  lemma {:induction false} SamePageStart(ws: seq<Canon>, w: nat, j: nat, pages: seq<Page>, end: int)
    requires Loaded(ws, w, j, pages, end) && |ws| == 1 && |ws[0].window.pages| == 1
    requires ws[0].window.pages[0].start == ws[0].window.pages[0].end
    ensures w == 0 && j == 0 && |pages| == 1 && pages[0].start == ws[0].window.pages[0].start
  {
  }

  // After the loaded window comes the next one, or the section is over.
  lemma {:induction false} WindowAfter(ws: seq<Canon>, a: int, b: int, w: nat)
    requires WindowsTile(ws, a, b) && w < |ws|
    ensures ws[w].window.end < b ==> w + 1 < |ws| && ws[w + 1].start == ws[w].window.end
    ensures ws[w].window.end < b ==> a < ws[w + 1].start
    ensures ws[w].window.end >= b ==> w + 1 == |ws|
    decreases |ws|
  {
    if w > 0 {
      WindowAfter(ws[1..], ws[0].window.end, b, w - 1);
    }
  }

  lemma {:induction false} PagesThrough(ws: seq<Canon>, w: nat)
    requires w < |ws|
    ensures PagesBefore(ws, w + 1) == PagesBefore(ws, w) + |ws[w].window.pages|
    ensures w + 1 == |ws| ==> PagesBefore(ws, w + 1) == |AllPages(ws)|
    decreases |ws|
  {
    if w > 0 {
      PagesThrough(ws[1..], w - 1);
    } else if |ws| == 1 {
      assert AllPages(ws) == ws[0].window.pages + AllPages([]) == ws[0].window.pages;
    }
  }

  class Reader {
    const book: Book
    const face: Face
    var chapterIndex: int
    var pages: seq<Page>
    var pageIndex: int
    var windowEnd: int
    var pagination: Option<Counted>
    ghost var window: nat   // index of the loaded window
    ghost var first: nat    // its first loaded page

    // The cached page counts are those of the chapter they name.
    ghost predicate CacheValid()
      reads this`pagination
    {
      GoodBook(book) &&
      (pagination.Some? ==>
         forall k :: 0 <= k < |book.contents.chapters| && book.contents.chapters[k] == pagination.value.chapter ==>
           pagination.value.index == IndexOf(Layout(book, face, k)))
    }

    // On a canonical page of a readable section.
    ghost predicate Reading()
      reads this
    {
      && CacheValid() && 0 <= chapterIndex < |book.contents.chapters|
      && !HeadingOnly(book.contents, chapterIndex)
      && Loaded(Layout(book, face, chapterIndex), window, first, pages, windowEnd)
      && 0 <= pageIndex < |pages|
    }

    // Which canonical page is shown.
    ghost function Shows(): Position
      reads this
      requires Reading()
    {
      Position(chapterIndex, PagesBefore(Layout(book, face, chapterIndex), window) + first + pageIndex)
    }

    constructor (book: Book, face: Face)
      requires GoodBook(book)
      ensures this.book == book && this.face == face && CacheValid() && pages == []
    {
      this.book, this.face := book, face;
      chapterIndex, pages, pageIndex, windowEnd, pagination := 0, [], 0, 0, None;
      window, first := 0, 0;
    }

    method CountedChapter(k: nat) returns (index: PageIndex)
      requires CacheValid() && k < |book.contents.chapters|
      ensures index == IndexOf(Layout(book, face, k)) && Usable(index)
    {
      hide Canonical, Layout, IndexOf, Usable, GoodWindows, WindowsTile;
      var chapter := book.contents.chapters[k];
      ghost var ls := SectionLaidOut(book, face, k);
      if pagination.Some? && pagination.value.chapter == chapter {
        return pagination.value.index;
      }
      var counted := CountChapterPages(book.doc, chapter, face);
      return counted.value;
    }

    // openCountedChapter: on success the reader stands on the page of offset (or on the last page);
    // on failure nothing has changed.
    method OpenCountedChapter(k: nat, at: int, last: bool) returns (ok: bool)
      requires CacheValid() && k < |book.contents.chapters| && !HeadingOnly(book.contents, k)
      requires !last ==> Boundary(book.doc.bytes, at) && book.contents.chapters[k].start <= at
      requires !last ==> at < book.contents.chapters[k].end || at == book.contents.chapters[k].start
      modifies this
      ensures ok <==> last || !HeadingTooLong(book.doc, book.contents.chapters[k], face, at)
      ensures !ok ==> unchanged(this)
      ensures ok ==> Reading() && chapterIndex == k && pageIndex == 0
      ensures ok ==> Shows().page == if last then PagesOfSection(book, face, k) - 1
                                     else PageAt(IndexOf(Layout(book, face, k)).starts, at)
      ensures ok && !last ==> pages[0].start == at || pages[0] == Layout(book, face, k)[window].window.pages[first]
    {
      hide *;
      CacheFacts(this);
      BookWellFormed(book);
      ChapterRange(book, k);
      var chapter := book.contents.chapters[k];
      var index := CountedChapter(k);
      ghost var ws := Layout(book, face, k);
      ghost var w, j;
      var offset := at;
      if last {
        SectionHasPages(book, face, k);
        w, j := ReadPage(book, face, k, PagesOfSection(book, face, k) - 1);
        StartsCounted(book, face, k);
        offset := index.starts[|index.starts| - 1];
        WindowSuffixLoaded(ws, w, j);
      } else {
        w, j := RestoredIsLoaded(book, face, k, offset);
      }
      var r := ReadWindowAt(book.doc, chapter, face, index, offset);
      if r.Err? {
        return false;
      }
      chapterIndex := k;
      pagination := Some(Counted(chapter, index));
      CacheSet(this, k);
      pages, pageIndex := r.value.pages, 0;
      windowEnd := r.value.end;
      window, first := w, j;
      LoadedFacts(ws, w, j, pages, windowEnd);
      NowReading(this);
      return true;
    }

    // openChapter: go to the nearest readable section, at the line start when that is another section.
    method OpenChapter(index: int, at: int) returns (ok: bool)
      requires CacheValid()
      requires ValidPosition(book.contents, index, at) ==> Boundary(book.doc.bytes, at)
      modifies this
      ensures !ok ==> unchanged(this)
      ensures ok ==> Reading() && pageIndex == 0
      ensures var target := ReadingTarget(book.contents, index);
              && (target.None? ==> !ok)
              && (target.Some? ==>
                    var k, chapter := target.value, book.contents.chapters[target.value];
                    var offset := OpeningOffset(book, index, at, k);
                    && (k != index ==> ok)
                    && (k == index ==> (ok <==> !HeadingTooLong(book.doc, chapter, face, offset)))
                    && (ok ==> Shows() == Position(k, PageAt(IndexOf(Layout(book, face, k)).starts, offset))))
    {
      hide *;
      var contents := book.contents;
      CacheFacts(this);
      TargetFacts(book, index);
      if index < 0 || index >= |contents.chapters| {
        return false;
      }
      var k, offset := index, at;
      var target := ReadableChapter(contents, index, 1);
      if target.Some? {
        k := target.value;
        if k != index {
          offset := contents.chapters[k].start;
        }
      } else {
        target := ReadableChapter(contents, index, -1);
        if target.None? {
          return false;
        }
        k := target.value;
        var end := contents.chapters[k].end;
        offset := if end > contents.chapters[k].start then end - 1 else contents.chapters[k].start;
      }
      ChapterGood(book, k);
      ChapterRange(book, k);
      if k != index {
        AlignedIsBoundary(book.doc.bytes, offset, contents.chapters[k].start);
        offset := AlignLineStart(book.doc.bytes, offset, contents.chapters[k].start);
      }
      PositionFacts(contents, k, offset);
      OpeningIs(book, index, at, k);
      OtherSectionOpens(book, face, index, at, k);
      if !ValidPosition(contents, k, offset) {
        offset := contents.chapters[k].start;
      }
      ok := OpenCountedChapter(k, offset, false);
      ShowsPosition(this);
    }

    method NextPage()
      requires Reading()
      modifies this
      ensures Reading() && Exists(book, face, old(Shows()))
      ensures Shows() == Next(book, face, old(Shows()))
    {
      hide *;
      ReadingFacts(this);
      if pageIndex + 1 < |pages| {
        NextInWindow(this);
        pageIndex := pageIndex + 1;
        NowReading(this);
        return;
      }
      var chapter := book.contents.chapters[chapterIndex];
      if windowEnd < chapter.end {
        WindowFollows(this);
        OpensItself(book, chapterIndex, windowEnd);
        var ok := OpenChapter(chapterIndex, windowEnd);
        return;
      }
      SectionOver(this);
      var next := ReadableChapter(book.contents, chapterIndex + 1, 1);
      if next.Some? {
        SectionStart(book, face, next.value);
        PositionFacts(book.contents, next.value, book.contents.chapters[next.value].start);
        OpensItself(book, next.value, book.contents.chapters[next.value].start);
        var ok := OpenChapter(next.value, book.contents.chapters[next.value].start);
      }
    }

    method PreviousPage()
      requires Reading()
      modifies this
      ensures Reading() && Exists(book, face, old(Shows()))
      ensures Shows() == Previous(book, face, old(Shows()))
    {
      hide *;
      ReadingFacts(this);
      Steps(book, face, Shows());
      if pageIndex > 0 {
        pageIndex := pageIndex - 1;
        NowReading(this);
        return;
      }
      var index := CountedChapter(chapterIndex);
      UsableFacts(index);
      var page := Search(index.starts, pages[pageIndex].start);
      PageAtIs(index.starts, pages[pageIndex].start);
      page := if page == 0 then 0 else page - 1;
      if page > 0 {
        PageStartOpens(book, face, chapterIndex, page - 1);
        OpensItself(book, chapterIndex, index.starts[page - 1]);
        var ok := OpenChapter(chapterIndex, index.starts[page - 1]);
        return;
      }
      var previous := ReadableChapter(book.contents, chapterIndex - 1, -1);
      if previous.Some? {
        var ok := OpenCountedChapter(previous.value, book.contents.chapters[previous.value].start, true);
        ShowsPosition(this);
      }
    }
  }

  // ---- Facts the methods use, one at a time ----

  lemma {:induction false} StartsCounted(b: Book, face: Face, k: nat)
    requires k < |b.contents.chapters|
    ensures |IndexOf(Layout(b, face, k)).starts| == PagesOfSection(b, face, k)
  {
    hide AllPages, Records, Layout;
  }

  lemma {:induction false} ChapterRange(b: Book, k: nat)
    requires GoodBook(b) && k < |b.contents.chapters|
    ensures var chapter := b.contents.chapters[k];
            && 0 <= chapter.start <= chapter.end <= |b.doc.bytes| && Valid(b.doc.bytes)
            && Boundary(b.doc.bytes, chapter.start)
  {
    assert GoodChapter(b.doc, b.contents.chapters[k]);
  }

  lemma {:induction false} PositionFacts(c: Contents, k: int, offset: int)
    ensures ValidPosition(c, k, offset) <==>
            0 <= k < |c.chapters| && c.chapters[k].start <= offset < c.chapters[k].end
  {
  }

  lemma {:induction false} OpeningIs(b: Book, index: int, at: int, k: int)
    requires GoodBook(b) && 0 <= k < |b.contents.chapters|
    ensures var chapter := b.contents.chapters[k];
            var last := if chapter.end > chapter.start then chapter.end - 1 else chapter.start;
      && 0 <= chapter.start && last <= |b.doc.bytes| && chapter.start <= |b.doc.bytes|
      && AlignLineStart(b.doc.bytes, chapter.start, chapter.start) == chapter.start
      && var offset := if k == index then at
                       else if k > index then chapter.start
                       else AlignLineStart(b.doc.bytes, last, chapter.start);
         OpeningOffset(b, index, at, k) == if ValidPosition(b.contents, k, offset) then offset else chapter.start
  {
    ChapterRange(b, k);
    AlignedAtFloor(b.doc.bytes, b.contents.chapters[k].start);
    hide GoodBook, ValidPosition, AlignLineStart;
  }

  lemma {:induction false} AlignedAtFloor(file: seq<byte>, floor: int)
    requires 0 <= floor <= |file|
    ensures AlignLineStart(file, floor, floor) == floor
  {
  }

  lemma {:induction false} OpensItself(b: Book, index: int, at: int)
    requires GoodBook(b) && 0 <= index < |b.contents.chapters|
    ensures WellFormed(b.contents)
    ensures !HeadingOnly(b.contents, index) ==> ReadingTarget(b.contents, index) == Some(index)
    ensures OpeningOffset(b, index, at, index) ==
            if ValidPosition(b.contents, index, at) then at else b.contents.chapters[index].start
  {
    hide *;
    TargetFacts(b, index);
    OpeningIs(b, index, at, index);
  }

  // The start of a line of a section is never inside a heading that is too long.
  lemma {:induction false} OtherSectionOpens(b: Book, face: Face, index: int, at: int, k: int)
    requires GoodBook(b) && 0 <= k < |b.contents.chapters|
    ensures k != index ==> !HeadingTooLong(b.doc, b.contents.chapters[k], face, OpeningOffset(b, index, at, k))
  {
    hide *;
    var chapter := b.contents.chapters[k];
    OpeningIs(b, index, at, k);
    ChapterRange(b, k);
    ChapterGood(b, k);
    var last := if chapter.end > chapter.start then chapter.end - 1 else chapter.start;
    SectionStart(b, face, k);
    LineStartOpens(b.doc, chapter, face, last);
  }

  lemma {:induction false} LineStartOpens(doc: Document, chapter: Chapter, face: Face, offset: int)
    requires GoodChapter(doc, chapter) && chapter.start <= offset <= |doc.bytes|
    ensures 0 <= chapter.start && !HeadingTooLong(doc, chapter, face, AlignLineStart(doc.bytes, offset, chapter.start))
  {
    hide *;
    ChapterStarts(doc, chapter);
    LineStartAfterLF(doc.bytes, offset, chapter.start);
    WindowIsValid(doc.bytes, chapter.start, chapter.end);
    TooLongIsInside(doc, chapter, face, AlignLineStart(doc.bytes, offset, chapter.start));
  }

  lemma {:induction false} ChapterStarts(doc: Document, chapter: Chapter)
    requires GoodChapter(doc, chapter)
    ensures Valid(doc.bytes) && 0 <= chapter.start <= chapter.end <= |doc.bytes|
    ensures Boundary(doc.bytes, chapter.start) && Boundary(doc.bytes, chapter.end)
  {
    hide Valid;
  }

  // A position in a window that is all heading does not follow a line feed.
  lemma {:induction false} TooLongIsInside(doc: Document, chapter: Chapter, face: Face, offset: int)
    requires var (raw, end) := LoadWindow(doc.bytes, chapter.start, chapter.end);
             0 <= chapter.start && end == chapter.start + |raw| <= |doc.bytes| && raw == doc.bytes[chapter.start..end]
    ensures HeadingTooLong(doc, chapter, face, offset) ==> chapter.start < offset <= |doc.bytes| && doc.bytes[offset - 1] != 10
  {
    hide LoadWindow, DecodeBytes, WrapLines, PerPage, PartLen;
    if HeadingTooLong(doc, chapter, face, offset) {
      var raw := LoadWindow(doc.bytes, chapter.start, chapter.end).0;
      assert raw[offset - 1 - chapter.start] == doc.bytes[offset - 1];
    }
  }

  lemma {:induction false} LineStartAfterLF(file: seq<byte>, offset: int, floor: int)
    requires 0 <= floor && offset <= |file|
    ensures var start := AlignLineStart(file, offset, floor); start > floor ==> start <= offset && file[start - 1] == 10
  {
    if offset > floor {
      var base := if offset - 64 * 1024 < floor then floor else offset - 64 * 1024;
      var n := AfterLastLF(file[base..offset]);
      if n > 0 {
        assert file[base..offset][n - 1] == file[base + n - 1];
      }
    }
  }

  lemma {:induction false} TargetFacts(b: Book, index: int)
    requires GoodBook(b)
    ensures WellFormed(b.contents)
    ensures var c := b.contents;
            ReadingTarget(c, index) == if !(0 <= index < |c.chapters|) then None
                                       else if Readable(c, index, 1).Some? then Readable(c, index, 1)
                                       else Readable(c, index, -1)
    ensures var c := b.contents;
            && (0 <= index < |c.chapters| && !HeadingOnly(c, index) ==> Readable(c, index, 1) == Some(index))
            && (Readable(c, index, 1).Some? ==> Readable(c, index, 1).value >= index)
            && (Readable(c, index, -1).Some? ==> Readable(c, index, -1).value <= index)
  {
    hide HeadingOnly;
  }

  lemma {:induction false} CacheFacts(r: Reader)
    requires r.CacheValid()
    ensures GoodBook(r.book)
  {
  }

  // Remembering a section's counts keeps the cache right.
  lemma {:induction false} CacheSet(r: Reader, k: nat)
    requires GoodBook(r.book) && k < |r.book.contents.chapters|
    requires r.pagination == Some(Counted(r.book.contents.chapters[k], IndexOf(Layout(r.book, r.face, k))))
    ensures r.CacheValid()
  {
    hide Canonical, IndexOf, GoodBook;
  }

  lemma {:induction false} NowReading(r: Reader)
    requires var b := r.book;
             && r.CacheValid() && 0 <= r.chapterIndex < |b.contents.chapters| && WellFormed(b.contents)
             && !HeadingOnly(b.contents, r.chapterIndex)
             && Loaded(Layout(b, r.face, r.chapterIndex), r.window, r.first, r.pages, r.windowEnd)
             && 0 <= r.pageIndex < |r.pages|
    ensures r.Reading()
    ensures r.window < |Layout(r.book, r.face, r.chapterIndex)|
    ensures r.Shows() == Position(r.chapterIndex, PagesBefore(Layout(r.book, r.face, r.chapterIndex), r.window) + r.first + r.pageIndex)
  {
    LoadedFacts(Layout(r.book, r.face, r.chapterIndex), r.window, r.first, r.pages, r.windowEnd);
    hide Layout, GoodBook, HeadingOnly, Loaded, WellFormed;
  }

  lemma {:induction false} UsableFacts(index: PageIndex)
    requires Usable(index)
    ensures Nondecreasing(index.starts) && index.starts != []
  {
  }

  lemma {:induction false} PageAtIs(starts: seq<int>, offset: int)
    ensures PageAt(starts, offset) == if CountUpTo(starts, offset) == 0 then 0 else CountUpTo(starts, offset) - 1
  {
  }

  // Everything Reading says, and that the shown page exists.
  lemma {:induction false} ReadingFacts(r: Reader)
    requires r.Reading()
    ensures var ws := Layout(r.book, r.face, r.chapterIndex);
            && r.CacheValid() && GoodBook(r.book) && WellFormed(r.book.contents)
            && 0 <= r.chapterIndex < |r.book.contents.chapters|
            && !HeadingOnly(r.book.contents, r.chapterIndex)
            && Loaded(ws, r.window, r.first, r.pages, r.windowEnd) && 0 <= r.pageIndex < |r.pages|
            && r.Shows() == Position(r.chapterIndex, PagesBefore(ws, r.window) + r.first + r.pageIndex)
            && PageAt(IndexOf(ws).starts, r.pages[r.pageIndex].start) == r.Shows().page
    ensures Exists(r.book, r.face, r.Shows())
  {
    var b := r.book;
    var ws := Layout(b, r.face, r.chapterIndex);
    assert IndexOf(ws).starts == PageStarts(AllPages(ws));
    hide Layout, Loaded, HeadingOnly, PageAt, AllPages, PageStarts, PagesBefore, Records, WellFormed, PagesOfSection,
         IndexOf;
    BookmarkPage(b, r.face, r.chapterIndex, r.window, r.first, r.pages, r.windowEnd, r.pageIndex);
    BookWellFormed(b);
    PageExists(b, r.face, r.chapterIndex, PagesBefore(ws, r.window) + r.first + r.pageIndex);
  }

  lemma {:induction false} ShowsPosition(r: Reader)
    ensures r.Reading() ==> r.Shows().section == r.chapterIndex
  {
  }

  // ---- Where the next page is ----

  // Within the window.
  lemma {:induction false} NextInWindow(r: Reader)
    requires r.Reading() && r.pageIndex + 1 < |r.pages|
    ensures var p := r.Shows();
            Exists(r.book, r.face, p) && Next(r.book, r.face, p) == Position(p.section, p.page + 1)
  {
    hide *;
    ReadingFacts(r);
    BookmarkPage(r.book, r.face, r.chapterIndex, r.window, r.first, r.pages, r.windowEnd, r.pageIndex + 1);
    Steps(r.book, r.face, r.Shows());
  }

  // The start of a canonical page of a section with several pages opens that page.
  lemma {:induction false} PageStartOpens(b: Book, face: Face, k: nat, p: nat)
    requires GoodBook(b) && k < |b.contents.chapters| && p < PagesOfSection(b, face, k)
    requires PagesOfSection(b, face, k) > 1
    ensures var index := IndexOf(Layout(b, face, k));
            && |index.starts| == PagesOfSection(b, face, k)
            && ValidPosition(b.contents, k, index.starts[p]) && Boundary(b.doc.bytes, index.starts[p])
            && !HeadingTooLong(b.doc, b.contents.chapters[k], face, index.starts[p])
            && PageAt(index.starts, index.starts[p]) == p
  {
    hide *;
    var ws := Layout(b, face, k);
    var chapter := b.contents.chapters[k];
    var ls := SectionLaidOut(b, face, k);
    var w, j := ReadPage(b, face, k, p);
    ChapterGood(b, k);
    ChapterRange(b, k);
    ManyPages(b, face, k, ls);
    PageRange(b.doc, chapter, face, ws, ls, w, j);
    ReadAtPageStart(b.doc, chapter, face, ws, ls, w, j);
    PositionFacts(b.contents, k, ws[w].window.pages[j].start);
    var w2, j2 := RestoredIsLoaded(b, face, k, ws[w].window.pages[j].start);
  }

  lemma {:induction false} ManyPages(b: Book, face: Face, k: nat, ls: seq<seq<Line>>)
    requires GoodBook(b) && k < |b.contents.chapters| && PagesOfSection(b, face, k) > 1
    requires WindowsTile(Layout(b, face, k), b.contents.chapters[k].start, b.contents.chapters[k].end)
    requires GoodWindows(b.doc, b.contents.chapters[k], face, Layout(b, face, k), ls)
    ensures b.contents.chapters[k].start < b.contents.chapters[k].end
  {
    hide *;
    var ws := Layout(b, face, k);
    ChapterGood(b, k);
    PagesCounted(b, face, k);
    if b.contents.chapters[k].start == b.contents.chapters[k].end {
      EmptyChapter(b.doc, b.contents.chapters[k], face, ws, ls);
      OneWindowOnePage(ws);
    }
  }

  lemma {:induction false} OneWindowOnePage(ws: seq<Canon>)
    requires |ws| == 1 && |ws[0].window.pages| == 1
    ensures |AllPages(ws)| == 1
  {
    assert AllPages(ws) == ws[0].window.pages + AllPages([]) == ws[0].window.pages;
  }

  lemma {:induction false} PageRange(doc: Document, chapter: Chapter, face: Face, ws: seq<Canon>, ls: seq<seq<Line>>,
                                     w: nat, j: nat)
    requires GoodChapter(doc, chapter) && chapter.start < chapter.end
    requires WindowsTile(ws, chapter.start, chapter.end) && GoodWindows(doc, chapter, face, ws, ls)
    requires w < |ws| && j < |ws[w].window.pages|
    ensures chapter.start <= ws[w].window.pages[j].start < chapter.end
    ensures Boundary(doc.bytes, ws[w].window.pages[j].start)
  {
    assert Valid(doc.bytes) && 0 <= chapter.start;
    assert GoodWindow(doc, chapter, face, ws[w], ls[w]);
    hide *;
    WindowsNonempty(doc, chapter, face, ws, ls, chapter.start, w);
    WindowRange(doc, chapter, face, ws[w], ls[w]);
    WindowPages(doc, chapter, face, ws[w], ls[w]);
    PagesGrow(ws[w].window.pages, ShownFrom(ws[w]), ws[w].window.end);
    PageStartBoundary(doc, chapter, face, ws[w], ls[w], j);
  }

  // At the end of the window the next window starts the next page.
  lemma {:induction false} WindowFollows(r: Reader)
    requires r.Reading() && r.pageIndex + 1 == |r.pages|
    requires r.windowEnd < r.book.contents.chapters[r.chapterIndex].end
    ensures var p := r.Shows();
            var index := IndexOf(Layout(r.book, r.face, r.chapterIndex));
            && Exists(r.book, r.face, p) && Next(r.book, r.face, p) == Position(p.section, p.page + 1)
            && ValidPosition(r.book.contents, p.section, r.windowEnd) && Boundary(r.book.doc.bytes, r.windowEnd)
            && !HeadingTooLong(r.book.doc, r.book.contents.chapters[p.section], r.face, r.windowEnd)
            && PageAt(index.starts, r.windowEnd) == p.page + 1
  {
    hide *;
    ReadingFacts(r);
    var b, k := r.book, r.chapterIndex;
    var ws := Layout(b, r.face, k);
    var chapter := b.contents.chapters[k];
    var ls := SectionLaidOut(b, r.face, k);
    LoadedFacts(ws, r.window, r.first, r.pages, r.windowEnd);
    WindowAfter(ws, chapter.start, chapter.end, r.window);
    NextWindowPage(b.doc, chapter, r.face, ws, ls, r.window + 1);
    PagesThrough(ws, r.window);
    PageOfWindow(ws, r.window + 1, 0);
    PagesCounted(b, r.face, k);
    StartsAre(ws);
    PageStartOpens(b, r.face, k, PagesBefore(ws, r.window + 1));
    Steps(b, r.face, r.Shows());
  }

  lemma {:induction false} StartsAre(ws: seq<Canon>)
    ensures |IndexOf(ws).starts| == |AllPages(ws)|
    ensures forall p :: 0 <= p < |AllPages(ws)| ==> IndexOf(ws).starts[p] == AllPages(ws)[p].start
  {
    hide AllPages, PageStarts, Records;
  }

  lemma {:induction false} LoadedFacts(ws: seq<Canon>, w: nat, j: nat, pages: seq<Page>, end: int)
    requires Loaded(ws, w, j, pages, end)
    ensures w < |ws| && |pages| == |ws[w].window.pages| - j && end == ws[w].window.end && pages != []
  {
  }

  lemma {:induction false} NextWindowPage(doc: Document, chapter: Chapter, face: Face, ws: seq<Canon>,
                                          ls: seq<seq<Line>>, w: nat)
    requires GoodWindows(doc, chapter, face, ws, ls) && w < |ws| && chapter.start < ws[w].start
    ensures ws[w].window.pages != [] && ws[w].window.pages[0].start == ws[w].start
  {
    hide GoodWindow;
    WindowPages(doc, chapter, face, ws[w], ls[w]);
  }

  // At the end of the last window the section is over.
  lemma {:induction false} SectionOver(r: Reader)
    requires r.Reading() && r.pageIndex + 1 == |r.pages|
    requires r.windowEnd >= r.book.contents.chapters[r.chapterIndex].end
    ensures var p := r.Shows();
            var next := Readable(r.book.contents, p.section + 1, 1);
            && Exists(r.book, r.face, p)
            && Next(r.book, r.face, p) == if next.Some? then Position(next.value, 0) else p
  {
    hide *;
    ReadingFacts(r);
    var b, k := r.book, r.chapterIndex;
    var ws := Layout(b, r.face, k);
    var chapter := b.contents.chapters[k];
    var ls := SectionLaidOut(b, r.face, k);
    LoadedFacts(ws, r.window, r.first, r.pages, r.windowEnd);
    WindowAfter(ws, chapter.start, chapter.end, r.window);
    PagesThrough(ws, r.window);
    PagesCounted(b, r.face, k);
    Steps(b, r.face, r.Shows());
  }

  // A section's own start opens its first page.
  lemma {:induction false} SectionStart(b: Book, face: Face, k: nat)
    requires GoodBook(b) && k < |b.contents.chapters|
    ensures var chapter := b.contents.chapters[k];
            && Boundary(b.doc.bytes, chapter.start) && !HeadingTooLong(b.doc, chapter, face, chapter.start)
            && PageAt(IndexOf(Layout(b, face, k)).starts, chapter.start) == 0
  {
    var chapter := b.contents.chapters[k];
    assert !HeadingTooLong(b.doc, chapter, face, chapter.start);
    hide *;
    ChapterRange(b, k);
    ChapterGood(b, k);
    var ls := SectionLaidOut(b, face, k);
    var ws := Layout(b, face, k);
    FirstWindow(ws, chapter.start, chapter.end);
    if chapter.start < chapter.end {
      FirstPageHeld(b.doc, chapter, face, ws, ls);
      Found(b.doc, chapter, face, ws, ls, 0, 0, chapter.start);
    } else {
      EmptyChapter(b.doc, chapter, face, ws, ls);
      EmptyStart(b.doc, chapter, face, ws, ls);
    }
  }

  lemma {:induction false} FirstPageHeld(doc: Document, chapter: Chapter, face: Face, ws: seq<Canon>,
                                         ls: seq<seq<Line>>)
    requires chapter.start < chapter.end
    requires WindowsTile(ws, chapter.start, chapter.end) && GoodWindows(doc, chapter, face, ws, ls)
    ensures Holds(ws, 0, 0, chapter.start)
  {
    hide GoodWindow;
    WindowPages(doc, chapter, face, ws[0], ls[0]);
    PagesGrow(ws[0].window.pages, ShownFrom(ws[0]), ws[0].window.end);
  }
}

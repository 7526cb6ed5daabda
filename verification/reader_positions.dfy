/**
  The simple picture behind page turning: a book is the list of its readable
  sections, each with a number of canonical pages, and a reader is on one page
  of one of them.
 */
module ReaderPositions {
  import opened Utf8
  import opened Pager
  import opened PageTiling
  import opened SortSearch
  import opened ChapterPages
  import opened CanonicalPages
  import opened ReadWindowProof
  import opened Options
  import opened Directory

  datatype Book = Book(doc: Document, contents: Contents)

  datatype Position = Position(section: int, page: int)

  predicate GoodBook(b: Book) {
    && WellFormed(b.contents)
    && forall k {:trigger b.contents.chapters[k]} :: 0 <= k < |b.contents.chapters| ==>
         GoodChapter(b.doc, b.contents.chapters[k])
  }

  // The canonical windows of section k.
  ghost function Layout(b: Book, face: Face, k: nat): seq<Canon>
    requires k < |b.contents.chapters|
  {
    var all := Canonical(b.doc, b.contents.chapters[k], face, b.contents.chapters[k].start);
    if all.Ok? then all.value else []
  }

  ghost function PagesOfSection(b: Book, face: Face, k: nat): nat
    requires k < |b.contents.chapters|
  {
    |AllPages(Layout(b, face, k))|
  }

  // A position that exists.
  ghost predicate Exists(b: Book, face: Face, p: Position)
    requires GoodBook(b)
  {
    && 0 <= p.section < |b.contents.chapters| && !HeadingOnly(b.contents, p.section)
    && 0 <= p.page < PagesOfSection(b, face, p.section)
  }

  // One page on: the next page of the section, else the first page of the next readable section.
  ghost function Next(b: Book, face: Face, p: Position): Position
    requires GoodBook(b) && Exists(b, face, p)
  {
    if p.page + 1 < PagesOfSection(b, face, p.section) then p.(page := p.page + 1)
    else
      var next := Readable(b.contents, p.section + 1, 1);
      if next.Some? then Position(next.value, 0) else p
  }

  // One page back: the page before, else the last page of the readable section before.
  ghost function Previous(b: Book, face: Face, p: Position): Position
    requires GoodBook(b) && Exists(b, face, p)
  {
    if p.page > 0 then p.(page := p.page - 1)
    else
      var previous := Readable(b.contents, p.section - 1, -1);
      if previous.Some? then Position(previous.value, PagesOfSection(b, face, previous.value) - 1) else p
  }

  // Every section of a valid book is laid out, with at least one page.
  lemma {:induction false} SectionLaidOut(b: Book, face: Face, k: nat) returns (ls: seq<seq<Line>>)
    requires GoodBook(b) && k < |b.contents.chapters|
    ensures var chapter := b.contents.chapters[k];
            var ws := Layout(b, face, k);
            && Canonical(b.doc, chapter, face, chapter.start) == Ok(ws)
            && WindowsTile(ws, chapter.start, chapter.end) && GoodWindows(b.doc, chapter, face, ws, ls)
            && Usable(IndexOf(ws)) && |IndexOf(ws).starts| == PagesOfSection(b, face, k) > 0
            && (forall i :: 0 <= i < |ws| ==> ws[i].window.pages != [])
  {
    hide Canonical, Valid, GoodWindows, WindowsTile, Usable, AllPages;
    var chapter := b.contents.chapters[k];
    assert GoodChapter(b.doc, chapter);
    var ws;
    ws, ls := CountingTiles(b.doc, chapter, face, chapter.start);
    IndexUsable(b.doc, chapter, face, ws, ls);
    FirstWindow(ws, chapter.start, chapter.end);
    PageOfWindow(ws, 0, 0);
  }

  lemma {:induction false} SectionHasPages(b: Book, face: Face, k: nat)
    requires GoodBook(b) && k < |b.contents.chapters|
    ensures PagesOfSection(b, face, k) > 0
  {
    hide *;
    var ls := SectionLaidOut(b, face, k);
  }

  // The next readable section after k has k as the readable section before it.
  lemma {:induction false} ReadableNeighbours(c: Contents, k: int, m: int)
    requires WellFormed(c) && 0 <= k < |c.chapters| && !HeadingOnly(c, k)
    ensures Readable(c, k + 1, 1) == Some(m) ==> k < m && Readable(c, m - 1, -1) == Some(k)
    ensures Readable(c, k - 1, -1) == Some(m) ==> m < k && Readable(c, m + 1, 1) == Some(k)
  {
    if Readable(c, k + 1, 1) == Some(m) {
      forall i | k < i < m ensures HeadingOnly(c, i) {
        if !HeadingOnly(c, i) { ReadableIsFirst(c, k + 1, 1, i); }
      }
      BackTo(c, k, m - 1, -1);
    }
    if Readable(c, k - 1, -1) == Some(m) {
      forall i | m < i < k ensures HeadingOnly(c, i) {
        if !HeadingOnly(c, i) { ReadableIsFirst(c, k - 1, -1, i); }
      }
      BackTo(c, k, m + 1, 1);
    }
  }

  lemma {:induction false} BackTo(c: Contents, k: int, from: int, direction: int)
    requires WellFormed(c) && 0 <= k < |c.chapters| && !HeadingOnly(c, k)
    requires direction == 1 || direction == -1
    requires if direction == 1 then 0 <= from <= k else k <= from < |c.chapters|
    requires forall i :: 0 <= i < |c.chapters| && (from <= i < k || k < i <= from) ==> HeadingOnly(c, i)
    ensures Readable(c, from, direction) == Some(k)
    decreases if direction == 1 then k - from else from - k
  {
    if from != k {
      BackTo(c, k, from + direction, direction);
    }
  }

  // Turning a page and turning it back returns to the same canonical page, in both directions.
  lemma {:induction false} NextThenPrevious(b: Book, face: Face, p: Position)
    requires GoodBook(b) && Exists(b, face, p)
    ensures Exists(b, face, Next(b, face, p)) && Exists(b, face, Previous(b, face, p))
    ensures Next(b, face, p) != p ==> Previous(b, face, Next(b, face, p)) == p
    ensures Previous(b, face, p) != p ==> Next(b, face, Previous(b, face, p)) == p
  {
    hide *;
    ThereAndBack(b, face, p);
    BackAndThere(b, face, p);
  }

  // The cases of both steps.
  lemma {:induction false} Steps(b: Book, face: Face, p: Position)
    requires GoodBook(b) && Exists(b, face, p)
    ensures var n := PagesOfSection(b, face, p.section);
            var next := Readable(b.contents, p.section + 1, 1);
            Next(b, face, p) == if p.page + 1 < n then Position(p.section, p.page + 1)
                                else if next.Some? then Position(next.value, 0) else p
    ensures var previous := Readable(b.contents, p.section - 1, -1);
            Previous(b, face, p) ==
            if p.page > 0 then Position(p.section, p.page - 1)
            else if previous.Some? then Position(previous.value, PagesOfSection(b, face, previous.value) - 1) else p
    ensures 0 <= p.section < |b.contents.chapters| && 0 <= p.page < PagesOfSection(b, face, p.section)
    ensures !HeadingOnly(b.contents, p.section)
  {
    hide PagesOfSection, Readable, HeadingOnly;
  }

  lemma {:induction false} PageExists(b: Book, face: Face, k: int, page: int)
    requires GoodBook(b) && 0 <= k < |b.contents.chapters| && !HeadingOnly(b.contents, k)
    requires 0 <= page < PagesOfSection(b, face, k)
    ensures Exists(b, face, Position(k, page))
  {
    hide PagesOfSection, HeadingOnly;
  }

  lemma {:induction false} ThereAndBack(b: Book, face: Face, p: Position)
    requires GoodBook(b) && Exists(b, face, p)
    ensures Exists(b, face, Next(b, face, p))
    ensures Next(b, face, p) != p ==> Previous(b, face, Next(b, face, p)) == p
  {
    hide *;
    BookWellFormed(b);
    Steps(b, face, p);
    var next := Readable(b.contents, p.section + 1, 1);
    if p.page + 1 < PagesOfSection(b, face, p.section) {
      PageExists(b, face, p.section, p.page + 1);
      Steps(b, face, Position(p.section, p.page + 1));
    } else if next.Some? {
      SectionHasPages(b, face, next.value);
      PageExists(b, face, next.value, 0);
      Steps(b, face, Position(next.value, 0));
      ReadableNeighbours(b.contents, p.section, next.value);
    }
  }

  lemma {:induction false} BackAndThere(b: Book, face: Face, p: Position)
    requires GoodBook(b) && Exists(b, face, p)
    ensures Exists(b, face, Previous(b, face, p))
    ensures Previous(b, face, p) != p ==> Next(b, face, Previous(b, face, p)) == p
  {
    hide *;
    BookWellFormed(b);
    Steps(b, face, p);
    var previous := Readable(b.contents, p.section - 1, -1);
    if p.page > 0 {
      PageExists(b, face, p.section, p.page - 1);
      Steps(b, face, Position(p.section, p.page - 1));
    } else if previous.Some? {
      SectionHasPages(b, face, previous.value);
      PageExists(b, face, previous.value, PagesOfSection(b, face, previous.value) - 1);
      Steps(b, face, Position(previous.value, PagesOfSection(b, face, previous.value) - 1));
      ReadableNeighbours(b.contents, p.section, previous.value);
    }
  }

  // ---- The order of the pages ----

  predicate Earlier(p: Position, q: Position) {
    p.section < q.section || (p.section == q.section && p.page < q.page)
  }

  // The next page is the first one after this one in the book, the previous page the last one before it.
  lemma {:induction false} NeighboursInBook(b: Book, face: Face, p: Position, q: Position)
    requires GoodBook(b) && Exists(b, face, p) && Exists(b, face, q)
    ensures Earlier(p, q) ==> Earlier(p, Next(b, face, p)) && !Earlier(q, Next(b, face, p))
    ensures Earlier(q, p) ==> Earlier(Previous(b, face, p), p) && !Earlier(Previous(b, face, p), q)
    ensures Next(b, face, p) == p || Earlier(p, Next(b, face, p))
    ensures Previous(b, face, p) == p || Earlier(Previous(b, face, p), p)
  {
    hide *;
    BookWellFormed(b);
    Steps(b, face, p);
    Steps(b, face, q);
    OrderIs(p, q);
    OrderIs(p, Next(b, face, p));
    OrderIs(q, Next(b, face, p));
    OrderIs(Previous(b, face, p), p);
    OrderIs(Previous(b, face, p), q);
    OrderIs(q, p);
    if q.section > p.section {
      ReadableIsFirst(b.contents, p.section + 1, 1, q.section);
    }
    if q.section < p.section {
      ReadableIsFirst(b.contents, p.section - 1, -1, q.section);
    }
    if Readable(b.contents, p.section - 1, -1).Some? {
      SectionHasPages(b, face, Readable(b.contents, p.section - 1, -1).value);
    }
  }

  lemma {:induction false} OrderIs(p: Position, q: Position)
    ensures Earlier(p, q) <==> p.section < q.section || (p.section == q.section && p.page < q.page)
  {
  }

  lemma {:induction false} ChapterGood(b: Book, k: nat)
    requires GoodBook(b) && k < |b.contents.chapters|
    ensures GoodChapter(b.doc, b.contents.chapters[k])
    ensures 0 <= b.contents.chapters[k].start <= b.contents.chapters[k].end
  {
  }

  lemma {:induction false} BookWellFormed(b: Book)
    requires GoodBook(b)
    ensures WellFormed(b.contents)
  {
  }

  // ---- Reading at canonical page starts ----

  // Looking up the start of page j of window i never fails and gives that window from that page on.
  lemma {:induction false} ReadAtPageStart(doc: Document, chapter: Chapter, face: Face, ws: seq<Canon>,
                                           ls: seq<seq<Line>>, i: nat, j: nat)
    requires GoodChapter(doc, chapter)
    requires WindowsTile(ws, chapter.start, chapter.end) && GoodWindows(doc, chapter, face, ws, ls)
    requires i < |ws| && j < |ws[i].window.pages|
    ensures Usable(IndexOf(ws))
    ensures ReadWindow(doc, chapter, face, IndexOf(ws), ws[i].window.pages[j].start) ==
            Ok(Window(ws[i].window.pages[j..], ws[i].window.end))
    ensures PageAt(IndexOf(ws).starts, ws[i].window.pages[j].start) == PagesBefore(ws, i) + j
  {
    var offset := ws[i].window.pages[j].start;
    if chapter.start < chapter.end {
      PageStartHeld(doc, chapter, face, ws, ls, i, j);
      hide *;
      Found(doc, chapter, face, ws, ls, i, j, offset);
      LookUp(doc, chapter, face, ws, ls, i, j, offset);
      FromPageIs(doc, chapter.(end := ws[i].window.end), face, ws[i].window, j, offset);
    } else {
      hide *;
      EmptyChapter(doc, chapter, face, ws, ls);
    }
  }

  lemma {:induction false} PageStartHeld(doc: Document, chapter: Chapter, face: Face, ws: seq<Canon>,
                                         ls: seq<seq<Line>>, i: nat, j: nat)
    requires chapter.start < chapter.end
    requires WindowsTile(ws, chapter.start, chapter.end) && GoodWindows(doc, chapter, face, ws, ls)
    requires i < |ws| && j < |ws[i].window.pages|
    ensures Holds(ws, i, j, ws[i].window.pages[j].start)
  {
    hide GoodWindow;
    var c := ws[i];
    WindowPages(doc, chapter, face, c, ls[i]);
    WindowsNonempty(doc, chapter, face, ws, ls, chapter.start, i);
    PagesGrow(c.window.pages, ShownFrom(c), c.window.end);
  }

  lemma {:induction false} WindowsNonempty(doc: Document, chapter: Chapter, face: Face, ws: seq<Canon>,
                                           ls: seq<seq<Line>>, a: int, i: nat)
    requires chapter.start < chapter.end && a < chapter.end
    requires WindowsTile(ws, a, chapter.end) && i < |ws|
    ensures a <= ws[i].start < ws[i].window.end
    ensures i > 0 ==> ws[0].window.end <= ws[i].start
    decreases |ws|
  {
    if i > 0 {
      WindowsNonempty(doc, chapter, face, ws[1..], ls, ws[0].window.end, i - 1);
    }
  }

  // An empty section is one empty page.
  lemma {:induction false} EmptyChapter(doc: Document, chapter: Chapter, face: Face, ws: seq<Canon>,
                                        ls: seq<seq<Line>>)
    requires GoodChapter(doc, chapter) && chapter.start == chapter.end
    requires WindowsTile(ws, chapter.start, chapter.end) && GoodWindows(doc, chapter, face, ws, ls)
    ensures |ws| == 1 && |ws[0].window.pages| == 1 && Usable(IndexOf(ws))
    ensures PageAt(IndexOf(ws).starts, ws[0].window.pages[0].start) == PagesBefore(ws, 0) + 0
    ensures ReadWindow(doc, chapter, face, IndexOf(ws), ws[0].window.pages[0].start) ==
            Ok(Window(ws[0].window.pages[0..], ws[0].window.end))
  {
    var c := ws[0];
    var s := chapter.start;
    IndexUsable(doc, chapter, face, ws, ls);
    WindowPages(doc, chapter, face, c, ls[0]);
    var again, lines := OneWindow(doc, chapter, face, s);
    EmptyWindow(doc, chapter, face, c, ls[0], again, lines);
    hide GoodWindow, GoodWindows, PaginateAt, FirstPages, Records, PageStarts, GoodChapter;
    assert AllPages(ws) == c.window.pages + AllPages([]) == c.window.pages;
    var index := IndexOf(ws);
    RecordAt(ws, 0, 0);
    CountIs(index.starts, s, 1);
    CountIs(FirstPages(index.windows), 0, 1);
    assert chapter.(end := c.window.end) == chapter;
    assert c.window.pages[0..] == c.window.pages;
  }

  lemma {:induction false} EmptyWindow(doc: Document, chapter: Chapter, face: Face, c: Canon, lines: seq<Line>,
                                       d: Canon, more: seq<Line>)
    requires chapter.start == chapter.end == c.start == c.window.end == d.start
    requires GoodWindow(doc, chapter, face, c, lines) && GoodWindow(doc, chapter, face, d, more)
    ensures c.window == d.window
  {
    hide Lines, Valid, HeadingLen, LoadWindow, PagesOf, Tiles;
  }
}

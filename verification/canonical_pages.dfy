/**
  The canonical pages of a chapter and what readWindow gives back of them:
  windows tile the chapter, pages tile what is shown of it, and a window read
  again from any rune boundary is the canonical one with its first page
  shortened, in every case but one that is pinned down exactly.
 */
module CanonicalPages {
  import opened Utf8
  import opened Pager
  import opened PageTiling
  import opened WindowLoading
  import opened SortSearch
  import opened ChapterPages

  // A chapter of a valid UTF-8 file, cut at rune boundaries.
  predicate GoodChapter(doc: Document, chapter: Chapter) {
    && Valid(doc.bytes) && 0 <= chapter.start <= chapter.end
    && Boundary(doc.bytes, chapter.start) && Boundary(doc.bytes, chapter.end)
  }

  // Lines of a window's own bytes.
  function WindowLines(doc: Document, chapter: Chapter, face: Face, start: nat, end: nat): Result<seq<Line>>
    requires start <= end <= |doc.bytes|
  {
    Lines(doc, chapter.start, face, TEXT_WIDTH, doc.bytes[start..end], start)
  }

  // Everything the later proofs use about one window.
  ghost predicate GoodWindow(doc: Document, chapter: Chapter, face: Face, c: Canon, lines: seq<Line>) {
    && chapter.start <= c.start <= c.window.end <= chapter.end <= |doc.bytes|
    && 0 <= c.start && c.window.end - c.start <= MAX_CHAPTER_WINDOW
    && (c.start == c.window.end ==> chapter.start == chapter.end)
    && Boundary(doc.bytes, c.start) && Boundary(doc.bytes, c.window.end)
    && LoadWindow(doc.bytes, c.start, chapter.end) == (doc.bytes[c.start..c.window.end], c.window.end)
    && WindowLines(doc, chapter, face, c.start, c.window.end) == Ok(lines)
    && Tiles(lines, c.start + HeadingLen(doc, chapter.start, doc.bytes[c.start..c.window.end], c.start),
             c.window.end)
    && c.window.pages == (if lines == [] then [Page([], c.start, c.window.end)]
                          else PagesOf(lines, PerPage(face, BODY_HEIGHT)))
  }

  lemma {:induction false} OneWindow(doc: Document, chapter: Chapter, face: Face, start: nat)
    returns (c: Canon, lines: seq<Line>)
    requires GoodChapter(doc, chapter) && chapter.start <= start <= chapter.end && Boundary(doc.bytes, start)
    requires start == chapter.end ==> start == chapter.start
    ensures PaginateAt(doc, chapter, start, face) == Ok(c.window) && c.start == start
    ensures GoodWindow(doc, chapter, face, c, lines)
    ensures start < chapter.end ==> start < c.window.end
  {
    hide Valid, Lines, LoadWindow, HeadingLen, Tiles, PagesOf;
    WindowIsValid(doc.bytes, start, chapter.end);
    var (raw, end) := LoadWindow(doc.bytes, start, chapter.end);
    LinesTile(doc, chapter.start, face, TEXT_WIDTH, raw, start);
    lines := Lines(doc, chapter.start, face, TEXT_WIDTH, raw, start).value;
    PageCount(lines, PerPage(face, BODY_HEIGHT));
    c := Canon(start, PaginateAt(doc, chapter, start, face).value);
  }

  // ---- The windows of a chapter ----

  // A witness list: the lines of every window.
  ghost predicate GoodWindows(doc: Document, chapter: Chapter, face: Face, ws: seq<Canon>, ls: seq<seq<Line>>) {
    |ls| == |ws| && forall i :: 0 <= i < |ws| ==> GoodWindow(doc, chapter, face, ws[i], ls[i])
  }

  // Windows follow one another from a to b; only an empty chapter has an empty one.
  predicate WindowsTile(ws: seq<Canon>, a: int, b: int) {
    ws != [] && ws[0].start == a &&
    if |ws| == 1 then ws[0].window.end == b && a <= b
    else a < ws[0].window.end < b && WindowsTile(ws[1..], ws[0].window.end, b)
  }

  // Counting never fails on valid text, stops, and its windows tile the chapter exactly.
  lemma {:induction false} CountingTiles(doc: Document, chapter: Chapter, face: Face, start: nat)
    returns (ws: seq<Canon>, ls: seq<seq<Line>>)
    requires GoodChapter(doc, chapter) && chapter.start <= start <= chapter.end && Boundary(doc.bytes, start)
    requires start == chapter.end ==> start == chapter.start
    ensures Canonical(doc, chapter, face, start) == Ok(ws)
    ensures WindowsTile(ws, start, chapter.end) && GoodWindows(doc, chapter, face, ws, ls)
    decreases chapter.end - start
  {
    hide PaginateAt, GoodWindow;
    var c, lines := OneWindow(doc, chapter, face, start);
    WindowRange(doc, chapter, face, c, lines);
    if c.window.end >= chapter.end {
      ws, ls := [c], [lines];
    } else {
      var moreWs, moreLs := CountingTiles(doc, chapter, face, c.window.end);
      ws, ls := [c] + moreWs, [lines] + moreLs;
    }
  }

  lemma {:induction false} WindowRange(doc: Document, chapter: Chapter, face: Face, c: Canon, lines: seq<Line>)
    requires GoodWindow(doc, chapter, face, c, lines)
    ensures 0 <= c.start <= c.window.end <= chapter.end && Boundary(doc.bytes, c.window.end)
  {
  }

  // ---- Pages of the windows ----

  // Where the text of a window begins on its first page: after the heading, unless there is only the heading.
  function ShownFrom(c: Canon): int
    requires c.window.pages != []
  {
    c.window.pages[0].start
  }

  lemma {:induction false} WindowPages(doc: Document, chapter: Chapter, face: Face, c: Canon, lines: seq<Line>)
    requires GoodWindow(doc, chapter, face, c, lines)
    ensures c.window.pages != []
    ensures c.start < c.window.end ==> PagesTile(c.window.pages, ShownFrom(c), c.window.end)
    ensures c.start <= ShownFrom(c)
    ensures c.start != chapter.start ==> ShownFrom(c) == c.start
    ensures lines == [] || c.start == c.window.end ==> c.window.pages == [Page([], c.start, c.window.end)]
  {
    hide Lines, Valid, DecodeBytes;
    var heading := HeadingLen(doc, chapter.start, doc.bytes[c.start..c.window.end], c.start);
    PageCount(lines, PerPage(face, BODY_HEIGHT));
    if lines == [] {
      assert PagesTile(c.window.pages[1..], c.window.end, c.window.end);
    } else {
      PagesOfTile(lines, PerPage(face, BODY_HEIGHT), c.start + heading, c.window.end);
      TilesGrow(lines, c.start + heading, c.window.end);
    }
  }

  lemma {:induction false} PagesTileConcat(s: seq<Page>, t: seq<Page>, a: int, b: int, c: int)
    requires PagesTile(s, a, b) && PagesTile(t, b, c)
    ensures PagesTile(s + t, a, c)
  {
    if s == [] {
      assert s + t == t;
    } else {
      PagesTileConcat(s[1..], t, s[0].end, b, c);
      assert (s + t)[1..] == s[1..] + t;
    }
  }

  // All pages of a nonempty chapter tile it, from the first shown byte to its end.
  lemma {:induction false} PagesTileChapter(doc: Document, chapter: Chapter, face: Face, ws: seq<Canon>,
                                            ls: seq<seq<Line>>, start: int)
    requires chapter.start < chapter.end && chapter.start <= start
    requires WindowsTile(ws, start, chapter.end) && GoodWindows(doc, chapter, face, ws, ls)
    ensures ws[0].window.pages != [] && start <= ShownFrom(ws[0])
    ensures PagesTile(AllPages(ws), ShownFrom(ws[0]), chapter.end)
    decreases |ws|
  {
    hide Valid, HeadingLen, PagesOf;
    WindowPages(doc, chapter, face, ws[0], ls[0]);
    var c := ws[0];
    if |ws| == 1 {
      assert AllPages(ws) == c.window.pages + AllPages([]) == c.window.pages;
    } else {
      PagesTileChapter(doc, chapter, face, ws[1..], ls[1..], c.window.end);
      WindowPages(doc, chapter, face, ws[1], ls[1]);
      PagesTileConcat(c.window.pages, AllPages(ws[1..]), ShownFrom(c), c.window.end, chapter.end);
    }
  }

  // ---- Looking up ----

  lemma {:induction false} PagesGrow(pages: seq<Page>, a: int, b: int)
    requires PagesTile(pages, a, b)
    ensures a <= b
    ensures forall i :: 0 <= i < |pages| ==> a <= pages[i].start < pages[i].end <= b
    ensures forall i, j :: 0 <= i < j < |pages| ==> pages[i].end <= pages[j].start
    ensures pages != [] ==> pages[0].start == a && pages[|pages| - 1].end == b
    ensures forall i :: 0 < i < |pages| ==> pages[i].start == pages[i - 1].end
  {
    if pages != [] {
      PagesGrow(pages[1..], pages[0].end, b);
    }
  }

  // A position inside page k is found on page k; one before the first page belongs to page 0.
  lemma {:induction false} PageAtFinds(pages: seq<Page>, a: int, b: int, k: nat, offset: int)
    requires PagesTile(pages, a, b) && k < |pages|
    requires pages[k].start <= offset < pages[k].end || (k == 0 && offset < pages[0].start)
    ensures Nondecreasing(PageStarts(pages)) && PageAt(PageStarts(pages), offset) == k
  {
    hide PageStarts, CountUpTo;
    PagesGrow(pages, a, b);
    CountIs(PageStarts(pages), offset, if offset < pages[0].start then 0 else k + 1);
  }

  // Number of pages in the windows before window i.
  function PagesBefore(ws: seq<Canon>, i: nat): (n: nat)
    requires i <= |ws|
  {
    if i == 0 then 0 else |ws[0].window.pages| + PagesBefore(ws[1..], i - 1)
  }

  lemma {:induction false} PageOfWindow(ws: seq<Canon>, i: nat, j: nat)
    requires i < |ws| && j < |ws[i].window.pages|
    ensures PagesBefore(ws, i) + j < |AllPages(ws)|
    ensures AllPages(ws)[PagesBefore(ws, i) + j] == ws[i].window.pages[j]
  {
    if i > 0 {
      PageOfWindow(ws[1..], i - 1, j);
    }
  }

  lemma {:induction false} RecordAt(ws: seq<Canon>, firstPage: nat, i: nat)
    requires i < |ws|
    ensures Records(ws, firstPage)[i] ==
            WindowRecord(ws[i].start, ws[i].window.end, firstPage + PagesBefore(ws, i))
  {
    if i > 0 {
      RecordAt(ws[1..], firstPage + |ws[0].window.pages|, i - 1);
    }
  }

  lemma {:induction false} PagesBeforeGrows(ws: seq<Canon>, i: nat, j: nat)
    requires i < j <= |ws|
    requires forall k :: 0 <= k < |ws| ==> ws[k].window.pages != []
    ensures PagesBefore(ws, i) + |ws[i].window.pages| <= PagesBefore(ws, j)
    decreases i, j
  {
    if i > 0 {
      PagesBeforeGrows(ws[1..], i - 1, j - 1);
    }
  }

  lemma {:induction false} WindowOfFinds(ws: seq<Canon>, i: nat, j: nat)
    requires i < |ws| && j < |ws[i].window.pages|
    requires forall k :: 0 <= k < |ws| ==> ws[k].window.pages != []
    requires Usable(IndexOf(ws))
    ensures WindowOf(IndexOf(ws), PagesBefore(ws, i) + j) == i
    ensures IndexOf(ws).windows[i] == WindowRecord(ws[i].start, ws[i].window.end, PagesBefore(ws, i))
  {
    hide FirstPages, CountUpTo, Records, AllPages, PagesBefore, PageStarts;
    var records := Records(ws, 0);
    var f := FirstPages(records);
    forall k | 0 <= k < |ws| ensures f[k] == PagesBefore(ws, k) {
      RecordAt(ws, 0, k);
    }
    forall k | 0 <= k <= i ensures f[k] <= PagesBefore(ws, i) + j {
      if k < i { PagesBeforeGrows(ws, k, i); }
    }
    if i + 1 < |ws| {
      PagesBeforeGrows(ws, i, i + 1);
    }
    CountIs(f, PagesBefore(ws, i) + j, i + 1);
    RecordAt(ws, 0, i);
  }

  // The index of a counted chapter can always be searched.
  lemma {:induction false} IndexUsable(doc: Document, chapter: Chapter, face: Face, ws: seq<Canon>, ls: seq<seq<Line>>)
    requires chapter.start <= chapter.end
    requires WindowsTile(ws, chapter.start, chapter.end) && GoodWindows(doc, chapter, face, ws, ls)
    ensures forall k :: 0 <= k < |ws| ==> ws[k].window.pages != []
    ensures Usable(IndexOf(ws)) && |IndexOf(ws).starts| == |AllPages(ws)|
  {
    hide Valid, Lines, HeadingLen, PagesOf, Tiles, FirstPages, Records, PageStarts, WindowsTile, AllPages;
    forall k | 0 <= k < |ws| ensures ws[k].window.pages != [] {
      WindowPages(doc, chapter, face, ws[k], ls[k]);
    }
    FirstWindow(ws, chapter.start, chapter.end);
    PageOfWindow(ws, 0, 0);
    RecordAt(ws, 0, 0);
    StartsSorted(doc, chapter, face, ws, ls);
    FirstPagesSorted(ws);
  }

  lemma {:induction false} FirstWindow(ws: seq<Canon>, a: int, b: int)
    requires WindowsTile(ws, a, b)
    ensures ws != [] && ws[0].start == a && PagesBefore(ws, 0) == 0
  {
  }

  lemma {:induction false} FirstPagesSorted(ws: seq<Canon>)
    requires forall k :: 0 <= k < |ws| ==> ws[k].window.pages != []
    ensures Nondecreasing(FirstPages(Records(ws, 0)))
  {
    hide FirstPages, Records, PagesBefore;
    var f := FirstPages(Records(ws, 0));
    forall k | 0 <= k < |f| ensures f[k] == PagesBefore(ws, k) {
      RecordAt(ws, 0, k);
    }
    forall i, j | 0 <= i < j < |f| ensures f[i] <= f[j] {
      PagesBeforeGrows(ws, i, j);
    }
  }

  lemma {:induction false} StartsSorted(doc: Document, chapter: Chapter, face: Face, ws: seq<Canon>, ls: seq<seq<Line>>)
    requires chapter.start <= chapter.end
    requires WindowsTile(ws, chapter.start, chapter.end) && GoodWindows(doc, chapter, face, ws, ls)
    ensures Nondecreasing(PageStarts(AllPages(ws)))
  {
    hide PageStarts, GoodWindow;
    if chapter.start < chapter.end {
      PagesTileChapter(doc, chapter, face, ws, ls, chapter.start);
      hide AllPages;
      PagesGrow(AllPages(ws), ShownFrom(ws[0]), chapter.end);
      var s := PageStarts(AllPages(ws));
      forall i, j | 0 <= i <= j < |s| ensures s[i] <= s[j] {
      }
    } else {
      WindowPages(doc, chapter, face, ws[0], ls[0]);
      WindowRange(doc, chapter, face, ws[0], ls[0]);
      assert AllPages(ws) == ws[0].window.pages + AllPages([]) == ws[0].window.pages;
    }
  }
}

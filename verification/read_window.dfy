/**
  Restoring a saved position. From every rune boundary of a nonempty chapter
  readWindow gives back the canonical window from the page that holds the
  position, that page shortened to start there and still a single page. It
  fails in exactly one situation: the first window holds nothing but the
  chapter heading, the position lies inside that heading, and what is left of
  the heading does not fit one page.
 */
module ReadWindowProof {
  import opened Utf8
  import opened Pager
  import opened PageTiling
  import opened PageResume
  import opened WindowLoading
  import opened SortSearch
  import opened ChapterPages
  import opened CanonicalPages

  // The one situation in which a position cannot be restored.
  predicate HeadingTooLong(doc: Document, chapter: Chapter, face: Face, offset: int) {
    var (raw, end) := LoadWindow(doc.bytes, chapter.start, chapter.end);
    && raw != [] && HeadingLen(doc, chapter.start, raw, chapter.start) == |raw|
    && 0 <= chapter.start < offset < end <= |doc.bytes|
    && DecodeBytes(doc.bytes[offset..end]).Ok?
    && |WrapLines(face, TEXT_WIDTH, DecodeBytes(doc.bytes[offset..end]).value)| > PerPage(face, BODY_HEIGHT)
  }

  // ---- Re-reading a window ----

  lemma {:induction false} ReadAgain(doc: Document, chapter: Chapter, face: Face, from: nat, end: nat, lines: seq<Line>)
    requires 0 <= chapter.start <= from < end <= |doc.bytes| && end - from <= MAX_CHAPTER_WINDOW
    requires Lines(doc, chapter.start, face, TEXT_WIDTH, doc.bytes[from..end], from) == Ok(lines)
    ensures PaginateAt(doc, chapter.(end := end), from, face) ==
            Ok(Window(if lines == [] then [Page([], from, end)] else PagesOf(lines, PerPage(face, BODY_HEIGHT)), end))
  {
    hide Lines, PagesOf, LoadWindow, Texts;
    WindowAgain(doc.bytes, from, end);
    PageCount(lines, PerPage(face, BODY_HEIGHT));
  }

  // The lines of a window start after its heading.
  lemma {:induction false} AfterHeading(doc: Document, chapter: Chapter, face: Face, c: Canon, lines: seq<Line>)
    returns (from: nat)
    requires GoodWindow(doc, chapter, face, c, lines) && Valid(doc.bytes) && c.start < c.window.end
    ensures chapter.start <= c.start <= from <= c.window.end <= |doc.bytes| && Boundary(doc.bytes, from)
    ensures Valid(doc.bytes[from..c.window.end])
    ensures HeadingLen(doc, chapter.start, doc.bytes[from..c.window.end], from) == 0
    ensures Lines(doc, chapter.start, face, TEXT_WIDTH, doc.bytes[from..c.window.end], from) == Ok(lines)
    ensures Tiles(lines, from, c.window.end)
    ensures from == c.start + HeadingLen(doc, chapter.start, doc.bytes[c.start..c.window.end], c.start)
  {
    hide *;
    WindowFacts(doc, chapter, face, c, lines);
    from := c.start + HeadingLen(doc, chapter.start, doc.bytes[c.start..c.window.end], c.start);
    PastHeading(doc, chapter, face, c.start, c.window.end, from, lines);
  }

  lemma {:induction false} PastHeading(doc: Document, chapter: Chapter, face: Face, start: nat, end: nat, from: nat,
                                       lines: seq<Line>)
    requires Valid(doc.bytes) && chapter.start <= start <= end <= |doc.bytes|
    requires Boundary(doc.bytes, start) && Boundary(doc.bytes, end)
    requires from == start + HeadingLen(doc, chapter.start, doc.bytes[start..end], start)
    requires Lines(doc, chapter.start, face, TEXT_WIDTH, doc.bytes[start..end], start) == Ok(lines)
    ensures from <= end && Boundary(doc.bytes, from) && Valid(doc.bytes[from..end])
    ensures HeadingLen(doc, chapter.start, doc.bytes[from..end], from) == 0
    ensures Lines(doc, chapter.start, face, TEXT_WIDTH, doc.bytes[from..end], from) == Ok(lines)
  {
    hide *;
    var raw := doc.bytes[start..end];
    ValidBetween(doc.bytes, start, end);
    var h := from - start;
    if h > 0 {
      SliceTail(doc.bytes, start, end, h);
      SkipHeading(doc, chapter, face, raw, start, lines);
      BoundaryHere(doc.bytes, start, end, h);
    }
  }

  lemma {:induction false} SliceTail<T>(s: seq<T>, a: nat, b: nat, h: nat)
    requires a + h <= b <= |s|
    ensures s[a..b][h..] == s[a + h..b]
  {
  }

  lemma {:induction false} WindowFacts(doc: Document, chapter: Chapter, face: Face, c: Canon, lines: seq<Line>)
    requires GoodWindow(doc, chapter, face, c, lines)
    ensures chapter.start <= c.start <= c.window.end <= chapter.end <= |doc.bytes| && 0 <= c.start
    ensures Boundary(doc.bytes, c.start) && Boundary(doc.bytes, c.window.end)
    ensures Lines(doc, chapter.start, face, TEXT_WIDTH, doc.bytes[c.start..c.window.end], c.start) == Ok(lines)
    ensures Tiles(lines, c.start + HeadingLen(doc, chapter.start, doc.bytes[c.start..c.window.end], c.start),
                  c.window.end)
  {
    hide Valid, Lines, HeadingLen, Tiles, PagesOf, LoadWindow;
  }

  lemma {:induction false} SkipHeading(doc: Document, chapter: Chapter, face: Face, raw: seq<byte>, start: int,
                                       lines: seq<Line>)
    requires Valid(raw) && chapter.start <= start && HeadingLen(doc, chapter.start, raw, start) > 0
    requires Lines(doc, chapter.start, face, TEXT_WIDTH, raw, start) == Ok(lines)
    ensures var h := HeadingLen(doc, chapter.start, raw, start);
            && Valid(raw[..h]) && Valid(raw[h..]) && HeadingLen(doc, chapter.start, raw[h..], start + h) == 0
            && Lines(doc, chapter.start, face, TEXT_WIDTH, raw[h..], start + h) == Ok(lines)
  {
    hide *;
    HeadingIsPart(doc, chapter.start, raw, start);
    PartIsValid(raw);
    var h := HeadingLen(doc, chapter.start, raw, start);
    NoHeadingLater(doc, chapter.start, raw[h..], start + h);
    LinesTile(doc, chapter.start, face, TEXT_WIDTH, raw[h..], start + h);
    LinesUnfold(doc, chapter.start, face, TEXT_WIDTH, raw, start);
    HeadingHides(doc, chapter.start, face, TEXT_WIDTH, raw, start);
    var rest := Lines(doc, chapter.start, face, TEXT_WIDTH, raw[h..], start + h).value;
    assert [] + rest == rest;
  }

  lemma {:induction false} HeadingIsPart(doc: Document, chapterStart: int, raw: seq<byte>, position: int)
    requires HeadingLen(doc, chapterStart, raw, position) > 0
    ensures raw != [] && position == chapterStart
    ensures HeadingLen(doc, chapterStart, raw, position) == PartLen(raw) && DecodeBytes(raw[..PartLen(raw)]).Ok?
  {
  }

  lemma {:induction false} BoundaryHere(s: seq<byte>, i: nat, j: nat, k: nat)
    requires Valid(s) && Boundary(s, i) && i + k <= j <= |s| && Valid(s[i..j][..k])
    ensures Boundary(s, i + k)
  {
    assert s[i..j][..k] == s[i..][..k];
    BoundaryInRest(s, i, k);
  }

  // ---- The line of a page that holds a position ----

  lemma {:induction false} LineHolding(lines: seq<Line>, from: nat, to: nat, a: int, b: int, offset: int)
    returns (k: nat)
    requires Tiles(lines, a, b) && from < to <= |lines|
    requires lines[from].start <= offset < lines[to - 1].end
    ensures from <= k < to && lines[k].start <= offset < lines[k].end
    decreases |lines| - from
  {
    hide Tiles;
    TilesGrow(lines, a, b);
    if offset < lines[from].end {
      k := from;
    } else {
      k := LineHolding(lines, from + 1, to, a, b, offset);
    }
  }

  lemma {:induction false} PageBounds(lines: seq<Line>, from: nat, to: nat)
    requires from < to <= |lines|
    ensures PageOf(lines[from..to]).start == lines[from].start
    ensures PageOf(lines[from..to]).end == lines[to - 1].end
  {
    hide Texts;
  }

  // Pages start on rune boundaries.
  lemma {:induction false} PageStartBoundary(doc: Document, chapter: Chapter, face: Face, c: Canon, lines: seq<Line>,
                                             j: nat)
    requires Valid(doc.bytes) && GoodWindow(doc, chapter, face, c, lines) && 0 <= chapter.start
    requires j < |c.window.pages|
    ensures Boundary(doc.bytes, c.window.pages[j].start)
  {
    hide *;
    WindowPages(doc, chapter, face, c, lines);
    WindowFacts(doc, chapter, face, c, lines);
    if lines != [] && c.start < c.window.end {
      var from := AfterHeading(doc, chapter, face, c, lines);
      var first, last := PageLines(doc, chapter, face, c, lines, j);
      LineBoundary(doc, chapter.start, face, TEXT_WIDTH, doc.bytes[from..c.window.end], from, lines, first);
      BoundaryOfSlice(doc.bytes, from, c.window.end, c.window.pages[j].start);
    }
  }

  lemma {:induction false} BoundaryOfSlice(s: seq<byte>, from: nat, end: nat, x: int)
    requires Valid(s) && Boundary(s, from) && from <= end <= |s| && Boundary(s[from..end], x - from)
    ensures Boundary(s, x)
  {
    hide Valid, Runes;
    assert s[from..end][..x - from] == s[from..][..x - from];
    BoundaryInRest(s, from, x - from);
  }

  // ---- Shortening a page with text ----

  lemma {:induction false} ShortenPage(doc: Document, chapter: Chapter, face: Face, c: Canon, lines: seq<Line>,
                                       j: nat, offset: nat)
    returns (again: seq<Line>)
    requires Valid(doc.bytes) && GoodWindow(doc, chapter, face, c, lines) && 0 <= chapter.start
    requires c.start < c.window.end && lines != [] && j < |c.window.pages| && Boundary(doc.bytes, offset)
    requires c.window.pages[j].start < offset < c.window.pages[j].end
    ensures c.window.pages[j].end <= |doc.bytes|
    ensures Lines(doc, chapter.start, face, TEXT_WIDTH, doc.bytes[offset..c.window.pages[j].end], offset) == Ok(again)
    ensures 1 <= |again| <= PerPage(face, BODY_HEIGHT)
    ensures PageOf(again).start == offset && PageOf(again).end == c.window.pages[j].end
    ensures PaginateAt(doc, chapter.(end := c.window.pages[j].end), offset, face) ==
            Ok(Window([PageOf(again)], c.window.pages[j].end))
  {
    hide *;
    var from := AfterHeading(doc, chapter, face, c, lines);
    var page := c.window.pages[j];
    var first, last := PageLines(doc, chapter, face, c, lines, j);
    TilesGrow(lines, from, c.window.end);
    var k := LineHolding(lines, first, last, from, c.window.end, offset);
    SameBoundary(doc.bytes, from, c.window.end, offset);
    var piece;
    piece, again := ResumeLines(doc, chapter.start, face, TEXT_WIDTH, doc.bytes[from..c.window.end], from, lines,
                                k, last, offset);
    SliceOfSlice(doc.bytes, from, c.window.end, offset, page.end);
    WindowSize(doc, chapter, face, c, lines);
    OnePage(doc, chapter, face, offset, page.end, again);
  }

  lemma {:induction false} WindowSize(doc: Document, chapter: Chapter, face: Face, c: Canon, lines: seq<Line>)
    requires GoodWindow(doc, chapter, face, c, lines)
    ensures chapter.start <= c.start && c.window.end - c.start <= MAX_CHAPTER_WINDOW
  {
    hide Lines, Valid, Tiles, HeadingLen;
  }

  // Which lines page j of a window shows.
  lemma {:induction false} PageLines(doc: Document, chapter: Chapter, face: Face, c: Canon, lines: seq<Line>, j: nat)
    returns (first: nat, last: nat)
    requires GoodWindow(doc, chapter, face, c, lines) && lines != [] && j < |c.window.pages|
    ensures first < last <= |lines| && last - first <= PerPage(face, BODY_HEIGHT)
    ensures c.window.pages[j] == PageOf(lines[first..last])
    ensures c.window.pages[j].start == lines[first].start && c.window.pages[j].end == lines[last - 1].end
  {
    hide Lines, Valid, Tiles, HeadingLen, PagesOf, PageOf, Boundary, PerPage;
    var perPage := PerPage(face, BODY_HEIGHT);
    first := j * perPage;
    PageContents(lines, perPage, j, first);
    last := Min(first + perPage, |lines|);
    PageBounds(lines, first, last);
  }

  // Between one and perPage lines laid out from offset make one page.
  lemma {:induction false} OnePage(doc: Document, chapter: Chapter, face: Face, offset: nat, end: nat,
                                   again: seq<Line>)
    requires 0 <= chapter.start < offset < end <= |doc.bytes| && end - offset <= MAX_CHAPTER_WINDOW
    requires Valid(doc.bytes[offset..end])
    requires Lines(doc, chapter.start, face, TEXT_WIDTH, doc.bytes[offset..end], offset) == Ok(again)
    requires 1 <= |again| <= PerPage(face, BODY_HEIGHT)
    ensures PageOf(again).start == offset && PageOf(again).end == end
    ensures PaginateAt(doc, chapter.(end := end), offset, face) == Ok(Window([PageOf(again)], end))
  {
    hide Lines, Valid, Tiles, HeadingLen, Texts, PaginateAt;
    ReadAgain(doc, chapter, face, offset, end, again);
    LinesTile(doc, chapter.start, face, TEXT_WIDTH, doc.bytes[offset..end], offset);
    NoHeadingLater(doc, chapter.start, doc.bytes[offset..end], offset);
    TilesGrow(again, offset, end);
    TilesHead(again, offset, end);
  }

  lemma {:induction false} SliceOfSlice(s: seq<byte>, from: nat, end: nat, x: nat, y: nat)
    requires from <= x <= y <= end <= |s|
    ensures s[from..end][x - from..y - from] == s[x..y]
  {
    SliceOfRest(s[..end], from, x, y);
    SliceOfPart(s, end, x, y);
  }

  lemma {:induction false} SameBoundary(s: seq<byte>, from: nat, end: nat, x: nat)
    requires Valid(s) && from <= x <= end <= |s| && Boundary(s, from) && Boundary(s, x)
    ensures Boundary(s[from..end], x - from)
  {
    hide Valid;
    ValidBetween(s, from, x);
    assert s[from..end][..x - from] == s[from..x];
  }

  // ---- A window that is only a heading ----

  lemma {:induction false} ResumeHeading(doc: Document, chapter: Chapter, face: Face, c: Canon, lines: seq<Line>,
                                       offset: nat)
    requires Valid(doc.bytes) && GoodWindow(doc, chapter, face, c, lines) && 0 <= chapter.start
    requires c.start < offset < c.window.end && lines == [] && Boundary(doc.bytes, offset)
    ensures var r := PaginateAt(doc, chapter.(end := c.window.end), offset, face);
            r.Ok? && r.value.end == c.window.end &&
            (|r.value.pages| == 1 && r.value.pages[0].start == offset <==> !HeadingTooLong(doc, chapter, face, offset))
    ensures c.start == chapter.start
    ensures var r := PaginateAt(doc, chapter.(end := c.window.end), offset, face);
            |r.value.pages| == 1 ==>
              && offset <= c.window.end <= |doc.bytes|
              && var again := Lines(doc, chapter.start, face, TEXT_WIDTH, doc.bytes[offset..c.window.end], offset);
                 && again.Ok? && 1 <= |again.value| <= PerPage(face, BODY_HEIGHT)
                 && r.value.pages[0] == PageOf(again.value) && PageOf(again.value).end == c.window.end
  {
    hide *;
    var end := c.window.end;
    RestOfHeading(doc, chapter, face, c, lines, offset);
    var piece := doc.bytes[offset..end];
    SinglePart(doc, chapter.start, face, TEXT_WIDTH, piece, offset);
    WrapLinesOfPart(face, TEXT_WIDTH, piece);
    var again := PartSegments(face, TEXT_WIDTH, piece, offset);
    PartSegmentsCount(face, TEXT_WIDTH, piece, offset);
    ReadAgain(doc, chapter, face, offset, end, again);
    PageCount(again, PerPage(face, BODY_HEIGHT));
    if |again| <= PerPage(face, BODY_HEIGHT) {
      OnePage(doc, chapter, face, offset, end, again);
    }
    TooLongMeans(doc, chapter, face, c, lines, offset);
  }

  lemma {:induction false} PartSegmentsCount(face: Face, width: int, part: seq<byte>, start: int)
    requires Valid(Body(part))
    ensures |PartSegments(face, width, part, start)| == |BodyLines(face, width, part)| >= 1
  {
    hide Segments;
  }

  // A window without lines is one heading line; what follows an offset inside it is the rest of that line.
  lemma {:induction false} RestOfHeading(doc: Document, chapter: Chapter, face: Face, c: Canon, lines: seq<Line>, offset: nat)
    requires Valid(doc.bytes) && GoodWindow(doc, chapter, face, c, lines) && 0 <= chapter.start
    requires c.start < offset < c.window.end && lines == [] && Boundary(doc.bytes, offset)
    ensures 0 <= c.start == chapter.start && c.window.end <= |doc.bytes| && c.window.end - offset <= MAX_CHAPTER_WINDOW
    ensures HeadingLen(doc, chapter.start, doc.bytes[c.start..c.window.end], c.start) == c.window.end - c.start
    ensures Valid(doc.bytes[offset..c.window.end]) && doc.bytes[offset..c.window.end] != []
    ensures forall k :: 0 <= k < c.window.end - offset - 1 ==> doc.bytes[offset..c.window.end][k] != 10
  {
    var end := c.window.end;
    var raw := doc.bytes[c.start..end];
    var from := AfterHeading(doc, chapter, face, c, lines);
    hide Valid, Lines, HeadingLen, DecodeBytes, WrapLines, PagesOf, Boundary, LoadWindow, Texts;
    assert from == end;
    HeadingIsPart(doc, chapter.start, raw, c.start);
    ValidBetween(doc.bytes, offset, end);
    assert doc.bytes[offset..end] == raw[offset - c.start..];
  }

  lemma {:induction false} TooLongMeans(doc: Document, chapter: Chapter, face: Face, c: Canon, lines: seq<Line>,
                                        offset: nat)
    requires GoodWindow(doc, chapter, face, c, lines) && 0 <= chapter.start == c.start < offset < c.window.end
    requires HeadingLen(doc, chapter.start, doc.bytes[c.start..c.window.end], c.start) == c.window.end - c.start
    requires DecodeBytes(doc.bytes[offset..c.window.end]).Ok?
    ensures HeadingTooLong(doc, chapter, face, offset) <==>
            |WrapLines(face, TEXT_WIDTH, DecodeBytes(doc.bytes[offset..c.window.end]).value)| > PerPage(face, BODY_HEIGHT)
  {
    hide Valid, Lines, HeadingLen, DecodeBytes, WrapLines, LoadWindow, Tiles, PagesOf;
  }

  // ---- Finding the page of a position ----

  lemma {:induction false} WindowHolding(ws: seq<Canon>, a: int, b: int, offset: int) returns (i: nat)
    requires WindowsTile(ws, a, b) && a <= offset < b
    ensures i < |ws| && ws[i].start <= offset < ws[i].window.end
    ensures if i == 0 then ws[i].start == a else a < ws[0].window.end <= ws[i].start
    decreases |ws|
  {
    if offset < ws[0].window.end {
      i := 0;
    } else {
      i := WindowHolding(ws[1..], ws[0].window.end, b, offset);
      i := i + 1;
    }
  }

  lemma {:induction false} PageHolding(pages: seq<Page>, a: int, b: int, offset: int) returns (j: nat)
    requires PagesTile(pages, a, b) && a <= offset < b
    ensures j < |pages| && pages[j].start <= offset < pages[j].end
    decreases |pages|
  {
    if offset < pages[0].end {
      j := 0;
    } else {
      j := PageHolding(pages[1..], pages[0].end, b, offset);
      j := j + 1;
    }
  }

  // Page j of window i holds the position, or it is the first page and the position lies in the heading before it.
  predicate Holds(ws: seq<Canon>, i: nat, j: nat, offset: int) {
    && i < |ws| && j < |ws[i].window.pages|
    && ws[i].start <= offset < ws[i].window.pages[j].end
    && (ws[i].window.pages[j].start <= offset || (i == 0 && j == 0))
    && (i > 0 ==> ws[0].window.end <= ws[i].start)
  }

  lemma {:induction false} Locate(doc: Document, chapter: Chapter, face: Face, ws: seq<Canon>, ls: seq<seq<Line>>,
                                  offset: int)
    returns (i: nat, j: nat)
    requires chapter.start <= offset < chapter.end
    requires WindowsTile(ws, chapter.start, chapter.end) && GoodWindows(doc, chapter, face, ws, ls)
    ensures Holds(ws, i, j, offset)
  {
    hide GoodWindow, WindowsTile;
    i := WindowHolding(ws, chapter.start, chapter.end, offset);
    var c := ws[i];
    WindowPages(doc, chapter, face, c, ls[i]);
    PagesGrow(c.window.pages, ShownFrom(c), c.window.end);
    if offset < ShownFrom(c) {
      j := 0;
    } else {
      j := PageHolding(c.window.pages, ShownFrom(c), c.window.end, offset);
    }
  }

  // The index finds that page.
  lemma {:induction false} Found(doc: Document, chapter: Chapter, face: Face, ws: seq<Canon>, ls: seq<seq<Line>>,
                                 i: nat, j: nat, offset: int)
    requires chapter.start < chapter.end && Holds(ws, i, j, offset)
    requires WindowsTile(ws, chapter.start, chapter.end) && GoodWindows(doc, chapter, face, ws, ls)
    ensures i < |ws| && j < |ws[i].window.pages| && Usable(IndexOf(ws))
    ensures PageAt(IndexOf(ws).starts, offset) == PagesBefore(ws, i) + j
    ensures WindowOf(IndexOf(ws), PagesBefore(ws, i) + j) == i
    ensures IndexOf(ws).windows[i] == WindowRecord(ws[i].start, ws[i].window.end, PagesBefore(ws, i))
    ensures PagesBefore(ws, i) + j < |IndexOf(ws).starts|
    ensures IndexOf(ws).starts[PagesBefore(ws, i) + j] == ws[i].window.pages[j].start
  {
    hide GoodWindow, WindowsTile, AllPages, PagesBefore, Records, PageStarts, FirstPages, WindowOf, PageAt;
    IndexUsable(doc, chapter, face, ws, ls);
    PagesTileChapter(doc, chapter, face, ws, ls, chapter.start);
    PageOfWindow(ws, i, j);
    FirstWindow(ws, chapter.start, chapter.end);
    PageAtFinds(AllPages(ws), ShownFrom(ws[0]), chapter.end, PagesBefore(ws, i) + j, offset);
    WindowOfFinds(ws, i, j);
  }

  // So the lookup always ends on the canonical window, read again unchanged.
  lemma {:induction false} LookUp(doc: Document, chapter: Chapter, face: Face, ws: seq<Canon>, ls: seq<seq<Line>>,
                                  i: nat, j: nat, offset: int)
    requires GoodChapter(doc, chapter) && chapter.start < chapter.end && Holds(ws, i, j, offset)
    requires WindowsTile(ws, chapter.start, chapter.end) && GoodWindows(doc, chapter, face, ws, ls)
    ensures Usable(IndexOf(ws))
    ensures ReadWindow(doc, chapter, face, IndexOf(ws), offset) ==
            FromPage(doc, chapter.(end := ws[i].window.end), face, ws[i].window, j, offset)
  {
    hide *;
    Found(doc, chapter, face, ws, ls, i, j, offset);
    FirstLoaded(doc, chapter, face, ws, ls);
    WindowReadAgain(doc, chapter, face, ws[i], ls[i]);
    LookUpStep(doc, chapter, face, IndexOf(ws), ws[i], PagesBefore(ws, i), i, j, offset);
  }

  lemma {:induction false} WindowReadAgain(doc: Document, chapter: Chapter, face: Face, c: Canon, lines: seq<Line>)
    requires GoodChapter(doc, chapter) && chapter.start < chapter.end && GoodWindow(doc, chapter, face, c, lines)
    ensures PaginateAt(doc, chapter.(end := c.window.end), c.start, face) == Ok(c.window)
  {
    hide Valid, Lines, HeadingLen, PagesOf, Boundary, Tiles, LoadWindow, PaginateAt, PerPage;
    ReadAgain(doc, chapter, face, c.start, c.window.end, lines);
  }

  lemma {:induction false} LookUpStep(doc: Document, chapter: Chapter, face: Face, index: PageIndex, c: Canon,
                                      before: nat, i: nat, j: nat, offset: int)
    requires Usable(index) && PageAt(index.starts, offset) == before + j && WindowOf(index, before + j) == i
    requires index.windows[i] == WindowRecord(c.start, c.window.end, before)
    requires before + j < |index.starts| && j < |c.window.pages|
    requires index.starts[before + j] == c.window.pages[j].start
    requires PaginateAt(doc, chapter.(end := c.window.end), c.start, face) == Ok(c.window)
    ensures ReadWindow(doc, chapter, face, index, offset) ==
            FromPage(doc, chapter.(end := c.window.end), face, c.window, j, offset)
  {
    hide PaginateAt, PageAt, WindowOf, FromPage, Nondecreasing;
  }

  // ---- The theorem ----

  lemma {:induction false} RestoresPosition(doc: Document, chapter: Chapter, face: Face, offset: nat)
    returns (ws: seq<Canon>, i: nat, j: nat)
    requires GoodChapter(doc, chapter) && chapter.start <= offset < chapter.end && Boundary(doc.bytes, offset)
    ensures Canonical(doc, chapter, face, chapter.start) == Ok(ws) && Usable(IndexOf(ws)) && Holds(ws, i, j, offset)
    ensures PageAt(IndexOf(ws).starts, offset) == PagesBefore(ws, i) + j
    ensures var r := ReadWindow(doc, chapter, face, IndexOf(ws), offset);
            var pages := ws[i].window.pages;
            && (r.Err? <==> HeadingTooLong(doc, chapter, face, offset))
            && (r.Ok? ==>
                  && r.value.end == ws[i].window.end
                  && |r.value.pages| == |pages| - j && r.value.pages[1..] == pages[j + 1..]
                  && Shortened(doc, chapter, face, pages[j], r.value.pages[0], offset))
  {
    var ls;
    ws, ls := CountingTiles(doc, chapter, face, chapter.start);
    i, j := Locate(doc, chapter, face, ws, ls, offset);
    Found(doc, chapter, face, ws, ls, i, j, offset);
    LookUp(doc, chapter, face, ws, ls, i, j, offset);
    FirstLoaded(doc, chapter, face, ws, ls);
    FromPageRestores(doc, chapter, face, ws[i], ls[i], j, offset);
  }

  lemma {:induction false} FirstLoaded(doc: Document, chapter: Chapter, face: Face, ws: seq<Canon>,
                                       ls: seq<seq<Line>>)
    requires WindowsTile(ws, chapter.start, chapter.end) && GoodWindows(doc, chapter, face, ws, ls)
    ensures ws[0].start == chapter.start && LoadWindow(doc.bytes, chapter.start, chapter.end).1 == ws[0].window.end
    ensures |ls| == |ws| && forall k :: 0 <= k < |ws| ==> GoodWindow(doc, chapter, face, ws[k], ls[k])
  {
    hide Valid, Lines, HeadingLen, LoadWindow, PagesOf, Boundary, Tiles;
  }

  // The first page given back: the canonical one, or the one page of the lines that the bytes from offset to its end
  // make.
  predicate Shortened(doc: Document, chapter: Chapter, face: Face, page: Page, first: Page, offset: int) {
    if offset <= page.start then first == page
    else
      && 0 <= offset <= page.end <= |doc.bytes|
      && var again := Lines(doc, chapter.start, face, TEXT_WIDTH, doc.bytes[offset..page.end], offset);
         && again.Ok? && 1 <= |again.value| <= PerPage(face, BODY_HEIGHT)
         && first == PageOf(again.value) && first.start == offset && first.end == page.end
  }

  lemma {:induction false} FromPageRestores(doc: Document, chapter: Chapter, face: Face, c: Canon, lines: seq<Line>,
                                            j: nat, offset: nat)
    requires GoodChapter(doc, chapter) && GoodWindow(doc, chapter, face, c, lines) && c.start < c.window.end
    requires j < |c.window.pages| && c.start <= offset < c.window.pages[j].end && Boundary(doc.bytes, offset)
    requires c.start == chapter.start || LoadWindow(doc.bytes, chapter.start, chapter.end).1 <= c.start
    ensures var r := FromPage(doc, chapter.(end := c.window.end), face, c.window, j, offset);
            var pages := c.window.pages;
            && (r.Err? <==> HeadingTooLong(doc, chapter, face, offset))
            && (r.Ok? ==>
                  && r.value.end == c.window.end
                  && |r.value.pages| == |pages| - j && r.value.pages[1..] == pages[j + 1..]
                  && Shortened(doc, chapter, face, pages[j], r.value.pages[0], offset))
  {
    var page := c.window.pages[j];
    var narrowed := chapter.(end := c.window.end);
    assert Valid(doc.bytes) && 0 <= chapter.start;
    WindowPages(doc, chapter, face, c, lines);
    FromPageIs(doc, narrowed, face, c.window, j, offset);
    ShortenedIs(doc, chapter, face, page, offset);
    if offset > page.start {
      if lines == [] {
        assert narrowed.(end := page.end) == narrowed;
        hide *;
        ResumeHeading(doc, chapter, face, c, lines, offset);
      } else {
        assert narrowed.(end := page.end) == chapter.(end := page.end);
        hide *;
        var again := ShortenPage(doc, chapter, face, c, lines, j, offset);
        NotTooLong(doc, chapter, face, c, lines, offset);
      }
    } else {
      hide *;
      NotTooLong(doc, chapter, face, c, lines, offset);
    }
  }

  lemma {:induction false} ShortenedIs(doc: Document, chapter: Chapter, face: Face, page: Page, offset: int)
    ensures offset <= page.start ==> Shortened(doc, chapter, face, page, page, offset)
    ensures forall again: seq<Line> ::
              && page.start < offset && 0 <= offset <= page.end <= |doc.bytes| && 1 <= |again| <= PerPage(face, BODY_HEIGHT)
              && Lines(doc, chapter.start, face, TEXT_WIDTH, doc.bytes[offset..page.end], offset) == Ok(again)
              && PageOf(again).start == offset && PageOf(again).end == page.end
              ==> Shortened(doc, chapter, face, page, PageOf(again), offset)
  {
    hide Lines, PageOf, PerPage;
  }

  // FromPage in terms of what re-reading the page's own bytes returned.
  lemma {:induction false} FromPageIs(doc: Document, narrowed: Chapter, face: Face, w: Window, j: nat, offset: int)
    requires j < |w.pages|
    ensures var r := FromPage(doc, narrowed, face, w, j, offset);
            var page := w.pages[j];
            var again := PaginateAt(doc, narrowed.(end := page.end), offset, face);
            && (offset <= page.start ==> r == Ok(Window(w.pages[j..], w.end)))
            && (offset > page.start ==>
                  (r.Ok? <==> again.Ok? && again.value.end == page.end && |again.value.pages| == 1 &&
                              again.value.pages[0].start == offset))
            && (r.Ok? ==>
                  && r.value.end == w.end && |r.value.pages| == |w.pages| - j
                  && r.value.pages[1..] == w.pages[j + 1..]
                  && r.value.pages[0] == if offset <= page.start then page else again.value.pages[0])
  {
    hide PaginateAt;
    assert w.pages[j..][1..] == w.pages[j + 1..];
  }

  // A window with text, or a position outside the first window, never meets the failing situation.
  lemma {:induction false} NotTooLong(doc: Document, chapter: Chapter, face: Face, c: Canon, lines: seq<Line>,
                                      offset: nat)
    requires GoodWindow(doc, chapter, face, c, lines) && c.start < c.window.end && offset >= c.start
    requires c.start == chapter.start || LoadWindow(doc.bytes, chapter.start, chapter.end).1 <= c.start
    requires lines != [] || offset <= c.start
    ensures !HeadingTooLong(doc, chapter, face, offset)
  {
    hide Valid, Lines, HeadingLen, DecodeBytes, WrapLines, LoadWindow, PagesOf, Boundary, Tiles;
    TilesGrow(lines, c.start + HeadingLen(doc, chapter.start, doc.bytes[c.start..c.window.end], c.start), c.window.end);
  }
}

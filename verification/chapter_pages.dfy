/**
  The page index of a chapter, App/book-reader/chapter_pages.go: one counting
  pass over successive windows, and the re-reading of a single window from any
  saved byte offset.
 */
module ChapterPages {
  import opened Utf8
  import opened Pager
  import opened SortSearch

  const TEXT_WIDTH := 296 - 14
  const BODY_HEIGHT := 128 - 26

  datatype WindowRecord = WindowRecord(start: int, end: int, firstPage: nat)

  datatype PageIndex = PageIndex(starts: seq<int>, windows: seq<WindowRecord>)

  // A window of the canonical layout: its start and everything Paginate returned for it.
  datatype Canon = Canon(start: int, window: Window)

  function PaginateAt(doc: Document, chapter: Chapter, start: int, face: Face): Result<Window> {
    Paginated(doc, chapter, start, face, TEXT_WIDTH, BODY_HEIGHT)
  }

  // The canonical layout of the chapter from start on, with the text of every page.
  function Canonical(doc: Document, chapter: Chapter, face: Face, start: int): (r: Result<seq<Canon>>)
    ensures r.Ok? ==> r.value != [] && r.value[0].start == start
    decreases chapter.end - start
  {
    match PaginateAt(doc, chapter, start, face)
    case Err => Err
    case Ok(w) =>
      if w.end < chapter.end && w.end <= start then Err
      else if w.end >= chapter.end then Ok([Canon(start, w)])
      else
        match Canonical(doc, chapter, face, w.end)
        case Err => Err
        case Ok(rest) => Ok([Canon(start, w)] + rest)
  }

  function PageStarts(pages: seq<Page>): (s: seq<int>)
    ensures |s| == |pages|
    ensures forall i :: 0 <= i < |s| ==> s[i] == pages[i].start
  {
    if pages == [] then [] else [pages[0].start] + PageStarts(pages[1..])
  }

  function AllPages(ws: seq<Canon>): seq<Page> {
    if ws == [] then [] else ws[0].window.pages + AllPages(ws[1..])
  }

  function Records(ws: seq<Canon>, firstPage: nat): (r: seq<WindowRecord>)
    ensures |r| == |ws|
  {
    if ws == [] then []
    else [WindowRecord(ws[0].start, ws[0].window.end, firstPage)] +
         Records(ws[1..], firstPage + |ws[0].window.pages|)
  }

  // What is kept of the canonical layout: byte boundaries only.
  function IndexOf(ws: seq<Canon>): PageIndex {
    PageIndex(PageStarts(AllPages(ws)), Records(ws, 0))
  }

  // ---- The counting loop ----

  method CountChapterPages(doc: Document, chapter: Chapter, face: Face) returns (result: Result<PageIndex>)
    ensures var all := Canonical(doc, chapter, face, chapter.start);
            result == if all.Ok? then Ok(IndexOf(all.value)) else Err
  {
    hide Paginated, AllPages, PageStarts, Records;
    var starts: seq<int> := [];
    var windows: seq<WindowRecord> := [];
    var start := chapter.start;
    ghost var done: seq<Canon> := [];
    NothingCounted(doc, chapter, face);
    while true
      invariant Counting(doc, chapter, face, start, done)
      invariant starts == PageStarts(AllPages(done)) && windows == Records(done, 0)
      decreases chapter.end - start
    {
      var w := Paginate(doc, chapter, start, face, TEXT_WIDTH, BODY_HEIGHT);
      if w.Err? {
        return Err;
      }
      var pages, end := w.value.pages, w.value.end;
      if end < chapter.end && end <= start {
        return Err;
      }
      windows := windows + [WindowRecord(start, end, |starts|)];
      starts := AppendStarts(starts, pages);
      CountWindow(done, Canon(start, w.value));
      CountingStep(doc, chapter, face, start, done, w.value);
      done := done + [Canon(start, w.value)];
      if end >= chapter.end {
        break;
      }
      start := end;
    }
    return Ok(PageIndex(starts, windows));
  }

  method AppendStarts(before: seq<int>, pages: seq<Page>) returns (starts: seq<int>)
    ensures starts == before + PageStarts(pages)
  {
    hide PageStarts;
    starts := before;
    for i := 0 to |pages|
      invariant starts == before + PageStarts(pages)[..i]
    {
      starts := starts + [pages[i].start];
    }
  }

  // The windows counted so far open the canonical layout.
  ghost predicate Counting(doc: Document, chapter: Chapter, face: Face, start: int, done: seq<Canon>) {
    var rest := Canonical(doc, chapter, face, start);
    Canonical(doc, chapter, face, chapter.start) == if rest.Ok? then Ok(done + rest.value) else Err
  }

  lemma {:induction false} NothingCounted(doc: Document, chapter: Chapter, face: Face)
    ensures PageStarts(AllPages([])) == [] && Records([], 0) == []
    ensures Counting(doc, chapter, face, chapter.start, [])
  {
    hide Canonical;
    var all := Canonical(doc, chapter, face, chapter.start);
    assert all.Ok? ==> [] + all.value == all.value;
  }

  lemma {:induction false} CountingStep(doc: Document, chapter: Chapter, face: Face, start: int, done: seq<Canon>, w: Window)
    requires Counting(doc, chapter, face, start, done)
    requires PaginateAt(doc, chapter, start, face) == Ok(w) && !(w.end < chapter.end && w.end <= start)
    ensures w.end >= chapter.end ==> Canonical(doc, chapter, face, chapter.start) == Ok(done + [Canon(start, w)])
    ensures w.end < chapter.end ==> Counting(doc, chapter, face, w.end, done + [Canon(start, w)])
  {
    hide PaginateAt;
    var rest := Canonical(doc, chapter, face, w.end);
    if w.end < chapter.end && rest.Ok? {
      Associate(done, [Canon(start, w)], rest.value);
    }
  }

  lemma {:induction false} AllPagesConcat(a: seq<Canon>, b: seq<Canon>)
    ensures AllPages(a + b) == AllPages(a) + AllPages(b)
  {
    hide *;
    if a == [] {
      assert a + b == b;
      AllPagesUnfold(a);
      assert [] + AllPages(b) == AllPages(b);
    } else {
      AllPagesConcat(a[1..], b);
      assert (a + b)[1..] == a[1..] + b;
      AllPagesUnfold(a + b);
      AllPagesUnfold(a);
      Associate(a[0].window.pages, AllPages(a[1..]), AllPages(b));
    }
  }

  lemma {:induction false} AllPagesUnfold(ws: seq<Canon>)
    ensures AllPages(ws) == if ws == [] then [] else ws[0].window.pages + AllPages(ws[1..])
  {
  }

  lemma {:induction false} RecordsSnoc(a: seq<Canon>, next: Canon, firstPage: nat)
    ensures Records(a + [next], firstPage) ==
            Records(a, firstPage) + [WindowRecord(next.start, next.window.end, firstPage + |AllPages(a)|)]
  {
    hide *;
    RecordsUnfold(a, firstPage);
    RecordsUnfold(a + [next], firstPage);
    AllPagesUnfold(a);
    if a == [] {
      assert a + [next] == [next] && [next][1..] == [];
      RecordsUnfold([], firstPage + |next.window.pages|);
    } else {
      RecordsSnoc(a[1..], next, firstPage + |a[0].window.pages|);
      assert (a + [next])[1..] == a[1..] + [next];
    }
  }

  lemma {:induction false} RecordsUnfold(ws: seq<Canon>, firstPage: nat)
    ensures Records(ws, firstPage) ==
            if ws == [] then []
            else [WindowRecord(ws[0].start, ws[0].window.end, firstPage)] +
                 Records(ws[1..], firstPage + |ws[0].window.pages|)
  {
  }

  lemma {:induction false} PageStartsConcat(a: seq<Page>, b: seq<Page>)
    ensures PageStarts(a + b) == PageStarts(a) + PageStarts(b)
  {
    hide PageStarts;
  }

  lemma {:induction false} CountWindow(done: seq<Canon>, next: Canon)
    ensures PageStarts(AllPages(done + [next])) == PageStarts(AllPages(done)) + PageStarts(next.window.pages)
    ensures Records(done + [next], 0) ==
            Records(done, 0) + [WindowRecord(next.start, next.window.end, |AllPages(done)|)]
  {
    hide Records, PageStarts;
    AllPagesConcat(done, [next]);
    assert [next][1..] == [];
    assert AllPages([next]) == next.window.pages + AllPages([]) == next.window.pages;
    PageStartsConcat(AllPages(done), next.window.pages);
    RecordsSnoc(done, next, 0);
  }

  // ---- Looking a position up ----

  function PageAt(starts: seq<int>, offset: int): nat {
    if CountUpTo(starts, offset) == 0 then 0 else CountUpTo(starts, offset) - 1
  }

  function FirstPages(windows: seq<WindowRecord>): (f: seq<int>)
    ensures |f| == |windows|
    ensures forall i :: 0 <= i < |f| ==> f[i] == windows[i].firstPage
  {
    if windows == [] then [] else [windows[0].firstPage as int] + FirstPages(windows[1..])
  }

  // An index readWindow can look positions up in.
  predicate Usable(index: PageIndex) {
    && index.starts != [] && Nondecreasing(index.starts)
    && index.windows != [] && index.windows[0].firstPage == 0 && Nondecreasing(FirstPages(index.windows))
  }

  // The window a global page number lies in.
  function WindowOf(index: PageIndex, page: nat): (i: nat)
    requires Usable(index)
    ensures i < |index.windows| && index.windows[i].firstPage <= page
  {
    assert FirstPages(index.windows)[0] == 0;
    assert FirstPages(index.windows)[CountUpTo(FirstPages(index.windows), page) - 1] <= page;
    CountUpTo(FirstPages(index.windows), page) - 1
  }

  // What readWindow returns.
  function ReadWindow(doc: Document, chapter: Chapter, face: Face, index: PageIndex, offset: int): Result<Window>
    requires Usable(index)
  {
    var page := PageAt(index.starts, offset);
    var window := index.windows[WindowOf(index, page)];
    var narrowed := chapter.(end := window.end);
    match PaginateAt(doc, narrowed, window.start, face)
    case Err => Err
    case Ok(w) =>
      var first := page - window.firstPage;
      if w.end != window.end || first >= |w.pages| || w.pages[first].start != index.starts[page] then Err
      else FromPage(doc, narrowed, face, w, first, offset)
  }

  // The pages from the first wanted one on, that one shortened to start at offset.
  function FromPage(doc: Document, narrowed: Chapter, face: Face, w: Window, first: nat, offset: int)
    : Result<Window>
    requires first < |w.pages|
  {
    var pages := w.pages[first..];
    if offset <= pages[0].start then Ok(Window(pages, w.end))
    else
      match PaginateAt(doc, narrowed.(end := pages[0].end), offset, face)
      case Err => Err
      case Ok(r) =>
        if r.end != pages[0].end || |r.pages| != 1 || r.pages[0].start != offset then Err
        else Ok(Window(pages[0 := r.pages[0]], w.end))
  }

  method ReadWindowAt(doc: Document, chapter: Chapter, face: Face, index: PageIndex, offset: int)
    returns (result: Result<Window>)
    requires Usable(index)
    ensures result == ReadWindow(doc, chapter, face, index, offset)
  {
    hide Paginated, CountUpTo, FirstPages, PageStarts, Lines, LoadWindow;
    var page := Search(index.starts, offset);
    page := if page == 0 then 0 else page - 1;
    var windowIndex := Search(FirstPages(index.windows), page);
    windowIndex := windowIndex - 1;
    assert windowIndex == WindowOf(index, page);
    var window := index.windows[windowIndex];
    var narrowed := chapter.(end := window.end);
    var w := Paginate(doc, narrowed, window.start, face, TEXT_WIDTH, BODY_HEIGHT);
    if w.Err? {
      return Err;
    }
    var end := w.value.end;
    if end != window.end {
      return Err;
    }
    var first := page - window.firstPage;
    if first >= |w.value.pages| || w.value.pages[first].start != index.starts[page] {
      return Err;
    }
    result := ShortenFirst(doc, narrowed, face, w.value, first, offset);
  }

  method ShortenFirst(doc: Document, narrowed: Chapter, face: Face, w: Window, first: nat, offset: int)
    returns (result: Result<Window>)
    requires first < |w.pages|
    ensures result == FromPage(doc, narrowed, face, w, first, offset)
  {
    hide Paginated;
    var pages := w.pages[first..];
    if offset > pages[0].start {
      var partial := narrowed.(end := pages[0].end);
      var resumed := Paginate(doc, partial, offset, face, TEXT_WIDTH, BODY_HEIGHT);
      if resumed.Err? {
        return Err;
      }
      if resumed.value.end != partial.end || |resumed.value.pages| != 1 ||
         resumed.value.pages[0].start != offset {
        return Err;
      }
      pages := pages[0 := resumed.value.pages[0]];
    }
    return Ok(Window(pages, w.end));
  }
}

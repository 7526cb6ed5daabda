/**
  Pagination of one bounded window of a chapter, App/book-reader/pager.go,
  for UTF-8 documents. The file is its bytes; whether a decoded line is a
  chapter heading is an uninterpreted predicate of its runes.
 */
module Pager {
  import opened Utf8
  import opened Wrapping

  const MAX_CHAPTER_WINDOW := 4 * 1024 * 1024

  datatype Face = Face(glyphs: Glyphs, lineHeight: int)

  datatype Chapter = Chapter(title: seq<int>, start: int, end: int, hasBody: bool)

  datatype Document = Document(bytes: seq<byte>, isHeading: seq<int> -> bool)

  datatype Line = Line(text: seq<int>, start: int, end: int)

  datatype Page = Page(lines: seq<seq<int>>, start: int, end: int)

  datatype Result<T> = Ok(value: T) | Err

  datatype Window = Window(pages: seq<Page>, end: int)

  // ---- Reading a range of the file ----

  // Document.ReadRange: clamp to the file and the limit, then read what is there.
  function ReadRange(file: seq<byte>, start: int, end: int, limit: int): (r: (seq<byte>, int))
    ensures r.1 == (if start < 0 then 0 else start) + |r.0|
    ensures limit > 0 ==> |r.0| <= limit
  {
    var from := if start < 0 then 0 else start;
    var to := if end > |file| then |file| else end;
    var to := if to < from then from else to;
    var to := if limit > 0 && to - from > limit then from + limit else to;
    if to <= |file| then (file[from..to], to) else ([], from)
  }

  // utf8.RuneStart
  predicate RuneStart(b: byte) {
    b / 64 != 2
  }

  // The acceptable second bytes after a lead byte.
  function SecondLow(b: byte): byte {
    if b == 0xE0 then 0xA0 else if b == 0xF0 then 0x90 else 0x80
  }

  function SecondHigh(b: byte): byte {
    if b == 0xED then 0x9F else if b == 0xF4 then 0x8F else 0xBF
  }

  function ExpectedLen(b: byte): nat {
    if 0xC2 <= b <= 0xDF then 2 else if 0xE0 <= b <= 0xEF then 3 else if 0xF0 <= b <= 0xF4 then 4 else 1
  }

  // utf8.FullRune: false only for a proper start of a character that may still be completed.
  predicate FullRune(p: seq<byte>) {
    |p| > 0 &&
    (|p| >= ExpectedLen(p[0]) ||
     (|p| > 1 && !(SecondLow(p[0]) <= p[1] <= SecondHigh(p[0]))) ||
     (|p| > 2 && !(0x80 <= p[2] <= 0xBF)))
  }

  // Where the walk back over continuation bytes stops.
  function LastRuneStart(raw: seq<byte>, i: nat): (j: nat)
    requires i < |raw|
    ensures j <= i
    ensures forall k :: j < k <= i ==> !RuneStart(raw[k])
    ensures j == 0 || RuneStart(raw[j])
  {
    if i > 0 && !RuneStart(raw[i]) then LastRuneStart(raw, i - 1) else i
  }

  // completeTextWindow for UTF-8: drop an incomplete character at the end.
  function CompleteTextWindow(raw: seq<byte>): seq<byte> {
    if raw == [] then raw
    else
      var start := LastRuneStart(raw, |raw| - 1);
      if FullRune(raw[start..]) then raw else raw[..start]
  }

  // One past the last line feed, 0 when there is none.
  function AfterLastLF(raw: seq<byte>): (n: nat)
    ensures n <= |raw|
    ensures n > 0 ==> raw[n - 1] == 10
    ensures forall k :: n <= k < |raw| ==> raw[k] != 10
  {
    if raw == [] then 0
    else if raw[|raw| - 1] == 10 then |raw|
    else AfterLastLF(raw[..|raw| - 1])
  }

  // The bytes of one window of a chapter that ends at chapterEnd.
  function LoadWindow(file: seq<byte>, start: int, chapterEnd: int): (r: (seq<byte>, int)) {
    var (raw, loadedEnd) := ReadRange(file, start, chapterEnd, MAX_CHAPTER_WINDOW);
    if loadedEnd < chapterEnd then
      var kept := if AfterLastLF(raw) > 0 then raw[..AfterLastLF(raw)] else CompleteTextWindow(raw);
      (kept, start + |kept|)
    else (raw, loadedEnd)
  }

  // ---- Lines of a window ----

  // Length of the first physical line, terminator included.
  function PartLen(raw: seq<byte>): (n: nat)
    requires raw != []
    ensures 1 <= n <= |raw|
    ensures forall k :: 0 <= k < n - 1 ==> raw[k] != 10
    ensures raw[n - 1] == 10 || n == |raw|
  {
    if raw[0] == 10 || |raw| == 1 then 1 else 1 + PartLen(raw[1..])
  }

  function TrimByte(s: seq<byte>, c: byte): (t: seq<byte>)
    ensures t <= s && |s| - 1 <= |t|
  {
    if s != [] && s[|s| - 1] == c then s[..|s| - 1] else s
  }

  // decodeBytes for UTF-8.
  function DecodeBytes(part: seq<byte>): Result<seq<int>> {
    var text := TrimByte(TrimByte(part, 10), 13);
    if Valid(text) then Ok(Runes(text)) else Err
  }

  function RuneLen(c: int): (n: nat)
    ensures 1 <= n <= 4
  {
    if c <= 0x7F then 1 else if c <= 0x7FF then 2 else if c <= 0xFFFF then 3 else 4
  }

  // len([]byte(s)) of a string of runes.
  function EncodedLen(s: seq<int>): nat {
    if s == [] then 0 else RuneLen(s[0]) + EncodedLen(s[1..])
  }

  // The source range of every wrapped line of one physical line.
  function Segments(wrapped: seq<seq<int>>, start: int, lineEnd: int): (lines: seq<Line>)
    ensures |lines| == |wrapped|
  {
    if wrapped == [] then []
    else if |wrapped| == 1 then [Line(wrapped[0], start, lineEnd)]
    else
      var end := start + EncodedLen(wrapped[0]);
      var end := if end > lineEnd then lineEnd else end;
      [Line(wrapped[0], start, end)] + Segments(wrapped[1..], end, lineEnd)
  }

  // An empty wrap still shows one empty line.
  function WrapLines(face: Face, width: int, text: seq<int>): (wrapped: seq<seq<int>>)
    ensures wrapped != []
  {
    var wrapped := Wrapped(face.glyphs, width, text);
    if wrapped == [] then [[]] else wrapped
  }

  // What one physical line contributes.
  function Shown(doc: Document, chapterStart: int, face: Face, width: int, text: seq<int>, start: int, end: int)
    : seq<Line>
  {
    if start == chapterStart && doc.isHeading(text) then []
    else Segments(WrapLines(face, width, text), start, end)
  }

  // All lines of raw, which starts at position; the heading that opens the chapter is not shown.
  function Lines(doc: Document, chapterStart: int, face: Face, width: int, raw: seq<byte>, position: int)
    : Result<seq<Line>>
    decreases |raw|
  {
    if raw == [] then Ok([])
    else
      var n := PartLen(raw);
      match DecodeBytes(raw[..n])
      case Err => Err
      case Ok(text) =>
        match Lines(doc, chapterStart, face, width, raw[n..], position + n)
        case Err => Err
        case Ok(rest) =>
          Ok(Shown(doc, chapterStart, face, width, text, position, position + n) + rest)
  }

  // ---- Pages ----

  function PerPage(face: Face, height: int): (n: nat)
    ensures n >= 1
  {
    var lineHeight := if face.lineHeight < 1 then 1 else face.lineHeight;
    if height / lineHeight < 1 then 1 else height / lineHeight
  }

  function Texts(lines: seq<Line>): (t: seq<seq<int>>)
    ensures |t| == |lines|
  {
    if lines == [] then [] else [lines[0].text] + Texts(lines[1..])
  }

  function PageOf(lines: seq<Line>): Page
    requires lines != []
  {
    Page(Texts(lines), lines[0].start, lines[|lines| - 1].end)
  }

  function PagesOf(lines: seq<Line>, perPage: nat): seq<Page>
    requires perPage >= 1
    decreases |lines|
  {
    if lines == [] then []
    else if |lines| <= perPage then [PageOf(lines)]
    else [PageOf(lines[..perPage])] + PagesOf(lines[perPage..], perPage)
  }

  // The offset a request really starts at.
  function ClampStart(chapter: Chapter, start: int): int {
    if start < chapter.start || start >= chapter.end then chapter.start else start
  }

  // What Paginate computes.
  function Paginated(doc: Document, chapter: Chapter, start: int, face: Face, width: int, height: int)
    : Result<Window>
  {
    var start := ClampStart(chapter, start);
    var (raw, loadedEnd) := LoadWindow(doc.bytes, start, chapter.end);
    match Lines(doc, chapter.start, face, width, raw, start)
    case Err => Err
    case Ok(lines) =>
      var pages := PagesOf(lines, PerPage(face, height));
      Ok(Window(if pages == [] then [Page([], start, loadedEnd)] else pages, loadedEnd))
  }

  // ---- The loops ----

  method IndexLF(raw: seq<byte>) returns (i: int)
    ensures i == -1 ==> 10 !in raw
    ensures i != -1 ==> 0 <= i < |raw| && raw[i] == 10 && 10 !in raw[..i]
  {
    i := 0;
    while i < |raw|
      invariant 0 <= i <= |raw| && 10 !in raw[..i]
    {
      if raw[i] == 10 {
        return;
      }
      i := i + 1;
    }
    return -1;
  }

  lemma {:induction false} PartLenIs(raw: seq<byte>, n: nat)
    requires raw != [] && 1 <= n <= |raw| && 10 !in raw[..n - 1] && (raw[n - 1] == 10 || n == |raw|)
    ensures PartLen(raw) == n
  {
    assert forall k :: 0 <= k < n - 1 ==> raw[k] == raw[..n - 1][k] && raw[..n - 1][k] in raw[..n - 1];
  }

  // The wrapped lines of one physical line, placed one after the other.
  method PlaceLines(wrapped: seq<seq<int>>, lineStart: int, lineEnd: int) returns (lines: seq<Line>)
    requires wrapped != []
    ensures lines == Segments(wrapped, lineStart, lineEnd)
  {
    lines := [];
    var segmentStart := lineStart;
    assert wrapped[0..] == wrapped;
    for index := 0 to |wrapped|
      invariant Segments(wrapped, lineStart, lineEnd) == lines + Segments(wrapped[index..], segmentStart, lineEnd)
    {
      var segmentEnd := lineEnd;
      if index + 1 < |wrapped| {
        segmentEnd := segmentStart + EncodedLen(wrapped[index]);
        if segmentEnd > lineEnd {
          segmentEnd := lineEnd;
        }
      }
      PlaceOne(wrapped, lineEnd, lines, index, segmentStart, segmentEnd);
      lines := lines + [Line(wrapped[index], segmentStart, segmentEnd)];
      segmentStart := segmentEnd;
    }
    assert wrapped[|wrapped|..] == [];
  }

  lemma {:induction false} PlaceOne(wrapped: seq<seq<int>>, lineEnd: int, lines: seq<Line>, index: nat, start: int, end: int)
    requires index < |wrapped|
    requires end == if index + 1 < |wrapped| && start + EncodedLen(wrapped[index]) <= lineEnd
                    then start + EncodedLen(wrapped[index]) else lineEnd
    ensures lines + Segments(wrapped[index..], start, lineEnd) ==
            (lines + [Line(wrapped[index], start, end)]) + Segments(wrapped[index + 1..], end, lineEnd)
  {
    hide EncodedLen;
    assert wrapped[index..][0] == wrapped[index] && wrapped[index..][1..] == wrapped[index + 1..];
    Associate(lines, [Line(wrapped[index], start, end)], Segments(wrapped[index + 1..], end, lineEnd));
  }

  // Moving one physical line from the open rest to the lines already laid out.
  lemma {:induction false} TakePart(doc: Document, chapterStart: int, face: Face, width: int, raw: seq<byte>, position: int,
                 lines: seq<Line>)
    requires raw != []
    ensures var n := PartLen(raw);
            var all := Lines(doc, chapterStart, face, width, raw, position);
            var rest := Lines(doc, chapterStart, face, width, raw[n..], position + n);
            var text := DecodeBytes(raw[..n]);
            && (text.Err? || rest.Err? ==> all.Err?)
            && (text.Ok? && rest.Ok? ==>
                  all.Ok? &&
                  lines + all.value ==
                  (lines + Shown(doc, chapterStart, face, width, text.value, position, position + n)) + rest.value)
  {
    hide Shown, DecodeBytes, PartLen;
    var n := PartLen(raw);
    var text := DecodeBytes(raw[..n]);
    var rest := Lines(doc, chapterStart, face, width, raw[n..], position + n);
    if text.Ok? && rest.Ok? {
      Associate(lines, Shown(doc, chapterStart, face, width, text.value, position, position + n), rest.value);
    }
  }

  // The loop over the physical lines of the window.
  method LayOut(doc: Document, chapterStart: int, face: Face, width: int, window: seq<byte>, start: int)
    returns (result: Result<seq<Line>>)
    ensures result == Lines(doc, chapterStart, face, width, window, start)
  {
    hide Lines, Segments, DecodeBytes;
    var raw := window;
    var lines: seq<Line> := [];
    var position := start;
    ghost var whole := Lines(doc, chapterStart, face, width, raw, start);
    assert whole.Ok? ==> [] + whole.value == whole.value;
    while |raw| > 0
      invariant var rest := Lines(doc, chapterStart, face, width, raw, position);
                whole == if rest.Ok? then Ok(lines + rest.value) else Err
      decreases |raw|
    {
      var length := |raw|;
      var newline := IndexLF(raw);
      if newline >= 0 {
        length := newline + 1;
      }
      PartLenIs(raw, length);
      TakePart(doc, chapterStart, face, width, raw, position, lines);
      var part := raw[..length];
      var lineStart, lineEnd := position, position + length;
      var text := DecodeBytes(part);
      if text.Err? {
        return Err;
      }
      raw := raw[length..];
      position := lineEnd;
      if lineStart == chapterStart && doc.isHeading(text.value) {
        assert lines + [] == lines;
        continue;
      }
      var wrapped := Wrap(face.glyphs, text.value, width);
      if |wrapped| == 0 {
        wrapped := [[]];
      }
      var placed := PlaceLines(wrapped, lineStart, lineEnd);
      lines := lines + placed;
    }
    NoLinesLeft(doc, chapterStart, face, width, position);
    assert lines + [] == lines;
    return Ok(lines);
  }

  lemma {:induction false} NoLinesLeft(doc: Document, chapterStart: int, face: Face, width: int, position: int)
    ensures Lines(doc, chapterStart, face, width, [], position) == Ok([])
  {
  }

  method Paginate(doc: Document, chapter: Chapter, from: int, face: Face, width: int, height: int)
    returns (result: Result<Window>)
    ensures result == Paginated(doc, chapter, from, face, width, height)
  {
    var start := from;
    if start < chapter.start || start >= chapter.end {
      start := chapter.start;
    }
    var (raw, loadedEnd) := LoadWindow(doc.bytes, start, chapter.end);
    var lines := LayOut(doc, chapter.start, face, width, raw, start);
    if lines.Err? {
      return Err;
    }
    var lineHeight := face.lineHeight;
    if lineHeight < 1 {
      lineHeight := 1;
    }
    var perPage: nat := if height / lineHeight < 1 then 1 else height / lineHeight;
    var pages := SplitPages(lines.value, perPage);
    if |pages| == 0 {
      pages := [Page([], start, loadedEnd)];
    }
    return Ok(Window(pages, loadedEnd));
  }

  method SplitPages(lines: seq<Line>, perPage: nat) returns (pages: seq<Page>)
    requires perPage >= 1
    ensures pages == PagesOf(lines, perPage)
  {
    pages := [];
    var index := 0;
    assert lines[0..] == lines;
    while index < |lines|
      invariant index <= |lines|
      invariant PagesOf(lines, perPage) == pages + PagesOf(lines[index..], perPage)
      decreases |lines| - index
    {
      var end := index + perPage;
      if end > |lines| {
        end := |lines|;
      }
      var page := Page(Texts(lines[index..end]), lines[index].start, lines[end - 1].end);
      NextPage(lines, index, end, perPage);
      Associate(pages, [page], PagesOf(lines[end..], perPage));
      pages := pages + [page];
      index := end;
    }
  }

  lemma {:induction false} NextPage(lines: seq<Line>, index: nat, end: nat, perPage: nat)
    requires perPage >= 1 && index < end <= |lines|
    requires end == if index + perPage > |lines| then |lines| else index + perPage
    ensures PagesOf(lines[index..], perPage) == [PageOf(lines[index..end])] + PagesOf(lines[end..], perPage)
  {
    var rest := lines[index..];
    assert rest[..end - index] == lines[index..end];
    assert rest[end - index..] == lines[end..];
    if |rest| <= perPage {
      assert lines[index..end] == rest;
    }
  }
}

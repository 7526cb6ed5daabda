/**
  Re-reading part of a page: laying out the source bytes from any rune
  boundary inside a run of canonical lines to the end of that run needs at
  least one line and never more lines than the run had.
 */
module PageResume {
  import opened Utf8
  import opened Wrapping
  import opened Pager
  import opened PageTiling

  // ---- Trimming commutes with starting later ----

  function Drop(s: seq<byte>, x: nat): seq<byte> {
    if x <= |s| then s[x..] else []
  }

  lemma {:induction false} TrimDrop(s: seq<byte>, c: byte, x: nat)
    ensures TrimByte(Drop(s, x), c) == Drop(TrimByte(s, c), x)
  {
    if x < |s| {
      assert s[x..][|s[x..]| - 1] == s[|s| - 1];
      if s[|s| - 1] == c {
        assert s[x..][..|s[x..]| - 1] == s[..|s| - 1][x..];
      }
    }
  }

  lemma {:induction false} BodyDrop(part: seq<byte>, x: nat)
    ensures Body(Drop(part, x)) == Drop(Body(part), x)
  {
    var a := TrimByte(part, 10);
    var b := TrimByte(a, 13);
    TrimDrop(part, 10, x);
    TrimDrop(a, 13, x);
    TrimDrop(b, 10, x);
    TrimDrop(TrimByte(b, 10), 13, x);
  }

  // ---- Where segments start and end ----

  lemma {:induction false} FlattenUpTo(lines: seq<seq<int>>, i: nat)
    requires i <= |lines|
    ensures Before(lines, i) <= |Flatten(lines)|
    ensures Flatten(lines)[..Before(lines, i)] == Flatten(lines[..i])
  {
    if i > 0 {
      FlattenUpTo(lines[1..], i - 1);
      assert lines[..i][1..] == lines[1..][..i - 1];
    }
  }

  // Segment i starts after the encoded runes of the lines before it; all but the last end the same way.
  lemma {:induction false} SegmentAt(wrapped: seq<seq<int>>, start: int, lineEnd: int, i: nat)
    requires i < |wrapped| && start + EncodedLen(Flatten(wrapped)) <= lineEnd
    ensures Segments(wrapped, start, lineEnd)[i].start == start + EncodedLen(Flatten(wrapped[..i]))
    ensures Segments(wrapped, start, lineEnd)[i].end ==
            if i == |wrapped| - 1 then lineEnd else start + EncodedLen(Flatten(wrapped[..i + 1]))
  {
    hide Flatten, EncodedLen;
    FlattenTake(wrapped, |wrapped|);
    assert wrapped[..|wrapped|] == wrapped && wrapped[1..][..|wrapped| - 1] == wrapped[1..];
    FlattenTake(wrapped, i + 1);
    if i == 0 {
      FlattenNone(wrapped);
      FlattenNone(wrapped[1..]);
    } else {
      FlattenTake(wrapped, i);
      SegmentAt(wrapped[1..], start + EncodedLen(wrapped[0]), lineEnd, i - 1);
    }
  }

  lemma {:induction false} FlattenNone(wrapped: seq<seq<int>>)
    ensures EncodedLen(Flatten(wrapped[..0])) == 0
  {
  }

  lemma {:induction false} FlattenTake(wrapped: seq<seq<int>>, i: nat)
    requires 0 < i <= |wrapped|
    ensures EncodedLen(Flatten(wrapped[..i])) ==
            EncodedLen(wrapped[0]) + EncodedLen(Flatten(wrapped[1..][..i - 1]))
  {
    assert wrapped[..i][1..] == wrapped[1..][..i - 1];
    EncodedLenConcat(wrapped[0], Flatten(wrapped[1..][..i - 1]));
  }

  // The same in runes of the wrapped text.
  lemma {:induction false} GreedySegmentAt(g: Glyphs, w: int, u: seq<int>, start: int, lineEnd: int, i: nat)
    requires i < |Greedy(g, w, u)| && start + EncodedLen(u) <= lineEnd
    ensures Before(Greedy(g, w, u), i) <= Before(Greedy(g, w, u), i + 1) <= |u|
    ensures var s := Segments(Greedy(g, w, u), start, lineEnd)[i];
            && s.start == start + EncodedLen(u[..Before(Greedy(g, w, u), i)])
            && s.end == if i == |Greedy(g, w, u)| - 1 then lineEnd
                        else start + EncodedLen(u[..Before(Greedy(g, w, u), i + 1)])
  {
    hide Segments, Greedy, Flatten, EncodedLen, Before;
    var lines := Greedy(g, w, u);
    GreedyIsLayout(g, w, u);
    SegmentAt(lines, start, lineEnd, i);
    FlattenUpTo(lines, i);
    FlattenUpTo(lines, i + 1);
    BeforeOfPrefix(lines, i, i + 1);
  }

  lemma {:induction false} EncodedLenMonotone(u: seq<int>, p: nat, q: nat)
    requires p < q <= |u|
    ensures EncodedLen(u[..p]) < EncodedLen(u[..q])
  {
    assert u[..q] == u[..p] + u[p..q];
    EncodedLenConcat(u[..p], u[p..q]);
    assert u[p..q] != [];
  }

  // Rune index of a boundary of valid text.
  lemma {:induction false} RuneIndex(s: seq<byte>, x: nat) returns (k: nat)
    requires Valid(s) && Boundary(s, x)
    ensures k <= |Runes(s)| && EncodedLen(Runes(s)[..k]) == x
    ensures Valid(s[x..]) && Runes(s[..x]) == Runes(s)[..k] && Runes(s[x..]) == Runes(s)[k..]
  {
    hide Runes, EncodedLen, Valid;
    BoundaryRest(s, x);
    k := |Runes(s[..x])|;
    EncodedLenOfRunes(s[..x]);
  }

  // The runes between two boundaries.
  lemma {:induction false} RunesBetween(s: seq<byte>, x: nat, y: nat, from: nat, to: nat)
    requires Valid(s) && x <= y <= |s| && Boundary(s, x)
    requires from <= to <= |Runes(s)|
    requires EncodedLen(Runes(s)[..from]) == x && EncodedLen(Runes(s)[..to]) == y
    ensures Valid(s[x..y]) && Runes(s[x..y]) == Runes(s)[from..to]
  {
    hide Runes, EncodedLen, Valid;
    var r := Runes(s);
    ValidIsEncoded(s);
    var f := RuneIndex(s, x);
    if f < from { EncodedLenMonotone(r, f, from); }
    if from < f { EncodedLenMonotone(r, from, f); }
    PrefixByRunes(s, to);
    var t := RuneIndex(s, y);
    if t < to { EncodedLenMonotone(r, t, to); }
    if to < t { EncodedLenMonotone(r, to, t); }
    var p := s[..y];
    assert p[..x] == s[..x];
    BoundaryRest(p, x);
    assert p[x..] == s[x..y];
    assert r[..to] == r[..from] + Runes(s[x..y]);
    assert r[..to][from..] == r[from..to];
  }

  // A whole number of runes ends on a boundary.
  lemma {:induction false} PrefixByRunes(s: seq<byte>, k: nat)
    requires Valid(s) && k <= |Runes(s)|
    ensures EncodedLen(Runes(s)[..k]) <= |s| && Boundary(s, EncodedLen(Runes(s)[..k]))
  {
    hide Runes, EncodedLen, Valid, EncodeAll;
    var r := Runes(s);
    ValidIsEncoded(s);
    EncodeConcat(r[..k], r[k..]);
    assert r[..k] + r[k..] == r;
    EncodedLenIs(r[..k]);
    EncodedIsValid(r[..k]);
    assert s[..|EncodeAll(r[..k])|] == EncodeAll(r[..k]);
  }

  lemma {:induction false} EncodeConcat(a: seq<int>, b: seq<int>)
    requires AllScalar(a) && AllScalar(b)
    ensures AllScalar(a + b) && EncodeAll(a + b) == EncodeAll(a) + EncodeAll(b)
  {
    if a == [] {
      assert a + b == b;
    } else {
      EncodeConcat(a[1..], b);
      assert (a + b)[1..] == a[1..] + b;
      Associate(Encode(a[0]), EncodeAll(a[1..]), EncodeAll(b));
    }
  }

  // ---- One physical line ----

  function PartSegments(face: Face, width: int, part: seq<byte>, pos: int): (segments: seq<Line>)
    requires Valid(Body(part))
    ensures |segments| == |BodyLines(face, width, part)|
  {
    Segments(BodyLines(face, width, part), pos, pos + |part|)
  }

  // From inside segment a to the end of the physical line.
  lemma {:induction false} StretchToPartEnd(face: Face, width: int, part: seq<byte>, pos: int, a: nat, x: nat)
    requires Valid(part) && Valid(Body(part)) && a < |BodyLines(face, width, part)|
    requires x < |part| && Boundary(part, x) && PartSegments(face, width, part, pos)[a].start <= pos + x
    ensures Valid(part[x..]) && Valid(Body(part[x..]))
    ensures |BodyLines(face, width, part[x..])| <= |BodyLines(face, width, part)| - a
  {
    hide Runes, EncodedLen, Valid, Body, Segments, Greedy, Flatten, Before;
    BoundaryRest(part, x);
    BodyRunes(part[x..]);
    BodyDrop(part, x);
    var body := Body(part);
    if width > 0 && x < |body| {
      assert body[..x] == part[..x];
      var from := RuneIndex(body, x);
      var u := Runes(body);
      var g := face.glyphs;
      EncodedLenOfRunes(body);
      GreedySegmentAt(g, width, u, pos, pos + |part|, a);
      var k := Before(Greedy(g, width, u), a);
      if from < k { EncodedLenMonotone(u, from, k); }
      StretchToEnd(g, width, u, a, from);
    }
  }

  // From inside segment a to the end of a later segment that is not the last.
  lemma {:induction false} StretchInside(face: Face, width: int, part: seq<byte>, pos: int, a: nat, b: nat, x: nat, y: nat)
    requires Valid(part) && Valid(Body(part)) && a < b < |BodyLines(face, width, part)|
    requires x < y <= |part| && Boundary(part, x)
    requires PartSegments(face, width, part, pos)[a].start <= pos + x
    requires PartSegments(face, width, part, pos)[b - 1].end == pos + y
    ensures Valid(part[x..y]) && Valid(Body(part[x..y]))
    ensures |BodyLines(face, width, part[x..y])| <= b - a
  {
    hide Runes, EncodedLen, Valid, Body, Segments, Greedy, Flatten, Before;
    var body := Body(part);
    var u := Runes(body);
    var g := face.glyphs;
    EncodedLenOfRunes(body);
    GreedySegmentAt(g, width, u, pos, pos + |part|, a);
    GreedySegmentAt(g, width, u, pos, pos + |part|, b - 1);
    var lines := Greedy(g, width, u);
    var k, to := Before(lines, a), Before(lines, b);
    PrefixByRunes(body, to);
    assert body[..x] == part[..x];
    var from := RuneIndex(body, x);
    if from < k { EncodedLenMonotone(u, from, k); }
    if to <= from { EncodedLenAtMost(u, to, from); }
    RunesBetween(body, x, y, from, to);
    assert body[x..y] == part[x..y];
    StretchShown(face, width, part[x..y], u, a, b, from, to);
  }

  lemma {:induction false} EncodedLenAtMost(u: seq<int>, p: nat, q: nat)
    requires p <= q <= |u|
    ensures EncodedLen(u[..p]) <= EncodedLen(u[..q])
  {
    if p < q {
      EncodedLenMonotone(u, p, q);
    }
  }

  // Whatever trimming the shorter piece loses, it does not gain lines.
  lemma {:induction false} StretchShown(face: Face, width: int, piece: seq<byte>, u: seq<int>, a: nat, b: nat, from: nat, to: nat)
    requires width > 0 && Valid(piece) && from <= to <= |u| && Runes(piece) == u[from..to]
    requires a < b <= |Greedy(face.glyphs, width, u)|
    requires Before(Greedy(face.glyphs, width, u), a) <= from
    requires to <= Before(Greedy(face.glyphs, width, u), b) <= |u|
    ensures Valid(Body(piece)) && |BodyLines(face, width, piece)| <= b - a
  {
    hide Runes, EncodedLen, Valid, Body, Segments, Greedy, Flatten, Before;
    BodyRunes(piece);
    var body := Body(piece);
    if body != [] {
      assert piece[..|body|] == body;
      var n := RuneIndex(piece, |body|);
      assert u[from..to][..n] == u[from..from + n];
      StretchNoMore(face.glyphs, width, u, a, b, from, from + n);
    }
  }

  // From inside segment a to the end of segment b - 1.
  lemma {:induction false} PartStretch(face: Face, width: int, part: seq<byte>, pos: int, a: nat, b: nat, x: nat, y: nat)
    requires Valid(part) && Valid(Body(part)) && a < b <= |BodyLines(face, width, part)|
    requires x < y <= |part| && Boundary(part, x)
    requires PartSegments(face, width, part, pos)[a].start <= pos + x
    requires PartSegments(face, width, part, pos)[b - 1].end == pos + y
    ensures Valid(part[x..y]) && Valid(Body(part[x..y]))
    ensures |BodyLines(face, width, part[x..y])| <= b - a
  {
    hide *;
    if b < |BodyLines(face, width, part)| {
      StretchInside(face, width, part, pos, a, b, x, y);
    } else {
      StretchToPartEnd(face, width, part, pos, a, x);
      LastSegmentEnd(face, width, part, pos);
      assert part[x..y] == part[x..];
    }
  }

  lemma {:induction false} LastSegmentEnd(face: Face, width: int, part: seq<byte>, pos: int)
    requires Valid(Body(part))
    ensures var s := PartSegments(face, width, part, pos); s[|s| - 1].end == pos + |part|
  {
    hide Body, Segments, BodyLines;
    LastSegment(BodyLines(face, width, part), pos, pos + |part|);
  }

  lemma {:induction false} LastSegment(wrapped: seq<seq<int>>, start: int, lineEnd: int)
    requires wrapped != []
    ensures Segments(wrapped, start, lineEnd)[|wrapped| - 1].end == lineEnd
  {
    if |wrapped| > 1 {
      var end := start + EncodedLen(wrapped[0]);
      LastSegment(wrapped[1..], if end > lineEnd then lineEnd else end, lineEnd);
    }
  }

  // ---- Several physical lines ----

  // The first physical line's segments, then the rest.
  lemma {:induction false} FirstPart(doc: Document, chapterStart: int, face: Face, width: int, raw: seq<byte>, position: int)
    returns (n: nat, segments: seq<Line>, rest: seq<Line>)
    requires Valid(raw) && raw != [] && chapterStart <= position
    requires HeadingLen(doc, chapterStart, raw, position) == 0
    ensures 1 <= n <= |raw| && n == PartLen(raw) && Valid(raw[..n]) && Valid(raw[n..])
    ensures Valid(Body(raw[..n])) && segments == PartSegments(face, width, raw[..n], position)
    ensures Lines(doc, chapterStart, face, width, raw[n..], position + n) == Ok(rest)
    ensures Lines(doc, chapterStart, face, width, raw, position) == Ok(segments + rest)
    ensures Tiles(segments, position, position + n) && Tiles(rest, position + n, position + |raw|)
    ensures HeadingLen(doc, chapterStart, raw[n..], position + n) == 0
    ensures n < |raw| ==> raw[n - 1] == 10
  {
    hide Lines, Segments, Tiles, Body, BodyLines, DecodeBytes, Valid, WrapLines, HeadingLen, Shown;
    n := PartLen(raw);
    PartIsValid(raw);
    WrapLinesOfPart(face, width, raw[..n]);
    segments := PartSegments(face, width, raw[..n], position);
    PartTiles(face, width, raw[..n], position);
    LinesTile(doc, chapterStart, face, width, raw[n..], position + n);
    rest := Lines(doc, chapterStart, face, width, raw[n..], position + n).value;
    LinesUnfold(doc, chapterStart, face, width, raw, position);
    HeadingHides(doc, chapterStart, face, width, raw, position);
    NoHeadingLater(doc, chapterStart, raw[n..], position + n);
  }

  lemma {:induction false} NoHeadingLater(doc: Document, chapterStart: int, raw: seq<byte>, position: int)
    requires position != chapterStart
    ensures HeadingLen(doc, chapterStart, raw, position) == 0
  {
  }

  // A piece without an inner line feed is one physical line.
  lemma {:induction false} SinglePart(doc: Document, chapterStart: int, face: Face, width: int, piece: seq<byte>, offset: int)
    requires Valid(piece) && piece != [] && chapterStart < offset
    requires forall k :: 0 <= k < |piece| - 1 ==> piece[k] != 10
    ensures Valid(Body(piece))
    ensures Lines(doc, chapterStart, face, width, piece, offset) == Ok(PartSegments(face, width, piece, offset))
  {
    hide Lines, Body, Valid, HeadingLen, PartSegments, Tiles;
    NoHeadingLater(doc, chapterStart, piece, offset);
    var n, segments, rest := FirstPart(doc, chapterStart, face, width, piece, offset);
    assert n == |piece|;
    assert piece[..n] == piece && piece[n..] == [];
    NoLinesLeft(doc, chapterStart, face, width, offset + n);
    assert segments + [] == segments;
  }

  // A piece inside the first physical line.
  lemma {:induction false} ResumeInPart(doc: Document, chapterStart: int, face: Face, width: int, part: seq<byte>, position: int,
                     a: nat, b: nat, offset: int) returns (piece: seq<byte>, lines: seq<Line>)
    requires Valid(part) && Valid(Body(part)) && part != [] && chapterStart < offset
    requires forall k :: 0 <= k < |part| - 1 ==> part[k] != 10
    requires Tiles(PartSegments(face, width, part, position), position, position + |part|)
    requires a < b <= |PartSegments(face, width, part, position)|
    requires PartSegments(face, width, part, position)[a].start <= offset
                 < PartSegments(face, width, part, position)[a].end
    requires Boundary(part, offset - position)
    ensures offset < PartSegments(face, width, part, position)[b - 1].end <= position + |part|
    ensures piece == part[offset - position..PartSegments(face, width, part, position)[b - 1].end - position]
    ensures Valid(piece) && Lines(doc, chapterStart, face, width, piece, offset) == Ok(lines)
    ensures 1 <= |lines| <= b - a
  {
    hide Lines, Body, Valid, PartSegments, Tiles, BodyLines;
    var segments := PartSegments(face, width, part, position);
    TilesGrow(segments, position, position + |part|);
    TilesOrdered(segments, position, position + |part|, a, b - 1);
    var x, y := offset - position, segments[b - 1].end - position;
    PartStretch(face, width, part, position, a, b, x, y);
    piece := part[x..y];
    SinglePart(doc, chapterStart, face, width, piece, offset);
    lines := PartSegments(face, width, piece, offset);
  }

  lemma {:induction false} TilesOrdered(lines: seq<Line>, a: int, b: int, i: nat, j: nat)
    requires Tiles(lines, a, b) && i <= j < |lines|
    ensures lines[i].end <= lines[j].end && (i < j ==> lines[i].end <= lines[j].start)
    decreases j - i
  {
    TilesGrow(lines, a, b);
    if i < j {
      TilesOrdered(lines, a, b, i, j - 1);
    }
  }

  // A physical line in front of a piece: its lines come first.
  lemma {:induction false} PrependPart(doc: Document, chapterStart: int, face: Face, width: int, first: seq<byte>, tail: seq<byte>,
                    offset: int, lines: seq<Line>, rest: seq<Line>)
    requires Valid(first) && Valid(tail) && first != [] && first[|first| - 1] == 10
    requires forall k :: 0 <= k < |first| - 1 ==> first[k] != 10
    requires chapterStart < offset
    requires Lines(doc, chapterStart, face, width, first, offset) == Ok(lines)
    requires Lines(doc, chapterStart, face, width, tail, offset + |first|) == Ok(rest)
    ensures Valid(first + tail)
    ensures Lines(doc, chapterStart, face, width, first + tail, offset) == Ok(lines + rest)
  {
    hide Lines, Body, Valid, PartSegments, Tiles, HeadingLen, Runes;
    var piece := first + tail;
    ValidConcat(first, tail);
    PartLenIs(piece, |first|);
    NoHeadingLater(doc, chapterStart, piece, offset);
    var n, segments, more := FirstPart(doc, chapterStart, face, width, piece, offset);
    assert piece[..|first|] == first && piece[|first|..] == tail;
    SinglePart(doc, chapterStart, face, width, first, offset);
  }

  // Laying out lines a .. b - 1 again from a boundary inside line a.
  lemma {:induction false} ResumeLines(doc: Document, chapterStart: int, face: Face, width: int, raw: seq<byte>,
                                       position: int, lines: seq<Line>, a: nat, b: nat, offset: int)
    returns (piece: seq<byte>, again: seq<Line>)
    requires Valid(raw) && chapterStart <= position && chapterStart < offset
    requires HeadingLen(doc, chapterStart, raw, position) == 0
    requires Lines(doc, chapterStart, face, width, raw, position) == Ok(lines)
    requires a < b <= |lines|
    requires lines[a].start <= offset < lines[a].end && Boundary(raw, offset - position)
    ensures position <= offset < lines[b - 1].end <= position + |raw|
    ensures piece == raw[offset - position..lines[b - 1].end - position]
    ensures Valid(piece) && Lines(doc, chapterStart, face, width, piece, offset) == Ok(again)
    ensures 1 <= |again| <= b - a
    decreases |raw|
  {
    hide *;
    if raw == [] {
      NoLinesLeft(doc, chapterStart, face, width, position);
      assert false;
    }
    var n, segments, rest := FirstPart(doc, chapterStart, face, width, raw, position);
    var m := |segments|;
    var next := position + n;
    TilesGrow(segments, position, next);
    TilesGrow(rest, next, position + |raw|);
    if a >= m {
      assert lines[a] == rest[a - m] && lines[b - 1] == rest[b - 1 - m];
      RestBoundary(raw, n, offset - position);
      piece, again := ResumeLines(doc, chapterStart, face, width, raw[n..], next, rest, a - m, b - m, offset);
      SliceOfRest(raw, n, offset - position, lines[b - 1].end - position);
    } else {
      assert lines[a] == segments[a];
      var part := raw[..n];
      PartBoundary(raw, n, offset - position);
      if b <= m {
        assert lines[b - 1] == segments[b - 1];
        piece, again := ResumeInPart(doc, chapterStart, face, width, part, position, a, b, offset);
        SliceOfPart(raw, n, offset - position, lines[b - 1].end - position);
      } else {
        assert lines[b - 1] == rest[b - 1 - m];
        NothingRead(raw[n..]);
        TilesHead(rest, next, position + |raw|);
        var tail, tailLines := ResumeLines(doc, chapterStart, face, width, raw[n..], next, rest, 0, b - m, next);
        SliceAcross(raw, n, offset - position, lines[b - 1].end - position);
        piece, again := ResumeAcross(doc, chapterStart, face, width, part, position, a, offset, tail, tailLines);
      }
    }
  }

  // The piece runs past the first physical line: the rest of that line, then what was already re-read.
  lemma {:induction false} ResumeAcross(doc: Document, chapterStart: int, face: Face, width: int, part: seq<byte>, position: int,
                     a: nat, offset: int, tail: seq<byte>, tailLines: seq<Line>)
    returns (piece: seq<byte>, lines: seq<Line>)
    requires Valid(part) && Valid(Body(part)) && part != [] && chapterStart < offset
    requires part[|part| - 1] == 10 && forall k :: 0 <= k < |part| - 1 ==> part[k] != 10
    requires Tiles(PartSegments(face, width, part, position), position, position + |part|)
    requires a < |PartSegments(face, width, part, position)|
    requires PartSegments(face, width, part, position)[a].start <= offset
                 < PartSegments(face, width, part, position)[a].end
    requires Boundary(part, offset - position)
    requires Valid(tail) && Lines(doc, chapterStart, face, width, tail, position + |part|) == Ok(tailLines)
    ensures offset < position + |part|
    ensures piece == part[offset - position..|part|] + tail
    ensures Valid(piece) && Lines(doc, chapterStart, face, width, piece, offset) == Ok(lines)
    ensures 1 + |tailLines| <= |lines| <= |PartSegments(face, width, part, position)| - a + |tailLines|
  {
    hide Lines, Body, Valid, PartSegments, Tiles, BodyLines;
    var m := |PartSegments(face, width, part, position)|;
    var first, firstLines := ResumeInPart(doc, chapterStart, face, width, part, position, a, m, offset);
    LastSegmentEnd(face, width, part, position);
    PrependPart(doc, chapterStart, face, width, first, tail, offset, firstLines, tailLines);
    piece, lines := first + tail, firstLines + tailLines;
  }

  lemma {:induction false} SliceOfRest<T>(s: seq<T>, n: nat, x: nat, y: nat)
    requires n <= x <= y <= |s|
    ensures s[n..][x - n..y - n] == s[x..y]
  {
  }

  lemma {:induction false} SliceOfPart<T>(s: seq<T>, n: nat, x: nat, y: nat)
    requires x <= y <= n <= |s|
    ensures s[..n][x..y] == s[x..y] && s[..n][..x] == s[..x]
  {
  }

  lemma {:induction false} SliceAcross<T>(s: seq<T>, n: nat, x: nat, y: nat)
    requires x <= n <= y <= |s|
    ensures s[..n][x..n] + s[n..][0..y - n] == s[x..y]
  {
  }

  lemma {:induction false} TilesHead(lines: seq<Line>, a: int, b: int)
    requires Tiles(lines, a, b) && lines != []
    ensures lines[0].start == a
  {
  }

  lemma {:induction false} NothingRead(s: seq<byte>)
    ensures Boundary(s, 0)
  {
    assert s[..0] == [];
  }

  lemma {:induction false} PartBoundary(raw: seq<byte>, n: nat, x: nat)
    requires x <= n <= |raw| && Boundary(raw, x)
    ensures Boundary(raw[..n], x)
  {
    assert raw[..n][..x] == raw[..x];
  }

  lemma {:induction false} RestBoundary(raw: seq<byte>, n: nat, x: nat)
    requires Valid(raw) && n <= x <= |raw| && Valid(raw[..n]) && Boundary(raw, x)
    ensures Boundary(raw[n..], x - n)
  {
    assert raw[..n] + raw[n..x] == raw[..x];
    ValidRest(raw[..n], raw[n..x]);
    assert raw[n..][..x - n] == raw[n..x];
  }

  // ---- Lines never split a character ----

  lemma {:induction false} SegmentBoundary(face: Face, width: int, part: seq<byte>, pos: int, i: nat)
    requires Valid(part) && Valid(Body(part)) && i < |BodyLines(face, width, part)|
    ensures Boundary(part, PartSegments(face, width, part, pos)[i].start - pos)
  {
    hide Runes, EncodedLen, Valid, Body, Segments, Greedy, Flatten, Before;
    var body := Body(part);
    NothingRead(part);
    if width > 0 && body != [] {
      var u := Runes(body);
      EncodedLenOfRunes(body);
      GreedySegmentAt(face.glyphs, width, u, pos, pos + |part|, i);
      var k := Before(Greedy(face.glyphs, width, u), i);
      PrefixByRunes(body, k);
      assert body[..EncodedLen(u[..k])] == part[..EncodedLen(u[..k])];
    } else {
      SingleSegment(pos, pos + |part|);
    }
  }

  lemma {:induction false} SingleSegment(start: int, lineEnd: int)
    ensures Segments([[]], start, lineEnd) == [Line([], start, lineEnd)]
  {
  }

  lemma {:induction false} LineBoundary(doc: Document, chapterStart: int, face: Face, width: int, raw: seq<byte>,
                                        position: int, lines: seq<Line>, i: nat)
    requires Valid(raw) && chapterStart <= position && HeadingLen(doc, chapterStart, raw, position) == 0
    requires Lines(doc, chapterStart, face, width, raw, position) == Ok(lines) && i < |lines|
    ensures Boundary(raw, lines[i].start - position)
    decreases |raw|
  {
    hide *;
    NoLinesLeft(doc, chapterStart, face, width, position);
    var n, segments, rest := FirstPart(doc, chapterStart, face, width, raw, position);
    if i < |segments| {
      SegmentBoundary(face, width, raw[..n], position, i);
      WidenBoundary(raw, n, lines[i].start - position);
    } else {
      LineBoundary(doc, chapterStart, face, width, raw[n..], position + n, rest, i - |segments|);
      ShiftBoundary(raw, n, lines[i].start - position);
    }
  }

  lemma {:induction false} WidenBoundary(raw: seq<byte>, n: nat, x: int)
    requires n <= |raw| && Boundary(raw[..n], x)
    ensures Boundary(raw, x)
  {
    assert raw[..n][..x] == raw[..x];
  }

  lemma {:induction false} ShiftBoundary(raw: seq<byte>, n: nat, x: int)
    requires n <= |raw| && Valid(raw[..n]) && Boundary(raw[n..], x - n)
    ensures Boundary(raw, x)
  {
    hide Valid, Runes;
    ValidConcat(raw[..n], raw[n..][..x - n]);
    assert raw[..n] + raw[n..][..x - n] == raw[..x];
  }
}

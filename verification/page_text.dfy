/**
  What a page shows: the bytes of the file between its start and its end, in
  their order, less the ends of the physical lines, broken into lines only
  where a line ends or the next rune would not fit.
 */
module PageText {
  import opened Utf8
  import opened Wrapping
  import opened Pager
  import opened PageTiling
  import opened PageResume
  import opened WindowLoading
  import opened ChapterPages
  import opened CanonicalPages
  import opened ReadWindowProof

  // ---- Line ends ----

  predicate EndsLine(raw: seq<byte>, i: nat) {
    i == |raw| || (i < |raw| && raw[i] == 10)
  }

  // A line feed, or one of at most two carriage returns right before it or before the end of what was read.
  predicate Terminates(raw: seq<byte>, i: nat)
    requires i < |raw|
  {
    raw[i] == 10 ||
    (raw[i] == 13 && (EndsLine(raw, i + 1) || (i + 1 < |raw| && raw[i + 1] == 13 && EndsLine(raw, i + 2))))
  }

  // The bytes from a to b that are not part of a line end.
  function Kept(raw: seq<byte>, a: nat, b: nat): seq<byte>
    requires a <= b <= |raw|
    decreases b - a
  {
    if a == b then [] else (if Terminates(raw, a) then [] else [raw[a]]) + Kept(raw, a + 1, b)
  }

  lemma {:induction false} KeptConcat(raw: seq<byte>, a: nat, m: nat, b: nat)
    requires a <= m <= b <= |raw|
    ensures Kept(raw, a, b) == Kept(raw, a, m) + Kept(raw, m, b)
    decreases m - a
  {
    hide Terminates;
    if a < m {
      KeptConcat(raw, a + 1, m, b);
    }
  }

  lemma {:induction false} KeptAll(raw: seq<byte>, a: nat, b: nat)
    requires a <= b <= |raw| && forall i :: a <= i < b ==> !Terminates(raw, i)
    ensures Kept(raw, a, b) == raw[a..b]
    decreases b - a
  {
    hide Terminates;
    if a < b {
      KeptAll(raw, a + 1, b);
      assert raw[a..b] == [raw[a]] + raw[a + 1..b];
    }
  }

  lemma {:induction false} KeptNone(raw: seq<byte>, a: nat, b: nat)
    requires a <= b <= |raw| && forall i :: a <= i < b ==> Terminates(raw, i)
    ensures Kept(raw, a, b) == []
    decreases b - a
  {
    hide Terminates;
    if a < b {
      KeptNone(raw, a + 1, b);
    }
  }

  lemma {:induction false} KeptNothing(raw: seq<byte>, a: nat)
    requires a <= |raw|
    ensures Kept(raw, a, a) == []
  {
  }

  lemma {:induction false} KeptUnfold(raw: seq<byte>, a: nat, b: nat)
    requires a < b <= |raw|
    ensures Kept(raw, a, b) == (if Terminates(raw, a) then [] else [raw[a]]) + Kept(raw, a + 1, b)
  {
    hide Terminates;
  }

  // What follows does not matter for a physical line, nor what comes before it.
  lemma {:induction false} KeptInPart(raw: seq<byte>, n: nat, a: nat, b: nat)
    requires a <= b <= n <= |raw| && (n == |raw| || (n > 0 && raw[n - 1] == 10))
    ensures Kept(raw, a, b) == Kept(raw[..n], a, b)
    decreases b - a
  {
    hide *;
    if a == b {
      KeptNothing(raw, a);
      KeptNothing(raw[..n], a);
    } else {
      EndInPart(raw, n, a);
      KeptUnfold(raw, a, b);
      KeptUnfold(raw[..n], a, b);
      KeptInPart(raw, n, a + 1, b);
    }
  }

  lemma {:induction false} EndInPart(raw: seq<byte>, n: nat, a: nat)
    requires a < n <= |raw| && (n == |raw| || raw[n - 1] == 10)
    ensures Terminates(raw, a) <==> Terminates(raw[..n], a)
  {
    var part := raw[..n];
    assert part[a] == raw[a] && part[n - 1] == raw[n - 1];
    assert a + 1 < n ==> part[a + 1] == raw[a + 1];
    assert a + 2 < n ==> part[a + 2] == raw[a + 2];
  }

  lemma {:induction false} KeptInRest(raw: seq<byte>, n: nat, a: nat, b: nat)
    requires n <= a <= b <= |raw|
    ensures Kept(raw, a, b) == Kept(raw[n..], a - n, b - n)
    decreases b - a
  {
    hide *;
    if a == b {
      KeptNothing(raw, a);
      KeptNothing(raw[n..], a - n);
    } else {
      EndInRest(raw, n, a);
      KeptUnfold(raw, a, b);
      KeptUnfold(raw[n..], a - n, b - n);
      KeptInRest(raw, n, a + 1, b);
    }
  }

  lemma {:induction false} EndInRest(raw: seq<byte>, n: nat, a: nat)
    requires n <= a < |raw|
    ensures Terminates(raw, a) <==> Terminates(raw[n..], a - n)
  {
    var rest := raw[n..];
    assert rest[a - n] == raw[a];
    assert a + 1 < |raw| ==> rest[a + 1 - n] == raw[a + 1];
    assert a + 2 < |raw| ==> rest[a + 2 - n] == raw[a + 2];
  }

  // A physical line keeps its body.
  lemma {:induction false} BodyIsKept(part: seq<byte>)
    requires forall k :: 0 <= k < |part| - 1 ==> part[k] != 10
    ensures forall i :: 0 <= i < |Body(part)| ==> !Terminates(part, i)
    ensures forall i :: |Body(part)| <= i < |part| ==> Terminates(part, i)
  {
  }

  lemma {:induction false} KeptOfBody(part: seq<byte>, a: nat, b: nat)
    requires a <= b <= |Body(part)| && forall k :: 0 <= k < |part| - 1 ==> part[k] != 10
    ensures Kept(part, a, b) == Body(part)[a..b] && Kept(part, a, |part|) == Body(part)[a..]
  {
    BodyIsKept(part);
    var n := |Body(part)|;
    KeptAll(part, a, b);
    KeptAll(part, a, n);
    KeptNone(part, n, |part|);
    KeptConcat(part, a, n, |part|);
    assert Body(part) == part[..n];
    hide Body, Terminates, Kept;
  }

  // ---- Lines ----

  // The line is the text of its range, which does not go past the end of a physical line.
  predicate LineShows(line: Line, raw: seq<byte>, position: int) {
    && position <= line.start < line.end <= position + |raw|
    && AllScalar(line.text) && EncodeAll(line.text) == Kept(raw, line.start - position, line.end - position)
    && forall k :: line.start - position <= k < line.end - position - 1 ==> raw[k] != 10
  }

  predicate FitsOrEmpty(text: seq<int>, g: Glyphs, w: int) {
    text == [] || Fits(g, w, text)
  }

  // A line that ends before its physical line does is full.
  predicate FullBefore(line: Line, next: Line, g: Glyphs, w: int, raw: seq<byte>, position: int) {
    && position < line.end <= position + |raw|
    && (raw[line.end - position - 1] != 10 ==> next.text != [] && Width(g, line.text) + g(next.text[0]) > w)
  }

  predicate Shows(lines: seq<Line>, g: Glyphs, w: int, raw: seq<byte>, position: int) {
    && (forall i :: 0 <= i < |lines| ==> LineShows(lines[i], raw, position) && FitsOrEmpty(lines[i].text, g, w))
    && (forall i :: 0 < i < |lines| ==> FullBefore(lines[i - 1], lines[i], g, w, raw, position))
  }

  lemma {:induction false} GreedyIsFull(g: Glyphs, w: int, s: seq<int>)
    ensures forall i :: 0 < i < |Greedy(g, w, s)| ==> Width(g, Greedy(g, w, s)[i - 1]) + g(Greedy(g, w, s)[i][0]) > w
    decreases |s|
  {
    if s != [] {
      var n := GreedyUnfold(g, w, s);
      var rest := Greedy(g, w, s[n..]);
      GreedyIsFull(g, w, s[n..]);
      if n < |s| {
        var m := GreedyUnfold(g, w, s[n..]);
        NextDoesNotFit(g, w, s, n);
        assert rest[0][0] == s[n];
      }
      hide Greedy, Width, FirstLine;
      assert forall i :: 0 < i < |Greedy(g, w, s)| ==> Greedy(g, w, s)[i] == rest[i - 1];
    }
  }

  lemma {:induction false} NextDoesNotFit(g: Glyphs, w: int, s: seq<int>, n: nat)
    requires s != [] && n == FirstLine(g, w, s) && 1 <= n < |s|
    ensures Width(g, s[..n]) + g(s[n]) > w
  {
    FirstLineLongest(g, w, s);
    assert !Fits(g, w, s[..n + 1]);
    assert s[..n + 1] == s[..n] + [s[n]];
    WidthConcat(g, s[..n], [s[n]]);
    hide FirstLine;
  }

  lemma {:induction false} ShowsCons(line: Line, rest: seq<Line>, g: Glyphs, w: int, raw: seq<byte>, position: int)
    requires LineShows(line, raw, position) && FitsOrEmpty(line.text, g, w) && Shows(rest, g, w, raw, position)
    requires rest != [] ==> FullBefore(line, rest[0], g, w, raw, position)
    ensures Shows([line] + rest, g, w, raw, position)
  {
    hide LineShows, FitsOrEmpty, FullBefore;
    var lines := [line] + rest;
    assert forall i :: 0 < i < |lines| ==> lines[i] == rest[i - 1];
    forall i | 0 < i < |lines| ensures FullBefore(lines[i - 1], lines[i], g, w, raw, position) {
      assert i > 1 ==> lines[i - 1] == rest[i - 2];
    }
  }

  // The lines a physical line is broken into, from its byte `at` on.
  ghost predicate Broken(part: seq<byte>, wrapped: seq<seq<int>>, at: nat, g: Glyphs, w: int) {
    && at <= |Body(part)| && at < |part| && wrapped != [] && (|wrapped| == 1 || NonemptyLines(wrapped))
    && AllScalar(Flatten(wrapped)) && EncodeAll(Flatten(wrapped)) == Body(part)[at..]
    && (forall i :: 0 <= i < |wrapped| ==> FitsOrEmpty(wrapped[i], g, w))
    && (forall i :: 0 < i < |wrapped| ==> wrapped[i] != [] && Width(g, wrapped[i - 1]) + g(wrapped[i][0]) > w)
  }

  predicate OneLine(part: seq<byte>) {
    part != [] && forall k :: 0 <= k < |part| - 1 ==> part[k] != 10
  }

  lemma {:induction false} LastSegment(part: seq<byte>, wrapped: seq<seq<int>>, at: nat, position: int, g: Glyphs, w: int)
    requires OneLine(part) && Broken(part, wrapped, at, g, w) && |wrapped| == 1
    ensures LineShows(Line(wrapped[0], position + at, position + |part|), part, position) && FitsOrEmpty(wrapped[0], g, w)
  {
    hide *;
    OnlyLine(part, wrapped, at, g, w);
    KeptOfBody(part, at, at);
    PieceShows(part, wrapped[0], at, |part|, position);
  }

  lemma {:induction false} OnlyLine(part: seq<byte>, wrapped: seq<seq<int>>, at: nat, g: Glyphs, w: int)
    requires OneLine(part) && Broken(part, wrapped, at, g, w) && |wrapped| == 1
    ensures at <= |Body(part)| && at < |part| && AllScalar(wrapped[0]) && EncodeAll(wrapped[0]) == Body(part)[at..]
    ensures FitsOrEmpty(wrapped[0], g, w) && forall k :: 0 <= k < |part| - 1 ==> part[k] != 10
  {
    hide Body, EncodeAll, FitsOrEmpty, AllScalar;
    assert wrapped[1..] == [] && Flatten([]) == [] && wrapped[0] + [] == wrapped[0];
  }

  // The first of several lines, and where the next one starts.
  lemma {:induction false} FirstSegment(part: seq<byte>, wrapped: seq<seq<int>>, at: nat, position: int, g: Glyphs, w: int)
    returns (end: nat)
    requires OneLine(part) && Broken(part, wrapped, at, g, w) && |wrapped| > 1
    ensures end == at + EncodedLen(wrapped[0]) && at < end < |part|
    ensures LineShows(Line(wrapped[0], position + at, position + end), part, position) && FitsOrEmpty(wrapped[0], g, w)
    ensures Width(g, wrapped[0]) + g(wrapped[1][0]) > w
    ensures Broken(part, wrapped[1..], end, g, w)
  {
    hide *;
    var head, tail := wrapped[0], wrapped[1..];
    SeveralLines(part, wrapped, at, g, w);
    SplitBody(part, head, tail, at);
    end := at + EncodedLen(head);
    KeptOfBody(part, at, end);
    PieceShows(part, head, at, end, position);
    RestIsBroken(part, wrapped, at, end, g, w);
  }

  lemma {:induction false} SeveralLines(part: seq<byte>, wrapped: seq<seq<int>>, at: nat, g: Glyphs, w: int)
    requires OneLine(part) && Broken(part, wrapped, at, g, w) && |wrapped| > 1
    ensures at <= |Body(part)| && wrapped[0] != [] && wrapped[1] != []
    ensures forall k :: 0 <= k < |part| - 1 ==> part[k] != 10
    ensures var s := wrapped[0] + Flatten(wrapped[1..]); AllScalar(s) && EncodeAll(s) == Body(part)[at..]
    ensures FitsOrEmpty(wrapped[0], g, w) && Width(g, wrapped[0]) + g(wrapped[1][0]) > w
  {
    hide Body, EncodeAll, FitsOrEmpty, Width, AllScalar;
  }

  lemma {:induction false} PieceShows(part: seq<byte>, text: seq<int>, at: nat, end: nat, position: int)
    requires at < end <= |part| && AllScalar(text) && EncodeAll(text) == Kept(part, at, end)
    requires forall k :: 0 <= k < |part| - 1 ==> part[k] != 10
    ensures LineShows(Line(text, position + at, position + end), part, position)
  {
    hide Kept, EncodeAll, AllScalar;
  }

  lemma {:induction false} RestIsBroken(part: seq<byte>, wrapped: seq<seq<int>>, at: nat, end: nat, g: Glyphs, w: int)
    requires Broken(part, wrapped, at, g, w) && |wrapped| > 1 && end < |Body(part)|
    requires AllScalar(Flatten(wrapped[1..])) && EncodeAll(Flatten(wrapped[1..])) == Body(part)[end..]
    ensures Broken(part, wrapped[1..], end, g, w)
  {
    hide Body, EncodeAll, FitsOrEmpty, Width, AllScalar, Flatten;
    var tail := wrapped[1..];
    assert forall i :: 0 <= i < |tail| ==> tail[i] == wrapped[i + 1];
    forall i | 0 < i < |tail| ensures tail[i] != [] && Width(g, tail[i - 1]) + g(tail[i][0]) > w {
      assert tail[i - 1] == wrapped[i] && tail[i] == wrapped[i + 1];
    }
  }

  lemma {:induction false} SplitBody(part: seq<byte>, head: seq<int>, tail: seq<seq<int>>, at: nat)
    requires at <= |Body(part)| && head != [] && tail != [] && tail[0] != []
    requires AllScalar(head + Flatten(tail)) && EncodeAll(head + Flatten(tail)) == Body(part)[at..]
    ensures AllScalar(head) && AllScalar(Flatten(tail))
    ensures var end := at + EncodedLen(head);
      && at < end < |Body(part)| <= |part|
      && EncodeAll(head) == Body(part)[at..end] && EncodeAll(Flatten(tail)) == Body(part)[end..]
  {
    hide *;
    ScalarParts(head, Flatten(tail));
    EncodeConcat(head, Flatten(tail));
    EncodedLenIs(head);
    EncodedLenIs(Flatten(tail));
    TailIsLong(tail);
    EncodedLenPositive(head);
    SplitAt(Body(part), at, EncodeAll(head), EncodeAll(Flatten(tail)));
  }

  lemma {:induction false} SplitAt(s: seq<byte>, at: nat, a: seq<byte>, b: seq<byte>)
    requires at <= |s| && s[at..] == a + b
    ensures |s| == at + |a| + |b| && s[at..at + |a|] == a && s[at + |a|..] == b
  {
    assert s[at..][..|a|] == s[at..at + |a|] && s[at..][|a|..] == s[at + |a|..];
  }

  lemma {:induction false} SegmentsShow(part: seq<byte>, wrapped: seq<seq<int>>, at: nat, position: int, g: Glyphs, w: int)
    requires OneLine(part) && Broken(part, wrapped, at, g, w)
    ensures var lines := Segments(wrapped, position + at, position + |part|);
      Shows(lines, g, w, part, position) && lines != [] && lines[0].text == wrapped[0]
    decreases |wrapped|
  {
    hide *;
    BrokenIsSome(part, wrapped, at, g, w);
    if |wrapped| == 1 {
      LastSegment(part, wrapped, at, position, g, w);
      NothingShown(g, w, part, position);
      var line := Line(wrapped[0], position + at, position + |part|);
      ShowsCons(line, [], g, w, part, position);
      assert [line] + [] == [line];
      OneSegment(wrapped, position + at, position + |part|);
    } else {
      var end := FirstSegment(part, wrapped, at, position, g, w);
      SegmentsShow(part, wrapped[1..], end, position, g, w);
      MoreSegments(wrapped, position + at, position + |part|);
      var rest := Segments(wrapped[1..], position + end, position + |part|);
      FullIs(Line(wrapped[0], position + at, position + end), rest[0], g, w, part, position);
      ShowsCons(Line(wrapped[0], position + at, position + end), rest, g, w, part, position);
    }
  }

  lemma {:induction false} BrokenIsSome(part: seq<byte>, wrapped: seq<seq<int>>, at: nat, g: Glyphs, w: int)
    requires Broken(part, wrapped, at, g, w)
    ensures wrapped != [] && (|wrapped| > 1 ==> wrapped[1] != [])
  {
    hide Body, EncodeAll, Flatten, AllScalar, Width, FitsOrEmpty;
  }

  lemma {:induction false} FullIs(line: Line, next: Line, g: Glyphs, w: int, raw: seq<byte>, position: int)
    requires position < line.end <= position + |raw| && next.text != [] && Width(g, line.text) + g(next.text[0]) > w
    ensures FullBefore(line, next, g, w, raw, position)
  {
  }

  lemma {:induction false} OneSegment(wrapped: seq<seq<int>>, start: int, end: int)
    requires |wrapped| == 1
    ensures Segments(wrapped, start, end) == [Line(wrapped[0], start, end)]
  {
  }

  lemma {:induction false} MoreSegments(wrapped: seq<seq<int>>, start: int, lineEnd: int)
    requires |wrapped| > 1 && start + EncodedLen(wrapped[0]) <= lineEnd
    ensures var end := start + EncodedLen(wrapped[0]);
      Segments(wrapped, start, lineEnd) == [Line(wrapped[0], start, end)] + Segments(wrapped[1..], end, lineEnd)
    ensures Segments(wrapped[1..], start + EncodedLen(wrapped[0]), lineEnd) != []
  {
    hide EncodedLen;
  }

  lemma {:induction false} NothingShown(g: Glyphs, w: int, raw: seq<byte>, position: int)
    ensures Shows([], g, w, raw, position)
  {
  }

  lemma {:induction false} ScalarParts(a: seq<int>, b: seq<int>)
    requires AllScalar(a + b)
    ensures AllScalar(a) && AllScalar(b)
  {
    assert forall i :: 0 <= i < |a| ==> a[i] == (a + b)[i];
    assert forall i :: 0 <= i < |b| ==> b[i] == (a + b)[|a| + i];
  }

  lemma {:induction false} EncodedLenPositive(s: seq<int>)
    requires s != []
    ensures EncodedLen(s) > 0
  {
  }

  lemma {:induction false} TailIsLong(lines: seq<seq<int>>)
    requires lines != [] && lines[0] != []
    ensures EncodedLen(Flatten(lines)) > 0
  {
    EncodedLenConcat(lines[0], Flatten(lines[1..]));
    EncodedLenPositive(lines[0]);
  }

  // One physical line.
  lemma {:induction false} PartShows(face: Face, width: int, part: seq<byte>, position: int)
    requires Valid(part) && OneLine(part) && width > 0
    ensures DecodeBytes(part).Ok?
    ensures var lines := Segments(WrapLines(face, width, DecodeBytes(part).value), position, position + |part|);
            Shows(lines, face.glyphs, width, part, position) && lines != []
  {
    hide *;
    WrapLinesOfPart(face, width, part);
    BodyLinesShape(face, width, part);
    BodyIsBroken(face, width, part);
    SegmentsShow(part, BodyLines(face, width, part), 0, position, face.glyphs, width);
  }

  lemma {:induction false} BodyIsBroken(face: Face, width: int, part: seq<byte>)
    requires Valid(part) && Valid(Body(part)) && width > 0 && OneLine(part)
    requires |BodyLines(face, width, part)| == 1 || NonemptyLines(BodyLines(face, width, part))
    ensures Broken(part, BodyLines(face, width, part), 0, face.glyphs, width)
  {
    hide BodyLines, Body, Flatten, EncodeAll, FitsOrEmpty, Width, AllScalar, Valid;
    BodyLinesShow(face, width, part);
    assert Body(part)[0..] == Body(part);
  }

  lemma {:induction false} BodyLinesShow(face: Face, width: int, part: seq<byte>)
    requires Valid(Body(part)) && width > 0
    ensures var lines := BodyLines(face, width, part);
      && AllScalar(Flatten(lines)) && EncodeAll(Flatten(lines)) == Body(part)
      && (forall i :: 0 <= i < |lines| ==> FitsOrEmpty(lines[i], face.glyphs, width))
      && (forall i :: 0 < i < |lines| ==>
            lines[i] != [] && Width(face.glyphs, lines[i - 1]) + face.glyphs(lines[i][0]) > width)
  {
    if Body(part) == [] {
      assert Flatten([[]]) == [];
    } else {
      var s := Runes(Body(part));
      ValidIsEncoded(Body(part));
      GreedyIsLayout(face.glyphs, width, s);
      GreedyIsFull(face.glyphs, width, s);
    }
    hide Body, Runes, Fits, Width, EncodeAll;
  }

  // Lines of a physical line, and lines of what follows it, in the whole.
  lemma {:induction false} LineInPart(line: Line, raw: seq<byte>, n: nat, position: int)
    requires n <= |raw| && (n == |raw| || (n > 0 && raw[n - 1] == 10)) && LineShows(line, raw[..n], position)
    ensures LineShows(line, raw, position)
  {
    hide Kept, EncodeAll, AllScalar;
    KeptInPart(raw, n, line.start - position, line.end - position);
    forall k | line.start - position <= k < line.end - position - 1 ensures raw[k] != 10 {
      assert raw[..n][k] == raw[k];
    }
  }

  lemma {:induction false} LineInRest(line: Line, raw: seq<byte>, n: nat, position: int)
    requires n <= |raw| && LineShows(line, raw[n..], position + n)
    ensures LineShows(line, raw, position)
  {
    hide Kept, EncodeAll, AllScalar;
    KeptInRest(raw, n, line.start - position, line.end - position);
    forall k | line.start - position <= k < line.end - position - 1 ensures raw[k] != 10 {
      assert raw[n..][k - n] == raw[k];
    }
  }

  lemma {:induction false} PartInWhole(lines: seq<Line>, g: Glyphs, w: int, raw: seq<byte>, n: nat, position: int)
    requires n <= |raw| && (n == |raw| || (n > 0 && raw[n - 1] == 10)) && Shows(lines, g, w, raw[..n], position)
    ensures Shows(lines, g, w, raw, position)
  {
    hide LineShows, Width, FitsOrEmpty;
    forall i | 0 <= i < |lines| ensures LineShows(lines[i], raw, position) {
      LineInPart(lines[i], raw, n, position);
    }
    forall i | 0 < i < |lines| ensures FullBefore(lines[i - 1], lines[i], g, w, raw, position) {
      assert FullBefore(lines[i - 1], lines[i], g, w, raw[..n], position);
    }
  }

  lemma {:induction false} RestInWhole(lines: seq<Line>, g: Glyphs, w: int, raw: seq<byte>, n: nat, position: int)
    requires n <= |raw| && Shows(lines, g, w, raw[n..], position + n)
    ensures Shows(lines, g, w, raw, position)
  {
    hide LineShows, Width, FitsOrEmpty;
    forall i | 0 <= i < |lines| ensures LineShows(lines[i], raw, position) {
      LineInRest(lines[i], raw, n, position);
    }
    forall i | 0 < i < |lines| ensures FullBefore(lines[i - 1], lines[i], g, w, raw, position) {
      assert FullBefore(lines[i - 1], lines[i], g, w, raw[n..], position + n);
    }
  }

  lemma {:induction false} ShowsConcat(s: seq<Line>, t: seq<Line>, g: Glyphs, w: int, raw: seq<byte>, position: int)
    requires Shows(s, g, w, raw, position) && Shows(t, g, w, raw, position)
    requires s != [] && t != [] ==>
               var end := s[|s| - 1].end; position < end <= position + |raw| && raw[end - position - 1] == 10
    ensures Shows(s + t, g, w, raw, position)
  {
    hide LineShows, Width, FitsOrEmpty;
    var lines := s + t;
    forall i | 0 < i < |lines| ensures FullBefore(lines[i - 1], lines[i], g, w, raw, position) {
      if i < |s| {
        assert FullBefore(s[i - 1], s[i], g, w, raw, position);
      } else if i > |s| {
        assert FullBefore(t[i - 1 - |s|], t[i - |s|], g, w, raw, position);
      }
    }
  }

  // All lines of what was read show it.
  lemma {:induction false} LinesShow(doc: Document, chapterStart: int, face: Face, width: int, raw: seq<byte>, position: int)
    requires Valid(raw) && width > 0
    ensures var lines := Lines(doc, chapterStart, face, width, raw, position);
            lines.Ok? && Shows(lines.value, face.glyphs, width, raw, position)
    decreases |raw|
  {
    hide *;
    if raw == [] {
      NoLines(doc, chapterStart, face, width, position);
      NothingShown(face.glyphs, width, raw, position);
    } else {
      var n := PartLen(raw);
      var part := raw[..n];
      PartIsValid(raw);
      PartEnds(raw);
      PartShows(face, width, part, position);
      LinesShow(doc, chapterStart, face, width, raw[n..], position + n);
      LinesUnfold(doc, chapterStart, face, width, raw, position);
      HeadingHides(doc, chapterStart, face, width, raw, position);
      var rest := Lines(doc, chapterStart, face, width, raw[n..], position + n).value;
      RestInWhole(rest, face.glyphs, width, raw, n, position);
      PartTiles(face, width, part, position);
      var shown := Segments(WrapLines(face, width, DecodeBytes(part).value), position, position + n);
      TilesGrow(shown, position, position + n);
      PartInWhole(shown, face.glyphs, width, raw, n, position);
      assert [] + rest == rest;
      NothingAfterAll(doc, chapterStart, face, width, raw, n, position);
      ShowsConcat(shown, rest, face.glyphs, width, raw, position);
    }
  }

  lemma {:induction false} NothingAfterAll(doc: Document, chapterStart: int, face: Face, width: int, raw: seq<byte>, n: nat,
                                           position: int)
    requires n <= |raw|
    ensures n == |raw| ==> Lines(doc, chapterStart, face, width, raw[n..], position + n) == Ok([])
  {
  }

  lemma {:induction false} PartEnds(raw: seq<byte>)
    requires raw != []
    ensures var n := PartLen(raw);
      1 <= n <= |raw| && (raw[n - 1] == 10 || n == |raw|) && OneLine(raw[..n])
  {
  }

  // The skipped heading is the first physical line of a chapter when the line's text, less its line feed and then one
  // carriage return, is a heading.
  lemma {:induction false} HeadingIsSkipped(doc: Document, chapterStart: int, raw: seq<byte>, position: int)
    returns (n: nat, text: seq<int>)
    requires Valid(raw) && raw != []
    ensures 1 <= n <= |raw| && OneLine(raw[..n]) && (raw[n - 1] == 10 || n == |raw|)
    ensures AllScalar(text) && EncodeAll(text) <= raw[..n]
    ensures var m := |EncodeAll(text)|;
      && raw[m..n] in {[], [10], [13], [13, 10]}
      && (m > 0 && raw[m - 1] == 13 ==> m < n && raw[m] == 13)
    ensures HeadingLen(doc, chapterStart, raw, position) == if position == chapterStart && doc.isHeading(text) then n else 0
  {
    hide *;
    n := PartLen(raw);
    PartIsValid(raw);
    PartEnds(raw);
    text := TrimmedLine(raw[..n]);
    HeadingLenIs(doc, chapterStart, raw, position, text);
    assert raw[..n][|EncodeAll(text)|..] == raw[|EncodeAll(text)|..n];
  }

  lemma {:induction false} TrimmedLine(part: seq<byte>) returns (text: seq<int>)
    requires Valid(part) && part != []
    ensures DecodeBytes(part) == Ok(text) && AllScalar(text) && EncodeAll(text) <= part
    ensures var m := |EncodeAll(text)|;
      && part[m..] in {[], [10], [13], [13, 10]}
      && (m > 0 && part[m - 1] == 13 ==> m < |part| && part[m] == 13)
  {
    var t := TrimByte(TrimByte(part, 10), 13);
    TrimRunes(part, 10);
    TrimRunes(TrimByte(part, 10), 13);
    text := Runes(t);
    ValidIsEncoded(t);
    hide *;
    TrimmedEnd(part);
  }

  lemma {:induction false} TrimmedEnd(part: seq<byte>)
    ensures var m := |TrimByte(TrimByte(part, 10), 13)|;
      && m <= |part| && TrimByte(TrimByte(part, 10), 13) <= part && part[m..] in {[], [10], [13], [13, 10]}
      && (m > 0 && part[m - 1] == 13 ==> m < |part| && part[m] == 13)
  {
    var once := TrimByte(part, 10);
    var m := |TrimByte(once, 13)|;
    var a, b := once[m..], part[|once|..];
    assert part[m..] == a + b;
    assert a == [] || a == [13];
    assert b == [] || b == [10];
    assert a == [] ==> a + b == b;
    assert b == [] ==> a + b == a;
    assert a == [13] && b == [10] ==> a + b == [13, 10];
  }

  lemma {:induction false} HeadingLenIs(doc: Document, chapterStart: int, raw: seq<byte>, position: int, text: seq<int>)
    requires raw != [] && DecodeBytes(raw[..PartLen(raw)]) == Ok(text)
    ensures HeadingLen(doc, chapterStart, raw, position) ==
            if position == chapterStart && doc.isHeading(text) then PartLen(raw) else 0
  {
    hide DecodeBytes, PartLen;
  }

  // ---- Pages ----

  // Page k shows the lines from k times the number that fit on, in their order, as many as fit.
  predicate PageHolds(page: Page, lines: seq<Line>, from: nat, perPage: nat) {
    && from < |lines| && page.start == lines[from].start
    && |page.lines| == (if from + perPage < |lines| then perPage else |lines| - from)
    && perPage > 0 && page.end == lines[from + |page.lines| - 1].end
    && forall m: nat :: m < |page.lines| ==> page.lines[m] == lines[from + m].text
  }

  lemma {:induction false} TextsInOrder(lines: seq<Line>)
    ensures forall m :: 0 <= m < |lines| ==> Texts(lines)[m] == lines[m].text
  {
    if lines != [] {
      TextsInOrder(lines[1..]);
    }
  }

  lemma {:induction false} PagesHold(lines: seq<Line>, perPage: nat, k: nat, from: nat)
    requires perPage >= 1 && k < |PagesOf(lines, perPage)| && from == k * perPage
    ensures PageHolds(PagesOf(lines, perPage)[k], lines, from, perPage)
  {
    PageContents(lines, perPage, k, from);
    var held := lines[from..PageTiling.Min(from + perPage, |lines|)];
    TextsInOrder(held);
    hide PagesOf, Texts;
  }

  // How many lines fit: as many as the height allows, but one at least.
  lemma {:induction false} PerPageFits(face: Face, height: int)
    ensures var n := PerPage(face, height);
      && (1 <= face.lineHeight <= height ==> n * face.lineHeight <= height < (n + 1) * face.lineHeight)
      && (face.lineHeight < 1 <= height ==> n == height)
      && (height < 1 || height < face.lineHeight ==> n == 1)
  {
    if 1 <= face.lineHeight <= height {
      var h := face.lineHeight;
      assert height == height / h * h + height % h;
    }
  }

  // These lines are the text of that range.
  predicate RangeShows(texts: seq<seq<int>>, start: int, end: int, raw: seq<byte>, position: int) {
    && position <= start <= end <= position + |raw|
    && AllScalar(Flatten(texts)) && EncodeAll(Flatten(texts)) == Kept(raw, start - position, end - position)
  }

  // Lines from i on, joined.
  lemma {:induction false} LinesJoin(lines: seq<Line>, texts: seq<seq<int>>, i: nat, a: int, b: int, g: Glyphs, w: int,
                                     raw: seq<byte>, position: int)
    requires Tiles(lines, a, b) && Shows(lines, g, w, raw, position) && texts != [] && i + |texts| <= |lines|
    requires forall m: nat :: m < |texts| ==> texts[m] == lines[i + m].text
    ensures RangeShows(texts, lines[i].start, lines[i + |texts| - 1].end, raw, position)
    decreases |texts|
  {
    hide *;
    LineOf(lines, i, g, w, raw, position);
    if |texts| == 1 {
      OneText(texts);
    } else {
      var rest := texts[1..];
      TilesGrow(lines, a, b);
      LinesJoin(lines, rest, i + 1, a, b, g, w, raw, position);
      RangesJoin(texts, lines[i].start, lines[i].end, lines[i + |texts| - 1].end, raw, position);
    }
  }

  lemma {:induction false} LineOf(lines: seq<Line>, i: nat, g: Glyphs, w: int, raw: seq<byte>, position: int)
    requires i < |lines| && Shows(lines, g, w, raw, position)
    ensures RangeShows([lines[i].text], lines[i].start, lines[i].end, raw, position)
  {
    assert LineShows(lines[i], raw, position);
    hide Shows, EncodeAll, Kept, AllScalar;
    assert [lines[i].text][1..] == [] && Flatten([]) == [] && lines[i].text + [] == lines[i].text;
  }

  lemma {:induction false} OneText(texts: seq<seq<int>>)
    requires |texts| == 1
    ensures texts == [texts[0]]
  {
  }

  lemma {:induction false} RangesJoin(texts: seq<seq<int>>, start: int, mid: int, end: int, raw: seq<byte>, position: int)
    requires texts != [] && RangeShows([texts[0]], start, mid, raw, position) && RangeShows(texts[1..], mid, end, raw, position)
    ensures RangeShows(texts, start, end, raw, position)
  {
    hide EncodeAll, Kept, AllScalar;
    var head := texts[0];
    assert [head][1..] == [] && Flatten([]) == [] && head + [] == head;
    EncodeConcat(head, Flatten(texts[1..]));
    KeptConcat(raw, start - position, mid - position, end - position);
  }

  lemma {:induction false} PageIsShown(lines: seq<Line>, perPage: nat, k: nat, from: nat, a: int, b: int, g: Glyphs, w: int,
                                       raw: seq<byte>, position: int)
    requires perPage >= 1 && k < |PagesOf(lines, perPage)| && from == k * perPage
    requires Tiles(lines, a, b) && Shows(lines, g, w, raw, position)
    ensures PageHolds(PagesOf(lines, perPage)[k], lines, from, perPage)
    ensures PageShows(PagesOf(lines, perPage)[k], raw, position)
  {
    hide *;
    var page := PagesOf(lines, perPage)[k];
    PagesHold(lines, perPage, k, from);
    HeldLines(page, lines, from, perPage);
    LinesJoin(lines, page.lines, from, a, b, g, w, raw, position);
    PageRange(page, raw, position);
  }

  // The lines of a page, joined, are the text of its range.
  predicate PageShows(page: Page, raw: seq<byte>, position: int) {
    RangeShows(page.lines, page.start, page.end, raw, position)
  }

  lemma {:induction false} HeldLines(page: Page, lines: seq<Line>, from: nat, perPage: nat)
    requires PageHolds(page, lines, from, perPage)
    ensures page.lines != [] && from + |page.lines| <= |lines| && page.start == lines[from].start
    ensures page.end == lines[from + |page.lines| - 1].end
    ensures forall m: nat :: m < |page.lines| ==> page.lines[m] == lines[from + m].text
  {
  }

  lemma {:induction false} PageRange(page: Page, raw: seq<byte>, position: int)
    requires RangeShows(page.lines, page.start, page.end, raw, position)
    ensures PageShows(page, raw, position)
  {
  }

  // The lines, a page at a time, every page the text of its range; one empty page when there are no lines.
  predicate PagesShow(pages: seq<Page>, lines: seq<Line>, perPage: nat, raw: seq<byte>, position: int) {
    if lines == [] then pages == [Page([], position, position + |raw|)]
    else
      && PagesTile(pages, lines[0].start, position + |raw|)
      && (forall k: nat :: k < |pages| ==> PageHolds(pages[k], lines, k * perPage, perPage))
      && (forall k: nat :: k < |pages| ==> PageShows(pages[k], raw, position))
  }

  lemma {:induction false} AllPagesShow(pages: seq<Page>, lines: seq<Line>, perPage: nat, a: int, g: Glyphs, w: int,
                                        raw: seq<byte>, position: int)
    requires perPage >= 1 && Tiles(lines, a, position + |raw|) && Shows(lines, g, w, raw, position)
    requires pages == if lines == [] then [Page([], position, position + |raw|)] else PagesOf(lines, perPage)
    ensures PagesShow(pages, lines, perPage, raw, position)
  {
    hide Tiles, PagesOf, PagesTile, Shows, PageHolds, PageShows;
    if lines != [] {
      TilesGrow(lines, a, position + |raw|);
      TilesStart(lines, a, position + |raw|);
      PagesOfTile(lines, perPage, a, position + |raw|);
      forall k: nat | k < |pages|
        ensures PageHolds(pages[k], lines, k * perPage, perPage) && PageShows(pages[k], raw, position)
      {
        NotNegative(k, perPage);
        PageIsShown(lines, perPage, k, k * perPage, a, position + |raw|, g, w, raw, position);
      }
    }
  }

  lemma {:induction false} TilesStart(lines: seq<Line>, a: int, b: int)
    requires Tiles(lines, a, b)
    ensures if lines == [] then a == b else lines[0].start == a
  {
  }

  lemma {:induction false} NotNegative(k: nat, n: nat)
    ensures k * n >= 0
  {
  }

  // ---- Paginate ----

  // Paginate on a chapter of valid text: what was read is a piece of the file from the asked offset, or from the start
  // of the chapter; its lines follow one another from behind the heading and show it, and the pages hold them in order.
  lemma {:induction false} PaginateShows(doc: Document, chapter: Chapter, from: int, face: Face, width: int, height: int)
    returns (start: int, lines: seq<Line>)
    requires GoodChapter(doc, chapter) && Boundary(doc.bytes, ClampStart(chapter, from)) && width > 0
    ensures start == if chapter.start <= from < chapter.end then from else chapter.start
    ensures var r := Paginated(doc, chapter, from, face, width, height);
      && r.Ok? && 0 <= start <= r.value.end <= chapter.end <= |doc.bytes| && (start < chapter.end ==> start < r.value.end)
      && var raw := doc.bytes[start..r.value.end];
         && Tiles(lines, start + HeadingLen(doc, chapter.start, raw, start), r.value.end)
         && Shows(lines, face.glyphs, width, raw, start)
         && PagesShow(r.value.pages, lines, PerPage(face, height), raw, start)
  {
    hide *;
    start := if chapter.start <= from < chapter.end then from else chapter.start;
    StartIs(chapter, from);
    ChapterFacts(doc, chapter);
    WindowIsValid(doc.bytes, start, chapter.end);
    var (raw, end) := LoadWindow(doc.bytes, start, chapter.end);
    LinesTile(doc, chapter.start, face, width, raw, start);
    LinesShow(doc, chapter.start, face, width, raw, start);
    lines := Lines(doc, chapter.start, face, width, raw, start).value;
    PaginatedIs(doc, chapter, from, face, width, height, raw, end, lines);
    AllPagesShow(Paginated(doc, chapter, from, face, width, height).value.pages, lines, PerPage(face, height),
                 start + HeadingLen(doc, chapter.start, raw, start), face.glyphs, width, raw, start);
  }

  lemma {:induction false} StartIs(chapter: Chapter, from: int)
    ensures ClampStart(chapter, from) == if chapter.start <= from < chapter.end then from else chapter.start
  {
  }

  lemma {:induction false} ChapterFacts(doc: Document, chapter: Chapter)
    requires GoodChapter(doc, chapter)
    ensures Valid(doc.bytes) && 0 <= chapter.start <= chapter.end <= |doc.bytes|
    ensures Boundary(doc.bytes, chapter.start) && Boundary(doc.bytes, chapter.end)
  {
    hide Valid;
  }

  lemma {:induction false} PaginatedIs(doc: Document, chapter: Chapter, from: int, face: Face, width: int, height: int,
                                       raw: seq<byte>, end: int, lines: seq<Line>)
    requires LoadWindow(doc.bytes, ClampStart(chapter, from), chapter.end) == (raw, end)
    requires Lines(doc, chapter.start, face, width, raw, ClampStart(chapter, from)) == Ok(lines)
    ensures PerPage(face, height) >= 1
    ensures Paginated(doc, chapter, from, face, width, height) ==
            Ok(Window(if lines == [] then [Page([], ClampStart(chapter, from), end)] else PagesOf(lines, PerPage(face, height)),
                      end))
  {
    PageCount(lines, PerPage(face, height));
    hide LoadWindow, Lines, PagesOf, PerPage, ClampStart;
  }

  // ---- Chapters and restored positions ----

  // A counted window shows its bytes behind the heading.
  ghost predicate WindowShows(doc: Document, chapter: Chapter, face: Face, c: Canon, lines: seq<Line>) {
    && 0 <= c.start <= c.window.end <= |doc.bytes|
    && var raw := doc.bytes[c.start..c.window.end];
       && Tiles(lines, c.start + HeadingLen(doc, chapter.start, raw, c.start), c.window.end)
       && Shows(lines, face.glyphs, TEXT_WIDTH, raw, c.start)
       && PagesShow(c.window.pages, lines, PerPage(face, BODY_HEIGHT), raw, c.start)
  }

  lemma {:induction false} GoodWindowShows(doc: Document, chapter: Chapter, face: Face, c: Canon, lines: seq<Line>)
    requires GoodChapter(doc, chapter) && GoodWindow(doc, chapter, face, c, lines)
    ensures WindowShows(doc, chapter, face, c, lines)
  {
    hide *;
    GoodWindowFacts(doc, chapter, face, c, lines);
    var raw := doc.bytes[c.start..c.window.end];
    ChapterFacts(doc, chapter);
    WidthIsPositive();
    ValidBetween(doc.bytes, c.start, c.window.end);
    LinesShow(doc, chapter.start, face, TEXT_WIDTH, raw, c.start);
    AllPagesShow(c.window.pages, lines, PerPage(face, BODY_HEIGHT), c.start + HeadingLen(doc, chapter.start, raw, c.start),
                 face.glyphs, TEXT_WIDTH, raw, c.start);
    WindowShowsIs(doc, chapter, face, c, lines);
  }

  lemma {:induction false} WindowShowsIs(doc: Document, chapter: Chapter, face: Face, c: Canon, lines: seq<Line>)
    requires 0 <= c.start <= c.window.end <= |doc.bytes|
    requires var raw := doc.bytes[c.start..c.window.end];
      && Tiles(lines, c.start + HeadingLen(doc, chapter.start, raw, c.start), c.window.end)
      && Shows(lines, face.glyphs, TEXT_WIDTH, raw, c.start)
      && PagesShow(c.window.pages, lines, PerPage(face, BODY_HEIGHT), raw, c.start)
    ensures WindowShows(doc, chapter, face, c, lines)
  {
    hide Tiles, HeadingLen, Shows, PagesShow, PerPage;
  }

  lemma {:induction false} GoodWindowFacts(doc: Document, chapter: Chapter, face: Face, c: Canon, lines: seq<Line>)
    requires GoodWindow(doc, chapter, face, c, lines)
    ensures chapter.start <= c.start <= c.window.end <= chapter.end <= |doc.bytes| && 0 <= c.start
    ensures Boundary(doc.bytes, c.start) && Boundary(doc.bytes, c.window.end)
    ensures var raw := doc.bytes[c.start..c.window.end];
      && Lines(doc, chapter.start, face, TEXT_WIDTH, raw, c.start) == Ok(lines)
      && Tiles(lines, c.start + HeadingLen(doc, chapter.start, raw, c.start), c.window.end)
      && PerPage(face, BODY_HEIGHT) >= 1
      && c.window.pages == if lines == [] then [Page([], c.start, c.window.end)] else PagesOf(lines, PerPage(face, BODY_HEIGHT))
  {
    hide Lines, LoadWindow, Tiles, PagesOf, Boundary, PerPage;
  }

  // The windows of a chapter follow one another from its start to its end, and every one shows its bytes.
  lemma {:induction false} ChapterShows(doc: Document, chapter: Chapter, face: Face)
    returns (ws: seq<Canon>, ls: seq<seq<Line>>)
    requires GoodChapter(doc, chapter)
    ensures Canonical(doc, chapter, face, chapter.start) == Ok(ws) && WindowsTile(ws, chapter.start, chapter.end)
    ensures |ls| == |ws| && forall i :: 0 <= i < |ws| ==> WindowShows(doc, chapter, face, ws[i], ls[i])
  {
    hide Canonical, WindowsTile, WindowShows, GoodWindow, Boundary, Valid;
    ws, ls := CountingTiles(doc, chapter, face, chapter.start);
    forall i | 0 <= i < |ws| ensures WindowShows(doc, chapter, face, ws[i], ls[i]) {
      GoodWindowShows(doc, chapter, face, ws[i], ls[i]);
    }
  }

  // What is given back for a restored position: the pages of the window that holds it, from the page that holds it on;
  // of that page only the text from the position to its end.
  lemma {:induction false} RestoredShows(doc: Document, chapter: Chapter, face: Face, offset: nat)
    returns (ws: seq<Canon>, lines: seq<Line>, i: nat, j: nat)
    requires GoodChapter(doc, chapter) && chapter.start <= offset < chapter.end && Boundary(doc.bytes, offset)
    ensures Canonical(doc, chapter, face, chapter.start) == Ok(ws) && Usable(IndexOf(ws)) && ReadWindowProof.Holds(ws, i, j, offset)
    ensures WindowShows(doc, chapter, face, ws[i], lines)
    ensures var r, pages := ReadWindow(doc, chapter, face, IndexOf(ws), offset), ws[i].window.pages;
      r.Ok? ==>
        && |r.value.pages| == |pages| - j && r.value.pages[1..] == pages[j + 1..]
        && var first := r.value.pages[0];
           if offset <= pages[j].start then first == pages[j]
           else
             && first.start == offset && first.end == pages[j].end <= |doc.bytes|
             && (forall m :: 0 <= m < |first.lines| ==> FitsOrEmpty(first.lines[m], face.glyphs, TEXT_WIDTH))
             && 1 <= |first.lines| <= PerPage(face, BODY_HEIGHT)
             && PageShows(first, doc.bytes[offset..first.end], offset)
  {
    hide *;
    var same, ls;
    ws, i, j := RestoresPosition(doc, chapter, face, offset);
    ChapterFacts(doc, chapter);
    same, ls := CountingTiles(doc, chapter, face, chapter.start);
    HoldsFacts(doc, chapter, face, ws, ls, i, j, offset);
    lines := ls[i];
    GoodWindowShows(doc, chapter, face, ws[i], lines);
    if ReadWindow(doc, chapter, face, IndexOf(ws), offset).Ok? {
      var page := ws[i].window.pages[j];
      var first := ReadWindow(doc, chapter, face, IndexOf(ws), offset).value.pages[0];
      if offset <= page.start {
        NotShortened(doc, chapter, face, page, first, offset);
      } else {
        PageEndBoundary(doc, chapter, face, ws[i], lines, j);
        ShortenedShows(doc, chapter, face, page, first, offset);
      }
    }
  }

  lemma {:induction false} HoldsFacts(doc: Document, chapter: Chapter, face: Face, ws: seq<Canon>, ls: seq<seq<Line>>,
                                      i: nat, j: nat, offset: int)
    requires ReadWindowProof.Holds(ws, i, j, offset) && GoodWindows(doc, chapter, face, ws, ls) && chapter.start < chapter.end
    ensures i < |ws| == |ls| && GoodWindow(doc, chapter, face, ws[i], ls[i])
    ensures j < |ws[i].window.pages| && offset < ws[i].window.pages[j].end && ws[i].start < ws[i].window.end
  {
    hide Lines, LoadWindow, Tiles, PagesOf, Boundary, PerPage;
  }

  lemma {:induction false} NotShortened(doc: Document, chapter: Chapter, face: Face, page: Page, first: Page, offset: int)
    requires Shortened(doc, chapter, face, page, first, offset) && offset <= page.start
    ensures first == page
  {
    hide Lines, PageOf, PerPage;
  }

  // Pages end on rune boundaries too.
  lemma {:induction false} PageEndBoundary(doc: Document, chapter: Chapter, face: Face, c: Canon, lines: seq<Line>, j: nat)
    requires Valid(doc.bytes) && GoodWindow(doc, chapter, face, c, lines) && 0 <= chapter.start && j < |c.window.pages|
    requires c.start < c.window.end
    ensures c.window.pages[j].end <= |doc.bytes| && Boundary(doc.bytes, c.window.pages[j].end)
  {
    hide *;
    GoodWindowFacts(doc, chapter, face, c, lines);
    WindowPages(doc, chapter, face, c, lines);
    PagesGrow(c.window.pages, ShownFrom(c), c.window.end);
    if j + 1 < |c.window.pages| {
      PageStartBoundary(doc, chapter, face, c, lines, j + 1);
    }
  }

  // The first page of a restored position shows the file from there to its end.
  lemma {:induction false} ShortenedShows(doc: Document, chapter: Chapter, face: Face, page: Page, first: Page, offset: nat)
    requires Shortened(doc, chapter, face, page, first, offset) && page.start < offset < page.end <= |doc.bytes|
    requires Valid(doc.bytes) && Boundary(doc.bytes, offset) && Boundary(doc.bytes, page.end) && chapter.start <= offset
    ensures first.start == offset && first.end == page.end && 1 <= |first.lines| <= PerPage(face, BODY_HEIGHT)
    ensures forall m :: 0 <= m < |first.lines| ==> FitsOrEmpty(first.lines[m], face.glyphs, TEXT_WIDTH)
    ensures PageShows(first, doc.bytes[offset..page.end], offset)
  {
    hide *;
    var raw := doc.bytes[offset..page.end];
    ShortenedLines(doc, chapter, face, page, first, offset);
    WidthIsPositive();
    ValidBetween(doc.bytes, offset, page.end);
    LinesShow(doc, chapter.start, face, TEXT_WIDTH, raw, offset);
    LinesTile(doc, chapter.start, face, TEXT_WIDTH, raw, offset);
    AllOnPage(first, Lines(doc, chapter.start, face, TEXT_WIDTH, raw, offset).value,
              offset + HeadingLen(doc, chapter.start, raw, offset), face.glyphs, TEXT_WIDTH, raw, offset);
  }

  // A page that takes all lines.
  lemma {:induction false} AllOnPage(page: Page, lines: seq<Line>, a: int, g: Glyphs, w: int, raw: seq<byte>, position: int)
    requires Tiles(lines, a, position + |raw|) && Shows(lines, g, w, raw, position)
    requires lines != [] && page == Page(Texts(lines), lines[0].start, lines[|lines| - 1].end)
    ensures |page.lines| == |lines| && PageShows(page, raw, position)
    ensures forall m :: 0 <= m < |page.lines| ==> FitsOrEmpty(page.lines[m], g, w)
  {
    hide *;
    TextsInOrder(lines);
    LinesFit(lines, g, w, raw, position);
    LinesJoin(lines, page.lines, 0, a, position + |raw|, g, w, raw, position);
    PageRange(page, raw, position);
  }

  lemma {:induction false} ShortenedLines(doc: Document, chapter: Chapter, face: Face, page: Page, first: Page, offset: nat)
    requires Shortened(doc, chapter, face, page, first, offset) && page.start < offset < page.end <= |doc.bytes|
    ensures var again := Lines(doc, chapter.start, face, TEXT_WIDTH, doc.bytes[offset..page.end], offset);
      && again.Ok? && 1 <= |again.value| <= PerPage(face, BODY_HEIGHT)
      && first == Page(Texts(again.value), again.value[0].start, again.value[|again.value| - 1].end)
      && first.start == offset && first.end == page.end
  {
    hide Lines, Texts, PerPage;
  }

  lemma {:induction false} WidthIsPositive()
    ensures TEXT_WIDTH > 0
  {
  }

  lemma {:induction false} LinesFit(lines: seq<Line>, g: Glyphs, w: int, raw: seq<byte>, position: int)
    requires Shows(lines, g, w, raw, position)
    ensures forall i :: 0 <= i < |lines| ==> FitsOrEmpty(lines[i].text, g, w)
  {
    hide LineShows, FitsOrEmpty, FullBefore;
  }
}

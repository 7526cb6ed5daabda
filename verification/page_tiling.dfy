/**
  Pages tile what was read: for valid UTF-8 the lines of a window follow one
  another without gap or overlap from its start (or from just after a skipped
  heading) to its end, and so do its pages.
 */
module PageTiling {
  import opened Utf8
  import opened Wrapping
  import opened Pager

  // Consecutive, nonempty source ranges from a to b.
  predicate Tiles(lines: seq<Line>, a: int, b: int) {
    if lines == [] then a == b
    else lines[0].start == a < lines[0].end && Tiles(lines[1..], lines[0].end, b)
  }

  predicate PagesTile(pages: seq<Page>, a: int, b: int) {
    if pages == [] then a == b
    else pages[0].start == a < pages[0].end && PagesTile(pages[1..], pages[0].end, b)
  }

  lemma {:induction false} TilesConcat(s: seq<Line>, t: seq<Line>, a: int, b: int, c: int)
    requires Tiles(s, a, b) && Tiles(t, b, c)
    ensures Tiles(s + t, a, c)
  {
    if s == [] {
      assert s + t == t;
    } else {
      TilesConcat(s[1..], t, s[0].end, b, c);
      assert (s + t)[1..] == s[1..] + t;
    }
  }

  lemma {:induction false} TilesGrow(lines: seq<Line>, a: int, b: int)
    requires Tiles(lines, a, b)
    ensures a <= b && (lines != [] ==> a < b && lines[|lines| - 1].end == b)
    ensures forall i :: 0 <= i < |lines| ==> a <= lines[i].start < lines[i].end <= b
    ensures forall i :: 0 < i < |lines| ==> lines[i].start == lines[i - 1].end
  {
    if lines != [] {
      TilesGrow(lines[1..], lines[0].end, b);
    }
  }

  lemma {:induction false} TilesSplit(lines: seq<Line>, a: int, b: int, k: nat)
    requires Tiles(lines, a, b) && k <= |lines|
    ensures var m := if k == 0 then a else lines[k - 1].end;
            Tiles(lines[..k], a, m) && Tiles(lines[k..], m, b)
  {
    if k == 0 {
      assert lines[0..] == lines;
    } else {
      TilesSplit(lines[1..], lines[0].end, b, k - 1);
      assert lines[1..][..k - 1] == lines[..k][1..];
      assert lines[1..][k - 1..] == lines[k..];
    }
  }

  // ---- Byte lengths of runes ----

  lemma {:induction false} EncodedLenIs(s: seq<int>)
    requires AllScalar(s)
    ensures EncodedLen(s) == |EncodeAll(s)|
  {
    if s != [] {
      EncodedLenIs(s[1..]);
    }
  }

  lemma {:induction false} EncodedLenOfRunes(s: seq<byte>)
    requires Valid(s)
    ensures EncodedLen(Runes(s)) == |s|
  {
    ValidIsEncoded(s);
    EncodedLenIs(Runes(s));
  }

  lemma {:induction false} EncodedLenConcat(s: seq<int>, t: seq<int>)
    ensures EncodedLen(s + t) == EncodedLen(s) + EncodedLen(t)
  {
    if s == [] {
      assert s + t == t;
    } else {
      EncodedLenConcat(s[1..], t);
      assert (s + t)[1..] == s[1..] + t;
    }
  }

  // ---- Valid pieces ----

  lemma {:induction false} AsciiChar(b: byte)
    requires b < 0x80
    ensures !Tail(b) && Valid([b]) && Runes([b]) == [b]
  {
    ValidCons([b], []);
    assert [b] + [] == [b];
  }

  // Both sides of an ASCII byte are rune boundaries.
  lemma {:induction false} AsciiBoundary(s: seq<byte>, i: nat)
    requires Valid(s) && i < |s| && s[i] < 0x80
    ensures Valid(s[..i]) && Valid(s[..i + 1]) && Valid(s[i + 1..])
    ensures Runes(s[..i + 1]) == Runes(s[..i]) + [s[i]]
  {
    hide CharLen, Runes, Scalar, Valid;
    AsciiChar(s[i]);
    BoundaryIffNotTail(s, i);
    var c := [s[i]];
    ValidConcat(s[..i], c);
    assert s[..i] + c == s[..i + 1];
    BoundaryRest(s, i + 1);
  }

  lemma {:induction false} PartIsValid(raw: seq<byte>)
    requires Valid(raw) && raw != []
    ensures Valid(raw[..PartLen(raw)]) && Valid(raw[PartLen(raw)..])
  {
    var n := PartLen(raw);
    if n == |raw| {
      assert raw[..n] == raw && raw[n..] == [];
    } else {
      AsciiBoundary(raw, n - 1);
    }
  }

  // Trimming an ASCII byte and trimming the rune it is are the same thing.
  lemma {:induction false} TrimRunes(s: seq<byte>, c: byte)
    requires Valid(s) && c < 0x80
    ensures Valid(TrimByte(s, c)) && Runes(TrimByte(s, c)) == TrimSuffix(Runes(s), c)
  {
    if s != [] {
      var k := |s| - 1;
      assert s[..k + 1] == s;
      if s[k] == c {
        AsciiBoundary(s, k);
      } else if Runes(s) != [] && Runes(s)[|Runes(s)| - 1] == c {
        LastRuneAscii(s, c);
      }
    }
  }

  lemma {:induction false} LastRuneAscii(s: seq<byte>, c: byte)
    requires Valid(s) && s != [] && c < 0x80
    requires Runes(s) != [] && Runes(s)[|Runes(s)| - 1] == c
    ensures s[|s| - 1] == c
    decreases |s|
  {
    var h, rest := SplitChar(s);
    if rest == [] {
      assert Runes(s) == [Scalar(s)];
      DecodeThenEncode(s);
      assert s[..CharLen(s)] == s;
    } else {
      assert Runes(s)[1..] == Runes(rest);
      assert Runes(rest) != [] by { SplitNonempty(rest); }
      assert Runes(rest)[|Runes(rest)| - 1] == Runes(s)[|Runes(s)| - 1];
      LastRuneAscii(rest, c);
    }
  }

  lemma {:induction false} SplitNonempty(s: seq<byte>)
    requires Valid(s) && s != []
    ensures Runes(s) != []
  {
  }

  // ---- The visible bytes of a physical line ----

  // What is left after decodeBytes and then Wrap have each dropped a line feed and a carriage return.
  function Body(part: seq<byte>): (body: seq<byte>)
    ensures body <= part
  {
    TrimByte(TrimByte(TrimByte(TrimByte(part, 10), 13), 10), 13)
  }

  lemma {:induction false} BodyRunes(part: seq<byte>)
    requires Valid(part)
    ensures Valid(Body(part)) && DecodeBytes(part).Ok?
    ensures TrimSuffix(TrimSuffix(DecodeBytes(part).value, LF), CR) == Runes(Body(part))
  {
    var a := TrimByte(part, 10);
    var b := TrimByte(a, 13);
    var c := TrimByte(b, 10);
    TrimRunes(part, 10);
    TrimRunes(a, 13);
    TrimRunes(b, 10);
    TrimRunes(c, 13);
  }

  function BodyLines(face: Face, width: int, part: seq<byte>): (lines: seq<seq<int>>)
    requires Valid(Body(part))
    ensures lines != []
  {
    if width <= 0 || Body(part) == [] then [[]]
    else
      SplitNonempty(Body(part));
      Greedy(face.glyphs, width, Runes(Body(part)))
  }

  lemma {:induction false} WrapLinesOfPart(face: Face, width: int, part: seq<byte>)
    requires Valid(part)
    ensures Valid(Body(part)) && DecodeBytes(part).Ok?
    ensures WrapLines(face, width, DecodeBytes(part).value) == BodyLines(face, width, part)
  {
    BodyRunes(part);
    if Body(part) != [] {
      SplitNonempty(Body(part));
    }
  }

  // ---- Lines tile ----

  predicate NonemptyLines(lines: seq<seq<int>>) {
    forall i :: 0 <= i < |lines| ==> lines[i] != []
  }

  lemma {:induction false} SegmentsTile(wrapped: seq<seq<int>>, start: int, lineEnd: int)
    requires wrapped != [] && start < lineEnd
    requires |wrapped| == 1 || NonemptyLines(wrapped)
    requires start + EncodedLen(Flatten(wrapped)) <= lineEnd
    ensures Tiles(Segments(wrapped, start, lineEnd), start, lineEnd)
    decreases |wrapped|
  {
    if |wrapped| > 1 {
      EncodedLenConcat(wrapped[0], Flatten(wrapped[1..]));
      var end := start + EncodedLen(wrapped[0]);
      var tail := wrapped[1..];
      assert tail[0] != [];
      assert EncodedLen(Flatten(tail)) >= EncodedLen(tail[0]) > 0 by {
        EncodedLenConcat(tail[0], Flatten(tail[1..]));
      }
      SegmentsTile(tail, end, lineEnd);
    }
  }

  lemma {:induction false} BodyLinesShape(face: Face, width: int, part: seq<byte>)
    requires Valid(Body(part))
    ensures var lines := BodyLines(face, width, part);
            && (|lines| == 1 || NonemptyLines(lines))
            && EncodedLen(Flatten(lines)) <= |part|
  {
    if width <= 0 || Body(part) == [] {
      assert Flatten([[]]) == [];
    } else {
      GreedyIsLayout(face.glyphs, width, Runes(Body(part)));
      EncodedLenOfRunes(Body(part));
    }
  }

  lemma {:induction false} PartTiles(face: Face, width: int, part: seq<byte>, start: int)
    requires Valid(part) && part != []
    ensures Valid(Body(part)) && DecodeBytes(part).Ok?
    ensures Tiles(Segments(WrapLines(face, width, DecodeBytes(part).value), start, start + |part|),
                  start, start + |part|)
  {
    hide *;
    WrapLinesOfPart(face, width, part);
    BodyLinesShape(face, width, part);
    SegmentsTile(BodyLines(face, width, part), start, start + |part|);
  }

  // Length of the heading that opens the chapter at position, 0 when there is none.
  function HeadingLen(doc: Document, chapterStart: int, raw: seq<byte>, position: int): (n: nat)
    ensures n <= |raw|
  {
    if raw != [] && position == chapterStart && DecodeBytes(raw[..PartLen(raw)]).Ok? &&
       doc.isHeading(DecodeBytes(raw[..PartLen(raw)]).value)
    then PartLen(raw) else 0
  }

  // Valid text is always laid out, without gaps.
  lemma {:induction false} LinesTile(doc: Document, chapterStart: int, face: Face, width: int, raw: seq<byte>,
                                     position: int)
    requires Valid(raw) && chapterStart <= position
    ensures var lines := Lines(doc, chapterStart, face, width, raw, position);
            lines.Ok? &&
            Tiles(lines.value, position + HeadingLen(doc, chapterStart, raw, position), position + |raw|)
    decreases |raw|
  {
    hide *;
    if raw == [] {
      NoLines(doc, chapterStart, face, width, position);
    } else {
      var n := PartLen(raw);
      PartIsValid(raw);
      LinesTile(doc, chapterStart, face, width, raw[n..], position + n);
      PartTiles(face, width, raw[..n], position);
      NoHeadingAfter(doc, chapterStart, raw[n..], position + n);
      LinesTileStep(doc, chapterStart, face, width, raw, position, DecodeBytes(raw[..n]).value,
                    Lines(doc, chapterStart, face, width, raw[n..], position + n).value);
    }
  }

  lemma {:induction false} NoLines(doc: Document, chapterStart: int, face: Face, width: int, position: int)
    ensures Lines(doc, chapterStart, face, width, [], position) == Ok([]) && Tiles([], position, position)
    ensures HeadingLen(doc, chapterStart, [], position) == 0
  {
  }

  lemma {:induction false} NoHeadingAfter(doc: Document, chapterStart: int, raw: seq<byte>, position: int)
    requires chapterStart < position
    ensures HeadingLen(doc, chapterStart, raw, position) == 0
  {
  }

  lemma {:induction false} LinesUnfold(doc: Document, chapterStart: int, face: Face, width: int, raw: seq<byte>, position: int)
    requires raw != []
    requires var n := PartLen(raw);
             DecodeBytes(raw[..n]).Ok? && Lines(doc, chapterStart, face, width, raw[n..], position + n).Ok?
    ensures var n := PartLen(raw);
            Lines(doc, chapterStart, face, width, raw, position) ==
            Ok(Shown(doc, chapterStart, face, width, DecodeBytes(raw[..n]).value, position, position + n) +
               Lines(doc, chapterStart, face, width, raw[n..], position + n).value)
  {
    hide Shown, DecodeBytes, PartLen;
  }

  lemma {:induction false} LinesTileStep(doc: Document, chapterStart: int, face: Face, width: int, raw: seq<byte>, position: int,
                                         text: seq<int>, rest: seq<Line>)
    requires raw != [] && chapterStart <= position
    requires DecodeBytes(raw[..PartLen(raw)]) == Ok(text)
    requires Lines(doc, chapterStart, face, width, raw[PartLen(raw)..], position + PartLen(raw)) == Ok(rest)
    requires Tiles(Segments(WrapLines(face, width, text), position, position + PartLen(raw)), position, position + PartLen(raw))
    requires Tiles(rest, position + PartLen(raw), position + |raw|)
    ensures Lines(doc, chapterStart, face, width, raw, position).Ok?
    ensures Tiles(Lines(doc, chapterStart, face, width, raw, position).value,
                  position + HeadingLen(doc, chapterStart, raw, position), position + |raw|)
  {
    hide *;
    LinesUnfold(doc, chapterStart, face, width, raw, position);
    HeadingHides(doc, chapterStart, face, width, raw, position);
    var n := PartLen(raw);
    var shown := Shown(doc, chapterStart, face, width, text, position, position + n);
    if HeadingLen(doc, chapterStart, raw, position) == 0 {
      TilesConcat(shown, rest, position, position + n, position + |raw|);
    } else {
      assert shown + rest == rest;
    }
  }

  lemma {:induction false} HeadingHides(doc: Document, chapterStart: int, face: Face, width: int, raw: seq<byte>, position: int)
    requires raw != [] && DecodeBytes(raw[..PartLen(raw)]).Ok?
    ensures var n := PartLen(raw);
            var text := DecodeBytes(raw[..n]).value;
            var shown := Shown(doc, chapterStart, face, width, text, position, position + n);
            var heading := HeadingLen(doc, chapterStart, raw, position);
            && (heading == 0 || heading == n)
            && shown == if heading == 0 then Segments(WrapLines(face, width, text), position, position + n) else []
  {
    hide DecodeBytes, Segments, WrapLines, PartLen;
  }

  // ---- Pages tile ----

  lemma {:induction false} PagesOfTile(lines: seq<Line>, perPage: nat, a: int, b: int)
    requires perPage >= 1 && Tiles(lines, a, b)
    ensures PagesTile(PagesOf(lines, perPage), a, b)
    decreases |lines|
  {
    if lines != [] {
      TilesGrow(lines, a, b);
      if |lines| > perPage {
        TilesSplit(lines, a, b, perPage);
        TilesGrow(lines[..perPage], a, lines[perPage - 1].end);
        PagesOfTile(lines[perPage..], perPage, lines[perPage - 1].end, b);
      } else {
        assert PagesOf(lines, perPage)[1..] == [];
      }
    }
  }

  function Min(a: int, b: int): int {
    if a < b then a else b
  }

  // Page i shows the lines from i * perPage on, at most perPage of them.
  lemma {:induction false} PageContents(lines: seq<Line>, perPage: nat, i: nat, from: nat)
    requires perPage >= 1 && i < |PagesOf(lines, perPage)| && from == i * perPage
    ensures from < |lines|
    ensures PagesOf(lines, perPage)[i] == PageOf(lines[from..Min(from + perPage, |lines|)])
    decreases |lines|
  {
    hide PageOf;
    if |lines| <= perPage {
      assert i == 0;
      assert lines[0..|lines|] == lines;
    } else if i > 0 {
      var rest := lines[perPage..];
      assert (i - 1) * perPage == from - perPage;
      PageContents(rest, perPage, i - 1, from - perPage);
      assert rest[from - perPage..Min(from, |rest|)] == lines[from..Min(from + perPage, |lines|)];
    }
  }

  lemma {:induction false} PageCount(lines: seq<Line>, perPage: nat)
    requires perPage >= 1
    ensures var n := |PagesOf(lines, perPage)|;
            && (n == 0 <==> lines == [])
            && (0 < |lines| <= perPage <==> n == 1)
    decreases |lines|
  {
    if |lines| > perPage {
      PageCount(lines[perPage..], perPage);
    }
  }
}

/**
  A text the reader cannot resume in: a heading line with so many trailing
  spaces that what follows its first character needs more lines than a page
  has. The book face is 20 pixels high and draws ASCII 8, other runes 16 pixels
  wide (App/book-reader/font.go, App/c1device/bitmap.go).
 */
module HeadingResume {
  import opened Utf8
  import opened Wrapping
  import opened Pager
  import opened PageTiling
  import opened ChapterPages
  import opened CanonicalPages
  import opened ReadWindowProof

  const BOOK_LINE_HEIGHT := 20
  const SPACE := 0x20
  const TRAILING: nat := 200

  // The advances of the bitmap face.
  function Advance(c: int): nat {
    if 0 <= c < 128 then 8 else 16
  }

  // strings.TrimSpace as far as spaces go.
  function TrimRight(s: seq<int>): seq<int> {
    if s != [] && s[|s| - 1] == SPACE then TrimRight(s[..|s| - 1]) else s
  }

  function TrimLeft(s: seq<int>): seq<int> {
    if s != [] && s[0] == SPACE then TrimLeft(s[1..]) else s
  }

  function TrimSpaces(s: seq<int>): seq<int> {
    TrimLeft(TrimRight(s))
  }

  // "第1章"
  function FirstChapterTitle(): seq<int> {
    [0x7B2C, 0x31, 0x7AE0]
  }

  // A heading test that accepts that title and, like isChapterTitle on the trimmed line, no matter how it is padded.
  function PaddedTitle(text: seq<int>): bool {
    TrimSpaces(text) == FirstChapterTitle()
  }

  function Spaces(n: nat): (s: seq<byte>)
    ensures |s| == n && forall k :: 0 <= k < n ==> s[k] == 0x20
  {
    if n == 0 then [] else [0x20] + Spaces(n - 1)
  }

  function SpaceRunes(n: nat): seq<int> {
    if n == 0 then [] else [SPACE] + SpaceRunes(n - 1)
  }

  lemma {:induction false} SpacesDecode(n: nat)
    ensures Valid(Spaces(n)) && Runes(Spaces(n)) == SpaceRunes(n)
  {
    if n > 0 {
      SpacesDecode(n - 1);
      AsciiChar(0x20);
      ValidCons([0x20], Spaces(n - 1));
    }
  }

  // ---- The file ----

  function FirstRune(): seq<byte> {
    [0xE7, 0xAC, 0xAC]
  }

  // "1章" and the spaces.
  function Rest(): seq<byte> {
    [0x31] + ([0xE7, 0xAB, 0xA0] + Spaces(TRAILING))
  }

  function RestRunes(): seq<int> {
    [0x31] + ([0x7AE0] + SpaceRunes(TRAILING))
  }

  function File(): seq<byte> {
    FirstRune() + (Rest() + [10])
  }

  lemma {:induction false} ThreeByteRune(c: seq<byte>, s: seq<byte>)
    requires CharLen(c) == |c| == 3 && Valid(s)
    ensures Valid(c + s) && Runes(c + s) == [Scalar(c)] + Runes(s) && Valid(c)
  {
    ValidCons(c, s);
    ValidCons(c, []);
    ValidEmptyText();
    hide CharLen, Runes, Scalar, Valid;
    assert c + [] == c;
  }

  lemma {:induction false} TitleRunes()
    ensures CharLen([0xE7, 0xAC, 0xAC]) == 3 && Scalar([0xE7, 0xAC, 0xAC]) == 0x7B2C
    ensures CharLen([0xE7, 0xAB, 0xA0]) == 3 && Scalar([0xE7, 0xAB, 0xA0]) == 0x7AE0
    ensures CharLen([0x31]) == 1 && Scalar([0x31]) == 0x31
  {
  }

  lemma {:induction false} RestDecodes()
    ensures Valid(Rest()) && Runes(Rest()) == RestRunes() && |Rest()| == TRAILING + 4
    ensures Rest()[|Rest()| - 1] == 0x20 && 10 !in Rest()
  {
    hide Spaces, SpaceRunes, CharLen, Scalar, Runes, Valid;
    TitleRunes();
    SpacesDecode(TRAILING);
    ThreeByteRune([0xE7, 0xAB, 0xA0], Spaces(TRAILING));
    ValidCons([0x31], [0xE7, 0xAB, 0xA0] + Spaces(TRAILING));
  }

  // Trimming the line feed; the spaces stay.
  lemma {:induction false} LineDecodes(text: seq<byte>)
    requires Valid(text) && text != [] && text[|text| - 1] == 0x20
    ensures DecodeBytes(text + [10]) == Ok(Runes(text))
  {
    assert (text + [10])[..|text|] == text;
    assert TrimByte(text + [10], 10) == text && TrimByte(text, 13) == text;
  }

  lemma {:induction false} FileFacts()
    ensures |File()| == TRAILING + 8 && File()[3..] == Rest() + [10] && File()[..3] == FirstRune()
    ensures Valid(File()) && Boundary(File(), 0) && Boundary(File(), 3) && Boundary(File(), |File()|)
    ensures DecodeBytes(File()) == Ok([0x7B2C] + RestRunes()) && DecodeBytes(Rest() + [10]) == Ok(RestRunes())
    ensures PartLen(File()) == |File()|
  {
    hide Rest, RestRunes, Runes, Valid, DecodeBytes, CharLen, Scalar, PartLen;
    RestDecodes();
    TitleRunes();
    var text := FirstRune() + Rest();
    ThreeByteRune(FirstRune(), Rest());
    AsciiChar(10);
    ValidConcat(text, [10]);
    Associate(FirstRune(), Rest(), [10]);
    assert File() == text + [10];
    LineDecodes(text);
    LineDecodes(Rest());
    ValidEmptyText();
    assert File()[..0] == [] && File()[..3] == FirstRune() && File()[..|File()|] == File();
    assert 10 !in text;
    assert File()[..|File()| - 1] == text;
    PartLenIs(File(), |File()|);
  }

  lemma {:induction false} ValidEmptyText()
    ensures Valid([])
  {
  }

  // ---- It is a heading ----

  lemma {:induction false} SpacesTrimmed(s: seq<int>, n: nat)
    requires s != [] && s[|s| - 1] != SPACE
    ensures TrimRight(s + SpaceRunes(n)) == s
  {
    if n == 0 {
      assert s + SpaceRunes(0) == s;
    } else {
      SpacesTrimmed(s, n - 1);
      SpaceLast(n);
      var t := s + SpaceRunes(n);
      assert t[..|t| - 1] == s + SpaceRunes(n - 1) && t[|t| - 1] == SPACE;
    }
  }

  lemma {:induction false} SpaceLast(n: nat)
    requires n > 0
    ensures SpaceRunes(n) == SpaceRunes(n - 1) + [SPACE]
  {
    if n > 1 {
      SpaceLast(n - 1);
    }
  }

  lemma {:induction false} FileIsHeading()
    ensures PaddedTitle([0x7B2C] + RestRunes())
  {
    var title := FirstChapterTitle();
    assert [0x7B2C] + RestRunes() == title + SpaceRunes(TRAILING) by {
      hide SpaceRunes;
    }
    SpacesTrimmed(title, TRAILING);
    hide SpaceRunes;
  }

  // ---- Its rest needs six lines ----

  // A layout of n lines holds at most n lines' worth of width.
  lemma {:induction false} LayoutWidth(g: Glyphs, w: nat, lines: seq<seq<int>>)
    requires forall c :: g(c) <= w
    requires forall i :: 0 <= i < |lines| ==> Fits(g, w, lines[i])
    ensures Width(g, Flatten(lines)) <= |lines| * w
  {
    if lines != [] {
      LayoutWidth(g, w, lines[1..]);
      WidthConcat(g, lines[0], Flatten(lines[1..]));
      assert |lines[0]| == 1 ==> lines[0] == [lines[0][0]] && Width(g, lines[0]) == g(lines[0][0]) + Width(g, []);
      hide Flatten;
      assert (|lines| - 1) * w + w == |lines| * w;
    }
  }

  lemma {:induction false} SpacesWidth(n: nat)
    ensures Width(Advance, SpaceRunes(n)) == 8 * n
  {
    if n > 0 {
      SpacesWidth(n - 1);
      assert SpaceRunes(n)[1..] == SpaceRunes(n - 1);
    }
  }

  lemma {:induction false} RestWidth()
    ensures Width(Advance, RestRunes()) == 24 + 8 * TRAILING
  {
    SpacesWidth(TRAILING);
    WidthConcat(Advance, [0x7AE0], SpaceRunes(TRAILING));
    WidthConcat(Advance, [0x31], [0x7AE0] + SpaceRunes(TRAILING));
    assert [0x31][1..] == [] && [0x7AE0][1..] == [];
    assert Width(Advance, [0x31]) == 8 && Width(Advance, [0x7AE0]) == 16;
    hide SpaceRunes;
  }

  lemma {:induction false} RestNeedsSixLines(face: Face)
    requires face == Face(Advance, BOOK_LINE_HEIGHT)
    ensures |WrapLines(face, TEXT_WIDTH, RestRunes())| >= 6 && PerPage(face, BODY_HEIGHT) == 5
  {
    var text := RestRunes();
    RestWidth();
    EndsInSpace();
    assert TrimSuffix(TrimSuffix(text, LF), CR) == text && text != [] by {
      hide RestRunes;
    }
    hide RestRunes, TrimSuffix, Greedy;
    GreedyIsLayout(Advance, TEXT_WIDTH, text);
    var lines := Greedy(Advance, TEXT_WIDTH, text);
    LayoutWidth(Advance, TEXT_WIDTH, lines);
    assert Wrapped(Advance, TEXT_WIDTH, text) == lines;
    assert 24 + 8 * TRAILING <= |lines| * TEXT_WIDTH;
  }

  lemma {:induction false} EndsInSpace()
    ensures RestRunes() != [] && RestRunes()[|RestRunes()| - 1] == SPACE
  {
    SpaceLast(TRAILING);
    hide SpaceRunes;
  }

  // A chapter that is only this line.
  lemma {:induction false} HeadingIsTooLong()
    returns (doc: Document, chapter: Chapter, face: Face, offset: nat)
    ensures doc == Document(File(), PaddedTitle) && face == Face(Advance, BOOK_LINE_HEIGHT)
    ensures GoodChapter(doc, chapter) && chapter.start <= offset < chapter.end && Boundary(doc.bytes, offset)
    ensures HeadingTooLong(doc, chapter, face, offset)
  {
    FileFacts();
    FileIsHeading();
    hide File, Rest, RestRunes, Valid, PartLen, DecodeBytes, WrapLines, PerPage, PaddedTitle;
    doc := Document(File(), PaddedTitle);
    chapter := Chapter(FirstChapterTitle(), 0, TRAILING + 8, false);
    face := Face(Advance, BOOK_LINE_HEIGHT);
    offset := 3;
    RestNeedsSixLines(face);
    var file := File();
    assert file[0..|file|] == file && file[..|file|] == file && file[3..|file|] == file[3..];
    WholeFileLoaded(file);
  }

  lemma {:induction false} WholeFileLoaded(file: seq<byte>)
    requires |file| <= MAX_CHAPTER_WINDOW
    ensures LoadWindow(file, 0, |file|) == (file, |file|)
  {
    assert file[0..|file|] == file;
    hide CompleteTextWindow, AfterLastLF;
  }
  // The position saved after the first character of that chapter cannot be restored: its pages can be counted, but
  // reading from there fails.
  lemma {:induction false} HeadingThatCannotBeResumed()
    returns (doc: Document, chapter: Chapter, face: Face, offset: nat, ws: seq<Canon>)
    ensures doc == Document(File(), PaddedTitle) && face == Face(Advance, BOOK_LINE_HEIGHT)
    ensures GoodChapter(doc, chapter) && chapter.start <= offset < chapter.end && Boundary(doc.bytes, offset)
    ensures Canonical(doc, chapter, face, chapter.start) == Ok(ws)
    ensures Usable(IndexOf(ws)) && ReadWindow(doc, chapter, face, IndexOf(ws), offset).Err?
  {
    hide *;
    doc, chapter, face, offset := HeadingIsTooLong();
    var i, j;
    ws, i, j := RestoresPosition(doc, chapter, face, offset);
  }
}

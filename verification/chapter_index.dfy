/**
  What the chapter scan promises: chapters that cover the text without gaps,
  one per heading line, with the body flag of exactly the sections that have
  body text; the check of a cached index; and the binary search from a byte
  offset back to its chapter (App/book-reader/document.go, document_cache.go,
  app.go).
 */
module ChapterIndex {
  import opened Utf8
  import opened Pager
  import opened PageTiling
  import opened SortSearch
  import opened Options
  import opened Outline
  import opened ChapterScan
  import opened CanonicalPages

  // ---- Meaning of a list of chapters ----

  // The byte order mark found by detectEncoding.
  predicate Marked(file: seq<byte>, bom: nat) {
    bom == 0 || (bom == 3 && file != [] && |file| >= 3 && file[..3] == [0xEF, 0xBB, 0xBF])
  }

  // An empty line is neither a title nor body text.
  predicate Sane(g: Grammar) {
    !g.isHeading([]) && !g.meaningful([])
  }

  predicate LineStart(file: seq<byte>, p: int) {
    0 <= p < |file| && (p == 0 || file[p - 1] == 10)
  }

  function LineEnd(file: seq<byte>, p: nat): (e: nat)
    requires p < |file|
    ensures p < e <= |file|
  {
    p + PartLen(file[p..])
  }

  function KindAt(g: Grammar, bom: nat, file: seq<byte>, p: nat): Kind
    requires p < |file|
  {
    KindOf(g, bom, file[p..LineEnd(file, p)], p)
  }

  // Where the text of a line starts.
  function At(bom: nat, p: nat): nat {
    if p == 0 then bom else p
  }

  predicate Contiguous(cs: seq<Chapter>, a: int, b: int) {
    && cs != [] && cs[0].start == a && cs[|cs| - 1].end == b
    && (forall i :: 0 <= i < |cs| ==> cs[i].start <= cs[i].end)
    && (forall i :: 0 < i < |cs| ==> cs[i - 1].end == cs[i].start)
  }

  predicate TitleAt(g: Grammar, bom: nat, file: seq<byte>, p: int) {
    LineStart(file, p) && KindAt(g, bom, file, p).Title?
  }

  predicate BodyAt(g: Grammar, bom: nat, file: seq<byte>, p: int) {
    LineStart(file, p) && KindAt(g, bom, file, p).BodyText?
  }

  ghost predicate BodyWithin(g: Grammar, bom: nat, file: seq<byte>, a: int, b: int, upto: nat) {
    exists p: nat :: p < upto && BodyAt(g, bom, file, p) && a <= At(bom, p) < b
  }

  // What the chapter starting at a heading is called.
  function TitleOf(g: Grammar, bom: nat, file: seq<byte>, p: nat): seq<int> {
    if TitleAt(g, bom, file, p) then g.titleOf(KindAt(g, bom, file, p).text) else []
  }

  // The text before the first heading.
  function OpeningTitle(g: Grammar, bom: nat, file: seq<byte>, chapters: nat, upto: nat): seq<int> {
    if upto > 0 && TitleAt(g, bom, file, 0) then TitleOf(g, bom, file, 0)
    else if chapters == 1 then WHOLE_TEXT
    else PREAMBLE
  }

  // After the first, the chapters start at the heading lines before upto.
  ghost predicate Headed(g: Grammar, bom: nat, file: seq<byte>, cs: seq<Chapter>, upto: nat) {
    && (forall i :: 0 < i < |cs| ==> bom < cs[i].start < upto && TitleAt(g, bom, file, cs[i].start))
    && (forall p :: 0 < p < upto && TitleAt(g, bom, file, p) ==> exists i :: 0 < i < |cs| && cs[i].start == p)
  }

  predicate Named(g: Grammar, bom: nat, file: seq<byte>, cs: seq<Chapter>, upto: nat) {
    && (forall i :: 0 < i < |cs| ==> 0 <= cs[i].start && cs[i].title == TitleOf(g, bom, file, cs[i].start))
    && (cs != [] ==> cs[0].title == OpeningTitle(g, bom, file, |cs|, upto))
  }

  ghost predicate Bodied(g: Grammar, bom: nat, file: seq<byte>, cs: seq<Chapter>, upto: nat) {
    forall i :: 0 <= i < |cs| ==> (cs[i].hasBody <==> BodyWithin(g, bom, file, cs[i].start, cs[i].end, upto))
  }

  // The chapters of the lines that start before upto.
  ghost predicate Describes(g: Grammar, bom: nat, file: seq<byte>, cs: seq<Chapter>, upto: nat) {
    && Contiguous(cs, bom, |file|)
    && Headed(g, bom, file, cs, upto)
    && Named(g, bom, file, cs, upto)
    && Bodied(g, bom, file, cs, upto)
  }

  // ---- One line ----

  // e is the next line start after p, or the end.
  predicate Follows(file: seq<byte>, p: nat, e: nat) {
    p < e <= |file| && LineStart(file, p) && (e == |file| || LineStart(file, e)) &&
    forall q :: p < q < e ==> !LineStart(file, q)
  }

  lemma {:induction false} LineFollows(file: seq<byte>, p: nat)
    requires LineStart(file, p)
    ensures Follows(file, p, LineEnd(file, p))
  {
    var e := LineEnd(file, p);
    assert file[e - 1] == file[p..][e - p - 1];
    forall q | p < q < e ensures !LineStart(file, q) {
      assert file[q - 1] == file[p..][q - p - 1];
    }
  }

  // Where the text of a line starts; a heading or body line has text there.
  lemma {:induction false} LineFacts(g: Grammar, bom: nat, file: seq<byte>, p: nat)
    requires Marked(file, bom) && Sane(g) && LineStart(file, p)
    ensures TitleStart(bom, file[p..LineEnd(file, p)], p) == At(bom, p)
    ensures TitleAt(g, bom, file, p) || BodyAt(g, bom, file, p) ==> At(bom, p) < |file|
    ensures p > 0 ==> p > bom
  {
    LineFollows(file, p);
    var e := LineEnd(file, p);
    if bom == 3 {
      assert file[0] == file[..3][0] && file[1] == file[..3][1] && file[2] == file[..3][2];
      if p == 0 {
        assert file[e - 1] == file[0..][e - 1];
        assert e >= 3;
        if |file| == 3 {
          BareMark(g, file[0..e]);
        }
      }
    }
  }

  // A file that is only a byte order mark has no text.
  lemma {:induction false} BareMark(g: Grammar, line: seq<byte>)
    requires Sane(g) && |line| == 3
    ensures KindOf(g, 3, line, 0).Blank?
  {
    assert Content(3, line, 0) == [];
    assert TrimByte(TrimByte([], 10), 13) == [];
  }

  // Body text below a line start, seen from the next line.
  lemma {:induction false} BodyGrows(g: Grammar, bom: nat, file: seq<byte>, a: int, b: int, p: nat, e: nat)
    requires Follows(file, p, e)
    ensures BodyWithin(g, bom, file, a, b, e) <==>
            BodyWithin(g, bom, file, a, b, p) || (BodyAt(g, bom, file, p) && a <= At(bom, p) < b)
  {
    hide KindAt, At;
    if BodyWithin(g, bom, file, a, b, p) {
      var q: nat :| q < p && BodyAt(g, bom, file, q) && a <= At(bom, q) < b;
    }
  }

  // All text before a line start lies below it.
  lemma {:induction false} BodyBelow(g: Grammar, bom: nat, file: seq<byte>, a: int, b: int, p: nat)
    requires p > bom && b >= p
    ensures BodyWithin(g, bom, file, a, b, p) <==> BodyWithin(g, bom, file, a, p, p)
  {
    hide BodyAt;
  }

  lemma {:induction false} NothingAfter(g: Grammar, bom: nat, file: seq<byte>, b: int, p: nat)
    requires p > bom
    ensures !BodyWithin(g, bom, file, p, b, p)
  {
    hide BodyAt;
  }

  lemma {:induction false} TitlesBelow(g: Grammar, bom: nat, file: seq<byte>, p: nat, e: nat)
    requires Follows(file, p, e)
    ensures forall q :: q < e && TitleAt(g, bom, file, q) ==> q <= p
  {
    hide KindAt;
  }

  // ---- The scan ----

  // While lines are still to come, the chapters are those of the lines seen so far.
  ghost predicate Faithful(g: Grammar, bom: nat, file: seq<byte>, s: Scan, upto: nat) {
    && upto <= |file| && (upto == |file| || LineStart(file, upto))
    && (s.chapters != [] ==> CloseScan(s, |file|, bom) == s.chapters && upto > 0)
    && (s.chapters != [] ==> TitleAt(g, bom, file, 0) || |s.chapters| > 1)
    && (s.chapters == [] && upto > 0 ==> !TitleAt(g, bom, file, 0))
    && Describes(g, bom, file, CloseScan(s, |file|, bom), upto)
  }

  // Closing the last chapter at p and opening the next one there; the first may change its name.
  function WithHeading(cs: seq<Chapter>, opening: seq<int>, p: nat, size: nat, title: seq<int>): seq<Chapter>
    requires cs != []
  {
    var closed := cs[|cs| - 1 := cs[|cs| - 1].(end := p)];
    closed[0 := closed[0].(title := opening)] + [Chapter(title, p, size, false)]
  }

  lemma {:induction false} WithHeadingFacts(cs: seq<Chapter>, opening: seq<int>, p: nat, size: nat, title: seq<int>)
    requires cs != []
    ensures var next := WithHeading(cs, opening, p, size, title);
            && |next| == |cs| + 1 && next[|cs|] == Chapter(title, p, size, false) && next[0].title == opening
            && (forall i :: 0 <= i < |cs| ==> next[i].start == cs[i].start && next[i].hasBody == cs[i].hasBody)
            && (forall i :: 0 <= i < |cs| - 1 ==> next[i].end == cs[i].end) && next[|cs| - 1].end == p
            && (forall i :: 0 < i < |cs| ==> next[i].title == cs[i].title)
  {
  }

  lemma {:induction false} HeadingKeepsContiguous(cs: seq<Chapter>, opening: seq<int>, a: int, p: nat, size: nat, title: seq<int>)
    requires Contiguous(cs, a, size) && p <= size && a <= p && (forall i :: 0 < i < |cs| ==> cs[i].start <= p)
    ensures Contiguous(WithHeading(cs, opening, p, size, title), a, size)
  {
    WithHeadingFacts(cs, opening, p, size, title);
    hide WithHeading;
    var next := WithHeading(cs, opening, p, size, title);
    forall i | 0 < i < |next| ensures next[i - 1].end == next[i].start {
    }
  }

  lemma {:induction false} HeadingIsCounted(g: Grammar, bom: nat, file: seq<byte>, cs: seq<Chapter>, next: seq<Chapter>,
                                           p: nat, e: nat)
    requires Headed(g, bom, file, cs, p) && bom < p && Follows(file, p, e) && TitleAt(g, bom, file, p)
    requires |next| == |cs| + 1 && next[|cs|].start == p && cs != []
    requires forall i :: 0 <= i < |cs| ==> next[i].start == cs[i].start
    ensures Headed(g, bom, file, next, e)
  {
    TitlesBelow(g, bom, file, p, e);
    hide TitleAt;
    forall q | 0 < q < e && TitleAt(g, bom, file, q) ensures exists i :: 0 < i < |next| && next[i].start == q {
      if q < p {
        var i :| 0 < i < |cs| && cs[i].start == q;
        assert next[i].start == q;
      } else {
        assert next[|cs|].start == q;
      }
    }
  }

  lemma {:induction false} BodiesAtHeading(g: Grammar, bom: nat, file: seq<byte>, cs: seq<Chapter>, next: seq<Chapter>,
                                           p: nat, e: nat)
    requires Bodied(g, bom, file, cs, p) && bom < p && Follows(file, p, e) && TitleAt(g, bom, file, p)
    requires cs != [] && |next| == |cs| + 1 && next[|cs|].start == p && !next[|cs|].hasBody
    requires cs[|cs| - 1].end >= p == next[|cs| - 1].end
    requires forall i :: 0 <= i < |cs| ==> next[i].start == cs[i].start && next[i].hasBody == cs[i].hasBody
    requires forall i :: 0 <= i < |cs| - 1 ==> next[i].end == cs[i].end
    ensures Bodied(g, bom, file, next, e)
  {
    assert !BodyAt(g, bom, file, p);
    hide BodyAt, TitleAt, BodyWithin, Follows, At;
    forall i | 0 <= i < |next|
      ensures next[i].hasBody <==> BodyWithin(g, bom, file, next[i].start, next[i].end, e)
    {
      BodyGrows(g, bom, file, next[i].start, next[i].end, p, e);
      if i == |cs| - 1 {
        BodyBelow(g, bom, file, cs[i].start, cs[i].end, p);
      } else if i == |cs| {
        NothingAfter(g, bom, file, next[i].end, p);
      }
    }
  }

  lemma {:induction false} HeadingStep(g: Grammar, bom: nat, file: seq<byte>, cs: seq<Chapter>, p: nat, e: nat)
    requires Describes(g, bom, file, cs, p) && bom < p && Follows(file, p, e) && TitleAt(g, bom, file, p)
    ensures Describes(g, bom, file, WithHeading(cs, OpeningTitle(g, bom, file, |cs| + 1, p), p, |file|,
                                                TitleOf(g, bom, file, p)), e)
  {
    var opening, title := OpeningTitle(g, bom, file, |cs| + 1, p), TitleOf(g, bom, file, p);
    var next := WithHeading(cs, opening, p, |file|, title);
    WithHeadingFacts(cs, opening, p, |file|, title);
    assert opening == OpeningTitle(g, bom, file, |cs| + 1, e);
    hide BodyAt, TitleAt, BodyWithin, WithHeading, At, OpeningTitle, LineStart;
    HeadingKeepsContiguous(cs, opening, bom, p, |file|, title);
    HeadingIsCounted(g, bom, file, cs, next, p, e);
    BodiesAtHeading(g, bom, file, cs, next, p, e);
  }

  // A line other than a heading lies in the last chapter.
  lemma {:induction false} LinesInLast(bom: nat, size: nat, cs: seq<Chapter>, p: nat, i: nat)
    requires Contiguous(cs, bom, size) && (forall k :: 0 < k < |cs| ==> bom < cs[k].start < p)
    requires At(bom, p) < size && (p > 0 ==> p > bom) && i < |cs|
    ensures cs[i].start <= At(bom, p) < cs[i].end <==> i == |cs| - 1
  {
    if i < |cs| - 1 {
      assert cs[i + 1].start == cs[i].end;
    }
  }

  function WithBody(cs: seq<Chapter>, body: bool): (next: seq<Chapter>)
    requires cs != []
    ensures |next| == |cs|
    ensures forall i :: 0 <= i < |cs| ==> next[i] == cs[i].(hasBody := cs[i].hasBody || (body && i == |cs| - 1))
  {
    if body then cs[|cs| - 1 := cs[|cs| - 1].(hasBody := true)] else cs
  }

  lemma {:induction false} BodiesAtText(g: Grammar, bom: nat, file: seq<byte>, cs: seq<Chapter>, p: nat, e: nat)
    requires Contiguous(cs, bom, |file|) && Headed(g, bom, file, cs, p) && Bodied(g, bom, file, cs, p)
    requires Follows(file, p, e) && (BodyAt(g, bom, file, p) ==> At(bom, p) < |file|) && (p > 0 ==> p > bom)
    ensures Bodied(g, bom, file, WithBody(cs, BodyAt(g, bom, file, p)), e)
  {
    hide BodyAt, TitleAt, BodyWithin, Follows, At, WithBody;
    var next := WithBody(cs, BodyAt(g, bom, file, p));
    forall i | 0 <= i < |next|
      ensures next[i].hasBody <==> BodyWithin(g, bom, file, next[i].start, next[i].end, e)
    {
      BodyGrows(g, bom, file, cs[i].start, cs[i].end, p, e);
      if BodyAt(g, bom, file, p) {
        LinesInLast(bom, |file|, cs, p, i);
      }
    }
  }

  // Starts and names are left alone by a line that is no heading.
  lemma {:induction false} ShapeAtText(g: Grammar, bom: nat, file: seq<byte>, cs: seq<Chapter>, next: seq<Chapter>,
                                       p: nat, e: nat)
    requires Contiguous(cs, bom, |file|) && Headed(g, bom, file, cs, p) && Named(g, bom, file, cs, p)
    requires p < e && (forall q :: q < e && TitleAt(g, bom, file, q) ==> q < p)
    requires |next| == |cs| && forall i :: 0 <= i < |cs| ==> next[i] == cs[i].(hasBody := next[i].hasBody)
    requires OpeningTitle(g, bom, file, |cs|, p) == OpeningTitle(g, bom, file, |cs|, e)
    ensures Contiguous(next, bom, |file|) && Headed(g, bom, file, next, e) && Named(g, bom, file, next, e)
  {
    hide TitleAt, OpeningTitle, TitleOf;
    forall q | 0 < q < e && TitleAt(g, bom, file, q) ensures exists i :: 0 < i < |next| && next[i].start == q {
      var i :| 0 < i < |cs| && cs[i].start == q;
      assert next[i].start == q;
    }
  }

  lemma {:induction false} OpeningStays(g: Grammar, bom: nat, file: seq<byte>, cs: seq<Chapter>, p: nat, e: nat)
    requires Follows(file, p, e) && !TitleAt(g, bom, file, p)
    ensures OpeningTitle(g, bom, file, |cs|, p) == OpeningTitle(g, bom, file, |cs|, e)
    ensures forall q :: q < e && TitleAt(g, bom, file, q) ==> q < p
  {
    TitlesBelow(g, bom, file, p, e);
    hide TitleAt, Follows;
  }

  // A line that is no heading: only the last chapter can gain body text.
  lemma {:induction false} TextStep(g: Grammar, bom: nat, file: seq<byte>, cs: seq<Chapter>, p: nat, e: nat)
    requires Marked(file, bom) && Sane(g) && Describes(g, bom, file, cs, p)
    requires Follows(file, p, e) && !TitleAt(g, bom, file, p)
    ensures cs != [] && Describes(g, bom, file, WithBody(cs, BodyAt(g, bom, file, p)), e)
  {
    assert cs != [];
    assert p < e && LineStart(file, p);
    hide *;
    assert Contiguous(cs, bom, |file|) && Headed(g, bom, file, cs, p) && Named(g, bom, file, cs, p) &&
           Bodied(g, bom, file, cs, p) by {
      DescribesParts(g, bom, file, cs, p);
    }
    LineFacts(g, bom, file, p);
    OpeningStays(g, bom, file, cs, p, e);
    BodiesAtText(g, bom, file, cs, p, e);
    var next := WithBody(cs, BodyAt(g, bom, file, p));
    ShapeAtText(g, bom, file, cs, next, p, e);
    DescribesParts(g, bom, file, next, e);
  }

  lemma {:induction false} DescribesParts(g: Grammar, bom: nat, file: seq<byte>, cs: seq<Chapter>, upto: nat)
    ensures Describes(g, bom, file, cs, upto) <==>
            Contiguous(cs, bom, |file|) && Headed(g, bom, file, cs, upto) && Named(g, bom, file, cs, upto) &&
            Bodied(g, bom, file, cs, upto)
  {
  }

  // The first line of a text that opens with a heading.
  lemma {:induction false} FirstHeading(g: Grammar, bom: nat, file: seq<byte>, e: nat)
    requires bom <= |file| && TitleAt(g, bom, file, 0) && Follows(file, 0, e)
    ensures Describes(g, bom, file, [Chapter(TitleOf(g, bom, file, 0), bom, |file|, false)], e)
  {
  }

  lemma {:induction false} StepByKind(g: Grammar, bom: nat, file: seq<byte>, s: Scan, p: nat)
    requires Marked(file, bom) && Sane(g) && p < |file| && LineStart(file, p)
    ensures var next := ScanLine(g, |file|, bom, s, file[p..LineEnd(file, p)], p);
            next.Ok? ==>
              if TitleAt(g, bom, file, p) then
                next.value == StartChapter(g, |file|, bom, s, KindAt(g, bom, file, p).text, At(bom, p))
              else next.value == if BodyAt(g, bom, file, p) then MarkBody(s) else s
  {
    LineFacts(g, bom, file, p);
    hide KindOf, TitleStart, StartChapter, MarkBody;
  }

  // The scanner's two updates, seen on the chapters it would return now.
  lemma {:induction false} UpdatesOfView(g: Grammar, size: nat, bom: nat, s: Scan, title: seq<int>, at: nat)
    requires s.chapters != [] ==> s.chapters[|s.chapters| - 1].end == size
    ensures var cs := CloseScan(s, size, bom);
            && CloseScan(MarkBody(s), size, bom) == WithBody(cs, true)
            && CloseScan(s, size, bom) == WithBody(cs, false)
            && (at > bom ==>
                  StartChapter(g, size, bom, s, title, at).chapters ==
                  WithHeading(cs, if s.chapters == [] then PREAMBLE else cs[0].title, at, size, g.titleOf(title)))
  {
    if s.chapters != [] {
      assert CloseScan(s, size, bom) == s.chapters;
      var closed := s.chapters[|s.chapters| - 1 := s.chapters[|s.chapters| - 1].(end := at)];
      assert closed[0 := closed[0].(title := s.chapters[0].title)] == closed;
    }
  }

  lemma {:induction false} FaithfulParts(g: Grammar, bom: nat, file: seq<byte>, s: Scan, p: nat)
    ensures Faithful(g, bom, file, s, p) <==>
      && p <= |file| && (p == |file| || LineStart(file, p))
      && (s.chapters != [] ==> CloseScan(s, |file|, bom) == s.chapters && p > 0)
      && (s.chapters != [] ==> TitleAt(g, bom, file, 0) || |s.chapters| > 1)
      && (s.chapters == [] && p > 0 ==> !TitleAt(g, bom, file, 0))
      && Describes(g, bom, file, CloseScan(s, |file|, bom), p)
  {
  }

  lemma {:induction false} FollowsFacts(file: seq<byte>, p: nat, e: nat)
    requires Follows(file, p, e)
    ensures p < e <= |file| && (e == |file| || LineStart(file, e))
  {
  }

  lemma {:induction false} TextScan(g: Grammar, bom: nat, file: seq<byte>, s: Scan, p: nat, e: nat)
    requires Marked(file, bom) && Sane(g) && Faithful(g, bom, file, s, p) && Follows(file, p, e)
    requires !TitleAt(g, bom, file, p)
    ensures Faithful(g, bom, file, if BodyAt(g, bom, file, p) then MarkBody(s) else s, e)
  {
    hide *;
    FaithfulParts(g, bom, file, s, p);
    FollowsFacts(file, p, e);
    var cs := CloseScan(s, |file|, bom);
    ViewEnds(s, |file|, bom);
    UpdatesOfView(g, |file|, bom, s, [], 0);
    TextStep(g, bom, file, cs, p, e);
    var next := if BodyAt(g, bom, file, p) then MarkBody(s) else s;
    FaithfulParts(g, bom, file, next, e);
    MarkedView(s, |file|, bom);
  }

  lemma {:induction false} ViewEnds(s: Scan, size: nat, bom: nat)
    ensures s.chapters == [] || CloseScan(s, size, bom) != s.chapters || s.chapters[|s.chapters| - 1].end == size
  {
  }

  lemma {:induction false} MarkedView(s: Scan, size: nat, bom: nat)
    ensures |s.chapters| == |MarkBody(s).chapters|
    ensures s.chapters != [] && CloseScan(s, size, bom) == s.chapters ==>
              CloseScan(MarkBody(s), size, bom) == MarkBody(s).chapters
  {
  }

  lemma {:induction false} TitleScan(g: Grammar, bom: nat, file: seq<byte>, s: Scan, p: nat, e: nat)
    requires Marked(file, bom) && Sane(g) && Faithful(g, bom, file, s, p) && Follows(file, p, e)
    requires TitleAt(g, bom, file, p)
    ensures Faithful(g, bom, file, StartChapter(g, |file|, bom, s, KindAt(g, bom, file, p).text, At(bom, p)), e)
  {
    assert g.titleOf(KindAt(g, bom, file, p).text) == TitleOf(g, bom, file, p);
    assert LineStart(file, p) && (At(bom, p) == if p == 0 then bom else p);
    hide *;
    FaithfulParts(g, bom, file, s, p);
    FollowsFacts(file, p, e);
    LineFacts(g, bom, file, p);
    var cs, text := CloseScan(s, |file|, bom), KindAt(g, bom, file, p).text;
    var next := StartChapter(g, |file|, bom, s, text, At(bom, p));
    if p == 0 {
      FirstHeading(g, bom, file, e);
      FirstChapter(g, |file|, bom, s, text);
    } else {
      ViewEnds(s, |file|, bom);
      UpdatesOfView(g, |file|, bom, s, text, p);
      OpeningAtHeading(g, bom, file, s, cs, p);
      HeadingStep(g, bom, file, cs, p, e);
      LastIsOpen(cs, OpeningTitle(g, bom, file, |cs| + 1, p), p, |file|, TitleOf(g, bom, file, p));
    }
    ClosedView(next, |file|, bom);
    FaithfulParts(g, bom, file, next, e);
  }

  lemma {:induction false} FirstChapter(g: Grammar, size: nat, bom: nat, s: Scan, text: seq<int>)
    requires s.chapters == []
    ensures StartChapter(g, size, bom, s, text, bom).chapters == [Chapter(g.titleOf(text), bom, size, false)]
  {
  }

  lemma {:induction false} OpeningAtHeading(g: Grammar, bom: nat, file: seq<byte>, s: Scan, cs: seq<Chapter>, p: nat)
    requires p > 0 && cs == CloseScan(s, |file|, bom) && Describes(g, bom, file, cs, p)
    requires s.chapters == [] ==> !TitleAt(g, bom, file, 0)
    requires s.chapters != [] ==> TitleAt(g, bom, file, 0) || |cs| > 1
    ensures cs != []
    ensures OpeningTitle(g, bom, file, |cs| + 1, p) == if s.chapters == [] then PREAMBLE else cs[0].title
  {
    hide TitleAt, TitleOf;
  }

  lemma {:induction false} LastIsOpen(cs: seq<Chapter>, opening: seq<int>, p: nat, size: nat, title: seq<int>)
    requires cs != []
    ensures var next := WithHeading(cs, opening, p, size, title); |next| == |cs| + 1 && next[|next| - 1].end == size
  {
  }

  lemma {:induction false} ClosedView(s: Scan, size: nat, bom: nat)
    requires s.chapters != [] && s.chapters[|s.chapters| - 1].end == size
    ensures CloseScan(s, size, bom) == s.chapters
  {
  }

  lemma {:induction false} ScanStep(g: Grammar, bom: nat, file: seq<byte>, s: Scan, p: nat)
    requires Marked(file, bom) && Sane(g) && Faithful(g, bom, file, s, p) && p < |file|
    ensures var e := LineEnd(file, p);
            var next := ScanLine(g, |file|, bom, s, file[p..e], p);
            next.Ok? ==> Faithful(g, bom, file, next.value, e)
  {
    hide *;
    FaithfulParts(g, bom, file, s, p);
    LineFollows(file, p);
    StepByKind(g, bom, file, s, p);
    if TitleAt(g, bom, file, p) {
      TitleScan(g, bom, file, s, p, LineEnd(file, p));
    } else {
      TextScan(g, bom, file, s, p, LineEnd(file, p));
    }
  }

  lemma {:induction false} ScanIsFaithful(g: Grammar, bom: nat, file: seq<byte>, s: Scan, p: nat)
    requires p <= |file| && Marked(file, bom) && Sane(g) && Faithful(g, bom, file, s, p)
    ensures var all := ScanLines(g, |file|, bom, s, file[p..], p);
            all.Ok? ==> Faithful(g, bom, file, all.value, |file|)
    decreases |file| - p
  {
    hide Faithful, Marked, Sane, ScanLine, ScanLines, LineStart;
    var rest := file[p..];
    if rest == [] {
      ScanLinesDone(g, |file|, bom, s, p);
    } else {
      var e := LineEnd(file, p);
      assert rest[..e - p] == file[p..e] && rest[e - p..] == file[e..];
      ScanLinesStep(g, |file|, bom, s, rest, p);
      ScanStep(g, bom, file, s, p);
      var next := ScanLine(g, |file|, bom, s, file[p..e], p);
      if next.Ok? {
        ScanIsFaithful(g, bom, file, next.value, e);
      }
    }
  }

  lemma {:induction false} ScanLinesDone(g: Grammar, size: nat, bom: nat, s: Scan, p: nat)
    ensures ScanLines(g, size, bom, s, [], p) == Ok(s)
  {
  }

  // The scan of a whole file: contiguous chapters from the byte order mark to the end, one for every
  // heading line and no other, named after it, marked as having a body exactly when they have text.
  lemma {:induction false} ScanDescribesFile(g: Grammar, bom: nat, file: seq<byte>)
    requires Marked(file, bom) && Sane(g) && ChaptersOf(g, file, bom).Ok?
    ensures Describes(g, bom, file, ChaptersOf(g, file, bom).value, |file|)
  {
    hide ScanLines, Describes;
    assert Faithful(g, bom, file, Scan([], false), 0) by {
      assert Describes(g, bom, file, [Chapter(WHOLE_TEXT, bom, |file|, false)], 0) by {
        NoBodyYet(g, bom, file);
      }
    }
    ScanIsFaithful(g, bom, file, Scan([], false), 0);
    assert file[0..] == file;
  }

  lemma {:induction false} NoBodyYet(g: Grammar, bom: nat, file: seq<byte>)
    requires bom <= |file|
    ensures Describes(g, bom, file, [Chapter(WHOLE_TEXT, bom, |file|, false)], 0)
  {
  }

  // ---- Text that passed the encoding check ----

  lemma {:induction false} LineDecodes(g: Grammar, bom: nat, line: seq<byte>, p: nat)
    requires Valid(line) && (p == 0 ==> Marked(line, bom))
    ensures !KindOf(g, bom, line, p).Undecodable?
  {
    hide Valid, Body, DecodeBytes;
    if p == 0 && bom == 3 {
      MarkIsCharacter();
      assert line[..3] + line[3..] == line;
      ValidRest(line[..3], line[3..]);
    }
    BodyRunes(Content(bom, line, p));
  }

  lemma {:induction false} MarkIsCharacter()
    ensures Valid([0xEF, 0xBB, 0xBF])
  {
    var mark: seq<byte> := [0xEF, 0xBB, 0xBF];
    assert CharLen(mark) == 3 && mark[3..] == [];
  }

  lemma {:induction false} MarkInFirstLine(bom: nat, file: seq<byte>)
    requires Marked(file, bom) && file != []
    ensures Marked(file[..PartLen(file)], bom)
  {
    if bom == 3 {
      assert file[0] == file[..3][0] && file[1] == file[..3][1] && file[2] == file[..3][2];
      assert PartLen(file) >= 3;
      assert file[..PartLen(file)][..3] == file[..3];
    }
  }

  // UTF-8 text never fails to decode line by line.
  lemma {:induction false} ScanSucceeds(g: Grammar, size: nat, bom: nat, s: Scan, rest: seq<byte>, p: nat)
    requires Valid(rest) && (p == 0 ==> Marked(rest, bom))
    ensures ScanLines(g, size, bom, s, rest, p).Ok?
    decreases |rest|
  {
    hide Valid, Marked, KindOf, PartLen, StartChapter, MarkBody;
    if rest != [] {
      var n := PartLen(rest);
      PartIsValid(rest);
      if p == 0 {
        MarkInFirstLine(bom, rest);
      }
      LineDecodes(g, bom, rest[..n], p);
      var next := ScanLine(g, size, bom, s, rest[..n], p);
      ScanSucceeds(g, size, bom, next.value, rest[n..], p + n);
    }
  }

  lemma {:induction false} LineStartIsBoundary(bom: nat, file: seq<byte>, p: nat)
    requires Valid(file) && Marked(file, bom) && (p == bom || p == |file| || LineStart(file, p))
    ensures Boundary(file, p)
  {
    hide Valid;
    if p == |file| {
      assert file[..p] == file;
    } else if p == 0 {
      ValidEmpty();
      assert file[..0] == [];
    } else if p == bom {
      MarkIsCharacter();
    } else {
      AsciiBoundary(file, p - 1);
    }
  }

  lemma {:induction false} ValidEmpty()
    ensures Valid([])
  {
  }

  // Every chapter of UTF-8 text is one the pager can lay out.
  lemma {:induction false} ChaptersCanBeLaidOut(g: Grammar, bom: nat, doc: Document)
    requires Valid(doc.bytes) && Marked(doc.bytes, bom) && Sane(g)
    ensures var r := ChaptersOf(g, doc.bytes, bom);
            r.Ok? && Describes(g, bom, doc.bytes, r.value, |doc.bytes|) &&
            forall i :: 0 <= i < |r.value| ==> GoodChapter(doc, r.value[i])
  {
    hide Valid, ScanLines, Describes, TitleAt, Marked, Boundary, LineStart, Named, Bodied;
    ScanSucceeds(g, |doc.bytes|, bom, Scan([], false), doc.bytes, 0);
    var cs := ChaptersOf(g, doc.bytes, bom).value;
    ScanDescribesFile(g, bom, doc.bytes);
    DescribesParts(g, bom, doc.bytes, cs, |doc.bytes|);
    forall i | 0 <= i < |cs| ensures GoodChapter(doc, cs[i]) {
      StartIsLine(g, bom, doc.bytes, cs, i);
      LineStartIsBoundary(bom, doc.bytes, cs[i].start);
      if i + 1 < |cs| {
        StartIsLine(g, bom, doc.bytes, cs, i + 1);
        assert cs[i + 1 - 1].end == cs[i + 1].start;
      }
      LineStartIsBoundary(bom, doc.bytes, cs[i].end);
    }
  }

  lemma {:induction false} StartIsLine(g: Grammar, bom: nat, file: seq<byte>, cs: seq<Chapter>, i: nat)
    requires Contiguous(cs, bom, |file|) && Headed(g, bom, file, cs, |file|) && i < |cs|
    ensures cs[i].start >= 0 && (cs[i].start == bom || LineStart(file, cs[i].start))
  {
    assert i > 0 ==> TitleAt(g, bom, file, cs[i].start);
  }

  // ---- The check of a cached index ----

  lemma {:induction false} EndsGrow(cs: seq<Chapter>, a: int, b: int, i: nat, j: nat)
    requires Contiguous(cs, a, b) && i <= j < |cs|
    ensures a <= cs[i].start <= cs[i].end <= cs[j].end <= b && cs[i].start <= cs[j].start
    decreases i + |cs| - j
  {
    if i > 0 {
      EndsGrow(cs, a, b, i - 1, j);
    }
    if j < |cs| - 1 {
      EndsGrow(cs, a, b, i, j + 1);
    }
    if i < j {
      GrowsUpTo(cs, a, b, i, j);
    }
  }

  lemma {:induction false} GrowsUpTo(cs: seq<Chapter>, a: int, b: int, i: nat, j: nat)
    requires Contiguous(cs, a, b) && i <= j < |cs|
    ensures cs[i].end <= cs[j].end && cs[i].start <= cs[j].start && (i < j ==> cs[i].end <= cs[j].start)
  {
    if i < j {
      GrowsUpTo(cs, a, b, i, j - 1);
      assert cs[j - 1].end == cs[j].start;
    }
  }

  // validChapterIndex
  method ValidChapterIndex(chapters: seq<Chapter>, size: int) returns (ok: bool)
    ensures ok <==> && chapters != [] && (chapters[0].start == 0 || chapters[0].start == 3)
                    && Contiguous(chapters, chapters[0].start, size)
  {
    if |chapters| == 0 || (chapters[0].start != 0 && chapters[0].start != 3) {
      return false;
    }
    var previousEnd := chapters[0].start;
    for i := 0 to |chapters|
      invariant i > 0 ==> previousEnd == chapters[i - 1].end
      invariant i == 0 ==> previousEnd == chapters[0].start
      invariant forall k :: 0 <= k < i ==> 0 <= chapters[k].start <= chapters[k].end <= size
      invariant forall k :: 0 < k < i ==> chapters[k - 1].end == chapters[k].start
    {
      var chapter := chapters[i];
      if chapter.start < 0 || chapter.start > chapter.end || chapter.end > size || chapter.start != previousEnd {
        if Contiguous(chapters, chapters[0].start, size) {
          EndsGrow(chapters, chapters[0].start, size, i, i);
          assert false;
        }
        return false;
      }
      previousEnd := chapter.end;
    }
    return previousEnd == size;
  }

  // What the scan returns is accepted when it is loaded back.
  lemma {:induction false} ScanIsAccepted(g: Grammar, bom: nat, file: seq<byte>)
    requires Marked(file, bom) && Sane(g) && ChaptersOf(g, file, bom).Ok?
    ensures var cs := ChaptersOf(g, file, bom).value;
            cs != [] && (cs[0].start == 0 || cs[0].start == 3) && Contiguous(cs, cs[0].start, |file|)
  {
    hide ScanLines, ChaptersOf;
    ScanDescribesFile(g, bom, file);
  }

  // ---- From an offset back to its chapter ----

  predicate Holds(cs: seq<Chapter>, i: int, offset: int) {
    0 <= i < |cs| && cs[i].start <= offset < cs[i].end
  }

  function Ends(cs: seq<Chapter>): (e: seq<int>)
    ensures |e| == |cs| && forall i :: 0 <= i < |cs| ==> e[i] == cs[i].end
  {
    if cs == [] then [] else [cs[0].end] + Ends(cs[1..])
  }

  // At most one chapter holds an offset.
  lemma {:induction false} HoldsOnce(cs: seq<Chapter>, a: int, b: int, i: int, j: int, offset: int)
    requires Contiguous(cs, a, b) && Holds(cs, i, offset) && Holds(cs, j, offset)
    ensures i == j
  {
    if i < j {
      GrowsUpTo(cs, a, b, i, j);
    } else if j < i {
      GrowsUpTo(cs, a, b, j, i);
    }
  }

  // ChapterAtOffset: some chapter is found exactly for the offsets of the text, and it is the one that holds it.
  method ChapterAtOffset(chapters: seq<Chapter>, size: int, offset: int) returns (r: Option<int>)
    requires chapters != [] && Contiguous(chapters, chapters[0].start, size)
    ensures r.Some? <==> 0 <= offset && chapters[0].start <= offset < size
    ensures forall i :: Holds(chapters, i, offset) && offset >= 0 <==> r == Some(i)
  {
    ghost var a := chapters[0].start;
    forall i, j | Holds(chapters, i, offset) && Holds(chapters, j, offset) ensures i == j {
      HoldsOnce(chapters, a, size, i, j, offset);
    }
    forall i | 0 <= i < |chapters| ensures a <= chapters[i].start && chapters[i].end <= size {
      EndsGrow(chapters, a, size, i, i);
    }
    if offset < 0 || offset >= size {
      return None;
    }
    forall i, j | 0 <= i <= j < |chapters| ensures Ends(chapters)[i] <= Ends(chapters)[j] {
      GrowsUpTo(chapters, a, size, i, j);
    }
    var index := Search(Ends(chapters), offset);
    assert index > 0 ==> Ends(chapters)[index - 1] <= offset;
    if index == |chapters| || offset < chapters[index].start {
      return None;
    }
    assert Holds(chapters, index, offset);
    return Some(index);
  }

  // restoredChapter: a saved chapter number is kept when it still holds the saved offset; otherwise the offset
  // decides, unless the text was normalized.
  method RestoredChapter(chapters: seq<Chapter>, size: int, normalized: bool, stored: int, offset: int)
    returns (r: Option<int>)
    requires chapters != [] && Contiguous(chapters, chapters[0].start, size) && chapters[0].start >= 0
    ensures r.Some? ==> Holds(chapters, r.value, offset)
    ensures r.Some? <==> Holds(chapters, stored, offset) ||
                         (!normalized && 0 <= stored < |chapters| && chapters[0].start <= offset < size)
  {
    ghost var a := chapters[0].start;
    forall i | 0 <= i < |chapters| ensures a <= chapters[i].start && chapters[i].end <= size {
      EndsGrow(chapters, a, size, i, i);
    }
    if 0 <= stored < |chapters| && offset >= chapters[stored].start && offset < chapters[stored].end {
      return Some(stored);
    }
    if normalized || stored < 0 || stored >= |chapters| || offset < 0 || offset >= size {
      return None;
    }
    for i := 0 to |chapters|
      invariant a <= offset ==> if i == 0 then a <= offset else chapters[i - 1].end <= offset
      invariant forall k :: 0 <= k < i ==> !Holds(chapters, k, offset)
    {
      if offset >= chapters[i].start && offset < chapters[i].end {
        return Some(i);
      }
    }
    return None;
  }
}

/**
  Finding the chapters of a text, App/book-reader/document.go: one pass over
  buffered reads that may cut lines anywhere. Title patterns are
  uninterpreted predicates of the decoded line.
 */
module ChapterScan {
  import opened Utf8
  import opened Pager
  import opened Options
  import opened Outline

  const MAX_TITLE_LINE_BYTES := 256 * 1024

  // What the scanner asks about a decoded line.
  datatype Grammar = Grammar(isHeading: seq<int> -> bool, titleOf: seq<int> -> seq<int>, meaningful: seq<int> -> bool)

  datatype Scan = Scan(chapters: seq<Chapter>, preambleHasBody: bool)

  // What one physical line is to the scanner.
  datatype Kind = Title(text: seq<int>) | BodyText | Blank | Undecodable

  // ---- Reference description: line by line over the whole file ----

  // A byte order mark is not text.
  function Content(bom: nat, line: seq<byte>, lineStart: nat): seq<byte> {
    if lineStart == 0 && bom > 0 && |line| >= bom then line[bom..] else line
  }

  function TitleStart(bom: nat, line: seq<byte>, lineStart: nat): nat {
    if lineStart == 0 && bom > 0 && |line| >= bom then bom else lineStart
  }

  // A line too long to be a title counts as body.
  function KindOf(g: Grammar, bom: nat, line: seq<byte>, lineStart: nat): Kind {
    if |line| > MAX_TITLE_LINE_BYTES then BodyText
    else
      match DecodeBytes(Content(bom, line, lineStart))
      case Err => Undecodable
      case Ok(text) =>
        if g.isHeading(text) then Title(text) else if g.meaningful(text) then BodyText else Blank
  }

  function MarkBody(s: Scan): Scan {
    if s.chapters == [] then s.(preambleHasBody := true)
    else
      var last := |s.chapters| - 1;
      s.(chapters := s.chapters[last := s.chapters[last].(hasBody := true)])
  }

  function StartChapter(g: Grammar, size: nat, bom: nat, s: Scan, title: seq<int>, at: nat): Scan {
    var before := if s.chapters == [] && at > bom
                  then [Chapter(PREAMBLE, bom, at, s.preambleHasBody)] else s.chapters;
    var closed := if before == [] then [] else before[|before| - 1 := before[|before| - 1].(end := at)];
    s.(chapters := closed + [Chapter(g.titleOf(title), at, size, false)])
  }

  function ScanLine(g: Grammar, size: nat, bom: nat, s: Scan, line: seq<byte>, lineStart: nat): Result<Scan> {
    match KindOf(g, bom, line, lineStart)
    case Undecodable => Err
    case Title(text) => Ok(StartChapter(g, size, bom, s, text, TitleStart(bom, line, lineStart)))
    case BodyText => Ok(MarkBody(s))
    case Blank => Ok(s)
  }

  function ScanLines(g: Grammar, size: nat, bom: nat, s: Scan, rest: seq<byte>, lineStart: nat): Result<Scan>
    decreases |rest|
  {
    if rest == [] then Ok(s)
    else
      var n := PartLen(rest);
      match ScanLine(g, size, bom, s, rest[..n], lineStart)
      case Err => Err
      case Ok(next) => ScanLines(g, size, bom, next, rest[n..], lineStart + n)
  }

  function CloseScan(s: Scan, size: nat, bom: nat): seq<Chapter> {
    if s.chapters == [] then [Chapter(WHOLE_TEXT, bom, size, s.preambleHasBody)]
    else s.chapters[|s.chapters| - 1 := s.chapters[|s.chapters| - 1].(end := size)]
  }

  // What scanChapters returns for a file.
  function ChaptersOf(g: Grammar, file: seq<byte>, bom: nat): Result<seq<Chapter>> {
    match ScanLines(g, |file|, bom, Scan([], false), file, 0)
    case Err => Err
    case Ok(s) => Ok(CloseScan(s, |file|, bom))
  }

  // ---- The loop over buffered reads ----

  // Successive results of ReadSlice: each but the last ends a line or fills the buffer, the last is the
  // remainder at the end of the file.
  predicate Reads(frags: seq<seq<byte>>, rest: seq<byte>) {
    frags != [] &&
    if |frags| == 1 then frags[0] == rest && 10 !in rest
    else
      && frags[0] != [] && frags[0] <= rest
      && (forall k :: 0 <= k < |frags[0]| - 1 ==> frags[0][k] != 10)
      && Reads(frags[1..], rest[|frags[0]|..])
  }

  // The bytes of the line kept so far; none once it is too long to be a title.
  function Kept(collected: seq<byte>): Option<seq<byte>> {
    if |collected| <= MAX_TITLE_LINE_BYTES then Some(collected) else None
  }

  // All that is still to be scanned is the file from lineStart on.
  ghost predicate Pending(g: Grammar, bom: nat, file: seq<byte>, s: Scan, lineStart: nat) {
    lineStart <= |file| &&
    ScanLines(g, |file|, bom, Scan([], false), file, 0) == ScanLines(g, |file|, bom, s, file[lineStart..], lineStart)
  }

  method ScanChapters(g: Grammar, frags: seq<seq<byte>>, ghost file: seq<byte>, size: nat, bom: nat)
    returns (result: Result<seq<Chapter>>)
    requires Reads(frags, file) && size == |file|
    ensures result == ChaptersOf(g, file, bom)
  {
    hide *;
    var s := Scan([], false);
    var lineStart: nat, offset: nat := 0, 0;
    var line: Option<seq<byte>> := Some([]);
    ghost var collected: seq<byte> := [];
    var i := 0;
    ScanBegins(g, bom, frags, file);
    while true
      invariant 0 <= i < |frags|
      invariant lineStart <= offset <= size && collected == file[lineStart..offset] && 10 !in collected
      invariant Reads(frags[i..], file[offset..])
      invariant line == Kept(collected)
      invariant Pending(g, bom, file, s, lineStart)
      decreases |frags| - i
    {
      var fragment := frags[i];
      var atEnd := i + 1 == |frags|;
      ReadOne(frags, i, file, lineStart, offset);
      offset := offset + |fragment|;
      line := Collect(line, fragment, collected);
      collected := collected + fragment;
      if !atEnd && fragment[|fragment| - 1] != 10 {
        i := i + 1;
        continue;
      }
      KeptCases(collected);
      if collected != [] {
        NextLine(g, bom, file, s, lineStart, offset);
      }
      if line.Some? && |line.value| > 0 {
        var content, titleStart := line.value, lineStart;
        if lineStart == 0 && bom > 0 && |content| >= bom {
          content := content[bom..];
          titleStart := titleStart + bom;
        }
        var text := DecodeBytes(content);
        LineCases(g, size, bom, s, collected, lineStart);
        if text.Err? {
          Failed(g, file, bom);
          return Err;
        }
        if g.isHeading(text.value) {
          s := AddChapter(g, size, bom, s, text.value, titleStart);
        } else if g.meaningful(text.value) {
          s := SetBody(s);
        }
      } else if line.None? {
        LineCases(g, size, bom, s, collected, lineStart);
        s := SetBody(s);
      }
      lineStart := offset;
      line := Some([]);
      collected := [];
      KeptCases([]);
      if atEnd {
        break;
      }
      i := i + 1;
    }
    result := Finish(g, file, size, bom, s);
  }

  lemma {:induction false} ScanBegins(g: Grammar, bom: nat, frags: seq<seq<byte>>, file: seq<byte>)
    requires Reads(frags, file)
    ensures frags != [] && Reads(frags[0..], file[0..]) && Kept([]) == Some([]) && file[0..0] == []
    ensures Pending(g, bom, file, Scan([], false), 0)
  {
    hide ScanLines;
    assert frags[0..] == frags && file[0..] == file;
  }

  // One read: the piece it adds to the line, and what is left to read.
  lemma {:induction false} ReadOne(frags: seq<seq<byte>>, i: nat, file: seq<byte>, lineStart: nat, offset: nat)
    requires i < |frags| && lineStart <= offset <= |file| && Reads(frags[i..], file[offset..])
    requires 10 !in file[lineStart..offset]
    ensures var next := offset + |frags[i]|;
            && next <= |file| && file[lineStart..next] == file[lineStart..offset] + frags[i]
            && (i + 1 == |frags| ==> next == |file| && 10 !in file[lineStart..next])
            && (i + 1 < |frags| ==>
                  && frags[i] != [] && Reads(frags[i + 1..], file[next..])
                  && 10 !in file[lineStart..next - 1]
                  && (frags[i][|frags[i]| - 1] != 10 ==> 10 !in file[lineStart..next]))
            && (frags[i] != [] ==> frags[i][|frags[i]| - 1] == file[next - 1])
  {
    var rest, fragment, next := frags[i..], frags[i], offset + |frags[i]|;
    assert rest[0] == fragment;
    assert rest[1..] == frags[i + 1..];
    assert fragment <= file[offset..];
    assert file[offset..][..|fragment|] == fragment;
    assert file[offset..][|fragment|..] == file[next..];
    forall k | lineStart <= k < next
      ensures file[k] == if k < offset then file[lineStart..offset][k - lineStart] else fragment[k - offset]
    {
    }
  }

  method Collect(line: Option<seq<byte>>, fragment: seq<byte>, ghost collected: seq<byte>)
    returns (next: Option<seq<byte>>)
    requires line == Kept(collected)
    ensures next == Kept(collected + fragment)
  {
    next := line;
    if line.Some? {
      if |line.value| + |fragment| <= MAX_TITLE_LINE_BYTES {
        next := Some(line.value + fragment);
      } else {
        next := None;
      }
    }
  }

  lemma {:induction false} KeptCases(collected: seq<byte>)
    ensures Kept(collected) == if |collected| <= MAX_TITLE_LINE_BYTES then Some(collected) else None
  {
  }

  // A complete line takes the scan one step on.
  lemma {:induction false} NextLine(g: Grammar, bom: nat, file: seq<byte>, s: Scan, lineStart: nat, offset: nat)
    requires Pending(g, bom, file, s, lineStart) && lineStart < offset <= |file|
    requires 10 !in file[lineStart..offset - 1] && (file[offset - 1] == 10 || offset == |file|)
    ensures var next := ScanLine(g, |file|, bom, s, file[lineStart..offset], lineStart);
            && (next.Ok? ==> Pending(g, bom, file, next.value, offset))
            && (next.Err? ==> ScanLines(g, |file|, bom, Scan([], false), file, 0).Err?)
  {
    hide ScanLine, ScanLines;
    var rest, n := file[lineStart..], offset - lineStart;
    assert rest[..n - 1] == file[lineStart..offset - 1];
    PartLenIs(rest, n);
    assert rest[..n] == file[lineStart..offset] && rest[n..] == file[offset..];
    ScanLinesStep(g, |file|, bom, s, rest, lineStart);
  }

  lemma {:induction false} ScanLinesStep(g: Grammar, size: nat, bom: nat, s: Scan, rest: seq<byte>, lineStart: nat)
    requires rest != []
    ensures var n := PartLen(rest);
            var next := ScanLine(g, size, bom, s, rest[..n], lineStart);
            ScanLines(g, size, bom, s, rest, lineStart) ==
            if next.Ok? then ScanLines(g, size, bom, next.value, rest[n..], lineStart + n) else Err
  {
    hide ScanLine, PartLen;
  }

  lemma {:induction false} LineCases(g: Grammar, size: nat, bom: nat, s: Scan, line: seq<byte>, lineStart: nat)
    ensures |line| > MAX_TITLE_LINE_BYTES ==> ScanLine(g, size, bom, s, line, lineStart) == Ok(MarkBody(s))
    ensures |line| <= MAX_TITLE_LINE_BYTES ==>
              var marked := lineStart == 0 && bom > 0 && |line| >= bom;
              var text := DecodeBytes(if marked then line[bom..] else line);
              ScanLine(g, size, bom, s, line, lineStart) ==
              if text.Err? then Err
              else if g.isHeading(text.value) then
                Ok(StartChapter(g, size, bom, s, text.value, if marked then bom else lineStart))
              else if g.meaningful(text.value) then Ok(MarkBody(s))
              else Ok(s)
  {
    hide DecodeBytes, StartChapter, MarkBody;
  }

  method AddChapter(g: Grammar, size: nat, bom: nat, s: Scan, title: seq<int>, titleStart: nat) returns (r: Scan)
    ensures r == StartChapter(g, size, bom, s, title, titleStart)
  {
    var chapters := s.chapters;
    if |chapters| == 0 && titleStart > bom {
      chapters := chapters + [Chapter(PREAMBLE, bom, titleStart, s.preambleHasBody)];
    }
    if |chapters| > 0 {
      chapters := chapters[|chapters| - 1 := chapters[|chapters| - 1].(end := titleStart)];
    }
    chapters := chapters + [Chapter(g.titleOf(title), titleStart, size, false)];
    r := s.(chapters := chapters);
  }

  method SetBody(s: Scan) returns (r: Scan)
    ensures r == MarkBody(s)
  {
    if |s.chapters| > 0 {
      var last := |s.chapters| - 1;
      r := s.(chapters := s.chapters[last := s.chapters[last].(hasBody := true)]);
    } else {
      r := s.(preambleHasBody := true);
    }
  }

  lemma {:induction false} Failed(g: Grammar, file: seq<byte>, bom: nat)
    requires ScanLines(g, |file|, bom, Scan([], false), file, 0).Err?
    ensures ChaptersOf(g, file, bom) == Err
  {
    hide ScanLines;
  }

  method Finish(g: Grammar, ghost file: seq<byte>, size: nat, bom: nat, s: Scan) returns (result: Result<seq<Chapter>>)
    requires size == |file| && Pending(g, bom, file, s, size)
    ensures result == ChaptersOf(g, file, bom)
  {
    assert ScanLines(g, |file|, bom, Scan([], false), file, 0) == Ok(s) by {
      assert file[size..] == [];
    }
    hide ScanLines;
    var chapters := s.chapters;
    if |chapters| == 0 {
      chapters := [Chapter(WHOLE_TEXT, bom, size, s.preambleHasBody)];
    } else {
      chapters := chapters[|chapters| - 1 := chapters[|chapters| - 1].(end := size)];
    }
    result := Ok(chapters);
  }
}

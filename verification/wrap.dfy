/**
  Greedy line wrapping of App/c1device/text.go. A string is the sequence of
  its runes; the glyph advances of a face are a function from runes to
  nonnegative pixel counts.
 */
module Wrapping {

  type Glyphs = int -> nat

  const LF := 10
  const CR := 13

  function Width(g: Glyphs, s: seq<int>): nat {
    if s == [] then 0 else g(s[0]) + Width(g, s[1..])
  }

  function Flatten(lines: seq<seq<int>>): seq<int> {
    if lines == [] then [] else lines[0] + Flatten(lines[1..])
  }

  // strings.TrimSuffix
  function TrimSuffix(s: seq<int>, c: int): (t: seq<int>)
    ensures t <= s
  {
    if s != [] && s[|s| - 1] == c then s[..|s| - 1] else s
  }

  // Where the greedy line that already holds s[..i], used pixels wide, ends.
  function LineEnd(g: Glyphs, w: int, s: seq<int>, i: nat, used: nat): (n: nat)
    requires i <= |s|
    ensures i <= n <= |s|
    decreases |s| - i
  {
    if i < |s| && used + g(s[i]) <= w then LineEnd(g, w, s, i + 1, used + g(s[i])) else i
  }

  // Length of the first greedy line: one rune at least, then as many as fit.
  function FirstLine(g: Glyphs, w: int, s: seq<int>): (n: nat)
    requires s != []
    ensures 1 <= n <= |s|
  {
    LineEnd(g, w, s, 1, g(s[0]))
  }

  function Greedy(g: Glyphs, w: int, s: seq<int>): (lines: seq<seq<int>>)
    ensures s != [] ==> lines != []
    ensures forall i :: 0 <= i < |lines| ==> lines[i] != []
    decreases |s|
  {
    if s == [] then [] else [s[..FirstLine(g, w, s)]] + Greedy(g, w, s[FirstLine(g, w, s)..])
  }

  // What Face.Wrap returns.
  function Wrapped(g: Glyphs, w: int, text: seq<int>): seq<seq<int>> {
    var t := TrimSuffix(TrimSuffix(text, LF), CR);
    if w <= 0 then [] else if t == [] then [[]] else Greedy(g, w, t)
  }

  // A line a display can hold: something on it, and nothing cut off unless a single rune is too wide.
  predicate Fits(g: Glyphs, w: int, line: seq<int>) {
    |line| == 1 || (|line| > 1 && Width(g, line) <= w)
  }

  predicate Layout(g: Glyphs, w: int, s: seq<int>, lines: seq<seq<int>>) {
    Flatten(lines) == s && forall i :: 0 <= i < |lines| ==> Fits(g, w, lines[i])
  }

  // The loop of Face.Wrap.
  method Wrap(g: Glyphs, text: seq<int>, w: int) returns (lines: seq<seq<int>>)
    ensures lines == Wrapped(g, w, text)
  {
    hide *;
    WrapCases(g, w, text);
    if w <= 0 {
      return [];
    }
    var t := TrimSuffix(TrimSuffix(text, LF), CR);
    if t == [] {
      return [[]];
    }
    lines := [];
    var current: seq<int> := [];
    var currentWidth: nat := 0;
    NothingPlaced(g, w, t);
    for i := 0 to |t|
      invariant Wrapping(g, w, t, lines, current, i, currentWidth)
      invariant current == [] ==> i == 0 && currentWidth == 0
    {
      if currentWidth + g(t[i]) > w && |current| > 0 {
        CloseLine(g, w, t, lines, current, i, currentWidth);
        lines := lines + [current];
        current := [];
        currentWidth := 0;
      }
      Place(g, w, t, lines, current, i, currentWidth);
      current := current + [t[i]];
      currentWidth := currentWidth + g(t[i]);
    }
    if |current| > 0 {
      CloseLine(g, w, t, lines, current, |t|, currentWidth);
      lines := lines + [current];
    }
  }

  lemma {:induction false} WrapCases(g: Glyphs, w: int, text: seq<int>)
    ensures var t := TrimSuffix(TrimSuffix(text, LF), CR);
            Wrapped(g, w, text) == if w <= 0 then [] else if t == [] then [[]] else Greedy(g, w, t)
  {
    hide Greedy, TrimSuffix;
  }

  // The loop's state: complete lines, then the open line that ends before i and whose end is not decided yet.
  ghost predicate Wrapping(g: Glyphs, w: int, t: seq<int>, lines: seq<seq<int>>, current: seq<int>, i: nat, used: nat) {
    var start := i - |current|;
    && 0 <= start <= i <= |t| && current == t[start..i]
    && Greedy(g, w, t) == lines + Greedy(g, w, t[start..])
    && (current != [] ==> FirstLine(g, w, t[start..]) == LineEnd(g, w, t[start..], |current|, used))
  }

  lemma {:induction false} NothingPlaced(g: Glyphs, w: int, t: seq<int>)
    ensures Wrapping(g, w, t, [], [], 0, 0)
  {
    assert t[0..] == t;
  }

  // The open line is complete: nothing more fits, or the text is over.
  lemma {:induction false} CloseLine(g: Glyphs, w: int, t: seq<int>, lines: seq<seq<int>>, current: seq<int>, i: nat, used: nat)
    requires i <= |t| && current != [] && Wrapping(g, w, t, lines, current, i, used)
    requires i == |t| || used + g(t[i]) > w
    ensures Wrapping(g, w, t, lines + [current], [], i, 0)
    ensures i == |t| ==> Greedy(g, w, t) == lines + [current]
  {
    var open := t[i - |current|..];
    assert open[..|current|] == current;
    assert open[|current|..] == t[i..];
    assert LineEnd(g, w, open, |current|, used) == |current|;
    var n := GreedyUnfold(g, w, open);
    hide Greedy, FirstLine, LineEnd;
    assert lines + ([current] + Greedy(g, w, t[i..])) == lines + [current] + Greedy(g, w, t[i..]);
    if i == |t| {
      assert t[i..] == [];
      GreedyEmpty(g, w, t[i..]);
      assert lines + [current] + [] == lines + [current];
    }
  }

  lemma {:induction false} Place(g: Glyphs, w: int, t: seq<int>, lines: seq<seq<int>>, current: seq<int>, i: nat, used: nat)
    requires i < |t| && Wrapping(g, w, t, lines, current, i, used)
    requires if current == [] then used == 0 else used + g(t[i]) <= w
    ensures Wrapping(g, w, t, lines, current + [t[i]], i + 1, used + g(t[i]))
  {
    var start := i - |current|;
    assert t[start..][|current|] == t[i];
    assert t[start..i] + [t[i]] == t[start..i + 1];
    hide Greedy;
  }

  // ---- Greedy lines are a layout ----

  lemma {:induction false} WidthConcat(g: Glyphs, a: seq<int>, b: seq<int>)
    ensures Width(g, a + b) == Width(g, a) + Width(g, b)
  {
    if a == [] {
      assert a + b == b;
    } else {
      WidthConcat(g, a[1..], b);
      assert (a + b)[1..] == a[1..] + b;
    }
  }

  lemma {:induction false} LineEndSpec(g: Glyphs, w: int, s: seq<int>, i: nat)
    requires i <= |s|
    ensures var n := LineEnd(g, w, s, i, Width(g, s[..i]));
            && (n == i || Width(g, s[..n]) <= w)
            && (forall k :: n < k <= |s| ==> Width(g, s[..k]) > w)
    decreases |s| - i
  {
    forall k | i < k <= |s| ensures Width(g, s[..k]) >= Width(g, s[..i]) + g(s[i]) {
      assert s[..k] == s[..i] + s[i..k];
      WidthConcat(g, s[..i], s[i..k]);
    }
    if i < |s| {
      assert s[..i + 1] == s[..i] + [s[i]];
      WidthConcat(g, s[..i], [s[i]]);
      LineEndSpec(g, w, s, i + 1);
    }
  }

  // The first line fits and is the longest that does.
  lemma {:induction false} FirstLineLongest(g: Glyphs, w: int, s: seq<int>)
    requires s != []
    ensures Fits(g, w, s[..FirstLine(g, w, s)])
    ensures forall k :: 1 <= k <= |s| && Fits(g, w, s[..k]) ==> k <= FirstLine(g, w, s)
  {
    assert s[..1] == [s[0]];
    assert Width(g, s[..1]) == g(s[0]) + Width(g, []);
    LineEndSpec(g, w, s, 1);
  }

  lemma {:induction false} GreedyIsLayout(g: Glyphs, w: int, s: seq<int>)
    ensures Layout(g, w, s, Greedy(g, w, s))
    decreases |s|
  {
    if s != [] {
      var n := FirstLine(g, w, s);
      FirstLineLongest(g, w, s);
      GreedyIsLayout(g, w, s[n..]);
      assert s[..n] + s[n..] == s;
    }
  }

  // ---- Starting later never costs a line ----

  lemma {:induction false} FirstLineReaches(g: Glyphs, w: int, s: seq<int>, k: nat)
    requires s != [] && k < FirstLine(g, w, s)
    ensures k + FirstLine(g, w, s[k..]) >= FirstLine(g, w, s)
  {
    var n := FirstLine(g, w, s);
    FirstLineLongest(g, w, s);
    FirstLineLongest(g, w, s[k..]);
    assert s[k..][..n - k] == s[k..n];
    if n - k > 1 {
      assert s[..n] == s[..k] + s[k..n];
      WidthConcat(g, s[..k], s[k..n]);
      assert Fits(g, w, s[k..][..n - k]);
    }
  }

  // The lines of a text are its first line and those of the rest.
  lemma {:induction false} GreedyUnfold(g: Glyphs, w: int, s: seq<int>) returns (n: nat)
    requires s != []
    ensures n == FirstLine(g, w, s) && 1 <= n <= |s|
    ensures Greedy(g, w, s) == [s[..n]] + Greedy(g, w, s[n..])
    ensures Greedy(g, w, s)[1..] == Greedy(g, w, s[n..]) && |Greedy(g, w, s)[0]| == n
  {
    n := FirstLine(g, w, s);
    hide FirstLine;
  }

  lemma {:induction false} GreedyEmpty(g: Glyphs, w: int, s: seq<int>)
    ensures Greedy(g, w, s) == [] <==> s == []
  {
    hide FirstLine;
  }

  lemma {:induction false} SuffixNoMore(g: Glyphs, w: int, s: seq<int>, k: nat)
    requires k <= |s|
    ensures |Greedy(g, w, s[k..])| <= |Greedy(g, w, s)|
    decreases |s|
  {
    hide *;
    if k == |s| {
      assert s[k..] == [];
      GreedyEmpty(g, w, s[k..]);
    } else {
      var n := GreedyUnfold(g, w, s);
      if k >= n {
        SuffixNoMore(g, w, s[n..], k - n);
        assert s[n..][k - n..] == s[k..];
      } else {
        FirstLineReaches(g, w, s, k);
        var m := GreedyUnfold(g, w, s[k..]);
        SuffixNoMore(g, w, s[n..], k + m - n);
        assert s[n..][k + m - n..] == s[k..][m..];
      }
    }
  }

  // Greedy wrapping uses the fewest lines any layout of the text can use.
  lemma {:induction false} GreedyIsMinimal(g: Glyphs, w: int, s: seq<int>, lines: seq<seq<int>>)
    requires Layout(g, w, s, lines)
    ensures |Greedy(g, w, s)| <= |lines|
    decreases |lines|
  {
    if s != [] {
      var n := FirstLine(g, w, s);
      var k := |lines[0]|;
      FirstLineLongest(g, w, s);
      assert s[..k] == lines[0];
      assert s[k..] == Flatten(lines[1..]);
      GreedyIsMinimal(g, w, s[k..], lines[1..]);
      SuffixNoMore(g, w, s[k..], n - k);
      assert s[k..][n - k..] == s[n..];
    }
  }

  // ---- Parts of a wrapped text ----

  // Runes on the first a lines.
  function Before(lines: seq<seq<int>>, a: nat): (n: nat)
    requires a <= |lines|
  {
    if a == 0 then 0 else |lines[0]| + Before(lines[1..], a - 1)
  }

  lemma {:induction false} GreedyFrom(g: Glyphs, w: int, s: seq<int>, a: nat)
    requires a <= |Greedy(g, w, s)|
    ensures Before(Greedy(g, w, s), a) <= |s|
    ensures Greedy(g, w, s[Before(Greedy(g, w, s), a)..]) == Greedy(g, w, s)[a..]
    decreases a
  {
    hide *;
    if a == 0 {
      NothingBefore(g, w, s);
      assert s[0..] == s;
    } else {
      GreedyEmpty(g, w, s);
      var n := GreedyUnfold(g, w, s);
      var lines := Greedy(g, w, s);
      GreedyFrom(g, w, s[n..], a - 1);
      BeforeUnfold(lines, a);
      assert s[n..][Before(lines[1..], a - 1)..] == s[Before(lines, a)..];
    }
  }

  lemma {:induction false} LineEndPrefix(g: Glyphs, w: int, s: seq<int>, k: nat, i: nat, used: nat)
    requires i <= k <= |s|
    ensures var n := LineEnd(g, w, s, i, used);
            LineEnd(g, w, s[..k], i, used) == if n <= k then n else k
    decreases k - i
  {
    if i < k && used + g(s[i]) <= w {
      LineEndPrefix(g, w, s, k, i + 1, used + g(s[i]));
    }
  }

  // Ending earlier never costs a line either.
  lemma {:induction false} PrefixNoMore(g: Glyphs, w: int, s: seq<int>, k: nat)
    requires k <= |s|
    ensures |Greedy(g, w, s[..k])| <= |Greedy(g, w, s)|
    decreases |s|
  {
    if k > 0 {
      var n := FirstLine(g, w, s);
      LineEndPrefix(g, w, s, k, 1, g(s[0]));
      if n < k {
        PrefixNoMore(g, w, s[n..], k - n);
        assert s[..k][n..] == s[n..][..k - n];
      } else {
        assert s[..k][k..] == [];
        assert |Greedy(g, w, s[..k])| == 1;
      }
    }
  }

  // Cutting right after a line keeps exactly the lines so far.
  lemma {:induction false} GreedyUpTo(g: Glyphs, w: int, s: seq<int>, b: nat)
    requires b <= |Greedy(g, w, s)|
    ensures Before(Greedy(g, w, s), b) <= |s|
    ensures Greedy(g, w, s[..Before(Greedy(g, w, s), b)]) == Greedy(g, w, s)[..b]
    decreases b
  {
    hide *;
    if b == 0 {
      NothingBefore(g, w, s);
    } else {
      GreedyEmpty(g, w, s);
      var n := GreedyUnfold(g, w, s);
      var lines := Greedy(g, w, s);
      GreedyUpTo(g, w, s[n..], b - 1);
      BeforeUnfold(lines, b);
      var k := Before(lines, b);
      GreedyShortened(g, w, s, n, k);
      assert s[n..][..k - n] == s[n..k];
    }
  }

  lemma {:induction false} NothingBefore(g: Glyphs, w: int, s: seq<int>)
    ensures Before(Greedy(g, w, s), 0) == 0 && Greedy(g, w, s[..0]) == Greedy(g, w, s)[..0]
  {
    assert s[..0] == [];
  }

  lemma {:induction false} BeforeUnfold(lines: seq<seq<int>>, b: nat)
    requires 0 < b <= |lines|
    ensures Before(lines, b) == |lines[0]| + Before(lines[1..], b - 1)
  {
  }

  // A text cut after its first line keeps that line.
  lemma {:induction false} GreedyShortened(g: Glyphs, w: int, s: seq<int>, n: nat, k: nat)
    requires s != [] && n == FirstLine(g, w, s) && n <= k <= |s| && n > 0
    ensures Greedy(g, w, s[..k]) == [s[..n]] + Greedy(g, w, s[n..k])
  {
    LineEndPrefix(g, w, s, k, 1, g(s[0]));
    assert s[..k][n..] == s[n..k] && s[..k][..n] == s[..n];
    assert FirstLine(g, w, s[..k]) == n;
    hide FirstLine, LineEnd;
  }

  // A stretch that starts on line a and stops no later than line b's start needs at most b - a lines.
  lemma {:induction false} StretchNoMore(g: Glyphs, w: int, s: seq<int>, a: nat, b: nat, from: nat, to: nat)
    requires a <= b <= |Greedy(g, w, s)|
    requires Before(Greedy(g, w, s), a) <= from <= to <= Before(Greedy(g, w, s), b) <= |s|
    ensures |Greedy(g, w, s[from..to])| <= b - a
  {
    hide *;
    var lines := Greedy(g, w, s);
    var cut := Before(lines, b);
    GreedyUpTo(g, w, s, b);
    BeforeOfPrefix(lines, a, b);
    StretchToEnd(g, w, s[..cut], a, from);
    assert s[..cut][from..] == s[from..cut];
    PrefixNoMore(g, w, s[from..cut], to - from);
    assert s[from..cut][..to - from] == s[from..to];
  }

  lemma {:induction false} StretchToEnd(g: Glyphs, w: int, s: seq<int>, a: nat, from: nat)
    requires a <= |Greedy(g, w, s)|
    requires Before(Greedy(g, w, s), a) <= from <= |s|
    ensures |Greedy(g, w, s[from..])| <= |Greedy(g, w, s)| - a
  {
    hide *;
    var start := Before(Greedy(g, w, s), a);
    GreedyFrom(g, w, s, a);
    SuffixNoMore(g, w, s[start..], from - start);
    assert s[start..][from - start..] == s[from..];
  }

  lemma {:induction false} BeforeOfPrefix(lines: seq<seq<int>>, a: nat, b: nat)
    requires a <= b <= |lines|
    ensures Before(lines[..b], a) == Before(lines, a) <= Before(lines, b)
  {
    if a > 0 {
      BeforeOfPrefix(lines[1..], a - 1, b - 1);
      assert lines[..b][1..] == lines[1..][..b - 1];
    }
  }
}

/**
  Loading a window never splits a character: from a rune boundary of valid
  text, the bytes Paginate keeps are valid, nonempty and end on a boundary.
 */
module WindowLoading {
  import opened Utf8
  import opened Pager
  import opened PageTiling

  lemma {:induction false} ValidBetween(s: seq<byte>, i: nat, j: nat)
    requires Valid(s) && i <= j && Boundary(s, i) && Boundary(s, j)
    ensures Valid(s[i..j])
  {
    assert s[..i] + s[i..j] == s[..j];
    ValidRest(s[..i], s[i..j]);
  }

  lemma {:induction false} BoundaryInRest(s: seq<byte>, i: nat, k: nat)
    requires Valid(s) && Boundary(s, i) && i + k <= |s| && Boundary(s[i..], k)
    ensures Boundary(s, i + k)
  {
    hide Valid, Runes;
    ValidConcat(s[..i], s[i..][..k]);
    assert s[..i] + s[i..][..k] == s[..i + k];
  }

  // On a lead byte of valid text the library's notions agree with the grammar.
  lemma {:induction false} FullRuneIs(t: seq<byte>, p: seq<byte>)
    requires CharLen(t) > 0 && p <= t && p != []
    ensures FullRune(p) <==> |p| >= CharLen(t)
  {
    assert p[0] == t[0] && ExpectedLen(t[0]) == CharLen(t);
    assert |p| > 1 ==> p[1] == t[1];
    assert |p| > 2 ==> p[2] == t[2];
  }

  // The walk back from the end of a window finds the start of its last character.
  lemma {:induction false} LastStartIs(t: seq<byte>, k: nat) returns (j: nat)
    requires Valid(t) && 4 < k <= |t|
    ensures j == LastRuneStart(t[..k], k - 1) && k - 4 <= j < k && Boundary(t, j)
    ensures forall i :: j < i < k ==> Tail(t[i])
  {
    hide Valid, CharLen;
    var raw := t[..k];
    j := LastRuneStart(raw, k - 1);
    var b := BoundaryNear(t, k - 1);
    BoundaryIffNotTail(t, b);
    assert forall i :: 0 <= i < k ==> raw[i] == t[i] && (RuneStart(t[i]) <==> !Tail(t[i]));
    assert j == b;
  }

  // completeTextWindow keeps everything up to the last complete character.
  lemma {:induction false} CompleteKeepsCharacters(t: seq<byte>, k: nat)
    requires Valid(t) && 4 < k <= |t|
    ensures CompleteTextWindow(t[..k]) <= t[..k]
    ensures k - 4 <= |CompleteTextWindow(t[..k])| && Boundary(t, |CompleteTextWindow(t[..k])|)
  {
    hide Valid, CharLen, FullRune, LastRuneStart;
    var raw := t[..k];
    var j := LastStartIs(t, k);
    BoundaryRest(t, j);
    var rest := t[j..];
    var last := raw[j..];
    assert last == rest[..k - j];
    assert CharLen(rest) > 0 by { var c, more := SplitChar(rest); }
    FullRuneIs(rest, last);
    if FullRune(last) {
      FullMeansEnd(t, j, k);
    } else {
      assert raw[..j] == t[..j];
    }
  }

  // A complete last character is followed by nothing in the window.
  lemma {:induction false} FullMeansEnd(t: seq<byte>, j: nat, k: nat)
    requires Valid(t) && j < k <= |t| && Boundary(t, j) && CharLen(t[j..]) > 0 && k - j >= CharLen(t[j..])
    requires forall i :: j < i < k ==> Tail(t[i])
    ensures k == j + CharLen(t[j..]) && Boundary(t, k)
  {
    hide CharLen, Valid;
    var rest := t[j..];
    var n := CharLen(rest);
    CharSingle(rest);
    BoundaryRest(t, j);
    BoundaryInRest(t, j, n);
    if j + n < k {
      BoundaryIffNotTail(t, j + n);
      assert false;
    }
  }

  lemma {:induction false} ReadRangeIs(file: seq<byte>, start: nat, end: nat, limit: nat)
    requires start <= end <= |file| && limit > 0
    ensures var to := if end - start > limit then start + limit else end;
            ReadRange(file, start, end, limit) == (file[start..to], to)
  {
  }

  // One window of a chapter.
  lemma {:induction false} WindowIsValid(file: seq<byte>, start: nat, end: nat)
    requires Valid(file) && start <= end && Boundary(file, start) && Boundary(file, end)
    ensures var (raw, loadedEnd) := LoadWindow(file, start, end);
            && loadedEnd == start + |raw| <= end && raw == file[start..loadedEnd]
            && Valid(raw) && Boundary(file, loadedEnd) && |raw| <= MAX_CHAPTER_WINDOW
            && (start < end ==> start < loadedEnd)
  {
    ReadRangeIs(file, start, end, MAX_CHAPTER_WINDOW);
    if end - start <= MAX_CHAPTER_WINDOW {
      ValidBetween(file, start, end);
    } else {
      LongWindow(file, start, end);
    }
  }

  lemma {:induction false} LongWindow(file: seq<byte>, start: nat, end: nat)
    requires Valid(file) && start <= end && Boundary(file, start) && Boundary(file, end)
    requires end - start > MAX_CHAPTER_WINDOW
    ensures var (raw, loadedEnd) := LoadWindow(file, start, end);
            && start < loadedEnd == start + |raw| <= end && raw == file[start..loadedEnd]
            && Valid(raw) && Boundary(file, loadedEnd) && |raw| <= MAX_CHAPTER_WINDOW
  {
    var n := CutLength(file, start, end);
    hide *;
    ValidBetween(file, start, start + n);
  }

  // How much of a full window is kept.
  lemma {:induction false} CutLength(file: seq<byte>, start: nat, end: nat) returns (n: nat)
    requires Valid(file) && start <= end <= |file| && Boundary(file, start)
    requires end - start > MAX_CHAPTER_WINDOW
    ensures 0 < n <= MAX_CHAPTER_WINDOW && Boundary(file, start + n)
    ensures LoadWindow(file, start, end) == (file[start..start + n], start + n)
  {
    hide Valid, CompleteTextWindow, AfterLastLF, Boundary;
    ReadRangeIs(file, start, end, MAX_CHAPTER_WINDOW);
    var whole := file[start..start + MAX_CHAPTER_WINDOW];
    n := AfterLastLF(whole);
    if n > 0 {
      assert whole[..n] == file[start..start + n];
      CutAfterLF(file, start, n);
    } else {
      n := CutAfterCharacter(file, start);
    }
  }

  lemma {:induction false} CutAfterLF(file: seq<byte>, start: nat, n: nat)
    requires Valid(file) && start + MAX_CHAPTER_WINDOW <= |file|
    requires 0 < n == AfterLastLF(file[start..start + MAX_CHAPTER_WINDOW])
    ensures Boundary(file, start + n)
  {
    hide Valid;
    var whole := file[start..start + MAX_CHAPTER_WINDOW];
    assert whole[n - 1] == file[start + n - 1];
    AsciiBoundary(file, start + n - 1);
  }

  lemma {:induction false} CutAfterCharacter(file: seq<byte>, start: nat) returns (n: nat)
    requires Valid(file) && start + MAX_CHAPTER_WINDOW <= |file| && Boundary(file, start)
    ensures 0 < n <= MAX_CHAPTER_WINDOW && Boundary(file, start + n)
    ensures CompleteTextWindow(file[start..start + MAX_CHAPTER_WINDOW]) == file[start..start + n]
  {
    hide Valid, CompleteTextWindow;
    var whole := file[start..start + MAX_CHAPTER_WINDOW];
    BoundaryRest(file, start);
    assert file[start..][..MAX_CHAPTER_WINDOW] == whole;
    CompleteKeepsCharacters(file[start..], MAX_CHAPTER_WINDOW);
    n := |CompleteTextWindow(whole)|;
    BoundaryInRest(file, start, n);
    assert whole[..n] == file[start..start + n];
  }

  // Reading the window again with its own end as the chapter end reads the same bytes.
  lemma {:induction false} WindowAgain(file: seq<byte>, start: nat, end: nat)
    requires start <= end <= |file| && end - start <= MAX_CHAPTER_WINDOW
    ensures LoadWindow(file, start, end) == (file[start..end], end)
  {
    ReadRangeIs(file, start, end, MAX_CHAPTER_WINDOW);
  }

  // ---- Where a window ends ----

  lemma {:induction false} InRange(s: seq<byte>, i: int)
    requires Boundary(s, i)
    ensures 0 <= i <= |s|
  {
  }

  // After a full window the text goes on behind its last line feed, or behind the last whole character when it has none.
  lemma {:induction false} WindowEnds(file: seq<byte>, start: nat, end: nat) returns (loaded: nat)
    requires Valid(file) && start <= end && Boundary(file, start) && Boundary(file, end)
    ensures start <= loaded <= end <= |file| && LoadWindow(file, start, end) == (file[start..loaded], loaded)
    ensures end - start <= MAX_CHAPTER_WINDOW ==> loaded == end
    ensures end - start > MAX_CHAPTER_WINDOW ==>
              var limit := start + MAX_CHAPTER_WINDOW;
              && start < loaded <= limit
              && (forall k :: loaded <= k < limit ==> file[k] != 10)
              && (file[loaded - 1] == 10 ||
                  ((forall k :: start <= k < limit ==> file[k] != 10) && Boundary(file, loaded) &&
                   forall k :: loaded < k <= limit ==> !Boundary(file, k)))
  {
    hide *;
    InRange(file, end);
    WindowIsValid(file, start, end);
    loaded := LoadWindow(file, start, end).1;
    if end - start > MAX_CHAPTER_WINDOW {
      var n := LastLineFeed(file, start, end);
      if n == 0 {
        LastCharacter(file, start, loaded - start);
      }
    } else {
      WindowAgain(file, start, end);
    }
  }

  lemma {:induction false} LastLineFeed(file: seq<byte>, start: nat, end: nat) returns (n: nat)
    requires start <= end <= |file| && end - start > MAX_CHAPTER_WINDOW
    ensures n <= MAX_CHAPTER_WINDOW && forall k :: start + n <= k < start + MAX_CHAPTER_WINDOW ==> file[k] != 10
    ensures n > 0 ==> file[start + n - 1] == 10 && LoadWindow(file, start, end).1 == start + n
    ensures n == 0 ==>
              var kept := CompleteTextWindow(file[start..start + MAX_CHAPTER_WINDOW]);
              LoadWindow(file, start, end) == (kept, start + |kept|)
  {
    hide CompleteTextWindow;
    ReadRangeIs(file, start, end, MAX_CHAPTER_WINDOW);
    var whole := file[start..start + MAX_CHAPTER_WINDOW];
    n := AfterLastLF(whole);
    hide AfterLastLF, ReadRange;
    forall k | start + n <= k < start + MAX_CHAPTER_WINDOW ensures file[k] != 10 {
      assert whole[k - start] == file[k];
    }
  }

  // No character ends between what is kept and the end of the full window.
  lemma {:induction false} LastCharacter(file: seq<byte>, start: nat, n: nat)
    requires Valid(file) && start + MAX_CHAPTER_WINDOW <= |file| && Boundary(file, start)
    requires n == |CompleteTextWindow(file[start..start + MAX_CHAPTER_WINDOW])|
    ensures forall k :: start + n < k <= start + MAX_CHAPTER_WINDOW ==> !Boundary(file, k)
  {
    hide *;
    InRange(file, start);
    var t := file[start..];
    BoundaryRest(file, start);
    WholeIsPrefix(file, start);
    CompleteIsLast(t, MAX_CHAPTER_WINDOW);
    forall k | start + n < k <= start + MAX_CHAPTER_WINDOW ensures !Boundary(file, k) {
      if Boundary(file, k) {
        BoundaryFrom(file, start, k);
      }
    }
  }

  lemma {:induction false} WholeIsPrefix(file: seq<byte>, start: nat)
    requires start + MAX_CHAPTER_WINDOW <= |file|
    ensures file[start..][..MAX_CHAPTER_WINDOW] == file[start..start + MAX_CHAPTER_WINDOW] && MAX_CHAPTER_WINDOW > 4
  {
  }

  lemma {:induction false} BoundaryFrom(s: seq<byte>, i: nat, k: nat)
    requires Valid(s) && i <= k && Boundary(s, i) && Boundary(s, k)
    ensures Boundary(s[i..], k - i)
  {
    hide Valid;
    ValidBetween(s, i, k);
    assert s[i..][..k - i] == s[i..k];
  }

  lemma {:induction false} CompleteIsLast(t: seq<byte>, k: nat)
    requires Valid(t) && 4 < k <= |t|
    ensures forall i :: |CompleteTextWindow(t[..k])| < i <= k ==> !Boundary(t, i)
  {
    hide Valid, CharLen, FullRune, LastRuneStart;
    var raw := t[..k];
    var j := LastStartIs(t, k);
    if !FullRune(raw[j..]) {
      assert raw[..j] == t[..j];
      forall i | j < i <= k ensures !Boundary(t, i) {
        if i < k {
          BoundaryIffNotTail(t, i);
        } else if Boundary(t, k) {
          CompleteCharacter(t, j, k);
        }
      }
    }
  }

  // Between two boundaries there is a whole character.
  lemma {:induction false} CompleteCharacter(t: seq<byte>, j: nat, k: nat)
    requires Valid(t) && j < k && Boundary(t, j) && Boundary(t, k)
    ensures FullRune(t[..k][j..])
  {
    hide *;
    InRange(t, k);
    ValidBetween(t, j, k);
    var piece := t[j..k];
    var c, rest := SplitChar(piece);
    FullRuneIs(piece, piece);
    assert t[..k][j..] == piece;
  }
}

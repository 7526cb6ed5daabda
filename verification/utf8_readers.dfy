/**
  The repository's two UTF-8 readers: c1_valid_utf8 of the input method's
  protocol header and the cursor decoder of the package manager's label
  code. Masks and shifts of unsigned bytes are written as the arithmetic they
  denote: b & 0x3f is b % 64, b & 0xc0 == 0x80 is b / 64 == 2, c << 6 is c * 64.
 */
module Utf8Readers {
  import opened Utf8

  // What both readers take from a lead byte: continuation count, smallest
  // admissible code point and payload. Count 0 marks a byte that cannot lead.
  function LeadCount(b: byte): (n: nat)
    ensures n <= 3
  {
    if 0xC2 <= b <= 0xDF then 1 else if 0xE0 <= b <= 0xEF then 2 else if 0xF0 <= b <= 0xF4 then 3 else 0
  }

  function LeadMinimum(b: byte): int {
    if LeadCount(b) == 1 then 0x80 else if LeadCount(b) == 2 then 0x800 else 0x10000
  }

  function LeadPayload(b: byte): int {
    if LeadCount(b) == 1 then b % 32 else if LeadCount(b) == 2 then b % 16 else b % 8
  }

  // The code point accumulated after j continuation bytes.
  function Gather(t: seq<byte>, j: nat): int
    requires j < |t|
  {
    if j == 0 then LeadPayload(t[0]) else Push6(Gather(t, j - 1), t[j])
  }

  predicate InRange(c: int, minimum: int) {
    minimum <= c <= 0x10FFFF && !(0xD800 <= c <= 0xDFFF)
  }

  // The gathered value lies in the admissible range.
  predicate GatheredInRange(t: seq<byte>)
    requires |t| > 0
  {
    LeadCount(t[0]) < |t| && InRange(Gather(t, LeadCount(t[0])), LeadMinimum(t[0]))
  }

  lemma {:induction false} Gathered(t: seq<byte>, n: nat)
    requires n < |t|
    ensures Gather(t, n) == if n == 0 then LeadPayload(t[0]) else Push6(Gather(t, n - 1), t[n])
  {
  }

  lemma {:induction false} LeadDecides3(t: seq<byte>)
    requires |t| > 2 && 0xE0 <= t[0] <= 0xEF && Tail(t[1]) && Tail(t[2])
    ensures (CharLen(t) == 0 || CharLen(t) == 3) && (CharLen(t) > 0 <==> GatheredInRange(t))
    ensures CharLen(t) > 0 ==> Scalar(t) == Gather(t, 2)
  {
    Gathered(t, 0);
    Gathered(t, 1);
    Gathered(t, 2);
    assert t[0] % 16 == t[0] - 0xE0;
  }

  lemma {:induction false} LeadDecides4(t: seq<byte>)
    requires |t| > 3 && 0xF0 <= t[0] <= 0xF4 && Tail(t[1]) && Tail(t[2]) && Tail(t[3])
    ensures (CharLen(t) == 0 || CharLen(t) == 4) && (CharLen(t) > 0 <==> GatheredInRange(t))
    ensures CharLen(t) > 0 ==> Scalar(t) == Gather(t, 3)
  {
    Gathered(t, 0);
    Gathered(t, 1);
    Gathered(t, 2);
    Gathered(t, 3);
    assert t[0] % 8 == t[0] - 0xF0;
  }

  // The range test on the gathered value accepts exactly the sequences the grammar lists.
  lemma {:induction false} LeadDecides(t: seq<byte>)
    requires |t| > 0
    ensures t[0] < 0x80 ==> CharLen(t) == 1 && Scalar(t) == t[0]
    ensures t[0] >= 0x80 ==>
      && (CharLen(t) == 0 || CharLen(t) == LeadCount(t[0]) + 1)
      && (CharLen(t) > 0 <==>
            && 0 < LeadCount(t[0]) < |t|
            && (forall k :: 1 <= k <= LeadCount(t[0]) ==> Tail(t[k]))
            && InRange(Gather(t, LeadCount(t[0])), LeadMinimum(t[0])))
      && (CharLen(t) > 0 ==> Scalar(t) == Gather(t, LeadCount(t[0])))
  {
    hide Gather;
    var n := LeadCount(t[0]);
    if 0 < n < |t| && forall k :: 1 <= k <= n ==> Tail(t[k]) {
      assert Tail(t[1]);
      if n == 1 {
        Gathered(t, 0);
        Gathered(t, 1);
        assert t[0] % 32 == t[0] - 0xC0;
      } else if n == 2 {
        assert Tail(t[2]);
        LeadDecides3(t);
      } else {
        assert Tail(t[2]) && Tail(t[3]);
        LeadDecides4(t);
      }
    }
  }

  // What the wire protocol calls a text: well-formed and free of NUL.
  predicate WireText(s: seq<byte>) {
    Valid(s) && 0 !in s
  }

  // Consuming one non-NUL character keeps the verdict on the rest.
  lemma {:induction false} StepKeepsVerdict(s: seq<byte>, i: nat)
    requires i < |s|
    ensures WireText(s[i..]) <==> CharLen(s[i..]) > 0 && s[i] != 0 && WireText(s[i + CharLen(s[i..])..])
  {
    var t := s[i..];
    var n := CharLen(t);
    if n > 0 {
      CharShape(t);
      assert t[n..] == s[i + n..];
      assert t == t[..n] + t[n..];
      assert forall k :: 0 <= k < n ==> t[..n][k] == t[k];
    }
    assert t[0] == s[i];
  }

  // Strict, NUL-free UTF-8, as the wire protocol checks it.
  method ValidUtf8(s: seq<byte>) returns (ok: bool)
    ensures ok <==> WireText(s)
  {
    hide CharLen, Scalar;
    var i := 0;
    while i < |s|
      invariant i <= |s|
      invariant WireText(s) <==> WireText(s[i..])
    {
      ghost var t := s[i..];
      StepKeepsVerdict(s, i);
      LeadDecides(t);
      assert t[0] == s[i];
      var ch: int := s[i];
      var lead := s[i];
      i := i + 1;
      if ch < 0x80 {
        if ch == 0 {
          return false;
        }
        continue;
      }
      var count: int, minimum: int := 0, 0;
      if 0xC2 <= ch <= 0xDF {
        count, minimum, ch := 1, 0x80, ch % 32;
      } else if 0xE0 <= ch <= 0xEF {
        count, minimum, ch := 2, 0x800, ch % 16;
      } else if 0xF0 <= ch <= 0xF4 {
        count, minimum, ch := 3, 0x10000, ch % 8;
      } else {
        return false;
      }
      if |s| - i < count {
        return false;
      }
      ghost var start := i;
      for j := 0 to count
        invariant i == start + j
        invariant forall k :: 1 <= k <= j ==> Tail(t[k])
        invariant ch == Gather(t, j)
      {
        assert t[j + 1] == s[i];
        if s[i] / 64 != 2 {
          assert !Tail(t[j + 1]);
          return false;
        }
        ch := ch * 64 + s[i] % 64;
        i := i + 1;
      }
      if ch < minimum || ch > 0x10FFFF || (0xD800 <= ch <= 0xDFFF) {
        return false;
      }
    }
    return true;
  }

  // Outcome of the cursor decoder: 1 a character was read, 0 the terminator, -1 malformed.
  type Outcome = r: int | r == 1 || r == 0 || r == -1

  predicate Terminated(buf: seq<byte>, cursor: nat) {
    cursor < |buf| && 0 in buf[cursor..]
  }

  // Every byte the decoder looks at lies at or before the terminator, which is what the
  // absence of a length argument relies on; on malformed input the cursor stays put.
  method DecodeNext(buf: seq<byte>, cursor: nat) returns (result: Outcome, codepoint: int, next: nat)
    requires Terminated(buf, cursor)
    ensures result == 0 <==> buf[cursor] == 0
    ensures result == 1 <==> buf[cursor] != 0 && CharLen(buf[cursor..]) > 0
    ensures result == 1 ==> codepoint == Scalar(buf[cursor..]) && next == cursor + CharLen(buf[cursor..])
    ensures result != 1 ==> next == cursor
    ensures Terminated(buf, next)
  {
    hide CharLen, Scalar, Gather, Tail;
    ghost var t := buf[cursor..];
    codepoint, next := 0, cursor;
    assert t[0] == buf[cursor];
    LeadDecides(t);
    var lead := buf[cursor];
    if lead == 0 {
      return 0, codepoint, next;
    }
    if lead < 0x80 {
      PastCharacter(buf, cursor);
      return 1, lead, cursor + 1;
    }
    var cp: int, minimum: int, count: int := 0, 0, 0;
    if 0xC2 <= lead <= 0xDF {
      cp, minimum, count := lead % 32, 0x80, 2;
    } else if 0xE0 <= lead <= 0xEF {
      cp, minimum, count := lead % 16, 0x800, 3;
    } else if 0xF0 <= lead <= 0xF4 {
      cp, minimum, count := lead % 8, 0x10000, 4;
    } else {
      return -1, codepoint, next;
    }
    var complete;
    complete, cp := GatherTail(buf, cursor, count, cp);
    if !complete {
      return -1, codepoint, next;
    }
    if cp < minimum || cp > 0x10FFFF || (0xD800 <= cp <= 0xDFFF) {
      return -1, codepoint, next;
    }
    PastCharacter(buf, cursor);
    return 1, cp, cursor + count;
  }

  // The continuation bytes of a character, up to the first that is none; the terminator is never passed.
  method GatherTail(buf: seq<byte>, cursor: nat, count: int, lead: int) returns (complete: bool, cp: int)
    requires Terminated(buf, cursor) && buf[cursor] != 0
    requires count == LeadCount(buf[cursor]) + 1 >= 2 && lead == LeadPayload(buf[cursor])
    ensures complete <==> count <= |buf| - cursor && forall k :: 1 <= k < count ==> Tail(buf[cursor..][k])
    ensures complete ==> cp == Gather(buf[cursor..], count - 1)
  {
    ghost var t := buf[cursor..];
    cp := lead;
    var i := 1;
    while i < count
      invariant 1 <= i <= count && i <= |t|
      invariant forall k :: 1 <= k < i ==> Tail(t[k])
      invariant cp == Gather(t, i - 1)
    {
      NotYetTerminated(t, i);
      assert t[i] == buf[cursor + i];
      if buf[cursor + i] / 64 != 2 {
        assert !Tail(t[i]);
        return false, cp;
      }
      cp := cp * 64 + buf[cursor + i] % 64;
      i := i + 1;
    }
    complete := true;
  }

  // While only nonzero bytes have been read the terminator is still ahead.
  lemma {:induction false} NotYetTerminated(t: seq<byte>, i: nat)
    requires 0 in t && 1 <= i <= |t| && t[0] != 0
    requires forall k :: 1 <= k < i ==> Tail(t[k])
    ensures i < |t|
  {
    var z :| 0 <= z < |t| && t[z] == 0;
    assert z >= i;
  }

  lemma {:induction false} PastCharacter(buf: seq<byte>, cursor: nat)
    requires Terminated(buf, cursor) && buf[cursor] != 0 && CharLen(buf[cursor..]) > 0
    ensures Terminated(buf, cursor + CharLen(buf[cursor..]))
  {
    var t := buf[cursor..];
    CharShape(t);
    var z :| 0 <= z < |t| && t[z] == 0;
    assert z >= CharLen(t);
    assert buf[cursor + CharLen(t)..][z - CharLen(t)] == t[z];
  }

  // The bytes of buf from cursor up to its terminator.
  function UntilNul(buf: seq<byte>): (s: seq<byte>)
    ensures 0 !in s && s <= buf
    ensures |s| < |buf| ==> buf[|s|] == 0
  {
    if buf == [] || buf[0] == 0 then [] else [buf[0]] + UntilNul(buf[1..])
  }

  // A caller's loop over the whole text: decode until the decoder stops.
  method DecodeText(buf: seq<byte>) returns (ok: bool, codepoints: seq<int>)
    requires Terminated(buf, 0)
    ensures ok <==> Valid(UntilNul(buf))
    ensures ok ==> codepoints == Runes(UntilNul(buf))
  {
    hide CharLen, Scalar, UntilNul;
    ghost var text := UntilNul(buf);
    assert buf[0..] == buf;
    var p := 0;
    codepoints := [];
    while true
      invariant Terminated(buf, p)
      invariant p <= |text| && Valid(text[..p]) && codepoints == Runes(text[..p])
      invariant Valid(text) <==> Valid(text[p..])
      decreases |buf| - p
    {
      var result, cp, next := DecodeNext(buf, p);
      if result == 0 {
        TextStops(buf, text, p);
        return true, codepoints;
      }
      NextCharacter(buf, text, p);
      if result == -1 {
        return false, codepoints;
      }
      codepoints := codepoints + [cp];
      p := next;
    }
  }

  lemma {:induction false} TextStops(buf: seq<byte>, text: seq<byte>, p: nat)
    requires text == UntilNul(buf) && p < |buf| && p <= |text| && buf[p] == 0
    ensures p == |text| && text[..p] == text && Valid(text[p..])
  {
    assert forall k :: 0 <= k < |text| ==> text[k] == buf[k] && text[k] != 0;
  }

  lemma {:induction false} TextContinues(buf: seq<byte>, text: seq<byte>, p: nat)
    requires text == UntilNul(buf) && Terminated(buf, p) && p <= |text| && buf[p] != 0
    ensures p < |text|
    ensures CharLen(text[p..]) == CharLen(buf[p..])
    ensures CharLen(buf[p..]) > 0 ==> Scalar(text[p..]) == Scalar(buf[p..])
  {
    hide CharLen, Scalar, UntilNul;
    var a, b := text[p..], buf[p..];
    assert p < |text|;
    assert b == a + buf[|text|..];
    if CharLen(b) > 0 {
      CharShape(b);
      assert b[|a|] == buf[|text|] == 0;
      CharSingle(b);
      CharLenPrefix(b[..CharLen(b)], a[CharLen(b)..]);
      assert b[..CharLen(b)] + a[CharLen(b)..] == a;
    } else if CharLen(a) > 0 {
      CharLenPrefix(a, buf[|text|..]);
    }
  }

  lemma {:induction false} Extend(text: seq<byte>, p: nat, q: nat)
    requires p < |text| && Valid(text[..p]) && CharLen(text[p..]) > 0 && q == p + CharLen(text[p..])
    ensures Valid(text[..q])
    ensures Runes(text[..q]) == Runes(text[..p]) + [Scalar(text[p..])]
    ensures Valid(text[p..]) <==> Valid(text[q..])
  {
    hide CharLen, Scalar;
    var c := text[p..][..q - p];
    CharSingle(text[p..]);
    ValidConcat(text[..p], c);
    ValidCons(c, []);
    ValidCons(c, text[q..]);
    assert c + [] == c;
    assert text[..q] == text[..p] + c;
    assert text[p..] == c + text[q..];
  }

  // One turn of the caller's loop.
  lemma {:induction false} NextCharacter(buf: seq<byte>, text: seq<byte>, p: nat)
    requires text == UntilNul(buf) && Terminated(buf, p) && p <= |text| && buf[p] != 0 && Valid(text[..p])
    ensures CharLen(buf[p..]) == 0 ==> !Valid(text[p..])
    ensures var q := p + CharLen(buf[p..]);
            CharLen(buf[p..]) > 0 ==>
              && q <= |text| && Valid(text[..q])
              && Runes(text[..q]) == Runes(text[..p]) + [Scalar(buf[p..])]
              && (Valid(text[p..]) <==> Valid(text[q..]))
  {
    hide CharLen, Runes, Scalar, UntilNul;
    TextContinues(buf, text, p);
    if CharLen(buf[p..]) > 0 {
      Extend(text, p, p + CharLen(buf[p..]));
    }
  }

  // The two independent readers agree on every NUL-terminated text.
  method ReadersAgree(text: seq<byte>) returns (first: bool, second: bool)
    requires 0 !in text
    ensures first == second == Valid(text)
  {
    first := ValidUtf8(text);
    UntilNulOfTerminated(text);
    var codepoints;
    second, codepoints := DecodeText(text + [0]);
  }

  lemma {:induction false} UntilNulOfTerminated(text: seq<byte>)
    requires 0 !in text
    ensures UntilNul(text + [0]) == text && Terminated(text + [0], 0)
  {
    var buf := text + [0];
    assert buf[|text|] == 0;
    assert buf[0..] == buf;
    if text != [] {
      assert text[0] in text;
      assert buf[1..] == text[1..] + [0];
      assert forall b :: b in text[1..] ==> b in text;
      UntilNulOfTerminated(text[1..]);
    }
  }
}

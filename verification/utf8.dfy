/**
  UTF-8 as section 4 of RFC 3629 defines it: the grammar, the encoder, and
  rune boundaries. The repository's hand-written readers are proved against it
  in Utf8Readers.
 */
module Utf8 {

  type byte = b: int | 0 <= b < 256

  // A Unicode scalar value: any code point that is not a surrogate.
  predicate IsScalar(c: int) {
    0 <= c <= 0x10FFFF && !(0xD800 <= c <= 0xDFFF)
  }

  // UTF8-tail of section 4.
  predicate Tail(b: byte) {
    0x80 <= b <= 0xBF
  }

  // Length of the production UTF8-1 .. UTF8-4 that starts s, or 0 when none does.
  function CharLen(s: seq<byte>): (n: nat)
    ensures n <= |s| && n <= 4
  {
    if |s| == 0 then 0
    else if s[0] <= 0x7F then 1
    else if |s| >= 2 && 0xC2 <= s[0] <= 0xDF && Tail(s[1]) then 2
    else if |s| >= 3 && Tail(s[2]) &&
            ((s[0] == 0xE0 && 0xA0 <= s[1] <= 0xBF) || (0xE1 <= s[0] <= 0xEC && Tail(s[1])) ||
             (s[0] == 0xED && 0x80 <= s[1] <= 0x9F) || (0xEE <= s[0] <= 0xEF && Tail(s[1])))
    then 3
    else if |s| >= 4 && Tail(s[2]) && Tail(s[3]) &&
            ((s[0] == 0xF0 && 0x90 <= s[1] <= 0xBF) || (0xF1 <= s[0] <= 0xF3 && Tail(s[1])) ||
             (s[0] == 0xF4 && 0x80 <= s[1] <= 0x8F))
    then 4
    else 0
  }

  // Append the six payload bits of a continuation byte.
  function Push6(c: int, t: byte): int {
    c * 64 + t - 0x80
  }

  // The scalar value the leading character of s denotes (section 3 of RFC 3629).
  function Scalar(s: seq<byte>): int
    requires CharLen(s) > 0
  {
    var n := CharLen(s);
    if n == 1 then s[0]
    else if n == 2 then Push6(s[0] - 0xC0, s[1])
    else if n == 3 then Push6(Push6(s[0] - 0xE0, s[1]), s[2])
    else Push6(Push6(Push6(s[0] - 0xF0, s[1]), s[2]), s[3])
  }

  // UTF8-octets: a sequence of characters.
  predicate Valid(s: seq<byte>)
    decreases |s|
  {
    s == [] || (CharLen(s) > 0 && Valid(s[CharLen(s)..]))
  }

  function Runes(s: seq<byte>): (r: seq<int>)
    requires Valid(s)
    decreases |s|
  {
    if s == [] then [] else [Scalar(s)] + Runes(s[CharLen(s)..])
  }

  // Bytes of one scalar value (section 3 of RFC 3629).
  function Encode(c: int): (s: seq<byte>)
    requires IsScalar(c)
    ensures 1 <= |s| <= 4
  {
    if c <= 0x7F then [c]
    else if c <= 0x7FF then [0xC0 + c / 64, 0x80 + c % 64]
    else if c <= 0xFFFF then [0xE0 + c / 64 / 64, 0x80 + c / 64 % 64, 0x80 + c % 64]
    else [0xF0 + c / 64 / 64 / 64, 0x80 + c / 64 / 64 % 64, 0x80 + c / 64 % 64, 0x80 + c % 64]
  }

  predicate AllScalar(r: seq<int>) {
    forall i :: 0 <= i < |r| ==> IsScalar(r[i])
  }

  function EncodeAll(r: seq<int>): (s: seq<byte>)
    requires AllScalar(r)
  {
    if r == [] then [] else Encode(r[0]) + EncodeAll(r[1..])
  }

  // ---- One character: encoding and decoding are inverse ----

  lemma {:induction false} Push6Divides(c: int, t: byte)
    requires Tail(t)
    ensures Push6(c, t) / 64 == c && 0x80 + Push6(c, t) % 64 == t
  {
  }

  lemma {:induction false} Push6Restores(c: nat)
    ensures Push6(c / 64, 0x80 + c % 64) == c
  {
  }

  lemma {:induction false} EncodeThenDecode(c: int, rest: seq<byte>)
    requires IsScalar(c)
    ensures CharLen(Encode(c) + rest) == |Encode(c)|
    ensures Scalar(Encode(c) + rest) == c
  {
    var e := Encode(c);
    var s := e + rest;
    assert forall k :: 0 <= k < |e| ==> s[k] == e[k];
    Push6Restores(c);
    if 0x7FF < c {
      Push6Restores(c / 64);
      if 0xFFFF < c {
        Push6Restores(c / 64 / 64);
      }
    }
  }

  // The six-bit digits of a code point, read off the continuation bytes.
  lemma {:induction false} DigitsOf(c: nat, t: byte) returns (v: int)
    requires Tail(t)
    ensures v == Push6(c, t) == c * 64 + t - 0x80 && v / 64 == c && 0x80 + v % 64 == t && 64 * c <= v < 64 * c + 64
  {
    v := Push6(c, t);
    Push6Divides(c, t);
  }

  lemma {:induction false} DecodeThenEncode3(s: seq<byte>)
    requires CharLen(s) == 3
    ensures IsScalar(Scalar(s)) && Encode(Scalar(s)) == s[..3]
  {
    var v := DigitsOf(s[0] - 0xE0, s[1]);
    var w := DigitsOf(v, s[2]);
    assert w / 64 == v && v / 64 == s[0] - 0xE0;
  }

  lemma {:induction false} EncodeFromDigits(c: int, v: int, w: int, x: int)
    requires 0xFFFF < x <= 0x10FFFF
    requires x / 64 == w && w / 64 == v && v / 64 == c
    ensures Encode(x) == [0xF0 + c, 0x80 + v % 64, 0x80 + w % 64, 0x80 + x % 64]
  {
  }

  lemma {:induction false} DecodeThenEncode4(s: seq<byte>)
    requires CharLen(s) == 4
    ensures IsScalar(Scalar(s)) && Encode(Scalar(s)) == s[..4]
  {
    Lead4(s);
    hide *;
    var c: int := s[0] - 0xF0;
    var v := DigitsOf(c, s[1]);
    var w := DigitsOf(v, s[2]);
    var x := DigitsOf(w, s[3]);
    assert 0x10 <= v < 0x110;
    assert 0xFFFF < x <= 0x10FFFF;
    EncodeFromDigits(c, v, w, x);
    LargeScalar(x);
  }

  lemma {:induction false} LargeScalar(x: int)
    requires 0xFFFF < x <= 0x10FFFF
    ensures IsScalar(x)
  {
  }

  // The bounds of a four-byte character.
  lemma {:induction false} Lead4(s: seq<byte>)
    requires CharLen(s) == 4
    ensures |s| >= 4 && Tail(s[1]) && Tail(s[2]) && Tail(s[3]) && 0xF0 <= s[0] <= 0xF4
    ensures 0x80 <= s[1] <= 0xBF && 0x80 <= s[2] <= 0xBF && 0x80 <= s[3] <= 0xBF
    ensures (s[0] == 0xF0 ==> s[1] >= 0x90) && (s[0] == 0xF4 ==> s[1] <= 0x8F)
    ensures Scalar(s) == Push6(Push6(Push6(s[0] - 0xF0, s[1]), s[2]), s[3])
    ensures s[..4] == [s[0], s[1], s[2], s[3]]
  {
    hide Push6;
  }

  lemma {:induction false} DecodeThenEncode(s: seq<byte>)
    requires CharLen(s) > 0
    ensures IsScalar(Scalar(s)) && Encode(Scalar(s)) == s[..CharLen(s)]
  {
    var n := CharLen(s);
    if n == 2 {
      var v := DigitsOf(s[0] - 0xC0, s[1]);
    } else if n == 3 {
      DecodeThenEncode3(s);
    } else if n == 4 {
      DecodeThenEncode4(s);
    }
  }

  // ---- Whole texts ----

  // Valid text is exactly the encoded text: the grammar and the encoder describe the same set,
  // and Runes recovers what was encoded.
  lemma {:induction false} EncodedIsValid(r: seq<int>)
    requires AllScalar(r)
    ensures Valid(EncodeAll(r)) && Runes(EncodeAll(r)) == r
  {
    if r != [] {
      var rest := EncodeAll(r[1..]);
      EncodeThenDecode(r[0], rest);
      EncodedIsValid(r[1..]);
      assert (Encode(r[0]) + rest)[|Encode(r[0])|..] == rest;
      assert [r[0]] + r[1..] == r;
    }
  }

  lemma {:induction false} ValidIsEncoded(s: seq<byte>)
    requires Valid(s)
    ensures AllScalar(Runes(s)) && EncodeAll(Runes(s)) == s
    decreases |s|
  {
    if s != [] {
      var c, rest := SplitChar(s);
      DecodeThenEncode(c);
      ValidIsEncoded(rest);
      assert Runes(s)[1..] == Runes(rest);
      assert c[..|c|] == c;
    }
  }

  // The leading character does not depend on what follows it.
  lemma {:induction false} CharLenPrefix(s: seq<byte>, t: seq<byte>)
    requires CharLen(s) > 0
    ensures CharLen(s + t) == CharLen(s) && Scalar(s + t) == Scalar(s)
  {
    assert forall k :: 0 <= k < |s| ==> (s + t)[k] == s[k];
  }

  // One character in front of a text.
  lemma {:induction false} ValidCons(c: seq<byte>, t: seq<byte>)
    requires CharLen(c) == |c| > 0
    ensures Valid(c + t) <==> Valid(t)
    ensures Valid(t) ==> Runes(c + t) == [Scalar(c)] + Runes(t)
  {
    CharLenPrefix(c, t);
    assert (c + t)[|c|..] == t;
  }

  lemma {:induction false} Associate<T>(a: seq<T>, b: seq<T>, c: seq<T>)
    ensures (a + b) + c == a + (b + c)
  {
  }

  lemma {:induction false} ValidConcat(s: seq<byte>, t: seq<byte>)
    requires Valid(s) && Valid(t)
    ensures Valid(s + t) && Runes(s + t) == Runes(s) + Runes(t)
    decreases |s|
  {
    if s == [] {
      assert s + t == t;
    } else {
      var c, rest := SplitChar(s);
      ValidConcat(rest, t);
      ValidCons(c, rest + t);
      Associate(c, rest, t);
      Associate([Scalar(c)], Runes(rest), Runes(t));
    }
  }

  // Valid text that is not empty is a character followed by valid text.
  lemma {:induction false} SplitChar(s: seq<byte>) returns (c: seq<byte>, rest: seq<byte>)
    requires Valid(s) && s != []
    ensures s == c + rest && CharLen(c) == |c| == CharLen(s) && |c| > 0 && Valid(c) && Valid(rest)
    ensures Runes(s) == [Scalar(c)] + Runes(rest) && Scalar(c) == Scalar(s)
  {
    c, rest := s[..CharLen(s)], s[CharLen(s)..];
    CharSingle(s);
  }

  // Cutting a valid text after a valid prefix leaves a valid rest.
  lemma {:induction false} ValidRest(s: seq<byte>, t: seq<byte>)
    requires Valid(s) && Valid(s + t)
    ensures Valid(t)
    decreases |s|
  {
    if s == [] {
      assert s + t == t;
    } else {
      var c, rest := SplitChar(s);
      Associate(c, rest, t);
      ValidCons(c, rest + t);
      ValidRest(rest, t);
    }
  }

  // A rune boundary of valid text.
  predicate Boundary(s: seq<byte>, i: int) {
    0 <= i <= |s| && Valid(s[..i])
  }

  lemma {:induction false} BoundaryRest(s: seq<byte>, i: int)
    requires Valid(s) && Boundary(s, i)
    ensures Valid(s[i..])
    ensures Runes(s) == Runes(s[..i]) + Runes(s[i..])
  {
    assert s[..i] + s[i..] == s;
    ValidRest(s[..i], s[i..]);
    ValidConcat(s[..i], s[i..]);
  }

  // Characters never start with a continuation byte and only continue with them.
  lemma {:induction false} CharShape(s: seq<byte>)
    requires CharLen(s) > 0
    ensures !Tail(s[0])
    ensures forall k :: 1 <= k < CharLen(s) ==> Tail(s[k])
    ensures s[0] != 0 ==> forall k :: 0 <= k < CharLen(s) ==> s[k] != 0
  {
  }

  lemma {:induction false} CharSingle(s: seq<byte>)
    requires CharLen(s) > 0
    ensures Valid(s[..CharLen(s)]) && CharLen(s[..CharLen(s)]) == CharLen(s)
    ensures Scalar(s[..CharLen(s)]) == Scalar(s)
  {
    var t := s[..CharLen(s)];
    assert CharLen(t) == CharLen(s);
    assert t[CharLen(t)..] == [];
  }

  // Valid text never starts with a continuation byte.
  lemma {:induction false} ValidHead(s: seq<byte>)
    requires Valid(s) && s != []
    ensures !Tail(s[0])
  {
    CharShape(s);
  }

  // The test both truncation loops use: a position is a boundary iff no continuation byte is there.
  lemma {:induction false} BoundaryIffNotTail(s: seq<byte>, i: nat)
    requires Valid(s) && i < |s|
    ensures Boundary(s, i) <==> !Tail(s[i])
    decreases |s|
  {
    if Boundary(s, i) {
      BoundaryRest(s, i);
      ValidHead(s[i..]);
    }
    if !Tail(s[i]) {
      NotTailIsBoundary(s, i);
    }
  }

  lemma {:induction false} NotTailIsBoundary(s: seq<byte>, i: nat)
    requires Valid(s) && i < |s| && !Tail(s[i])
    ensures Boundary(s, i)
    decreases |s|
  {
    var c, rest := SplitChar(s);
    CharShape(c);
    if i == 0 {
      assert s[..0] == [];
    } else {
      assert i >= |c|;
      NotTailIsBoundary(rest, i - |c|);
      ValidConcat(c, rest[..i - |c|]);
      assert s[..i] == c + rest[..i - |c|];
    }
  }

  // Near any position there is a boundary: stepping back over continuation bytes stops within three.
  lemma {:induction false} BoundaryNear(s: seq<byte>, i: nat) returns (b: nat)
    requires Valid(s) && i < |s|
    ensures b <= i <= b + 3 && Boundary(s, b)
    ensures forall k :: b < k <= i ==> Tail(s[k])
    decreases |s|
  {
    hide *;
    var c, rest := SplitChar(s);
    CharIsShort(c);
    if i < |c| {
      b := 0;
      StartIsBoundary(s);
      TailsOfChar(c, rest);
    } else {
      var r := BoundaryNear(rest, i - |c|);
      b := r + |c|;
      BoundaryCarries(c, rest, r);
      TailsCarry(c, rest, r, i - |c|);
    }
  }

  lemma {:induction false} CharIsShort(c: seq<byte>)
    requires CharLen(c) == |c|
    ensures |c| <= 4
  {
  }

  lemma {:induction false} StartIsBoundary(s: seq<byte>)
    ensures Boundary(s, 0)
  {
    EmptyIsValid();
    assert s[..0] == [];
  }

  lemma {:induction false} TailsOfChar(c: seq<byte>, rest: seq<byte>)
    requires CharLen(c) == |c| > 0
    ensures forall k :: 0 < k < |c| ==> Tail((c + rest)[k])
  {
    CharShape(c);
    hide CharLen, Tail;
  }

  // A boundary after the first character, seen from the whole text.
  lemma {:induction false} BoundaryCarries(c: seq<byte>, rest: seq<byte>, r: nat)
    requires Valid(c) && Boundary(rest, r)
    ensures Boundary(c + rest, r + |c|)
  {
    hide Valid;
    ValidConcat(c, rest[..r]);
    assert (c + rest)[..r + |c|] == c + rest[..r];
  }

  lemma {:induction false} TailsCarry(c: seq<byte>, rest: seq<byte>, from: nat, to: nat)
    requires to < |rest| && forall k :: from < k <= to ==> Tail(rest[k])
    ensures forall k :: from + |c| < k <= to + |c| ==> Tail((c + rest)[k])
  {
    hide Tail;
    forall k | from + |c| < k <= to + |c| ensures Tail((c + rest)[k]) {
      assert (c + rest)[k] == rest[k - |c|];
    }
  }

  lemma {:induction false} EmptyIsValid()
    ensures Valid([])
  {
  }
}

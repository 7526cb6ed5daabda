/**
  Requests on the wire of the input-method service,
  term-ime/integration/protocol.h: big-endian fields, the request check, and
  an encoder and decoder that are inverse to each other.
 */
module ImeWire {
  import opened Utf8
  import opened Options

  type word16 = x: int | 0 <= x < 0x1_0000
  type word32 = x: int | 0 <= x < 0x1_0000_0000

  const MAGIC: word32 := 0x4331_494D
  const VERSION: word16 := 1
  const HEADER: nat := 32
  const MAX_CANDIDATES := 5
  const MAX_KEYSYM := 0x1FF_FFFF

  const OP_STATUS := 1
  const OP_MODE := 2
  const OP_PURPOSE := 3
  const OP_KEY := 4
  const OP_SELECT := 5
  const OP_PAGE := 6
  const OP_CANCEL := 7

  datatype Request = Request(operation: word32, keysym: word32, modifiers: word32, value: word32)

  // ---- Fields ----

  function Join(hi: int, lo: int): int {
    hi * 256 + lo
  }

  // The number that bytes stand for, most significant first.
  function Number(b: seq<byte>): nat {
    if b == [] then 0 else Join(Number(b[..|b| - 1]), b[|b| - 1])
  }

  lemma {:induction false} NumberOfTwo(b: seq<byte>)
    requires |b| == 2
    ensures Number(b) == Join(b[0], b[1]) && Number(b) < 0x1_0000
  {
    assert Number(b) == Join(Number(b[..1]), b[1]) && Number(b[..1]) == Join(Number([]), b[0]) by {
      assert b[..1][..0] == [];
    }
  }

  lemma {:induction false} NumberOfFour(b: seq<byte>)
    requires |b| == 4
    ensures Number(b) == Join(Join(Join(b[0], b[1]), b[2]), b[3]) && Number(b) < 0x1_0000_0000
  {
    NumberOfTwo(b[..2]);
    assert b[..3][..2] == b[..2];
  }

  // No two texts of the same length stand for the same number.
  lemma {:induction false} NumbersDiffer(a: seq<byte>, b: seq<byte>)
    requires |a| == |b| && Number(a) == Number(b)
    ensures a == b
    decreases |a|
  {
    if a != [] {
      NumbersDiffer(a[..|a| - 1], b[..|b| - 1]);
      assert a == a[..|a| - 1] + [a[|a| - 1]] && b == b[..|b| - 1] + [b[|b| - 1]];
    }
  }

  // c1_get16
  function Get16(p: seq<byte>, at: nat): word16
    requires at + 2 <= |p|
  {
    NumberOfTwo(p[at..at + 2]);
    Number(p[at..at + 2])
  }

  // c1_get32
  function Get32(p: seq<byte>, at: nat): word32
    requires at + 4 <= |p|
  {
    NumberOfFour(p[at..at + 4]);
    Number(p[at..at + 4])
  }

  // The bytes of a number.
  ghost function Bytes16(n: word16): (b: seq<byte>)
    ensures |b| == 2 && Number(b) == n
  {
    var digits: seq<byte> := [n / 256, n % 256];
    NumberOfTwo(digits);
    var b: seq<byte> :| |b| == 2 && Number(b) == n;
    b
  }

  ghost function Bytes32(n: word32): (b: seq<byte>)
    ensures |b| == 4 && Number(b) == n
  {
    var digits: seq<byte> := [n / 256 / 256 / 256, n / 256 / 256 % 256, n / 256 % 256, n % 256];
    NumberOfFour(digits);
    var b: seq<byte> :| |b| == 4 && Number(b) == n;
    b
  }

  // Shifting a number out gives its bytes.
  lemma {:induction false} Shifted16(n: word16, b: seq<byte>)
    requires b == [n / 256, n % 256]
    ensures b == Bytes16(n)
  {
    NumberOfTwo(b);
    NumbersDiffer(b, Bytes16(n));
    hide Bytes16, Number;
  }

  lemma {:induction false} Shifted32(n: word32, b: seq<byte>)
    requires b == [n / 256 / 256 / 256, n / 256 / 256 % 256, n / 256 % 256, n % 256]
    ensures b == Bytes32(n)
  {
    NumberOfFour(b);
    NumbersDiffer(b, Bytes32(n));
    hide Bytes32, Number;
  }

  // Reading back what was written, and writing back what was read.
  lemma {:induction false} Field16(p: seq<byte>, at: nat)
    requires at + 2 <= |p|
    ensures Bytes16(Get16(p, at)) == p[at..at + 2]
    ensures forall n: word16 :: p[at..at + 2] == Bytes16(n) ==> Get16(p, at) == n
  {
    NumbersDiffer(Bytes16(Get16(p, at)), p[at..at + 2]);
    hide Bytes16, Number;
  }

  lemma {:induction false} Field32(p: seq<byte>, at: nat)
    requires at + 4 <= |p|
    ensures Bytes32(Get32(p, at)) == p[at..at + 4]
    ensures forall n: word32 :: p[at..at + 4] == Bytes32(n) ==> Get32(p, at) == n
  {
    NumbersDiffer(Bytes32(Get32(p, at)), p[at..at + 4]);
    hide Bytes32, Number;
  }

  method Put16(p: array<byte>, at: nat, n: word16)
    requires at + 2 <= p.Length
    modifies p
    ensures p[..at + 2] == old(p[..at]) + Bytes16(n)
    ensures forall k :: at + 2 <= k < p.Length ==> p[k] == old(p[k])
  {
    p[at], p[at + 1] := n / 256, n % 256;
    Shifted16(n, p[at..at + 2]);
    assert p[..at + 2] == p[..at] + p[at..at + 2];
  }

  method Put32(p: array<byte>, at: nat, n: word32)
    requires at + 4 <= p.Length
    modifies p
    ensures p[..at + 4] == old(p[..at]) + Bytes32(n)
    ensures forall k :: at + 4 <= k < p.Length ==> p[k] == old(p[k])
  {
    p[at], p[at + 1] := n / 256 / 256 / 256, n / 256 / 256 % 256;
    p[at + 2], p[at + 3] := n / 256 % 256, n % 256;
    Shifted32(n, p[at..at + 4]);
    assert p[..at + 4] == p[..at] + p[at..at + 4];
  }

  // ---- Requests ----

  // Only shift, lock, control, alt and super: bits 0 to 3 and 6.
  predicate KnownModifiers(m: word32) {
    m < 16 || 64 <= m < 80
  }

  // The modifiers that are allowed are the sums of shift 1, lock 2, control 4, alt 8 and super 64.
  lemma {:induction false} ModifiersAreSums(m: word32)
    ensures KnownModifiers(m) <==>
            exists a: nat, b: nat, c: nat, d: nat, e: nat {:trigger SumOf(a, b, c, d, e)} ::
              a <= 1 && b <= 1 && c <= 1 && d <= 1 && e <= 1 && m == SumOf(a, b, c, d, e)
  {
    if m < 16 {
      var a, b, c, d := DigitsOf(m);
      assert m == SumOf(a, b, c, d, 0);
    } else if 64 <= m < 80 {
      var a, b, c, d := DigitsOf(m - 64);
      assert m == SumOf(a, b, c, d, 1);
    }
  }

  function SumOf(shift: nat, lock: nat, control: nat, alt: nat, super: nat): nat {
    shift + 2 * lock + 4 * control + 8 * alt + 64 * super
  }

  lemma {:induction false} DigitsOf(n: nat) returns (a: nat, b: nat, c: nat, d: nat)
    requires n < 16
    ensures a <= 1 && b <= 1 && c <= 1 && d <= 1 && n == a + 2 * b + 4 * c + 8 * d
  {
    a, b, c, d := n % 2, n / 2 % 2, n / 4 % 2, n / 8;
  }

  predicate ValidRequest(r: Request) {
    if r.operation < OP_STATUS || r.operation > OP_CANCEL then false
    else if r.operation == OP_KEY then
      0 < r.keysym <= MAX_KEYSYM && KnownModifiers(r.modifiers) && r.value == 0
    else if r.keysym != 0 || r.modifiers != 0 then false
    else if r.operation == OP_MODE || r.operation == OP_PURPOSE || r.operation == OP_PAGE then r.value <= 1
    else if r.operation == OP_SELECT then r.value < MAX_CANDIDATES
    else r.value == 0
  }

  // The packet of a request.
  ghost function Packet(r: Request, sequence: word32): (p: seq<byte>)
    ensures |p| == HEADER
  {
    Bytes32(MAGIC) + Bytes16(VERSION) + Bytes16(r.operation % 0x1_0000) + Bytes32(sequence) + Bytes32(HEADER) +
    Bytes32(r.keysym) + Bytes32(r.modifiers) + Bytes32(r.value) + [0, 0, 0, 0]
  }

  // c1_encode_request, into a buffer of at least a header.
  method EncodeRequest(p: array<byte>, r: Request, sequence: word32)
    requires p.Length >= HEADER
    modifies p
    ensures p[..] == Packet(r, sequence) + old(p[HEADER..])
  {
    hide Bytes16, Bytes32;
    for i := 0 to HEADER
      invariant forall k :: 0 <= k < i ==> p[k] == 0
      invariant forall k :: HEADER <= k < p.Length ==> p[k] == old(p[k])
    {
      p[i] := 0;
    }
    Put32(p, 0, MAGIC);
    Put16(p, 4, VERSION);
    Put16(p, 6, r.operation % 0x1_0000);
    Put32(p, 8, sequence);
    Put32(p, 12, HEADER);
    Put32(p, 16, r.keysym);
    Put32(p, 20, r.modifiers);
    Put32(p, 24, r.value);
    assert p[..HEADER] == p[..28] + [0, 0, 0, 0];
    assert p[..] == p[..HEADER] + p[HEADER..];
    assert p[HEADER..] == old(p[HEADER..]);
  }

  // c1_decode_request
  function Decode(p: seq<byte>): Option<(Request, word32)> {
    if |p| != HEADER || Get32(p, 0) != MAGIC || Get16(p, 4) != VERSION || Get32(p, 12) != |p| || Get32(p, 28) != 0
    then None
    else
      var r := Request(Get16(p, 6), Get32(p, 16), Get32(p, 20), Get32(p, 24));
      if Get32(p, 8) != 0 && ValidRequest(r) then Some((r, Get32(p, 8))) else None
  }

  // A field at its place: what the bytes up to its end are.
  lemma {:induction false} Take32(p: seq<byte>, at: nat, n: word32)
    requires at + 4 <= |p|
    ensures Get32(p, at) == n <==> p[..at + 4] == p[..at] + Bytes32(n)
  {
    Field32(p, at);
    assert p[..at + 4] == p[..at] + p[at..at + 4];
    SuffixIs(p[..at], p[at..at + 4], Bytes32(n));
  }

  lemma {:induction false} Take16(p: seq<byte>, at: nat, n: word16)
    requires at + 2 <= |p|
    ensures Get16(p, at) == n <==> p[..at + 2] == p[..at] + Bytes16(n)
  {
    Field16(p, at);
    assert p[..at + 2] == p[..at] + p[at..at + 2];
    SuffixIs(p[..at], p[at..at + 2], Bytes16(n));
  }

  lemma {:induction false} SuffixIs(a: seq<byte>, b: seq<byte>, c: seq<byte>)
    ensures a + b == a + c <==> b == c
  {
    assert (a + b)[|a|..] == b && (a + c)[|a|..] == c;
  }

  // The fields of a packet, in order.
  lemma {:induction false} FieldsMakePacket(p: seq<byte>, r: Request, sequence: word32)
    requires |p| == HEADER
    ensures p == Packet(r, sequence) <==>
            && Get32(p, 0) == MAGIC && Get16(p, 4) == VERSION && Get16(p, 6) == r.operation % 0x1_0000
            && Get32(p, 8) == sequence && Get32(p, 12) == HEADER && Get32(p, 16) == r.keysym
            && Get32(p, 20) == r.modifiers && Get32(p, 24) == r.value && Get32(p, 28) == 0
  {
    hide Bytes16, Bytes32, Get16, Get32;
    var q := Packet(r, sequence);
    Take32(p, 0, MAGIC);
    Take16(p, 4, VERSION);
    Take16(p, 6, r.operation % 0x1_0000);
    Take32(p, 8, sequence);
    Take32(p, 12, HEADER);
    Take32(p, 16, r.keysym);
    Take32(p, 20, r.modifiers);
    Take32(p, 24, r.value);
    Take32(p, 28, 0);
    Bytes32Zero();
    assert p[..0] + Bytes32(MAGIC) == Bytes32(MAGIC) && p[..32] == p;
    if p == q {
      PacketPrefixes(r, sequence);
    }
  }

  lemma {:induction false} Bytes32Zero()
    ensures Bytes32(0) == [0, 0, 0, 0]
  {
    Shifted32(0, [0, 0, 0, 0]);
  }

  lemma {:induction false} PacketPrefixes(r: Request, sequence: word32)
    ensures var p := Packet(r, sequence);
            && p[..4] == p[..0] + Bytes32(MAGIC) && p[..6] == p[..4] + Bytes16(VERSION)
            && p[..8] == p[..6] + Bytes16(r.operation % 0x1_0000)
            && p[..12] == p[..8] + Bytes32(sequence) && p[..16] == p[..12] + Bytes32(HEADER)
            && p[..20] == p[..16] + Bytes32(r.keysym)
            && p[..24] == p[..20] + Bytes32(r.modifiers) && p[..28] == p[..24] + Bytes32(r.value)
            && p[..32] == p[..28] + [0, 0, 0, 0]
  {
    hide Bytes16, Bytes32;
  }

  // The most significant byte comes first.
  lemma {:induction false} BigEndian(p: seq<byte>, at: nat)
    ensures at + 2 <= |p| ==> Get16(p, at) == 256 * (p[at] as int) + p[at + 1]
    ensures at + 4 <= |p| ==>
              Get32(p, at) == 0x100_0000 * (p[at] as int) + 0x1_0000 * (p[at + 1] as int) + 256 * (p[at + 2] as int) + p[at + 3]
  {
    if at + 2 <= |p| {
      NumberOfTwo(p[at..at + 2]);
    }
    if at + 4 <= |p| {
      NumberOfFour(p[at..at + 4]);
    }
    hide Number;
  }

  // Where the fields of a request are: C1IM, the version, the operation, the sequence number, the size, the key, the
  // modifiers, the value and four zero bytes.
  lemma {:induction false} RequestLayout(r: Request, sequence: word32)
    requires ValidRequest(r)
    ensures var p := Packet(r, sequence);
      && |p| == 32 && Get32(p, 0) == 0x4331_494D && Get16(p, 4) == 1 && Get16(p, 6) == r.operation
      && Get32(p, 8) == sequence && Get32(p, 12) == 32 && Get32(p, 16) == r.keysym && Get32(p, 20) == r.modifiers
      && Get32(p, 24) == r.value && Get32(p, 28) == 0
  {
    FieldsMakePacket(Packet(r, sequence), r, sequence);
    assert r.operation % 0x1_0000 == r.operation;
    hide Packet, Get16, Get32;
  }

  // What was encoded is decoded.
  lemma {:induction false} EncodeThenDecode(r: Request, sequence: word32)
    requires ValidRequest(r) && sequence != 0
    ensures Decode(Packet(r, sequence)) == Some((r, sequence))
  {
    assert r.operation % 0x1_0000 == r.operation;
    FieldsMakePacket(Packet(r, sequence), r, sequence);
    hide Packet, Get16, Get32, ValidRequest;
  }

  // An accepted packet is the encoding of the request it carries, and of no other.
  lemma {:induction false} DecodeThenEncode(p: seq<byte>)
    ensures Decode(p).Some? ==>
              var (r, sequence) := Decode(p).value;
              ValidRequest(r) && sequence != 0 && Packet(r, sequence) == p
  {
    hide Packet, Get16, Get32, ValidRequest;
    if Decode(p).Some? {
      var (r, sequence) := Decode(p).value;
      assert r.operation % 0x1_0000 == r.operation;
      FieldsMakePacket(p, r, sequence);
    }
  }
}

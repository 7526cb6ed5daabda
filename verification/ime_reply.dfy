/**
  Replies of the input-method service: cutting texts to the packet's capacity,
  building the packet (term-ime/integration/service.cpp) and parsing it in the
  client (term-ime/integration/c1_ime_client.c).
 */
module ImeReply {
  import opened Utf8
  import opened Utf8Readers
  import opened Options
  import opened ImeWire

  const REPLY_HEADER: nat := 40
  const REPLY_BIT := 0x8000
  const MAX_PACKET := 8192
  const TEXT_CAPACITY := 1024
  const TRUNCATED_FLAG := 32
  const STATUS_LIMIT := 2

  // What the session says to one request.
  datatype Answer = Answer(flags: word32, status: word32, preedit: seq<byte>, commit: seq<byte>, candidates: seq<seq<byte>>)

  predicate Fits(text: seq<byte>) {
    |text| < TEXT_CAPACITY && WireText(text)
  }

  // An answer the packet can carry.
  predicate Sendable(a: Answer) {
    && a.flags < 64 && a.status <= STATUS_LIMIT && Fits(a.preedit) && Fits(a.commit)
    && |a.candidates| <= MAX_CANDIDATES && forall i :: 0 <= i < |a.candidates| ==> Fits(a.candidates[i])
  }

  // ---- Cutting a text ----

  // Stepping back over continuation bytes.
  function CutAt(text: seq<byte>, length: nat): (n: nat)
    requires length < |text|
    ensures n <= length
  {
    if length > 0 && Tail(text[length]) then CutAt(text, length - 1) else length
  }

  // bounded_text: the text that is sent and whether it was cut.
  method BoundedText(text: seq<byte>, truncated: bool) returns (result: seq<byte>, flag: bool)
    ensures |text| < TEXT_CAPACITY ==> result == text && flag == truncated
    ensures |text| >= TEXT_CAPACITY ==> result == text[..CutAt(text, TEXT_CAPACITY - 1)] && flag
  {
    result, flag := text, truncated;
    if |text| >= TEXT_CAPACITY {
      var length: nat := TEXT_CAPACITY - 1;
      while length > 0 && Tail(text[length])
        invariant length < TEXT_CAPACITY
        invariant CutAt(text, TEXT_CAPACITY - 1) == CutAt(text, length)
      {
        length := length - 1;
      }
      result := result[..length];
      flag := true;
    }
  }

  // Cutting valid text loses less than one character: what is left is valid and nearly fills the capacity.
  lemma {:induction false} CutKeepsText(text: seq<byte>)
    requires WireText(text) && |text| >= TEXT_CAPACITY
    ensures var n := CutAt(text, TEXT_CAPACITY - 1); 1020 <= n <= 1023 && Fits(text[..n])
  {
    hide Valid, CharLen;
    var b := BoundaryNear(text, TEXT_CAPACITY - 1);
    if b < |text| {
      BoundaryIffNotTail(text, b);
    }
    CutIs(text, TEXT_CAPACITY - 1, b);
    forall k | 0 <= k < b ensures text[..b][k] != 0 {
      assert text[..b][k] == text[k] && text[k] in text;
    }
  }

  lemma {:induction false} CutIs(text: seq<byte>, length: nat, b: nat)
    requires b <= length < |text| && !Tail(text[b]) && forall k :: b < k <= length ==> Tail(text[k])
    ensures CutAt(text, length) == b
  {
    if b < length {
      CutIs(text, length - 1, b);
    }
  }

  // ---- The packet ----

  ghost function HeaderOf(r: Request, sequence: word32, size: word32, flags: word32, status: word32, preedit: word16,
                    commit: word16, count: word16): (h: seq<byte>)
    ensures |h| == REPLY_HEADER
  {
    Bytes32(MAGIC) + Bytes16(VERSION) + Bytes16((r.operation % REPLY_BIT) + REPLY_BIT) + Bytes32(sequence) +
    Bytes32(size) + Bytes32(r.keysym) + Bytes32(flags) + Bytes32(status) + Bytes32(0) + Bytes16(preedit) +
    Bytes16(commit) + Bytes16(count) + Bytes16(0)
  }

  ghost function CandidateBytes(cs: seq<seq<byte>>): seq<byte> {
    if cs == [] then [] else Bytes16(|cs[0]| % 0x1_0000) + cs[0] + CandidateBytes(cs[1..])
  }

  ghost function ReplyBody(a: Answer): seq<byte> {
    a.preedit + a.commit + CandidateBytes(a.candidates)
  }

  ghost function Reply(r: Request, sequence: word32, a: Answer): seq<byte> {
    var body := ReplyBody(a);
    HeaderOf(r, sequence, (REPLY_HEADER + |body|) % 0x1_0000_0000, a.flags, a.status,
             |a.preedit| % 0x1_0000, |a.commit| % 0x1_0000, |a.candidates| % 0x1_0000) + body
  }

  // Every sendable answer is far below the packet limit.
  lemma {:induction false} ReplySize(r: Request, sequence: word32, a: Answer)
    requires Sendable(a)
    ensures REPLY_HEADER <= |Reply(r, sequence, a)| <= 7211 < MAX_PACKET
  {
    CandidatesSize(a.candidates);
  }

  lemma {:induction false} CandidatesSize(cs: seq<seq<byte>>)
    requires forall i :: 0 <= i < |cs| ==> |cs[i]| < TEXT_CAPACITY
    ensures |CandidateBytes(cs)| <= |cs| * 1025
  {
    if cs != [] {
      CandidatesSize(cs[1..]);
    }
  }

  // ---- Header fields ----

  // The fields of a header, in order.
  lemma {:induction false} FieldsMakeHeader(p: seq<byte>, r: Request, sequence: word32, size: word32, flags: word32,
                                            status: word32, preedit: word16, commit: word16, count: word16)
    requires |p| == REPLY_HEADER
    ensures p == HeaderOf(r, sequence, size, flags, status, preedit, commit, count) <==>
            && Get32(p, 0) == MAGIC && Get16(p, 4) == VERSION && Get16(p, 6) == r.operation % REPLY_BIT + REPLY_BIT
            && Get32(p, 8) == sequence && Get32(p, 12) == size && Get32(p, 16) == r.keysym
            && Get32(p, 20) == flags && Get32(p, 24) == status && Get32(p, 28) == 0
            && Get16(p, 32) == preedit && Get16(p, 34) == commit && Get16(p, 36) == count && Get16(p, 38) == 0
  {
    hide Bytes16, Bytes32, Get16, Get32;
    Take32(p, 0, MAGIC);
    Take16(p, 4, VERSION);
    Take16(p, 6, r.operation % REPLY_BIT + REPLY_BIT);
    Take32(p, 8, sequence);
    Take32(p, 12, size);
    Take32(p, 16, r.keysym);
    Take32(p, 20, flags);
    Take32(p, 24, status);
    Take32(p, 28, 0);
    Take16(p, 32, preedit);
    Take16(p, 34, commit);
    Take16(p, 36, count);
    Take16(p, 38, 0);
    assert p[..0] + Bytes32(MAGIC) == Bytes32(MAGIC) && p[..40] == p;
    if p == HeaderOf(r, sequence, size, flags, status, preedit, commit, count) {
      HeaderPrefixes(r, sequence, size, flags, status, preedit, commit, count);
    }
  }

  lemma {:induction false} HeaderPrefixes(r: Request, sequence: word32, size: word32, flags: word32, status: word32,
                                          preedit: word16, commit: word16, count: word16)
    ensures var p := HeaderOf(r, sequence, size, flags, status, preedit, commit, count);
            && p[..4] == p[..0] + Bytes32(MAGIC) && p[..6] == p[..4] + Bytes16(VERSION)
            && p[..8] == p[..6] + Bytes16(r.operation % REPLY_BIT + REPLY_BIT)
            && p[..12] == p[..8] + Bytes32(sequence) && p[..16] == p[..12] + Bytes32(size)
            && p[..20] == p[..16] + Bytes32(r.keysym) && p[..24] == p[..20] + Bytes32(flags)
            && p[..28] == p[..24] + Bytes32(status) && p[..32] == p[..28] + Bytes32(0)
            && p[..34] == p[..32] + Bytes16(preedit) && p[..36] == p[..34] + Bytes16(commit)
            && p[..38] == p[..36] + Bytes16(count) && p[..40] == p[..38] + Bytes16(0)
  {
    hide Bytes16, Bytes32;
  }

  // ---- Building ----

  method Write16(packet: seq<byte>, at: nat, n: word16) returns (p: seq<byte>)
    requires at + 2 <= |packet|
    ensures |p| == |packet| && Get16(p, at) == n && p[at..at + 2] == Bytes16(n)
    ensures SameOutside(packet, p, at, at + 2)
  {
    p := packet[at := n / 256][at + 1 := n % 256];
    Shifted16(n, p[at..at + 2]);
    Field16(p, at);
  }

  method Write32(packet: seq<byte>, at: nat, n: word32) returns (p: seq<byte>)
    requires at + 4 <= |packet|
    ensures |p| == |packet| && Get32(p, at) == n
    ensures SameOutside(packet, p, at, at + 4)
  {
    p := packet[at := n / 256 / 256 / 256][at + 1 := n / 256 / 256 % 256];
    p := p[at + 2 := n / 256 % 256][at + 3 := n % 256];
    Shifted32(n, p[at..at + 4]);
    Field32(p, at);
  }

  predicate SameOutside(p: seq<byte>, q: seq<byte>, from: nat, to: nat) {
    |p| == |q| && forall k :: 0 <= k < |p| && !(from <= k < to) ==> q[k] == p[k]
  }

  // Fields outside what was written keep their values.
  lemma {:induction false} OtherFields(p: seq<byte>, q: seq<byte>, from: nat, to: nat)
    requires SameOutside(p, q, from, to)
    ensures forall b: nat :: b + 2 <= |p| && (b + 2 <= from || to <= b) ==> Get16(q, b) == Get16(p, b)
    ensures forall b: nat :: b + 4 <= |p| && (b + 4 <= from || to <= b) ==> Get32(q, b) == Get32(p, b)
  {
    hide Number;
    forall b: nat | b + 2 <= |p| && (b + 2 <= from || to <= b) ensures Get16(q, b) == Get16(p, b) {
      assert q[b..b + 2] == p[b..b + 2];
    }
    forall b: nat | b + 4 <= |p| && (b + 4 <= from || to <= b) ensures Get32(q, b) == Get32(p, b) {
      assert q[b..b + 4] == p[b..b + 4];
    }
  }

  lemma {:induction false} ZeroFields(p: seq<byte>)
    requires forall k :: 0 <= k < |p| ==> p[k] == 0
    ensures forall b: nat :: b + 2 <= |p| ==> Get16(p, b) == 0
    ensures forall b: nat :: b + 4 <= |p| ==> Get32(p, b) == 0
  {
    hide Number;
    forall b: nat | b + 2 <= |p| ensures Get16(p, b) == 0 {
      NumberOfTwo(p[b..b + 2]);
    }
    forall b: nat | b + 4 <= |p| ensures Get32(p, b) == 0 {
      NumberOfFour(p[b..b + 4]);
    }
  }

  method Put2(packet: seq<byte>, at: nat, n: word16) returns (p: seq<byte>)
    requires at + 2 <= |packet|
    ensures |p| == |packet| && Get16(p, at) == n
    ensures forall b: nat :: b + 2 <= |p| && (b + 2 <= at || at + 2 <= b) ==> Get16(p, b) == Get16(packet, b)
    ensures forall b: nat :: b + 4 <= |p| && (b + 4 <= at || at + 2 <= b) ==> Get32(p, b) == Get32(packet, b)
  {
    p := Write16(packet, at, n);
    OtherFields(packet, p, at, at + 2);
  }

  method Put4(packet: seq<byte>, at: nat, n: word32) returns (p: seq<byte>)
    requires at + 4 <= |packet|
    ensures |p| == |packet| && Get32(p, at) == n
    ensures forall b: nat :: b + 2 <= |p| && (b + 2 <= at || at + 4 <= b) ==> Get16(p, b) == Get16(packet, b)
    ensures forall b: nat :: b + 4 <= |p| && (b + 4 <= at || at + 4 <= b) ==> Get32(p, b) == Get32(packet, b)
  {
    p := Write32(packet, at, n);
    OtherFields(packet, p, at, at + 4);
  }

  // The fields of the header of an answer.
  predicate Headed(p: seq<byte>, r: Request, sequence: word32, size: word32, a: Answer) {
    && |p| == REPLY_HEADER
    && Get32(p, 0) == MAGIC && Get16(p, 4) == VERSION && Get16(p, 6) == r.operation % REPLY_BIT + REPLY_BIT
    && Get32(p, 8) == sequence && Get32(p, 12) == size && Get32(p, 16) == r.keysym
    && Get32(p, 20) == a.flags && Get32(p, 24) == a.status && Get32(p, 28) == 0
    && Get16(p, 32) == |a.preedit| % 0x1_0000 && Get16(p, 34) == |a.commit| % 0x1_0000
    && Get16(p, 36) == |a.candidates| % 0x1_0000 && Get16(p, 38) == 0
  }

  method WriteHeader(r: Request, sequence: word32, a: Answer) returns (p: seq<byte>)
    requires ValidRequest(r)
    ensures Headed(p, r, sequence, 0, a)
  {
    hide HeaderOf, Get16, Get32;
    p := seq(REPLY_HEADER, i => 0);
    ZeroFields(p);
    p := Put4(p, 0, MAGIC);
    p := Put2(p, 4, VERSION);
    p := Put2(p, 6, r.operation + REPLY_BIT);
    p := Put4(p, 8, sequence);
    p := Put4(p, 16, r.keysym);
    p := Put4(p, 20, a.flags);
    p := Put4(p, 24, a.status);
    p := Put2(p, 32, |a.preedit| % 0x1_0000);
    p := Put2(p, 34, |a.commit| % 0x1_0000);
    p := Put2(p, 36, |a.candidates| % 0x1_0000);
  }

  method AppendCandidates(packet: seq<byte>, cs: seq<seq<byte>>) returns (p: seq<byte>)
    ensures p == packet + CandidateBytes(cs)
  {
    hide Bytes16, Get16;
    p := packet;
    assert cs[0..] == cs;
    for i := 0 to |cs|
      invariant p + CandidateBytes(cs[i..]) == packet + CandidateBytes(cs)
    {
      var start, candidate := |p|, cs[i];
      ghost var before, rest := p, CandidateBytes(cs[i + 1..]);
      p := p + [0, 0];
      p := Write16(p, start, |candidate| % 0x1_0000);
      assert p == before + Bytes16(|candidate| % 0x1_0000);
      p := p + candidate;
      assert cs[i..][1..] == cs[i + 1..];
      assert p + rest == before + (Bytes16(|candidate| % 0x1_0000) + candidate + rest);
    }
    assert cs[|cs|..] == [];
    assert p + [] == p;
  }

  // The size field is filled in last.
  lemma {:induction false} SizeFilledIn(h: seq<byte>, q: seq<byte>, body: seq<byte>, r: Request, sequence: word32,
                                        size: word32, a: Answer)
    requires Headed(h, r, sequence, 0, a) && SameOutside(h + body, q, 12, 16) && Get32(q, 12) == size
    ensures Headed(q[..REPLY_HEADER], r, sequence, size, a) && q == q[..REPLY_HEADER] + body
  {
    assert q[REPLY_HEADER..] == body;
    var g := q[..REPLY_HEADER];
    assert SameOutside(h, g, 12, 16);
    OtherFields(h, g, 12, 16);
    PrefixField(q, REPLY_HEADER, 12);
    hide Get16, Get32, SameOutside;
  }

  lemma {:induction false} PrefixField(q: seq<byte>, n: nat, at: nat)
    requires at + 4 <= n <= |q|
    ensures Get32(q[..n], at) == Get32(q, at)
  {
    hide Number;
    assert q[..n][at..at + 4] == q[at..at + 4];
  }

  // The packet part of respond: refused exactly when the committed text cannot be carried, or the packet cannot.
  method BuildReply(r: Request, sequence: word32, a: Answer) returns (packet: Option<seq<byte>>)
    requires ValidRequest(r)
    ensures packet == if Fits(a.commit) && |Reply(r, sequence, a)| <= MAX_PACKET then Some(Reply(r, sequence, a)) else None
  {
    hide Bytes16, Bytes32, HeaderOf, CandidateBytes, WireText, Valid, ValidRequest, Get32;
    var carried := ValidUtf8(a.commit);
    if |a.commit| >= TEXT_CAPACITY || !carried {
      return None;
    }
    var header := WriteHeader(r, sequence, a);
    var p := header + a.preedit;
    p := p + a.commit;
    p := AppendCandidates(p, a.candidates);
    assert p == header + ReplyBody(a);
    var q := Write32(p, 12, |p| % 0x1_0000_0000);
    SizeFilledIn(header, q, ReplyBody(a), r, sequence, |p| % 0x1_0000_0000, a);
    FieldsMakeHeader(q[..REPLY_HEADER], r, sequence, |p| % 0x1_0000_0000, a.flags, a.status, |a.preedit| % 0x1_0000,
                     |a.commit| % 0x1_0000, |a.candidates| % 0x1_0000);
    return if |q| <= MAX_PACKET then Some(q) else None;
  }

  // ---- Parsing ----

  // read_text at a position: the text there, if it is one the client can hold.
  function TextAt(p: seq<byte>, position: nat, length: nat): Option<seq<byte>> {
    if length >= TEXT_CAPACITY || position > |p| || length > |p| - position || !WireText(p[position..position + length])
    then None
    else Some(p[position..position + length])
  }

  // The remaining candidates, which must end the packet.
  function CandidatesAt(p: seq<byte>, position: nat, count: nat): Option<seq<seq<byte>>>
    decreases count
  {
    if count == 0 then if position == |p| then Some([]) else None
    else if position + 2 > |p| then None
    else
      var length := Get16(p, position);
      var text := TextAt(p, position + 2, length);
      if text.None? then None
      else
        var rest := CandidatesAt(p, position + 2 + length, count - 1);
        if rest.None? then None else Some([text.value] + rest.value)
  }

  // What the client checks of a packet before reading its texts.
  predicate HeaderAccepted(pending: Request, sequence: word32, p: seq<byte>) {
    && REPLY_HEADER <= |p| <= MAX_PACKET && sequence != 0
    && Get32(p, 0) == MAGIC && Get16(p, 4) == VERSION && Get16(p, 6) == pending.operation % REPLY_BIT + REPLY_BIT
    && Get32(p, 8) == sequence && Get32(p, 12) == |p| && Get32(p, 16) == pending.keysym
    && Get32(p, 20) < 64 && Get32(p, 24) <= STATUS_LIMIT && Get32(p, 28) == 0 && Get16(p, 38) == 0
    && Get16(p, 36) <= MAX_CANDIDATES
  }

  // The answer c1_ime_receive returns for a packet, given its pending request and sequence number.
  function Parsed(pending: Request, sequence: word32, p: seq<byte>): Option<Answer> {
    if !HeaderAccepted(pending, sequence, p) then None
    else
      var preedit, commit := Get16(p, 32), Get16(p, 34);
      var first, second := TextAt(p, REPLY_HEADER, preedit), TextAt(p, REPLY_HEADER + preedit, commit);
      if first.None? || second.None? then None
      else
        var cs := CandidatesAt(p, REPLY_HEADER + preedit + commit, Get16(p, 36));
        if cs.None? then None
        else Some(Answer(Get32(p, 20), Get32(p, 24), first.value, second.value, cs.value))
  }

  method ReadText(p: seq<byte>, position: nat, length: nat) returns (text: Option<seq<byte>>, next: nat)
    ensures text == TextAt(p, position, length)
    ensures text.Some? ==> next == position + length
  {
    next := position;
    if length >= TEXT_CAPACITY || position > |p| || length > |p| - position {
      return None, next;
    }
    var ok := ValidUtf8(p[position..position + length]);
    if !ok {
      return None, next;
    }
    return Some(p[position..position + length]), position + length;
  }

  // The parsing part of c1_ime_receive.
  method ParseReply(pending: Request, sequence: word32, p: seq<byte>) returns (result: Option<Answer>)
    ensures result == Parsed(pending, sequence, p)
  {
    hide WireText, TextAt, Get16, Get32, HeaderAccepted;
    if !HeaderAccepted(pending, sequence, p) {
      return None;
    }
    AcceptedSize(pending, sequence, p);
    var position: nat := REPLY_HEADER;
    var preedit, commit: Option<seq<byte>>;
    preedit, position := ReadText(p, position, Get16(p, 32));
    if preedit.None? {
      return None;
    }
    commit, position := ReadText(p, position, Get16(p, 34));
    if commit.None? {
      return None;
    }
    var count: nat := Get16(p, 36);
    var candidates: seq<seq<byte>> := [];
    ghost var all := CandidatesAt(p, position, count);
    assert all.Some? ==> [] + all.value == all.value;
    for i := 0 to count
      invariant var rest := CandidatesAt(p, position, count - i);
                all == if rest.Some? then Some(candidates + rest.value) else None
    {
      if position + 2 > |p| {
        return None;
      }
      var length := Get16(p, position);
      var text;
      text, position := ReadText(p, position + 2, length);
      if text.None? {
        return None;
      }
      ghost var rest := CandidatesAt(p, position, count - i - 1);
      if rest.Some? {
        assert candidates + ([text.value] + rest.value) == candidates + [text.value] + rest.value;
      }
      candidates := candidates + [text.value];
    }
    if position != |p| {
      return None;
    }
    assert candidates + [] == candidates;
    return Some(Answer(Get32(p, 20), Get32(p, 24), preedit.value, commit.value, candidates));
  }

  lemma {:induction false} AcceptedSize(pending: Request, sequence: word32, p: seq<byte>)
    requires HeaderAccepted(pending, sequence, p)
    ensures |p| >= REPLY_HEADER
  {
  }

  // ---- Round trip ----

  // A tail that reads as candidates is exactly their encoding.
  lemma {:induction false} CandidatesRoundTrip(p: seq<byte>, position: nat, cs: seq<seq<byte>>)
    requires position <= |p|
    ensures CandidatesAt(p, position, |cs|) == Some(cs) <==>
            p[position..] == CandidateBytes(cs) && forall i :: 0 <= i < |cs| ==> Fits(cs[i])
    decreases |cs|
  {
    hide WireText, Bytes16, Get16, CandidateBytes, CandidatesAt;
    if cs == [] {
      NoCandidates(p, position);
    } else {
      CandidatesStep(p, position, cs);
      if position + 2 + |cs[0]| <= |p| {
        CandidatesRoundTrip(p, position + 2 + |cs[0]|, cs[1..]);
      }
      assert (forall i :: 0 <= i < |cs| ==> Fits(cs[i])) <==>
             Fits(cs[0]) && forall i :: 0 <= i < |cs[1..]| ==> Fits(cs[1..][i]) by {
        assert forall i :: 0 < i < |cs| ==> cs[i] == cs[1..][i - 1];
      }
    }
  }

  lemma {:induction false} NoCandidates(p: seq<byte>, position: nat)
    requires position <= |p|
    ensures CandidatesAt(p, position, 0) == Some([]) <==> p[position..] == CandidateBytes([])
  {
  }

  lemma {:induction false} CandidatesStep(p: seq<byte>, position: nat, cs: seq<seq<byte>>)
    requires position <= |p| && cs != []
    ensures CandidatesAt(p, position, |cs|) == Some(cs) <==>
            FirstAt(p, position, cs[0]) && Fits(cs[0]) &&
            CandidatesAt(p, position + 2 + |cs[0]|, |cs| - 1) == Some(cs[1..])
    ensures p[position..] == CandidateBytes(cs) && |cs[0]| < TEXT_CAPACITY <==>
            FirstAt(p, position, cs[0]) && |cs[0]| < TEXT_CAPACITY &&
            p[position + 2 + |cs[0]|..] == CandidateBytes(cs[1..])
  {
    hide WireText, Get16, CandidateBytes, CandidatesAt;
    FirstParsed(p, position, cs);
    FirstEncoded(p, position, cs);
  }

  predicate FirstAt(p: seq<byte>, position: nat, text: seq<byte>) {
    var next := position + 2 + |text|;
    next <= |p| && Get16(p, position) == |text| && p[position + 2..next] == text
  }

  lemma {:induction false} FirstParsed(p: seq<byte>, position: nat, cs: seq<seq<byte>>)
    requires position <= |p| && cs != []
    ensures CandidatesAt(p, position, |cs|) == Some(cs) <==>
            FirstAt(p, position, cs[0]) && Fits(cs[0]) &&
            CandidatesAt(p, position + 2 + |cs[0]|, |cs| - 1) == Some(cs[1..])
  {
    hide WireText, Get16;
    assert cs == [cs[0]] + cs[1..];
  }

  lemma {:induction false} FirstEncoded(p: seq<byte>, position: nat, cs: seq<seq<byte>>)
    requires position <= |p| && cs != []
    ensures p[position..] == CandidateBytes(cs) && |cs[0]| < TEXT_CAPACITY <==>
            FirstAt(p, position, cs[0]) && |cs[0]| < TEXT_CAPACITY &&
            p[position + 2 + |cs[0]|..] == CandidateBytes(cs[1..])
  {
    hide *;
    FirstBytes(cs);
    if |cs[0]| < TEXT_CAPACITY {
      var head, text, rest := Bytes16(|cs[0]| % 0x1_0000), cs[0], CandidateBytes(cs[1..]);
      FirstAtMeans(p, position, text);
      var next := position + 2 + |text|;
      if next <= |p| {
        assert p[position..] == p[position..position + 2] + p[position + 2..next] + p[next..];
        ThreeParts(p[position..position + 2], p[position + 2..next], p[next..], head, text, rest);
      } else {
        TooShort(p[position..], head + text + rest, |head + text|);
      }
    }
  }

  lemma {:induction false} TooShort(p: seq<byte>, q: seq<byte>, n: nat)
    requires |p| < n <= |q|
    ensures p != q
  {
  }

  lemma {:induction false} FirstBytes(cs: seq<seq<byte>>)
    requires cs != []
    ensures CandidateBytes(cs) == Bytes16(|cs[0]| % 0x1_0000) + cs[0] + CandidateBytes(cs[1..])
  {
    hide Bytes16;
  }

  lemma {:induction false} FirstAtMeans(p: seq<byte>, position: nat, text: seq<byte>)
    requires position <= |p| && |text| < TEXT_CAPACITY
    ensures var next := position + 2 + |text|;
            FirstAt(p, position, text) <==>
            next <= |p| && p[position..position + 2] == Bytes16(|text| % 0x1_0000) && p[position + 2..next] == text
  {
    if position + 2 <= |p| {
      Field16(p, position);
    }
    hide Get16, Bytes16;
  }

  // The texts behind the header, as the two lengths and the count cut them.
  predicate BodyReads(p: seq<byte>, a: Answer) {
    var preedit, commit := |a.preedit|, |a.commit|;
    && TextAt(p, REPLY_HEADER, preedit) == Some(a.preedit)
    && TextAt(p, REPLY_HEADER + preedit, commit) == Some(a.commit)
    && CandidatesAt(p, REPLY_HEADER + preedit + commit, |a.candidates|) == Some(a.candidates)
  }

  lemma {:induction false} BodyRoundTrip(p: seq<byte>, a: Answer)
    requires |p| >= REPLY_HEADER
    ensures BodyReads(p, a) <==>
            p[REPLY_HEADER..] == ReplyBody(a) && Fits(a.preedit) && Fits(a.commit) &&
            forall i :: 0 <= i < |a.candidates| ==> Fits(a.candidates[i])
  {
    var m, n := REPLY_HEADER + |a.preedit|, REPLY_HEADER + |a.preedit| + |a.commit|;
    hide WireText, CandidateBytes, CandidatesAt;
    if n <= |p| {
      CandidatesRoundTrip(p, n, a.candidates);
      assert p[REPLY_HEADER..] == p[REPLY_HEADER..m] + p[m..n] + p[n..];
      ThreeParts(p[REPLY_HEADER..m], p[m..n], p[n..], a.preedit, a.commit, CandidateBytes(a.candidates));
    }
  }

  lemma {:induction false} ThreeParts(x: seq<byte>, y: seq<byte>, z: seq<byte>, a: seq<byte>, b: seq<byte>, c: seq<byte>)
    requires |x| == |a| && |y| == |b|
    ensures x + y + z == a + b + c <==> x == a && y == b && z == c
  {
    if x + y + z == a + b + c {
      var s, t := x + y + z, a + b + c;
      assert s[..|x|] == x && t[..|a|] == a;
      assert s[|x|..|x| + |y|] == y && t[|a|..|a| + |b|] == b;
      assert s[|x| + |y|..] == z && t[|a| + |b|..] == c;
    }
  }

  // The client reads an answer off exactly one packet, the one the service builds for it: parsing is the
  // inverse of building, in both directions.
  lemma {:induction false} ReplyRoundTrip(pending: Request, sequence: word32, p: seq<byte>, a: Answer)
    requires sequence != 0
    ensures Parsed(pending, sequence, p) == Some(a) <==> Sendable(a) && p == Reply(pending, sequence, a)
  {
    hide *;
    if Parsed(pending, sequence, p) == Some(a) {
      ParsedFacts(pending, sequence, p, a);
      BodyRoundTrip(p, a);
      HeaderIsReply(pending, sequence, p, a);
      SendableFits(a);
    }
    if Sendable(a) && p == Reply(pending, sequence, a) {
      ReplySize(pending, sequence, a);
      ReplyHeaderReads(pending, sequence, p, a);
      BodyRoundTrip(p, a);
      SendableFits(a);
      ReadsParse(pending, sequence, p, a);
    }
  }

  lemma {:induction false} SendableFits(a: Answer)
    ensures Sendable(a) <==>
            && a.flags < 64 && a.status <= STATUS_LIMIT && Fits(a.preedit) && Fits(a.commit)
            && |a.candidates| <= MAX_CANDIDATES && forall i :: 0 <= i < |a.candidates| ==> Fits(a.candidates[i])
  {
  }

  lemma {:induction false} CandidatesCounted(p: seq<byte>, position: nat, count: nat)
    ensures var r := CandidatesAt(p, position, count); r.Some? ==> |r.value| == count
    decreases count
  {
    hide TextAt, Get16;
    if count > 0 && position + 2 <= |p| {
      CandidatesCounted(p, position + 2 + Get16(p, position), count - 1);
    }
  }

  lemma {:induction false} ParsedFacts(pending: Request, sequence: word32, p: seq<byte>, a: Answer)
    requires Parsed(pending, sequence, p) == Some(a)
    ensures HeaderAccepted(pending, sequence, p) && |p| >= REPLY_HEADER
    ensures a.flags == Get32(p, 20) && a.status == Get32(p, 24)
    ensures Get16(p, 32) == |a.preedit| && Get16(p, 34) == |a.commit| && Get16(p, 36) == |a.candidates|
    ensures BodyReads(p, a)
  {
    hide WireText, Get16, Get32, CandidatesAt;
    CandidatesCounted(p, REPLY_HEADER + Get16(p, 32) + Get16(p, 34), Get16(p, 36));
  }

  lemma {:induction false} ReadsParse(pending: Request, sequence: word32, p: seq<byte>, a: Answer)
    requires HeaderAccepted(pending, sequence, p)
    requires a.flags == Get32(p, 20) && a.status == Get32(p, 24)
    requires Get16(p, 32) == |a.preedit| && Get16(p, 34) == |a.commit| && Get16(p, 36) == |a.candidates|
    requires BodyReads(p, a)
    ensures Parsed(pending, sequence, p) == Some(a)
  {
    hide TextAt, Get16, Get32, CandidatesAt;
  }

  lemma {:induction false} PrefixFields(p: seq<byte>)
    requires |p| >= REPLY_HEADER
    ensures forall at: nat :: at + 2 <= REPLY_HEADER ==> Get16(p[..REPLY_HEADER], at) == Get16(p, at)
    ensures forall at: nat :: at + 4 <= REPLY_HEADER ==> Get32(p[..REPLY_HEADER], at) == Get32(p, at)
  {
    hide Number;
    forall at: nat | at + 2 <= REPLY_HEADER ensures Get16(p[..REPLY_HEADER], at) == Get16(p, at) {
      assert p[..REPLY_HEADER][at..at + 2] == p[at..at + 2];
    }
    forall at: nat | at + 4 <= REPLY_HEADER ensures Get32(p[..REPLY_HEADER], at) == Get32(p, at) {
      assert p[..REPLY_HEADER][at..at + 4] == p[at..at + 4];
    }
  }

  lemma {:induction false} HeaderIsReply(pending: Request, sequence: word32, p: seq<byte>, a: Answer)
    requires HeaderAccepted(pending, sequence, p) && p[REPLY_HEADER..] == ReplyBody(a)
    requires a.flags == Get32(p, 20) && a.status == Get32(p, 24)
    requires Get16(p, 32) == |a.preedit| && Get16(p, 34) == |a.commit| && Get16(p, 36) == |a.candidates|
    ensures a.flags < 64 && a.status <= STATUS_LIMIT && |a.candidates| <= MAX_CANDIDATES
    ensures p == Reply(pending, sequence, a)
  {
    hide *;
    AcceptedFields(pending, sequence, p);
    AcceptedHeader(pending, sequence, p);
    assert p == p[..REPLY_HEADER] + p[REPLY_HEADER..];
    ReplyIs(pending, sequence, a);
  }

  lemma {:induction false} AcceptedHeader(pending: Request, sequence: word32, p: seq<byte>)
    requires HeaderAccepted(pending, sequence, p) && |p| >= REPLY_HEADER
    ensures p[..REPLY_HEADER] == HeaderOf(pending, sequence, Get32(p, 12), Get32(p, 20), Get32(p, 24), Get16(p, 32),
                                         Get16(p, 34), Get16(p, 36))
  {
    hide HeaderAccepted, HeaderOf, Get16, Get32, Bytes16, Bytes32;
    AcceptedFields(pending, sequence, p);
    PrefixFields(p);
    FieldsMakeHeader(p[..REPLY_HEADER], pending, sequence, Get32(p, 12), Get32(p, 20), Get32(p, 24), Get16(p, 32),
                     Get16(p, 34), Get16(p, 36));
  }

  lemma {:induction false} ReplyIs(r: Request, sequence: word32, a: Answer)
    ensures Reply(r, sequence, a) ==
            HeaderOf(r, sequence, (REPLY_HEADER + |ReplyBody(a)|) % 0x1_0000_0000, a.flags, a.status,
                     |a.preedit| % 0x1_0000, |a.commit| % 0x1_0000, |a.candidates| % 0x1_0000) + ReplyBody(a)
  {
  }

  lemma {:induction false} AcceptedFields(pending: Request, sequence: word32, p: seq<byte>)
    requires HeaderAccepted(pending, sequence, p)
    ensures && REPLY_HEADER <= |p| <= MAX_PACKET && Get32(p, 0) == MAGIC && Get16(p, 4) == VERSION
            && Get16(p, 6) == pending.operation % REPLY_BIT + REPLY_BIT
            && Get32(p, 8) == sequence && Get32(p, 12) == |p| && Get32(p, 16) == pending.keysym
            && Get32(p, 20) < 64 && Get32(p, 24) <= STATUS_LIMIT && Get32(p, 28) == 0 && Get16(p, 38) == 0
            && Get16(p, 36) <= MAX_CANDIDATES
  {
    hide Get16, Get32;
  }

  lemma {:induction false} ReplyHeaderReads(pending: Request, sequence: word32, p: seq<byte>, a: Answer)
    requires sequence != 0 && Sendable(a) && p == Reply(pending, sequence, a) && REPLY_HEADER <= |p| <= MAX_PACKET
    ensures HeaderAccepted(pending, sequence, p) && p[REPLY_HEADER..] == ReplyBody(a)
    ensures a.flags == Get32(p, 20) && a.status == Get32(p, 24)
    ensures Get16(p, 32) == |a.preedit| && Get16(p, 34) == |a.commit| && Get16(p, 36) == |a.candidates|
  {
    var body := ReplyBody(a);
    hide WireText, Get16, Get32, HeaderOf, ReplyBody;
    var h := HeaderOf(pending, sequence, (REPLY_HEADER + |body|) % 0x1_0000_0000, a.flags, a.status,
                      |a.preedit| % 0x1_0000, |a.commit| % 0x1_0000, |a.candidates| % 0x1_0000);
    assert p[..REPLY_HEADER] == h && p[REPLY_HEADER..] == body;
    PrefixFields(p);
    FieldsMakeHeader(h, pending, sequence, (REPLY_HEADER + |body|) % 0x1_0000_0000, a.flags, a.status,
                     |a.preedit| % 0x1_0000, |a.commit| % 0x1_0000, |a.candidates| % 0x1_0000);
  }

  // The candidates from a place on: two bytes of length, then the text, one behind the other to the end.
  predicate CandidatesFrom(p: seq<byte>, at: nat, cs: seq<seq<byte>>)
    decreases |cs|
  {
    if cs == [] then at == |p|
    else
      && at + 2 + |cs[0]| <= |p| && Get16(p, at) == |cs[0]| && p[at + 2..at + 2 + |cs[0]|] == cs[0]
      && CandidatesFrom(p, at + 2 + |cs[0]|, cs[1..])
  }

  lemma {:induction false} CandidatesLaidOut(p: seq<byte>, at: nat, cs: seq<seq<byte>>)
    requires at <= |p| && p[at..] == CandidateBytes(cs) && forall i :: 0 <= i < |cs| ==> |cs[i]| < TEXT_CAPACITY
    ensures CandidatesFrom(p, at, cs)
    decreases |cs|
  {
    hide Bytes16, Get16;
    if cs != [] {
      var text, n := cs[0], |cs[0]|;
      Pieces(p, at, Bytes16(n % 0x1_0000), text, CandidateBytes(cs[1..]));
      Field16(p, at);
      CandidatesLaidOut(p, at + 2 + n, cs[1..]);
    }
  }

  lemma {:induction false} Pieces(p: seq<byte>, at: nat, a: seq<byte>, b: seq<byte>, c: seq<byte>)
    requires at <= |p| && p[at..] == a + b + c
    ensures |p| == at + |a| + |b| + |c| && p[at..at + |a|] == a
    ensures p[at + |a|..at + |a| + |b|] == b && p[at + |a| + |b|..] == c
  {
    var tail := p[at..];
    assert tail[..|a|] == a && tail[|a|..|a| + |b|] == b && tail[|a| + |b|..] == c;
    assert p[at..at + |a|] == tail[..|a|];
    assert p[at + |a|..at + |a| + |b|] == tail[|a|..|a| + |b|];
    assert p[at + |a| + |b|..] == tail[|a| + |b|..];
  }

  // Where the fields of a reply are: those of the request with the reply bit, the size, the flags, the status and the
  // lengths, then the composed text, the committed text and the candidates.
  lemma {:induction false} ReplyLayout(r: Request, sequence: word32, a: Answer)
    requires ValidRequest(r) && Sendable(a) && sequence != 0
    ensures var p, m, n := Reply(r, sequence, a), |a.preedit|, |a.commit|;
      && 40 + m + n <= |p| <= 8192 && Get32(p, 0) == 0x4331_494D && Get16(p, 4) == 1 && Get16(p, 6) == r.operation + 0x8000
      && Get32(p, 8) == sequence && Get32(p, 12) == |p| && Get32(p, 16) == r.keysym && Get32(p, 20) == a.flags
      && Get32(p, 24) == a.status && Get32(p, 28) == 0 && Get16(p, 32) == m && Get16(p, 34) == n
      && Get16(p, 36) == |a.candidates| && Get16(p, 38) == 0
      && p[40..40 + m] == a.preedit && p[40 + m..40 + m + n] == a.commit && CandidatesFrom(p, 40 + m + n, a.candidates)
  {
    hide *;
    var p, body := Reply(r, sequence, a), ReplyBody(a);
    ReplySize(r, sequence, a);
    ReplyIs(r, sequence, a);
    HeaderLaidOut(r, sequence, a);
    BodyIs(a);
    var h := p[..40];
    assert p[40..] == body;
    assert p[40..40 + |a.preedit|] == body[..|a.preedit|] == a.preedit;
    assert p[40 + |a.preedit|..40 + |a.preedit| + |a.commit|] == body[|a.preedit|..|a.preedit| + |a.commit|] == a.commit;
    assert p[40 + |a.preedit| + |a.commit|..] == body[|a.preedit| + |a.commit|..] == CandidateBytes(a.candidates);
    CandidatesLaidOut(p, 40 + |a.preedit| + |a.commit|, a.candidates);
  }

  lemma {:induction false} BodyIs(a: Answer)
    requires Sendable(a)
    ensures ReplyBody(a) == a.preedit + a.commit + CandidateBytes(a.candidates)
    ensures forall i :: 0 <= i < |a.candidates| ==> |a.candidates[i]| < TEXT_CAPACITY
  {
    hide WireText;
  }

  lemma {:induction false} HeaderLaidOut(r: Request, sequence: word32, a: Answer)
    requires ValidRequest(r) && Sendable(a) && sequence != 0 && REPLY_HEADER <= |Reply(r, sequence, a)| <= 7211 < MAX_PACKET
    ensures REPLY_HEADER == 40 && MAX_PACKET == 8192
    ensures var p := Reply(r, sequence, a);
      && p[40..] == ReplyBody(a) && |p| == 40 + |ReplyBody(a)|
      && Get32(p, 0) == 0x4331_494D && Get16(p, 4) == 1 && Get16(p, 6) == r.operation + 0x8000
      && Get32(p, 8) == sequence && Get32(p, 12) == |p| && Get32(p, 16) == r.keysym && Get32(p, 20) == a.flags
      && Get32(p, 24) == a.status && Get32(p, 28) == 0 && Get16(p, 32) == |a.preedit| && Get16(p, 34) == |a.commit|
      && Get16(p, 36) == |a.candidates| && Get16(p, 38) == 0
  {
    hide *;
    EightKilobytes();
    ReplyHeaderReads(r, sequence, Reply(r, sequence, a), a);
    AcceptedFields(r, sequence, Reply(r, sequence, a));
    OperationFits(r);
    ReplyIs(r, sequence, a);
  }

  lemma {:induction false} EightKilobytes()
    ensures REPLY_HEADER == 40 && MAX_PACKET == 8192 && MAGIC == 0x4331_494D && VERSION == 1 && REPLY_BIT == 0x8000
  {
  }

  lemma {:induction false} OperationFits(r: Request)
    requires ValidRequest(r)
    ensures r.operation % 0x8000 == r.operation
  {
  }
}

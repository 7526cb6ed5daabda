/**
  The two ends of an input-method connection: the client object of
  term-ime/integration/c1_ime_client.c and the connection state of the server
  loop in term-ime/integration/service.cpp. What the kernel does with a packet
  is an input of every step.
 */
module ImePeers {
  import opened Utf8
  import opened Options
  import opened ImeWire
  import opened ImeReply

  // The kernel's answer to a send, and what a receive finds.
  datatype Sending = Accepted | WouldBlock | Broken
  datatype Incoming = NothingYet | Failed | EndOfStream | Datagram(bytes: seq<byte>)

  const NO_REQUEST := Request(0, 0, 0, 0)

  // The sequence number after n, skipping 0 when the counter wraps.
  function NextSequence(n: word32): word32 {
    if n + 1 == 0x1_0000_0000 then 1 else n + 1
  }

  // ++n on 32 bits, then 1 for 0.
  method Following(n: word32) returns (m: word32)
    ensures m == NextSequence(n)
  {
    m := if n == 0xFFFF_FFFF then 0 else n + 1;
    if m == 0 {
      m := 1;
    }
  }

  // ---- The client ----

  datatype ClientState = ClientState(connected: bool, next: word32, pendingSequence: word32, pendingRequest: Request)

  datatype Response = Response(sequence: word32, request: Request, answer: Answer)

  const CLOSED_CLIENT := ClientState(false, 1, 0, NO_REQUEST)

  // State after c1_ime_send, its return value, and the packet handed to the kernel when it was accepted.
  ghost function Sent(c: ClientState, r: Request, kernel: Sending): (ClientState, int, Option<seq<byte>>) {
    if !c.connected || c.pendingSequence != 0 || !ValidRequest(r) then (c, -1, None)
    else
      match kernel
      case WouldBlock => (c, 0, None)
      case Broken => (CLOSED_CLIENT, -1, None)
      case Accepted =>
        (c.(next := NextSequence(c.next), pendingSequence := c.next, pendingRequest := r), 1, Some(Packet(r, c.next)))
  }

  // State after c1_ime_receive, its return value, and the response it filled in.
  function Received(c: ClientState, incoming: Incoming): (ClientState, int, Option<Response>) {
    if !c.connected then (c, -1, None)
    else
      match incoming
      case NothingYet => (c, 0, None)
      case Failed => (CLOSED_CLIENT, -1, None)
      case EndOfStream => (CLOSED_CLIENT, -1, None)
      case Datagram(p) =>
        var answer := Parsed(c.pendingRequest, c.pendingSequence, p);
        if answer.None? then (CLOSED_CLIENT, -1, None)
        else
          (c.(pendingSequence := 0, pendingRequest := NO_REQUEST), 1,
           Some(Response(c.pendingSequence, c.pendingRequest, answer.value)))
  }

  class Client {
    var connected: bool
    var nextSequence: word32
    var pendingSequence: word32
    var pendingRequest: Request

    function View(): ClientState
      reads this
    {
      ClientState(connected, nextSequence, pendingSequence, pendingRequest)
    }

    constructor ()
      ensures View() == CLOSED_CLIENT
    {
      connected, nextSequence, pendingSequence, pendingRequest := false, 1, 0, NO_REQUEST;
    }

    method Close()
      modifies this
      ensures View() == CLOSED_CLIENT
    {
      connected, nextSequence, pendingSequence, pendingRequest := false, 1, 0, NO_REQUEST;
    }

    static method Encode(r: Request, sequence: word32) returns (packet: seq<byte>)
      ensures packet == Packet(r, sequence)
    {
      hide Packet;
      var buffer := new byte[32];
      EncodeRequest(buffer, r, sequence);
      assert buffer[HEADER..] == [];
      packet := buffer[..];
    }

    method Send(r: Request, kernel: Sending) returns (result: int, packet: Option<seq<byte>>)
      modifies this
      ensures (View(), result, packet) == Sent(old(View()), r, kernel)
    {
      if !connected || pendingSequence != 0 || !ValidRequest(r) {
        return -1, None;
      }
      hide Packet, ValidRequest, NextSequence;
      var bytes := Encode(r, nextSequence);
      if kernel == WouldBlock {
        return 0, None;
      }
      if kernel == Broken {
        Close();
        return -1, None;
      }
      packet := Some(bytes);
      pendingRequest := r;
      pendingSequence := nextSequence;
      nextSequence := Following(nextSequence);
      result := 1;
    }

    method Receive(incoming: Incoming) returns (result: int, response: Option<Response>)
      modifies this
      ensures (View(), result, response) == Received(old(View()), incoming)
    {
      if !connected {
        return -1, None;
      }
      if incoming == NothingYet {
        return 0, None;
      }
      if incoming == Failed || incoming == EndOfStream {
        Close();
        return -1, None;
      }
      var answer := ParseReply(pendingRequest, pendingSequence, incoming.bytes);
      if answer.None? {
        Close();
        return -1, None;
      }
      response := Some(Response(pendingSequence, pendingRequest, answer.value));
      pendingSequence := 0;
      pendingRequest := NO_REQUEST;
      result := 1;
    }
  }

  // ---- The server's side of the connection in focus ----

  datatype Seat = Seat(expected: word32, output: seq<byte>)

  datatype Outcome = Idle | Handled(request: Request, answer: Answer) | Wrote(packet: seq<byte>) | Dropped(why: Reason)

  datatype Reason = Gone | BadPacket | OutOfSequence | NoReply(request: Request, answer: Answer)

  // The packet a request is answered with; none when the answer cannot be carried.
  ghost function Replied(r: Request, sequence: word32, a: Answer): Option<seq<byte>> {
    if Fits(a.commit) && |Reply(r, sequence, a)| <= MAX_PACKET then Some(Reply(r, sequence, a)) else None
  }

  // One readable event: a stale or malformed packet, a failed answer or a lost peer costs the client its seat.
  ghost function Served(s: Seat, incoming: Incoming, a: Answer): (Option<Seat>, Outcome) {
    match incoming
    case NothingYet => (Some(s), Idle)
    case Failed => (None, Dropped(Gone))
    case EndOfStream => (None, Dropped(Gone))
    case Datagram(p) =>
      match Decode(p)
      case None => (None, Dropped(BadPacket))
      case Some((r, sequence)) =>
        if sequence != s.expected then (None, Dropped(OutOfSequence))
        else
          match Replied(r, sequence, a)
          case None => (None, Dropped(NoReply(r, a)))
          case Some(packet) => (Some(Seat(NextSequence(s.expected), packet)), Handled(r, a))
  }

  function Written(s: Seat, kernel: Sending): (Option<Seat>, Outcome) {
    if s.output == [] || kernel == WouldBlock then (Some(s), Idle)
    else if kernel == Broken then (None, Dropped(Gone))
    else (Some(s.(output := [])), Wrote(s.output))
  }

  class Server {
    var owner: Option<nat>
    var expectedSequence: word32
    var output: seq<byte>

    function View(): Option<Seat>
      reads this
    {
      if owner.None? then None else Some(Seat(expectedSequence, output))
    }

    predicate Rested()
      reads this
    {
      owner.None? ==> expectedSequence == 1 && output == []
    }

    constructor ()
      ensures owner.None? && Rested()
    {
      owner, expectedSequence, output := None, 1, [];
    }

    method Disconnect()
      modifies this
      ensures owner.None? && Rested()
    {
      owner, output, expectedSequence := None, [], 1;
    }

    // A second client is turned away while the first holds the focus, and so is one of another user.
    method Accept(fd: nat, sameUser: bool) returns (taken: bool)
      requires Rested()
      modifies this
      ensures taken <==> old(owner).None? && sameUser
      ensures if taken then owner == Some(fd) && View() == Some(Seat(1, [])) else owner == old(owner) && View() == old(View())
      ensures Rested()
    {
      if owner.Some? || !sameUser {
        return false;
      }
      owner := Some(fd);
      return true;
    }

    // The input branch of the loop; answer is what the session says to an accepted request.
    method Read(incoming: Incoming, answer: Answer) returns (outcome: Outcome)
      requires owner.Some?
      modifies this
      ensures (View(), outcome) == Served(old(View()).value, incoming, answer)
      ensures Rested() && (owner.Some? ==> owner == old(owner))
    {
      hide Reply, Fits, Decode, ValidRequest;
      if incoming == NothingYet {
        return Idle;
      }
      if incoming == Failed || incoming == EndOfStream {
        Disconnect();
        return Dropped(Gone);
      }
      var decoded := Decode(incoming.bytes);
      if decoded.None? {
        Disconnect();
        return Dropped(BadPacket);
      }
      var (request, sequence) := decoded.value;
      if sequence != expectedSequence {
        Disconnect();
        return Dropped(OutOfSequence);
      }
      expectedSequence := Following(expectedSequence);
      DecodedIsValid(incoming.bytes);
      var reply := BuildReply(request, sequence, answer);
      if reply.None? {
        Disconnect();
        return Dropped(NoReply(request, answer));
      }
      output := reply.value;
      return Handled(request, answer);
    }

    method Write(kernel: Sending) returns (outcome: Outcome)
      requires owner.Some?
      modifies this
      ensures (View(), outcome) == Written(old(View()).value, kernel)
      ensures Rested() && (owner.Some? ==> owner == old(owner))
    {
      if output == [] || kernel == WouldBlock {
        return Idle;
      }
      if kernel == Broken {
        Disconnect();
        return Dropped(Gone);
      }
      outcome := Wrote(output);
      output := [];
    }
  }

  lemma {:induction false} DecodedIsValid(p: seq<byte>)
    ensures Decode(p).Some? ==> ValidRequest(Decode(p).value.0) && Decode(p).value.1 != 0
  {
  }

  // ---- What the ends promise a caller ----

  // A send counts exactly when it left, and then the request is the one pending; only a broken socket closes the client,
  // and nothing else changes it.
  lemma {:induction false} SendTells(c: ClientState, r: Request, kernel: Sending)
    ensures var (d, result, packet) := Sent(c, r, kernel);
      && (result == 1 <==> c.connected && c.pendingSequence == 0 && ValidRequest(r) && kernel == Accepted)
      && (packet.Some? <==> result == 1)
      && (result == 1 ==>
            && packet == Some(Packet(r, c.next)) && d.connected && d.pendingSequence == c.next && d.pendingRequest == r
            && d.next == if c.next == 0xFFFF_FFFF then 1 else c.next + 1)
      && (result == 0 <==> c.connected && c.pendingSequence == 0 && ValidRequest(r) && kernel == WouldBlock)
      && (c.connected && !d.connected <==> c.connected && c.pendingSequence == 0 && ValidRequest(r) && kernel == Broken)
      && (!d.connected && c.connected ==> d == ClientState(false, 1, 0, Request(0, 0, 0, 0)))
      && (result != 1 && d.connected == c.connected ==> d == c)
  {
    hide Packet, ValidRequest;
  }

  // A connected client stays connected exactly while nothing comes or the reply to its pending request does.
  lemma {:induction false} ReceiveTells(c: ClientState, incoming: Incoming)
    requires c.connected
    ensures var (d, result, response) := Received(c, incoming);
      var accepted := incoming.Datagram? && Parsed(c.pendingRequest, c.pendingSequence, incoming.bytes).Some?;
      && (d.connected <==> incoming == NothingYet || accepted)
      && (response.Some? <==> accepted) && (result == 1 <==> accepted) && (result == 0 <==> incoming == NothingYet)
      && (accepted ==>
            && d == c.(pendingSequence := 0, pendingRequest := Request(0, 0, 0, 0))
            && response.value.sequence == c.pendingSequence && response.value.request == c.pendingRequest
            && Some(response.value.answer) == Parsed(c.pendingRequest, c.pendingSequence, incoming.bytes))
      && (incoming == NothingYet ==> d == c)
      && (!d.connected ==> d == ClientState(false, 1, 0, Request(0, 0, 0, 0)))
  {
    hide Parsed;
  }

  // The client in focus keeps its seat exactly while nothing comes, or a request in its turn that can be answered.
  lemma {:induction false} ServeTells(s: Seat, incoming: Incoming, a: Answer)
    ensures var (next, outcome) := Served(s, incoming, a);
      var taken := incoming.Datagram? && Decode(incoming.bytes).Some? && Decode(incoming.bytes).value.1 == s.expected &&
                   Fits(a.commit) && |Reply(Decode(incoming.bytes).value.0, s.expected, a)| <= 8192;
      && (next.Some? <==> incoming == NothingYet || taken)
      && (outcome.Handled? <==> taken)
      && (taken ==>
            && outcome == Handled(Decode(incoming.bytes).value.0, a)
            && next == Some(Seat(if s.expected == 0xFFFF_FFFF then 1 else s.expected + 1,
                                 Reply(Decode(incoming.bytes).value.0, s.expected, a))))
      && (incoming == NothingYet ==> next == Some(s))
  {
    hide Decode, Reply, Fits;
  }

  // A waiting reply leaves whole and once; only a broken socket costs the seat.
  lemma {:induction false} WriteTells(s: Seat, kernel: Sending)
    ensures var (next, outcome) := Written(s, kernel);
      && (outcome.Wrote? <==> s.output != [] && kernel == Accepted)
      && (outcome.Wrote? ==> outcome == Wrote(s.output) && next == Some(Seat(s.expected, [])))
      && (next.None? <==> s.output != [] && kernel == Broken)
      && (next.Some? && !outcome.Wrote? ==> next == Some(s))
  {
  }
}

/**
  Client and server of the input method in lockstep: every interleaving of
  connects, sends, receives, reads, writes and disconnects, with other programs
  on the same socket sending what they like.
 */
module ImeLockstep {
  import opened Utf8
  import opened Options
  import opened ImeWire
  import opened ImeReply
  import opened ImePeers

  datatype Exchange = Exchange(request: Request, answer: Answer)

  // One connection: the client's object, the packets in the kernel, and what happened so far. A conforming
  // connection is used only through the client object.
  datatype Conn = Conn(
    client: ClientState, conforming: bool, attached: bool,
    toServer: seq<seq<byte>>, toClient: seq<seq<byte>>,
    sent: seq<Request>, handled: seq<Exchange>, received: seq<Response>)

  datatype Net = Net(conns: map<nat, Conn>, owner: Option<nat>, seat: Seat)

  datatype Step =
    | Connect(id: nat, conforming: bool)
    | Send(id: nat, request: Request, kernel: Sending)
    | RawSend(id: nat, bytes: seq<byte>)
    | Receive(id: nat, fails: bool)
    | Close(id: nat)
    | Accept(id: nat, sameUser: bool)
    | Read(answer: Answer, fails: bool)
    | Write(kernel: Sending)

  const EMPTY_NET := Net(map[], None, Seat(1, []))
  const NEW_CLIENT := ClientState(true, 1, 0, NO_REQUEST)

  // An answer the session can give: by construction only its committed text may not fit.
  predicate SessionAnswer(a: Answer) {
    Sendable(a) <==> Fits(a.commit)
  }

  // ---- What one step does to one connection ----

  function SeatOf(n: Net, id: nat): Option<Seat> {
    if n.owner == Some(id) then Some(n.seat) else None
  }

  function Detached(c: Conn): Conn {
    c.(attached := false, toServer := [])
  }

  // A closed client leaves what the server sent unread.
  function WithClient(c: Conn, client: ClientState): Conn {
    if client.connected then c.(client := client) else c.(client := client, toClient := [])
  }

  ghost function SendOn(c: Conn, r: Request, kernel: Sending): (Conn, int) {
    var (client, result, packet) := Sent(c.client, r, if kernel == Accepted && !c.attached then Broken else kernel);
    var d := WithClient(c, client);
    (if packet.Some? then d.(toServer := c.toServer + [packet.value], sent := c.sent + [r]) else d, result)
  }

  function Arriving(queue: seq<seq<byte>>, peerOpen: bool, fails: bool): Incoming {
    if fails then Failed else if queue != [] then Datagram(queue[0]) else if peerOpen then NothingYet else EndOfStream
  }

  function Rest(queue: seq<seq<byte>>): seq<seq<byte>> {
    if queue == [] then [] else queue[1..]
  }

  function ReceiveOn(c: Conn, fails: bool): (Conn, int) {
    var (client, result, response) := Received(c.client, Arriving(c.toClient, c.attached, fails));
    var d := WithClient(c.(toClient := Rest(c.toClient)), client);
    (if response.Some? then d.(received := c.received + [response.value]) else d, result)
  }

  ghost function ReadOn(c: Conn, seat: Seat, a: Answer, fails: bool): (Conn, Option<Seat>, Outcome) {
    if seat.output != [] then (c, Some(seat), Idle)
    else
      var (next, outcome) := Served(seat, Arriving(c.toServer, c.client.connected, fails), a);
      var d := c.(toServer := Rest(c.toServer));
      var d := match outcome
        case Handled(r, a) => d.(handled := c.handled + [Exchange(r, a)])
        case Dropped(NoReply(r, a)) => d.(handled := c.handled + [Exchange(r, a)])
        case _ => d;
      (if next.None? then Detached(d) else d, next, outcome)
  }

  function WriteOn(c: Conn, seat: Seat, kernel: Sending): (Conn, Option<Seat>, Outcome) {
    var (next, outcome) := Written(seat, if kernel == Accepted && !c.client.connected then Broken else kernel);
    var d := if outcome.Wrote? then c.(toClient := c.toClient + [outcome.packet]) else c;
    (if next.None? then Detached(d) else d, next, outcome)
  }

  // ---- The whole system ----

  function Update(n: Net, id: nat, c: Conn, seat: Option<Seat>): Net {
    var conns := n.conns[id := c];
    if seat.Some? then Net(conns, Some(id), seat.value)
    else if n.owner == Some(id) then Net(conns, None, Seat(1, []))
    else Net(conns, n.owner, n.seat)
  }

  ghost function Apply(n: Net, step: Step): Net {
    match step
    case Connect(id, conforming) =>
      if id in n.conns || n.owner == Some(id) then n
      else n.(conns := n.conns[id := Conn(NEW_CLIENT, conforming, true, [], [], [], [], [])])
    case Send(id, r, kernel) =>
      if id !in n.conns then n else Update(n, id, SendOn(n.conns[id], r, kernel).0, SeatOf(n, id))
    case RawSend(id, bytes) =>
      if id !in n.conns || n.conns[id].conforming || !n.conns[id].attached then n
      else Update(n, id, n.conns[id].(toServer := n.conns[id].toServer + [bytes]), SeatOf(n, id))
    case Receive(id, fails) =>
      if id !in n.conns then n else Update(n, id, ReceiveOn(n.conns[id], fails).0, SeatOf(n, id))
    case Close(id) =>
      if id !in n.conns then n else Update(n, id, WithClient(n.conns[id], CLOSED_CLIENT), SeatOf(n, id))
    case Accept(id, sameUser) =>
      if id !in n.conns || !n.conns[id].attached || n.owner == Some(id) then n
      else if n.owner.Some? || !sameUser then Update(n, id, Detached(n.conns[id]), None)
      else Update(n, id, n.conns[id], Some(Seat(1, [])))
    case Read(a, fails) =>
      if n.owner.None? || n.owner.value !in n.conns || !SessionAnswer(a) then n
      else
        var (c, seat, _) := ReadOn(n.conns[n.owner.value], n.seat, a, fails);
        Update(n, n.owner.value, c, seat)
    case Write(kernel) =>
      if n.owner.None? || n.owner.value !in n.conns then n
      else
        var (c, seat, _) := WriteOn(n.conns[n.owner.value], n.seat, kernel);
        Update(n, n.owner.value, c, seat)
  }

  ghost function Run(n: Net, steps: seq<Step>): Net
    decreases |steps|
  {
    if steps == [] then n else Run(Apply(n, steps[0]), steps[1..])
  }

  // ---- Lockstep ----

  // The number of the i-th request of a connection.
  function SequenceOf(i: nat): word32 {
    i % 0xFFFF_FFFF + 1
  }

  lemma {:induction false} SequenceSkipsZero(i: nat)
    ensures SequenceOf(i) != 0 && NextSequence(SequenceOf(i)) == SequenceOf(i + 1)
  {
  }

  // The reply to the last handled request.
  ghost function LastReply(c: Conn): seq<byte>
    requires c.handled != []
  {
    var i := |c.handled| - 1;
    Reply(c.handled[i].request, SequenceOf(i), c.handled[i].answer)
  }

  // Requests reach the session once each and in order; responses come back in the same order.
  predicate History(c: Conn) {
    && |c.handled| <= |c.sent| <= |c.handled| + 1
    && |c.received| <= |c.handled| <= |c.received| + 1
    && |c.sent| <= |c.received| + 1
    && (forall i :: 0 <= i < |c.sent| ==> ValidRequest(c.sent[i]))
    && (forall i :: 0 <= i < |c.handled| ==> c.handled[i].request == c.sent[i])
    && (forall i :: 0 <= i < |c.received| ==>
          c.received[i] == Response(SequenceOf(i), c.handled[i].request, c.handled[i].answer))
  }

  predicate ClientInStep(c: Conn) {
    c.client.connected ==>
      && c.client.next == SequenceOf(|c.sent|)
      && (c.client.pendingSequence == 0 <==> |c.received| == |c.sent|)
      && (c.client.pendingSequence != 0 ==>
            && c.sent != [] && c.client.pendingSequence == SequenceOf(|c.sent| - 1)
            && c.client.pendingRequest == c.sent[|c.sent| - 1])
  }

  // The request the session has not seen yet.
  ghost function Unread(c: Conn): seq<seq<byte>> {
    if |c.sent| == |c.handled| + 1 then [Packet(c.sent[|c.handled|], SequenceOf(|c.handled|))] else []
  }

  // The packet on its way is the pending request or the reply to it.
  ghost predicate Underway(c: Conn, seat: Option<Seat>) {
    && (c.attached ==> c.toServer == Unread(c))
    && (!c.attached ==> c.toServer == [] && seat.None?)
    && (c.toClient != [] ==>
          |c.handled| == |c.received| + 1 && c.toClient == [LastReply(c)] && Sendable(c.handled[|c.handled| - 1].answer))
    && (!c.client.connected ==> c.toClient == [])
    && (c.attached && seat.None? ==> c.handled == [])
    && (seat.Some? ==>
          && seat.value.expected == SequenceOf(|c.handled|)
          && (seat.value.output != [] ==>
                && |c.handled| == |c.received| + 1 && seat.value.output == LastReply(c) && c.toClient == []
                && Sendable(c.handled[|c.handled| - 1].answer)))
    && (c.attached && c.client.connected && |c.handled| == |c.received| + 1 ==>
          c.toClient != [] || (seat.Some? && seat.value.output != []))
  }

  ghost predicate InStep(c: Conn, seat: Option<Seat>) {
    c.conforming ==> History(c) && ClientInStep(c) && Underway(c, seat)
  }

  ghost predicate Lockstep(n: Net) {
    && (n.owner.Some? ==> n.owner.value in n.conns)
    && (forall id :: id in n.conns ==> InStep(n.conns[id], SeatOf(n, id)))
  }

  // ---- Every step keeps it ----

  lemma {:induction false} SendKeeps(c: Conn, seat: Option<Seat>, r: Request, kernel: Sending)
    requires InStep(c, seat)
    ensures InStep(SendOn(c, r, kernel).0, seat)
  {
    CloseKeeps(c, seat);
    SendCases(c, r, kernel);
    if c.conforming && ReadyToSend(c, r) && kernel == Accepted && c.attached {
      RequestSent(c, seat, r);
    }
    hide Packet, Reply, ValidRequest, Sendable, SequenceOf, NextSequence, SendOn, ReadyToSend, Underway, History, ClientInStep;
  }

  predicate ReadyToSend(c: Conn, r: Request) {
    c.client.connected && c.client.pendingSequence == 0 && ValidRequest(r)
  }

  lemma {:induction false} SendCases(c: Conn, r: Request, kernel: Sending)
    ensures SendOn(c, r, kernel).0.conforming == c.conforming
    ensures !ReadyToSend(c, r) || kernel == WouldBlock ==> SendOn(c, r, kernel).0 == WithClient(c, c.client)
    ensures ReadyToSend(c, r) && (kernel == Broken || (kernel == Accepted && !c.attached)) ==>
              SendOn(c, r, kernel).0 == WithClient(c, CLOSED_CLIENT)
    ensures ReadyToSend(c, r) && kernel == Accepted && c.attached ==>
              SendOn(c, r, kernel).0 ==
              c.(client := c.client.(next := NextSequence(c.client.next), pendingSequence := c.client.next, pendingRequest := r),
                 toServer := c.toServer + [Packet(r, c.client.next)], sent := c.sent + [r])
  {
    hide Packet, ValidRequest, NextSequence;
  }

  lemma {:induction false} RequestSent(c: Conn, seat: Option<Seat>, r: Request)
    requires c.conforming && InStep(c, seat) && ReadyToSend(c, r) && c.attached
    ensures InStep(c.(client := c.client.(next := NextSequence(c.client.next), pendingSequence := c.client.next, pendingRequest := r),
                      toServer := c.toServer + [Packet(r, c.client.next)], sent := c.sent + [r]), seat)
  {
    SequenceSkipsZero(|c.sent|);
    hide Packet, Reply, ValidRequest, Sendable, SequenceOf, NextSequence;
  }

  lemma {:induction false} CloseKeeps(c: Conn, seat: Option<Seat>)
    requires InStep(c, seat)
    ensures InStep(WithClient(c, CLOSED_CLIENT), seat)
  {
    hide Packet, Reply, ValidRequest, Sendable, SequenceOf;
  }

  lemma {:induction false} DetachKeeps(c: Conn, seat: Option<Seat>)
    requires InStep(c, seat)
    ensures InStep(Detached(c), None)
  {
    hide Packet, Reply, ValidRequest, Sendable, SequenceOf;
  }

  // The client reads the session's answer off the packet that reaches it.
  lemma {:induction false} ReplyIsRead(c: Conn, seat: Option<Seat>)
    requires c.conforming && InStep(c, seat) && c.toClient != []
    ensures var last := c.handled[|c.handled| - 1];
      && c.client.connected && c.client.pendingSequence == SequenceOf(|c.handled| - 1)
      && c.client.pendingRequest == last.request && |c.handled| == |c.sent| == |c.received| + 1
      && c.toClient == [LastReply(c)]
      && Parsed(last.request, SequenceOf(|c.handled| - 1), LastReply(c)) == Some(last.answer)
  {
    ReplyWaiting(c, seat);
    hide *;
    var i := |c.handled| - 1;
    SequenceSkipsZero(i);
    ReplyRoundTrip(c.handled[i].request, SequenceOf(i), LastReply(c), c.handled[i].answer);
  }

  lemma {:induction false} ReplyWaiting(c: Conn, seat: Option<Seat>)
    requires c.conforming && InStep(c, seat) && c.toClient != []
    ensures c.client.connected && |c.handled| == |c.sent| == |c.received| + 1 && c.toClient == [LastReply(c)]
    ensures var i := |c.handled| - 1;
      && c.client.pendingSequence == SequenceOf(i) && c.client.pendingRequest == c.handled[i].request
      && Sendable(c.handled[i].answer)
      && LastReply(c) == Reply(c.handled[i].request, SequenceOf(i), c.handled[i].answer)
  {
    SequenceSkipsZero(|c.handled| - 1);
    hide Packet, Reply, ValidRequest, Sendable, SequenceOf;
  }

  lemma {:induction false} ReceiveKeeps(c: Conn, seat: Option<Seat>, fails: bool)
    requires InStep(c, seat)
    ensures InStep(ReceiveOn(c, fails).0, seat)
  {
    CloseKeeps(c, seat);
    ReceiveCases(c, fails);
    hide *;
    if c.conforming {
      if !fails && c.toClient != [] {
        ReplyTaken(c, seat);
      } else {
        QuietWhenClosed(c, seat);
      }
    } else {
      OthersAreFree(ReceiveOn(c, fails).0, seat);
    }
  }

  lemma {:induction false} QuietWhenClosed(c: Conn, seat: Option<Seat>)
    requires c.conforming && InStep(c, seat)
    ensures !c.client.connected ==> c.toClient == []
  {
    hide Reply, Packet, ValidRequest, Sendable, SequenceOf;
  }

  // Without a packet, receiving either changes nothing or closes the client.
  lemma {:induction false} ReceiveCases(c: Conn, fails: bool)
    ensures ReceiveOn(c, fails).0.conforming == c.conforming
    ensures c.client.connected && (fails || (c.toClient == [] && !c.attached)) ==>
              ReceiveOn(c, fails) == (WithClient(c, CLOSED_CLIENT), -1)
    ensures c.client.connected && !fails && c.toClient == [] && c.attached ==> ReceiveOn(c, fails) == (c, 0)
    ensures !c.client.connected && c.toClient == [] ==> ReceiveOn(c, fails) == (c, -1)
  {
    hide Parsed;
  }

  lemma {:induction false} ReplyTaken(c: Conn, seat: Option<Seat>)
    requires c.conforming && InStep(c, seat) && c.toClient != []
    ensures var last := c.handled[|c.handled| - 1];
            var response := Response(SequenceOf(|c.handled| - 1), last.request, last.answer);
            var d := c.(toClient := [], received := c.received + [response],
                        client := c.client.(pendingSequence := 0, pendingRequest := NO_REQUEST));
            ReceiveOn(c, false) == (d, 1) && InStep(d, seat)
  {
    hide *;
    ReplyIsRead(c, seat);
    var last := c.handled[|c.handled| - 1];
    var response := Response(SequenceOf(|c.handled| - 1), last.request, last.answer);
    PacketTaken(c, last.answer);
    ReceivedInStep(c, seat, response);
  }

  lemma {:induction false} PacketTaken(c: Conn, answer: Answer)
    requires c.client.connected && |c.toClient| == 1
    requires Parsed(c.client.pendingRequest, c.client.pendingSequence, c.toClient[0]) == Some(answer)
    ensures var response := Response(c.client.pendingSequence, c.client.pendingRequest, answer);
            ReceiveOn(c, false) ==
            (c.(toClient := [], received := c.received + [response],
                client := c.client.(pendingSequence := 0, pendingRequest := NO_REQUEST)), 1)
  {
    hide Parsed;
    assert c.toClient[1..] == [];
  }

  lemma {:induction false} ReceivedInStep(c: Conn, seat: Option<Seat>, response: Response)
    requires c.conforming && InStep(c, seat) && c.toClient != [] && |c.handled| == |c.sent| == |c.received| + 1
    requires var last := c.handled[|c.handled| - 1]; response == Response(SequenceOf(|c.handled| - 1), last.request, last.answer)
    ensures InStep(c.(toClient := [], received := c.received + [response],
                      client := c.client.(pendingSequence := 0, pendingRequest := NO_REQUEST)), seat)
  {
    var d := c.(toClient := [], received := c.received + [response],
                client := c.client.(pendingSequence := 0, pendingRequest := NO_REQUEST));
    ReceivedHistory(c, response, d);
    assert ClientInStep(d) by {
      hide Underway, History, SequenceOf;
    }
    ReceivedUnderway(c, seat, d);
    hide Underway, History, ClientInStep;
  }

  lemma {:induction false} ReceivedHistory(c: Conn, response: Response, d: Conn)
    requires History(c) && |c.handled| == |c.sent| == |c.received| + 1
    requires var last := c.handled[|c.handled| - 1]; response == Response(SequenceOf(|c.handled| - 1), last.request, last.answer)
    requires d.sent == c.sent && d.handled == c.handled && d.received == c.received + [response]
    ensures History(d)
  {
    hide SequenceOf, ValidRequest;
  }

  lemma {:induction false} ReceivedUnderway(c: Conn, seat: Option<Seat>, d: Conn)
    requires Underway(c, seat) && |c.handled| == |c.sent| == |c.received| + 1 && c.toClient != []
    requires d.sent == c.sent && d.handled == c.handled && |d.received| == |c.received| + 1
    requires d.toServer == c.toServer && d.toClient == [] && d.attached == c.attached
    ensures Underway(d, seat)
  {
    hide SequenceOf, LastReply, Sendable;
  }

  // What the server finds in the queue of a conforming client.
  lemma {:induction false} RequestIsRead(c: Conn, seat: Seat, a: Answer)
    requires c.conforming && InStep(c, Some(seat)) && seat.output == [] && c.toServer != [] && SessionAnswer(a)
    ensures var r := c.sent[|c.handled|];
      && c.toServer == [Packet(r, seat.expected)] && |c.sent| == |c.handled| + 1
      && Served(seat, Datagram(c.toServer[0]), a) ==
         if Fits(a.commit) then (Some(Seat(SequenceOf(|c.handled| + 1), Reply(r, seat.expected, a))), Handled(r, a))
         else (None, Dropped(NoReply(r, a)))
  {
    var r := c.sent[|c.handled|];
    SequenceSkipsZero(|c.handled|);
    ImeWire.EncodeThenDecode(r, seat.expected);
    if Fits(a.commit) {
      ReplySize(r, seat.expected, a);
    }
    hide Packet, Reply, ValidRequest, Sendable, SequenceOf, Decode, Fits, NextSequence;
  }

  lemma {:induction false} ReadKeeps(c: Conn, seat: Seat, a: Answer, fails: bool)
    requires InStep(c, Some(seat)) && SessionAnswer(a)
    ensures var (d, next, _) := ReadOn(c, seat, a, fails); InStep(d, next)
  {
    DetachKeeps(c, Some(seat));
    ReadCases(c, seat, a, fails);
    hide *;
    if !c.conforming {
      var (d, next, _) := ReadOn(c, seat, a, fails);
      OthersAreFree(d, next);
    } else if seat.output == [] && !fails && c.toServer != [] {
      RequestIsRead(c, seat, a);
      RequestHandled(c, seat, a);
    }
  }

  lemma {:induction false} ReadCases(c: Conn, seat: Seat, a: Answer, fails: bool)
    ensures ReadOn(c, seat, a, fails).0.conforming == c.conforming
    ensures seat.output != [] ==> ReadOn(c, seat, a, fails) == (c, Some(seat), Idle)
    ensures seat.output == [] && (fails || (c.toServer == [] && !c.client.connected)) ==>
              ReadOn(c, seat, a, fails) == (Detached(c), None, Dropped(Gone))
    ensures seat.output == [] && !fails && c.toServer == [] && c.client.connected ==>
              ReadOn(c, seat, a, fails) == (c, Some(seat), Idle)
    ensures seat.output == [] && !fails && |c.toServer| == 1 ==>
              var (next, outcome) := Served(seat, Datagram(c.toServer[0]), a);
              && (outcome.Handled? ==>
                    var d := c.(toServer := [], handled := c.handled + [Exchange(outcome.request, outcome.answer)]);
                    ReadOn(c, seat, a, fails) == (if next.None? then Detached(d) else d, next, outcome))
              && (outcome.Dropped? && outcome.why.NoReply? ==>
                    var d := c.(toServer := [], handled := c.handled + [Exchange(outcome.why.request, outcome.why.answer)]);
                    ReadOn(c, seat, a, fails) == (if next.None? then Detached(d) else d, next, outcome))
  {
    hide Decode, Replied, NextSequence;
    if |c.toServer| == 1 {
      assert c.toServer[1..] == [];
    }
  }

  lemma {:induction false} RequestHandled(c: Conn, seat: Seat, a: Answer)
    requires c.conforming && InStep(c, Some(seat)) && seat.output == [] && |c.sent| == |c.handled| + 1
    requires SessionAnswer(a)
    ensures var r := c.sent[|c.handled|];
            var d := c.(toServer := [], handled := c.handled + [Exchange(r, a)]);
            && InStep(Detached(d), None)
            && (Fits(a.commit) ==>
                  InStep(d, Some(Seat(SequenceOf(|c.handled| + 1), Reply(r, seat.expected, a)))))
  {
    hide Packet, Reply, ValidRequest, Sendable, SequenceOf, Fits;
    var r := c.sent[|c.handled|];
    var d := c.(toServer := [], handled := c.handled + [Exchange(r, a)]);
    assert d.handled[|c.handled|] == Exchange(r, a);
    assert forall i :: 0 <= i < |c.handled| ==> d.handled[i] == c.handled[i];
    if Fits(a.commit) {
      ReplySize(r, seat.expected, a);
    }
  }

  lemma {:induction false} WriteKeeps(c: Conn, seat: Seat, kernel: Sending)
    requires InStep(c, Some(seat))
    ensures var (d, next, _) := WriteOn(c, seat, kernel); InStep(d, next)
  {
    hide Packet, Reply, ValidRequest, Sendable, SequenceOf;
  }

  lemma {:induction false} AcceptKeeps(c: Conn)
    requires InStep(c, None) && c.attached
    ensures InStep(c, Some(Seat(1, [])))
  {
    hide Packet, Reply, ValidRequest, Sendable;
  }

  lemma {:induction false} ConnectKeeps(conforming: bool)
    ensures InStep(Conn(NEW_CLIENT, conforming, true, [], [], [], [], []), None)
  {
  }

  // One connection changes, the others keep their place.
  lemma {:induction false} UpdateKeeps(n: Net, id: nat, c: Conn, seat: Option<Seat>)
    requires Lockstep(n) && id in n.conns && InStep(c, seat)
    requires seat.Some? ==> n.owner.None? || n.owner == Some(id)
    ensures Lockstep(Update(n, id, c, seat))
  {
    hide InStep;
    var m := Update(n, id, c, seat);
    forall other | other in m.conns ensures InStep(m.conns[other], SeatOf(m, other)) {
      if other != id {
        assert m.conns[other] == n.conns[other];
        assert SeatOf(m, other) == SeatOf(n, other);
      } else {
        assert SeatOf(m, id) == seat;
      }
    }
  }

  lemma {:induction false} StepKeepsLockstep(n: Net, step: Step)
    requires Lockstep(n)
    ensures Lockstep(Apply(n, step))
  {
    hide InStep, SendOn, ReceiveOn, ReadOn, WriteOn, Update, Detached, WithClient, SessionAnswer;
    match step
    case Connect(id, conforming) =>
      ConnectKeeps(conforming);
    case Send(id, r, kernel) =>
      if id in n.conns {
        SendKeeps(n.conns[id], SeatOf(n, id), r, kernel);
        UpdateKeeps(n, id, SendOn(n.conns[id], r, kernel).0, SeatOf(n, id));
      }
    case RawSend(id, bytes) =>
      if id in n.conns && !n.conns[id].conforming {
        var c := n.conns[id].(toServer := n.conns[id].toServer + [bytes]);
        OthersAreFree(c, SeatOf(n, id));
        UpdateKeeps(n, id, c, SeatOf(n, id));
      }
    case Receive(id, fails) =>
      if id in n.conns {
        ReceiveKeeps(n.conns[id], SeatOf(n, id), fails);
        UpdateKeeps(n, id, ReceiveOn(n.conns[id], fails).0, SeatOf(n, id));
      }
    case Close(id) =>
      if id in n.conns {
        CloseKeeps(n.conns[id], SeatOf(n, id));
        UpdateKeeps(n, id, WithClient(n.conns[id], CLOSED_CLIENT), SeatOf(n, id));
      }
    case Accept(id, sameUser) =>
      if id in n.conns && n.conns[id].attached && n.owner != Some(id) {
        if n.owner.Some? || !sameUser {
          DetachKeeps(n.conns[id], None);
          UpdateKeeps(n, id, Detached(n.conns[id]), None);
        } else {
          AcceptKeeps(n.conns[id]);
          UpdateKeeps(n, id, n.conns[id], Some(Seat(1, [])));
        }
      }
    case Read(a, fails) =>
      if n.owner.Some? && SessionAnswer(a) {
        var id := n.owner.value;
        ReadKeeps(n.conns[id], n.seat, a, fails);
        var (c, seat, _) := ReadOn(n.conns[id], n.seat, a, fails);
        UpdateKeeps(n, id, c, seat);
      }
    case Write(kernel) =>
      if n.owner.Some? {
        var id := n.owner.value;
        WriteKeeps(n.conns[id], n.seat, kernel);
        var (c, seat, _) := WriteOn(n.conns[id], n.seat, kernel);
        UpdateKeeps(n, id, c, seat);
      }
  }

  lemma {:induction false} OthersAreFree(c: Conn, seat: Option<Seat>)
    requires !c.conforming
    ensures InStep(c, seat)
  {
  }

  // Every run keeps all conforming connections in lockstep.
  lemma {:induction false} RunsKeepLockstep(n: Net, steps: seq<Step>)
    requires Lockstep(n)
    ensures Lockstep(Run(n, steps))
    decreases |steps|
  {
    hide Lockstep, Apply;
    if steps != [] {
      StepKeepsLockstep(n, steps[0]);
      RunsKeepLockstep(Apply(n, steps[0]), steps[1..]);
    }
  }

  // ---- What lockstep means ----

  lemma {:induction false} ReachableInLockstep(steps: seq<Step>)
    ensures Lockstep(Run(EMPTY_NET, steps))
  {
    RunsKeepLockstep(EMPTY_NET, steps);
  }

  function InFlight(c: Conn, seat: Option<Seat>): nat {
    |c.toServer| + |c.toClient| + if seat.Some? && seat.value.output != [] then 1 else 0
  }

  // In every reachable state of every conforming connection: at most one packet is on its way, the counters agree
  // and are never 0, the session saw a prefix of what was sent, and every response is what the session answered to
  // that very request.
  lemma {:induction false} ConnectionsAgree(steps: seq<Step>, id: nat)
    requires var n := Run(EMPTY_NET, steps); id in n.conns && n.conns[id].conforming
    ensures var n := Run(EMPTY_NET, steps);
            var c, seat := n.conns[id], SeatOf(n, id);
            && InFlight(c, seat) <= 1
            && (c.client.connected && c.client.pendingSequence == 0 ==> InFlight(c, seat) == 0 && |c.handled| == |c.sent|)
            && (c.client.connected && seat.Some? ==>
                  seat.value.expected == if c.toServer != [] then c.client.pendingSequence else c.client.next)
            && (c.client.connected ==> c.client.next != 0) && (seat.Some? ==> seat.value.expected != 0)
            && |c.handled| <= |c.sent| <= |c.handled| + 1
            && (forall i :: 0 <= i < |c.handled| ==> c.handled[i].request == c.sent[i])
            && |c.received| <= |c.handled|
            && (forall i :: 0 <= i < |c.received| ==>
                  c.received[i] == Response(SequenceOf(i), c.handled[i].request, c.handled[i].answer))
  {
    ReachableInLockstep(steps);
    var n := Run(EMPTY_NET, steps);
    hide *;
    LockstepAt(n, id);
    InStepMeans(n.conns[id], SeatOf(n, id));
  }

  lemma {:induction false} LockstepAt(n: Net, id: nat)
    requires Lockstep(n) && id in n.conns
    ensures InStep(n.conns[id], SeatOf(n, id))
  {
    hide InStep;
  }

  lemma {:induction false} InStepMeans(c: Conn, seat: Option<Seat>)
    requires c.conforming && InStep(c, seat)
    ensures InFlight(c, seat) <= 1
    ensures c.client.connected && c.client.pendingSequence == 0 ==> InFlight(c, seat) == 0 && |c.handled| == |c.sent|
    ensures c.client.connected && seat.Some? ==>
              seat.value.expected == if c.toServer != [] then c.client.pendingSequence else c.client.next
    ensures (c.client.connected ==> c.client.next != 0) && (seat.Some? ==> seat.value.expected != 0)
    ensures |c.handled| <= |c.sent| <= |c.handled| + 1 && |c.received| <= |c.handled|
    ensures forall i :: 0 <= i < |c.handled| ==> c.handled[i].request == c.sent[i]
    ensures forall i :: 0 <= i < |c.received| ==>
              c.received[i] == Response(SequenceOf(i), c.handled[i].request, c.handled[i].answer)
  {
    hide Packet, Reply, Sendable, ValidRequest;
  }

  // The server never drops a conforming client for framing or sequence: it hands the request to the session, or the
  // session's committed text cannot be carried.
  lemma {:induction false} ConformingIsServed(steps: seq<Step>, a: Answer)
    requires var n := Run(EMPTY_NET, steps);
             n.owner.Some? && n.owner.value in n.conns && n.conns[n.owner.value].conforming && SessionAnswer(a)
    ensures var n := Run(EMPTY_NET, steps);
            var c := n.conns[n.owner.value];
            c.toServer != [] && n.seat.output == [] ==>
              var r := c.client.pendingRequest;
              var outcome := ReadOn(c, n.seat, a, false).2;
              && (Fits(a.commit) ==> outcome.Handled?) && (!Fits(a.commit) ==> outcome.Dropped? && outcome.why.NoReply?)
              && (c.client.connected ==> outcome == if Fits(a.commit) then Handled(r, a) else Dropped(NoReply(r, a)))
  {
    ReachableInLockstep(steps);
    var n := Run(EMPTY_NET, steps);
    hide *;
    var id := n.owner.value;
    LockstepAt(n, id);
    SeatedOwner(n);
    var c := n.conns[id];
    if c.toServer != [] && n.seat.output == [] {
      RequestIsRead(c, n.seat, a);
      ReadCases(c, n.seat, a, false);
      PendingIsUnread(c, n.seat);
    }
  }

  lemma {:induction false} SeatedOwner(n: Net)
    requires n.owner.Some?
    ensures SeatOf(n, n.owner.value) == Some(n.seat)
  {
  }

  lemma {:induction false} PendingIsUnread(c: Conn, seat: Seat)
    requires c.conforming && InStep(c, Some(seat)) && c.toServer != []
    ensures |c.handled| < |c.sent| && (c.client.connected ==> c.client.pendingRequest == c.sent[|c.handled|])
  {
    hide Packet, Reply, Sendable, ValidRequest;
  }

  // The client accepts whatever a conforming connection brings it: its call fails only with the connection.
  lemma {:induction false} ConformingIsAnswered(steps: seq<Step>, id: nat)
    requires var n := Run(EMPTY_NET, steps); id in n.conns && n.conns[id].conforming
    ensures var c := Run(EMPTY_NET, steps).conns[id];
            var (d, result) := ReceiveOn(c, false);
            && (c.toClient != [] ==> result == 1 && |d.received| == |c.received| + 1)
            && (c.client.connected && c.toClient == [] ==> result == (if c.attached then 0 else -1))
  {
    ReachableInLockstep(steps);
    var n := Run(EMPTY_NET, steps);
    hide *;
    LockstepAt(n, id);
    var c := n.conns[id];
    ReceiveCases(c, false);
    if c.toClient != [] {
      ReplyTaken(c, SeatOf(n, id));
    }
  }
}

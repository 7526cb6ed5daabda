/**
  The whole input-method service, term-ime/integration/service.cpp: the server
  loop with the one session it keeps. The session is reset whenever a client
  goes, so what a client is told depends on its own requests alone.
 */
module ImeService {
  import opened Options
  import opened ImeWire
  import opened ImeReply
  import opened ImeSession
  import opened ImePeers
  import Lock = ImeLockstep

  // The connections, the session, the mode of the engine, and the requests handled for the client in focus.
  datatype Service = Service(net: Lock.Net, session: State, engineChinese: bool, turns: seq<Turn>)

  // Rime is what the engine would say should this step handle a request.
  datatype Event = Elsewhere(step: Lock.Step) | Input(rime: Rime, fails: bool)

  const STARTED := Service(Lock.EMPTY_NET, NEW_SESSION, false, [])
  const NO_ANSWER := Answer(0, 0, [], [], [])

  // The request that reading would hand to the session.
  function Arrived(c: Lock.Conn, seat: Seat, fails: bool): Option<Request> {
    if fails || seat.output != [] || c.toServer == [] then None
    else
      match Decode(c.toServer[0])
      case None => None
      case Some((r, sequence)) => if sequence == seat.expected then Some(r) else None
  }

  // A client in focus goes: the session is reset.
  function Rested(net: Lock.Net, s: Service): Service {
    if net.owner.None? then Service(net, NEW_SESSION, false, []) else s.(net := net)
  }

  ghost function Apply(s: Service, e: Event): Service {
    match e
    case Elsewhere(step) => if step.Read? then s else Rested(Lock.Apply(s.net, step), s)
    case Input(rime, fails) =>
      if s.net.owner.None? || s.net.owner.value !in s.net.conns || !EngineText(rime) then s
      else
        var request := Arrived(s.net.conns[s.net.owner.value], s.net.seat, fails);
        if request.None? then Rested(Lock.Apply(s.net, Lock.Read(NO_ANSWER, fails)), s)
        else
          var turn := Turn(request.value, rime);
          var calls := RequestEffect(s.session, turn.request, rime).calls;
          Rested(Lock.Apply(s.net, Lock.Read(Answered(s.session, turn), fails)),
                 Service(s.net, Advanced(s.session, turn), ModeAfter(s.engineChinese, calls), s.turns + [turn]))
  }

  ghost function Run(s: Service, events: seq<Event>): Service
    decreases |events|
  {
    if events == [] then s else Run(Apply(s, events[0]), events[1..])
  }

  // ---- A run of the service is a run of the connections ----

  lemma {:induction false} NoAnswerIsSessionAnswer()
    ensures Lock.SessionAnswer(NO_ANSWER)
  {
  }

  lemma {:induction false} AnswersAreSessionAnswers(s: State, turn: Turn)
    requires ValidRequest(turn.request) && EngineText(turn.rime)
    ensures Lock.SessionAnswer(Answered(s, turn))
  {
    OnlyCommitCanFail(s, turn.request, turn.rime);
    hide RequestEffect, AnswerOf, Sendable, Fits;
  }

  lemma {:induction false} ArrivedIs(c: Lock.Conn, seat: Seat, fails: bool)
    ensures var r := Arrived(c, seat, fails);
      r.Some? ==> !fails && seat.output == [] && c.toServer != [] && Decode(c.toServer[0]) == Some((r.value, seat.expected)) &&
                  ValidRequest(r.value)
  {
    if c.toServer != [] {
      DecodedIsValid(c.toServer[0]);
    }
    hide Decode, ValidRequest;
  }

  // The step of the connections behind an event, if there is one.
  lemma {:induction false} StepBehind(s: Service, e: Event) returns (steps: seq<Lock.Step>)
    ensures |steps| <= 1 && Apply(s, e).net == Lock.Run(s.net, steps)
    ensures steps == [] ==> Apply(s, e) == s || Apply(s, e) == Rested(s.net, s)
  {
    hide Lock.Apply, Arrived, RequestEffect, Answered, EngineText;
    steps := [];
    if e.Elsewhere? {
      if !e.step.Read? {
        steps := [e.step];
      }
    } else if s.net.owner.Some? && s.net.owner.value in s.net.conns && EngineText(e.rime) {
      var request := Arrived(s.net.conns[s.net.owner.value], s.net.seat, e.fails);
      steps := [Lock.Read(if request.None? then NO_ANSWER else Answered(s.session, Turn(request.value, e.rime)), e.fails)];
    }
    if steps != [] {
      assert steps[1..] == [];
    }
  }

  // Whatever the service does, its connections could have done with some answers of the session: all that is proved of
  // them holds of the service.
  lemma {:induction false} RunsAreRunsOfNet(s: Service, events: seq<Event>) returns (steps: seq<Lock.Step>)
    ensures Run(s, events).net == Lock.Run(s.net, steps)
    decreases |events|
  {
    hide Apply, Lock.Apply;
    if events == [] {
      steps := [];
    } else {
      var first := StepBehind(s, events[0]);
      var rest := RunsAreRunsOfNet(Apply(s, events[0]), events[1..]);
      steps := first + rest;
      NetConcat(s.net, first, rest);
    }
  }

  lemma {:induction false} NetConcat(n: Lock.Net, a: seq<Lock.Step>, b: seq<Lock.Step>)
    ensures Lock.Run(n, a + b) == Lock.Run(Lock.Run(n, a), b)
    decreases |a|
  {
    hide Lock.Apply;
    if a == [] {
      assert a + b == b;
    } else {
      NetConcat(Lock.Apply(n, a[0]), a[1..], b);
      assert (a + b)[0] == a[0] && (a + b)[1..] == a[1..] + b;
    }
  }

  // ---- What a client is told ----

  // What a fresh session answers to the first i requests of a client.
  function Exchanges(turns: seq<Turn>): (x: seq<Lock.Exchange>)
    ensures |x| == |turns|
  {
    var answers := Answers(NEW_SESSION, turns);
    seq(|turns|, i requires 0 <= i < |turns| => Lock.Exchange(turns[i].request, answers[i]))
  }

  lemma {:induction false} OneExchangeMore(turns: seq<Turn>, turn: Turn)
    ensures var t := After(NEW_SESSION, false, turns).0;
            Exchanges(turns + [turn]) == Exchanges(turns) + [Lock.Exchange(turn.request, Answered(t, turn))]
  {
    AfterOneMore(NEW_SESSION, false, turns, turn);
    hide Answers, Answered, After;
  }

  // What a step other than reading keeps of a connection.
  predicate Keeps(c: Lock.Conn, d: Lock.Conn) {
    d.handled == c.handled && (d.attached ==> c.attached)
  }

  // The same for all of them; a client that loses the focus is cut off, one that gains it was waiting.
  predicate KeepsAll(n: Lock.Net, m: Lock.Net) {
    && (forall id :: id in n.conns ==> id in m.conns && Keeps(n.conns[id], m.conns[id]))
    && (forall id :: id in m.conns && id !in n.conns ==> m.conns[id].handled == [] && m.owner != Some(id))
    && (m.owner == n.owner
        || (m.owner.None? && (n.owner.value in n.conns ==> !m.conns[n.owner.value].attached))
        || (n.owner.None? && m.owner.value in n.conns && n.conns[m.owner.value].attached))
  }

  lemma {:induction false} SendKeepsHandled(c: Lock.Conn, r: Request, kernel: Sending)
    ensures Keeps(c, Lock.SendOn(c, r, kernel).0)
  {
    hide Sent;
  }

  lemma {:induction false} ReceiveKeepsHandled(c: Lock.Conn, fails: bool)
    ensures Keeps(c, Lock.ReceiveOn(c, fails).0)
  {
    hide Received, Lock.Arriving;
  }

  lemma {:induction false} WriteKeepsHandled(c: Lock.Conn, seat: Seat, kernel: Sending)
    ensures var (d, next, _) := Lock.WriteOn(c, seat, kernel); Keeps(c, d) && (next.None? ==> !d.attached)
  {
    hide Written;
  }

  lemma {:induction false} UpdateKeepsHandled(n: Lock.Net, id: nat, c: Lock.Conn, seat: Option<Seat>)
    requires id in n.conns && Keeps(n.conns[id], c)
    requires seat.None? && n.owner == Some(id) ==> !c.attached
    requires seat.Some? ==> n.owner == Some(id) || (n.owner.None? && n.conns[id].attached)
    ensures KeepsAll(n, Lock.Update(n, id, c, seat))
  {
  }

  lemma {:induction false} ElsewhereKeeps(n: Lock.Net, step: Lock.Step)
    requires !step.Read?
    ensures KeepsAll(n, Lock.Apply(n, step))
  {
    hide KeepsAll, Keeps, Lock.SendOn, Lock.ReceiveOn, Lock.WriteOn, Lock.Update;
    SameKeepsAll(n);
    match step
    case Connect(id, conforming) =>
      if id !in n.conns && n.owner != Some(id) {
        ConnectKeepsAll(n, id, conforming);
      }
    case Send(id, r, kernel) =>
      if id in n.conns {
        SendKeepsHandled(n.conns[id], r, kernel);
        UpdateKeepsHandled(n, id, Lock.SendOn(n.conns[id], r, kernel).0, Lock.SeatOf(n, id));
      }
    case RawSend(id, bytes) =>
      if id in n.conns {
        var c := n.conns[id].(toServer := n.conns[id].toServer + [bytes]);
        PacketsDoNotMatter(n.conns[id], c);
        UpdateKeepsHandled(n, id, c, Lock.SeatOf(n, id));
      }
    case Receive(id, fails) =>
      if id in n.conns {
        ReceiveKeepsHandled(n.conns[id], fails);
        UpdateKeepsHandled(n, id, Lock.ReceiveOn(n.conns[id], fails).0, Lock.SeatOf(n, id));
      }
    case Close(id) =>
      if id in n.conns {
        PacketsDoNotMatter(n.conns[id], Lock.WithClient(n.conns[id], CLOSED_CLIENT));
        UpdateKeepsHandled(n, id, Lock.WithClient(n.conns[id], CLOSED_CLIENT), Lock.SeatOf(n, id));
      }
    case Accept(id, sameUser) =>
      if id in n.conns && n.conns[id].attached && n.owner != Some(id) {
        PacketsDoNotMatter(n.conns[id], n.conns[id]);
        if n.owner.Some? || !sameUser {
          PacketsDoNotMatter(n.conns[id], Lock.Detached(n.conns[id]));
          UpdateKeepsHandled(n, id, Lock.Detached(n.conns[id]), None);
        } else {
          UpdateKeepsHandled(n, id, n.conns[id], Some(Seat(1, [])));
        }
      }
    case Write(kernel) =>
      if n.owner.Some? && n.owner.value in n.conns {
        WriteKeepsHandled(n.conns[n.owner.value], n.seat, kernel);
        var (c, seat, _) := Lock.WriteOn(n.conns[n.owner.value], n.seat, kernel);
        UpdateKeepsHandled(n, n.owner.value, c, seat);
      }
  }

  lemma {:induction false} SameKeepsAll(n: Lock.Net)
    ensures KeepsAll(n, n)
  {
  }

  lemma {:induction false} PacketsDoNotMatter(c: Lock.Conn, d: Lock.Conn)
    requires d.handled == c.handled && (d.attached ==> c.attached)
    ensures Keeps(c, d)
  {
  }

  lemma {:induction false} ConnectKeepsAll(n: Lock.Net, id: nat, conforming: bool)
    requires id !in n.conns && n.owner != Some(id)
    ensures KeepsAll(n, n.(conns := n.conns[id := Lock.Conn(Lock.NEW_CLIENT, conforming, true, [], [], [], [], [])]))
  {
  }

  // Reading hands the request that arrived to the session, if there is one, and touches nobody else.
  lemma {:induction false} ReadingHandles(n: Lock.Net, a: Answer, fails: bool)
    requires n.owner.Some? && n.owner.value in n.conns && Lock.SessionAnswer(a)
    ensures var id, m := n.owner.value, Lock.Apply(n, Lock.Read(a, fails));
            var r := Arrived(n.conns[id], n.seat, fails);
      && m.conns.Keys == n.conns.Keys && (forall other :: other in n.conns && other != id ==> m.conns[other] == n.conns[other])
      && m.conns[id].handled == n.conns[id].handled + (if r.Some? then [Lock.Exchange(r.value, a)] else [])
      && (m.owner == n.owner || (m.owner.None? && !m.conns[id].attached))
  {
    hide Decode, Replied, Lock.SessionAnswer;
    var c := n.conns[n.owner.value];
    var (d, seat, outcome) := Lock.ReadOn(c, n.seat, a, fails);
    ReadOnHandles(c, n.seat, a, fails);
    hide Lock.ReadOn, Arrived;
  }

  lemma {:induction false} ReadOnHandles(c: Lock.Conn, seat: Seat, a: Answer, fails: bool)
    ensures var (d, next, _) := Lock.ReadOn(c, seat, a, fails);
            var r := Arrived(c, seat, fails);
      && d.handled == c.handled + (if r.Some? then [Lock.Exchange(r.value, a)] else [])
      && (next.None? ==> !d.attached)
  {
    hide Decode, Replied;
  }

  // The session and the engine are where the requests of the client in focus brought a fresh session.
  ghost predicate Own(s: Service) {
    && (s.session, s.engineChinese) == After(NEW_SESSION, false, s.turns)
    && (s.net.owner.None? ==> s.turns == [])
    && (forall id :: id in s.net.conns && s.net.conns[id].attached && s.net.owner != Some(id) ==> s.net.conns[id].handled == [])
    && (s.net.owner.Some? ==>
          s.net.owner.value in s.net.conns && s.net.conns[s.net.owner.value].handled == Exchanges(s.turns))
  }

  lemma {:induction false} NothingYet()
    ensures Own(STARTED) && After(NEW_SESSION, false, []) == (NEW_SESSION, false) && Exchanges([]) == []
  {
  }

  lemma {:induction false} ElsewhereKeepsOwn(s: Service, net: Lock.Net)
    requires Own(s) && KeepsAll(s.net, net)
    ensures Own(Rested(net, s))
  {
    NothingYet();
    hide After, Exchanges;
  }

  lemma {:induction false} InputIs(s: Service, rime: Rime, fails: bool)
    requires s.net.owner.Some? && s.net.owner.value in s.net.conns && EngineText(rime)
    ensures var r := Arrived(s.net.conns[s.net.owner.value], s.net.seat, fails);
      && (r.None? ==> Apply(s, Input(rime, fails)) == Rested(Lock.Apply(s.net, Lock.Read(NO_ANSWER, fails)), s))
      && (r.Some? ==>
            var turn := Turn(r.value, rime);
            Apply(s, Input(rime, fails)) ==
            Rested(Lock.Apply(s.net, Lock.Read(Answered(s.session, turn), fails)),
                   Service(s.net, Advanced(s.session, turn),
                           ModeAfter(s.engineChinese, RequestEffect(s.session, turn.request, turn.rime).calls),
                           s.turns + [turn])))
  {
    hide Lock.Apply, Arrived, RequestEffect, Advanced, Answered, ModeAfter, Rested;
  }

  // Reading for the client in focus, in terms of what it did to the connections.
  lemma {:induction false} ReadingKeepsOwn(s: Service, t: Service, net: Lock.Net, more: seq<Lock.Exchange>)
    requires Own(s) && s.net.owner.Some? && t.net == s.net
    requires (t.session, t.engineChinese) == After(NEW_SESSION, false, t.turns)
    requires Exchanges(t.turns) == Exchanges(s.turns) + more
    requires net.conns.Keys == s.net.conns.Keys
    requires forall other :: other in net.conns && other != s.net.owner.value ==> net.conns[other] == s.net.conns[other]
    requires net.conns[s.net.owner.value].handled == s.net.conns[s.net.owner.value].handled + more
    requires net.owner == s.net.owner || (net.owner.None? && !net.conns[s.net.owner.value].attached)
    ensures Own(Rested(net, t))
  {
    NothingYet();
    hide After, Exchanges;
  }

  lemma {:induction false} InputKeepsOwn(s: Service, rime: Rime, fails: bool)
    requires Own(s)
    ensures Own(Apply(s, Input(rime, fails)))
  {
    if s.net.owner.Some? && EngineText(rime) {
      hide *;
      OwnerIsKnown(s);
      InputIs(s, rime, fails);
      var id := s.net.owner.value;
      var r := Arrived(s.net.conns[id], s.net.seat, fails);
      if r.None? {
        NoAnswerIsSessionAnswer();
        ReadingHandles(s.net, NO_ANSWER, fails);
        ReadingKeepsOwn(s, s, Lock.Apply(s.net, Lock.Read(NO_ANSWER, fails)), []);
      } else {
        var turn := Turn(r.value, rime);
        ArrivedIs(s.net.conns[id], s.net.seat, fails);
        AnswersAreSessionAnswers(s.session, turn);
        ReadingHandles(s.net, Answered(s.session, turn), fails);
        OneExchangeMore(s.turns, turn);
        AfterOneMore(NEW_SESSION, false, s.turns, turn);
        var t := Service(s.net, Advanced(s.session, turn),
                         ModeAfter(s.engineChinese, RequestEffect(s.session, turn.request, turn.rime).calls),
                         s.turns + [turn]);
        ReadingKeepsOwn(s, t, Lock.Apply(s.net, Lock.Read(Answered(s.session, turn), fails)),
                        [Lock.Exchange(turn.request, Answered(s.session, turn))]);
      }
    }
  }

  lemma {:induction false} OwnerIsKnown(s: Service)
    requires Own(s)
    ensures s.net.owner.Some? ==> s.net.owner.value in s.net.conns
    ensures (s.session, s.engineChinese) == After(NEW_SESSION, false, s.turns)
  {
    hide After, Exchanges;
  }

  lemma {:induction false} RunsStayOwn(s: Service, events: seq<Event>)
    requires Own(s)
    ensures Own(Run(s, events))
    decreases |events|
  {
    if events != [] {
      if events[0].Elsewhere? {
        if !events[0].step.Read? {
          ElsewhereKeeps(s.net, events[0].step);
          ElsewhereKeepsOwn(s, Lock.Apply(s.net, events[0].step));
        }
      } else {
        InputKeepsOwn(s, events[0].rime, events[0].fails);
      }
      hide Own, Lock.Apply, KeepsAll;
      RunsStayOwn(Apply(s, events[0]), events[1..]);
    }
  }

  // In every reachable state, whatever earlier clients did: without a client in focus the session is as new; the client
  // in focus, conforming or not, was answered exactly what a new session answers to its own requests; and the engine
  // is in Chinese mode exactly while the session listens.
  lemma {:induction false} ClientsDoNotMix(events: seq<Event>)
    ensures var s := Run(STARTED, events);
      && (s.net.owner.None? ==> s.session == NEW_SESSION && !s.engineChinese)
      && (s.net.owner.Some? ==>
            && s.net.owner.value in s.net.conns && s.net.conns[s.net.owner.value].handled == Exchanges(s.turns)
            && s.session == After(NEW_SESSION, false, s.turns).0)
      && s.engineChinese == Listening(s.session) && s.session.inputSteps <= MAX_INPUT_STEPS
  {
    NothingYet();
    RunsStayOwn(STARTED, events);
    SessionStaysBounded(NEW_SESSION, false, Run(STARTED, events).turns);
    hide Run, After, Exchanges;
  }

  // A waiting client has been told nothing; when it gets the focus it meets a new session.
  lemma {:induction false} FocusStartsNew(events: seq<Event>, id: nat)
    requires var s := Run(STARTED, events); s.net.owner.None? && id in s.net.conns && s.net.conns[id].attached
    ensures var s := Apply(Run(STARTED, events), Elsewhere(Lock.Accept(id, true)));
            s.net.owner == Some(id) && s.session == NEW_SESSION && !s.engineChinese && s.net.conns[id].handled == []
  {
    NothingYet();
    RunsStayOwn(STARTED, events);
    hide Run, After, Exchanges;
  }

  // The responses a conforming client in focus has read are, one by one, what a new session answers to its own requests.
  lemma {:induction false} ResponsesAreOwn(events: seq<Event>)
    requires var n := Run(STARTED, events).net; n.owner.Some? && n.owner.value in n.conns && n.conns[n.owner.value].conforming
    ensures var s := Run(STARTED, events);
            var received := s.net.conns[s.net.owner.value].received;
      && |received| <= |s.turns|
      && forall i :: 0 <= i < |received| ==>
           received[i] == Response(Lock.SequenceOf(i), s.turns[i].request, Answers(NEW_SESSION, s.turns)[i])
  {
    hide *;
    var s := Run(STARTED, events);
    var steps := RunsAreRunsOfNet(STARTED, events);
    StartedIs();
    Lock.ConnectionsAgree(steps, s.net.owner.value);
    ClientsDoNotMix(events);
    ExchangesAre(s.turns);
  }

  lemma {:induction false} StartedIs()
    ensures STARTED.net == Lock.EMPTY_NET
  {
  }

  lemma {:induction false} ExchangesAre(turns: seq<Turn>)
    ensures forall i :: 0 <= i < |turns| ==>
              Exchanges(turns)[i] == Lock.Exchange(turns[i].request, Answers(NEW_SESSION, turns)[i])
  {
    hide Answers;
  }
}

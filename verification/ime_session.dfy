/**
  One focused session of the input-method service,
  term-ime/integration/service.cpp: how a request is answered from the state
  of the engine. The engine itself is an oracle: Rime holds what it would say
  while one request is handled, and the calls made to it are recorded.
 */
module ImeSession {
  import opened Utf8
  import opened Utf8Readers
  import opened Options
  import opened ImeWire
  import opened ImeReply

  const KEY_BACKSPACE := 0xFF08
  const KEY_RETURN := 0xFF0D
  const KEY_ESCAPE := 0xFF1B
  const KEY_SPACE := 0x20
  const FIRST_SPECIAL_KEY := 0xFF00
  const MAX_INPUT_STEPS := 128

  datatype Rime = Rime(
    composing: bool,              // a composition is open when the request arrives
    shown: nat,                   // candidates offered then
    selected: seq<byte>,          // text a selection commits
    taken: bool,                  // whether the engine takes the key
    drained: seq<byte>,           // text committed as a side effect
    stillComposing: bool,         // afterwards
    buffer: seq<byte>,
    candidates: seq<seq<byte>>)

  datatype Call = Cancel | SetChinese(on: bool) | Select(index: int) | Backspace | ProcessKey(key: int, modifiers: int) |
                  PageUp | PageDown

  datatype State = State(chinese: bool, password: bool, inputSteps: nat)

  const NEW_SESSION := State(false, false, 0)

  // What the operation itself did, before the answer is put together.
  datatype Effect = Effect(state: State, consumed: bool, status: word32, commit: seq<byte>, calls: seq<Call>)

  // Text the engine may hand over: encoded code points, never NUL.
  predicate EngineText(rime: Rime) {
    WireText(rime.buffer) && forall i :: 0 <= i < |rime.candidates| ==> WireText(rime.candidates[i])
  }

  function Min(a: int, b: int): int {
    if a < b then a else b
  }

  predicate Listening(s: State) {
    s.chinese && !s.password
  }

  // ---- Reference description ----

  predicate Printable(key: int) {
    0x20 <= key < FIRST_SPECIAL_KEY
  }

  // The candidate a key picks while composing, if it is one that is shown.
  function Picked(key: int, rime: Rime): Option<int> {
    var index := if '1' as int <= key <= '5' as int then key - '1' as int else 0;
    if (key == KEY_SPACE || key == KEY_RETURN || '1' as int <= key <= '5' as int) && index < rime.shown
    then Some(index) else None
  }

  function KeyEffect(s: State, key: int, modifiers: int, rime: Rime): Effect {
    if key == KEY_ESCAPE then
      if rime.composing then Effect(s.(inputSteps := 0), true, 0, [], [Cancel]) else Effect(s, false, 0, [], [])
    else if key == KEY_BACKSPACE then
      if rime.composing
      then Effect(s.(inputSteps := if s.inputSteps > 0 then s.inputSteps - 1 else 0), true, 0, [], [Backspace])
      else Effect(s, false, 0, [], [])
    else if modifiers == 0 && rime.composing && Picked(key, rime).Some? then
      Effect(s, true, 0, rime.selected, [Select(Picked(key, rime).value)])
    else if modifiers == 0 && rime.composing && '6' as int <= key <= '9' as int then Effect(s, true, 0, [], [])
    else if s.inputSteps >= MAX_INPUT_STEPS && Printable(key) then Effect(s, true, STATUS_LIMIT, [], [])
    else
      Effect(s.(inputSteps := if rime.taken && Printable(key) then s.inputSteps + 1 else s.inputSteps),
             rime.taken, 0, [], [ProcessKey(key, modifiers)])
  }

  function RequestEffect(s: State, r: Request, rime: Rime): Effect {
    var idle := Effect(s, false, 0, [], []);
    if r.operation == OP_MODE then
      var next := State(r.value != 0, s.password, 0);
      Effect(next, false, 0, [], [Cancel, SetChinese(Listening(next))])
    else if r.operation == OP_PURPOSE then
      var next := State(s.chinese, r.value == 1, 0);
      Effect(next, false, 0, [], [Cancel, SetChinese(Listening(next))])
    else if r.operation == OP_CANCEL then Effect(s.(inputSteps := 0), false, 0, [], [Cancel])
    else if !Listening(s) then idle
    else if r.operation == OP_KEY then KeyEffect(s, r.keysym, r.modifiers, rime)
    else if r.operation == OP_SELECT then
      if r.value < Min(rime.shown, MAX_CANDIDATES) then Effect(s, true, 0, rime.selected, [Select(r.value)])
      else idle.(status := 1)
    else if r.operation == OP_PAGE && rime.composing then
      Effect(s, true, 0, [], [if r.value != 0 then PageDown else PageUp])
    else idle
  }

  function Cut(text: seq<byte>): seq<byte> {
    if |text| < TEXT_CAPACITY then text else text[..CutAt(text, TEXT_CAPACITY - 1)]
  }

  function CutAll(texts: seq<seq<byte>>): (cut: seq<seq<byte>>)
    ensures |cut| == |texts|
    ensures forall i :: 0 <= i < |cut| ==> cut[i] == Cut(texts[i])
  {
    if texts == [] then [] else [Cut(texts[0])] + CutAll(texts[1..])
  }

  predicate AnyLong(texts: seq<seq<byte>>) {
    exists i :: 0 <= i < |texts| && |texts[i]| >= TEXT_CAPACITY
  }

  function Bit(on: bool, value: word32): word32 {
    if on then value else 0
  }

  function AnswerOf(e: Effect, rime: Rime): (State, Answer) {
    var s := e.state;
    var shown := if Listening(s) then rime.candidates[..Min(|rime.candidates|, MAX_CANDIDATES)] else [];
    var buffer := if Listening(s) then rime.buffer else [];
    var preedit := Cut(buffer);
    var flags := 1 + Bit(e.consumed, 2) + Bit(s.chinese, 4) + Bit(s.password, 8) +
                 Bit(Listening(s) && rime.stillComposing, 16) +
                 Bit(|buffer| >= TEXT_CAPACITY || AnyLong(shown), TRUNCATED_FLAG);
    var commit := if s.password then e.commit else e.commit + rime.drained;
    (if preedit == [] then s.(inputSteps := 0) else s, Answer(flags, e.status, preedit, commit, CutAll(shown)))
  }

  // ---- The session object ----

  class Session {
    var chinese: bool
    var password: bool
    var inputSteps: nat

    function View(): State
      reads this
    {
      State(chinese, password, inputSteps)
    }

    constructor ()
      ensures View() == NEW_SESSION
    {
      chinese, password, inputSteps := false, false, 0;
    }

    // reset, at the start and after every client; selecting the schema is taken to succeed
    method Reset() returns (calls: seq<Call>)
      modifies this
      ensures View() == NEW_SESSION && calls == [Cancel, SetChinese(false)]
    {
      chinese, password, inputSteps := false, false, 0;
      return [Cancel, SetChinese(false)];
    }

    // clear, and the calls it makes
    method Clear() returns (calls: seq<Call>)
      modifies this`inputSteps
      ensures inputSteps == 0 && calls == [Cancel]
    {
      inputSteps := 0;
      return [Cancel];
    }

    method ProcessKey(key: int, modifiers: int, rime: Rime)
      returns (consumed: bool, status: word32, commit: seq<byte>, calls: seq<Call>)
      modifies this`inputSteps
      ensures Effect(View(), consumed, status, commit, calls) == KeyEffect(old(View()), key, modifiers, rime)
    {
      consumed, status, commit, calls := false, 0, [], [];
      if key == KEY_ESCAPE {
        if rime.composing {
          calls := Clear();
          consumed := true;
        }
        return;
      }
      if key == KEY_BACKSPACE {
        if rime.composing {
          calls, consumed := [Backspace], true;
          if inputSteps > 0 {
            inputSteps := inputSteps - 1;
          }
        }
        return;
      }
      if modifiers == 0 && rime.composing {
        if key == KEY_SPACE || key == KEY_RETURN || ('1' as int <= key <= '5' as int) {
          var index := if '1' as int <= key <= '5' as int then key - '1' as int else 0;
          if index < rime.shown {
            commit, calls, consumed := rime.selected, [Select(index)], true;
            return;
          }
        }
        if '6' as int <= key <= '9' as int {
          consumed := true;
          return;
        }
      }
      if inputSteps >= MAX_INPUT_STEPS && Printable(key) {
        consumed, status := true, STATUS_LIMIT;
        return;
      }
      consumed, calls := rime.taken, [Call.ProcessKey(key, modifiers)];
      if consumed && Printable(key) {
        inputSteps := inputSteps + 1;
      }
    }

    // The operation itself.
    method Act(r: Request, rime: Rime) returns (consumed: bool, status: word32, commit: seq<byte>, calls: seq<Call>)
      modifies this
      ensures Effect(View(), consumed, status, commit, calls) == RequestEffect(old(View()), r, rime)
    {
      consumed, status, commit, calls := false, 0, [], [];
      if r.operation == OP_MODE {
        calls := Clear();
        chinese := r.value != 0;
        calls := calls + [SetChinese(chinese && !password)];
      } else if r.operation == OP_PURPOSE {
        calls := Clear();
        password := r.value == 1;
        calls := calls + [SetChinese(chinese && !password)];
      } else if r.operation == OP_CANCEL {
        calls := Clear();
      } else if r.operation == OP_KEY {
        if chinese && !password {
          consumed, status, commit, calls := ProcessKey(r.keysym, r.modifiers, rime);
        }
      } else if r.operation == OP_SELECT {
        if chinese && !password {
          if r.value < Min(rime.shown, MAX_CANDIDATES) {
            commit, calls, consumed := rime.selected, [Select(r.value)], true;
          } else {
            status := 1;
          }
        }
      } else if r.operation == OP_PAGE {
        if chinese && !password && rime.composing {
          calls := [if r.value != 0 then PageDown else PageUp];
          consumed := true;
        }
      }
    }

    // respond, up to the building of the packet.
    method Respond(r: Request, rime: Rime) returns (answer: Answer, calls: seq<Call>)
      modifies this
      ensures var e := RequestEffect(old(View()), r, rime); calls == e.calls && (View(), answer) == AnswerOf(e, rime)
    {
      hide RequestEffect, Cut, CutAll, AnyLong;
      var consumed, status, commit;
      consumed, status, commit, calls := Act(r, rime);
      if !password {
        commit := commit + rime.drained;
      }
      var preedit, candidates, composing, truncated := Offer(rime);
      var flags: word32 := 1 + Bit(consumed, 2) + Bit(chinese, 4) + Bit(password, 8) + Bit(composing, 16) +
                           Bit(truncated, TRUNCATED_FLAG);
      if |preedit| == 0 {
        inputSteps := 0;
      }
      answer := Answer(flags, status, preedit, commit, candidates);
    }

    // What is shown while the session listens.
    method Offer(rime: Rime)
      returns (preedit: seq<byte>, candidates: seq<seq<byte>>, composing: bool, truncated: bool)
      ensures var shown := if Listening(View()) then rime.candidates[..Min(|rime.candidates|, MAX_CANDIDATES)] else [];
              var buffer := if Listening(View()) then rime.buffer else [];
              && preedit == Cut(buffer) && candidates == CutAll(shown)
              && composing == (Listening(View()) && rime.stillComposing)
              && truncated == (|buffer| >= TEXT_CAPACITY || AnyLong(shown))
    {
      preedit, candidates, composing, truncated := [], [], false, false;
      if chinese && !password {
        preedit, truncated := BoundedText(rime.buffer, truncated);
        composing := rime.stillComposing;
        var i := 0;
        while i < |rime.candidates|
          invariant 0 <= i <= |rime.candidates| && i <= MAX_CANDIDATES && i == |candidates|
          invariant forall k :: 0 <= k < i ==> candidates[k] == Cut(rime.candidates[k])
          invariant truncated == (|rime.buffer| >= TEXT_CAPACITY || AnyLong(rime.candidates[..i]))
        {
          if |candidates| == MAX_CANDIDATES {
            break;
          }
          var text;
          text, truncated := BoundedText(rime.candidates[i], truncated);
          candidates := candidates + [text];
          LongSnoc(rime.candidates, i);
          i := i + 1;
        }
        assert rime.candidates[..i] == rime.candidates[..Min(|rime.candidates|, MAX_CANDIDATES)];
      }
    }
  }

  lemma {:induction false} LongSnoc(texts: seq<seq<byte>>, i: nat)
    requires i < |texts|
    ensures AnyLong(texts[..i + 1]) <==> AnyLong(texts[..i]) || |texts[i]| >= TEXT_CAPACITY
  {
    if AnyLong(texts[..i]) {
      var k :| 0 <= k < i && |texts[..i][k]| >= TEXT_CAPACITY;
      assert texts[..i + 1][k] == texts[k];
    }
    if |texts[i]| >= TEXT_CAPACITY {
      assert texts[..i + 1][i] == texts[i];
    }
    if AnyLong(texts[..i + 1]) && |texts[i]| < TEXT_CAPACITY {
      var k :| 0 <= k < i + 1 && |texts[..i + 1][k]| >= TEXT_CAPACITY;
      assert texts[..i][k] == texts[k];
    }
  }

  // ---- What a session promises ----

  // Every answer to a valid request fits the packet but for the committed text, which alone decides whether a
  // reply is sent.
  lemma {:induction false} OnlyCommitCanFail(s: State, r: Request, rime: Rime)
    requires ValidRequest(r) && EngineText(rime)
    ensures var a := AnswerOf(RequestEffect(s, r, rime), rime).1; Sendable(a) <==> Fits(a.commit)
  {
    hide WireText, ValidRequest;
    var a := AnswerOf(RequestEffect(s, r, rime), rime).1;
    EmptyText();
    CutFits(rime.buffer);
    forall i | 0 <= i < |rime.candidates| ensures Fits(Cut(rime.candidates[i])) {
      CutFits(rime.candidates[i]);
    }
  }

  lemma {:induction false} EmptyText()
    ensures Fits(Cut([]))
  {
  }

  lemma {:induction false} CutFits(text: seq<byte>)
    requires WireText(text)
    ensures Fits(Cut(text))
  {
    hide WireText;
    if |text| >= TEXT_CAPACITY {
      CutKeepsText(text);
    }
  }

  // A request that finds the session not listening passes by the engine.
  lemma {:induction false} KeysPassBy(s: State, r: Request, rime: Rime)
    requires !Listening(s) && (r.operation == OP_KEY || r.operation == OP_SELECT || r.operation == OP_PAGE)
    ensures var e := RequestEffect(s, r, rime);
            var a := AnswerOf(e, rime).1;
            && e.calls == [] && e.state == s && !e.consumed && a.preedit == [] && a.candidates == []
            && a.commit == if s.password then [] else rime.drained
  {
  }

  datatype Turn = Turn(request: Request, rime: Rime)

  // The session after a run of requests, with the calls made and the engine's mode as those calls left it.
  function After(s: State, engineChinese: bool, turns: seq<Turn>): (State, bool)
    decreases |turns|
  {
    if turns == [] then (s, engineChinese)
    else
      var e := RequestEffect(s, turns[0].request, turns[0].rime);
      After(AnswerOf(e, turns[0].rime).0, ModeAfter(engineChinese, e.calls), turns[1..])
  }

  function ModeAfter(engineChinese: bool, calls: seq<Call>): bool
    decreases |calls|
  {
    if calls == [] then engineChinese
    else ModeAfter(if calls[0].SetChinese? then calls[0].on else engineChinese, calls[1..])
  }

  // The state after one request, and the answer to it.
  function Advanced(s: State, turn: Turn): State {
    AnswerOf(RequestEffect(s, turn.request, turn.rime), turn.rime).0
  }

  function Answered(s: State, turn: Turn): Answer {
    AnswerOf(RequestEffect(s, turn.request, turn.rime), turn.rime).1
  }

  // All answers of a run, and all calls the engine saw.
  function Answers(s: State, turns: seq<Turn>): (a: seq<Answer>)
    ensures |a| == |turns|
    decreases |turns|
  {
    if turns == [] then [] else [Answered(s, turns[0])] + Answers(Advanced(s, turns[0]), turns[1..])
  }

  function Calls(s: State, turns: seq<Turn>): seq<Call>
    decreases |turns|
  {
    if turns == [] then []
    else RequestEffect(s, turns[0].request, turns[0].rime).calls + Calls(Advanced(s, turns[0]), turns[1..])
  }

  // One request more.
  lemma {:induction false} AfterOneMore(s: State, engineChinese: bool, turns: seq<Turn>, turn: Turn)
    ensures var (t, mode) := After(s, engineChinese, turns);
      && After(s, engineChinese, turns + [turn]) ==
         (Advanced(t, turn), ModeAfter(mode, RequestEffect(t, turn.request, turn.rime).calls))
      && Answers(s, turns + [turn]) == Answers(s, turns) + [Answered(t, turn)]
    decreases |turns|
  {
    hide RequestEffect, AnswerOf, ModeAfter;
    if turns == [] {
      assert turns + [turn] == [turn] && [turn][1..] == [];
    } else {
      var e := RequestEffect(s, turns[0].request, turns[0].rime);
      assert (turns + [turn])[1..] == turns[1..] + [turn] && (turns + [turn])[0] == turns[0];
      AfterOneMore(Advanced(s, turns[0]), ModeAfter(engineChinese, e.calls), turns[1..], turn);
    }
  }

  // A run that never turns the session to listening: it stays in a password field, or out of Chinese mode.
  predicate StaysDeaf(s: State, turns: seq<Turn>) {
    || (s.password && forall i :: 0 <= i < |turns| && turns[i].request.operation == OP_PURPOSE ==> turns[i].request.value == 1)
    || (!s.chinese && forall i :: 0 <= i < |turns| && turns[i].request.operation == OP_MODE ==> turns[i].request.value == 0)
  }

  // Over such a run the engine is only ever cancelled and set to English, and no answer shows anything; in a password
  // field none commits anything, out of Chinese mode only what the engine itself lets go.
  lemma {:induction false} NothingIsHeard(s: State, turns: seq<Turn>)
    requires StaysDeaf(s, turns) && !Listening(s) && forall i :: 0 <= i < |turns| ==> ValidRequest(turns[i].request)
    ensures forall c :: c in Calls(s, turns) ==> c == Cancel || c == SetChinese(false)
    ensures forall i :: 0 <= i < |turns| ==>
              var a := Answers(s, turns)[i];
              a.preedit == [] && a.candidates == [] && (a.commit == [] || a.commit == turns[i].rime.drained)
    ensures (s.password && forall i :: 0 <= i < |turns| && turns[i].request.operation == OP_PURPOSE ==> turns[i].request.value == 1) ==>
              forall i :: 0 <= i < |turns| ==> Answers(s, turns)[i].commit == []
    decreases |turns|
  {
    if turns != [] {
      DeafStep(s, turns);
      var next, rest := Advanced(s, turns[0]), turns[1..];
      hide RequestEffect, AnswerOf, StaysDeaf, Listening, ValidRequest;
      assert forall i :: 0 <= i < |rest| ==> rest[i] == turns[i + 1];
      NothingIsHeard(next, rest);
      assert forall i :: 0 < i < |turns| ==> Answers(s, turns)[i] == Answers(next, rest)[i - 1];
    }
  }

  lemma {:induction false} DeafStep(s: State, turns: seq<Turn>)
    requires turns != [] && StaysDeaf(s, turns) && !Listening(s) && ValidRequest(turns[0].request)
    ensures var turn := turns[0];
            var e, a, next := RequestEffect(s, turn.request, turn.rime), Answered(s, turn), Advanced(s, turn);
      && StaysDeaf(next, turns[1..]) && !Listening(next)
      && (forall c :: c in e.calls ==> c == Cancel || c == SetChinese(false))
      && a.preedit == [] && a.candidates == [] && (a.commit == [] || a.commit == turn.rime.drained)
      && (s.password && (turn.request.operation == OP_PURPOSE ==> turn.request.value == 1) ==> a.commit == [] && next.password)
  {
    var turn := turns[0];
    assert forall i :: 0 <= i < |turns[1..]| ==> turns[1..][i] == turns[i + 1];
    assert turn == turns[0];
    if turn.request.operation in {OP_KEY, OP_SELECT, OP_PAGE} {
      KeysPassBy(s, turn.request, turn.rime);
    }
  }

  // Over every run the engine is in Chinese mode exactly while the session listens, and the composition is
  // bounded in steps.
  lemma {:induction false} SessionStaysBounded(s: State, engineChinese: bool, turns: seq<Turn>)
    requires s.inputSteps <= MAX_INPUT_STEPS && engineChinese == Listening(s)
    ensures var (t, mode) := After(s, engineChinese, turns); t.inputSteps <= MAX_INPUT_STEPS && mode == Listening(t)
    decreases |turns|
  {
    if turns != [] {
      var e := RequestEffect(s, turns[0].request, turns[0].rime);
      StepStaysBounded(s, engineChinese, turns[0]);
      SessionStaysBounded(AnswerOf(e, turns[0].rime).0, ModeAfter(engineChinese, e.calls), turns[1..]);
    }
  }

  lemma {:induction false} StepStaysBounded(s: State, engineChinese: bool, turn: Turn)
    requires s.inputSteps <= MAX_INPUT_STEPS && engineChinese == Listening(s)
    ensures var e := RequestEffect(s, turn.request, turn.rime);
            var t := AnswerOf(e, turn.rime).0;
            t.inputSteps <= MAX_INPUT_STEPS && ModeAfter(engineChinese, e.calls) == Listening(t)
  {
    var e := RequestEffect(s, turn.request, turn.rime);
    CallsOf(s, turn.request, turn.rime);
    ModeCases(engineChinese, if e.calls == [] || e.calls[0].SetChinese? then Cancel else e.calls[0], Listening(e.state));
    AnswerState(e, turn.rime);
    hide ModeAfter, RequestEffect, AnswerOf;
  }

  lemma {:induction false} AnswerState(e: Effect, rime: Rime)
    ensures AnswerOf(e, rime).0 in {e.state, e.state.(inputSteps := 0)}
  {
  }

  // A request makes no call, sets the mode after clearing, or makes one call that leaves the mode.
  lemma {:induction false} CallsOf(s: State, r: Request, rime: Rime)
    requires s.inputSteps <= MAX_INPUT_STEPS
    ensures var e := RequestEffect(s, r, rime);
            && e.state.inputSteps <= MAX_INPUT_STEPS
            && (e.calls == [Cancel, SetChinese(Listening(e.state))] ||
                (Listening(e.state) == Listening(s) &&
                 (e.calls == [] || (|e.calls| == 1 && !e.calls[0].SetChinese? && e.calls == [e.calls[0]]))))
  {
  }

  lemma {:induction false} ModeCases(engineChinese: bool, call: Call, on: bool)
    requires !call.SetChinese?
    ensures ModeAfter(engineChinese, []) == engineChinese && ModeAfter(engineChinese, [call]) == engineChinese
    ensures ModeAfter(engineChinese, [call, SetChinese(on)]) == on
  {
    assert ModeAfter(on, []) == on;
    assert [call][1..] == [] && [call, SetChinese(on)][1..] == [SetChinese(on)] && [SetChinese(on)][1..] == [];
    assert ModeAfter(engineChinese, [SetChinese(on)]) == on;
  }

  // ---- The limit ----

  // The engine took a printable key, or gave one back.
  predicate Took(s: State, turn: Turn) {
    turn.rime.taken && exists c :: c in CallsAt(s, turn) && c.ProcessKey? && Printable(c.key)
  }

  predicate Erased(s: State, turn: Turn) {
    Backspace in CallsAt(s, turn)
  }

  // It dropped what it had.
  predicate Clears(s: State, turn: Turn) {
    Cancel in CallsAt(s, turn) || Answered(s, turn).preedit == []
  }

  function CallsAt(s: State, turn: Turn): seq<Call> {
    RequestEffect(s, turn.request, turn.rime).calls
  }

  ghost function Held(s: State, turns: seq<Turn>): int
    decreases |turns|
  {
    if turns == [] then 0
    else
      (if Took(s, turns[0]) then 1 else 0) - (if Erased(s, turns[0]) then 1 else 0) + Held(Advanced(s, turns[0]), turns[1..])
  }

  ghost predicate Unbroken(s: State, turns: seq<Turn>)
    decreases |turns|
  {
    turns != [] ==> !Clears(s, turns[0]) && Unbroken(Advanced(s, turns[0]), turns[1..])
  }

  // However many keys come: until the engine is cleared, it never holds more printable keys than the limit.
  lemma {:induction false} LimitHolds(s: State, turns: seq<Turn>)
    requires s.inputSteps <= MAX_INPUT_STEPS && Unbroken(s, turns)
    ensures s.inputSteps + Held(s, turns) <= MAX_INPUT_STEPS
    decreases |turns|
  {
    if turns != [] {
      LimitStep(s, turns[0]);
      hide Took, Erased, Clears, Advanced;
      LimitHolds(Advanced(s, turns[0]), turns[1..]);
    }
  }

  lemma {:induction false} LimitStep(s: State, turn: Turn)
    requires s.inputSteps <= MAX_INPUT_STEPS && !Clears(s, turn)
    ensures var next := Advanced(s, turn).inputSteps;
      && next <= MAX_INPUT_STEPS
      && s.inputSteps + (if Took(s, turn) then 1 else 0) - (if Erased(s, turn) then 1 else 0) <= next
  {
    hide Cut, CutAll, AnyLong;
    if Took(s, turn) {
      var c :| c in CallsAt(s, turn) && c.ProcessKey? && Printable(c.key);
    }
  }

  // At the limit a printable key is swallowed and reported, and nothing else is, unless it picks a candidate.
  lemma {:induction false} LimitReported(s: State, turn: Turn)
    requires ValidRequest(turn.request)
    ensures var key := turn.request.keysym;
            var picks := turn.request.modifiers == 0 && turn.rime.composing &&
                         (Picked(key, turn.rime).Some? || '6' as int <= key <= '9' as int);
            var limited := turn.request.operation == OP_KEY && Listening(s) && Printable(key) &&
                           s.inputSteps >= MAX_INPUT_STEPS && !picks;
      && (Answered(s, turn).status == STATUS_LIMIT <==> limited)
      && (limited ==> CallsAt(s, turn) == [] && RequestEffect(s, turn.request, turn.rime).consumed)
  {
    hide Cut, CutAll, AnyLong;
  }
}

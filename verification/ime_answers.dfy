/**
  What the service does with each request, in terms of what the user typed and
  what the engine said: the calls made, the text committed, and how the answer
  describes the session.
 */
module ImeAnswers {
  import opened Options
  import opened Utf8
  import Utf8Readers
  import opened ImeWire
  import opened ImeReply
  import opened ImeSession

  // A key typed while the session listens.
  predicate Typed(s: State, turn: Turn) {
    Listening(s) && turn.request.operation == 4
  }

  // A plain key while a composition is open.
  predicate Chooses(s: State, turn: Turn) {
    Typed(s, turn) && turn.rime.composing && turn.request.modifiers == 0
  }

  // The candidate that a plain key picks: 1 to 5 by their digits, the first one by space and return.
  predicate PicksBy(key: int, i: int) {
    (1 <= i <= 5 && key == 0x30 + i) || (i == 1 && (key == 0x20 || key == 0xFF0D))
  }

  // Candidate i, and no other, is selected by its keys when it is shown; its text is what is committed.
  lemma {:induction false} DigitPicksItsCandidate(s: State, turn: Turn, i: int)
    requires Chooses(s, turn) && PicksBy(turn.request.keysym, i) && i <= turn.rime.shown
    ensures CallsAt(s, turn) == [Select(i - 1)] && Answered(s, turn).commit == turn.rime.selected + turn.rime.drained
    ensures Answered(s, turn).status == 0 && Advanced(s, turn).chinese && !Advanced(s, turn).password
  {
    hide Cut, CutAll, AnyLong;
  }

  // Nothing else selects.
  lemma {:induction false} OnlyPicksSelect(s: State, turn: Turn, index: int)
    requires Select(index) in CallsAt(s, turn)
    ensures Listening(s) && 0 <= index < 5 && index < turn.rime.shown && CallsAt(s, turn) == [Select(index)]
    ensures if turn.request.operation == 5 then turn.request.value == index
            else Chooses(s, turn) && PicksBy(turn.request.keysym, index + 1)
  {
  }

  // The keys that are dealt with before the engine sees them.
  predicate Special(s: State, turn: Turn) {
    var key := turn.request.keysym;
    || key == 0xFF1B || key == 0xFF08
    || (Chooses(s, turn) && (0x36 <= key <= 0x39 || exists i :: 1 <= i <= 5 && PicksBy(key, i) && i <= turn.rime.shown))
    || (s.inputSteps >= 128 && 0x20 <= key < 0xFF00)
  }

  // Every other key goes to the engine as it is, and is consumed exactly when the engine takes it.
  lemma {:induction false} OtherKeysAreForwarded(s: State, turn: Turn)
    requires Typed(s, turn)
    ensures !Special(s, turn) ==>
              && CallsAt(s, turn) == [ProcessKey(turn.request.keysym, turn.request.modifiers)]
              && RequestEffect(s, turn.request, turn.rime).consumed == turn.rime.taken
    ensures Special(s, turn) ==> forall c :: c in CallsAt(s, turn) ==> !c.ProcessKey?
  {
    assert PicksBy(0x20, 1) && PicksBy(0xFF0D, 1);
    var key := turn.request.keysym;
    if Chooses(s, turn) && Picked(key, turn.rime).Some? {
      assert PicksBy(key, Picked(key, turn.rime).value + 1);
    }
    if i :| 1 <= i <= 5 && PicksBy(key, i) && i <= turn.rime.shown && Chooses(s, turn) {
      assert Picked(key, turn.rime) == Some(i - 1);
    }
  }

  // Escape and backspace act on an open composition, the digits 6 to 9 do nothing there.
  lemma {:induction false} EditingKeys(s: State, turn: Turn)
    requires Typed(s, turn)
    ensures turn.request.keysym == 0xFF1B ==>
              CallsAt(s, turn) == (if turn.rime.composing then [Cancel] else []) &&
              RequestEffect(s, turn.request, turn.rime).consumed == turn.rime.composing
    ensures turn.request.keysym == 0xFF08 ==>
              CallsAt(s, turn) == (if turn.rime.composing then [Backspace] else []) &&
              RequestEffect(s, turn.request, turn.rime).consumed == turn.rime.composing
    ensures Chooses(s, turn) && 0x36 <= turn.request.keysym <= 0x39 ==>
              CallsAt(s, turn) == [] && RequestEffect(s, turn.request, turn.rime).consumed
  {
  }

  // ---- What is committed and counted ----

  // A selection commits the text it selects; what the engine committed beside it follows, except in a password field.
  lemma {:induction false} CommitTells(s: State, turn: Turn)
    ensures var a, rime := Answered(s, turn), turn.rime;
      a.commit == (if exists i {:trigger Select(i)} :: Select(i) in CallsAt(s, turn) then rime.selected else []) +
                  (if Advanced(s, turn).password then [] else rime.drained)
  {
    hide Cut, CutAll, AnyLong;
    var calls := CallsAt(s, turn);
    assert calls != [] && calls[0].Select? ==> Select(calls[0].index) in calls;
    assert [] + turn.rime.drained == turn.rime.drained && turn.rime.selected + [] == turn.rime.selected;
  }

  // The steps put into a composition: one more for each printable key the engine takes, one less for each removed, none
  // once nothing is shown of it.
  lemma {:induction false} StepsCounted(s: State, turn: Turn)
    requires Typed(s, turn) && EngineText(turn.rime)
    ensures var r, rime, key := turn.request, turn.rime, turn.request.keysym;
      Advanced(s, turn) == s.(inputSteps :=
        if rime.buffer == [] then 0
        else if key == 0xFF1B && rime.composing then 0
        else if key == 0xFF08 && rime.composing then (if s.inputSteps == 0 then 0 else s.inputSteps - 1)
        else if CallsAt(s, turn) == [ProcessKey(key, r.modifiers)] && rime.taken && 0x20 <= key < 0xFF00
        then s.inputSteps + 1 else s.inputSteps)
  {
    CutIsEmpty(turn.rime.buffer);
    hide CutAll, AnyLong, Cut, EngineText;
  }

  lemma {:induction false} CutIsEmpty(text: seq<byte>)
    requires Utf8Readers.WireText(text)
    ensures Cut(text) == [] <==> text == []
  {
    ShownIsCut(text);
    hide Cut, Fits;
  }

  // The other requests. Pages turn forwards for 1 and backwards for 0; a selection outside what is shown is refused.
  lemma {:induction false} OtherRequests(s: State, turn: Turn)
    requires ValidRequest(turn.request)
    ensures var r, rime, calls, a, next := turn.request, turn.rime, CallsAt(s, turn), Answered(s, turn), Advanced(s, turn);
      && (r.operation == 1 ==> calls == [] && next.chinese == s.chinese && next.password == s.password)
      && (r.operation == 2 ==>
            && next.chinese == (r.value == 1) && next.password == s.password && next.inputSteps == 0
            && calls == [Cancel, SetChinese(r.value == 1 && !s.password)])
      && (r.operation == 3 ==>
            && next.chinese == s.chinese && next.password == (r.value == 1) && next.inputSteps == 0
            && calls == [Cancel, SetChinese(s.chinese && r.value == 0)])
      && (r.operation == 5 && Listening(s) ==>
            if r.value < rime.shown then calls == [Select(r.value)] && a.status == 0 && a.commit == rime.selected + rime.drained
            else calls == [] && a.status == 1)
      && (r.operation == 6 && Listening(s) && rime.composing ==> calls == [if r.value == 1 then PageDown else PageUp])
      && (r.operation == 6 && !rime.composing ==> calls == [])
      && (r.operation == 7 ==> calls == [Cancel] && next.inputSteps == 0)
  {
    hide Cut, CutAll, AnyLong, KeyEffect;
  }

  // ---- What the answer says ----

  // Bits of the flags, lowest first.
  predicate Flag(flags: int, k: nat)
    requires k < 6
  {
    flags / [1, 2, 4, 8, 16, 32][k] % 2 == 1
  }

  // The flags say that the service is ready, whether the request was consumed, the mode, the field, whether a
  // composition is open and whether a text was cut, one bit each.
  lemma {:induction false} FlagsTell(s: State, turn: Turn)
    ensures var a, next, rime := Answered(s, turn), Advanced(s, turn), turn.rime;
      && 0 <= a.flags < 64 && Flag(a.flags, 0)
      && (Flag(a.flags, 1) <==> RequestEffect(s, turn.request, rime).consumed)
      && (Flag(a.flags, 2) <==> next.chinese) && (Flag(a.flags, 3) <==> next.password)
      && (Flag(a.flags, 4) <==> Listening(next) && rime.stillComposing)
      && (Flag(a.flags, 5) <==>
            Listening(next) && (|rime.buffer| > 1023 || exists i :: 0 <= i < |rime.candidates| && i < 5 && |rime.candidates[i]| > 1023))
  {
    hide *;
    var next, rime := Advanced(s, turn), turn.rime;
    var long := FlagsAre(s, turn);
    BitsAreApart(RequestEffect(s, turn.request, rime).consumed, next.chinese, next.password,
                 Listening(next) && rime.stillComposing, long);
  }

  lemma {:induction false} FlagsAre(s: State, turn: Turn) returns (long: bool)
    ensures var next, rime := Advanced(s, turn), turn.rime;
      && Answered(s, turn).flags ==
         1 + Bit(RequestEffect(s, turn.request, rime).consumed, 2) + Bit(next.chinese, 4) + Bit(next.password, 8) +
         Bit(Listening(next) && rime.stillComposing, 16) + Bit(long, 32)
      && (long <==>
            Listening(next) && (|rime.buffer| > 1023 || exists i :: 0 <= i < |rime.candidates| && i < 5 && |rime.candidates[i]| > 1023))
  {
    hide RequestEffect;
    var next, rime := Advanced(s, turn), turn.rime;
    var shown := if Listening(next) then rime.candidates[..Min(|rime.candidates|, MAX_CANDIDATES)] else [];
    long := |(if Listening(next) then rime.buffer else [])| >= TEXT_CAPACITY || AnyLong(shown);
    assert AnyLong(shown) <==> exists i :: 0 <= i < |shown| && |rime.candidates[i]| > 1023;
  }

  lemma {:induction false} BitsAreApart(a: bool, b: bool, c: bool, d: bool, e: bool)
    ensures var n := 1 + Bit(a, 2) + Bit(b, 4) + Bit(c, 8) + Bit(d, 16) + Bit(e, 32);
      && 0 <= n < 64 && Flag(n, 0) && (Flag(n, 1) <==> a) && (Flag(n, 2) <==> b) && (Flag(n, 3) <==> c)
      && (Flag(n, 4) <==> d) && (Flag(n, 5) <==> e)
  {
  }

  // What of a text is shown: all of it, or what is left of it after losing its end, at a character.
  predicate ShownOf(text: seq<byte>, shown: seq<byte>) {
    if |text| <= 1023 then shown == text else shown <= text && 1020 <= |shown| <= 1023 && Fits(shown)
  }

  // While the session listens the answer shows the engine's buffer and its first five candidates, in its order, each
  // whole or cut at a character.
  lemma {:induction false} AnswerShows(s: State, turn: Turn)
    requires EngineText(turn.rime)
    ensures var a, rime := Answered(s, turn), turn.rime;
            if Listening(Advanced(s, turn)) then
              && ShownOf(rime.buffer, a.preedit)
              && |a.candidates| == (if |rime.candidates| < 5 then |rime.candidates| else 5)
              && forall i :: 0 <= i < |a.candidates| ==> ShownOf(rime.candidates[i], a.candidates[i])
            else a.preedit == [] && a.candidates == []
  {
    var rime := turn.rime;
    ShownIsCut(rime.buffer);
    forall i | 0 <= i < |rime.candidates| ensures ShownOf(rime.candidates[i], Cut(rime.candidates[i])) {
      ShownIsCut(rime.candidates[i]);
    }
    hide RequestEffect, ShownOf, AnyLong, EngineText;
    assert Cut([]) == [];
  }

  lemma {:induction false} ShownIsCut(text: seq<byte>)
    requires Utf8Readers.WireText(text)
    ensures ShownOf(text, Cut(text))
  {
    if |text| >= TEXT_CAPACITY {
      CutKeepsText(text);
    }
    hide Utf8Readers.WireText, Fits, CutAt;
  }
}

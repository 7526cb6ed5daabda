/**
  Moving the sequencer's cursor: by the clock, by steps and by pages.
 */
module PinaoMoves {
  import Division
  import opened PinaoSong
  import opened PinaoTransport
  import opened PinaoModel
  import opened PinaoRuns
  import PinaoTempo
  import opened PinaoPresses
  import opened PinaoHeld

  // ---- The clock ----

  // At now, k whole steps have passed since playback started, and p is the cell they lead to, round and round the song.
  ghost predicate OnClock(m: Model, now: int, k: nat, p: nat) {
    && m.song.pages != [] && p == (m.startStep + k) % (16 * |m.song.pages|)
    && exists t: nat, d: nat :: IsElapsed(m, now, t) && IsStep(m.song.bpm, d) && IsTick(t, d, k)
  }

  lemma {:induction false} ClockIs(m: Model, now: int) returns (k: nat, p: nat)
    requires Framed(m) && m.startStep >= 0
    ensures OnClock(m, now, k, p) && 60 <= m.song.bpm <= 180 && k == ClockTick(m, now) && p == ClockPosition(m, now)
    ensures Synced(m, now) == m.(page := p / 16, step := p % 16) && 0 <= p / 16 < |m.song.pages|
  {
    hide *;
    ClockFacts(m, now);
    var d := StepIs(m.song.bpm);
    ElapsedIs(m, now);
    k := TickIs(Elapsed(m, now), d);
    ClockPlace(m, now, d, k);
    p := ClockPosition(m, now);
    Division.ModSum(m.startStep, k, 16 * |m.song.pages|);
    OnClockIs(m, now, k, p, Elapsed(m, now), d);
  }

  lemma {:induction false} ClockFacts(m: Model, now: int)
    requires Framed(m)
    ensures 60 <= m.song.bpm <= 180 && |m.song.pages| > 0 && Total(m.song) == 16 * |m.song.pages|
  {
  }

  lemma {:induction false} ClockPlace(m: Model, now: int, d: nat, k: nat)
    requires Framed(m) && m.startStep >= 0 && 60 <= m.song.bpm <= 180 && d == StepDuration(m.song.bpm) > 0
    requires |m.song.pages| > 0 && k == Elapsed(m, now) / d
    ensures ClockTick(m, now) == k
    ensures ClockPosition(m, now) == (m.startStep + k % (16 * |m.song.pages|)) % (16 * |m.song.pages|)
    ensures var p := ClockPosition(m, now);
      Synced(m, now) == m.(page := p / 16, step := p % 16) && 0 <= p / 16 < |m.song.pages|
  {
    hide StepDuration, Elapsed, Shaped;
  }

  lemma {:induction false} OnClockIs(m: Model, now: int, k: nat, p: nat, t: nat, d: nat)
    requires |m.song.pages| > 0 && p == (m.startStep + k) % (16 * |m.song.pages|)
    requires IsElapsed(m, now, t) && IsStep(m.song.bpm, d) && IsTick(t, d, k)
    ensures OnClock(m, now, k, p)
  {
    hide IsElapsed, IsStep, IsTick;
  }

  // The same song and start are the same clock.
  lemma {:induction false} SameClockAs(m: Model, f: Model, now: int, k: nat, p: nat)
    requires f.song == m.song && f.started == m.started && f.startStep == m.startStep
    ensures OnClock(f, now, k, p) <==> OnClock(m, now, k, p)
  {
    assert forall t: nat :: IsElapsed(f, now, t) <==> IsElapsed(m, now, t);
    hide IsElapsed, IsStep, IsTick;
  }

  // A playing sequencer plays the cell its clock has reached, once.
  lemma {:induction false} TickPlaysTheClock(m: Model, now: int) returns (k: nat, p: nat)
    requires Sound(m) && m.playing
    ensures OnClock(m, now, k, p) && Shaped(m.song) && p < Total(m.song) && Eight(m.transport)
    ensures k <= m.lastTick ==> Ticked(m, now) == (m, [])
    ensures k > m.lastTick ==>
      && |CellAt(m.song, p)| <= 8
      && var (r, commands) := Ticked(m, now);
         && r == m.(page := p / 16, step := p % 16, lastTick := k, transport := r.transport)
         && commands == Commands(m.transport, CellAt(m.song, p), p, k == m.lastTick + 1)
         && r.transport == AfterCell(m.transport, CellAt(m.song, p), p, k == m.lastTick + 1)
  {
    hide *;
    SoundParts(m);
    TransportIs(m);
    k, p := ClockIs(m, now);
    PinaoTempo.TickWhilePlaying(m, now);
    RoundSong(m, now);
    if k > m.lastTick {
      PinaoTempo.PlayedIs(m, now);
      PlayedFrame(m, now);
      EightIsCount();
    }
  }

  lemma {:induction false} EightIsCount()
    ensures VOICE_COUNT == 8
  {
  }

  lemma {:induction false} TransportIs(m: Model)
    requires Framed(m)
    ensures Eight(m.transport) && Shaped(m.song)
  {
    hide Shaped;
  }

  lemma {:induction false} RoundSong(m: Model, now: int)
    requires Framed(m) && m.startStep >= 0
    ensures ClockPosition(m, now) < Total(m.song)
  {
    hide ClockPosition, Framed;
  }

  lemma {:induction false} PlayedFrame(m: Model, now: int)
    requires Framed(m) && m.startStep >= 0 && |CellAt(m.song, ClockPosition(m, now))| <= VOICE_COUNT
    ensures var r, at := PlayedAt(m, now).0, Synced(m, now);
            r == at.(lastTick := ClockTick(m, now), transport := r.transport)
  {
    hide Synced, ClockPosition, CellAt, Commands, AfterCell, ClockTick;
  }

  // ---- Steps ----

  function Rightwards(step: int): int {
    if step == 15 then 0 else step + 1
  }

  function Leftwards(step: int): int {
    if step == 0 then 15 else step - 1
  }

  // A step key stops the clock, where it is, and moves one cell on the page, round its ends; from rest it goes to the
  // first cell. In step mode the held notes follow.
  lemma {:induction false} StepKeys(m: Model, e: Key, now: int) returns (k: nat, p: nat, moved: Model, codes: seq<nat>)
    requires Ready(m) && !e.reset && e.down && !m.help && e.code in {105, 106}
    ensures m.playing ==> OnClock(m, now, k, p)
    ensures var at := if m.playing then p % 16 else m.step;
      moved == m.(playing := false, stepMode := true, page := if m.playing then p / 16 else m.page,
                  step := if at < 0 then 0 else if e.code == 106 then Rightwards(at) else Leftwards(at),
                  pageKeyFired := m.pageKeyFired || m.pageKey != 0)
    ensures var (r, commands, action) := Handled(m, e, now);
      && commands == [LoopOff({})] && action == Nothing
      && if m.stepMode then 0 <= m.page * 16 + m.step && Follows(moved, r, m.page * 16 + m.step, codes)
         else r == moved.(captures := r.captures) && NothingRemembered(r.captures)
  {
    hide *;
    k, p, codes := 0, 0, [];
    var f := m.(pageKeyFired := m.pageKeyFired || m.pageKey != 0);
    FiredReady(m);
    ReadyFacts(f);
    NoNoteKeys(e.code);
    PressHandled(m, e, now);
    if m.playing {
      k, p := ClockIs(f, now);
      SameClockAs(m, f, now, k, p);
    }
    moved := StepTo(f, e.code, p, now);
    if m.stepMode {
      codes := HeldNotesFollow(moved, m.page * 16 + m.step);
    } else {
      NothingHeldIs(moved);
      NothingIs(TiesCancelled(moved).captures);
    }
  }

  lemma {:induction false} NothingIs(captures: seq<Capture>)
    requires |captures| == 128 && forall c :: 0 <= c < 128 ==> !captures[c].valid
    ensures NothingRemembered(captures)
  {
  }

  lemma {:induction false} ReadyFacts(m: Model)
    requires Ready(m)
    ensures Framed(m) && (m.playing ==> m.startStep >= 0 && m.step >= 0 && !m.stepMode) && -1 <= m.step < 16 && 0 <= m.page
    ensures m.stepMode ==> m.step >= 0
  {
    hide Shaped, Total;
  }

  lemma {:induction false} StepTo(m: Model, code: nat, p: nat, now: int) returns (moved: Model)
    requires Ready(m) && Framed(m) && -1 <= m.step < 16 && 0 <= m.page && (m.playing ==> m.startStep >= 0 && !m.stepMode)
    requires m.stepMode ==> m.step >= 0
    requires code in {105, 106} && (m.playing ==> Synced(m, now) == m.(page := p / 16, step := p % 16))
    ensures var at := if m.playing then p % 16 else m.step;
      moved == m.(playing := false, stepMode := true, page := if m.playing then p / 16 else m.page,
                  step := if at < 0 then 0 else if code == 106 then Rightwards(at) else Leftwards(at))
    ensures Framed(moved) && moved.step >= 0
    ensures OtherPressed(m, code, now) ==
            (if m.stepMode then Extended(moved, m.page * 16 + m.step) else TiesCancelled(moved), [LoopOff({})], Nothing)
  {
    hide *;
    moved := StepMoved(m, if code == 105 then -1 else 1, now);
    StepPressedIs(m, code, now);
    PositionIs(m);
    Around(if m.playing then p % 16 else m.step);
    TiesCancelledIs(moved);
  }

  lemma {:induction false} StepMoved(m: Model, delta: int, now: int) returns (moved: Model)
    requires Ready(m) && Framed(m) && (m.playing ==> m.startStep >= 0 && !m.stepMode)
    ensures var synced := if m.playing then Synced(m, now) else m;
      moved == synced.(step := if synced.step < 0 then 0 else (synced.step + delta) % 16, playing := false, stepMode := true)
    ensures Framed(moved) && moved.step >= 0
    ensures StepSelected(m, delta, now) == if m.stepMode then Extended(moved, Position(m)) else TiesCancelled(moved)
  {
    var synced := if m.playing then Synced(m, now) else m;
    moved := synced.(step := if synced.step < 0 then 0 else (synced.step + delta) % 16, playing := false, stepMode := true);
    if m.playing {
      SyncedFacts(m, now);
    }
    hide Synced, Extended, TiesCancelled, Shaped, Total;
  }

  lemma {:induction false} StepPressedIs(m: Model, code: nat, now: int)
    requires Ready(m) && code in {105, 106}
    ensures OtherPressed(m, code, now) == (StepSelected(m, if code == 105 then -1 else 1, now), [LoopOff({})], Nothing)
  {
    hide StepSelected, Ready, SpacePressed, RecordPressed, TempoSet, DeletePressed;
  }

  lemma {:induction false} Around(step: int)
    ensures 0 <= step < 16 ==> (step + 1) % 16 == Rightwards(step) && (step - 1) % 16 == Leftwards(step)
  {
  }

  lemma {:induction false} TiesCancelledIs(m: Model)
    ensures TiesCancelled(m) == m.(captures := NoCaptures())
  {
  }

  // ---- Pages ----

  // The page of the song after which nothing has changed but a blank page at index: later cells move on by sixteen, and
  // the first one behind the blank page continues nothing.
  ghost predicate PageAdded(s: Song, t: Song, index: nat) {
    && Shaped(s) && Shaped(t) && index <= |s.pages| && |t.pages| == |s.pages| + 1
    && t == s.(pages := t.pages, format := if s.format == 1 then 2 else s.format)
    && (forall q: nat :: q < 16 * index ==> CellAt(t, q) == CellAt(s, q))
    && (forall q: nat :: 16 * index <= q < 16 * index + 16 ==> CellAt(t, q) == [])
    && (forall q: nat :: 16 * index + 16 < q < Total(t) ==> CellAt(t, q) == CellAt(s, q - 16))
    && (index < |s.pages| ==> Detached(CellAt(s, 16 * index), CellAt(t, 16 * index + 16)))
  }

  // The same hits, all struck.
  predicate Detached(cell: Cell, after: Cell) {
    |after| == |cell| && forall i :: 0 <= i < |cell| ==> after[i] == cell[i].(tie := false)
  }

  lemma {:induction false} InsertionAdds(s: Song, index: nat)
    requires ValidSong(s) && Shaped(s) && index <= |s.pages|
    ensures PageAdded(s, Repaired(Inserted(s, index)), index)
  {
    hide *;
    var u := Inserted(s, index);
    var t := Repaired(u);
    InsertedShape(s, index);
    forall q: nat | q < Total(t)
      ensures CellAt(t, q) == RepairCell(Before(u, q), CellAt(u, q))
      ensures q < 16 * index ==> CellAt(t, q) == CellAt(s, q)
      ensures 16 * index <= q < 16 * index + 16 ==> CellAt(t, q) == []
      ensures 16 * index + 16 < q ==> CellAt(t, q) == CellAt(s, q - 16)
      ensures q == 16 * index + 16 ==> Detached(CellAt(s, 16 * index), CellAt(t, q))
    {
      InsertionAt(s, index, q);
    }
    PageAddedIs(s, t, index);
  }

  lemma {:induction false} PageAddedIs(s: Song, t: Song, index: nat)
    requires Shaped(s) && Shaped(t) && index <= |s.pages| && |t.pages| == |s.pages| + 1 && Total(t) == 16 * |t.pages|
    requires t == s.(pages := t.pages, format := if s.format == 1 then 2 else s.format)
    requires forall q: nat :: q < Total(t) && q < 16 * index ==> q < Total(s) && CellAt(t, q) == CellAt(s, q)
    requires forall q: nat :: q < Total(t) && 16 * index <= q < 16 * index + 16 ==> CellAt(t, q) == []
    requires forall q: nat :: q < Total(t) && 16 * index + 16 < q ==> q - 16 < Total(s) && CellAt(t, q) == CellAt(s, q - 16)
    requires index < |s.pages| ==>
      16 * index < Total(s) && 16 * index + 16 < Total(t) && Detached(CellAt(s, 16 * index), CellAt(t, 16 * index + 16))
    ensures PageAdded(s, t, index)
  {
    hide CellAt, Detached, Shaped;
  }

  lemma {:induction false} InsertedShape(s: Song, index: nat)
    requires ValidSong(s) && Shaped(s) && index <= |s.pages|
    ensures var u, t := Inserted(s, index), Repaired(Inserted(s, index));
      && Shaped(u) && Shaped(t) && |t.pages| == |s.pages| + 1 && |u.pages| == |t.pages| && Total(s) == 16 * |s.pages|
      && Total(u) == Total(t) == 16 * |t.pages| == Total(s) + 16
      && t == s.(pages := t.pages, format := if s.format == 1 then 2 else s.format)
  {
    assert SettingsOk(s);
    hide Repaired, CellOk;
  }

  lemma {:induction false} InsertionAt(s: Song, index: nat, q: nat)
    requires ValidSong(s) && Shaped(s) && index <= |s.pages| && q < Total(s) + 16
    ensures var u, t := Inserted(s, index), Repaired(Inserted(s, index));
      && Shaped(u) && Shaped(t) && Total(t) == Total(u) == Total(s) + 16
      && CellAt(t, q) == RepairCell(Before(u, q), CellAt(u, q))
      && (q < 16 * index ==> q < Total(s) && CellAt(t, q) == CellAt(s, q))
      && (16 * index <= q < 16 * index + 16 ==> CellAt(t, q) == [])
      && (16 * index + 16 < q ==> CellAt(t, q) == CellAt(s, q - 16))
      && (q == 16 * index + 16 ==> 16 * index < Total(s) && Detached(CellAt(s, 16 * index), CellAt(t, q)))
  {
    hide *;
    InsertedShape(s, index);
    var u := Inserted(s, index);
    RepairedCell(u, q);
    InsertedHere(s, index, q);
    BeforeCases(u, q);
    if q > 0 {
      InsertedHere(s, index, q - 1);
    }
    if q < 16 * index {
      BeforeCases(s, q);
      StillTied(s, q);
    } else if q < 16 * index + 16 {
      NothingRepaired(Before(u, q));
    } else if q > 16 * index + 16 {
      BeforeCases(s, q - 16);
      StillTied(s, q - 16);
    } else {
      AllDetached(CellAt(s, 16 * index));
    }
  }

  lemma {:induction false} InsertedHere(s: Song, index: nat, q: nat)
    requires Shaped(s) && index <= |s.pages| && q < Total(s) + 16 && Total(s) == 16 * |s.pages|
    ensures var u := Inserted(s, index);
      && Shaped(u) && Total(u) == Total(s) + 16
      && (q < 16 * index ==> q < Total(s) && CellAt(u, q) == CellAt(s, q))
      && (16 * index <= q < 16 * index + 16 ==> CellAt(u, q) == [])
      && (16 * index + 16 <= q ==> CellAt(u, q) == CellAt(s, q - 16))
  {
    InsertedCell(s, index, q);
    hide Inserted, CellAt, Shaped;
    assert q / 16 < index <==> q < 16 * index;
    assert q / 16 == index <==> 16 * index <= q < 16 * index + 16;
  }

  lemma {:induction false} StillTied(s: Song, q: nat)
    requires ValidSong(s) && Shaped(s) && q < Total(s)
    ensures RepairCell(Before(s, q), CellAt(s, q)) == CellAt(s, q)
  {
    ValidAt(s, q);
    hide CellAt, Before, ValidSong, Sounds;
  }

  lemma {:induction false} NothingRepaired(before: Cell)
    ensures RepairCell(before, []) == []
  {
  }

  lemma {:induction false} AllDetached(cell: Cell)
    ensures Detached(cell, RepairCell([], cell))
  {
  }

  // A tapped page key turns to the next or the previous page, to its first cell, and the held notes follow; at an end it
  // does nothing.
  lemma {:induction false} PageTurns(m: Model, delta: int) returns (codes: seq<nat>)
    requires Framed(m) && m.step >= 0 && (delta == 1 || delta == -1)
    ensures var r, moved := PageChanged(m, delta), m.(page := m.page + delta, step := 0);
      if 0 <= m.page + delta < |m.song.pages|
      then 0 <= m.page * 16 + m.step && r.clearUntil == NO_TIME &&
           exists until :: Follows(moved, r.(clearUntil := until), m.page * 16 + m.step, codes)
      else r == m
  {
    hide *;
    codes := [];
    if 0 <= m.page + delta < |m.song.pages| {
      PageChangedIs(m, delta);
      var moved := m.(page := m.page + delta, step := 0);
      MovedStep(m, m.page + delta);
      codes := HeldNotesFollow(moved, m.page * 16 + m.step);
      Uncleared(Extended(moved, m.page * 16 + m.step));
      PositionIs(m);
    } else {
      PageStays(m, delta);
    }
  }

  lemma {:induction false} PositionIs(m: Model)
    ensures Position(m) == m.page * 16 + m.step
  {
  }

  lemma {:induction false} Uncleared(m: Model)
    ensures m.(clearUntil := NO_TIME).(clearUntil := m.clearUntil) == m
  {
  }

  lemma {:induction false} MovedStep(m: Model, page: int)
    requires Framed(m) && m.step >= 0 && 0 <= page < |m.song.pages|
    ensures Framed(m.(page := page, step := 0)) && 0 <= m.page * 16 + m.step
  {
    hide Shaped;
  }

  // A held page key puts a blank page before or behind the current one, if there are fewer than 64, and stops at its
  // first cell; behind, the held notes follow.
  lemma {:induction false} PageGrows(m: Model, delta: int) returns (moved: Model, codes: seq<nat>)
    requires Framed(m) && m.step >= 0 && m.stepMode && !m.playing && ValidSong(m.song) && (delta == 1 || delta == -1)
    ensures |m.song.pages| >= 64 ==> PageInserted(m, delta) == m
    ensures |m.song.pages| < 64 ==>
      var r, index := PageInserted(m, delta), if delta == 1 then m.page + 1 else m.page;
      && 0 <= index && moved == m.(song := moved.song, page := index, step := 0) && PageAdded(m.song, moved.song, index)
      && r.clearUntil == NO_TIME && r.clearPage == -1 && 0 <= m.page * 16 + m.step
      && exists until, page :: 
           var before := r.(clearUntil := until, clearPage := page);
           if delta == 1 then Follows(moved, before, m.page * 16 + m.step, codes)
           else before == moved.(captures := r.captures) && NothingRemembered(r.captures)
  {
    hide *;
    moved, codes := m, [];
    MaxPages();
    PageInsertedIs(m, delta);
    if |m.song.pages| < 64 {
      var index := if delta > 0 then m.page + 1 else m.page;
      moved := m.(song := Repaired(Inserted(m.song, index)), page := index, step := 0);
      InsertionAdds(m.song, index);
      PositionIs(m);
      if delta == 1 {
        codes := HeldNotesFollow(moved, m.page * 16 + m.step);
        var x := Extended(moved, m.page * 16 + m.step);
        FollowsStepping(moved, x, m.page * 16 + m.step, codes);
        var r := PageInserted(m, delta);
        assert r.(clearUntil := x.clearUntil, clearPage := x.clearPage) == x;
      } else {
        NothingHeldIs(moved);
        var x := TiesCancelled(moved);
        NothingIs(x.captures);
        var r := PageInserted(m, delta);
        assert r.(clearUntil := x.clearUntil, clearPage := x.clearPage) == x;
      }
    }
  }

  lemma {:induction false} MaxPages()
    ensures MAX_PAGES == 64
  {
  }

  lemma {:induction false} FollowsStepping(m: Model, r: Model, from: nat, codes: seq<nat>)
    requires Follows(m, r, from, codes)
    ensures r.playing == m.playing && r.stepMode == m.stepMode
  {
    hide Filled, Recalled, Framed, NothingRemembered;
  }

  // I is the key of the previous page, O that of the next one.
  function TurnOf(code: nat): int {
    if code == 23 then -1 else 1
  }

  // Going down alone, a page key stops the clock at the cell it has reached; a second one beside it spoils the gesture.
  // Going up, it turns the page, or adds one from 0.7 s on, unless the gesture is spoilt; the help keeps both out.
  lemma {:induction false} PageKeys(m: Model, e: Key, now: int) returns (k: nat, p: nat)
    requires Ready(m) && !e.reset && e.code in {23, 24}
    ensures m.playing ==> OnClock(m, now, k, p)
    ensures Framed(m) && (!e.down && m.pageKey == e.code && !m.pageKeyFired ==> m.step >= 0 && m.stepMode && !m.playing)
    ensures var (r, commands, action) := Handled(m, e, now);
      var released := (x: Model) => x.(pageKey := 0, pageKeyAt := NO_TIME, pageKeyFired := false);
      && action == Nothing
      && commands == (if !m.help && e.down && m.pageKey == 0 then [LoopOff({})] else [])
      && r == if m.help then m
              else if e.down then
                if m.pageKey == e.code then m
                else if m.pageKey != 0 then m.(pageKeyFired := true)
                else m.(pageKey := e.code, pageKeyAt := now, pageKeyFired := false, playing := false, stepMode := true,
                        page := if m.playing then p / 16 else m.page, clearUntil := NO_TIME,
                        step := if m.playing then p % 16 else if m.step < 0 then 0 else m.step)
              else if m.pageKey != e.code then m
              else if m.pageKeyFired then released(m)
              else if now - m.pageKeyAt >= 700_000_000 then released(PageInserted(m, TurnOf(e.code)))
              else released(PageChanged(m, TurnOf(e.code)))
  {
    hide *;
    k, p := 0, 0;
    ReadyFacts(m);
    if m.playing {
      k, p := ClockIs(m, now);
    }
    PageKeyEvents(m, e, p, now);
    if !e.down && m.pageKey == e.code && !m.pageKeyFired {
      OpenGesture(m);
    }
  }

  lemma {:induction false} PageKeyEvents(m: Model, e: Key, p: nat, now: int)
    requires Ready(m) && !e.reset && e.code in {23, 24} && (m.playing ==> m.startStep >= 0) && Framed(m)
    requires m.playing ==> Synced(m, now) == m.(page := p / 16, step := p % 16)
    ensures !e.down && m.pageKey == e.code && !m.pageKeyFired ==> m.step >= 0
    ensures Handled(m, e, now) ==
      (if m.help then m
       else if e.down then
         if m.pageKey == e.code then m
         else if m.pageKey != 0 then m.(pageKeyFired := true)
         else m.(pageKey := e.code, pageKeyAt := now, pageKeyFired := false, playing := false, stepMode := true,
                 page := if m.playing then p / 16 else m.page, clearUntil := NO_TIME,
                 step := if m.playing then p % 16 else if m.step < 0 then 0 else m.step)
       else if m.pageKey != e.code then m
       else if m.pageKeyFired then m.(pageKey := 0, pageKeyAt := NO_TIME, pageKeyFired := false)
       else if now - m.pageKeyAt >= 700_000_000 then
         PageInserted(m, TurnOf(e.code)).(pageKey := 0, pageKeyAt := NO_TIME, pageKeyFired := false)
       else PageChanged(m, TurnOf(e.code)).(pageKey := 0, pageKeyAt := NO_TIME, pageKeyFired := false),
       if !m.help && e.down && m.pageKey == 0 then [LoopOff({})] else [], Nothing)
  {
    if m.playing {
      SyncedPressed(m, e.code, now);
    }
    hide Framed, PageInserted, PageChanged, Synced, NotePressed, Recorded, OtherPressed;
  }

  // Pressing a key does not move the clock.
  lemma {:induction false} SyncedPressed(m: Model, code: nat, now: int)
    requires Framed(m) && m.startStep >= 0
    ensures var pressed := m.(pageKey := code, pageKeyAt := now, pageKeyFired := false);
      Framed(pressed) && Synced(pressed, now) == m.(page := Synced(m, now).page, step := Synced(m, now).step,
                                                    pageKey := code, pageKeyAt := now, pageKeyFired := false)
  {
    hide Shaped, StepDuration;
  }

  // A page key still down after 0.7 s adds its page at the next tick, once.
  lemma {:induction false} HeldPageKeyAdds(m: Model, now: int)
    requires Sound(m) && !m.playing
    ensures Ready(m)
    ensures Ticked(m, now).1 == []
    ensures !(m.pageKey != 0 && !m.pageKeyFired && now - m.pageKeyAt >= 700_000_000) ==> Ticked(m, now).0 == m
    ensures m.pageKey != 0 && !m.pageKeyFired && now - m.pageKeyAt >= 700_000_000 ==>
      var f := m.(pageKeyFired := true);
      Framed(f) && f.step >= 0 && f.stepMode && ValidSong(f.song) && Ticked(m, now).0 == PageInserted(f, TurnOf(m.pageKey))
  {
    hide *;
    SoundParts(m);
    HoldIs(m, now);
    if m.pageKey != 0 && !m.pageKeyFired {
      OpenGesture(m);
    }
    HoldSound(m, now);
    SoundParts(HoldChecked(m, now));
    StoppedTick(m, now);
  }

  lemma {:induction false} HoldIs(m: Model, now: int)
    requires Ready(m)
    ensures !(m.pageKey != 0 && !m.pageKeyFired && now - m.pageKeyAt >= 700_000_000) ==> HoldChecked(m, now) == m
    ensures m.pageKey != 0 && !m.pageKeyFired && now - m.pageKeyAt >= 700_000_000 ==>
      var f := m.(pageKeyFired := true); Framed(f) && f.step >= 0 && HoldChecked(m, now) == PageInserted(f, TurnOf(m.pageKey))
    ensures !m.playing ==> !HoldChecked(m, now).playing
  {
    hide Shaped, Total, PageInserted;
  }

  lemma {:induction false} StoppedTick(m: Model, now: int)
    requires Sound(m) && Ready(m) && !HoldChecked(m, now).playing
    ensures Ticked(m, now) == (HoldChecked(m, now), [])
  {
    hide HoldChecked, Ready;
  }
}

/**
  The sequencer object of Pinao/model.go, changing its fields, its song and its
  tables in place; every method does to them what the functions of PinaoModel
  say.
 */
module PinaoSequencer {
  import opened PinaoSong
  import opened PinaoTransport
  import opened PinaoPlaying
  import opened PinaoModel
  import opened PinaoRuns

  class Sequencer {
    const book: SongBook
    const transport: LoopTransport
    const captures: array<Capture>
    var playing: bool
    var recording: bool
    var help: bool
    var stepMode: bool
    var page: int
    var pageKey: nat
    var pageKeyAt: int
    var pageKeyFired: bool
    var step: int
    var startStep: int
    var started: int
    var lastTick: int
    var held: set<nat>
    var clearUntil: int
    var clearPage: int

    predicate Valid()
      reads this, transport
    {
      transport.Valid() && captures.Length == KEY_CODES
    }

    function View(): Model
      reads this, book, transport, transport.notes, transport.active, captures
    {
      Model(book.song, playing, recording, help, stepMode, page, pageKey, pageKeyAt, pageKeyFired, step, startStep,
            started, lastTick, held, captures[..], transport.View(), clearUntil, clearPage)
    }

    constructor (song: Song)
      ensures Valid() && View() == NewModel(song)
      ensures fresh(book) && fresh(transport) && fresh(transport.notes) && fresh(transport.active) && fresh(captures)
    {
      book := new SongBook(song);
      transport := new LoopTransport();
      captures := new Capture[KEY_CODES](_ => NO_CAPTURE);
      playing, recording, help, stepMode := false, false, false, false;
      page, pageKey, pageKeyAt, pageKeyFired := 0, 0, NO_TIME, false;
      step, startStep, started, lastTick := -1, 0, NO_TIME, -1;
      held, clearUntil, clearPage := {}, NO_TIME, 0;
      new;
      assert captures[..] == NoCaptures();
    }

    // ---- Small changes ----

    method CancelTies()
      requires Valid()
      modifies captures
      ensures Valid() && View() == TiesCancelled(old(View()))
    {
      for code := 0 to captures.Length
        invariant forall k :: 0 <= k < code ==> captures[k] == NO_CAPTURE
      {
        captures[code] := NO_CAPTURE;
      }
      assert captures[..] == NoCaptures();
    }

    method CancelPageGesture()
      requires Valid()
      modifies this
      ensures Valid() && View() == GestureCancelled(old(View()))
    {
      pageKey, pageKeyAt, pageKeyFired := 0, NO_TIME, false;
    }

    method Changed()
      requires Valid()
      modifies this
      ensures Valid() && View() == Edited(old(View()))
    {
      clearUntil, clearPage := NO_TIME, -1;
    }

    method MoveTo(nextPage: int, nextStep: int)
      requires Valid()
      modifies this
      ensures Valid() && View() == old(View()).(page := nextPage, step := nextStep)
    {
      page, step := nextPage, nextStep;
    }

    // The automatic clock stops, the cursor stays.
    method Rest()
      requires Valid()
      modifies this
      ensures Valid() && View() == Stepping(old(View()))
    {
      playing, stepMode := false, true;
    }

    method ForgetClear()
      requires Valid()
      modifies this
      ensures Valid() && View() == old(View()).(clearUntil := NO_TIME)
    {
      clearUntil := NO_TIME;
    }

    // clear(m.Held)
    method ReleaseAll()
      requires Valid()
      modifies this
      ensures Valid() && View() == old(View()).(held := {})
    {
      held := {};
    }

    method StartFrom(now: int, at: int)
      requires Valid()
      modifies this, transport, captures
      ensures Valid() && View() == StartedFrom(old(View()), now, at)
    {
      CancelTies();
      transport.valid := false;
      playing, stepMode := true, false;
      started, lastTick := now, -1;
      startStep := page * 16 + at % 16;
      step := startStep % 16;
    }

    method Stop()
      requires Valid()
      modifies this, transport, captures
      ensures Valid() && View() == Stopped(old(View()))
    {
      CancelTies();
      transport.valid := false;
      playing, recording, stepMode := false, false, false;
      step := -1;
    }

    method SyncPosition(now: int)
      requires Valid() && Framed(View()) && View().startStep >= 0
      modifies this
      ensures Valid() && View() == Synced(old(View()), now)
    {
      hide ClockPosition;
      var position := ClockPosition(View(), now);
      page, step := position / 16, position % 16;
    }

    // ---- Recording and held notes ----

    static method FindRecorded(cell: Cell, h: Hit) returns (i: int)
      ensures i == RecordIndex(cell, h)
    {
      i := 0;
      while i < |cell|
        invariant 0 <= i <= |cell|
        invariant forall k :: 0 <= k < i ==> cell[k] != h && !SameNote(cell[k], h)
      {
        if cell[i] == h || SameNote(cell[i], h) {
          return;
        }
        i := i + 1;
      }
      return -1;
    }

    method Record(h: Hit, now: int)
      requires Valid() && Ready(View())
      modifies this, book
      ensures Valid() && View() == Recorded(old(View()), h, now)
    {
      if !recording {
        return;
      }
      hide RecordPosition, Ready, CellAt;
      var pos := RecordPosition(View(), now);
      RecordPlace(View(), pos);
      var notes := book.song.pages[pos / 16][pos % 16];
      var i := FindRecorded(notes, h);
      var after := if i >= 0 then notes[i := h] else if |notes| >= 8 then notes else notes + [h];
      assert after == RecordedCell(notes, h);
      if after == notes {
        return;
      }
      book.song := WithCell(book.song, pos, after);
      Changed();
    }

    static lemma {:induction false} RecordPlace(m: Model, pos: nat)
      requires Ready(m) && pos < Total(m.song)
      ensures pos / 16 < |m.song.pages| && |m.song.pages[pos / 16]| == 16 && Shaped(m.song)
      ensures m.song.pages[pos / 16][pos % 16] == CellAt(m.song, pos)
    {
    }

    // extendHeld
    method ExtendHeld(from: nat)
      requires Valid() && Framed(View()) && View().step >= 0
      modifies this, book, captures
      ensures Valid() && View() == Extended(old(View()), from)
    {
      hide *;
      var forward := StepsForward(from);
      if !forward {
        CancelTies();
        return;
      }
      ghost var start := View();
      for code := 0 to 128
        invariant Valid() && Framed(View()) && View().step >= 0
        invariant from < Total(View().song) && Total(View().song) == Total(start.song) && code <= KEY_CODES == 128
        invariant ExtendFrom(View(), from, code) == ExtendFrom(start, from, 0)
      {
        ExtendStep(View(), from, code);
        ExtendKey(from, code);
      }
      ExtendDone(View(), from);
    }

    // Whether a recorded step moved on by exactly one cell.
    method StepsForward(from: nat) returns (forward: bool)
      requires Valid() && Framed(View()) && View().step >= 0
      ensures forward ==> from < Total(View().song) && KEY_CODES == 128 && Extended(View(), from) == ExtendFrom(View(), from, 0)
      ensures !forward ==> Extended(View(), from) == TiesCancelled(View())
    {
      forward := recording && stepMode && page * 16 + step == from + 1;
      if forward {
        PositionInSong(View());
      }
      hide ExtendFrom, NoCaptures, Shaped;
    }

    static lemma {:induction false} ExtendStep(m: Model, from: nat, code: nat)
      requires Framed(m) && m.step >= 0 && from < Total(m.song) && code < KEY_CODES
      ensures ExtendFrom(m, from, code) == ExtendFrom(ExtendOne(m, from, code), from, code + 1)
      ensures Total(ExtendOne(m, from, code).song) == Total(m.song) && ExtendOne(m, from, code).step == m.step
    {
      hide ExtendOne;
    }

    static lemma {:induction false} ExtendDone(m: Model, from: nat)
      requires Framed(m) && m.step >= 0 && from < Total(m.song)
      ensures ExtendFrom(m, from, KEY_CODES) == m
    {
    }

    method ExtendKey(from: nat, code: nat)
      requires Valid() && Framed(View()) && View().step >= 0 && from < Total(View().song) && code < KEY_CODES
      modifies this, book, captures
      ensures Valid() && View() == ExtendOne(old(View()), from, code)
    {
      hide *;
      var c, isHeld, earlier, cell, to := LookUp(from, code);
      ExtendOneIs(View(), from, code, earlier, cell, to);
      if !isHeld || !c.valid || c.position != from {
        SetCapture(code, c.(valid := false));
        return;
      }
      var found := FindNote(earlier, c.hit);
      if found < 0 {
        SetCapture(code, c.(valid := false));
        return;
      }
      var i := FindNote(cell, c.hit);
      if i >= 0 {
        SetCapture(code, c.(valid := cell[i].tie, position := to));
      } else if |cell| >= 8 {
        SetCapture(code, c.(valid := false));
      } else {
        AddTie(to, cell, c.hit.(tie := true));
        SetCapture(code, c.(position := to));
        Changed();
      }
    }

    method LookUp(from: nat, code: nat) returns (c: Capture, isHeld: bool, earlier: Cell, cell: Cell, to: nat)
      requires Valid() && Framed(View()) && View().step >= 0 && from < Total(View().song) && code < KEY_CODES
      ensures Shaped(View().song) && |View().captures| == KEY_CODES && code < |View().captures|
      ensures c == View().captures[code] && (isHeld <==> code in View().held)
      ensures to == View().page * 16 + View().step && to < Total(View().song)
      ensures earlier == CellAt(View().song, from) && cell == CellAt(View().song, to)
    {
      hide CellAt, Total;
      ExtendPlaces(View(), from);
      c, isHeld := captures[code], code in held;
      earlier, cell, to := book.song.pages[from / 16][from % 16], book.song.pages[page][step], page * 16 + step;
    }

    method AddTie(to: nat, cell: Cell, h: Hit)
      requires Valid() && Shaped(View().song) && to < Total(View().song)
      modifies book
      ensures Valid() && View() == old(View()).(song := WithCell(old(View()).song, to, cell + [h]).(format := 3))
    {
      hide WithCell;
      book.song := WithCell(book.song, to, cell + [h]).(format := 3);
    }

    static lemma {:induction false} ExtendPlaces(m: Model, from: nat)
      requires Framed(m) && m.step >= 0 && from < Total(m.song)
      ensures Shaped(m.song) && from / 16 < |m.song.pages| && |m.song.pages[from / 16]| == 16
      ensures m.page < |m.song.pages| && 0 <= m.page && m.step < |m.song.pages[m.page]| && 0 <= m.page * 16 + m.step < Total(m.song)
      ensures m.song.pages[from / 16][from % 16] == CellAt(m.song, from)
      ensures m.song.pages[m.page][m.step] == CellAt(m.song, m.page * 16 + m.step)
    {
      PositionInSong(m);
      SongPlace(m.song, from);
    }

    static lemma {:induction false} ExtendOneIs(m: Model, from: nat, code: nat, earlier: Cell, cell: Cell, to: int)
      requires Framed(m) && m.step >= 0 && from < Total(m.song) && code < KEY_CODES && Shaped(m.song)
      requires earlier == CellAt(m.song, from) && to == m.page * 16 + m.step && 0 <= to < Total(m.song)
      requires cell == CellAt(m.song, to)
      ensures var c, i := m.captures[code], NoteIndex(cell, m.captures[code].hit);
        ExtendOne(m, from, code) ==
          if code !in m.held || !c.valid || c.position != from || NoteIndex(earlier, c.hit) < 0
          then m.(captures := m.captures[code := c.(valid := false)])
          else if i >= 0 then m.(captures := m.captures[code := c.(valid := cell[i].tie, position := to)])
          else if |cell| >= 8 then m.(captures := m.captures[code := c.(valid := false)])
          else Edited(m.(song := WithCell(m.song, to, cell + [c.hit.(tie := true)]).(format := 3),
                         captures := m.captures[code := c.(position := to)]))
    {
      hide CellAt, WithCell, NoteIndex, Shaped;
    }

    static lemma {:induction false} SongPlace(s: Song, pos: nat)
      requires Shaped(s) && pos < Total(s)
      ensures pos / 16 < |s.pages| && |s.pages[pos / 16]| == 16 && s.pages[pos / 16][pos % 16] == CellAt(s, pos)
    {
    }

    method SetCapture(code: nat, c: Capture)
      requires Valid() && code < KEY_CODES
      modifies captures
      ensures Valid() && View() == old(View()).(captures := old(View()).captures[code := c])
    {
      captures[code] := c;
      assert captures[..] == old(captures[..])[code := c];
    }

    // ---- Pages ----

    method ChangePage(delta: int)
      requires Valid() && Framed(View()) && View().step >= 0
      modifies this, book, captures
      ensures Valid() && View() == PageChanged(old(View()), delta)
    {
      hide *;
      var found, next, from := Neighbour(delta);
      if !found {
        return;
      }
      MoveTo(next, 0);
      ExtendHeld(from);
      ForgetClear();
    }

    method Neighbour(delta: int) returns (found: bool, next: int, from: nat)
      requires Valid() && Framed(View()) && View().step >= 0
      ensures !found ==> PageChanged(View(), delta) == View()
      ensures found ==> Framed(View().(page := next, step := 0))
      ensures found ==> PageChanged(View(), delta) == Extended(View().(page := next, step := 0), from).(clearUntil := NO_TIME)
    {
      hide Extended, Shaped;
      next, from := page + delta, page * 16 + step;
      found := !(next < 0 || next >= |book.song.pages|);
    }

    method InsertPage(delta: int)
      requires Valid() && Framed(View()) && View().step >= 0
      modifies this, book, captures
      ensures Valid() && View() == PageInserted(old(View()), delta)
    {
      hide *;
      var room, index, from := RoomForPage(delta);
      if !room {
        return;
      }
      BlankPageAt(index);
      MoveTo(index, 0);
      if delta > 0 {
        ExtendHeld(from);
      } else {
        CancelTies();
      }
      Rest();
      Changed();
    }

    method RoomForPage(delta: int) returns (room: bool, index: nat, from: nat)
      requires Valid() && Framed(View()) && View().step >= 0
      ensures !room ==> PageInserted(View(), delta) == View()
      ensures room ==>
        && Shaped(View().song) && index <= |View().song.pages|
        && var moved := View().(song := Repaired(Inserted(View().song, index)), page := index, step := 0);
           && Framed(moved) && moved.step >= 0
           && PageInserted(View(), delta) ==
              Edited(Stepping(if delta > 0 then Extended(moved, from) else TiesCancelled(moved)))
    {
      hide Repaired, Extended, Inserted, NoCaptures;
      room := |book.song.pages| < MAX_PAGES;
      index, from := page, page * 16 + step;
      if delta > 0 {
        index := index + 1;
      }
      if room {
        InsertedIs(View(), delta, index, from);
      }
    }

    method BlankPageAt(index: nat)
      requires Valid() && Shaped(View().song) && index <= |View().song.pages|
      modifies book
      ensures Valid() && View() == old(View()).(song := Repaired(Inserted(old(View()).song, index)))
    {
      hide Repaired, Inserted;
      book.MakeRoom(index);
      book.RepairTies();
    }

    static lemma {:induction false} InsertedIs(m: Model, delta: int, index: int, from: int)
      requires Framed(m) && m.step >= 0 && |m.song.pages| < MAX_PAGES
      requires index == (if delta > 0 then m.page + 1 else m.page) && from == m.page * 16 + m.step
      ensures Shaped(m.song) && 0 <= index <= |m.song.pages| && from >= 0
      ensures var moved := m.(song := Repaired(Inserted(m.song, index)), page := index, step := 0);
              Framed(moved) &&
              PageInserted(m, delta) == Edited(Stepping(if delta > 0 then Extended(moved, from) else TiesCancelled(moved)))
    {
      hide Repaired, Extended;
    }

    method HandlePageKey(e: Key, now: int) returns (cmds: seq<Command>)
      requires Valid() && Ready(View()) && (e.code == KEY_I || e.code == KEY_O)
      modifies this, book, captures
      ensures Valid() && (View(), cmds) == PageKeyHandled(old(View()), e, now)
    {
      hide PageInserted, PageChanged, Synced, Framed, Total, Direction;
      cmds := [];
      if e.down {
        if pageKey != 0 {
          if pageKey != e.code {
            pageKeyFired := true;
          }
          return;
        }
        PressPage(e.code, now);
        return [LoopOff({})];
      }
      if e.code != pageKey {
        return;
      }
      ReleasePage(e.code, now);
    }

    method PressPage(code: nat, now: int)
      requires Valid() && Ready(View())
      modifies this
      ensures Valid()
      ensures var pressed := old(View()).(pageKey := code, pageKeyAt := now, pageKeyFired := false);
              && Framed(pressed) && (old(View()).playing ==> old(View()).startStep >= 0)
              && var synced := if old(View()).playing then Synced(pressed, now) else pressed;
                 View() == Stepping(synced).(step := if synced.step < 0 then 0 else synced.step, clearUntil := NO_TIME)
    {
      hide *;
      PressedFrame(View(), code, now);
      BeginGesture(code, now);
      SyncIfPlaying(now);
      SteppingKeepsStep(View());
      Rest();
      ToFirstStep();
      ForgetClear();
    }

    static lemma {:induction false} SteppingKeepsStep(m: Model)
      ensures Stepping(m).step == m.step
    {
    }

    method BeginGesture(code: nat, now: int)
      requires Valid()
      modifies this
      ensures Valid() && View() == old(View()).(pageKey := code, pageKeyAt := now, pageKeyFired := false)
    {
      pageKey, pageKeyAt, pageKeyFired := code, now, false;
    }

    method SyncIfPlaying(now: int)
      requires Valid() && Framed(View()) && (View().playing ==> View().startStep >= 0)
      modifies this
      ensures Valid() && View() == if old(View()).playing then Synced(old(View()), now) else old(View())
    {
      hide Synced, Shaped;
      if playing {
        SyncPosition(now);
      }
    }

    method ToFirstStep()
      requires Valid()
      modifies this
      ensures Valid() && View() == old(View()).(step := if old(View()).step < 0 then 0 else old(View()).step)
    {
      if step < 0 {
        step := 0;
      }
    }

    method ReleasePage(code: nat, now: int)
      requires Valid() && Ready(View()) && code == View().pageKey && code != 0
      modifies this, book, captures
      ensures Valid() && Framed(old(View())) && (!old(View()).pageKeyFired ==> old(View()).step >= 0)
      ensures View() == GestureCancelled(
                if old(View()).pageKeyFired then old(View())
                else if now - old(View()).pageKeyAt >= PAGE_HOLD then PageInserted(old(View()), Direction(code))
                else PageChanged(old(View()), Direction(code)))
    {
      if !pageKeyFired {
        OpenGesture(View());
        if now - pageKeyAt >= PAGE_HOLD {
          InsertPage(Direction(code));
        } else {
          ChangePage(Direction(code));
        }
      }
      hide PageInserted, PageChanged, Framed, Direction;
      CancelPageGesture();
    }

    static lemma {:induction false} PressedFrame(m: Model, code: nat, now: int)
      requires Ready(m)
      ensures Framed(m.(pageKey := code, pageKeyAt := now, pageKeyFired := false)) && (m.playing ==> m.startStep >= 0)
    {
      hide Shaped, Total;
    }

    method CheckPageHold(now: int)
      requires Valid() && Ready(View())
      modifies this, book, captures
      ensures Valid() && View() == HoldChecked(old(View()), now)
    {
      hide PageInserted, Framed, Total;
      if pageKey != 0 && !pageKeyFired && now - pageKeyAt >= PAGE_HOLD {
        FiredFrame(View());
        pageKeyFired := true;
        InsertPage(Direction(pageKey));
      }
    }

    static lemma {:induction false} FiredFrame(m: Model)
      requires Framed(m)
      ensures Framed(m.(pageKeyFired := true))
    {
    }

    // ---- Steps and tempo ----

    method SelectStep(delta: int, now: int)
      requires Valid() && Ready(View())
      modifies this, book, captures
      ensures Valid() && View() == StepSelected(old(View()), delta, now)
    {
      hide Extended, Synced, Shaped, Total;
      var manual := stepMode;
      var from := page * 16 + step;
      if playing {
        SyncPosition(now);
      }
      if step < 0 {
        step := 0;
      } else {
        step := (step + delta) % 16;
      }
      playing, stepMode := false, true;
      if manual {
        ExtendHeld(from);
      } else {
        CancelTies();
      }
    }

    method SetBpm(bpm: int, now: int)
      requires Valid() && Ready(View()) && 60 <= bpm <= 180
      modifies this, book, transport, captures
      ensures Valid() && View() == TempoSet(old(View()), bpm, now)
    {
      hide *;
      var same, moving := TempoCases(bpm, now);
      if same {
        return;
      }
      if moving {
        var phase, played, preserve, previous := Clock(bpm, now);
        TempoIs(View(), bpm, now, phase, played, preserve);
        SyncPosition(now);
        RetimedFrame(View(), bpm);
        var at := CurrentStep();
        ChangeTempo(bpm);
        StartFrom(now - phase, at);
        if preserve {
          RestoreTransport(previous);
        }
        if played {
          MarkPlayed();
        }
      } else {
        ChangeTempo(bpm);
      }
      Changed();
    }

    method TempoCases(bpm: int, now: int) returns (same: bool, moving: bool)
      requires Valid() && Ready(View()) && 60 <= bpm <= 180
      ensures same ==> TempoSet(View(), bpm, now) == View()
      ensures !same && !moving ==> TempoSet(View(), bpm, now) == Edited(View().(song := View().song.(bpm := bpm)))
      ensures !same && moving ==> View().playing && bpm != View().song.bpm && Framed(View()) && View().startStep >= 0
    {
      hide Synced, StartedFrom, ClockTick, StepDuration, Elapsed, Framed, Total;
      same, moving := bpm == book.song.bpm, playing;
    }

    // What is kept of the old clock.
    method Clock(bpm: int, now: int) returns (phase: int, played: bool, preserve: bool, previous: bool)
      requires Valid() && Framed(View()) && 60 <= bpm <= 180
      ensures 60 <= View().song.bpm <= 180 && StepDuration(View().song.bpm) > 0
      ensures phase == Elapsed(View(), now) % StepDuration(View().song.bpm) * StepDuration(bpm) / StepDuration(View().song.bpm)
      ensures (played <==> ClockTick(View(), now) <= View().lastTick)
      ensures (preserve <==> ClockTick(View(), now) <= View().lastTick + 1) && previous == View().transport.valid
    {
      hide ClockTick, StepDuration, Elapsed, Shaped;
      DurationOf(book.song.bpm);
      var before := StepDuration(book.song.bpm);
      phase := Elapsed(View(), now) % before * StepDuration(bpm) / before;
      var tick := ClockTick(View(), now);
      played, preserve, previous := tick <= lastTick, tick <= lastTick + 1, transport.valid;
    }

    static lemma {:induction false} TempoIs(m: Model, bpm: int, now: int, phase: int, played: bool, preserve: bool)
      requires Ready(m) && Framed(m) && m.startStep >= 0 && m.playing && 60 <= bpm <= 180 && bpm != m.song.bpm
      requires 60 <= m.song.bpm <= 180 && StepDuration(m.song.bpm) > 0
      requires phase == Elapsed(m, now) % StepDuration(m.song.bpm) * StepDuration(bpm) / StepDuration(m.song.bpm)
      requires played <==> ClockTick(m, now) <= m.lastTick
      requires preserve <==> ClockTick(m, now) <= m.lastTick + 1
      ensures var synced := Synced(m, now);
              var r := StartedFrom(synced.(song := synced.song.(bpm := bpm)), now - phase, synced.step);
              var kept := if preserve then r.(transport := r.transport.(valid := m.transport.valid)) else r;
              TempoSet(m, bpm, now) == Edited(if played then kept.(lastTick := 0) else kept)
    {
      SyncedFacts(m, now);
      var synced := Synced(m, now);
      assert synced.song == m.song;
      assert m.transport.(valid := false).(valid := m.transport.valid) == m.transport;
      hide Synced, ClockTick, StepDuration, Elapsed, Framed, Total, NoCaptures, ClockPosition;
    }

    static lemma {:induction false} RetimedFrame(m: Model, bpm: int)
      ensures m.(song := m.song.(bpm := bpm)).step == m.step
    {
    }

    method CurrentStep() returns (at: int)
      ensures at == View().step
    {
      at := step;
    }

    method ChangeTempo(bpm: int)
      requires Valid()
      modifies book
      ensures Valid() && View() == old(View()).(song := old(View()).song.(bpm := bpm))
    {
      book.song := book.song.(bpm := bpm);
    }

    method RestoreTransport(previous: bool)
      requires Valid()
      modifies transport
      ensures Valid() && View() == old(View()).(transport := old(View()).transport.(valid := previous))
    {
      transport.valid := previous;
    }

    method MarkPlayed()
      requires Valid()
      modifies this
      ensures Valid() && View() == old(View()).(lastTick := 0)
    {
      lastTick := 0;
    }

    static lemma {:induction false} DurationOf(bpm: int)
      requires 60 <= bpm <= 180
      ensures StepDuration(bpm) > 0
    {
    }

    // ---- Keys ----

    method ReleaseKey(code: nat) returns (cmds: seq<Command>)
      requires Valid()
      modifies this, captures
      ensures Valid() && (View(), cmds) == Released(old(View()), code)
    {
      if code !in held {
        return [];
      }
      held := held - {code};
      if code < KEY_CODES {
        captures[code] := captures[code].(valid := false);
        assert captures[..] == old(captures[..])[code := old(captures[code]).(valid := false)];
      }
      return [Off(code)];
    }

    method PressNote(code: nat, now: int) returns (cmds: seq<Command>)
      requires Valid() && Ready(View()) && NoteOf(code) >= 0
      modifies this, book, captures
      ensures Valid() && (View(), cmds) == NotePressed(old(View()), code, now)
    {
      hide Ready, Recorded, NoteIndex, Shaped;
      if code in held {
        return [];
      }
      var h := Hit(12 * (book.song.octave + 1) + NoteOf(code), book.song.tone, 0, false);
      HeldKeepsReady(View(), held + {code});
      held := held + {code};
      cmds := [On(code, h.midi, h.tone)];
      Record(h, now);
      CaptureNote(code, h);
    }

    // Remembers a recorded key that is still held.
    method CaptureNote(code: nat, h: Hit)
      requires Valid() && Ready(View()) && code < KEY_CODES
      modifies captures
      ensures Valid() && Shaped(old(View()).song) && |old(View()).captures| == KEY_CODES && 0 <= old(View()).page < |old(View()).song.pages|
      ensures old(View()).stepMode ==> 0 <= old(View()).step < STEPS
      ensures View() ==
        if old(View()).recording && old(View()).stepMode &&
           NoteIndex(old(View()).song.pages[old(View()).page][old(View()).step], h) >= 0
        then old(View()).(captures := old(View()).captures[code := Capture(h, Position(old(View())), true)])
        else old(View())
    {
      hide NoteIndex;
      if recording && stepMode {
        var i := FindNote(book.song.pages[page][step], h);
        if i >= 0 {
          SetCapture(code, Capture(h, page * 16 + step, true));
        }
      }
    }

    method PressSpace(now: int) returns (cmds: seq<Command>)
      requires Valid() && Ready(View())
      modifies this, transport, captures
      ensures Valid() && (View(), cmds) == SpacePressed(old(View()), now)
    {
      hide StartedFrom, Stopped, Synced, Shaped, Total;
      cmds := [];
      if stepMode {
        StartFrom(now, step);
      } else if playing && recording {
        SyncPosition(now);
        Rest();
        cmds := [LoopOff({})];
      } else if playing {
        SyncPosition(now);
        Stop();
        cmds := [LoopOff({})];
      } else {
        StartFrom(now, 0);
      }
    }

    method PressRecord(now: int)
      requires Valid()
      modifies this, transport, captures
      ensures Valid() && View() == RecordPressed(old(View()), now)
    {
      hide StartedFrom, NoCaptures;
      recording := !recording;
      CancelTies();
      if recording && !playing {
        if stepMode {
          StartFrom(now, step);
        } else {
          StartFrom(now, 0);
        }
      }
    }

    method ClearProject()
      requires Valid()
      modifies this, book, transport, captures
      ensures Valid() && View() == Cleared(old(View()))
    {
      hide Stopped, EmptyPages;
      book.song := EmptyPages(book.song);
      page := 0;
      Stop();
      Changed();
    }

    method EraseCell() returns (empty: bool)
      requires Valid() && Framed(View()) && View().step >= 0
      modifies this, book
      ensures Valid() && View() == ErasedOf(old(View()))
    {
      hide Repaired, WithCell, CellAt, Total;
      PositionInSong(View());
      empty := book.song.pages[page][step] == [];
      if !empty {
        book.song := WithCell(book.song, page * 16 + step, []);
        book.RepairTies();
        Changed();
      }
    }

    method ArmClear(now: int)
      requires Valid()
      modifies this
      ensures Valid() && View() == old(View()).(clearPage := old(View()).page, clearUntil := now + CLEAR_WINDOW)
    {
      clearPage, clearUntil := page, now + CLEAR_WINDOW;
    }

    method PressDelete(now: int) returns (cmds: seq<Command>)
      requires Valid() && Ready(View())
      modifies this, book, transport, captures
      ensures Valid() && (View(), cmds) == DeletePressed(old(View()), now)
    {
      hide *;
      DeleteIs(View(), now);
      CancelTies();
      SyncIfPlaying(now);
      var confirmed, stepping := ClearState(now);
      if confirmed {
        ClearProject();
        return [LoopOff({})];
      }
      if stepping {
        ghost var at := View();
        var empty := EraseCell();
        ErasedPage(at);
        ArmClear(now);
        return [LoopOff({})];
      }
      ArmClear(now);
      cmds := [];
    }

    method ClearState(now: int) returns (confirmed: bool, stepping: bool)
      requires Valid()
      ensures confirmed <==> now < View().clearUntil && View().clearPage == View().page
      ensures stepping <==> View().stepMode && View().step >= 0
    {
      confirmed, stepping := now < clearUntil && clearPage == page, stepMode && step >= 0;
    }

    static lemma {:induction false} ErasedPage(m: Model)
      requires Framed(m) && m.step >= 0
      ensures ErasedOf(m).page == m.page
    {
      hide Repaired, WithCell, Total, CellAt;
    }

    static ghost function ErasedOf(m: Model): Model
      requires Framed(m) && m.step >= 0
    {
      PositionInSong(m);
      if CellAt(m.song, Position(m)) == [] then m else Edited(m.(song := Repaired(WithCell(m.song, Position(m), []))))
    }

    // What Delete does, with the synced state named.
    static lemma {:induction false} DeleteIs(m: Model, now: int)
      requires Ready(m)
      ensures Framed(TiesCancelled(m)) && (TiesCancelled(m).playing ==> TiesCancelled(m).startStep >= 0)
      ensures var quiet := TiesCancelled(m);
              var at := if quiet.playing then Synced(quiet, now) else quiet;
              Framed(at) &&
              DeletePressed(m, now) ==
                if now < at.clearUntil && at.clearPage == at.page then (Cleared(at), [LoopOff({})])
                else if at.stepMode && at.step >= 0 then
                  (ErasedOf(at).(clearPage := at.page, clearUntil := now + CLEAR_WINDOW), [LoopOff({})])
                else (at.(clearPage := at.page, clearUntil := now + CLEAR_WINDOW), [])
    {
      if m.playing {
        SyncedFacts(TiesCancelled(m), now);
      }
      hide Synced, Repaired, WithCell, CellAt, Cleared, NoCaptures, Total;
    }

    method SetSong(next: Song)
      requires Valid()
      modifies this, book
      ensures Valid() && View() == Edited(old(View()).(song := next))
    {
      book.song := next;
      Changed();
    }

    // Sound settings, tempo, modes, moves and file actions.
    method PressOther(code: nat, now: int) returns (cmds: seq<Command>, action: Action)
      requires Valid() && Ready(View())
      modifies this, book, transport, transport.notes, transport.active, captures
      ensures Valid() && (View(), cmds, action) == OtherPressed(old(View()), code, now)
    {
      hide SpacePressed, RecordPressed, StepSelected, TempoSet, DeletePressed, Edited, Ready;
      cmds, action := [], Nothing;
      var s := book.song;
      if code == 57 {
        cmds := PressSpace(now);
      } else if code == 19 {
        PressRecord(now);
      } else if code == 16 || code == 15 {
        SetSong(s.(tone := (s.tone + 1) % 3));
      } else if code == 44 {
        if s.octave > 3 {
          SetSong(s.(octave := s.octave - 1));
        }
      } else if code == 45 {
        if s.octave < 6 {
          SetSong(s.(octave := s.octave + 1));
        }
      } else if code == 105 || code == 106 {
        var delta := 1;
        if code == 105 {
          delta := -1;
        }
        SelectStep(delta, now);
        cmds := [LoopOff({})];
      } else if code == 103 || code == 108 {
        var bpm := s.bpm;
        if code == 103 {
          bpm := bpm + 5;
        } else {
          bpm := bpm - 5;
        }
        SetBpm(Clamp(60, bpm, 180), now);
      } else if code == 114 || code == 115 {
        var v := s.volume;
        if code == 115 {
          v := v + 5;
        } else {
          v := v - 5;
        }
        SetSong(s.(volume := Clamp(0, v, 100)));
        cmds := [Volume(Clamp(0, v, 100))];
      } else if code == 25 {
        action := Export;
      } else if code == 28 || code == 352 {
        action := Save;
      } else if code == 14 || code == 111 {
        cmds := PressDelete(now);
      }
    }

    // model.handle
    method Handle(e: Key, now: int) returns (cmds: seq<Command>, action: Action)
      requires Valid() && Ready(View())
      modifies this, book, transport, transport.notes, transport.active, captures
      ensures Valid() && (View(), cmds, action) == Handled(old(View()), e, now)
    {
      hide PageKeyHandled, Released, NotePressed, Recorded, OtherPressed, TiesCancelled, NoteOf, DrumOf, Framed, Total;
      cmds, action := [], Nothing;
      if e.reset {
        CancelTies();
        CancelPageGesture();
        held := {};
        return [OffAll], Nothing;
      }
      if e.code == 143 || e.code == 116 {
        CancelPageGesture();
        return;
      }
      if e.code == KEY_I || e.code == KEY_O {
        if !help {
          cmds := HandlePageKey(e, now);
        }
        return;
      }
      FiredReady(View());
      if e.down && pageKey != 0 {
        pageKeyFired := true;
      }
      if !e.down {
        cmds := ReleaseKey(e.code);
        return;
      }
      cmds, action := HandleDown(e.code, now);
    }

    static lemma {:induction false} FiredReady(m: Model)
      requires Ready(m)
      ensures Ready(m.(pageKeyFired := m.pageKeyFired || m.pageKey != 0))
    {
      hide Shaped, Total;
    }

    // The rest of handle: a key going down that is no page key.
    method HandleDown(code: nat, now: int) returns (cmds: seq<Command>, action: Action)
      requires Valid() && Ready(View())
      modifies this, book, transport, transport.notes, transport.active, captures
      ensures Valid()
      ensures var m := old(View());
        (View(), cmds, action) ==
          if code == 102 || code == 158 || code == 1 then (m, [], Exit)
          else if code == 38 || code == 53 then (GestureCancelled(TiesCancelled(m)).(help := !m.help), [], Nothing)
          else if m.help then (m, [], Nothing)
          else if NoteOf(code) >= 0 then (NotePressed(m, code, now).0, NotePressed(m, code, now).1, Nothing)
          else if DrumOf(code) >= 0 then
            (Recorded(m, Hit(0, 0, DrumOf(code) + 1, false), now), [Drum(200 + DrumOf(code), DrumOf(code))], Nothing)
          else OtherPressed(m, code, now)
    {
      hide NotePressed, Recorded, OtherPressed, TiesCancelled, NoteOf, DrumOf, Ready;
      cmds, action := [], Nothing;
      if code == 102 || code == 158 || code == 1 {
        return [], Exit;
      }
      if code == 38 || code == 53 {
        CancelTies();
        CancelPageGesture();
        help := !help;
        return;
      }
      if help {
        return;
      }
      if NoteOf(code) >= 0 {
        cmds := PressNote(code, now);
        return;
      }
      var drum := DrumOf(code);
      if drum >= 0 {
        Record(Hit(0, 0, drum + 1, false), now);
        return [Drum(200 + drum, drum)], Nothing;
      }
      cmds, action := PressOther(code, now);
    }

    // ---- The clock ----

    // model.tick
    method Tick(now: int) returns (cmds: seq<Command>)
      requires Valid() && Sound(View())
      modifies this, book, transport, transport.notes, transport.active, captures
      ensures Valid() && (View(), cmds) == Ticked(old(View()), now)
    {
      hide *;
      SoundParts(View());
      HoldSound(View(), now);
      CheckPageHold(now);
      SoundParts(View());
      var due := Due(now);
      if !due {
        TickQuiet(old(View()), now);
        return [];
      }
      CellSize(View(), now);
      TickDue(old(View()), now);
      cmds := PlayCell(now);
    }

    method Due(now: int) returns (due: bool)
      requires Valid() && Framed(View())
      ensures 60 <= View().song.bpm <= 180 && Shaped(View().song)
      ensures due <==> View().playing && ClockTick(View(), now) > View().lastTick
    {
      hide ClockTick, Shaped;
      due := playing && ClockTick(View(), now) > lastTick;
    }

    static lemma {:induction false} TickQuiet(m: Model, now: int)
      requires Sound(m) && Ready(m) && Sound(HoldChecked(m, now)) && 60 <= HoldChecked(m, now).song.bpm <= 180
      requires var h := HoldChecked(m, now); !(h.playing && ClockTick(h, now) > h.lastTick)
      ensures Ticked(m, now) == (HoldChecked(m, now), [])
    {
      hide HoldChecked, ClockTick, PlayedAt, Sound, Framed;
    }

    static lemma {:induction false} TickDue(m: Model, now: int)
      requires Sound(m) && Ready(m) && Framed(HoldChecked(m, now)) && HoldChecked(m, now).startStep >= 0
      requires var h := HoldChecked(m, now);
        60 <= h.song.bpm <= 180 && h.playing && ClockTick(h, now) > h.lastTick && Shaped(h.song) &&
        |CellAt(h.song, ClockPosition(h, now))| <= VOICE_COUNT
      ensures Ticked(m, now) == PlayedAt(HoldChecked(m, now), now)
    {
      hide HoldChecked, ClockTick, PlayedAt, Sound, Framed, ClockPosition, CellAt, Shaped;
    }

    method PlayCell(now: int) returns (cmds: seq<Command>)
      requires Valid() && Framed(View()) && View().startStep >= 0 && Shaped(View().song)
      requires |CellAt(View().song, ClockPosition(View(), now))| <= VOICE_COUNT
      modifies this, transport, transport.notes, transport.active
      ensures Valid() && (View(), cmds) == PlayedAt(old(View()), now)
    {
      hide ClockPosition, CellAt, ClockTick, Shaped, AfterCell, Commands;
      var tick := ClockTick(View(), now);
      var contiguous := tick == lastTick + 1;
      SyncedFacts(View(), now);
      SongPlace(book.song, ClockPosition(View(), now));
      SyncPosition(now);
      lastTick := tick;
      var at := page * 16 + step;
      var cell := book.song.pages[at / 16][at % 16];
      cmds := transport.PlanCommands(cell, at, contiguous);
    }
  }
}

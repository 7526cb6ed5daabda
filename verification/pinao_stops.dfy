/**
  Space, record and delete on the sequencer's panel.
 */
module PinaoStops {
  import opened PinaoSong
  import opened PinaoTransport
  import opened PinaoModel
  import opened PinaoRuns
  import opened PinaoPresses
  import opened PinaoHeld
  import opened PinaoMoves

  // ---- Space, record, delete ----

  // Playing from a cell of the current page: the clock starts at now, nothing has been played and nothing is remembered.
  predicate PlaysFrom(m: Model, r: Model, now: int, step: int) {
    && r == m.(playing := true, stepMode := false, started := now, lastTick := -1, startStep := m.page * 16 + step, step := step,
               transport := m.transport.(valid := false), captures := r.captures)
    && NothingRemembered(r.captures)
  }

  // Space plays on from the cursor in step mode, pauses a recording at the cell the clock has reached, ends playback on
  // its page, or plays the page from its first cell. Whenever the clock stops, so do the notes it plays.
  lemma {:induction false} SpaceKey(m: Model, e: Key, now: int) returns (k: nat, p: nat)
    requires Ready(m) && !e.reset && e.down && !m.help && e.code == 57
    ensures m.playing ==> OnClock(m, now, k, p)
    ensures var (r, commands, action) := Handled(m, e, now);
      var f := m.(pageKeyFired := m.pageKeyFired || m.pageKey != 0);
      && action == Nothing && commands == (if m.playing then [LoopOff({})] else [])
      && (m.stepMode ==> PlaysFrom(f, r, now, m.step))
      && (m.playing && m.recording ==> r == f.(page := p / 16, step := p % 16, playing := false, stepMode := true))
      && (m.playing && !m.recording ==>
            && r == f.(page := p / 16, step := -1, playing := false, recording := false, stepMode := false,
                       transport := m.transport.(valid := false), captures := r.captures)
            && NothingRemembered(r.captures))
      && (!m.stepMode && !m.playing ==> PlaysFrom(f, r, now, 0))
  {
    hide *;
    k, p := 0, 0;
    var f := m.(pageKeyFired := m.pageKeyFired || m.pageKey != 0);
    FiredReady(m);
    ReadyFacts(f);
    NoNoteKeys(e.code);
    PressHandled(m, e, now);
    SpaceIs(f, now);
    if m.playing {
      k, p := ClockIs(f, now);
      SameClockAs(m, f, now, k, p);
      StopIs(Synced(f, now));
    } else {
      StartIs(f, now, m.step);
      StartIs(f, now, 0);
    }
  }

  lemma {:induction false} SpaceIs(m: Model, now: int)
    requires Ready(m) && (m.playing ==> m.startStep >= 0) && Framed(m)
    ensures OtherPressed(m, 57, now) ==
      if m.stepMode then (StartedFrom(m, now, m.step), [], Nothing)
      else if m.playing && m.recording then (Synced(m, now).(playing := false, stepMode := true), [LoopOff({})], Nothing)
      else if m.playing then (Stopped(Synced(m, now)), [LoopOff({})], Nothing)
      else (StartedFrom(m, now, 0), [], Nothing)
  {
    hide Ready, Framed, StartedFrom, Stopped, Synced, RecordPressed, StepSelected, TempoSet, DeletePressed;
  }

  lemma {:induction false} StopIs(m: Model)
    ensures var r := Stopped(m);
      && r == m.(step := -1, playing := false, recording := false, stepMode := false, transport := m.transport.(valid := false),
                 captures := r.captures)
      && NothingRemembered(r.captures)
  {
  }

  lemma {:induction false} StartIs(m: Model, now: int, step: int)
    ensures 0 <= step < 16 ==> PlaysFrom(m, StartedFrom(m, now, step), now, step)
  {
  }

  // Record arms and disarms recording; armed while nothing plays, it plays from the cursor or from the page's first cell.
  lemma {:induction false} RecordKey(m: Model, e: Key, now: int)
    requires Ready(m) && !e.reset && e.down && !m.help && e.code == 19
    ensures var (r, commands, action) := Handled(m, e, now);
      var f := m.(recording := !m.recording, pageKeyFired := m.pageKeyFired || m.pageKey != 0);
      && action == Nothing && commands == []
      && if !m.recording && !m.playing then PlaysFrom(f, r, now, if m.stepMode then m.step else 0)
         else r == f.(captures := r.captures) && NothingRemembered(r.captures)
  {
    hide *;
    var f := m.(pageKeyFired := m.pageKeyFired || m.pageKey != 0);
    FiredReady(m);
    ReadyFacts(f);
    NoNoteKeys(e.code);
    PressHandled(m, e, now);
    RecordIs(f, now);
    var armed := f.(recording := !m.recording);
    NothingHeldIs(armed);
    NothingIs(TiesCancelled(armed).captures);
    var step := if m.stepMode then m.step else 0;
    StartIs(TiesCancelled(armed), now, step);
    StartAlike(armed, TiesCancelled(armed), StartedFrom(TiesCancelled(armed), now, step), now, step);
  }

  lemma {:induction false} RecordIs(m: Model, now: int)
    requires Ready(m)
    ensures var armed := TiesCancelled(m.(recording := !m.recording));
      OtherPressed(m, 19, now) ==
        (if !m.recording && !m.playing then StartedFrom(armed, now, if m.stepMode then m.step else 0) else armed, [], Nothing)
  {
    hide Ready, StartedFrom, SpacePressed, StepSelected, TempoSet, DeletePressed, NoCaptures;
  }

  lemma {:induction false} StartAlike(m: Model, f: Model, r: Model, now: int, step: int)
    requires f == m.(captures := f.captures) && PlaysFrom(f, r, now, step)
    ensures PlaysFrom(m, r, now, step)
  {
    hide NothingRemembered;
  }

  // Delete removes the cell of the cursor in step mode, and lets the next one continue nothing; pressed again within two
  // seconds with nothing edited in between, on the same page, it leaves an empty song of one page.
  lemma {:induction false} DeleteKey(m: Model, e: Key, now: int) returns (k: nat, p: nat)
    requires Sound(m) && !e.reset && e.down && !m.help && e.code in {14, 111}
    ensures Ready(m) && Shaped(m.song) && (m.playing ==> OnClock(m, now, k, p))
    ensures var (r, commands, action) := Handled(m, e, now);
      var page := if m.playing then p / 16 else m.page;
      var at := m.(page := page, step := if m.playing then p % 16 else m.step, captures := r.captures,
                   pageKeyFired := m.pageKeyFired || m.pageKey != 0);
      var confirmed := now < m.clearUntil && m.clearPage == page;
      && action == Nothing && NothingRemembered(r.captures)
      && commands == (if confirmed || m.stepMode then [LoopOff({})] else [])
      && (confirmed ==>
            && r == at.(song := m.song.(format := 1, pages := r.song.pages), page := 0, step := -1, playing := false,
                        recording := false, stepMode := false, transport := m.transport.(valid := false),
                        clearUntil := NO_TIME, clearPage := -1)
            && |r.song.pages| == 1 && |r.song.pages[0]| == 16 && forall i :: 0 <= i < 16 ==> r.song.pages[0][i] == [])
      && (!confirmed ==>
            && r == at.(song := r.song, clearUntil := now + 2_000_000_000, clearPage := page)
            && (!m.stepMode ==> r.song == m.song)
            && (m.stepMode ==> CellErased(m.song, r.song, m.page * 16 + m.step)))
  {
    hide *;
    k, p := 0, 0;
    SoundParts(m);
    var f := m.(pageKeyFired := m.pageKeyFired || m.pageKey != 0);
    FiredReady(m);
    ReadyFacts(f);
    ReadyShape(m);
    NoNoteKeys(e.code);
    PressHandled(m, e, now);
    var quiet := TiesCancelled(f);
    NothingHeldIs(f);
    NothingIs(quiet.captures);
    DeleteFrame(f);
    if m.playing {
      k, p := ClockIs(quiet, now);
      SameClockAs(m, quiet, now, k, p);
    }
    var at := if m.playing then quiet.(page := p / 16, step := p % 16) else quiet;
    DeleteIs(f, at, e.code, now);
    if now < at.clearUntil && at.clearPage == at.page {
      ClearedIs(at);
    } else if m.stepMode {
      CursorInSong(m);
      ErasureErases(m.song, m.page * 16 + m.step);
    }
  }

  // The cell is empty, and the next one, on whichever page, continues nothing.
  ghost predicate CellErased(s: Song, t: Song, pos: int) {
    && Shaped(s) && Shaped(t) && 0 <= pos < Total(s) && |t.pages| == |s.pages| && t == s.(pages := t.pages)
    && CellAt(t, pos) == [] && (pos + 1 < Total(s) ==> Detached(CellAt(s, pos + 1), CellAt(t, pos + 1)))
    && forall q: nat :: q < Total(s) && q != pos && q != pos + 1 ==> CellAt(t, q) == CellAt(s, q)
  }

  function WithoutCell(s: Song, pos: nat): (t: Song)
    requires Shaped(s) && pos < Total(s)
    ensures Shaped(t)
  {
    if CellAt(s, pos) == [] then s else Repaired(WithCell(s, pos, []))
  }

  lemma {:induction false} ErasureErases(s: Song, pos: nat)
    requires ValidSong(s) && Shaped(s) && pos < Total(s)
    ensures CellErased(s, WithoutCell(s, pos), pos)
  {
    hide *;
    var u := WithCell(s, pos, []);
    var t := WithoutCell(s, pos);
    ErasedShapes(s, pos);
    forall q: nat | q < Total(s)
      ensures q == pos ==> CellAt(t, q) == []
      ensures q == pos + 1 ==> Detached(CellAt(s, q), CellAt(t, q))
      ensures q != pos && q != pos + 1 ==> CellAt(t, q) == CellAt(s, q)
    {
      ErasedAt(s, pos, q);
    }
    CellErasedIs(s, t, pos);
  }

  lemma {:induction false} ErasedShapes(s: Song, pos: nat)
    requires ValidSong(s) && Shaped(s) && pos < Total(s)
    ensures var t := WithoutCell(s, pos); Shaped(t) && Total(t) == Total(s) && t == s.(pages := t.pages) && |t.pages| == |s.pages|
  {
    hide CellAt, WithCell, Repaired;
  }

  lemma {:induction false} CellErasedIs(s: Song, t: Song, pos: nat)
    requires Shaped(s) && Shaped(t) && pos < Total(s) == Total(t) && t == s.(pages := t.pages) && |t.pages| == |s.pages|
    requires forall q: nat :: q < Total(s) && q == pos ==> CellAt(t, q) == []
    requires forall q: nat :: q < Total(s) && q == pos + 1 ==> Detached(CellAt(s, q), CellAt(t, q))
    requires forall q: nat :: q < Total(s) && q != pos && q != pos + 1 ==> CellAt(t, q) == CellAt(s, q)
    ensures CellErased(s, t, pos)
  {
    hide CellAt, Shaped, Detached;
  }

  lemma {:induction false} ErasedAt(s: Song, pos: nat, q: nat)
    requires ValidSong(s) && Shaped(s) && pos < Total(s) && q < Total(s)
    ensures var t := WithoutCell(s, pos);
      && Shaped(t) && Total(t) == Total(s)
      && (q == pos ==> CellAt(t, q) == [])
      && (q == pos + 1 ==> Detached(CellAt(s, q), CellAt(t, q)))
      && (q != pos && q != pos + 1 ==> CellAt(t, q) == CellAt(s, q))
  {
    hide *;
    ErasedShapes(s, pos);
    WithoutIs(s, pos);
    BeforeCases(s, q);
    if CellAt(s, pos) == [] {
      if q == pos + 1 {
        StillTied(s, q);
        AllDetached(CellAt(s, q));
      }
    } else {
      var u := WithCell(s, pos, []);
      RepairedCell(u, q);
      BeforeCases(u, q);
      if q == pos {
        NothingRepaired(Before(u, q));
      } else if q == pos + 1 {
        AllDetached(CellAt(s, q));
      } else {
        StillTied(s, q);
      }
    }
  }

  lemma {:induction false} WithoutIs(s: Song, pos: nat)
    requires Shaped(s) && pos < Total(s)
    ensures WithoutCell(s, pos) == if CellAt(s, pos) == [] then s else Repaired(WithCell(s, pos, []))
    ensures Total(WithCell(s, pos, [])) == Total(s)
  {
    hide CellAt, WithCell, Repaired;
  }

  lemma {:induction false} CursorInSong(m: Model)
    requires Sound(m) && m.stepMode
    ensures Shaped(m.song) && ValidSong(m.song) && 0 <= m.page * 16 + m.step < Total(m.song)
  {
    SoundParts(m);
    PositionInSong(m);
    hide ValidSong, CellAt;
  }

  lemma {:induction false} ReadyShape(m: Model)
    requires Framed(m)
    ensures Shaped(m.song)
  {
  }

  lemma {:induction false} DeleteFrame(m: Model)
    requires Ready(m)
    ensures var quiet := TiesCancelled(m); Framed(quiet) && (quiet.playing ==> quiet.startStep >= 0)
  {
    hide Shaped;
  }

  lemma {:induction false} DeleteIs(m: Model, at: Model, code: nat, now: int)
    requires Ready(m) && Framed(m) && code in {14, 111} && Framed(TiesCancelled(m)) && (m.playing ==> m.startStep >= 0)
    requires TiesCancelled(m).playing ==> TiesCancelled(m).startStep >= 0
    requires at == if m.playing then Synced(TiesCancelled(m), now) else TiesCancelled(m)
    ensures m.stepMode ==> Shaped(m.song) && 0 <= m.page * 16 + m.step < Total(m.song)
    ensures OtherPressed(m, code, now) ==
      if now < at.clearUntil && at.clearPage == at.page then (Cleared(at), [LoopOff({})], Nothing)
      else if m.stepMode then
        (at.(song := WithoutCell(m.song, m.page * 16 + m.step), clearPage := at.page, clearUntil := now + 2_000_000_000),
         [LoopOff({})], Nothing)
      else (at.(clearPage := at.page, clearUntil := now + 2_000_000_000), [], Nothing)
  {
    if m.playing {
      SyncedFacts(TiesCancelled(m), now);
    } else if m.stepMode {
      PositionInSong(m);
    }
    hide Synced, Repaired, WithCell, CellAt, Cleared, NoCaptures, Framed, SpacePressed, RecordPressed, StepSelected, TempoSet;
  }

  lemma {:induction false} ClearedIs(m: Model)
    ensures var r := Cleared(m);
      && r == m.(song := m.song.(format := 1, pages := r.song.pages), page := 0, step := -1, playing := false,
                 recording := false, stepMode := false, transport := m.transport.(valid := false), captures := r.captures,
                 clearUntil := NO_TIME, clearPage := -1)
      && NothingRemembered(r.captures)
      && |r.song.pages| == 1 && |r.song.pages[0]| == 16 && forall i :: 0 <= i < 16 ==> r.song.pages[0][i] == []
  {
    StopIs(m.(song := EmptyPages(m.song), page := 0));
    hide Stopped, NothingRemembered;
  }

  // A stall of the loop lets go of every key and page key and leaves playback alone; an export stops it as well.
  lemma {:induction false} StallAndExport(m: Model)
    requires Sound(m)
    ensures var calm, stopped := m.(held := {}, pageKey := 0, pageKeyAt := NO_TIME, pageKeyFired := false), Apply(m, ExportBegins);
      && Apply(m, Stalled) == calm
      && stopped == calm.(playing := false, recording := false, stepMode := false, step := -1,
                          transport := m.transport.(valid := false), captures := stopped.captures)
      && NothingRemembered(stopped.captures)
  {
    StopIs(GestureCancelled(m));
    hide Sound, Stopped, NothingRemembered;
  }
}

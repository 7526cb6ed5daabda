/**
  What the sequencer keeps over every run of key events and ticks: a valid
  song, no doubled notes once there are none, and a cursor that makes sense.
 */
module PinaoRuns {
  import opened PinaoSong
  import opened PinaoTransport
  import opened PinaoModel

  ghost predicate Sound(m: Model) {
    Ready(m) && ValidSong(m.song)
  }

  // Song edits that keep a song valid, and distinct if it was.
  ghost predicate Kept(s: Song, t: Song) {
    ValidSong(t) && (DistinctSong(s) ==> DistinctSong(t))
  }

  lemma {:induction false} KeptTwice(s: Song, t: Song, u: Song)
    requires Kept(s, t) && Kept(t, u)
    ensures Kept(s, u)
  {
    hide ValidSong, DistinctSong;
  }

  lemma {:induction false} SameKept(s: Song)
    requires ValidSong(s)
    ensures Kept(s, s)
  {
    hide ValidSong, DistinctSong;
  }

  lemma {:induction false} KeptIsValid(s: Song, t: Song)
    requires Kept(s, t)
    ensures ValidSong(t)
  {
    hide ValidSong, DistinctSong;
  }

  lemma {:induction false} SettingsKept(s: Song, t: Song)
    requires ValidSong(s) && SettingsOk(t) && t == s.(bpm := t.bpm, octave := t.octave, tone := t.tone, volume := t.volume)
    ensures Kept(s, t)
  {
    assert forall pos: nat :: pos < Total(s) ==> CellAt(t, pos) == CellAt(s, pos) && Before(t, pos) == Before(s, pos);
    hide CellOk, Distinct, CellAt, Before;
  }

  // ---- Recording ----

  // A note that a key or drum pad can produce.
  predicate Playable(h: Hit) {
    !h.tie && HitOk(h)
  }

  lemma {:induction false} RecordedCellOk(format: int, before: Cell, cell: Cell, h: Hit)
    requires CellOk(format, before, cell) && Playable(h)
    ensures CellOk(format, before, RecordedCell(cell, h))
    ensures forall g :: Sounds(cell, g) ==> Sounds(RecordedCell(cell, h), g)
    ensures Distinct(cell) ==> Distinct(RecordedCell(cell, h))
  {
    var r := RecordedCell(cell, h);
    forall g | Sounds(cell, g) ensures Sounds(r, g) {
      var k := NoteIndex(cell, g);
      SoundsIs(r, g);
      assert SameNote(r[k], g);
    }
    hide Sounds, HitOk;
  }

  lemma {:induction false} RecordedKept(m: Model, h: Hit, now: int)
    requires Sound(m) && Playable(h)
    ensures Sound(Recorded(m, h, now)) && Kept(m.song, Recorded(m, h, now).song)
  {
    if m.recording {
      var pos := RecordPosition(m, now);
      var cell := CellAt(m.song, pos);
      assert CellOk(m.song.format, Before(m.song, pos), cell);
      RecordedCellOk(m.song.format, Before(m.song, pos), cell, h);
      EditKeepsValid(m.song, pos, RecordedCell(cell, h), m.song.format);
      if DistinctSong(m.song) {
        assert Distinct(cell);
        EditKeepsDistinct(m.song, pos, RecordedCell(cell, h));
      }
      hide CellOk, RecordedCell, WithCell, Distinct, DistinctSong, ValidSong, RecordPosition, CellAt, Ready;
    }
  }

  // ---- Held notes ----

  lemma {:induction false} TiedCellOk(format: int, before: Cell, cell: Cell, h: Hit)
    requires CellOk(format, before, cell) && |cell| < VOICE_COUNT && Sounds(before, h) && NoteIndex(cell, h) < 0
    requires forall i :: 0 <= i < |before| ==> HitOk(before[i])
    ensures CellOk(3, before, cell + [h.(tie := true)])
    ensures forall g :: Sounds(cell, g) ==> Sounds(cell + [h.(tie := true)], g)
    ensures Distinct(cell) ==> Distinct(cell + [h.(tie := true)])
  {
    var r := cell + [h.(tie := true)];
    var n := NoteIndex(before, h);
    assert HitOk(before[n]);
    SoundsIs(before, h.(tie := true));
    assert SameNote(before[n], h.(tie := true));
    forall g | Sounds(cell, g) ensures Sounds(r, g) {
      var k := NoteIndex(cell, g);
      SoundsIs(r, g);
      assert SameNote(r[k], g);
    }
    hide Sounds;
  }

  lemma {:induction false} HitsOk(s: Song, pos: nat)
    requires ValidSong(s) && pos < Total(s)
    ensures CellOk(s.format, Before(s, pos), CellAt(s, pos))
    ensures forall i :: 0 <= i < |CellAt(s, pos)| ==> HitOk(CellAt(s, pos)[i])
  {
    assert CellOk(s.format, Before(s, pos), CellAt(s, pos));
    hide HitOk, TieOk, CellAt, Before;
  }

  lemma {:induction false} TieAddedKept(s: Song, from: nat, cell: Cell, h: Hit)
    requires ValidSong(s) && from + 1 < Total(s) && cell == CellAt(s, from + 1)
    requires Sounds(CellAt(s, from), h) && NoteIndex(cell, h) < 0 && |cell| < VOICE_COUNT
    ensures Kept(s, WithCell(s, from + 1, cell + [h.(tie := true)]).(format := 3))
  {
    var to := from + 1;
    assert Before(s, to) == CellAt(s, from);
    HitsOk(s, from);
    HitsOk(s, to);
    TiedCellOk(s.format, CellAt(s, from), cell, h);
    EditKeepsValid(s, to, cell + [h.(tie := true)], 3);
    if DistinctSong(s) {
      assert Distinct(cell);
      EditKeepsDistinct(s, to, cell + [h.(tie := true)]);
      FormatIsNoMatter(WithCell(s, to, cell + [h.(tie := true)]), 3);
    }
    hide CellOk, WithCell, Distinct, DistinctSong, ValidSong, CellAt, Before, Sounds;
  }

  lemma {:induction false} FormatIsNoMatter(s: Song, format: int)
    requires DistinctSong(s)
    ensures DistinctSong(s.(format := format))
  {
    var t := s.(format := format);
    assert forall pos: nat :: pos < Total(s) ==> CellAt(t, pos) == CellAt(s, pos);
    hide Distinct, CellAt;
  }

  lemma {:induction false} ExtendOneKept(m: Model, from: nat, code: nat)
    requires Framed(m) && m.step >= 0 && code < KEY_CODES && Position(m) == from + 1 && ValidSong(m.song)
    requires from < Total(m.song)
    ensures Kept(m.song, ExtendOne(m, from, code).song)
  {
    hide *;
    SameKept(m.song);
    CapturesSize(m);
    var c := m.captures[code];
    PositionInSong(m);
    var cell := CellAt(m.song, Position(m));
    ExtendOneSong(m, from, code);
    if Sounds(CellAt(m.song, from), c.hit) && NoteIndex(cell, c.hit) < 0 && |cell| < VOICE_COUNT {
      TieAddedKept(m.song, from, cell, c.hit);
    }
  }

  lemma {:induction false} CapturesSize(m: Model)
    requires Framed(m)
    ensures |m.captures| == KEY_CODES && Shaped(m.song)
  {
    hide Shaped;
  }

  // The song is kept, or the held note is added as a tie.
  lemma {:induction false} ExtendOneSong(m: Model, from: nat, code: nat)
    requires Framed(m) && m.step >= 0 && code < KEY_CODES && |m.captures| == KEY_CODES && Shaped(m.song)
    requires from < Total(m.song) && 0 <= Position(m) < Total(m.song)
    ensures var c, cell, song := m.captures[code], CellAt(m.song, Position(m)), ExtendOne(m, from, code).song;
      song == m.song ||
      (Sounds(CellAt(m.song, from), c.hit) && NoteIndex(cell, c.hit) < 0 && |cell| < VOICE_COUNT &&
       song == WithCell(m.song, Position(m), cell + [c.hit.(tie := true)]).(format := 3))
  {
    hide CellAt, WithCell, NoteIndex, Total, Shaped, Position;
  }

  lemma {:induction false} ExtendFromKept(m: Model, from: nat, code: nat)
    requires Framed(m) && m.step >= 0 && code <= KEY_CODES && Position(m) == from + 1 && ValidSong(m.song)
    requires from < Total(m.song)
    ensures Kept(m.song, ExtendFrom(m, from, code).song)
    decreases KEY_CODES - code
  {
    hide ValidSong, DistinctSong, ExtendOne;
    if code < KEY_CODES {
      var n := ExtendOne(m, from, code);
      ExtendOneKept(m, from, code);
      ExtendFromKept(n, from, code + 1);
      KeptTwice(m.song, n.song, ExtendFrom(m, from, code).song);
    }
  }

  lemma {:induction false} ExtendedKept(m: Model, from: nat)
    requires Framed(m) && m.step >= 0 && ValidSong(m.song)
    ensures Kept(m.song, Extended(m, from).song)
  {
    hide ExtendFrom, ValidSong, DistinctSong;
    if m.recording && m.stepMode && Position(m) == from + 1 {
      PositionInSong(m);
      ExtendFromKept(m, from, 0);
    }
  }

  // ---- Pages ----

  lemma {:induction false} InsertedKept(s: Song, index: nat)
    requires ValidSong(s) && index <= |s.pages| < MAX_PAGES
    ensures Kept(s, Repaired(Inserted(s, index)))
  {
    ValidIsLoose(s);
    InsertKeepsLoose(s, index);
    RepairMakesValid(Inserted(s, index));
    if DistinctSong(s) {
      InsertKeepsDistinct(s, index);
      RepairKeepsDistinct(Inserted(s, index));
    }
    hide ValidSong, DistinctSong, LooseSong;
  }

  lemma {:induction false} ErasedKept(s: Song, pos: nat)
    requires ValidSong(s) && pos < Total(s)
    ensures Kept(s, Repaired(WithCell(s, pos, [])))
  {
    ValidIsLoose(s);
    ClearKeepsLoose(s, pos);
    RepairMakesValid(WithCell(s, pos, []));
    if DistinctSong(s) {
      EditKeepsDistinct(s, pos, []);
      RepairKeepsDistinct(WithCell(s, pos, []));
    }
    hide ValidSong, DistinctSong, LooseSong;
  }

  // Stepping over an insertion.
  lemma {:induction false} PageInsertedKept(m: Model, delta: int)
    requires Framed(m) && m.step >= 0 && ValidSong(m.song) && m.stepMode && !m.playing
    ensures var r := PageInserted(m, delta);
            && Kept(m.song, r.song) && r.step >= 0 && r.stepMode && !r.playing && r.recording == m.recording
            && r.pageKey == m.pageKey && r.pageKeyFired == m.pageKeyFired
  {
    hide *;
    PageInsertedIs(m, delta);
    SameKept(m.song);
    if PageInserted(m, delta) != m {
      var index := if delta > 0 then m.page + 1 else m.page;
      var moved := m.(song := Repaired(Inserted(m.song, index)), page := index, step := 0);
      InsertedKept(m.song, index);
      FramedPosition(m);
      KeptIsValid(m.song, moved.song);
      ExtendedKept(moved, Position(m));
      KeptTwice(m.song, moved.song, Extended(moved, Position(m)).song);
    }
  }

  lemma {:induction false} PageInsertedIs(m: Model, delta: int)
    requires Framed(m) && m.step >= 0 && m.stepMode && !m.playing
    ensures Position(m) >= 0 && (|m.song.pages| >= MAX_PAGES ==> PageInserted(m, delta) == m)
    ensures |m.song.pages| < MAX_PAGES ==>
              var index := if delta > 0 then m.page + 1 else m.page;
              && 0 <= index <= |m.song.pages| && Shaped(m.song)
              && var moved := m.(song := Repaired(Inserted(m.song, index)), page := index, step := 0);
                 && Framed(moved)
                 && var e := if delta > 0 then Extended(moved, Position(m)) else TiesCancelled(moved);
                    PageInserted(m, delta) == e.(playing := false, stepMode := true, clearUntil := NO_TIME, clearPage := -1)
                    && e.song == (if delta > 0 then e.song else moved.song) && e.step >= 0 && e.recording == m.recording
                    && e.pageKey == m.pageKey && e.pageKeyFired == m.pageKeyFired
  {
    hide Repaired, Extended;
  }

  lemma {:induction false} PageChangedKept(m: Model, delta: int)
    requires Framed(m) && m.step >= 0 && ValidSong(m.song)
    ensures var r := PageChanged(m, delta);
            && Framed(r) && Kept(m.song, r.song) && |r.song.pages| == |m.song.pages| && r.step >= 0
            && r == m.(song := r.song, captures := r.captures, clearUntil := r.clearUntil, clearPage := r.clearPage,
                       page := r.page, step := r.step)
  {
    hide *;
    SameKept(m.song);
    FramedPosition(m);
    if 0 <= m.page + delta < |m.song.pages| {
      PageChangedIs(m, delta);
      var moved := m.(page := m.page + delta, step := 0);
      ExtendedKept(moved, Position(m));
      FramedAfter(Extended(moved, Position(m)), NO_TIME);
    } else {
      PageStays(m, delta);
    }
  }

  lemma {:induction false} FramedPosition(m: Model)
    requires Framed(m)
    ensures |m.song.pages| > 0 && (m.step >= 0 ==> Position(m) >= 0)
  {
  }

  lemma {:induction false} PageStays(m: Model, delta: int)
    requires Framed(m) && m.step >= 0 && !(0 <= m.page + delta < |m.song.pages|)
    ensures PageChanged(m, delta) == m
  {
    hide Extended;
  }

  lemma {:induction false} PageChangedIs(m: Model, delta: int)
    requires Framed(m) && m.step >= 0 && 0 <= m.page + delta < |m.song.pages|
    ensures Framed(m.(page := m.page + delta, step := 0))
    ensures PageChanged(m, delta) == Extended(m.(page := m.page + delta, step := 0), Position(m)).(clearUntil := NO_TIME)
  {
    hide Extended;
  }

  lemma {:induction false} FramedAfter(m: Model, clearUntil: int)
    requires Framed(m)
    ensures Framed(m.(clearUntil := clearUntil))
  {
    hide Shaped;
  }

  lemma {:induction false} PageKeySound(m: Model, e: Key, now: int)
    requires Sound(m) && (e.code == KEY_I || e.code == KEY_O)
    ensures var r := PageKeyHandled(m, e, now).0; Sound(r) && Kept(m.song, r.song)
  {
    hide *;
    SoundParts(m);
    SameKept(m.song);
    PageKeyIs(m, e, now);
    if e.down {
      if m.playing && m.pageKey == 0 {
        SyncedFacts(m, now);
      }
      PageKeyDownSound(m, e, now);
    } else if e.code == m.pageKey && !m.pageKeyFired {
      OpenGesture(m);
      if now - m.pageKeyAt >= PAGE_HOLD {
        PageInsertedKept(m, Direction(e.code));
        KeptIsValid(m.song, PageInserted(m, Direction(e.code)).song);
        GestureClosed(PageInserted(m, Direction(e.code)));
      } else {
        PageChangedKept(m, Direction(e.code));
        KeptIsValid(m.song, PageChanged(m, Direction(e.code)).song);
        GestureClosed(PageChanged(m, Direction(e.code)));
      }
    } else if e.code == m.pageKey {
      GestureCancelledSound(m);
    }
  }

  lemma {:induction false} OpenGesture(m: Model)
    requires Ready(m) && m.pageKey != 0 && !m.pageKeyFired
    ensures Framed(m) && m.stepMode && m.step >= 0 && !m.playing
  {
    hide Framed, Total;
  }

  lemma {:induction false} GestureCancelledSound(m: Model)
    requires Sound(m)
    ensures Sound(GestureCancelled(m)) && GestureCancelled(m).song == m.song
  {
    hide Shaped, ValidSong, Total;
  }

  lemma {:induction false} GestureClosed(m: Model)
    requires Framed(m) && ValidSong(m.song) && m.stepMode && m.step >= 0 && !m.playing
    ensures Sound(GestureCancelled(m)) && GestureCancelled(m).song == m.song
  {
    hide Shaped, ValidSong, Total;
  }

  // What a page key does, case by case.
  lemma {:induction false} PageKeyIs(m: Model, e: Key, now: int)
    requires Ready(m) && (e.code == KEY_I || e.code == KEY_O)
    ensures e.code != 0
    ensures var r := PageKeyHandled(m, e, now).0;
      && (!e.down && e.code != m.pageKey ==> r == m)
      && (!e.down && e.code == m.pageKey && m.pageKeyFired ==> r == GestureCancelled(m))
      && (!e.down && e.code == m.pageKey && !m.pageKeyFired ==>
            Framed(m) && m.step >= 0 &&
            r == GestureCancelled(if now - m.pageKeyAt >= PAGE_HOLD then PageInserted(m, Direction(e.code))
                                  else PageChanged(m, Direction(e.code))))
  {
    hide Framed, Total, PageInserted, PageChanged, Synced;
  }

  lemma {:induction false} PageKeyDownSound(m: Model, e: Key, now: int)
    requires Sound(m) && (e.code == KEY_I || e.code == KEY_O) && e.down
    ensures var r := PageKeyHandled(m, e, now).0; Sound(r) && r.song == m.song
  {
    if m.playing {
      SyncedFacts(m.(pageKey := e.code, pageKeyAt := now, pageKeyFired := false), now);
    }
    hide Shaped, ValidSong, Total, Synced, Position;
  }

  lemma {:induction false} HoldSound(m: Model, now: int)
    requires Sound(m)
    ensures Sound(HoldChecked(m, now)) && Kept(m.song, HoldChecked(m, now).song)
  {
    if m.pageKey != 0 && !m.pageKeyFired {
      PageInsertedKept(m.(pageKeyFired := true), Direction(m.pageKey));
    }
    hide ValidSong, DistinctSong, PageInserted;
  }

  // ---- Steps, tempo, keys ----

  lemma {:induction false} SyncedFacts(m: Model, now: int)
    requires Framed(m) && m.startStep >= 0
    ensures var r := Synced(m, now);
            r == m.(page := r.page, step := r.step) && Framed(r) && r.step >= 0 && Position(r) == ClockPosition(m, now)
  {
    hide ClockPosition;
  }

  lemma {:induction false} StartedFacts(m: Model, now: int, step: int)
    requires Framed(m)
    ensures var r := StartedFrom(m, now, step);
      && Framed(r) && 0 <= r.step && 0 <= r.startStep < Total(r.song) && r.playing && !r.stepMode
      && r.startStep == m.page * STEPS + step % STEPS && r.step == step % STEPS
      && r == m.(captures := NoCaptures(), transport := m.transport.(valid := false), playing := true, stepMode := false,
                 started := now, lastTick := -1, startStep := r.startStep, step := r.step)
  {
    hide Shaped;
  }

  lemma {:induction false} StoppedSound(m: Model)
    requires Framed(m) && ValidSong(m.song) && NoOpenGesture(m)
    ensures Sound(Stopped(m)) && Stopped(m).song == m.song
  {
    hide Shaped, ValidSong;
  }

  // No page key waits to become an insertion.
  predicate NoOpenGesture(m: Model) {
    m.pageKey != 0 ==> m.pageKeyFired
  }

  lemma {:induction false} StartedSound(m: Model, now: int, step: int)
    requires Framed(m) && ValidSong(m.song) && NoOpenGesture(m)
    ensures Sound(StartedFrom(m, now, step)) && StartedFrom(m, now, step).song == m.song
  {
    StartedFacts(m, now, step);
    hide Shaped, ValidSong, StartedFrom, Total;
  }

  lemma {:induction false} StepSelectedSound(m: Model, delta: int, now: int)
    requires Sound(m)
    ensures var r := StepSelected(m, delta, now); Sound(r) && Kept(m.song, r.song)
  {
    hide *;
    SoundParts(m);
    SameKept(m.song);
    var moved := StepSelectedIs(m, delta, now);
    if m.stepMode {
      ExtendedKept(moved, Position(m));
      KeptIsValid(m.song, Extended(moved, Position(m)).song);
      SteppedSound(moved, Extended(moved, Position(m)));
    } else {
      CancelledSound(moved);
    }
  }

  lemma {:induction false} SoundParts(m: Model)
    requires Sound(m)
    ensures Ready(m) && Framed(m) && ValidSong(m.song) && (m.playing ==> m.startStep >= 0)
    ensures m.stepMode ==> m.step >= 0 && !m.playing
  {
    hide Framed, ValidSong, Total;
  }

  lemma {:induction false} SteppedSound(moved: Model, r: Model)
    requires Framed(r) && ValidSong(r.song) && moved.step >= 0 && moved.stepMode && !moved.playing
    requires r == moved.(song := r.song, captures := r.captures, clearUntil := r.clearUntil, clearPage := r.clearPage)
    ensures Sound(r)
  {
    hide Framed, ValidSong, Total;
  }

  lemma {:induction false} CancelledSound(moved: Model)
    requires Framed(moved) && ValidSong(moved.song) && moved.step >= 0 && moved.stepMode && !moved.playing
    ensures Sound(TiesCancelled(moved)) && TiesCancelled(moved).song == moved.song
  {
    hide Shaped, ValidSong, Total;
  }

  lemma {:induction false} StepSelectedIs(m: Model, delta: int, now: int) returns (moved: Model)
    requires Ready(m)
    ensures Framed(moved) && moved.step >= 0 && moved.stepMode && !moved.playing && moved.song == m.song
    ensures m.stepMode ==> Position(m) >= 0
    ensures StepSelected(m, delta, now) == if m.stepMode then Extended(moved, Position(m)) else TiesCancelled(moved)
  {
    var synced := if m.playing then Synced(m, now) else m;
    moved := synced.(step := if synced.step < 0 then 0 else (synced.step + delta) % STEPS, playing := false, stepMode := true);
    if m.playing {
      SyncedFacts(m, now);
    }
    hide Synced, Extended, TiesCancelled, Shaped, Total;
  }

  lemma {:induction false} TempoSound(m: Model, bpm: int, now: int)
    requires Sound(m) && 60 <= bpm <= 180
    ensures var r := TempoSet(m, bpm, now); Sound(r) && Kept(m.song, r.song)
  {
    hide *;
    SoundParts(m);
    SameKept(m.song);
    SettingsKept2(m, bpm);
    SettingSoundForTempo(m, bpm);
    TempoStill(m, bpm, now);
    if m.playing && bpm != m.song.bpm {
      var r, t, last := TempoPlaying(m, bpm, now);
      RestartedSound(m, r, t, last);
    }
  }

  lemma {:induction false} SettingsKept2(m: Model, bpm: int)
    requires Sound(m) && 60 <= bpm <= 180
    ensures Kept(m.song, m.song.(bpm := bpm)) && Edited(m.(song := m.song.(bpm := bpm))).song == m.song.(bpm := bpm)
  {
    assert SettingsOk(m.song);
    SettingsKept(m.song, m.song.(bpm := bpm));
    hide ValidSong, DistinctSong;
  }

  lemma {:induction false} TempoStill(m: Model, bpm: int, now: int)
    requires Ready(m) && 60 <= bpm <= 180
    ensures bpm == m.song.bpm ==> TempoSet(m, bpm, now) == m
    ensures bpm != m.song.bpm && !m.playing ==> TempoSet(m, bpm, now) == Edited(m.(song := m.song.(bpm := bpm)))
  {
    hide Edited, Synced, StartedFrom, ClockTick, StepDuration, Elapsed;
  }

  // A tempo change while playing starts the clock anew at the position reached.
  lemma {:induction false} TempoPlaying(m: Model, bpm: int, now: int) returns (r: Model, t: Transport, last: int)
    requires Ready(m) && 60 <= bpm <= 180 && m.playing && bpm != m.song.bpm
    ensures TempoSet(m, bpm, now) == Edited(r.(transport := t, lastTick := last)) && Eight(t)
    ensures Framed(r) && 0 <= r.step && 0 <= r.startStep < Total(r.song) && r.playing && !r.stepMode
    ensures r.song == m.song.(bpm := bpm) && r.pageKey == m.pageKey && r.pageKeyFired == m.pageKeyFired
  {
    var synced := Synced(m, now);
    SyncedFacts(m, now);
    var phase := Elapsed(m, now) % StepDuration(m.song.bpm) * StepDuration(bpm) / StepDuration(m.song.bpm);
    var retimed := synced.(song := m.song.(bpm := bpm));
    assert Framed(retimed) by {
      hide Shaped;
    }
    StartedFacts(retimed, now - phase, synced.step);
    r := StartedFrom(retimed, now - phase, synced.step);
    t := if ClockTick(m, now) <= m.lastTick + 1 then m.transport else r.transport;
    last := if ClockTick(m, now) <= m.lastTick then 0 else r.lastTick;
    hide Synced, StartedFrom, ClockTick, StepDuration, Elapsed, Shaped, Total, Position;
  }

  lemma {:induction false} SettingSoundForTempo(m: Model, bpm: int)
    requires Sound(m) && 60 <= bpm <= 180
    ensures Sound(Edited(m.(song := m.song.(bpm := bpm))))
  {
    SettingsKept(m.song, m.song.(bpm := bpm));
    hide ValidSong, DistinctSong;
  }

  lemma {:induction false} RestartedSound(m: Model, r: Model, t: Transport, last: int)
    requires Sound(m) && m.playing && r.pageKey == m.pageKey && r.pageKeyFired == m.pageKeyFired && Eight(t)
    requires Framed(r) && Kept(m.song, r.song) && 0 <= r.step && 0 <= r.startStep < Total(r.song) && r.playing && !r.stepMode
    ensures Sound(Edited(r.(transport := t, lastTick := last))) && Edited(r.(transport := t, lastTick := last)).song == r.song
  {
    hide Shaped, ValidSong, DistinctSong, Total;
  }

  lemma {:induction false} NoteSound(m: Model, code: nat, now: int)
    requires Sound(m) && NoteOf(code) >= 0
    ensures var r := NotePressed(m, code, now).0; Sound(r) && Kept(m.song, r.song)
  {
    SameKept(m.song);
    var h := Hit(12 * (m.song.octave + 1) + NoteOf(code), m.song.tone, 0, false);
    assert Playable(h);
    if code !in m.held {
      var n := m.(held := m.held + {code});
      HeldKeepsReady(m, n.held);
      RecordedKept(n, h, now);
      NotePressedIs(m, code, now);
      var r := NotePressed(m, code, now).0;
      CapturedKeepsReady(Recorded(n, h, now), r.captures);
      hide Ready, ValidSong, DistinctSong, Recorded, NotePressed;
    }
  }

  lemma {:induction false} HeldKeepsReady(m: Model, held: set<nat>)
    requires Ready(m)
    ensures Ready(m.(held := held))
  {
    hide Shaped, Total;
  }

  lemma {:induction false} CapturedKeepsReady(m: Model, captures: seq<Capture>)
    requires Ready(m) && |captures| == KEY_CODES
    ensures Ready(m.(captures := captures))
  {
    hide Shaped, Total;
  }

  lemma {:induction false} NotePressedIs(m: Model, code: nat, now: int)
    requires Ready(m) && NoteOf(code) >= 0 && code !in m.held
    ensures var n := m.(held := m.held + {code});
            var h := Hit(12 * (m.song.octave + 1) + NoteOf(code), m.song.tone, 0, false);
            var r := NotePressed(m, code, now).0;
            Ready(n) && r == Recorded(n, h, now).(captures := r.captures) && |r.captures| == KEY_CODES
  {
    HeldKeepsReady(m, m.held + {code});
    hide Shaped, Total, NoteIndex, Position;
  }

  lemma {:induction false} SpaceSound(m: Model, now: int)
    requires Sound(m) && NoOpenGesture(m)
    ensures var r := SpacePressed(m, now).0; Sound(r) && Kept(m.song, r.song)
  {
    SameKept(m.song);
    StartedSound(m, now, m.step);
    StartedSound(m, now, 0);
    if m.playing {
      SyncedFacts(m, now);
      StoppedSound(Synced(m, now));
    }
    hide Shaped, ValidSong, DistinctSong, Synced, StartedFrom, Stopped, Total, Position;
  }

  lemma {:induction false} RecordSound(m: Model, now: int)
    requires Sound(m) && NoOpenGesture(m)
    ensures var r := RecordPressed(m, now); Sound(r) && Kept(m.song, r.song)
  {
    SameKept(m.song);
    var r := TiesCancelled(m.(recording := !m.recording));
    StartedSound(r, now, if r.stepMode then r.step else 0);
    hide Shaped, ValidSong, DistinctSong, StartedFrom, Total;
  }

  lemma {:induction false} DeleteSound(m: Model, now: int)
    requires Sound(m) && NoOpenGesture(m)
    ensures var r := DeletePressed(m, now).0; Sound(r) && Kept(m.song, r.song)
  {
    SameKept(m.song);
    var quiet := TiesCancelled(m);
    if m.playing {
      SyncedFacts(quiet, now);
    }
    var at := if m.playing then Synced(quiet, now) else quiet;
    ClearedSound(at);
    if at.stepMode {
      PositionInSong(at);
      ErasedKept(m.song, Position(at));
      ErasedShape(m.song, Position(at));
    }
    hide Shaped, ValidSong, DistinctSong, Synced, Repaired, WithCell, CellAt, Cleared, Position;
  }

  lemma {:induction false} ErasedShape(s: Song, pos: nat)
    requires Shaped(s) && pos < Total(s)
    ensures var t := Repaired(WithCell(s, pos, [])); Shaped(t) && |t.pages| == |s.pages| && t.bpm == s.bpm
  {
    hide WithCell, Repaired;
  }

  lemma {:induction false} ClearedSound(m: Model)
    requires Framed(m) && ValidSong(m.song) && NoOpenGesture(m)
    ensures Sound(Cleared(m)) && Kept(m.song, Cleared(m).song)
  {
    EmptySongIsValid(m.song);
    ValidShaped(EmptyPages(m.song));
    StoppedSound(m.(song := EmptyPages(m.song), page := 0));
    hide ValidSong, DistinctSong, EmptyPages, Stopped;
  }

  lemma {:induction false} SettingSound(m: Model, s: Song)
    requires Sound(m) && SettingsOk(s) && s == m.song.(bpm := m.song.bpm, octave := s.octave, tone := s.tone, volume := s.volume)
    ensures Sound(Edited(m.(song := s))) && Kept(m.song, s)
  {
    SettingsKept(m.song, s);
    assert s.pages == m.song.pages;
    hide ValidSong, DistinctSong;
  }

  // What the remaining keys do, one by one.
  lemma {:induction false} OtherIs(m: Model, code: nat, now: int)
    requires Ready(m)
    ensures var r, s := OtherPressed(m, code, now).0, m.song;
      && (code == 57 ==> r == SpacePressed(m, now).0)
      && (code == 19 ==> r == RecordPressed(m, now))
      && (code == 105 || code == 106 ==> r == StepSelected(m, if code == 105 then -1 else 1, now))
      && (code == 103 || code == 108 ==> r == TempoSet(m, Clamp(60, if code == 103 then s.bpm + 5 else s.bpm - 5, 180), now))
      && (code == 14 || code == 111 ==> r == DeletePressed(m, now).0)
      && (code !in {57, 19, 105, 106, 103, 108, 14, 111} ==> r == m || r == SettingPressed(m, code))
  {
    hide SpacePressed, RecordPressed, StepSelected, TempoSet, DeletePressed, Edited, Ready;
  }

  function SettingPressed(m: Model, code: nat): Model {
    var s := m.song;
    var t :=
      if code == 16 || code == 15 then s.(tone := (s.tone + 1) % 3)
      else if code == 44 && s.octave > 3 then s.(octave := s.octave - 1)
      else if code == 45 && s.octave < 6 then s.(octave := s.octave + 1)
      else if code == 114 || code == 115 then s.(volume := Clamp(0, if code == 115 then s.volume + 5 else s.volume - 5, 100))
      else s;
    Edited(m.(song := t))
  }

  lemma {:induction false} SettingsSound(m: Model, code: nat)
    requires Sound(m)
    ensures Sound(SettingPressed(m, code)) && Kept(m.song, SettingPressed(m, code).song)
  {
    assert SettingsOk(m.song);
    var t := SettingPressed(m, code).song;
    assert SettingsOk(t) && t == m.song.(octave := t.octave, tone := t.tone, volume := t.volume);
    hide Sound, Kept, SettingsOk;
    SettingSound(m, t);
  }

  lemma {:induction false} OtherSound(m: Model, code: nat, now: int)
    requires Sound(m) && NoOpenGesture(m)
    ensures var r := OtherPressed(m, code, now).0; Sound(r) && Kept(m.song, r.song)
  {
    hide *;
    SoundParts(m);
    SameKept(m.song);
    OtherIs(m, code, now);
    if code == 57 {
      SpaceSound(m, now);
    } else if code == 19 {
      RecordSound(m, now);
    } else if code == 105 || code == 106 {
      StepSelectedSound(m, if code == 105 then -1 else 1, now);
    } else if code == 103 || code == 108 {
      ClampedTempo(if code == 103 then m.song.bpm + 5 else m.song.bpm - 5);
      TempoSound(m, Clamp(60, if code == 103 then m.song.bpm + 5 else m.song.bpm - 5, 180), now);
    } else if code == 14 || code == 111 {
      DeleteSound(m, now);
    } else {
      SettingsSound(m, code);
    }
  }

  lemma {:induction false} ClampedTempo(bpm: int)
    ensures 60 <= Clamp(60, bpm, 180) <= 180
  {
  }

  lemma {:induction false} HandledSound(m: Model, e: Key, now: int)
    requires Sound(m)
    ensures var r := Handled(m, e, now).0; Sound(r) && Kept(m.song, r.song)
  {
    hide *;
    SoundParts(m);
    SameKept(m.song);
    HandledIs(m, e, now);
    if e.reset || e.code == 143 || e.code == 116 {
      QuietSound(m, {});
      QuietSound(m, m.held);
    } else if e.code == 23 || e.code == 24 {
      if !m.help {
        PageKeyCodes(e);
        PageKeySound(m, e, now);
      }
    } else if !e.down {
      ReleasedSound(m, e.code);
    } else {
      var n := m.(pageKeyFired := m.pageKeyFired || m.pageKey != 0);
      FiredSound(m);
      SoundParts(n);
      if e.code == 38 || e.code == 53 {
        HelpSound(n);
      } else if NoteOf(e.code) >= 0 {
        NoteSound(n, e.code, now);
      } else if DrumOf(e.code) >= 0 {
        DrumPlayable(e.code);
        RecordedKept(n, Hit(0, 0, DrumOf(e.code) + 1, false), now);
      } else {
        OtherSound(n, e.code, now);
      }
    }
  }

  lemma {:induction false} PageKeyCodes(e: Key)
    ensures e.code == KEY_I || e.code == KEY_O <==> e.code == 23 || e.code == 24
  {
  }

  lemma {:induction false} DrumPlayable(code: nat)
    requires DrumOf(code) >= 0
    ensures Playable(Hit(0, 0, DrumOf(code) + 1, false))
  {
  }

  lemma {:induction false} QuietSound(m: Model, held: set<nat>)
    requires Sound(m)
    ensures Sound(GestureCancelled(TiesCancelled(m)).(held := held)) && Sound(GestureCancelled(m).(held := held))
    ensures GestureCancelled(TiesCancelled(m)).song == GestureCancelled(m).song == m.song
  {
    hide Shaped, ValidSong, Total;
  }

  lemma {:induction false} HelpSound(m: Model)
    requires Sound(m)
    ensures Sound(GestureCancelled(TiesCancelled(m)).(help := !m.help))
    ensures GestureCancelled(TiesCancelled(m)).song == m.song
  {
    hide Shaped, ValidSong, Total;
  }

  lemma {:induction false} ReleasedSound(m: Model, code: nat)
    requires Sound(m)
    ensures |m.captures| == KEY_CODES && Sound(Released(m, code).0) && Released(m, code).0.song == m.song
  {
    hide Shaped, ValidSong, Total;
  }

  lemma {:induction false} FiredSound(m: Model)
    requires Sound(m)
    ensures var n := m.(pageKeyFired := m.pageKeyFired || m.pageKey != 0); Sound(n) && NoOpenGesture(n)
  {
    hide Shaped, ValidSong, Total;
  }

  // What a key event does, case by case.
  lemma {:induction false} HandledIs(m: Model, e: Key, now: int)
    requires Ready(m)
    ensures var r, n := Handled(m, e, now).0, m.(pageKeyFired := m.pageKeyFired || m.pageKey != 0);
      && Ready(n) && |m.captures| == KEY_CODES
      && (e.reset ==> r == GestureCancelled(TiesCancelled(m)).(held := {}))
      && (!e.reset ==>
            && (e.code == 143 || e.code == 116 ==> r == GestureCancelled(m).(held := m.held))
            && ((e.code == 23 || e.code == 24) && m.help ==> r == m)
            && ((e.code == 23 || e.code == 24) && !m.help ==>
                  (e.code == KEY_I || e.code == KEY_O) && r == PageKeyHandled(m, e, now).0)
            && (e.code !in {143, 116, 23, 24} && !e.down ==> r == Released(m, e.code).0)
            && (e.code !in {143, 116, 23, 24} && e.down ==>
                  if e.code == 38 || e.code == 53 then r == GestureCancelled(TiesCancelled(n)).(help := !n.help)
                  else r == n || r == if NoteOf(e.code) >= 0 then NotePressed(n, e.code, now).0
                                      else if DrumOf(e.code) >= 0 then Recorded(n, Hit(0, 0, DrumOf(e.code) + 1, false), now)
                                      else OtherPressed(n, e.code, now).0))
  {
    assert Ready(m.(pageKeyFired := m.pageKeyFired || m.pageKey != 0)) by {
      hide Shaped, Total;
    }
    hide Framed, Total, PageKeyHandled, Released, NotePressed, Recorded, OtherPressed, TiesCancelled, NoteOf, DrumOf;
  }

  // ---- Ticks ----

  lemma {:induction false} CellSize(m: Model, now: int)
    requires Framed(m) && ValidSong(m.song) && m.startStep >= 0
    ensures |CellAt(m.song, ClockPosition(m, now))| <= VOICE_COUNT
  {
    assert CellOk(m.song.format, Before(m.song, ClockPosition(m, now)), CellAt(m.song, ClockPosition(m, now)));
    hide ClockPosition, CellAt, Before;
  }

  // model.tick
  function Ticked(m: Model, now: int): (Model, seq<Command>)
    requires Sound(m)
  {
    HoldSound(m, now);
    var held := HoldChecked(m, now);
    if !held.playing || ClockTick(held, now) <= held.lastTick then (held, [])
    else
      CellSize(held, now);
      PlayedAt(held, now)
  }

  lemma {:induction false} TickedSound(m: Model, now: int)
    requires Sound(m)
    ensures var r := Ticked(m, now).0; Sound(r) && Kept(m.song, r.song)
  {
    HoldSound(m, now);
    hide ValidSong, DistinctSong, HoldChecked, ClockPosition, CellAt, AfterCell, Commands, ClockTick;
  }

  // ---- Runs ----

  // What the main loop does to the sequencer: key events, ticks, the recovery after a stall, and the stop before an
  // export.
  datatype Step = Press(key: Key, now: int) | Tick(now: int) | Stalled | ExportBegins

  ghost function Apply(m: Model, step: Step): Model
    requires Sound(m)
  {
    match step
    case Press(key, now) => Handled(m, key, now).0
    case Tick(now) => Ticked(m, now).0
    case Stalled => GestureCancelled(m).(held := {})
    case ExportBegins => Stopped(GestureCancelled(m)).(held := {})
  }

  lemma {:induction false} ApplySound(m: Model, step: Step)
    requires Sound(m)
    ensures Sound(Apply(m, step)) && Kept(m.song, Apply(m, step).song)
  {
    match step
    case Press(key, now) =>
      HandledSound(m, key, now);
    case Tick(now) =>
      TickedSound(m, now);
    case Stalled =>
      hide ValidSong, DistinctSong;
    case ExportBegins =>
      hide ValidSong, DistinctSong;
  }

  ghost function Run(m: Model, steps: seq<Step>): (r: Model)
    requires Sound(m)
    decreases |steps|
  {
    if steps == [] then m
    else
      ApplySound(m, steps[0]);
      Run(Apply(m, steps[0]), steps[1..])
  }

  // From any valid song, after any run: the song is valid, it has no doubled notes unless it was loaded with some,
  // and the cursor makes sense.
  lemma {:induction false} RunsKeepSound(m: Model, steps: seq<Step>)
    requires Sound(m)
    ensures Sound(Run(m, steps)) && (DistinctSong(m.song) ==> DistinctSong(Run(m, steps).song))
    decreases |steps|
  {
    hide Sound, Kept, Apply, DistinctSong;
    if steps != [] {
      ApplySound(m, steps[0]);
      RunsKeepSound(Apply(m, steps[0]), steps[1..]);
      KeptDistinct(m.song, Apply(m, steps[0]).song);
    }
  }

  lemma {:induction false} KeptDistinct(s: Song, t: Song)
    requires Kept(s, t)
    ensures DistinctSong(s) ==> DistinctSong(t)
  {
    hide DistinctSong, ValidSong;
  }

  lemma {:induction false} NewModelSound(song: Song)
    requires ValidSong(song)
    ensures Sound(NewModel(song))
  {
    hide ValidSong;
    ValidShaped(song);
  }

  lemma {:induction false} ValidShaped(song: Song)
    requires ValidSong(song)
    ensures Shaped(song) && 60 <= song.bpm <= 180
  {
  }

  // What Sound says of the cursor, spelled out.
  lemma {:induction false} CursorIsSound(song: Song, steps: seq<Step>)
    requires ValidSong(song)
    ensures Sound(NewModel(song))
    ensures var m := Run(NewModel(song), steps);
      && ValidSong(m.song) && (DistinctSong(song) ==> DistinctSong(m.song))
      && 0 <= m.page < |m.song.pages| <= MAX_PAGES && -1 <= m.step < STEPS
      && !(m.playing && m.stepMode) && (m.recording ==> m.playing || m.stepMode)
      && (m.playing || m.stepMode ==> m.step >= 0)
      && (m.playing ==> 0 <= m.startStep < Total(m.song))
  {
    NewModelSound(song);
    RunsKeepSound(NewModel(song), steps);
    hide Run, DistinctSong;
  }
}

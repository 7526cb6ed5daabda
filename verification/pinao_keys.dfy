/**
  Keys pressed while the sequencer plays: which of them stop it, and what the
  others leave alone.
 */
module PinaoKeys {
  import opened PinaoSong
  import opened PinaoTies
  import opened PinaoModel
  import opened PinaoRuns
  import opened PinaoTempo

  // The keys that stop a playing sequencer: a page key, space, the step keys, and the second press of delete on a page.
  predicate Stops(m: Model, e: Key, now: int)
    requires Framed(m) && m.startStep >= 0
  {
    && !e.reset && e.down && !m.help
    && ((m.pageKey == 0 && (e.code == KEY_I || e.code == KEY_O)) || e.code == 57 || e.code == 105 || e.code == 106
        || ((e.code == 14 || e.code == 111) && now < m.clearUntil && m.clearPage == ClockPosition(m, now) / STEPS))
  }

  function NewTempo(m: Model, e: Key): int {
    Clamp(60, if e.code == 103 then m.song.bpm + 5 else m.song.bpm - 5, 180)
  }

  // The keys that change its tempo.
  predicate Retimes(m: Model, e: Key) {
    !e.reset && e.down && !m.help && (e.code == 103 || e.code == 108) && NewTempo(m, e) != m.song.bpm
  }

  // No note of a cell has more tied copies than before.
  ghost predicate TiesFrom(cell: Cell, next: Cell) {
    forall h: Hit :: Ties(next, h) <= Ties(cell, h)
  }

  // The same in every cell of a song.
  ghost predicate NoNewTies(s: Song, t: Song) {
    && Shaped(s) && Shaped(t) && Total(t) == Total(s)
    && forall pos: nat :: pos < Total(s) ==> TiesFrom(CellAt(s, pos), CellAt(t, pos))
  }

  // Playing on at the same clock, no tie added.
  ghost predicate Steady(m: Model, r: Model) {
    && r.playing == m.playing && r.transport == m.transport && r.startStep == m.startStep && r.started == m.started
    && r.lastTick == m.lastTick && r.song.bpm == m.song.bpm && NoNewTies(m.song, r.song)
  }

  // ---- Ties that are there ----

  lemma {:induction false} TiesStay(s: Song, t: Song)
    requires Shaped(s) && t.pages == s.pages
    ensures NoNewTies(s, t)
  {
    assert forall pos: nat :: pos < Total(s) ==> CellAt(t, pos) == CellAt(s, pos);
    hide CellAt;
  }

  lemma {:induction false} TiesStillFrom(s: Song, t: Song, u: Song)
    requires NoNewTies(s, t) && NoNewTies(t, u)
    ensures NoNewTies(s, u)
  {
    hide CellAt, Shaped, Total;
    forall pos: nat | pos < Total(s) ensures TiesFrom(CellAt(s, pos), CellAt(u, pos)) {
      assert TiesFrom(CellAt(s, pos), CellAt(t, pos)) && TiesFrom(CellAt(t, pos), CellAt(u, pos));
    }
  }

  lemma {:induction false} TiesReplaced(cell: Cell, i: nat, h: Hit, g: Hit)
    requires i < |cell| && !h.tie
    ensures Ties(cell[i := h], g) <= Ties(cell, g)
  {
    var n := |cell| - 1;
    if i < n {
      assert cell[i := h][..n] == cell[..n][i := h];
      TiesReplaced(cell[..n], i, h, g);
    } else {
      assert cell[i := h][..n] == cell[..n];
    }
  }

  lemma {:induction false} RecordedTies(cell: Cell, h: Hit)
    requires !h.tie
    ensures TiesFrom(cell, RecordedCell(cell, h))
  {
    var i := RecordIndex(cell, h);
    forall g: Hit ensures Ties(RecordedCell(cell, h), g) <= Ties(cell, g) {
      if i >= 0 {
        TiesReplaced(cell, i, h, g);
      } else {
        assert (cell + [h])[..|cell|] == cell;
      }
    }
  }

  // Recording only ever writes attacks.
  lemma {:induction false} RecordedSteady(m: Model, h: Hit, now: int)
    requires Ready(m) && !h.tie
    ensures Steady(m, Recorded(m, h, now))
  {
    assert Shaped(m.song);
    TiesStay(m.song, m.song);
    if m.recording {
      var pos := RecordPosition(m, now);
      var cell := CellAt(m.song, pos);
      var t := WithCell(m.song, pos, RecordedCell(cell, h));
      forall q: nat | q < Total(m.song) ensures TiesFrom(CellAt(m.song, q), CellAt(t, q)) {
        RecordedTies(cell, h);
      }
      hide RecordedCell, WithCell, RecordPosition, CellAt, TiesFrom, Ready;
    }
  }

  // ---- Key by key ----

  lemma {:induction false} ChangesSteady(m: Model, r: Model)
    requires Ready(m) && r.song.pages == m.song.pages && r.song.bpm == m.song.bpm
    requires r == m.(song := r.song, page := r.page, step := r.step, recording := r.recording, help := r.help,
                     pageKey := r.pageKey, pageKeyAt := r.pageKeyAt, pageKeyFired := r.pageKeyFired, held := r.held,
                     captures := r.captures, clearUntil := r.clearUntil, clearPage := r.clearPage)
    ensures Steady(m, r)
  {
    TiesStay(m.song, r.song);
    hide NoNewTies, Shaped, Total;
  }

  // A key going down that is neither a page key nor a switch of the panel.
  lemma {:induction false} DownIs(m: Model, e: Key, now: int)
    requires Ready(m) && !e.reset && e.down && e.code !in {143, 116, 23, 24, 38, 53}
    ensures var r, n := Handled(m, e, now).0, m.(pageKeyFired := m.pageKeyFired || m.pageKey != 0);
      && Ready(n)
      && r == if e.code in {102, 158, 1} || m.help then n
              else if NoteOf(e.code) >= 0 then NotePressed(n, e.code, now).0
              else if DrumOf(e.code) >= 0 then Recorded(n, Hit(0, 0, DrumOf(e.code) + 1, false), now)
              else OtherPressed(n, e.code, now).0
  {
    assert Ready(m.(pageKeyFired := m.pageKeyFired || m.pageKey != 0)) by {
      hide Shaped, Total;
    }
    hide Framed, Total, PageKeyHandled, Released, NotePressed, Recorded, OtherPressed, TiesCancelled, NoteOf, DrumOf;
  }

  // The codes do not overlap.
  lemma {:induction false} CodesApart(code: nat)
    ensures code in {57, 105, 106, 14, 111, 103, 108, 1, 102, 158, 143, 116, 23, 24, 38, 53} ==>
              NoteOf(code) < 0 && DrumOf(code) < 0
    ensures KEY_I == 23 && KEY_O == 24
  {
  }

  lemma {:induction false} ReleasedSteady(m: Model, code: nat)
    requires Ready(m) && |m.captures| == KEY_CODES
    ensures Steady(m, Released(m, code).0)
  {
    var r := Released(m, code).0;
    assert r == m.(held := r.held, captures := r.captures);
    ChangesSteady(m, r);
    hide Steady, Ready;
  }

  lemma {:induction false} PageKeySteady(m: Model, e: Key, now: int)
    requires Ready(m) && m.playing && (e.code == KEY_I || e.code == KEY_O)
    ensures var r := PageKeyHandled(m, e, now).0;
            if e.down && m.pageKey == 0 then !r.playing else Steady(m, r)
  {
    hide *;
    PageKeyIs(m, e, now);
    ChangesSteady(m, m);
    ChangesSteady(m, m.(pageKeyFired := true));
    CancelledSteady(m);
    if e.down {
      PageKeyDownIs(m, e, now);
    } else if e.code == m.pageKey && !m.pageKeyFired {
      OpenGesture(m);
    }
  }

  lemma {:induction false} CancelledSteady(m: Model)
    requires Ready(m)
    ensures Steady(m, GestureCancelled(m)) && Steady(m, GestureCancelled(TiesCancelled(m)))
    ensures forall held :: Steady(m, GestureCancelled(m).(held := held)) &&
                           Steady(m, GestureCancelled(TiesCancelled(m)).(held := held))
    ensures forall help :: Steady(m, GestureCancelled(TiesCancelled(m)).(help := help))
  {
    forall held: set<nat>
      ensures Steady(m, GestureCancelled(m).(held := held)) && Steady(m, GestureCancelled(TiesCancelled(m)).(held := held))
    {
      ChangesSteady(m, GestureCancelled(m).(held := held));
      ChangesSteady(m, GestureCancelled(TiesCancelled(m)).(held := held));
    }
    forall help: bool ensures Steady(m, GestureCancelled(TiesCancelled(m)).(help := help)) {
      ChangesSteady(m, GestureCancelled(TiesCancelled(m)).(help := help));
    }
    ChangesSteady(m, GestureCancelled(m));
    ChangesSteady(m, GestureCancelled(TiesCancelled(m)));
    hide Steady, Ready;
  }

  lemma {:induction false} PageKeyDownIs(m: Model, e: Key, now: int)
    requires Ready(m) && (e.code == KEY_I || e.code == KEY_O) && e.down
    ensures var r := PageKeyHandled(m, e, now).0;
            if m.pageKey == 0 then !r.playing else r == m || r == m.(pageKeyFired := true)
  {
    hide Framed, Total, Synced;
  }

  lemma {:induction false} NoteSteady(m: Model, code: nat, now: int)
    requires Ready(m) && NoteOf(code) >= 0
    ensures Steady(m, NotePressed(m, code, now).0)
  {
    hide *;
    if code in m.held {
      HeldAlready(m, code, now);
      ChangesSteady(m, m);
    } else {
      NotePressedIs(m, code, now);
      var n := m.(held := m.held + {code});
      var h := Hit(12 * (m.song.octave + 1) + NoteOf(code), m.song.tone, 0, false);
      RecordedSteady(n, h, now);
      SteadyParts(m, n, Recorded(n, h, now), NotePressed(m, code, now).0);
    }
  }

  lemma {:induction false} SteadyParts(m: Model, n: Model, r: Model, s: Model)
    requires n == m.(held := n.held) && Steady(n, r) && s == r.(captures := s.captures)
    ensures Steady(m, s)
  {
    hide NoNewTies;
  }

  lemma {:induction false} HeldAlready(m: Model, code: nat, now: int)
    requires Ready(m) && NoteOf(code) >= 0 && code in m.held
    ensures NotePressed(m, code, now).0 == m
  {
  }

  // The keys that are no notes.
  lemma {:induction false} OtherSteady(m: Model, code: nat, now: int)
    requires Ready(m) && m.playing && code !in {103, 108}
    requires Framed(m) && m.startStep >= 0
    ensures var r := OtherPressed(m, code, now).0;
            if code == 57 || code == 105 || code == 106 ||
               ((code == 14 || code == 111) && now < m.clearUntil && m.clearPage == ClockPosition(m, now) / STEPS)
            then !r.playing else Steady(m, r)
  {
    hide *;
    OtherIs(m, code, now);
    ChangesSteady(m, m);
    if code == 57 {
      SpaceStops(m, now);
    } else if code == 19 {
      RecordSteady(m, now);
    } else if code == 105 || code == 106 {
      StepStops(m, if code == 105 then -1 else 1, now);
    } else if code == 14 || code == 111 {
      DeletePlaying(m, now);
    } else {
      SettingSteady(m, code);
    }
  }

  lemma {:induction false} SpaceStops(m: Model, now: int)
    requires Ready(m) && m.playing
    ensures !SpacePressed(m, now).0.playing
  {
    hide ClockPosition, NoCaptures, Shaped, Total;
  }

  lemma {:induction false} RecordSteady(m: Model, now: int)
    requires Ready(m) && m.playing
    ensures Steady(m, RecordPressed(m, now))
  {
    ChangesSteady(m, RecordPressed(m, now));
    hide NoCaptures, Steady, Ready;
  }

  lemma {:induction false} StepStops(m: Model, delta: int, now: int)
    requires Ready(m)
    ensures !StepSelected(m, delta, now).playing
  {
    var moved := StepSelectedIs(m, delta, now);
    hide StepSelected, Extended, Ready, NoCaptures;
    if m.stepMode {
      assert Extended(moved, Position(m)).playing == moved.playing;
    }
  }

  lemma {:induction false} DeletePlaying(m: Model, now: int)
    requires Ready(m) && m.playing && Framed(m) && m.startStep >= 0
    ensures var r := DeletePressed(m, now).0;
            if now < m.clearUntil && m.clearPage == ClockPosition(m, now) / STEPS then !r.playing else Steady(m, r)
  {
    var r := DeletePressed(m, now).0;
    var quiet := TiesCancelled(m);
    assert Framed(quiet) && ClockPosition(quiet, now) == ClockPosition(m, now);
    assert Synced(quiet, now).page == ClockPosition(m, now) / STEPS;
    if !(now < m.clearUntil && m.clearPage == ClockPosition(m, now) / STEPS) {
      assert r == m.(page := r.page, step := r.step, captures := r.captures, clearUntil := r.clearUntil,
                     clearPage := r.clearPage);
      ChangesSteady(m, r);
    }
    hide *;
  }

  lemma {:induction false} SettingSteady(m: Model, code: nat)
    requires Ready(m)
    ensures Steady(m, SettingPressed(m, code))
  {
    ChangesSteady(m, SettingPressed(m, code));
    hide Steady, Ready;
  }

  // ---- Any key ----

  // A playing sequencer plays on unless the key is one that stops it; and unless it is a tempo key, its clock, its
  // transport and its ties stay.
  lemma {:induction false} PlaysOnExactly(m: Model, e: Key, now: int)
    requires Sound(m) && m.playing && Framed(m) && m.startStep >= 0
    ensures Handled(m, e, now).0.playing <==> !Stops(m, e, now)
    ensures !Stops(m, e, now) && !Retimes(m, e) ==> Steady(m, Handled(m, e, now).0)
    ensures Retimes(m, e) ==> !Stops(m, e, now) && 60 <= NewTempo(m, e) <= 180 &&
                              var n := m.(pageKeyFired := m.pageKeyFired || m.pageKey != 0);
                              Sound(n) && Handled(m, e, now).0 == TempoSet(n, NewTempo(m, e), now)
  {
    hide *;
    SoundParts(m);
    HandledIs(m, e, now);
    CodesApart(e.code);
    StopsIs(m, e, now);
    CancelledSteady(m);
    ChangesSteady(m, m);
    if e.reset || e.code in {143, 116} {
    } else if e.code in {23, 24} {
      if !m.help {
        PageKeySteady(m, e, now);
      }
    } else if !e.down {
      ReleasedSteady(m, e.code);
    } else {
      DownWhilePlaying(m, e, now);
      if Retimes(m, e) {
        Retimed(m.(pageKeyFired := m.pageKeyFired || m.pageKey != 0), NewTempo(m, e), now);
      }
    }
    SteadyPlays(m, Handled(m, e, now).0);
  }

  lemma {:induction false} SteadyPlays(m: Model, r: Model)
    ensures Steady(m, r) && m.playing ==> r.playing
  {
    hide NoNewTies;
  }

  lemma {:induction false} StopsIs(m: Model, e: Key, now: int)
    requires Framed(m) && m.startStep >= 0
    ensures Stops(m, e, now) ==> !e.reset && e.down && !m.help
    ensures e.code in {23, 24} && !e.reset && e.down && !m.help ==> (Stops(m, e, now) <==> m.pageKey == 0)
    ensures e.code !in {23, 24} && !e.reset && e.down && !m.help ==>
              (Stops(m, e, now) <==>
               (e.code == 57 || e.code == 105 || e.code == 106 ||
                ((e.code == 14 || e.code == 111) && now < m.clearUntil && m.clearPage == ClockPosition(m, now) / STEPS)))
    ensures Retimes(m, e) <==>
              !e.reset && e.down && !m.help && (e.code == 103 || e.code == 108) && NewTempo(m, e) != m.song.bpm
    ensures NewTempo(m, e) == Clamp(60, if e.code == 103 then m.song.bpm + 5 else m.song.bpm - 5, 180)
    ensures 60 <= NewTempo(m, e) <= 180
  {
    hide ClockPosition, Framed;
  }

  lemma {:induction false} DownWhilePlaying(m: Model, e: Key, now: int)
    requires Sound(m) && m.playing && Ready(m) && Framed(m) && m.startStep >= 0
    requires !e.reset && e.down && e.code !in {143, 116, 23, 24}
    ensures var r, n := Handled(m, e, now).0, m.(pageKeyFired := m.pageKeyFired || m.pageKey != 0);
      && (Stops(m, e, now) ==> !r.playing)
      && (!Stops(m, e, now) && !Retimes(m, e) ==> Steady(m, r))
      && (Retimes(m, e) ==> Sound(n) && 60 <= NewTempo(m, e) <= 180 && r == TempoSet(n, NewTempo(m, e), now))
  {
    hide *;
    FiredSound(m);
    var n := m.(pageKeyFired := m.pageKeyFired || m.pageKey != 0);
    SoundParts(n);
    CodesApart(e.code);
    StopsIs(m, e, now);
    FiredClock(m, n, now);
    ChangesSteady(m, n);
    if e.code in {38, 53} {
      HandledIs(m, e, now);
      CancelledSteady(n);
      SteadyFrom(m, n, Handled(m, e, now).0);
    } else {
      DownIs(m, e, now);
      if e.code !in {102, 158, 1} && !m.help {
        if NoteOf(e.code) >= 0 {
          NoteSteady(n, e.code, now);
        } else if DrumOf(e.code) >= 0 {
          RecordedSteady(n, Hit(0, 0, DrumOf(e.code) + 1, false), now);
        } else if e.code in {103, 108} {
          OtherIs(n, e.code, now);
          TempoStill(n, NewTempo(m, e), now);
        } else {
          OtherSteady(n, e.code, now);
        }
        SteadyFrom(m, n, Handled(m, e, now).0);
      }
    }
  }

  lemma {:induction false} FiredClock(m: Model, n: Model, now: int)
    requires Framed(m) && m.startStep >= 0 && n == m.(pageKeyFired := n.pageKeyFired)
    ensures Framed(n) && ClockPosition(n, now) == ClockPosition(m, now) && ClockTick(n, now) == ClockTick(m, now)
    ensures Elapsed(n, now) == Elapsed(m, now)
  {
  }

  lemma {:induction false} SteadyFrom(m: Model, n: Model, r: Model)
    requires n == m.(pageKeyFired := n.pageKeyFired)
    ensures Steady(n, r) <==> Steady(m, r)
  {
    hide NoNewTies;
  }
}

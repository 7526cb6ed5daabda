/**
  What pressing a key of the sequencer does, said about its panel and its song:
  which cell takes a note, what the note is, and what the setting keys set.
 */
module PinaoPresses {
  import opened Division
  import opened PinaoSong
  import opened PinaoTransport
  import opened PinaoModel
  import opened PinaoRuns
  import opened PinaoTempo

  // The keys of an octave and a note, upwards: A W S E D F T G Y H U J K.
  const PIANO: seq<nat> := [30, 17, 31, 18, 32, 33, 20, 34, 21, 35, 22, 36, 37]

  // ---- Where a note is recorded ----

  // d nanoseconds are one step: an eighth note, rounded down.
  predicate IsStep(bpm: int, d: nat) {
    d * bpm <= 30_000_000_000 < (d + 1) * bpm
  }

  // t is the time since playback started.
  predicate IsElapsed(m: Model, now: int, t: nat) {
    t == if now > m.started then now - m.started else 0
  }

  // k is the number of the step that begins nearest to t.
  predicate IsNearest(t: nat, d: nat, k: nat) {
    2 * k * d <= 2 * t + (d - d % 2) < 2 * (k + 1) * d
  }

  // k steps have begun by t.
  predicate IsTick(t: nat, d: nat, k: nat) {
    k * d <= t < (k + 1) * d
  }

  // late nanoseconds of step k have passed by t.
  predicate IsLate(t: nat, d: nat, k: nat, late: nat) {
    t == k * d + late && late < d
  }

  // part is to after what late is to d, rounded down.
  predicate IsScaled(part: int, late: nat, d: nat, after: nat) {
    part * d <= late * after < (part + 1) * d
  }

  // ---- What a cell becomes ----

  // The same hit, or the same pitch and tone.
  predicate Matches(a: Hit, b: Hit) {
    a == b || (a.drum == 0 && b.drum == 0 && a.midi == b.midi && a.tone == b.tone)
  }

  // The hit replaces the first one it matches, or else is added while there are fewer than eight.
  ghost predicate Takes(cell: Cell, after: Cell, h: Hit) {
    if exists k :: 0 <= k < |cell| && Matches(cell[k], h) then
      exists k :: 0 <= k < |cell| && Matches(cell[k], h) && (forall j :: 0 <= j < k ==> !Matches(cell[j], h)) && after == cell[k := h]
    else after == if |cell| < 8 then cell + [h] else cell
  }

  // Only the cell at pos is written, and a pending confirmation lapses when something changed.
  ghost predicate Written(m: Model, r: Model, pos: nat, h: Hit) {
    && Shaped(m.song) && Shaped(r.song) && r.song == m.song.(pages := r.song.pages) && Total(r.song) == Total(m.song)
    && pos < Total(m.song) && Takes(CellAt(m.song, pos), CellAt(r.song, pos), h)
    && (forall q: nat :: q < Total(m.song) && q != pos ==> CellAt(r.song, q) == CellAt(m.song, q))
    && (r.song == m.song ==> r.clearUntil == m.clearUntil && r.clearPage == m.clearPage)
    && (r.song != m.song ==> r.clearUntil == NO_TIME && r.clearPage == -1)
  }

  // A written cell sounds the hit untied, unless eight others fill it.
  lemma {:induction false} TakenSounds(cell: Cell, after: Cell, h: Hit)
    requires Takes(cell, after, h)
    ensures h in after || (after == cell && |cell| >= 8 && forall k :: 0 <= k < |cell| ==> !Matches(cell[k], h))
  {
    if exists k :: 0 <= k < |cell| && Matches(cell[k], h) {
      var k :| 0 <= k < |cell| && Matches(cell[k], h) && after == cell[k := h];
      assert after[k] == h;
    }
  }

  lemma {:induction false} RecordedCellTakes(cell: Cell, h: Hit)
    ensures Takes(cell, RecordedCell(cell, h), h)
  {
    var i := RecordIndex(cell, h);
    assert forall k :: 0 <= k < |cell| ==> (Matches(cell[k], h) <==> cell[k] == h || SameNote(cell[k], h));
    hide SameNote, Matches, RecordIndex;
  }

  // ---- The clock ----

  lemma {:induction false} StepIs(bpm: int) returns (d: nat)
    requires 60 <= bpm <= 180
    ensures d == StepDuration(bpm) && d > 0 && IsStep(bpm, d)
  {
    d := StepDuration(bpm);
    AtLeast(60_000_000_000, bpm * 2, d);
    AtLeast(60_000_000_000, bpm * 2, d + 1);
    assert d * (bpm * 2) == 2 * (d * bpm) && (d + 1) * (bpm * 2) == 2 * ((d + 1) * bpm);
  }

  lemma {:induction false} NearestIs(t: nat, d: nat) returns (k: nat)
    requires d > 0
    ensures k == (t + d / 2) / d && IsNearest(t, d, k)
  {
    var q := Quotient(t + d / 2, d);
    AtLeast(t + d / 2, d, 0);
    k := q;
    assert (k + 1) * d == k * d + d;
    assert 2 * k * d == 2 * (k * d) && 2 * (k + 1) * d == 2 * ((k + 1) * d);
    assert 2 * (d / 2) == d - d % 2;
  }

  lemma {:induction false} TickIs(t: nat, d: nat) returns (k: nat)
    requires d > 0
    ensures k == t / d && IsTick(t, d, k)
  {
    var q := Quotient(t, d);
    AtLeast(t, d, 0);
    k := q;
    assert (k + 1) * d == k * d + d;
  }

  // ---- Recording ----

  // A hit goes to the cell of the cursor, or while playing to the one whose step begins nearest to now.
  lemma {:induction false} RecordedThere(m: Model, h: Hit, now: int) returns (pos: nat, t: nat, d: nat, k: nat)
    requires Ready(m) && m.recording
    ensures |m.song.pages| > 0 && IsElapsed(m, now, t) && IsStep(m.song.bpm, d) && IsNearest(t, d, k)
    ensures pos == if m.stepMode then m.page * 16 + m.step else (m.startStep + k) % (16 * |m.song.pages|)
    ensures var r := Recorded(m, h, now); r == m.(song := r.song, clearUntil := r.clearUntil, clearPage := r.clearPage)
    ensures Written(m, Recorded(m, h, now), pos, h)
  {
    hide *;
    RecordingFacts(m);
    t := Elapsed(m, now);
    ElapsedIs(m, now);
    d := StepIs(m.song.bpm);
    k := NearestIs(t, d);
    pos := RecordPosition(m, now);
    PlaceIs(m, now, d, k);
    RecordWrites(m, h, now);
    if !m.stepMode {
      ModSum(m.startStep, k, 16 * |m.song.pages|);
    }
  }

  lemma {:induction false} RecordingFacts(m: Model)
    requires Ready(m)
    ensures 60 <= m.song.bpm <= 180 && |m.song.pages| > 0 && Shaped(m.song) && Total(m.song) == 16 * |m.song.pages|
    ensures m.recording && !m.stepMode ==> m.startStep >= 0
  {
  }

  lemma {:induction false} ElapsedIs(m: Model, now: int)
    ensures IsElapsed(m, now, Elapsed(m, now))
  {
  }

  lemma {:induction false} PlaceIs(m: Model, now: int, d: nat, k: nat)
    requires Ready(m) && m.recording && 60 <= m.song.bpm <= 180 && d == StepDuration(m.song.bpm) > 0 && |m.song.pages| > 0
    requires k == (Elapsed(m, now) + d / 2) / d
    ensures RecordPosition(m, now) ==
            if m.stepMode then m.page * 16 + m.step
            else (m.startStep + k % (16 * |m.song.pages|)) % (16 * |m.song.pages|)
  {
    hide StepDuration, Elapsed, Framed;
  }

  lemma {:induction false} RecordWrites(m: Model, h: Hit, now: int)
    requires Ready(m) && m.recording
    ensures Written(m, Recorded(m, h, now), RecordPosition(m, now), h)
  {
    assert Shaped(m.song);
    var pos := RecordPosition(m, now);
    var cell := CellAt(m.song, pos);
    RecordedCellTakes(cell, h);
    hide RecordPosition, RecordedCell, CellAt, WithCell, Takes, Framed;
    if RecordedCell(cell, h) != cell {
      assert CellAt(WithCell(m.song, pos, RecordedCell(cell, h)), pos) != CellAt(m.song, pos);
    }
  }

  // ---- Note keys ----

  // Key n of the piano sounds the n-th semitone of the octave in the tone chosen, once; while recording the note goes to
  // its cell, and in step mode the key is remembered as holding it there.
  lemma {:induction false} NoteKeyRecords(m: Model, e: Key, now: int, n: nat) returns (pos: nat, t: nat, d: nat, k: nat)
    requires Ready(m) && !e.reset && e.down && !m.help && n < 13 && e.code == PIANO[n] && e.code !in m.held
    ensures |m.song.pages| > 0 && |m.captures| == 128 && e.code < 128
    ensures m.recording ==> IsElapsed(m, now, t) && IsStep(m.song.bpm, d) && IsNearest(t, d, k)
    ensures m.recording ==> pos == if m.stepMode then m.page * 16 + m.step else (m.startStep + k) % (16 * |m.song.pages|)
    ensures var (r, commands, action) := Handled(m, e, now);
      var h := Hit(12 * (m.song.octave + 1) + n, m.song.tone, 0, false);
      && commands == [On(e.code, h.midi, h.tone)] && action == Nothing
      && r == m.(song := r.song, captures := r.captures, clearUntil := r.clearUntil, clearPage := r.clearPage,
                 held := m.held + {e.code}, pageKeyFired := m.pageKeyFired || m.pageKey != 0)
      && (m.recording ==> Written(m, r, pos, h))
      && (!m.recording ==> r.song == m.song && r.clearUntil == m.clearUntil && r.clearPage == m.clearPage)
      && r.captures ==
           if m.recording && m.stepMode && exists i :: 0 <= i < |CellAt(r.song, pos)| && Matches(CellAt(r.song, pos)[i], h)
           then m.captures[e.code := Capture(h, pos, true)] else m.captures
  {
    hide *;
    pos, t, d, k := 0, 0, 0, 0;
    PianoKey(n, e.code);
    NoteHandled(m, e, now);
    var f := m.(pageKeyFired := m.pageKeyFired || m.pageKey != 0);
    var p := f.(held := m.held + {e.code});
    var h := Hit(12 * (m.song.octave + 1) + n, m.song.tone, 0, false);
    FiredReady(m);
    RecordingFacts(m);
    CaptureRoom(m);
    HeldKeepsReady(f, p.held);
    NoteIs(f, e.code, h, now);
    var r := Recorded(p, h, now);
    if m.recording {
      pos, t, d, k := RecordedThere(p, h, now);
      SameElapsed(m, p, now, t);
      SameWritten(m, p, r, NotePressed(f, e.code, now).0, pos, h);
      if m.stepMode {
        CursorCell(r, pos, h);
      }
    } else {
      NotRecorded(p, h, now);
    }
  }

  lemma {:induction false} PianoKey(n: nat, code: nat)
    requires n < 13 && code == PIANO[n]
    ensures NoteOf(code) == n && code < 128
  {
  }

  lemma {:induction false} CaptureRoom(m: Model)
    requires Ready(m)
    ensures |m.captures| == 128
  {
    hide Shaped, Total;
  }

  lemma {:induction false} FiredReady(m: Model)
    requires Ready(m)
    ensures Ready(m.(pageKeyFired := m.pageKeyFired || m.pageKey != 0))
  {
    hide Shaped, Total;
  }

  lemma {:induction false} NoteHandled(m: Model, e: Key, now: int)
    requires Ready(m) && !e.reset && e.down && !m.help && NoteOf(e.code) >= 0
    ensures var f := m.(pageKeyFired := m.pageKeyFired || m.pageKey != 0);
      Ready(f) && Handled(m, e, now) == (NotePressed(f, e.code, now).0, NotePressed(f, e.code, now).1, Nothing)
  {
    FiredReady(m);
    hide Ready, NotePressed;
  }

  lemma {:induction false} NoteIs(m: Model, code: nat, h: Hit, now: int)
    requires Ready(m) && NoteOf(code) >= 0 && code !in m.held && code < 128 && |m.captures| == 128
    requires h == Hit(12 * (m.song.octave + 1) + NoteOf(code), m.song.tone, 0, false)
    ensures var n := m.(held := m.held + {code});
      && Ready(n) && Shaped(Recorded(n, h, now).song) && |Recorded(n, h, now).captures| == 128
      && var r := Recorded(n, h, now);
         && 0 <= r.page < |r.song.pages| && (r.stepMode ==> 0 <= r.step < |r.song.pages[r.page]|)
         && NotePressed(m, code, now) ==
              (if r.recording && r.stepMode && NoteIndex(r.song.pages[r.page][r.step], h) >= 0
               then r.(captures := r.captures[code := Capture(h, r.page * 16 + r.step, true)]) else r,
               [On(code, h.midi, h.tone)])
  {
    hide NoteIndex, Recorded, Ready;
    HeldKeepsReady(m, m.held + {code});
    var r := Recorded(m.(held := m.held + {code}), h, now);
    ReadyCursor(r);
  }

  lemma {:induction false} ReadyCursor(r: Model)
    requires Ready(r)
    ensures Framed(r) && Shaped(r.song) && |r.captures| == 128 && 0 <= r.page < |r.song.pages| && |r.song.pages[r.page]| == 16
    ensures -1 <= r.step < 16 && (r.stepMode ==> r.step >= 0)
  {
  }

  lemma {:induction false} SameElapsed(m: Model, p: Model, now: int, t: nat)
    requires p.started == m.started
    ensures IsElapsed(p, now, t) <==> IsElapsed(m, now, t)
  {
  }

  lemma {:induction false} SameWritten(m: Model, p: Model, r: Model, s: Model, pos: nat, h: Hit)
    requires p == m.(held := p.held, pageKeyFired := p.pageKeyFired) && s == r.(captures := s.captures)
    requires Written(p, r, pos, h)
    ensures Written(m, s, pos, h)
  {
    hide CellAt, Takes;
  }

  // The cursor's cell sounds the note exactly when something in it matches.
  lemma {:induction false} CursorCell(r: Model, pos: nat, h: Hit)
    requires Shaped(r.song) && 0 <= r.page < |r.song.pages| && 0 <= r.step < |r.song.pages[r.page]| && h.drum == 0
    requires pos == r.page * 16 + r.step
    ensures pos < Total(r.song)
    ensures NoteIndex(r.song.pages[r.page][r.step], h) >= 0 <==>
            exists i :: 0 <= i < |CellAt(r.song, pos)| && Matches(CellAt(r.song, pos)[i], h)
  {
    CellOnPage(r.song, r.page, r.step);
    var cell := r.song.pages[r.page][r.step];
    var i := NoteIndex(cell, h);
    assert forall k :: 0 <= k < |cell| ==> (Matches(cell[k], h) <==> SameNote(cell[k], h));
  }

  lemma {:induction false} NotRecorded(m: Model, h: Hit, now: int)
    requires Ready(m) && !m.recording
    ensures Recorded(m, h, now) == m
  {
  }

  // A drum key strikes its drum, and records the stroke in the same way.
  lemma {:induction false} DrumKeyRecords(m: Model, e: Key, now: int, drum: nat) returns (pos: nat, t: nat, d: nat, k: nat)
    requires Ready(m) && !e.reset && e.down && !m.help && drum < 4 && (e.code == 46 + drum || e.code == 2 + drum)
    ensures |m.song.pages| > 0
    ensures m.recording ==> IsElapsed(m, now, t) && IsStep(m.song.bpm, d) && IsNearest(t, d, k)
    ensures m.recording ==> pos == if m.stepMode then m.page * 16 + m.step else (m.startStep + k) % (16 * |m.song.pages|)
    ensures var (r, commands, action) := Handled(m, e, now);
      && commands == [Drum(200 + drum, drum)] && action == Nothing
      && r == m.(song := r.song, clearUntil := r.clearUntil, clearPage := r.clearPage,
                 pageKeyFired := m.pageKeyFired || m.pageKey != 0)
      && (m.recording ==> Written(m, r, pos, Hit(0, 0, drum + 1, false)))
      && (!m.recording ==> r.song == m.song && r.clearUntil == m.clearUntil && r.clearPage == m.clearPage)
  {
    hide *;
    pos, t, d, k := 0, 0, 0, 0;
    var f := m.(pageKeyFired := m.pageKeyFired || m.pageKey != 0);
    var h := Hit(0, 0, drum + 1, false);
    FiredReady(m);
    RecordingFacts(m);
    DrumHandled(m, e, now, drum);
    if m.recording {
      pos, t, d, k := RecordedThere(f, h, now);
      SameElapsed(m, f, now, t);
      SameWritten(m, f, Recorded(f, h, now), Recorded(f, h, now), pos, h);
    } else {
      NotRecorded(f, h, now);
    }
  }

  lemma {:induction false} DrumHandled(m: Model, e: Key, now: int, drum: nat)
    requires Ready(m) && !e.reset && e.down && !m.help && drum < 4 && (e.code == 46 + drum || e.code == 2 + drum)
    ensures var f := m.(pageKeyFired := m.pageKeyFired || m.pageKey != 0);
      && Ready(f)
      && Handled(m, e, now) == (Recorded(f, Hit(0, 0, drum + 1, false), now), [Drum(200 + drum, drum)], Nothing)
  {
    FiredReady(m);
    hide Ready, Recorded;
  }

  // ---- Releases, and keys that sound nothing ----

  // A key counts once while it is down; its note ends, and its capture, when it goes up.
  lemma {:induction false} KeysGoUp(m: Model, e: Key, now: int)
    requires Ready(m) && !e.reset && e.code !in {23, 24, 116, 143}
    ensures |m.captures| == 128
    ensures var (r, commands, action) := Handled(m, e, now);
      && (!e.down ==>
            && commands == (if e.code in m.held then [Off(e.code)] else []) && action == Nothing
            && r == m.(held := m.held - {e.code}, captures := r.captures)
            && r.captures == if e.code in m.held && e.code < 128
                             then m.captures[e.code := m.captures[e.code].(valid := false)] else m.captures)
      && (e.down && !m.help && e.code in PIANO && e.code in m.held ==>
            commands == [] && action == Nothing && r == m.(pageKeyFired := m.pageKeyFired || m.pageKey != 0))
  {
    CaptureRoom(m);
    if e.down && !m.help && e.code in PIANO && e.code in m.held {
      var n :| 0 <= n < |PIANO| && PIANO[n] == e.code;
      PianoKey(n, e.code);
      NoteHandled(m, e, now);
      hide Ready, Handled, PIANO, Recorded;
    } else if !e.down {
      assert e.code !in m.held ==> m.held - {e.code} == m.held;
      hide Ready, NotePressed, OtherPressed, PageKeyHandled, Recorded;
    }
  }

  // The keys of the panel: tone, octave, volume, help, save, export and leaving.
  lemma {:induction false} PanelKeys(m: Model, e: Key, now: int)
    requires Sound(m) && !e.reset && e.down
    ensures Ready(m)
    ensures var (r, commands, action) := Handled(m, e, now);
      var f := m.(pageKeyFired := m.pageKeyFired || m.pageKey != 0);
      var edited := f.(clearUntil := NO_TIME, clearPage := -1);
      var s := m.song;
      && (e.code in {1, 102, 158} ==> r == f && commands == [] && action == Exit)
      && (e.code in {38, 53} ==>
            && r == f.(help := !m.help, pageKey := 0, pageKeyAt := NO_TIME, pageKeyFired := false, captures := r.captures)
            && |r.captures| == 128 && (forall i :: 0 <= i < 128 ==> !r.captures[i].valid) && commands == [] && action == Nothing)
      && (m.help && e.code !in {1, 102, 158, 38, 53, 116, 143, 23, 24} ==> r == f && commands == [] && action == Nothing)
      && (!m.help ==>
            && (e.code in {15, 16} ==>
                  r == edited.(song := s.(tone := if s.tone == 2 then 0 else s.tone + 1)) && commands == [] && action == Nothing)
            && (e.code == 44 ==>
                  r == (if s.octave == 3 then f else edited.(song := s.(octave := s.octave - 1))) && commands == [] &&
                  action == Nothing)
            && (e.code == 45 ==>
                  r == (if s.octave == 6 then f else edited.(song := s.(octave := s.octave + 1))) && commands == [] &&
                  action == Nothing)
            && (e.code == 115 ==>
                  var v := if s.volume <= 95 then s.volume + 5 else 100;
                  r == edited.(song := s.(volume := v)) && commands == [Volume(v)] && action == Nothing)
            && (e.code == 114 ==>
                  var v := if s.volume >= 5 then s.volume - 5 else 0;
                  r == edited.(song := s.(volume := v)) && commands == [Volume(v)] && action == Nothing)
            && (e.code == 25 ==> r == f && commands == [] && action == Export)
            && (e.code in {28, 352} ==> r == f && commands == [] && action == Save))
  {
    hide *;
    SoundParts(m);
    SettingsInRange(m);
    var f := m.(pageKeyFired := m.pageKeyFired || m.pageKey != 0);
    FiredReady(m);
    NoNoteKeys(e.code);
    PressHandled(m, e, now);
    NothingHeldIs(f);
    SettingKeys(f, e.code, now);
  }

  lemma {:induction false} NoNoteKeys(code: nat)
    ensures code in {1, 102, 158, 38, 53, 15, 16, 44, 45, 114, 115, 25, 28, 352, 57, 19, 105, 106, 14, 111} ==>
              NoteOf(code) < 0 && DrumOf(code) < 0
  {
  }

  lemma {:induction false} PressHandled(m: Model, e: Key, now: int)
    requires Ready(m) && !e.reset && e.down
    ensures var f := m.(pageKeyFired := m.pageKeyFired || m.pageKey != 0);
      && Ready(f)
      && (e.code in {1, 102, 158} ==> Handled(m, e, now) == (f, [], Exit))
      && (e.code in {38, 53} ==> Handled(m, e, now) == (GestureCancelled(TiesCancelled(f)).(help := !m.help), [], Nothing))
      && (m.help && e.code !in {1, 102, 158, 38, 53, 116, 143, 23, 24} ==> Handled(m, e, now) == (f, [], Nothing))
      && (!m.help && e.code !in {1, 102, 158, 38, 53, 116, 143, 23, 24} && NoteOf(e.code) < 0 && DrumOf(e.code) < 0 ==>
            Handled(m, e, now) == OtherPressed(f, e.code, now))
  {
    FiredReady(m);
    hide Ready, NotePressed, Recorded, OtherPressed, PageKeyHandled, NoteOf, DrumOf, TiesCancelled, Released;
  }

  lemma {:induction false} NothingHeldIs(m: Model)
    ensures var r := TiesCancelled(m); r == m.(captures := r.captures)
    ensures var r := TiesCancelled(m).captures; |r| == 128 && forall i :: 0 <= i < 128 ==> r[i] == NO_CAPTURE && !r[i].valid
    ensures var r := GestureCancelled(m); r == m.(pageKey := 0, pageKeyAt := NO_TIME, pageKeyFired := false)
    ensures GestureCancelled(TiesCancelled(m)) == TiesCancelled(m).(pageKey := 0, pageKeyAt := NO_TIME, pageKeyFired := false)
  {
  }

  lemma {:induction false} SettingKeys(m: Model, code: nat, now: int)
    requires Ready(m) && SettingsOk(m.song)
    ensures var s, r, edited := m.song, OtherPressed(m, code, now), m.(clearUntil := NO_TIME, clearPage := -1);
      && (code in {15, 16} ==> r == (edited.(song := s.(tone := if s.tone == 2 then 0 else s.tone + 1)), [], Nothing))
      && (code == 44 ==> r == (if s.octave == 3 then m else edited.(song := s.(octave := s.octave - 1)), [], Nothing))
      && (code == 45 ==> r == (if s.octave == 6 then m else edited.(song := s.(octave := s.octave + 1)), [], Nothing))
      && (code == 115 ==>
            var v := if s.volume <= 95 then s.volume + 5 else 100; r == (edited.(song := s.(volume := v)), [Volume(v)], Nothing))
      && (code == 114 ==>
            var v := if s.volume >= 5 then s.volume - 5 else 0; r == (edited.(song := s.(volume := v)), [Volume(v)], Nothing))
      && (code == 25 ==> r == (m, [], Export))
      && (code in {28, 352} ==> r == (m, [], Save))
  {
    hide Ready, StepSelected, TempoSet, DeletePressed, SpacePressed, RecordPressed;
  }

  lemma {:induction false} SettingsInRange(m: Model)
    requires Sound(m)
    ensures SettingsOk(m.song)
  {
    hide Ready, CellOk;
  }

  // The power keys only let go of a page key, and a lost keyboard lets go of everything.
  lemma {:induction false} PowerAndReset(m: Model, e: Key, now: int)
    requires Ready(m)
    ensures var (r, commands, action) := Handled(m, e, now);
      && (e.reset ==>
            && commands == [OffAll] && action == Nothing && |r.captures| == 128
            && (forall i :: 0 <= i < 128 ==> !r.captures[i].valid)
            && r == m.(held := {}, pageKey := 0, pageKeyAt := NO_TIME, pageKeyFired := false, captures := r.captures))
      && (!e.reset && e.code in {116, 143} ==>
            commands == [] && action == Nothing && r == m.(pageKey := 0, pageKeyAt := NO_TIME, pageKeyFired := false))
  {
    hide Ready, PageKeyHandled, NotePressed, Recorded, OtherPressed;
  }

  // ---- Tempo ----

  // The tempo keys go five beats a minute up to 180 and down to 60. While playing, the clock is set back so that the same
  // part of the step has passed, rounded down to a nanosecond.
  lemma {:induction false} TempoKeys(m: Model, e: Key, now: int)
    returns (bpm: int, t: nat, d: nat, k: nat, late: nat, after: nat)
    requires Sound(m) && !e.reset && e.down && !m.help && e.code in {103, 108}
    ensures Ready(m) && 60 <= m.song.bpm <= 180
    ensures bpm == if e.code == 103 then (if m.song.bpm <= 175 then m.song.bpm + 5 else 180)
                   else (if m.song.bpm >= 65 then m.song.bpm - 5 else 60)
    ensures IsElapsed(m, now, t) && IsStep(m.song.bpm, d) && IsLate(t, d, k, late) && IsStep(bpm, after)
    ensures var (r, commands, action) := Handled(m, e, now);
      && commands == [] && action == Nothing && r.song == m.song.(bpm := bpm) && r.playing == m.playing
      && (bpm == m.song.bpm ==> r == m.(pageKeyFired := m.pageKeyFired || m.pageKey != 0))
      && (bpm != m.song.bpm ==> r.clearUntil == NO_TIME && r.clearPage == -1)
      && (m.playing && bpm != m.song.bpm ==>
            IsScaled(now - r.started, late, d, after) && r.lastTick == if k <= m.lastTick then 0 else -1)
  {
    hide *;
    SoundParts(m);
    FiredSound(m);
    var f := m.(pageKeyFired := m.pageKeyFired || m.pageKey != 0);
    RecordingFacts(m);
    bpm := if e.code == 103 then (if m.song.bpm <= 175 then m.song.bpm + 5 else 180)
           else (if m.song.bpm >= 65 then m.song.bpm - 5 else 60);
    SoundParts(f);
    TempoHandled(m, e, bpm, now);
    TempoStill(f, bpm, now);
    t := Elapsed(m, now);
    ElapsedIs(m, now);
    SameClock(m, f, now);
    d := StepIs(m.song.bpm);
    after := StepIs(bpm);
    k, late := LateIs(t, d);
    EditedIs(f.(song := m.song.(bpm := bpm)));
    if bpm != m.song.bpm {
      TempoEdits(f, bpm, now);
    }
    if m.playing && bpm != m.song.bpm {
      Retimed(f, bpm, now);
      ClockTickIs(f, now, d, k);
      ScaledIs(late, d, after);
    }
  }

  lemma {:induction false} TempoHandled(m: Model, e: Key, bpm: int, now: int)
    requires Ready(m) && !e.reset && e.down && !m.help && e.code in {103, 108} && 60 <= m.song.bpm <= 180
    requires bpm == if e.code == 103 then (if m.song.bpm <= 175 then m.song.bpm + 5 else 180)
                    else (if m.song.bpm >= 65 then m.song.bpm - 5 else 60)
    ensures var f := m.(pageKeyFired := m.pageKeyFired || m.pageKey != 0);
      && Ready(f) && 60 <= bpm <= 180 && Handled(m, e, now) == (TempoSet(f, bpm, now), [], Nothing)
  {
    FiredReady(m);
    hide Ready, TempoSet;
  }

  lemma {:induction false} SameClock(m: Model, f: Model, now: int)
    requires f == m.(pageKeyFired := f.pageKeyFired)
    ensures Elapsed(f, now) == Elapsed(m, now)
  {
  }

  lemma {:induction false} LateIs(t: nat, d: nat) returns (k: nat, late: nat)
    requires d > 0
    ensures k == t / d && late == t % d && IsLate(t, d, k, late)
  {
    AtLeast(t, d, 0);
    k, late := t / d, t % d;
  }

  lemma {:induction false} ScaledIs(late: nat, d: nat, after: nat)
    requires d > 0
    ensures IsScaled(late * after / d, late, d, after)
  {
    var q := Quotient(late * after, d);
    assert (q + 1) * d == q * d + d;
  }

  lemma {:induction false} TempoEdits(m: Model, bpm: int, now: int)
    requires Ready(m) && 60 <= bpm <= 180 && bpm != m.song.bpm
    ensures var r := TempoSet(m, bpm, now); r.clearUntil == NO_TIME && r.clearPage == -1
  {
    hide Ready, Synced, StartedFrom, ClockTick, StepDuration, Elapsed;
  }

  lemma {:induction false} EditedIs(m: Model)
    ensures Edited(m) == m.(clearUntil := NO_TIME, clearPage := -1)
  {
  }

  lemma {:induction false} ClockTickIs(m: Model, now: int, d: nat, k: nat)
    requires 60 <= m.song.bpm <= 180 && d == StepDuration(m.song.bpm) > 0 && k == Elapsed(m, now) / d
    ensures ClockTick(m, now) == k
  {
    hide StepDuration, Elapsed;
  }
}

/**
  The sequencer's state and what every key and tick does to it
  (Pinao/model.go, pages.go, ties.go), as functions. Times are nanoseconds;
  the panel's notices, sparks and key highlights are not kept.
 */
module PinaoModel {
  import opened PinaoSong
  import opened PinaoTransport

  const KEY_CODES: nat := 128
  const PAGE_HOLD := 700_000_000
  const CLEAR_WINDOW := 2_000_000_000
  const NO_TIME := -1

  datatype Capture = Capture(hit: Hit, position: int, valid: bool)

  const NO_CAPTURE := Capture(NO_HIT, 0, false)

  datatype Key = Key(code: nat, down: bool, reset: bool)

  datatype Action = Nothing | Exit | Save | Export

  datatype Model = Model(
    song: Song, playing: bool, recording: bool, help: bool, stepMode: bool,
    page: int, pageKey: nat, pageKeyAt: int, pageKeyFired: bool,
    step: int, startStep: int, started: int, lastTick: int,
    held: set<nat>, captures: seq<Capture>, transport: Transport, clearUntil: int, clearPage: int)

  function NoCaptures(): (c: seq<Capture>)
    ensures |c| == KEY_CODES && forall i :: 0 <= i < KEY_CODES ==> c[i] == NO_CAPTURE
  {
    seq(KEY_CODES, _ => NO_CAPTURE)
  }

  function NewModel(song: Song): Model {
    Model(song, false, false, false, false, 0, 0, NO_TIME, false, -1, 0, NO_TIME, -1, {}, NoCaptures(), UNSET, NO_TIME, 0)
  }

  // What the operations need of their state.
  predicate Framed(m: Model) {
    && Shaped(m.song) && 60 <= m.song.bpm <= 180 && |m.captures| == KEY_CODES && Eight(m.transport)
    && 0 <= m.page < |m.song.pages| && -1 <= m.step < STEPS
  }

  // The cursor: playing and stepping exclude each other, recording needs one of them, a page key held alone means
  // stepping.
  predicate Ready(m: Model) {
    && Framed(m)
    && (m.stepMode ==> m.step >= 0) && !(m.playing && m.stepMode)
    && (m.playing ==> m.step >= 0 && 0 <= m.startStep < Total(m.song))
    && (m.recording ==> m.playing || m.stepMode)
    && (m.pageKey != 0 && !m.pageKeyFired ==> m.stepMode)
  }

  function Position(m: Model): int {
    m.page * STEPS + m.step
  }

  lemma {:induction false} PositionInSong(m: Model)
    requires Framed(m) && m.step >= 0
    ensures 0 <= Position(m) < Total(m.song)
    ensures Position(m) / STEPS == m.page && Position(m) % STEPS == m.step
    ensures CellAt(m.song, Position(m)) == m.song.pages[m.page][m.step]
  {
  }

  // ---- Clock ----

  function StepDuration(bpm: int): int
    requires 60 <= bpm <= 180
  {
    60_000_000_000 / (bpm * 2)
  }

  function Elapsed(m: Model, now: int): nat {
    if now - m.started > 0 then now - m.started else 0
  }

  function ClockTick(m: Model, now: int): nat
    requires 60 <= m.song.bpm <= 180
  {
    Elapsed(m, now) / StepDuration(m.song.bpm)
  }

  function ClockPosition(m: Model, now: int): (p: nat)
    requires Framed(m) && m.startStep >= 0
    ensures p < Total(m.song)
  {
    (m.startStep + ClockTick(m, now) % Total(m.song)) % Total(m.song)
  }

  function At(m: Model, position: nat): (r: Model)
    requires Framed(m) && position < Total(m.song)
    ensures Framed(r) && Position(r) == position && r.step >= 0
  {
    m.(page := position / STEPS, step := position % STEPS)
  }

  function Synced(m: Model, now: int): Model
    requires Framed(m) && m.startStep >= 0
  {
    At(m, ClockPosition(m, now))
  }

  // ---- Small changes ----

  function TiesCancelled(m: Model): Model {
    m.(captures := NoCaptures())
  }

  function GestureCancelled(m: Model): Model {
    m.(pageKey := 0, pageKeyAt := NO_TIME, pageKeyFired := false)
  }

  function Edited(m: Model): Model {
    m.(clearUntil := NO_TIME, clearPage := -1)
  }

  function StartedFrom(m: Model, now: int, step: int): Model {
    var start := m.page * STEPS + step % STEPS;
    TiesCancelled(m).(transport := m.transport.(valid := false), playing := true, stepMode := false,
                      started := now, lastTick := -1, startStep := start, step := start % STEPS)
  }

  function Stopped(m: Model): Model {
    TiesCancelled(m).(transport := m.transport.(valid := false), playing := false, recording := false, stepMode := false,
                      step := -1)
  }

  function Stepping(m: Model): Model {
    m.(playing := false, stepMode := true)
  }

  // ---- Recording ----

  // The first hit a new one coincides with.
  function RecordIndex(cell: Cell, h: Hit): (i: int)
    ensures -1 <= i < |cell|
    ensures i >= 0 ==> cell[i] == h || SameNote(cell[i], h)
    ensures forall k :: 0 <= k < (if i < 0 then |cell| else i) ==> cell[k] != h && !SameNote(cell[k], h)
  {
    if cell == [] then -1
    else if cell[0] == h || SameNote(cell[0], h) then 0
    else
      var i := RecordIndex(cell[1..], h);
      assert forall k :: 0 < k < |cell| ==> cell[k] == cell[1..][k - 1];
      if i < 0 then -1 else i + 1
  }

  // The cell after recording h in it.
  function RecordedCell(cell: Cell, h: Hit): Cell {
    var i := RecordIndex(cell, h);
    if i >= 0 then cell[i := h] else if |cell| >= VOICE_COUNT then cell else cell + [h]
  }

  function RecordPosition(m: Model, now: int): (p: nat)
    requires Ready(m) && m.recording
    ensures p < Total(m.song)
  {
    if m.stepMode then
      PositionInSong(m);
      Position(m)
    else
      var d := StepDuration(m.song.bpm);
      (m.startStep + (Elapsed(m, now) + d / 2) / d % Total(m.song)) % Total(m.song)
  }

  function Recorded(m: Model, h: Hit, now: int): (r: Model)
    requires Ready(m)
    ensures Ready(r) && r == m.(song := r.song, clearUntil := r.clearUntil, clearPage := r.clearPage)
  {
    if !m.recording then m
    else
      var pos := RecordPosition(m, now);
      var cell := CellAt(m.song, pos);
      if RecordedCell(cell, h) == cell then m
      else Edited(m.(song := WithCell(m.song, pos, RecordedCell(cell, h))))
  }

  // ---- Held notes ----

  // What moving from one cell to the next does to the note held by one key.
  function ExtendOne(m: Model, from: int, code: nat): (r: Model)
    requires Framed(m) && m.step >= 0 && 0 <= from < Total(m.song) && code < KEY_CODES
    ensures Framed(r) && r == m.(song := r.song, captures := r.captures, clearUntil := r.clearUntil, clearPage := r.clearPage)
    ensures |r.song.pages| == |m.song.pages|
  {
    var c := m.captures[code];
    if code !in m.held || !c.valid || c.position != from || NoteIndex(CellAt(m.song, from), c.hit) < 0 then
      m.(captures := m.captures[code := c.(valid := false)])
    else
      PositionInSong(m);
      var to := Position(m);
      var cell := CellAt(m.song, to);
      var i := NoteIndex(cell, c.hit);
      if i >= 0 then m.(captures := m.captures[code := c.(valid := cell[i].tie, position := to)])
      else if |cell| >= VOICE_COUNT then m.(captures := m.captures[code := c.(valid := false)])
      else
        Edited(m.(song := WithCell(m.song, to, cell + [c.hit.(tie := true)]).(format := 3),
                  captures := m.captures[code := c.(position := to)]))
  }

  function ExtendFrom(m: Model, from: int, code: nat): (r: Model)
    requires Framed(m) && m.step >= 0 && 0 <= from < Total(m.song) && code <= KEY_CODES
    ensures Framed(r)
    ensures r == m.(song := r.song, captures := r.captures, clearUntil := r.clearUntil, clearPage := r.clearPage)
    ensures |r.song.pages| == |m.song.pages|
    decreases KEY_CODES - code
  {
    if code == KEY_CODES then m else ExtendFrom(ExtendOne(m, from, code), from, code + 1)
  }

  // extendHeld
  function Extended(m: Model, from: nat): (r: Model)
    requires Framed(m) && m.step >= 0
    ensures Framed(r)
    ensures r == m.(song := r.song, captures := r.captures, clearUntil := r.clearUntil, clearPage := r.clearPage)
    ensures |r.song.pages| == |m.song.pages|
  {
    if !m.recording || !m.stepMode || Position(m) != from + 1 then TiesCancelled(m)
    else
      PositionInSong(m);
      ExtendFrom(m, from, 0)
  }

  // ---- Pages ----

  const KEY_I: nat := 23
  const KEY_O: nat := 24

  function Direction(code: nat): int {
    if code == KEY_I then -1 else 1
  }

  function PageChanged(m: Model, delta: int): Model
    requires Framed(m) && m.step >= 0
  {
    var next := m.page + delta;
    if next < 0 || next >= |m.song.pages| then m
    else Extended(m.(page := next, step := 0), Position(m)).(clearUntil := NO_TIME)
  }

  function PageInserted(m: Model, delta: int): (r: Model)
    requires Framed(m) && m.step >= 0
    ensures Framed(r) && (r == m || !r.playing)
  {
    if |m.song.pages| >= MAX_PAGES then m
    else
      var index := if delta > 0 then m.page + 1 else m.page;
      var moved := m.(song := Repaired(Inserted(m.song, index)), page := index, step := 0);
      Edited(Stepping(if delta > 0 then Extended(moved, Position(m)) else TiesCancelled(moved)))
  }

  function PageKeyHandled(m: Model, e: Key, now: int): (Model, seq<Command>)
    requires Ready(m) && (e.code == KEY_I || e.code == KEY_O)
  {
    if e.down then
      if m.pageKey != 0 then (if m.pageKey != e.code then m.(pageKeyFired := true) else m, [])
      else
        var pressed := m.(pageKey := e.code, pageKeyAt := now, pageKeyFired := false);
        var synced := if m.playing then Synced(pressed, now) else pressed;
        (Stepping(synced).(step := if synced.step < 0 then 0 else synced.step, clearUntil := NO_TIME), [LoopOff({})])
    else if e.code != m.pageKey then (m, [])
    else if m.pageKeyFired then (GestureCancelled(m), [])
    else if now - m.pageKeyAt >= PAGE_HOLD then (GestureCancelled(PageInserted(m, Direction(e.code))), [])
    else (GestureCancelled(PageChanged(m, Direction(e.code))), [])
  }

  function HoldChecked(m: Model, now: int): (r: Model)
    requires Ready(m)
    ensures Framed(r) && (r == m || !r.playing)
  {
    if m.pageKey != 0 && !m.pageKeyFired && now - m.pageKeyAt >= PAGE_HOLD
    then PageInserted(m.(pageKeyFired := true), Direction(m.pageKey)) else m
  }

  // ---- Steps and tempo ----

  function StepSelected(m: Model, delta: int, now: int): Model
    requires Ready(m)
  {
    var from := Position(m);
    var synced := if m.playing then Synced(m, now) else m;
    var moved := synced.(step := if synced.step < 0 then 0 else (synced.step + delta) % STEPS,
                         playing := false, stepMode := true);
    if m.stepMode then Extended(moved, from) else TiesCancelled(moved)
  }

  function TempoSet(m: Model, bpm: int, now: int): Model
    requires Ready(m) && 60 <= bpm <= 180
  {
    if bpm == m.song.bpm then m
    else if !m.playing then Edited(m.(song := m.song.(bpm := bpm)))
    else
      var before := StepDuration(m.song.bpm);
      var synced := Synced(m, now);
      var retimed := synced.(song := m.song.(bpm := bpm));
      var phase := Elapsed(m, now) % before * StepDuration(bpm) / before;
      var restarted := StartedFrom(retimed, now - phase, synced.step);
      var kept := if ClockTick(m, now) <= m.lastTick + 1 then restarted.(transport := m.transport) else restarted;
      Edited(if ClockTick(m, now) <= m.lastTick then kept.(lastTick := 0) else kept)
  }

  // ---- Keys ----

  function NoteOf(code: nat): int {
    if code == 30 then 0 else if code == 17 then 1 else if code == 31 then 2 else if code == 18 then 3
    else if code == 32 then 4 else if code == 33 then 5 else if code == 20 then 6 else if code == 34 then 7
    else if code == 21 then 8 else if code == 35 then 9 else if code == 22 then 10 else if code == 36 then 11
    else if code == 37 then 12 else -1
  }

  function DrumOf(code: nat): int {
    if 46 <= code <= 49 then code - 46 else if 2 <= code <= 5 then code - 2 else -1
  }

  function Clamp(low: int, x: int, high: int): int {
    if x < low then low else if x > high then high else x
  }

  function Released(m: Model, code: nat): (Model, seq<Command>)
    requires |m.captures| == KEY_CODES
  {
    if code !in m.held then (m, [])
    else
      (m.(held := m.held - {code},
          captures := if code < KEY_CODES then m.captures[code := m.captures[code].(valid := false)] else m.captures),
       [Off(code)])
  }

  function NotePressed(m: Model, code: nat, now: int): (Model, seq<Command>)
    requires Ready(m) && NoteOf(code) >= 0
  {
    if code in m.held then (m, [])
    else
      var midi := 12 * (m.song.octave + 1) + NoteOf(code);
      var h := Hit(midi, m.song.tone, 0, false);
      var r := Recorded(m.(held := m.held + {code}), h, now);
      var captured := r.recording && r.stepMode && NoteIndex(r.song.pages[r.page][r.step], h) >= 0;
      (if captured then r.(captures := r.captures[code := Capture(h, Position(r), true)]) else r,
       [On(code, midi, m.song.tone)])
  }

  function SpacePressed(m: Model, now: int): (Model, seq<Command>)
    requires Ready(m)
  {
    if m.stepMode then (StartedFrom(m, now, m.step), [])
    else if m.playing && m.recording then (Stepping(Synced(m, now)), [LoopOff({})])
    else if m.playing then (Stopped(Synced(m, now)), [LoopOff({})])
    else (StartedFrom(m, now, 0), [])
  }

  function RecordPressed(m: Model, now: int): Model {
    var r := TiesCancelled(m.(recording := !m.recording));
    if r.recording && !r.playing then StartedFrom(r, now, if r.stepMode then r.step else 0) else r
  }

  function Cleared(m: Model): Model {
    Edited(Stopped(m.(song := EmptyPages(m.song), page := 0)))
  }

  function DeletePressed(m: Model, now: int): (Model, seq<Command>)
    requires Ready(m)
  {
    var quiet := TiesCancelled(m);
    var at := if m.playing then Synced(quiet, now) else quiet;
    var confirmed := now < at.clearUntil && at.clearPage == at.page;
    if confirmed then (Cleared(at), [LoopOff({})])
    else
      var window := now + CLEAR_WINDOW;
      if at.stepMode && at.step >= 0 then
        PositionInSong(at);
        var erased := if CellAt(at.song, Position(at)) == [] then at
                      else Edited(at.(song := Repaired(WithCell(at.song, Position(at), []))));
        (erased.(clearPage := at.page, clearUntil := window), [LoopOff({})])
      else (at.(clearPage := at.page, clearUntil := window), [])
  }

  function OtherPressed(m: Model, code: nat, now: int): (Model, seq<Command>, Action)
    requires Ready(m)
  {
    var s := m.song;
    if code == 57 then (SpacePressed(m, now).0, SpacePressed(m, now).1, Nothing)
    else if code == 19 then (RecordPressed(m, now), [], Nothing)
    else if code == 16 || code == 15 then (Edited(m.(song := s.(tone := (s.tone + 1) % 3))), [], Nothing)
    else if code == 44 then (if s.octave > 3 then Edited(m.(song := s.(octave := s.octave - 1))) else m, [], Nothing)
    else if code == 45 then (if s.octave < 6 then Edited(m.(song := s.(octave := s.octave + 1))) else m, [], Nothing)
    else if code == 105 || code == 106 then
      (StepSelected(m, if code == 105 then -1 else 1, now), [LoopOff({})], Nothing)
    else if code == 103 || code == 108 then
      (TempoSet(m, Clamp(60, if code == 103 then s.bpm + 5 else s.bpm - 5, 180), now), [], Nothing)
    else if code == 114 || code == 115 then
      var v := Clamp(0, if code == 115 then s.volume + 5 else s.volume - 5, 100);
      (Edited(m.(song := s.(volume := v))), [Volume(v)], Nothing)
    else if code == 25 then (m, [], Export)
    else if code == 28 || code == 352 then (m, [], Save)
    else if code == 14 || code == 111 then (DeletePressed(m, now).0, DeletePressed(m, now).1, Nothing)
    else (m, [], Nothing)
  }

  // model.handle
  function Handled(m: Model, e: Key, now: int): (Model, seq<Command>, Action)
    requires Ready(m)
  {
    if e.reset then (GestureCancelled(TiesCancelled(m)).(held := {}), [OffAll], Nothing)
    else if e.code == 143 || e.code == 116 then (GestureCancelled(m), [], Nothing)
    else if e.code == KEY_I || e.code == KEY_O then
      if m.help then (m, [], Nothing) else (PageKeyHandled(m, e, now).0, PageKeyHandled(m, e, now).1, Nothing)
    else if !e.down then (Released(m, e.code).0, Released(m, e.code).1, Nothing)
    else
      var m := m.(pageKeyFired := m.pageKeyFired || m.pageKey != 0);
      if e.code == 102 || e.code == 158 || e.code == 1 then (m, [], Exit)
      else if e.code == 38 || e.code == 53 then (GestureCancelled(TiesCancelled(m)).(help := !m.help), [], Nothing)
      else if m.help then (m, [], Nothing)
      else if NoteOf(e.code) >= 0 then (NotePressed(m, e.code, now).0, NotePressed(m, e.code, now).1, Nothing)
      else if DrumOf(e.code) >= 0 then
        var drum := DrumOf(e.code);
        (Recorded(m, Hit(0, 0, drum + 1, false), now), [Drum(200 + drum, drum)], Nothing)
      else OtherPressed(m, e.code, now)
  }

  // The cell the clock has reached.
  function PlayedAt(m: Model, now: int): (Model, seq<Command>)
    requires Framed(m) && m.startStep >= 0 && |CellAt(m.song, ClockPosition(m, now))| <= VOICE_COUNT
  {
    var tick := ClockTick(m, now);
    var at := Synced(m, now).(lastTick := tick);
    var cell := CellAt(m.song, ClockPosition(m, now));
    (at.(transport := AfterCell(m.transport, cell, Position(at), tick == m.lastTick + 1)),
     Commands(m.transport, cell, Position(at), tick == m.lastTick + 1))
  }
}

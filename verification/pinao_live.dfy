/**
  Ties while the sequencer plays: what one tick seated, the next one holds,
  whatever keys come in between, as long as they do not stop it.
 */
module PinaoLive {
  import opened Division
  import opened PinaoSong
  import opened PinaoTransport
  import opened PinaoTies
  import opened PinaoPlaying
  import opened PinaoModel
  import opened PinaoRuns
  import opened PinaoTempo
  import opened PinaoKeys

  lemma {:induction false} PlayedKeepsSong(m: Model, now: int)
    requires Framed(m) && m.startStep >= 0 && |CellAt(m.song, ClockPosition(m, now))| <= VOICE_COUNT
    ensures var n := PlayedAt(m, now).0;
            n.song == m.song && n.playing == m.playing && n.startStep == m.startStep && n.started == m.started
            && n.lastTick == ClockTick(m, now)
  {
    hide ClockPosition, CellAt, ClockTick, AfterCell, Commands;
  }

  // After a played cell the transport is in step with the song.
  lemma {:induction false} PlayedInStep(m: Model, now: int)
    requires Framed(m) && m.startStep >= 0 && |CellAt(m.song, ClockPosition(m, now))| <= VOICE_COUNT
    ensures InStepAt(PlayedAt(m, now).0.transport, CellAt(m.song, ClockPosition(m, now)), ClockPosition(m, now) + 1)
  {
    hide *;
    FramedFacts(m);
    PlayedIs(m, now);
    var pos := ClockPosition(m, now);
    AfterCellInStep(m.transport, CellAt(m.song, pos), pos, ClockTick(m, now) == m.lastTick + 1);
  }

  // ---- The next cell ----

  function NextCell(pos: nat, total: nat): nat {
    if pos + 1 < total then pos + 1 else 0
  }

  // The cell of a tick of the running clock.
  function CellOfTick(start: nat, tick: nat, total: nat): nat
    requires total > 0
  {
    (start + tick % total) % total
  }

  lemma {:induction false} NextInLoop(start: nat, tick: nat, total: nat)
    requires start < total
    ensures CellOfTick(start, tick, total) < total
    ensures CellOfTick(start, tick + 1, total) == NextCell(CellOfTick(start, tick, total), total)
  {
    OneOn(tick, total);
    var r := tick % total;
    WrapOnce(start + r, total);
    WrapOnce(start + (tick + 1) % total, total);
  }

  lemma {:induction false} OneOn(tick: nat, total: nat)
    requires total > 0
    ensures (tick + 1) % total == if tick % total + 1 < total then tick % total + 1 else 0
  {
    var q, r := tick / total, tick % total;
    if r + 1 < total {
      QuotientIs(tick + 1, total, q);
    } else {
      assert (q + 1) * total == q * total + total;
      QuotientIs(tick + 1, total, q + 1);
    }
  }

  lemma {:induction false} WrapOnce(x: nat, total: nat)
    requires x < 2 * total
    ensures x % total == if x < total then x else x - total
  {
    QuotientIs(x, total, if x < total then 0 else 1);
  }

  // The cell that the tick after the last one played will play.
  function Upcoming(m: Model): nat
    requires Framed(m) && m.startStep >= 0 && m.lastTick >= -1
  {
    CellOfTick(m.startStep, m.lastTick + 1, Total(m.song))
  }

  lemma {:induction false} UpcomingIs(m: Model, now: int)
    requires Framed(m) && 0 <= m.startStep < Total(m.song) && m.lastTick >= -1
    ensures ClockTick(m, now) == m.lastTick + 1 ==> ClockPosition(m, now) == Upcoming(m)
    ensures ClockTick(m, now) == m.lastTick ==> Upcoming(m) == NextCell(ClockPosition(m, now), Total(m.song))
  {
    if ClockTick(m, now) == m.lastTick {
      NextInLoop(m.startStep, m.lastTick, Total(m.song));
    }
    hide ClockTick, Framed, Total;
  }

  lemma {:induction false} PlayingInSong(m: Model)
    requires Ready(m) && m.playing
    ensures 0 <= m.startStep < Total(m.song)
  {
  }

  lemma {:induction false} NoTieAtStart(s: Song)
    requires ValidSong(s)
    ensures Shaped(s) && 0 < Total(s) && forall i :: 0 <= i < |CellAt(s, 0)| ==> !CellAt(s, 0)[i].tie
  {
    assert CellOk(s.format, Before(s, 0), CellAt(s, 0));
    hide CellAt, HitOk;
  }

  // ---- Between two ticks ----

  // At time t nothing past the next cell is due, and that cell is pos.
  ghost predicate Awaits(m: Model, t: int, p: Transport, total: nat, pos: nat) {
    && Sound(m) && m.playing && Framed(m) && m.startStep >= 0 && m.lastTick >= -1 && ClockTick(m, t) >= m.lastTick
    && m.transport == p && Total(m.song) == total && Upcoming(m) == pos
  }

  lemma {:induction false} LaterTick(m: Model, t: int, now: int)
    requires Framed(m) && t <= now
    ensures ClockTick(m, t) <= ClockTick(m, now)
  {
    var d := StepDuration(m.song.bpm);
    DurationPositive(m.song.bpm);
    AtLeast(Elapsed(m, now), d, ClockTick(m, t));
    AtLeast(Elapsed(m, t), d, ClockTick(m, t));
    hide StepDuration;
  }

  // A tick that plays a cell.
  lemma {:induction false} TickAwaits(m: Model, now: int)
    requires Sound(m) && m.playing && Framed(m) && m.startStep >= 0 && ClockTick(m, now) > m.lastTick
    ensures var n, pos := Ticked(m, now).0, ClockPosition(m, now);
      && Awaits(n, now, n.transport, Total(m.song), NextCell(pos, Total(m.song))) && n.song == m.song
      && pos < Total(m.song) && InStepAt(n.transport, CellAt(m.song, pos), pos + 1)
  {
    hide *;
    SoundParts(m);
    FramedFacts(m);
    TickWhilePlaying(m, now);
    TickedSound(m, now);
    PlayedKeepsSong(m, now);
    PlayedInStep(m, now);
    var n := Ticked(m, now).0;
    SoundParts(n);
    FramedFacts(n);
    PlayingInSong(n);
    SameClock(m, n, now);
    UpcomingIs(n, now);
    AwaitsIs(n, now, n.transport, Total(m.song), NextCell(ClockPosition(m, now), Total(m.song)));
  }

  lemma {:induction false} SameClock(m: Model, n: Model, now: int)
    requires Framed(m) && Framed(n) && m.startStep >= 0 && n.startStep == m.startStep && n.started == m.started
    requires n.song.bpm == m.song.bpm && Total(n.song) == Total(m.song)
    ensures ClockTick(n, now) == ClockTick(m, now) && ClockPosition(n, now) == ClockPosition(m, now)
    ensures n.lastTick == m.lastTick >= -1 ==> Upcoming(n) == Upcoming(m)
  {
    hide Shaped;
  }

  lemma {:induction false} AwaitsIs(m: Model, t: int, p: Transport, total: nat, pos: nat)
    ensures Awaits(m, t, p, total, pos) <==>
            && Sound(m) && m.playing && Framed(m) && m.startStep >= 0 && m.lastTick >= -1 && ClockTick(m, t) >= m.lastTick
            && m.transport == p && Total(m.song) == total && Upcoming(m) == pos
  {
    hide Sound, ClockTick, Upcoming, Total;
  }

  // ---- Keys in between ----

  datatype Touch = Touch(key: Key, now: int)

  // The key does not stop the sequencer, and does not change the tempo later than the next cell.
  predicate Harmless(m: Model, e: Key, now: int)
    requires Framed(m) && m.startStep >= 0
  {
    !Stops(m, e, now) && (Retimes(m, e) ==> ClockTick(m, now) <= m.lastTick + 1)
  }

  lemma {:induction false} HarmlessKeyAwaits(m: Model, t: int, p: Transport, total: nat, pos: nat, e: Key, now: int)
    requires Awaits(m, t, p, total, pos) && Framed(m) && m.startStep >= 0 && t <= now && Harmless(m, e, now)
    ensures Ready(m) && Awaits(Handled(m, e, now).0, now, p, total, pos) && NoNewTies(m.song, Handled(m, e, now).0.song)
  {
    hide *;
    AwaitsIs(m, t, p, total, pos);
    SoundParts(m);
    var r := Handled(m, e, now).0;
    HandledSound(m, e, now);
    SoundParts(r);
    FramedFacts(m);
    FramedFacts(r);
    LaterTick(m, t, now);
    PlaysOnExactly(m, e, now);
    HarmlessIs(m, e, now);
    StopsIs(m, e, now);
    if Retimes(m, e) {
      var n := m.(pageKeyFired := m.pageKeyFired || m.pageKey != 0);
      RetimedAwaits(m, n, NewTempo(m, e), now);
      TiesStay(m.song, r.song);
    } else {
      SteadyIs(m, r);
      SameClock(m, r, now);
    }
    AwaitsIs(r, now, p, total, pos);
  }

  lemma {:induction false} HarmlessIs(m: Model, e: Key, now: int)
    requires Framed(m) && m.startStep >= 0
    ensures Harmless(m, e, now) <==> !Stops(m, e, now) && (Retimes(m, e) ==> ClockTick(m, now) <= m.lastTick + 1)
  {
    hide Stops, Retimes, ClockTick;
  }

  lemma {:induction false} SteadyIs(m: Model, r: Model)
    requires Steady(m, r)
    ensures r.playing == m.playing && r.transport == m.transport && r.startStep == m.startStep && r.started == m.started
    ensures r.lastTick == m.lastTick && r.song.bpm == m.song.bpm && NoNewTies(m.song, r.song)
    ensures Total(r.song) == Total(m.song)
  {
    hide TiesFrom;
  }

  // A tempo change before the next cell is over: the new clock counts from the cell last played, or from the next one.
  lemma {:induction false} RetimedAwaits(m: Model, n: Model, bpm: int, now: int)
    requires Sound(m) && Sound(n) && Framed(m) && m.startStep >= 0 && m.playing && n == m.(pageKeyFired := n.pageKeyFired)
    requires 60 <= bpm <= 180 && bpm != m.song.bpm && m.lastTick >= -1
    requires m.lastTick <= ClockTick(m, now) <= m.lastTick + 1
    ensures var r := TempoSet(n, bpm, now);
      && Sound(r) && Framed(r) && r.playing && r.startStep >= 0 && r.lastTick >= -1 && ClockTick(r, now) >= r.lastTick
      && r.transport == m.transport && Total(r.song) == Total(m.song) && r.song.pages == m.song.pages
      && Upcoming(r) == Upcoming(m)
  {
    hide *;
    SoundParts(m);
    SoundParts(n);
    FramedFacts(n);
    FiredClock(m, n, now);
    TempoSound(n, bpm, now);
    var r := TempoSet(n, bpm, now);
    SoundParts(r);
    Retimed(n, bpm, now);
    ClockKept(n, bpm, now);
    PlayingInSong(m);
    PlayingInSong(r);
    UpcomingIs(m, now);
    UpcomingIs(r, now);
    SamePages(m.song, r.song);
  }

  lemma {:induction false} SamePages(s: Song, t: Song)
    requires t.pages == s.pages
    ensures Total(t) == Total(s)
  {
  }

  ghost function Touched(m: Model, touches: seq<Touch>): (r: Model)
    requires Sound(m)
    decreases |touches|
  {
    if touches == [] then m
    else
      HandledSound(m, touches[0].key, touches[0].now);
      Touched(Handled(m, touches[0].key, touches[0].now).0, touches[1..])
  }

  // Keys from time t on, none of them harmful when it comes.
  ghost predicate Undisturbed(m: Model, t: int, touches: seq<Touch>)
    requires Sound(m)
    decreases |touches|
  {
    if touches == [] then true
    else
      HandledSound(m, touches[0].key, touches[0].now);
      SoundParts(m);
      && m.startStep >= 0 && t <= touches[0].now && Harmless(m, touches[0].key, touches[0].now)
      && Undisturbed(Handled(m, touches[0].key, touches[0].now).0, touches[0].now, touches[1..])
  }

  lemma {:induction false} TouchesAwait(m: Model, t: int, p: Transport, total: nat, pos: nat, touches: seq<Touch>)
    returns (last: int)
    requires Sound(m) && Awaits(m, t, p, total, pos) && Undisturbed(m, t, touches)
    ensures var r := Touched(m, touches); Awaits(r, last, p, total, pos) && NoNewTies(m.song, r.song)
    decreases |touches|
  {
    hide *;
    SoundParts(m);
    FramedFacts(m);
    TouchUnfold(m, t, touches);
    if touches == [] {
      TiesStay(m.song, m.song);
      last := t;
    } else {
      var e, now := touches[0].key, touches[0].now;
      HarmlessKeyAwaits(m, t, p, total, pos, e, now);
      var n := Handled(m, e, now).0;
      last := TouchesAwait(n, now, p, total, pos, touches[1..]);
      TiesStillFrom(m.song, n.song, Touched(n, touches[1..]).song);
    }
  }

  lemma {:induction false} TouchUnfold(m: Model, t: int, touches: seq<Touch>)
    requires Sound(m) && Ready(m) && Framed(m) && Undisturbed(m, t, touches)
    ensures touches == [] ==> Touched(m, touches) == m
    ensures touches != [] ==>
              var e, now := touches[0].key, touches[0].now;
              var n := Handled(m, e, now).0;
              && m.startStep >= 0 && t <= now && Harmless(m, e, now)
              && Sound(n) && Undisturbed(n, now, touches[1..]) && Touched(m, touches) == Touched(n, touches[1..])
  {
    if touches != [] {
      HandledSound(m, touches[0].key, touches[0].now);
    }
    hide Sound, Handled, Harmless, Framed, Ready;
  }

  // ---- The theorem ----

  // A cell covered by the one before stays covered while no tie is added.
  lemma {:induction false} StaysCovered(before: Cell, cell: Cell, next: Cell)
    requires Covered(before, cell) && TiesFrom(cell, next)
    ensures Covered(before, next)
  {
    forall i | 0 <= i < |next| && next[i].tie && next[i].drum == 0 ensures Ties(next, next[i]) <= Copies(before, next[i]) {
      assert Ties(next, next[i]) <= Ties(cell, next[i]);
      if Ties(cell, next[i]) > 0 {
        var l := LastTie(cell, next[i]);
        TiesAlike(cell, cell[l], next[i]);
        CopiesAlike(before, cell[l], next[i]);
      }
    }
  }

  // What the next tick sends for the cell at pos, when the one before it was played as before.
  ghost predicate PlaysTies(r: Model, before: Cell, pos: nat, cmds: seq<Command>)
    requires Framed(r) && pos < Total(r.song)
  {
    var hits := CellAt(r.song, pos);
    && |hits| <= VOICE_COUNT && cmds == Commands(r.transport, hits, pos, true)
    && (forall i: nat :: i < |hits| ==> HeldExactly(r.transport, before, hits, i, Planned(r.transport, hits, pos, true), cmds))
    && ((forall i: nat :: i < |hits| && hits[i].tie ==> cmds[i + 1].Hold?) <==> Covered(before, hits))
  }

  // One tick plays a cell; then keys are pressed and released, notes recorded, settings changed, even the tempo, as long
  // as none stops the sequencer or changes the tempo later than the next cell; then the next tick is due. It plays the
  // next cell of the loop as it is by then. Each of its tied hits is held exactly while the copies of its note that were
  // played last; all of them if no note had more tied copies than that before the keys. At the return to the first cell
  // there is no tie.
  lemma {:induction false} TiesSurviveEditing(m: Model, first: int, touches: seq<Touch>, second: int)
    requires Sound(m) && m.playing && Framed(m) && m.startStep >= 0 && ClockTick(m, first) > m.lastTick
    requires var n := Ticked(m, first).0; Sound(n) && Undisturbed(n, first, touches)
    ensures var r := Touched(Ticked(m, first).0, touches);
            var played, total := ClockPosition(m, first), Total(m.song);
      && Framed(r) && r.startStep >= 0 && Sound(r) && r.playing && Total(r.song) == total
      && (ClockTick(r, second) == r.lastTick + 1 ==>
            var pos := NextCell(played, total);
            && ClockPosition(r, second) == pos
            && (pos == 0 ==> forall i :: 0 <= i < |CellAt(r.song, pos)| ==> !CellAt(r.song, pos)[i].tie)
            && (pos > 0 ==>
                  && PlaysTies(r, CellAt(m.song, played), pos, Ticked(r, second).1)
                  && (Covered(CellAt(m.song, played), CellAt(m.song, pos)) ==>
                        Covered(CellAt(m.song, played), CellAt(r.song, pos)))))
  {
    hide *;
    SoundParts(m);
    TickAwaits(m, first);
    var n := Ticked(m, first).0;
    var played, total := ClockPosition(m, first), Total(m.song);
    var pos := NextCell(played, total);
    var last := TouchesAwait(n, first, n.transport, total, pos, touches);
    var r := Touched(n, touches);
    AwaitsIs(r, last, n.transport, total, pos);
    SoundParts(r);
    FramedFacts(m);
    FramedFacts(r);
    PlayingInSong(r);
    if ClockTick(r, second) == r.lastTick + 1 {
      UpcomingIs(r, second);
      NextCellIs(played, total);
      if pos == 0 {
        NoTieAtStart(r.song);
      } else {
        NextTickPlays(r, CellAt(m.song, played), pos, second);
        if Covered(CellAt(m.song, played), CellAt(m.song, pos)) {
          TiesAt(m.song, r.song, pos);
          StaysCovered(CellAt(m.song, played), CellAt(m.song, pos), CellAt(r.song, pos));
        }
      }
    }
  }

  lemma {:induction false} NextCellIs(pos: nat, total: nat)
    ensures NextCell(pos, total) == (if pos + 1 < total then pos + 1 else 0)
  {
  }

  lemma {:induction false} TiesAt(s: Song, t: Song, pos: nat)
    requires NoNewTies(s, t) && Shaped(s) && pos < Total(s)
    ensures Shaped(t) && Total(t) == Total(s) && TiesFrom(CellAt(s, pos), CellAt(t, pos))
  {
    hide CellAt, TiesFrom;
  }

  lemma {:induction false} NextTickPlays(r: Model, before: Cell, pos: nat, now: int)
    requires Sound(r) && r.playing && Framed(r) && r.startStep >= 0 && 0 < pos < Total(r.song)
    requires ClockTick(r, now) == r.lastTick + 1 && ClockPosition(r, now) == pos
    requires InStepAt(r.transport, before, pos) && Eight(r.transport)
    ensures PlaysTies(r, before, pos, Ticked(r, now).1)
  {
    hide *;
    SoundParts(r);
    FramedFacts(r);
    TickWhilePlaying(r, now);
    PlayedIs(r, now);
    CellFits(r.song, pos);
    var hits, p := CellAt(r.song, pos), r.transport;
    var cmds, t := Ticked(r, now).1, Planned(p, hits, pos, true);
    forall i: nat | i < |hits| ensures HeldExactly(p, before, hits, i, t, cmds) {
      HitIsPlanned(p, before, hits, pos, i);
    }
    TiesAreMelodic(r.song.format, Before(r.song, pos), hits);
    HoldsSent(p, before, hits, t, cmds);
    PlaysTiesIs(r, before, pos, cmds);
  }

  lemma {:induction false} PlaysTiesIs(r: Model, before: Cell, pos: nat, cmds: seq<Command>)
    requires Framed(r) && pos < Total(r.song)
    requires var hits := CellAt(r.song, pos);
      && |hits| <= VOICE_COUNT && Eight(r.transport) && cmds == Commands(r.transport, hits, pos, true)
      && (forall i: nat :: i < |hits| ==> HeldExactly(r.transport, before, hits, i, Planned(r.transport, hits, pos, true), cmds))
      && |cmds| == |hits| + 1
      && ((forall i: nat :: i < |hits| && hits[i].tie ==> cmds[i + 1].Hold?) <==> Covered(before, hits))
    ensures PlaysTies(r, before, pos, cmds)
  {
    hide CellAt, Commands, Planned, HeldExactly, Covered;
  }

  // Two ticks in a row, nothing pressed in between.
  lemma {:induction false} NextTickHoldsTies(m: Model, first: int, second: int)
    requires Sound(m) && m.playing && Framed(m) && m.startStep >= 0 && ClockTick(m, first) > m.lastTick
    ensures var n := Ticked(m, first).0;
            var played := ClockPosition(m, first);
      && Sound(n) && n.playing && Framed(n) && n.startStep >= 0 && n.song == m.song
      && (ClockTick(n, second) == n.lastTick + 1 ==>
            var pos := NextCell(played, Total(m.song));
            && ClockPosition(n, second) == pos
            && (pos == 0 ==> forall i :: 0 <= i < |CellAt(m.song, pos)| ==> !CellAt(m.song, pos)[i].tie)
            && (pos > 0 ==> PlaysTies(n, CellAt(m.song, played), pos, Ticked(n, second).1)))
  {
    hide *;
    TickAwaits(m, first);
    var n := Ticked(m, first).0;
    AwaitsIs(n, first, n.transport, Total(m.song), NextCell(ClockPosition(m, first), Total(m.song)));
    NothingTouched(n, first);
    TiesSurviveEditing(m, first, [], second);
  }

  lemma {:induction false} NothingTouched(m: Model, t: int)
    requires Sound(m)
    ensures Undisturbed(m, t, []) && Touched(m, []) == m
  {
  }
}

/**
  A tempo change while playing (setBPM in Pinao/model.go) is not heard: the
  next tick plays what it would have played anyway.
 */
module PinaoTempo {
  import opened Division
  import opened PinaoSong
  import opened PinaoTransport
  import opened PinaoModel
  import opened PinaoRuns

  // Without a contiguous cell before it, nothing is matched: it does not matter which of the two reasons there is.
  lemma {:induction false} BrokenRun(p: Transport, hits: Cell, position: int)
    requires Eight(p) && |hits| <= VOICE_COUNT
    ensures Eight(p.(valid := false))
    ensures Commands(p, hits, position, false) == Commands(p.(valid := false), hits, position, true)
    ensures AfterCell(p, hits, position, false) == AfterCell(p.(valid := false), hits, position, true)
  {
    var q := p.(valid := false);
    assert Matched(p, hits, position, false) == NO_SLOTS == Matched(q, hits, position, true);
    assert Planned(p, hits, position, false) == Planned(q, hits, position, true);
    var t := Planned(p, hits, position, false);
    PlanFits(p, hits, position, false);
    PlanSize(t, hits);
    PlacedAlike(hits, t, 0, p.(active := UNSET.active), q.(active := UNSET.active));
    AfterCellIs(p, hits, position, false);
    AfterCellIs(q, hits, position, true);
    hide AfterCell, Planned, Matched, Placed, HitCommands, KeptSet, Fit;
  }

  lemma {:induction false} PlacedAlike(hits: Cell, t: Slots, i: nat, p: Transport, q: Transport)
    requires Eight(p) && i <= |hits| <= |t.of| && forall k :: 0 <= k < |hits| ==> 0 <= t.of[k] < VOICE_COUNT
    requires q == p.(valid := q.valid)
    ensures Placed(hits, t, i, q) == Placed(hits, t, i, p).(valid := q.valid)
    decreases |hits| - i
  {
    if i < |hits| {
      var p1 := p.(notes := p.notes[t.of[i] := hits[i]], active := p.active[t.of[i] := hits[i].drum == 0]);
      var q1 := q.(notes := q.notes[t.of[i] := hits[i]], active := q.active[t.of[i] := hits[i].drum == 0]);
      PlacedAlike(hits, t, i + 1, p1, q1);
    }
  }

  // The part of a step that has passed, in the new tempo, is less than a step.
  lemma {:induction false} PhaseIsWithinStep(elapsed: nat, before: int, after: int)
    requires before > 0 && after > 0
    ensures 0 <= elapsed % before * after / before < after
  {
    var x := elapsed % before;
    Scale(x + 1, before, after);
    assert (x + 1) * after == x * after + after;
    assert x * after < before * after;
    AtLeast(x * after, before, after);
    AtLeast(x * after, before, 0);
    assert x * after >= 0;
    assert after * before == before * after;
  }

  lemma {:induction false} DurationPositive(bpm: int)
    requires 60 <= bpm <= 180
    ensures StepDuration(bpm) > 0
  {
  }

  // Everything a tempo change sets while playing.
  lemma {:induction false} Retimed(m: Model, bpm: int, now: int)
    requires Sound(m) && m.playing && 60 <= bpm <= 180 && bpm != m.song.bpm
    ensures StepDuration(m.song.bpm) > 0
    ensures var r := TempoSet(m, bpm, now);
            var phase := Elapsed(m, now) % StepDuration(m.song.bpm) * StepDuration(bpm) / StepDuration(m.song.bpm);
      && r.song == m.song.(bpm := bpm) && r.playing && r.started == now - phase
      && r.startStep == ClockPosition(m, now) && r.pageKey == m.pageKey && r.pageKeyFired == m.pageKeyFired
      && r.lastTick == (if ClockTick(m, now) <= m.lastTick then 0 else -1)
      && r.transport == (if ClockTick(m, now) <= m.lastTick + 1 then m.transport else m.transport.(valid := false))
  {
    DurationPositive(m.song.bpm);
    SyncedFacts(m, now);
    var synced := Synced(m, now);
    var retimed := synced.(song := m.song.(bpm := bpm));
    assert Framed(retimed) by {
      hide Shaped, ValidSong;
    }
    var phase := Elapsed(m, now) % StepDuration(m.song.bpm) * StepDuration(bpm) / StepDuration(m.song.bpm);
    StartedFacts(retimed, now - phase, synced.step);
    assert synced.step % STEPS == synced.step;
    hide Synced, StartedFrom, ClockTick, StepDuration, Elapsed, Shaped, Total, ValidSong, ClockPosition;
  }

  // At the moment of the change the new clock stands at tick 0 of the position the old one had reached.
  lemma {:induction false} ClockKept(m: Model, bpm: int, now: int)
    requires Sound(m) && m.playing && 60 <= bpm <= 180 && bpm != m.song.bpm
    ensures var r := TempoSet(m, bpm, now);
      && 60 <= r.song.bpm <= 180 && Elapsed(r, now) < StepDuration(bpm)
      && ClockTick(r, now) == 0 && Framed(r) && r.startStep >= 0
      && ClockPosition(r, now) == ClockPosition(m, now) && |r.song.pages| == |m.song.pages|
  {
    var r := TempoSet(m, bpm, now);
    Retimed(m, bpm, now);
    TempoSound(m, bpm, now);
    SoundParts(r);
    DurationPositive(m.song.bpm);
    DurationPositive(bpm);
    var phase := Elapsed(m, now) % StepDuration(m.song.bpm) * StepDuration(bpm) / StepDuration(m.song.bpm);
    PhaseIsWithinStep(Elapsed(m, now), StepDuration(m.song.bpm), StepDuration(bpm));
    assert Elapsed(r, now) == phase;
    QuotientIs(phase, StepDuration(bpm), 0);
    var p, total := ClockPosition(m, now), Total(m.song);
    assert Total(r.song) == total && 0 < total && ClockPosition(r, now) == (p + 0 % total) % total by {
      hide TempoSet, Sound, ValidSong, Framed, StepDuration, Elapsed;
    }
    hide *;
    ZeroOn(p, total);
  }

  lemma {:induction false} ZeroOn(p: nat, total: nat)
    requires p < total
    ensures (p + 0 % total) % total == p
  {
  }

  lemma {:induction false} NoHoldWhilePlaying(m: Model, now: int)
    requires Ready(m) && m.playing
    ensures HoldChecked(m, now) == m
  {
    hide Framed, Total, PageInserted;
  }

  // What a tick at now sends while playing.
  lemma {:induction false} TickWhilePlaying(m: Model, now: int)
    requires Sound(m) && m.playing
    ensures Framed(m) && m.startStep >= 0 && |CellAt(m.song, ClockPosition(m, now))| <= VOICE_COUNT
    ensures Ticked(m, now) == if ClockTick(m, now) <= m.lastTick then (m, []) else PlayedAt(m, now)
  {
    SoundParts(m);
    NoHoldWhilePlaying(m, now);
    CellSize(m, now);
    hide HoldChecked, ClockTick, ClockPosition, CellAt, PlayedAt, Sound, Framed;
  }

  // The commands and the transport of a played cell.
  lemma {:induction false} PlayedIs(m: Model, now: int)
    requires Framed(m) && m.startStep >= 0 && |CellAt(m.song, ClockPosition(m, now))| <= VOICE_COUNT
    ensures var cell, pos := CellAt(m.song, ClockPosition(m, now)), ClockPosition(m, now);
            var contiguous := ClockTick(m, now) == m.lastTick + 1;
      && PlayedAt(m, now).1 == Commands(m.transport, cell, pos, contiguous)
      && PlayedAt(m, now).0.transport == AfterCell(m.transport, cell, pos, contiguous)
      && Position(PlayedAt(m, now).0) == pos
  {
    SyncedFacts(m, now);
    hide Synced, ClockPosition, CellAt, Commands, AfterCell, ClockTick;
  }

  // A tempo change at now keeps the position reached, maps the time into the step to less than a step, and a tick at
  // now sends exactly the commands it would have sent without the change and leaves the same transport; nothing is
  // sent if the cell had been played.
  lemma {:induction false} TempoChangeIsNotHeard(m: Model, bpm: int, now: int)
    requires Sound(m) && m.playing && 60 <= bpm <= 180
    ensures Sound(TempoSet(m, bpm, now))
    ensures var r := TempoSet(m, bpm, now);
      && r.playing && Framed(m) && Framed(r) && r.startStep >= 0 && m.startStep >= 0
      && ClockPosition(r, now) == ClockPosition(m, now)
      && (bpm != m.song.bpm ==> Elapsed(r, now) < StepDuration(bpm))
      && Ticked(r, now).1 == Ticked(m, now).1
      && (ClockTick(m, now) <= m.lastTick ==> Ticked(r, now).1 == [])
      && (ClockTick(m, now) > m.lastTick ==> Ticked(r, now).0.transport == Ticked(m, now).0.transport)
  {
    hide *;
    SoundParts(m);
    TempoSound(m, bpm, now);
    var r := TempoSet(m, bpm, now);
    SoundParts(r);
    FramedFacts(m);
    TickWhilePlaying(m, now);
    TempoStill(m, bpm, now);
    if bpm != m.song.bpm {
      Retimed(m, bpm, now);
      ClockKept(m, bpm, now);
      TickWhilePlaying(r, now);
      SameCellAt(m.song, bpm, ClockPosition(m, now));
      if ClockTick(m, now) > m.lastTick {
        PlayedIs(m, now);
        PlayedIs(r, now);
        BrokenRun(m.transport, CellAt(m.song, ClockPosition(m, now)), ClockPosition(m, now));
      }
    }
  }

  lemma {:induction false} FramedFacts(m: Model)
    requires Framed(m)
    ensures Shaped(m.song) && 60 <= m.song.bpm <= 180 && Eight(m.transport)
  {
    hide Shaped;
  }

  lemma {:induction false} SameCellAt(s: Song, bpm: int, pos: nat)
    requires Shaped(s) && pos < Total(s)
    ensures var t := s.(bpm := bpm); Shaped(t) && Total(t) == Total(s) && CellAt(t, pos) == CellAt(s, pos)
  {
  }
}

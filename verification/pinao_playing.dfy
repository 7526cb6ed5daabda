/**
  The slot planner at work: the object of Pinao/ties.go with its arrays, and
  what it guarantees over a contiguous run through a song.
 */
module PinaoPlaying {
  import opened PinaoSong
  import opened PinaoTransport
  import opened PinaoTies

  class LoopTransport {
    const notes: array<Hit>
    const active: array<bool>
    var position: int
    var valid: bool

    predicate Valid()
      reads this
    {
      notes.Length == VOICE_COUNT && active.Length == VOICE_COUNT
    }

    function View(): Transport
      reads this, notes, active
    {
      Transport(notes[..], active[..], position, valid)
    }

    constructor ()
      ensures Valid() && fresh(notes) && fresh(active) && View() == UNSET
    {
      notes := new Hit[VOICE_COUNT](_ => NO_HIT);
      active := new bool[VOICE_COUNT](_ => false);
      position, valid := 0, false;
      new;
      assert notes[..] == UNSET.notes && active[..] == UNSET.active;
    }

    // loopTransport.commands
    method PlanCommands(hits: Cell, at: int, contiguous: bool) returns (cmds: seq<Command>)
      requires Valid() && |hits| <= VOICE_COUNT
      modifies this, notes, active
      ensures Valid()
      ensures cmds == Commands(old(View()), hits, at, contiguous)
      ensures View() == AfterCell(old(View()), hits, at, contiguous)
    {
      hide *;
      ghost var before := View();
      ViewFacts();
      var slots := new int[VOICE_COUNT](_ => -1);
      var used := new bool[VOICE_COUNT](_ => false);
      var keep: set<int> := {};
      StartFacts(slots, used);
      if contiguous && valid && at == position + 1 {
        keep := MatchTies(slots, used, hits);
      }
      MatchedIs(before, hits, at, contiguous);
      ghost var m := Slots(slots[..], used[..]);
      PlanFits(before, hits, at, contiguous);
      PlanSize(m, hits);
      FillRest(slots, used, hits);
      PlannedIs(before, hits, at, contiguous);
      cmds := Emit(slots, keep, hits, m, before, at, contiguous);
    }

    // Tied notes first; keep names the slots they stay on.
    method MatchTies(slots: array<int>, used: array<bool>, hits: Cell) returns (keep: set<int>)
      requires Valid() && |hits| <= VOICE_COUNT && slots.Length == VOICE_COUNT == used.Length
      requires slots != notes as object && used != active && Slots(slots[..], used[..]) == NO_SLOTS
      modifies slots, used
      ensures Slots(slots[..], used[..]) == MatchFrom(View(), hits, 0, NO_SLOTS)
      ensures keep == KeptSet(Slots(slots[..], used[..]))
    {
      keep := {};
      ghost var p := View();
      NothingKept();
      hide FirstMatch, KeptSet;
      for i := 0 to |hits|
        invariant View() == p
        invariant MatchFrom(p, hits, i, Slots(slots[..], used[..])) == MatchFrom(p, hits, 0, NO_SLOTS)
        invariant keep == KeptSet(Slots(slots[..], used[..]))
      {
        ghost var s := Slots(slots[..], used[..]);
        var h := hits[i];
        if !h.tie || h.drum != 0 {
          assert MatchNext(p, hits, i, s) == s;
          continue;
        }
        var j := FindSlot(used, h);
        if j < VOICE_COUNT {
          slots[i] := j;
          used[j] := true;
          keep := keep + {j};
          assert slots[..] == s.of[i := j] && used[..] == s.used[j := true];
          KeptGrows(s, i, j);
        }
        assert Slots(slots[..], used[..]) == MatchNext(p, hits, i, s);
      }
    }

    method FindSlot(used: array<bool>, h: Hit) returns (j: nat)
      requires Valid() && used.Length == VOICE_COUNT
      ensures j == FirstMatch(View(), used[..], h, 0)
    {
      j := 0;
      while j < VOICE_COUNT
        invariant j <= VOICE_COUNT && FirstMatch(View(), used[..], h, 0) == FirstMatch(View(), used[..], h, j)
      {
        if active[j] && !used[j] && SameNote(notes[j], h) {
          return;
        }
        j := j + 1;
      }
    }

    static method FillRest(slots: array<int>, used: array<bool>, hits: Cell)
      requires |hits| <= VOICE_COUNT && slots.Length == VOICE_COUNT == used.Length
      modifies slots, used
      ensures Slots(slots[..], used[..]) == FillFrom(|hits|, 0, Slots(old(slots[..]), old(used[..])))
    {
      ghost var start := Slots(slots[..], used[..]);
      hide FirstFree;
      for i := 0 to |hits|
        invariant FillFrom(|hits|, i, Slots(slots[..], used[..])) == FillFrom(|hits|, 0, start)
      {
        ghost var s := Slots(slots[..], used[..]);
        if slots[i] >= 0 {
          continue;
        }
        var j := FindFree(used);
        if j < VOICE_COUNT {
          slots[i] := j;
          used[j] := true;
          assert slots[..] == s.of[i := j] && used[..] == s.used[j := true];
        }
      }
    }

    static method FindFree(used: array<bool>) returns (j: nat)
      requires used.Length == VOICE_COUNT
      ensures j == FirstFree(used[..], 0)
    {
      j := 0;
      while j < VOICE_COUNT
        invariant j <= VOICE_COUNT && FirstFree(used[..], 0) == FirstFree(used[..], j)
      {
        if !used[j] {
          return;
        }
        j := j + 1;
      }
    }

    // Sends the commands and seats the notes.
    method Emit(slots: array<int>, keep: set<int>, hits: Cell, ghost m: Slots, ghost before: Transport, at: int,
                ghost contiguous: bool)
      returns (cmds: seq<Command>)
      requires Valid() && |hits| <= VOICE_COUNT && slots.Length == VOICE_COUNT && Eight(before)
      requires slots != notes as object && before == View()
      requires m == Matched(before, hits, at, contiguous) && keep == KeptSet(m)
      requires slots[..] == Planned(before, hits, at, contiguous).of
      modifies this, notes, active
      ensures Valid()
      ensures cmds == Commands(before, hits, at, contiguous)
      ensures View() == AfterCell(before, hits, at, contiguous)
    {
      hide *;
      ghost var t := Planned(before, hits, at, contiguous);
      PlanFits(before, hits, at, contiguous);
      PlanSize(t, hits);
      ViewFacts();
      cmds := [LoopOff(keep)];
      ClearActive();
      ghost var cleared := View();
      for i := 0 to |hits|
        invariant Valid() && Eight(View()) && Placed(hits, t, i, View()) == Placed(hits, t, 0, cleared)
        invariant |cmds| == i + 1 && cmds[0] == LoopOff(keep)
        invariant forall k: nat :: k < i ==> SentFor(cmds, k, hits, t.of, keep)
      {
        var c := CommandOf(hits[i], slots[i], slots[i] in keep);
        SentSnoc(cmds, c, i, hits, t.of, keep);
        cmds := cmds + [c];
        PlacedStep(hits, t, i, View());
        SeatHit(hits[i], slots[i]);
      }
      PlacedDone(hits, t, View());
      AfterCellIs(before, hits, at, contiguous);
      Arrive(at);
      CommandsComplete(before, hits, at, contiguous, cmds);
    }

    method ClearActive()
      requires Valid()
      modifies active
      ensures Valid() && Eight(View()) && View() == old(View()).(active := UNSET.active)
    {
      for k := 0 to VOICE_COUNT
        invariant forall l :: 0 <= l < k ==> !active[l]
      {
        active[k] := false;
      }
      assert active[..] == UNSET.active;
    }

    method SeatHit(h: Hit, slot: int)
      requires Valid() && 0 <= slot < VOICE_COUNT
      modifies notes, active
      ensures Valid() && Eight(View())
      ensures View() == old(View()).(notes := old(View()).notes[slot := h], active := old(View()).active[slot := h.drum == 0])
    {
      notes[slot] := h;
      active[slot] := h.drum == 0;
    }

    method Arrive(at: int)
      requires Valid()
      modifies this
      ensures Valid() && View() == old(View()).(position := at, valid := true)
    {
      position := at;
      valid := true;
    }

    static method CommandOf(h: Hit, slot: int, kept: bool) returns (c: Command)
      ensures c == CommandFor(h, slot, kept)
    {
      c := On(300 + slot, h.midi, h.tone);
      if h.drum > 0 {
        c := Drum(300 + slot, h.drum - 1);
      } else if kept {
        c := Hold(300 + slot, h.midi, h.tone);
      }
    }

    lemma {:induction false} ViewFacts()
      requires Valid()
      ensures Eight(View()) && VOICE_COUNT == 8 && notes.Length == 8 && active.Length == 8
      ensures View().valid == valid && View().position == position
    {
    }

    static lemma {:induction false} StartFacts(slots: array<int>, used: array<bool>)
      requires slots.Length == VOICE_COUNT && used.Length == VOICE_COUNT
      requires forall k :: 0 <= k < VOICE_COUNT ==> slots[k] == -1 && !used[k]
      ensures Slots(slots[..], used[..]) == NO_SLOTS && KeptSet(NO_SLOTS) == {}
    {
      assert slots[..] == NO_SLOTS.of && used[..] == NO_SLOTS.used;
    }
  }

  lemma {:induction false} MatchedIs(p: Transport, hits: Cell, position: int, contiguous: bool)
    requires Eight(p) && |hits| <= VOICE_COUNT
    ensures |NO_SLOTS.of| == VOICE_COUNT == |NO_SLOTS.used|
    ensures Matched(p, hits, position, contiguous) ==
            if contiguous && p.valid && position == p.position + 1 then MatchFrom(p, hits, 0, NO_SLOTS) else NO_SLOTS
  {
    hide MatchFrom;
  }

  lemma {:induction false} PlannedIs(p: Transport, hits: Cell, position: int, contiguous: bool)
    requires Eight(p) && |hits| <= VOICE_COUNT
    ensures var m := Matched(p, hits, position, contiguous);
            Fit(m) && |m.of| == VOICE_COUNT == |m.used| &&
            Planned(p, hits, position, contiguous) == FillFrom(|hits|, 0, m)
  {
    MatchedFits(p, hits, position, contiguous);
    FitShape(Matched(p, hits, position, contiguous));
    hide Matched, Fit, FillFrom;
  }

  lemma {:induction false} CommandsComplete(p: Transport, hits: Cell, position: int, contiguous: bool, cmds: seq<Command>)
    requires Eight(p) && |hits| <= VOICE_COUNT && |hits| <= |Planned(p, hits, position, contiguous).of|
    requires var m, t := Matched(p, hits, position, contiguous), Planned(p, hits, position, contiguous);
             && |cmds| == |hits| + 1 && cmds[0] == LoopOff(KeptSet(m))
             && forall k: nat :: k < |hits| ==> SentFor(cmds, k, hits, t.of, KeptSet(m))
    ensures cmds == Commands(p, hits, position, contiguous)
  {
    hide *;
    var m, t := Matched(p, hits, position, contiguous), Planned(p, hits, position, contiguous);
    var all := Commands(p, hits, position, contiguous);
    CommandsAre(p, hits, position, contiguous);
    forall l | 0 <= l < |cmds| ensures cmds[l] == all[l] {
      if l > 0 {
        assert SentFor(cmds, l - 1, hits, t.of, KeptSet(m));
        SentIs(cmds, l - 1, hits, t.of, KeptSet(m));
        KeptIs(m, t.of[l - 1]);
        assert all[l - 1 + 1] == CommandFor(hits[l - 1], t.of[l - 1], Kept(m, t.of[l - 1]));
      }
    }
  }

  // The command sent for hit k.
  predicate SentFor(cmds: seq<Command>, k: nat, hits: Cell, slots: seq<int>, keep: set<int>) {
    k < |hits| <= |slots| && k + 1 < |cmds| && cmds[k + 1] == CommandFor(hits[k], slots[k], slots[k] in keep)
  }

  lemma {:induction false} SentIs(cmds: seq<Command>, k: nat, hits: Cell, slots: seq<int>, keep: set<int>)
    requires SentFor(cmds, k, hits, slots, keep)
    ensures k < |hits| <= |slots| && k + 1 < |cmds| && cmds[k + 1] == CommandFor(hits[k], slots[k], slots[k] in keep)
  {
  }

  lemma {:induction false} SentSnoc(cmds: seq<Command>, c: Command, i: nat, hits: Cell, slots: seq<int>, keep: set<int>)
    requires |cmds| == i + 1 && i < |hits| <= |slots| && c == CommandFor(hits[i], slots[i], slots[i] in keep)
    requires forall k: nat :: k < i ==> SentFor(cmds, k, hits, slots, keep)
    ensures forall k: nat :: k < i + 1 ==> SentFor(cmds + [c], k, hits, slots, keep)
  {
    forall k: nat | k < i + 1 ensures SentFor(cmds + [c], k, hits, slots, keep) {
      if k < i {
        assert SentFor(cmds, k, hits, slots, keep);
      }
    }
  }

  lemma {:induction false} PlacedStep(hits: Cell, t: Slots, i: nat, p: Transport)
    requires Eight(p) && i < |hits| <= |t.of| && forall k :: 0 <= k < |hits| ==> 0 <= t.of[k] < VOICE_COUNT
    ensures var q := p.(notes := p.notes[t.of[i] := hits[i]], active := p.active[t.of[i] := hits[i].drum == 0]);
            Eight(q) && Placed(hits, t, i, p) == Placed(hits, t, i + 1, q)
  {
  }

  lemma {:induction false} PlacedDone(hits: Cell, t: Slots, p: Transport)
    requires Eight(p) && |hits| <= |t.of| && forall k :: 0 <= k < |hits| ==> 0 <= t.of[k] < VOICE_COUNT
    ensures Placed(hits, t, |hits|, p) == p
  {
  }

  lemma {:induction false} NothingKept()
    ensures KeptSet(NO_SLOTS) == {}
  {
  }

  lemma {:induction false} KeptGrows(s: Slots, i: nat, j: nat)
    requires i < |s.of| && j < |s.used|
    ensures KeptSet(Slots(s.of[i := j], s.used[j := true])) == KeptSet(s) + {j}
  {
  }

  lemma {:induction false} KeptIs(m: Slots, j: int)
    ensures j in KeptSet(m) <==> Kept(m, j)
  {
  }

  // ---- A contiguous run through a song ----

  // The transport after n cells played in a row.
  function PlayFrom(p: Transport, s: Song, from: nat, n: nat): (q: Transport)
    requires Eight(p) && ValidSong(s) && from + n <= Total(s)
    ensures Eight(q)
    decreases n
  {
    if n == 0 then p
    else
      CellFits(s, from + n - 1);
      AfterCell(PlayFrom(p, s, from, n - 1), CellAt(s, from + n - 1), from + n - 1, true)
  }

  lemma {:induction false} CellFits(s: Song, pos: nat)
    requires ValidSong(s) && pos < Total(s)
    ensures Shaped(s) && |CellAt(s, pos)| <= VOICE_COUNT && CellOk(s.format, Before(s, pos), CellAt(s, pos))
  {
    hide CellAt, Before, TieOk, HitOk;
  }

  // Whatever it sounded before, from the second cell on the transport is in step with the song.
  lemma {:induction false} RunStaysInStep(p: Transport, s: Song, from: nat, n: nat)
    requires Eight(p) && ValidSong(s) && n >= 1 && from + n <= Total(s)
    ensures InStepAt(PlayFrom(p, s, from, n), CellAt(s, from + n - 1), from + n)
  {
    hide *;
    var pos := from + n - 1;
    CellFits(s, pos);
    PlayStep(p, s, from, n);
    AfterCellInStep(PlayFrom(p, s, from, n - 1), CellAt(s, pos), pos, true);
  }

  lemma {:induction false} DistinctCell(s: Song, pos: nat)
    requires DistinctSong(s) && pos < Total(s)
    ensures Distinct(CellAt(s, pos))
  {
    hide Distinct, CellAt;
  }

  lemma {:induction false} PlayStep(p: Transport, s: Song, from: nat, n: nat)
    requires Eight(p) && ValidSong(s) && n >= 1 && from + n <= Total(s)
    requires |CellAt(s, from + n - 1)| <= VOICE_COUNT
    ensures PlayFrom(p, s, from, n) ==
            AfterCell(PlayFrom(p, s, from, n - 1), CellAt(s, from + n - 1), from + n - 1, true)
  {
    hide AfterCell, ValidSong, CellAt;
  }

  // Over a contiguous run through any valid song, from the second cell on: a tied hit is a hold on a slot that sounds
  // its note while the copies of the note in the cell before last, and an attack after that; so all ties of a cell are
  // held if and only if no note has more tied copies than the cell before has copies of it.
  lemma {:induction false} TiesOverRun(p: Transport, s: Song, from: nat, n: nat)
    requires Eight(p) && ValidSong(s) && n >= 1 && from + n < Total(s)
    ensures var q, before, hits := PlayFrom(p, s, from, n), CellAt(s, from + n - 1), CellAt(s, from + n);
      && |hits| <= VOICE_COUNT
      && var t, cmds := Planned(q, hits, from + n, true), Commands(q, hits, from + n, true);
         && WellPlanned(q, hits, t, KeptSet(Matched(q, hits, from + n, true)), cmds)
         && (forall i: nat :: i < |hits| ==> HeldExactly(q, before, hits, i, t, cmds))
         && ((forall i: nat :: i < |hits| && hits[i].tie ==> cmds[i + 1].Hold?) <==> Covered(before, hits))
  {
    hide *;
    var q, pos := PlayFrom(p, s, from, n), from + n;
    CellFits(s, pos);
    var before, hits := CellAt(s, pos - 1), CellAt(s, pos);
    RunStaysInStep(p, s, from, n);
    EveryCellIsPlanned(q, hits, pos, true);
    forall i: nat | i < |hits|
      ensures HeldExactly(q, before, hits, i, Planned(q, hits, pos, true), Commands(q, hits, pos, true))
    {
      HitIsPlanned(q, before, hits, pos, i);
    }
    TiesAreMelodic(s.format, Before(s, pos), hits);
    HoldsSent(q, before, hits, Planned(q, hits, pos, true), Commands(q, hits, pos, true));
  }

  lemma {:induction false} TiesAreMelodic(format: int, before: Cell, hits: Cell)
    requires CellOk(format, before, hits)
    ensures forall k :: 0 <= k < |hits| && hits[k].tie ==> hits[k].drum == 0
  {
    hide Sounds, HitOk;
  }

  lemma {:induction false} HoldsSent(q: Transport, before: Cell, hits: Cell, t: Slots, cmds: seq<Command>)
    requires |cmds| == |hits| + 1 && forall k :: 0 <= k < |hits| && hits[k].tie ==> hits[k].drum == 0
    requires forall i: nat :: i < |hits| ==> HeldExactly(q, before, hits, i, t, cmds)
    ensures (forall i: nat :: i < |hits| && hits[i].tie ==> cmds[i + 1].Hold?) <==> Covered(before, hits)
  {
    AllHeldIfCovered(before, hits);
    forall i: nat | i < |hits| ensures cmds[i + 1].Hold? <==> Holds(before, hits, i) {
      assert HeldExactly(q, before, hits, i, t, cmds);
    }
    hide HeldExactly, Covered, Holds;
  }

  // Without doubled notes, every tied hit is a hold on the one slot that sounds its note and every other melodic hit an
  // attack.
  lemma {:induction false} TiesAreHeldOverRun(p: Transport, s: Song, from: nat, n: nat)
    requires Eight(p) && ValidSong(s) && DistinctSong(s) && n >= 1 && from + n < Total(s)
    ensures var q, hits := PlayFrom(p, s, from, n), CellAt(s, from + n);
      && |hits| <= VOICE_COUNT
      && var t, cmds := Planned(q, hits, from + n, true), Commands(q, hits, from + n, true);
         && Covered(CellAt(s, from + n - 1), hits)
         && forall i: nat :: i < |hits| && hits[i].drum == 0 ==> HeldIfTied(q, hits, i, t, cmds)
  {
    hide *;
    var q, pos := PlayFrom(p, s, from, n), from + n;
    TiesOverRun(p, s, from, n);
    CellFits(s, pos);
    var before, hits := CellAt(s, pos - 1), CellAt(s, pos);
    RunStaysInStep(p, s, from, n);
    DistinctCell(s, pos - 1);
    DistinctCell(s, pos);
    BeforeIs(s, pos);
    TiesSound(s.format, Before(s, pos), hits);
    DistinctIsCovered(before, hits);
    AllHeldIfCovered(before, hits);
    forall i: nat | i < |hits| && hits[i].drum == 0
      ensures HeldIfTied(q, hits, i, Planned(q, hits, pos, true), Commands(q, hits, pos, true))
    {
      OneSlotHolds(q, before, hits, pos, i, Planned(q, hits, pos, true), Commands(q, hits, pos, true));
    }
  }

  lemma {:induction false} BeforeIs(s: Song, pos: nat)
    requires Shaped(s) && 0 < pos <= Total(s)
    ensures Before(s, pos) == CellAt(s, pos - 1)
  {
  }

  lemma {:induction false} TiesSound(format: int, before: Cell, hits: Cell)
    requires CellOk(format, before, hits)
    ensures forall k :: 0 <= k < |hits| && hits[k].tie && hits[k].drum == 0 ==> Sounds(before, hits[k])
  {
    hide Sounds, HitOk;
  }

  // ---- Doubled notes ----

  // A song of one page whose second cell ties a note twice, after copies of it in the first.
  function DoubledTies(copies: nat): (s: Song)
    requires 1 <= copies <= 2
  {
    var x := Hit(60, 0, 0, false);
    var first, second := if copies == 1 then [x] else [x, x], [x.(tie := true), x.(tie := true)];
    Song(3, 120, 4, 0, 100, [[first, second] + BlankPage()[2..]])
  }

  lemma {:induction false} DoubledTiesFacts(copies: nat)
    requires 1 <= copies <= 2
    ensures var s, x := DoubledTies(copies), Hit(60, 0, 0, false);
      && ValidSong(s) && Total(s) == STEPS && CellAt(s, 0) == (if copies == 1 then [x] else [x, x])
      && CellAt(s, 1) == [x.(tie := true), x.(tie := true)]
  {
    var s, x := DoubledTies(copies), Hit(60, 0, 0, false);
    var page := s.pages[0];
    assert page[0] == (if copies == 1 then [x] else [x, x]) && page[1] == [x.(tie := true), x.(tie := true)];
    forall pos: nat | pos < Total(s) ensures CellOk(s.format, Before(s, pos), CellAt(s, pos)) {
      assert CellAt(s, pos) == page[pos];
      if pos == 1 {
        SoundsIs(page[0], page[1][0]);
        assert SameNote(page[0][0], page[1][0]) && page[1][0] == page[1][1];
      }
    }
  }

  // One copy before two tied ones: the second tied one is attacked. With two copies both are held.
  lemma {:induction false} SecondTieIsAttacked(p: Transport, copies: nat)
    requires Eight(p) && 1 <= copies <= 2
    ensures var s := DoubledTies(copies);
      && ValidSong(s) && !DistinctSong(s)
      && var hits := CellAt(s, 1);
         && |hits| == 2 && hits[0].tie && hits[1].tie
         && var cmds := Commands(PlayFrom(p, s, 0, 1), hits, 1, true);
            |cmds| == 3 && cmds[1].Hold? && (if copies == 1 then cmds[2].On? else cmds[2].Hold?)
  {
    hide *;
    var s := DoubledTies(copies);
    DoubledTiesFacts(copies);
    DoubledShape(copies);
    TiesOverRun(p, s, 0, 1);
    var before, hits := CellAt(s, 0), CellAt(s, 1);
    var q := PlayFrom(p, s, 0, 1);
    var t, cmds := Planned(q, hits, 1, true), Commands(q, hits, 1, true);
    TwoTiedHits(before, hits, copies);
    OneSent(q, before, hits, 0, t, cmds);
    OneSent(q, before, hits, 1, t, cmds);
    SentInAll(q, hits, t, KeptSet(Matched(q, hits, 1, true)), cmds);
  }

  lemma {:induction false} DoubledShape(copies: nat)
    requires 1 <= copies <= 2
    ensures var s := DoubledTies(copies); Shaped(s) && STEPS == 16 && (Total(s) == STEPS ==> !DistinctSong(s))
  {
    DoubledTiesFacts(copies);
    var hits := CellAt(DoubledTies(copies), 1);
    assert SameNote(hits[0], hits[1]) && !Distinct(hits);
    hide DoubledTies, CellAt, Distinct, ValidSong;
  }

  lemma {:induction false} OneSent(p: Transport, before: Cell, hits: Cell, i: nat, t: Slots, cmds: seq<Command>)
    requires HeldExactly(p, before, hits, i, t, cmds) && hits[i].drum == 0
    ensures i + 1 < |cmds| && if Holds(before, hits, i) then cmds[i + 1].Hold? else cmds[i + 1].On?
  {
    hide Holds;
  }

  lemma {:induction false} SentInAll(p: Transport, hits: Cell, t: Slots, keep: set<int>, cmds: seq<Command>)
    requires WellPlanned(p, hits, t, keep, cmds)
    ensures |cmds| == |hits| + 1
  {
  }

  lemma {:induction false} TwoTiedHits(before: Cell, hits: Cell, copies: nat)
    requires 1 <= copies <= 2
    requires var x := Hit(60, 0, 0, false);
      before == (if copies == 1 then [x] else [x, x]) && hits == [x.(tie := true), x.(tie := true)]
    ensures Holds(before, hits, 0) && (Holds(before, hits, 1) <==> copies == 2)
  {
    var h := hits[0];
    assert hits[..0] == [] && hits[..1] == [h] && [h][..0] == [];
    assert Ties([h], h) == 1;
    assert before[..|before|] == before && before[..0] == [];
    CopiesNext(before, h, 0);
    if copies == 2 {
      CopiesNext(before, h, 1);
    }
  }
}

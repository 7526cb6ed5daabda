/**
  Which tied notes of a cell are held. A slot that sounds a note can hold one
  tied copy of it, so it is a matter of counting: the copies of the note that
  the preceding cell left sounding against the tied ones that claim them.
 */
module PinaoTies {
  import opened PinaoSong
  import opened PinaoTransport

  // ---- Counting ----

  // The hits of a cell that sound the note of h.
  function Copies(cell: Cell, h: Hit): nat {
    if cell == [] then 0
    else Copies(cell[..|cell| - 1], h) + if SameNote(cell[|cell| - 1], h) then 1 else 0
  }

  // Those of them that are tied.
  function Ties(cell: Cell, h: Hit): nat {
    if cell == [] then 0
    else Ties(cell[..|cell| - 1], h) + if cell[|cell| - 1].tie && SameNote(cell[|cell| - 1], h) then 1 else 0
  }

  // The unused slots below n that sound it.
  function Unused(p: Transport, used: seq<bool>, h: Hit, n: nat): nat
    requires Eight(p) && |used| == VOICE_COUNT && n <= VOICE_COUNT
  {
    if n == 0 then 0
    else Unused(p, used, h, n - 1) + if p.active[n - 1] && !used[n - 1] && SameNote(p.notes[n - 1], h) then 1 else 0
  }

  // All slots that sound it.
  function Voices(p: Transport, h: Hit): nat
    requires Eight(p)
  {
    Unused(p, NO_SLOTS.used, h, VOICE_COUNT)
  }

  lemma {:induction false} CopiesNext(cell: Cell, h: Hit, i: nat)
    requires i < |cell|
    ensures Copies(cell[..i + 1], h) == Copies(cell[..i], h) + if SameNote(cell[i], h) then 1 else 0
  {
    assert cell[..i + 1][..i] == cell[..i];
  }

  lemma {:induction false} TiesNext(cell: Cell, h: Hit, i: nat)
    requires i < |cell|
    ensures Ties(cell[..i + 1], h) == Ties(cell[..i], h) + if cell[i].tie && SameNote(cell[i], h) then 1 else 0
  {
    assert cell[..i + 1][..i] == cell[..i];
  }

  lemma {:induction false} CopiesAlike(cell: Cell, g: Hit, h: Hit)
    requires SameNote(g, h)
    ensures Copies(cell, g) == Copies(cell, h)
  {
    if cell != [] {
      CopiesAlike(cell[..|cell| - 1], g, h);
    }
  }

  lemma {:induction false} TiesAlike(cell: Cell, g: Hit, h: Hit)
    requires SameNote(g, h)
    ensures Ties(cell, g) == Ties(cell, h)
  {
    if cell != [] {
      TiesAlike(cell[..|cell| - 1], g, h);
    }
  }

  lemma {:induction false} UnusedAlike(p: Transport, used: seq<bool>, g: Hit, h: Hit, n: nat)
    requires Eight(p) && |used| == VOICE_COUNT && n <= VOICE_COUNT && SameNote(g, h)
    ensures Unused(p, used, g, n) == Unused(p, used, h, n)
  {
    if n > 0 {
      UnusedAlike(p, used, g, h, n - 1);
    }
  }

  // A part of a cell has no more tied copies than the whole.
  lemma {:induction false} TiesGrow(cell: Cell, h: Hit, i: nat)
    requires i <= |cell|
    ensures Ties(cell[..i], h) <= Ties(cell, h)
    decreases |cell| - i
  {
    if i < |cell| {
      TiesNext(cell, h, i);
      TiesGrow(cell, h, i + 1);
    } else {
      assert cell[..i] == cell;
    }
  }

  // The last tied copy of a note.
  lemma {:induction false} LastTie(cell: Cell, h: Hit) returns (i: nat)
    requires Ties(cell, h) > 0
    ensures i < |cell| && cell[i].tie && SameNote(cell[i], h) && Ties(cell[..i], h) + 1 == Ties(cell, h)
  {
    i := |cell| - 1;
    if !(cell[i].tie && SameNote(cell[i], h)) {
      var rest := cell[..i];
      i := LastTie(rest, h);
      assert rest[..i] == cell[..i];
    }
  }

  // ---- Slots ----

  lemma {:induction false} NoneUnused(p: Transport, used: seq<bool>, h: Hit, n: nat)
    requires Eight(p) && |used| == VOICE_COUNT && n <= VOICE_COUNT
    requires forall k :: 0 <= k < n ==> !(p.active[k] && !used[k] && SameNote(p.notes[k], h))
    ensures Unused(p, used, h, n) == 0
  {
    if n > 0 {
      NoneUnused(p, used, h, n - 1);
    }
  }

  lemma {:induction false} OneUnused(p: Transport, used: seq<bool>, h: Hit, n: nat, j: nat)
    requires Eight(p) && |used| == VOICE_COUNT && j < n <= VOICE_COUNT
    requires p.active[j] && !used[j] && SameNote(p.notes[j], h)
    ensures Unused(p, used, h, n) > 0
  {
    if j < n - 1 {
      OneUnused(p, used, h, n - 1, j);
    }
  }

  lemma {:induction false} TwoUnused(p: Transport, used: seq<bool>, h: Hit, n: nat, j: nat, k: nat)
    requires Eight(p) && |used| == VOICE_COUNT && j < k < n <= VOICE_COUNT
    requires p.active[j] && !used[j] && SameNote(p.notes[j], h) && p.active[k] && !used[k] && SameNote(p.notes[k], h)
    ensures Unused(p, used, h, n) > 1
  {
    if k < n - 1 {
      TwoUnused(p, used, h, n - 1, j, k);
    } else {
      OneUnused(p, used, h, n - 1, j);
    }
  }

  // A slot is found as long as one is left.
  lemma {:induction false} FoundIfLeft(p: Transport, used: seq<bool>, h: Hit)
    requires Eight(p) && |used| == VOICE_COUNT
    ensures FirstMatch(p, used, h, 0) < VOICE_COUNT <==> Unused(p, used, h, VOICE_COUNT) > 0
  {
    var j := FirstMatch(p, used, h, 0);
    if j < VOICE_COUNT {
      OneUnused(p, used, h, VOICE_COUNT, j);
    } else {
      NoneUnused(p, used, h, VOICE_COUNT);
    }
  }

  lemma {:induction false} UnusedLess(p: Transport, used: seq<bool>, h: Hit, n: nat, j: nat)
    requires Eight(p) && |used| == VOICE_COUNT && n <= VOICE_COUNT && j < VOICE_COUNT && p.active[j] && !used[j]
    ensures Unused(p, used[j := true], h, n) + (if j < n && SameNote(p.notes[j], h) then 1 else 0) == Unused(p, used, h, n)
  {
    if n > 0 {
      UnusedLess(p, used, h, n - 1, j);
    }
  }

  lemma {:induction false} UnusedMore(p: Transport, used: seq<bool>, h: Hit, n: nat, j: nat, x: Hit)
    requires Eight(p) && |used| == VOICE_COUNT && n <= VOICE_COUNT && j < VOICE_COUNT && !p.active[j] && !used[j]
    ensures var q := p.(notes := p.notes[j := x], active := p.active[j := x.drum == 0]);
            Unused(q, used, h, n) == Unused(p, used, h, n) + if j < n && SameNote(x, h) then 1 else 0
  {
    if n > 0 {
      UnusedMore(p, used, h, n - 1, j, x);
    }
  }

  // ---- What a cell leaves sounding ----

  // The slots sound the notes of a cell, every copy on a slot of its own.
  ghost predicate Carries(p: Transport, cell: Cell) {
    Eight(p) && forall h: Hit :: Voices(p, h) == Copies(cell, h)
  }

  lemma {:induction false} PlacedCarries(hits: Cell, s: Slots, i: nat, p: Transport)
    requires Eight(p) && i <= |hits| <= |s.of| && DistinctSlots(s.of, |hits|)
    requires Carries(p, hits[..i]) && forall k :: i <= k < |hits| ==> !p.active[s.of[k]]
    ensures Carries(Placed(hits, s, i, p), hits)
    decreases |hits| - i
  {
    if i < |hits| {
      var j: nat, x := s.of[i], hits[i];
      var q := p.(notes := p.notes[j := x], active := p.active[j := x.drum == 0]);
      forall h: Hit ensures Voices(q, h) == Copies(hits[..i + 1], h) {
        UnusedMore(p, NO_SLOTS.used, h, VOICE_COUNT, j, x);
        CopiesNext(hits, h, i);
      }
      hide Voices, Copies, SameNote;
      PlacedCarries(hits, s, i + 1, q);
    } else {
      assert hits[..i] == hits;
    }
  }

  lemma {:induction false} AfterCellCarries(p: Transport, hits: Cell, position: int, contiguous: bool)
    requires Eight(p) && |hits| <= VOICE_COUNT
    ensures Carries(AfterCell(p, hits, position, contiguous), hits)
  {
    hide *;
    PlanFits(p, hits, position, contiguous);
    var t := Planned(p, hits, position, contiguous);
    PlanSize(t, hits);
    FitDistinct(t, |hits|);
    var cleared := p.(active := UNSET.active);
    NothingCarried(p, hits, t);
    PlacedCarries(hits, t, 0, cleared);
    AfterCellIs(p, hits, position, contiguous);
    MovedCarries(Placed(hits, t, 0, cleared), hits, position);
  }

  lemma {:induction false} NothingCarried(p: Transport, hits: Cell, s: Slots)
    requires Eight(p) && DistinctSlots(s.of, |hits|)
    ensures var cleared := p.(active := UNSET.active);
            Carries(cleared, hits[..0]) && forall k :: 0 <= k < |hits| ==> 0 <= s.of[k] < VOICE_COUNT && !cleared.active[s.of[k]]
  {
    var cleared := p.(active := UNSET.active);
    forall h: Hit ensures Voices(cleared, h) == Copies(hits[..0], h) {
      NoneUnused(cleared, NO_SLOTS.used, h, VOICE_COUNT);
    }
  }

  lemma {:induction false} MovedCarries(q: Transport, hits: Cell, position: int)
    requires Carries(q, hits)
    ensures Carries(q.(position := position, valid := true), hits)
  {
    var r := q.(position := position, valid := true);
    forall h: Hit ensures Voices(r, h) == Copies(hits, h) {
      UnusedMoved(q, position, h, VOICE_COUNT);
      assert Voices(q, h) == Copies(hits, h);
    }
  }

  lemma {:induction false} UnusedMoved(q: Transport, position: int, h: Hit, n: nat)
    requires Eight(q) && n <= VOICE_COUNT
    ensures Unused(q.(position := position, valid := true), NO_SLOTS.used, h, n) == Unused(q, NO_SLOTS.used, h, n)
  {
    if n > 0 {
      UnusedMoved(q, position, h, n - 1);
    }
  }

  // ---- Matching ----

  function Less(a: nat, b: nat): nat {
    if a > b then a - b else 0
  }

  // After i hits, every note has lost as many slots as it had tied copies among them.
  ghost predicate Claimed(p: Transport, hits: Cell, i: nat, s: Slots) {
    && Eight(p) && i <= |hits| && |s.of| == VOICE_COUNT && |s.used| == VOICE_COUNT
    && forall h: Hit :: Unused(p, s.used, h, VOICE_COUNT) == Less(Voices(p, h), Ties(hits[..i], h))
  }

  // A tied copy finds a slot while there are slots that sound its note.
  predicate Finds(p: Transport, hits: Cell, i: nat)
    requires Eight(p) && i < |hits|
  {
    hits[i].tie && hits[i].drum == 0 && Ties(hits[..i], hits[i]) < Voices(p, hits[i])
  }

  lemma {:induction false} ClaimNext(p: Transport, hits: Cell, i: nat, s: Slots)
    requires Claimed(p, hits, i, s) && i < |hits| <= VOICE_COUNT && s.of[i] < 0
    ensures var t := MatchNext(p, hits, i, s);
      && Claimed(p, hits, i + 1, t) && (t.of[i] >= 0 <==> Finds(p, hits, i))
      && forall k :: 0 <= k < VOICE_COUNT && k != i ==> t.of[k] == s.of[k]
  {
    var x := hits[i];
    var t := MatchNext(p, hits, i, s);
    FoundIfLeft(p, s.used, x);
    assert Unused(p, s.used, x, VOICE_COUNT) == Less(Voices(p, x), Ties(hits[..i], x));
    var j := FirstMatch(p, s.used, x, 0);
    forall h: Hit ensures Unused(p, t.used, h, VOICE_COUNT) == Less(Voices(p, h), Ties(hits[..i + 1], h)) {
      TiesNext(hits, h, i);
      assert Unused(p, s.used, h, VOICE_COUNT) == Less(Voices(p, h), Ties(hits[..i], h));
      if SameNote(x, h) {
        UnusedAlike(p, s.used, x, h, VOICE_COUNT);
      }
      if x.tie && x.drum == 0 && j < VOICE_COUNT {
        UnusedLess(p, s.used, h, VOICE_COUNT, j);
        assert SameNote(p.notes[j], h) <==> SameNote(x, h);
      }
    }
    hide Unused, Voices, Ties, FirstMatch;
  }

  // Which hits matching finds a slot for.
  lemma {:induction false} MatchedExactly(p: Transport, hits: Cell, i: nat, s: Slots)
    requires Claimed(p, hits, i, s) && i <= |hits| <= VOICE_COUNT && forall k :: i <= k < |hits| ==> s.of[k] < 0
    ensures var m := MatchFrom(p, hits, i, s);
      && |m.of| == VOICE_COUNT && (forall k :: 0 <= k < i ==> m.of[k] == s.of[k])
      && (forall k: nat :: i <= k < |hits| ==> (m.of[k] >= 0 <==> Finds(p, hits, k)))
    decreases |hits| - i
  {
    hide Finds, MatchNext;
    ClaimedShape(p, hits, i, s);
    MatchUnfold(p, hits, i, s);
    hide Claimed, MatchFrom;
    if i < |hits| {
      ClaimNext(p, hits, i, s);
      MatchedExactly(p, hits, i + 1, MatchNext(p, hits, i, s));
    }
  }

  lemma {:induction false} ClaimedShape(p: Transport, hits: Cell, i: nat, s: Slots)
    ensures Claimed(p, hits, i, s) ==> Eight(p) && i <= |hits| && |s.of| == VOICE_COUNT && |s.used| == VOICE_COUNT
  {
  }

  // ---- In step with the song ----

  // The transport sounds the cell before position.
  ghost predicate InStepAt(p: Transport, before: Cell, position: int) {
    p.valid && p.position == position - 1 && Carries(p, before)
  }

  lemma {:induction false} AfterCellInStep(p: Transport, hits: Cell, position: int, contiguous: bool)
    requires Eight(p) && |hits| <= VOICE_COUNT
    ensures InStepAt(AfterCell(p, hits, position, contiguous), hits, position + 1)
  {
    AfterCellSeats(p, hits, position, contiguous);
    AfterCellCarries(p, hits, position, contiguous);
    hide AfterCell, Carries, Planned, Seated, DistinctSlots;
  }

  // A tied hit is held while the copies of its note in the cell before outnumber the tied ones that came before it.
  predicate Holds(before: Cell, hits: Cell, i: nat)
    requires i < |hits|
  {
    hits[i].tie && hits[i].drum == 0 && Ties(hits[..i], hits[i]) < Copies(before, hits[i])
  }

  // What is sent for it: a hold on a slot that sounds its note, else an attack.
  predicate HeldExactly(p: Transport, before: Cell, hits: Cell, i: nat, t: Slots, cmds: seq<Command>) {
    && i < |hits| < |cmds| && |hits| <= |t.of| && Eight(p) && 0 <= t.of[i] < VOICE_COUNT
    && cmds[i + 1] == CommandFor(hits[i], t.of[i], Holds(before, hits, i))
    && (Holds(before, hits, i) ==> p.active[t.of[i]] && SameNote(p.notes[t.of[i]], hits[i]))
  }

  lemma {:induction false} HitIsPlanned(p: Transport, before: Cell, hits: Cell, position: int, i: nat)
    requires InStepAt(p, before, position) && Eight(p) && i < |hits| <= VOICE_COUNT
    ensures HeldExactly(p, before, hits, i, Planned(p, hits, position, true), Commands(p, hits, position, true))
  {
    hide *;
    var m, t := Matched(p, hits, position, true), Planned(p, hits, position, true);
    NothingClaimed(p, before, hits, position);
    MatchedExactly(p, hits, 0, NO_SLOTS);
    EveryCellIsPlanned(p, hits, position, true);
    PlanFits(p, hits, position, true);
    PlanSize(t, hits);
    PlanSize(m, hits);
    KeptIfMatched(m, t, i);
    FindsIsHolds(p, before, hits, i);
    PlannedAt(p, hits, t, KeptSet(m), Commands(p, hits, position, true), i);
    HeldIs(p, before, hits, i, t, Commands(p, hits, position, true));
  }

  lemma {:induction false} NothingClaimed(p: Transport, before: Cell, hits: Cell, position: int)
    requires InStepAt(p, before, position) && |hits| <= VOICE_COUNT && Eight(p)
    ensures Carries(p, before) && Matched(p, hits, position, true) == MatchFrom(p, hits, 0, NO_SLOTS)
    ensures Claimed(p, hits, 0, NO_SLOTS) && forall k :: 0 <= k < |hits| ==> NO_SLOTS.of[k] < 0
  {
    hide Carries, MatchFrom, Unused;
  }

  lemma {:induction false} KeptIfMatched(m: Slots, t: Slots, i: nat)
    requires Fit(m) && Fit(t) && i < VOICE_COUNT && |t.of| == |m.of| == VOICE_COUNT && 0 <= t.of[i] < VOICE_COUNT
    requires m.of[i] >= 0 ==> t.of[i] == m.of[i]
    requires m.of[i] < 0 ==> !m.used[t.of[i]]
    ensures t.of[i] in KeptSet(m) <==> m.of[i] >= 0
  {
    hide Trues, Given;
  }

  lemma {:induction false} FindsIsHolds(p: Transport, before: Cell, hits: Cell, i: nat)
    requires Carries(p, before) && Eight(p) && i < |hits|
    ensures Finds(p, hits, i) <==> Holds(before, hits, i)
  {
    assert Voices(p, hits[i]) == Copies(before, hits[i]);
    hide Voices, Copies, Ties;
  }

  lemma {:induction false} HeldIs(p: Transport, before: Cell, hits: Cell, i: nat, t: Slots, cmds: seq<Command>)
    requires i < |hits| < |cmds| && |hits| <= |t.of| && Eight(p) && 0 <= t.of[i] < VOICE_COUNT
    requires cmds[i + 1] == CommandFor(hits[i], t.of[i], Holds(before, hits, i))
    requires Holds(before, hits, i) ==> p.active[t.of[i]] && SameNote(p.notes[t.of[i]], hits[i])
    ensures HeldExactly(p, before, hits, i, t, cmds)
  {
  }

  // ---- All ties of a cell ----

  // No note has more tied copies than the cell before has copies of it.
  predicate Covered(before: Cell, hits: Cell) {
    forall i :: 0 <= i < |hits| && hits[i].tie && hits[i].drum == 0 ==> Ties(hits, hits[i]) <= Copies(before, hits[i])
  }

  predicate AllHeld(before: Cell, hits: Cell) {
    forall i: nat :: i < |hits| && hits[i].tie && hits[i].drum == 0 ==> Holds(before, hits, i)
  }

  lemma {:induction false} AllHeldIfCovered(before: Cell, hits: Cell)
    ensures AllHeld(before, hits) <==> Covered(before, hits)
  {
    if Covered(before, hits) {
      forall i: nat | i < |hits| && hits[i].tie && hits[i].drum == 0 ensures Holds(before, hits, i) {
        TiesNext(hits, hits[i], i);
        TiesGrow(hits, hits[i], i + 1);
      }
    }
    if AllHeld(before, hits) {
      forall i: nat | i < |hits| && hits[i].tie && hits[i].drum == 0
        ensures Ties(hits, hits[i]) <= Copies(before, hits[i])
      {
        if Ties(hits, hits[i]) > 0 {
          var l := LastTie(hits, hits[i]);
          assert Holds(before, hits, l);
          TiesAlike(hits[..l], hits[l], hits[i]);
          CopiesAlike(before, hits[l], hits[i]);
        }
      }
    }
  }

  // Ties that sound in the cell before, in a cell without doubled notes, are all held.
  lemma {:induction false} DistinctIsCovered(before: Cell, hits: Cell)
    requires Distinct(hits)
    requires forall k :: 0 <= k < |hits| && hits[k].tie && hits[k].drum == 0 ==> Sounds(before, hits[k])
    ensures Covered(before, hits)
  {
    forall i | 0 <= i < |hits| && hits[i].tie && hits[i].drum == 0 ensures Ties(hits, hits[i]) <= Copies(before, hits[i]) {
      FewTies(hits, hits[i]);
      CopiesSound(before, hits[i]);
    }
  }

  lemma {:induction false} FewTies(cell: Cell, h: Hit)
    requires Distinct(cell)
    ensures Ties(cell, h) <= Copies(cell, h) <= 1
  {
    if cell != [] {
      var rest, x := cell[..|cell| - 1], cell[|cell| - 1];
      assert Distinct(rest);
      FewTies(rest, h);
      if SameNote(x, h) {
        NoCopies(rest, h);
      }
    }
  }

  lemma {:induction false} NoCopies(cell: Cell, h: Hit)
    requires forall k :: 0 <= k < |cell| ==> !SameNote(cell[k], h)
    ensures Copies(cell, h) == 0
  {
    if cell != [] {
      NoCopies(cell[..|cell| - 1], h);
    }
  }

  lemma {:induction false} CopiesSound(cell: Cell, h: Hit)
    ensures Sounds(cell, h) <==> Copies(cell, h) > 0
  {
    SoundsIs(cell, h);
    if exists k :: 0 <= k < |cell| && SameNote(cell[k], h) {
      var k :| 0 <= k < |cell| && SameNote(cell[k], h);
      SomeCopy(cell, h, k);
    } else {
      NoCopies(cell, h);
    }
  }

  lemma {:induction false} SomeCopy(cell: Cell, h: Hit, k: nat)
    requires k < |cell| && SameNote(cell[k], h)
    ensures Copies(cell, h) > 0
  {
    if k < |cell| - 1 {
      SomeCopy(cell[..|cell| - 1], h, k);
    }
  }

  // With a note only once in the cell before, a single slot sounds it.
  lemma {:induction false} OneVoice(p: Transport, before: Cell, h: Hit, j: nat, k: nat)
    requires Carries(p, before) && Eight(p) && Distinct(before) && j < VOICE_COUNT && k < VOICE_COUNT
    requires p.active[j] && SameNote(p.notes[j], h) && p.active[k] && SameNote(p.notes[k], h)
    ensures j == k
  {
    FewTies(before, h);
    assert Voices(p, h) == Copies(before, h);
    if j < k {
      TwoUnused(p, NO_SLOTS.used, h, VOICE_COUNT, j, k);
    }
    if k < j {
      TwoUnused(p, NO_SLOTS.used, h, VOICE_COUNT, k, j);
    }
    hide Unused, Copies, Ties, Distinct;
  }

  // Held if tied, on the one slot that sounds its note, and otherwise attacked.
  predicate HeldIfTied(p: Transport, hits: Cell, i: nat, t: Slots, cmds: seq<Command>) {
    && i < |hits| < |cmds| && |hits| <= |t.of| && Eight(p) && 0 <= t.of[i] < VOICE_COUNT
    && cmds[i + 1] == CommandFor(hits[i], t.of[i], hits[i].tie)
    && (hits[i].tie ==> p.active[t.of[i]] && SameNote(p.notes[t.of[i]], hits[i]))
    && (forall j :: 0 <= j < VOICE_COUNT && hits[i].tie && p.active[j] && SameNote(p.notes[j], hits[i]) ==> j == t.of[i])
  }

  lemma {:induction false} OneSlotHolds(p: Transport, before: Cell, hits: Cell, position: int, i: nat, t: Slots,
                                        cmds: seq<Command>)
    requires InStepAt(p, before, position) && Distinct(before) && AllHeld(before, hits)
    requires i < |hits| && hits[i].drum == 0 && HeldExactly(p, before, hits, i, t, cmds)
    ensures HeldIfTied(p, hits, i, t, cmds)
  {
    hide Carries, Distinct, Ties, Copies, CommandFor;
    forall j: nat | j < VOICE_COUNT && hits[i].tie && p.active[j] && SameNote(p.notes[j], hits[i]) ensures j == t.of[i] {
      OneVoice(p, before, hits[i], j, t.of[i]);
    }
  }
}

/**
  The slot planner of the sequencer, loopTransport.commands in Pinao/ties.go:
  it gives every hit of a cell one of eight slots, so that a tied note stays on
  the slot that already sounds it.
 */
module PinaoTransport {
  import opened PinaoSong

  // Sequencer slot j is voice 300 + j. The bit mask of kept slots is a set here.
  datatype Command =
    | LoopOff(keep: set<int>)
    | On(id: int, midi: int, tone: int)
    | Hold(id: int, midi: int, tone: int)
    | Off(id: int)
    | OffAll
    | Drum(id: int, drum: int)
    | Volume(volume: int)

  datatype Transport = Transport(notes: seq<Hit>, active: seq<bool>, position: int, valid: bool)

  predicate Eight(p: Transport) {
    |p.notes| == VOICE_COUNT && |p.active| == VOICE_COUNT
  }

  const UNSET := Transport([NO_HIT, NO_HIT, NO_HIT, NO_HIT, NO_HIT, NO_HIT, NO_HIT, NO_HIT],
                           [false, false, false, false, false, false, false, false], 0, false)
  const NO_HIT := Hit(0, 0, 0, false)

  // ---- Slots ----

  datatype Slots = Slots(of: seq<int>, used: seq<bool>)

  const NO_SLOTS := Slots([-1, -1, -1, -1, -1, -1, -1, -1], [false, false, false, false, false, false, false, false])

  // The first free slot from j on that sounds h.
  function FirstMatch(p: Transport, used: seq<bool>, h: Hit, j: nat): (r: nat)
    requires Eight(p) && |used| == VOICE_COUNT && j <= VOICE_COUNT
    ensures j <= r <= VOICE_COUNT
    ensures r < VOICE_COUNT ==> p.active[r] && !used[r] && SameNote(p.notes[r], h)
    ensures forall k :: j <= k < r ==> !(p.active[k] && !used[k] && SameNote(p.notes[k], h))
    decreases VOICE_COUNT - j
  {
    if j == VOICE_COUNT || (p.active[j] && !used[j] && SameNote(p.notes[j], h)) then j
    else FirstMatch(p, used, h, j + 1)
  }

  function FirstFree(used: seq<bool>, j: nat): (r: nat)
    requires |used| == VOICE_COUNT && j <= VOICE_COUNT
    ensures j <= r <= VOICE_COUNT
    ensures r < VOICE_COUNT ==> !used[r]
    ensures forall k :: j <= k < r ==> used[k]
    decreases VOICE_COUNT - j
  {
    if j == VOICE_COUNT || !used[j] then j else FirstFree(used, j + 1)
  }

  // Slots in use are those that were given out, each once.
  predicate Fit(s: Slots) {
    && |s.of| == VOICE_COUNT && |s.used| == VOICE_COUNT && Apart(s) && Trues(s.used) == Given(s.of)
  }

  predicate Apart(s: Slots) {
    && (forall i :: 0 <= i < |s.of| ==> -1 <= s.of[i] < |s.used| && (s.of[i] >= 0 ==> s.used[s.of[i]]))
    && (forall i, k :: 0 <= i < k < |s.of| && s.of[i] >= 0 ==> s.of[i] != s.of[k])
  }

  function Trues(u: seq<bool>): nat {
    if u == [] then 0 else (if u[0] then 1 else 0) + Trues(u[1..])
  }

  function Given(s: seq<int>): nat {
    if s == [] then 0 else (if s[0] >= 0 then 1 else 0) + Given(s[1..])
  }

  function Give(s: Slots, i: nat, j: nat): (t: Slots)
    requires i < |s.of| && j < |s.used|
  {
    Slots(s.of[i := j], s.used[j := true])
  }

  lemma {:induction false} GiveFits(s: Slots, i: nat, j: nat)
    requires Fit(s) && i < VOICE_COUNT && j < VOICE_COUNT && s.of[i] < 0 && !s.used[j]
    ensures Fit(Give(s, i, j))
  {
    TruesUpdate(s.used, j);
    GivenUpdate(s.of, i, j);
    hide Trues, Given;
  }

  lemma {:induction false} TruesUpdate(u: seq<bool>, j: nat)
    requires j < |u| && !u[j]
    ensures Trues(u[j := true]) == Trues(u) + 1
  {
    if j > 0 {
      TruesUpdate(u[1..], j - 1);
      assert u[j := true][1..] == u[1..][j - 1 := true];
    } else {
      assert u[j := true][1..] == u[1..];
    }
  }

  lemma {:induction false} GivenUpdate(s: seq<int>, i: nat, j: nat)
    requires i < |s| && s[i] < 0
    ensures Given(s[i := j]) == Given(s) + 1
  {
    if i > 0 {
      GivenUpdate(s[1..], i - 1, j);
      assert s[i := j][1..] == s[1..][i - 1 := j];
    } else {
      assert s[i := j][1..] == s[1..];
    }
  }

  lemma {:induction false} AllTrue(u: seq<bool>)
    requires forall k :: 0 <= k < |u| ==> u[k]
    ensures Trues(u) == |u|
  {
    if u != [] {
      AllTrue(u[1..]);
    }
  }

  lemma {:induction false} OneMissing(s: seq<int>, i: nat)
    requires i < |s| && s[i] < 0
    ensures Given(s) < |s|
  {
    if i > 0 {
      OneMissing(s[1..], i - 1);
    } else {
      AtMost(s[1..]);
    }
  }

  lemma {:induction false} AtMost(s: seq<int>)
    ensures Given(s) <= |s|
  {
    if s != [] {
      AtMost(s[1..]);
    }
  }

  // While a hit has no slot, a slot is free.
  lemma {:induction false} SlotIsLeft(s: Slots, i: nat)
    requires Fit(s) && i < VOICE_COUNT && s.of[i] < 0
    ensures FirstFree(s.used, 0) < VOICE_COUNT
  {
    hide FirstFree, Trues, Given;
    OneMissing(s.of, i);
    if FirstFree(s.used, 0) == VOICE_COUNT {
      AllTrue(s.used);
    }
  }

  // Tied notes first, in order, to the slot that sounds them.
  function MatchNext(p: Transport, hits: Cell, i: nat, s: Slots): Slots
    requires Eight(p) && i < |hits| <= VOICE_COUNT && |s.of| == VOICE_COUNT && |s.used| == VOICE_COUNT
  {
    var j := if hits[i].tie && hits[i].drum == 0 then FirstMatch(p, s.used, hits[i], 0) else VOICE_COUNT;
    if j < VOICE_COUNT then Slots(s.of[i := j], s.used[j := true]) else s
  }

  function MatchFrom(p: Transport, hits: Cell, i: nat, s: Slots): Slots
    requires Eight(p) && |hits| <= VOICE_COUNT && i <= |hits| && |s.of| == VOICE_COUNT && |s.used| == VOICE_COUNT
    decreases |hits| - i
  {
    if i == |hits| then s else MatchFrom(p, hits, i + 1, MatchNext(p, hits, i, s))
  }

  // The others to the free slots from below.
  function FillFrom(n: nat, i: nat, s: Slots): Slots
    requires i <= n <= VOICE_COUNT && |s.of| == VOICE_COUNT && |s.used| == VOICE_COUNT
    decreases n - i
  {
    if i == n then s
    else
      var j := if s.of[i] >= 0 then VOICE_COUNT else FirstFree(s.used, 0);
      FillFrom(n, i + 1, if j < VOICE_COUNT then Slots(s.of[i := j], s.used[j := true]) else s)
  }

  predicate Continues(p: Transport, position: int, contiguous: bool) {
    contiguous && p.valid && position == p.position + 1
  }

  function Matched(p: Transport, hits: Cell, position: int, contiguous: bool): Slots
    requires Eight(p) && |hits| <= VOICE_COUNT
  {
    if Continues(p, position, contiguous) then MatchFrom(p, hits, 0, NO_SLOTS) else NO_SLOTS
  }

  lemma {:induction false} MatchFits(p: Transport, hits: Cell, i: nat, s: Slots)
    requires Eight(p) && |hits| <= VOICE_COUNT && i <= |hits| && Fit(s)
    requires forall k :: i <= k < VOICE_COUNT ==> s.of[k] < 0
    ensures Fit(MatchFrom(p, hits, i, s))
    ensures forall k :: |hits| <= k < VOICE_COUNT ==> MatchFrom(p, hits, i, s).of[k] < 0
    decreases |hits| - i
  {
    hide Fit;
    FitShape(s);
    if i < |hits| {
      var j := if hits[i].tie && hits[i].drum == 0 then FirstMatch(p, s.used, hits[i], 0) else VOICE_COUNT;
      if j < VOICE_COUNT {
        GiveFits(s, i, j);
      }
      MatchFits(p, hits, i + 1, MatchNext(p, hits, i, s));
    }
  }

  lemma {:induction false} FitShape(s: Slots)
    ensures Fit(s) ==> |s.of| == VOICE_COUNT && |s.used| == VOICE_COUNT &&
                       forall k :: 0 <= k < VOICE_COUNT ==> -1 <= s.of[k] < VOICE_COUNT
  {
    hide Trues, Given;
  }

  // What filling does to slots: given ones stay, new ones were free.
  predicate FilledFrom(s: Slots, t: Slots, n: nat) {
    && Fit(s) && Fit(t) && n <= VOICE_COUNT
    && (forall k :: 0 <= k < VOICE_COUNT && s.of[k] >= 0 ==> t.of[k] == s.of[k])
    && (forall k :: 0 <= k < VOICE_COUNT && s.of[k] < 0 && t.of[k] >= 0 ==> !s.used[t.of[k]])
    && (forall k :: n <= k < VOICE_COUNT ==> t.of[k] == s.of[k])
    && (forall j :: 0 <= j < VOICE_COUNT && s.used[j] ==> t.used[j])
  }

  lemma {:induction false} FillFits(n: nat, i: nat, s: Slots)
    requires i <= n <= VOICE_COUNT && Fit(s) && forall k :: 0 <= k < i ==> s.of[k] >= 0
    ensures FilledFrom(s, FillFrom(n, i, s), n)
    ensures forall k :: 0 <= k < n ==> FillFrom(n, i, s).of[k] >= 0
    decreases n - i
  {
    if i == n {
      FillNone(s, n);
    } else if s.of[i] >= 0 {
      FillFits(n, i + 1, s);
      hide Fit, FilledFrom;
    } else {
      SlotIsLeft(s, i);
      var j := FirstFree(s.used, 0);
      GiveFits(s, i, j);
      FillFits(n, i + 1, Give(s, i, j));
      FillStep(s, Give(s, i, j), FillFrom(n, i + 1, Give(s, i, j)), n, i, j);
      hide Fit, FilledFrom;
    }
  }

  lemma {:induction false} FillNone(s: Slots, n: nat)
    requires Fit(s) && n <= VOICE_COUNT
    ensures FilledFrom(s, s, n)
  {
    hide Trues, Given;
  }

  lemma {:induction false} FillStep(s: Slots, t: Slots, u: Slots, n: nat, i: nat, j: nat)
    requires Fit(s) && i < n <= VOICE_COUNT && j < VOICE_COUNT && s.of[i] < 0 && !s.used[j]
    requires t == Give(s, i, j) && FilledFrom(t, u, n)
    ensures FilledFrom(s, u, n)
  {
    hide Trues, Given;
  }

  // ---- What a cell sends ----

  function CommandFor(h: Hit, slot: int, kept: bool): Command {
    if h.drum > 0 then Drum(300 + slot, h.drum - 1)
    else if kept then Hold(300 + slot, h.midi, h.tone)
    else On(300 + slot, h.midi, h.tone)
  }

  predicate Kept(s: Slots, j: int) {
    0 <= j < |s.used| && s.used[j]
  }

  function KeptSet(s: Slots): set<int> {
    set j | 0 <= j < |s.used| && s.used[j]
  }

  // The slots of the hits, all of them given.
  function Planned(p: Transport, hits: Cell, position: int, contiguous: bool): Slots
    requires Eight(p) && |hits| <= VOICE_COUNT
  {
    var m := Matched(p, hits, position, contiguous);
    if |m.of| == VOICE_COUNT && |m.used| == VOICE_COUNT then FillFrom(|hits|, 0, m) else m
  }

  lemma {:induction false} PlanFits(p: Transport, hits: Cell, position: int, contiguous: bool)
    requires Eight(p) && |hits| <= VOICE_COUNT
    ensures var m, t := Matched(p, hits, position, contiguous), Planned(p, hits, position, contiguous);
      && Fit(m) && Fit(t) && (forall k :: 0 <= k < |hits| ==> 0 <= t.of[k] < VOICE_COUNT)
      && (forall k :: 0 <= k < VOICE_COUNT && m.of[k] >= 0 ==> t.of[k] == m.of[k])
      && (forall k :: 0 <= k < |hits| && m.of[k] < 0 ==> !m.used[t.of[k]])
      && (forall k :: |hits| <= k < VOICE_COUNT ==> m.of[k] < 0)
  {
    MatchedFits(p, hits, position, contiguous);
    hide Fit, MatchFrom, FillFrom, Matched;
    var m := Matched(p, hits, position, contiguous);
    FitShape(m);
    FillFits(|hits|, 0, m);
    FitShape(FillFrom(|hits|, 0, m));
  }

  lemma {:induction false} MatchedFits(p: Transport, hits: Cell, position: int, contiguous: bool)
    requires Eight(p) && |hits| <= VOICE_COUNT
    ensures var m := Matched(p, hits, position, contiguous);
            Fit(m) && forall k :: |hits| <= k < VOICE_COUNT ==> m.of[k] < 0
  {
    hide *;
    NoSlotsFit();
    MatchFits(p, hits, 0, NO_SLOTS);
    MatchedCases(p, hits, position, contiguous);
  }

  lemma {:induction false} MatchedCases(p: Transport, hits: Cell, position: int, contiguous: bool)
    requires Eight(p) && |hits| <= VOICE_COUNT && |NO_SLOTS.of| == VOICE_COUNT == |NO_SLOTS.used|
    ensures Matched(p, hits, position, contiguous) in {NO_SLOTS, MatchFrom(p, hits, 0, NO_SLOTS)}
  {
    hide MatchFrom;
  }

  lemma {:induction false} NoSlotsFit()
    ensures Fit(NO_SLOTS) && |NO_SLOTS.of| == VOICE_COUNT == |NO_SLOTS.used|
    ensures forall k :: 0 <= k < VOICE_COUNT ==> NO_SLOTS.of[k] < 0
  {
    NothingGiven();
    hide Trues, Given;
  }

  lemma {:induction false} NothingGiven()
    ensures Trues(NO_SLOTS.used) == Given(NO_SLOTS.of) == 0
  {
    NoneTrue(NO_SLOTS.used);
    NoneGiven(NO_SLOTS.of);
  }

  lemma {:induction false} NoneTrue(u: seq<bool>)
    requires forall k :: 0 <= k < |u| ==> !u[k]
    ensures Trues(u) == 0
  {
    if u != [] {
      NoneTrue(u[1..]);
    }
  }

  lemma {:induction false} NoneGiven(s: seq<int>)
    requires forall k :: 0 <= k < |s| ==> s[k] < 0
    ensures Given(s) == 0
  {
    if s != [] {
      NoneGiven(s[1..]);
    }
  }

  function HitCommands(hits: Cell, s: Slots, kept: Slots): (c: seq<Command>)
    requires |hits| <= |s.of|
    ensures |c| == |hits|
    ensures forall i :: 0 <= i < |hits| ==> c[i] == CommandFor(hits[i], s.of[i], Kept(kept, s.of[i]))
  {
    seq(|hits|, i requires 0 <= i < |hits| => CommandFor(hits[i], s.of[i], Kept(kept, s.of[i])))
  }

  function Commands(p: Transport, hits: Cell, position: int, contiguous: bool): (c: seq<Command>)
    requires Eight(p) && |hits| <= VOICE_COUNT
    ensures |c| == |hits| + 1
  {
    var m, t := Matched(p, hits, position, contiguous), Planned(p, hits, position, contiguous);
    PlanFits(p, hits, position, contiguous);
    CommandsOf(hits, m, t)
  }

  function CommandsOf(hits: Cell, m: Slots, t: Slots): (c: seq<Command>)
    requires |hits| <= |t.of|
    ensures |c| == |hits| + 1
  {
    [LoopOff(KeptSet(m))] + HitCommands(hits, t, m)
  }

  // Notes on their slots, the later ones over the earlier ones.
  function Placed(hits: Cell, s: Slots, i: nat, p: Transport): (q: Transport)
    requires Eight(p) && i <= |hits| <= |s.of| && forall k :: 0 <= k < |hits| ==> 0 <= s.of[k] < VOICE_COUNT
    ensures Eight(q)
    decreases |hits| - i
  {
    if i == |hits| then p
    else Placed(hits, s, i + 1, p.(notes := p.notes[s.of[i] := hits[i]], active := p.active[s.of[i] := hits[i].drum == 0]))
  }

  function AfterCell(p: Transport, hits: Cell, position: int, contiguous: bool): (q: Transport)
    requires Eight(p) && |hits| <= VOICE_COUNT
    ensures Eight(q)
  {
    var t := Planned(p, hits, position, contiguous);
    PlanFits(p, hits, position, contiguous);
    Placed(hits, t, 0, p.(active := UNSET.active)).(position := position, valid := true)
  }

  // ---- What the plan means ----

  // Each note at its slot, nothing else sounding.
  predicate Seated(q: Transport, hits: Cell, slots: seq<int>, n: nat) {
    && Eight(q) && n <= |hits| <= |slots|
    && (forall i :: 0 <= i < n ==> 0 <= slots[i] < VOICE_COUNT && q.notes[slots[i]] == hits[i] &&
                                   q.active[slots[i]] == (hits[i].drum == 0))
    && (forall j :: 0 <= j < VOICE_COUNT && q.active[j] ==> exists i :: 0 <= i < n && slots[i] == j)
  }

  predicate DistinctSlots(slots: seq<int>, n: nat) {
    n <= |slots| && (forall i :: 0 <= i < n ==> 0 <= slots[i] < VOICE_COUNT) &&
    forall i, k :: 0 <= i < k < n ==> slots[i] != slots[k]
  }

  lemma {:induction false} PlacedSeats(hits: Cell, s: Slots, i: nat, p: Transport)
    requires Eight(p) && i <= |hits| <= |s.of| && DistinctSlots(s.of, |hits|) && Seated(p, hits, s.of, i)
    ensures Seated(Placed(hits, s, i, p), hits, s.of, |hits|)
    decreases |hits| - i
  {
    if i < |hits| {
      var q := p.(notes := p.notes[s.of[i] := hits[i]], active := p.active[s.of[i] := hits[i].drum == 0]);
      SeatOne(hits, s.of, i, p);
      hide Seated;
      PlacedSeats(hits, s, i + 1, q);
    }
  }

  lemma {:induction false} SeatOne(hits: Cell, slots: seq<int>, i: nat, p: Transport)
    requires i < |hits| <= |slots| && DistinctSlots(slots, |hits|) && Seated(p, hits, slots, i)
    ensures Seated(p.(notes := p.notes[slots[i] := hits[i]], active := p.active[slots[i] := hits[i].drum == 0]),
                   hits, slots, i + 1)
  {
    var q := p.(notes := p.notes[slots[i] := hits[i]], active := p.active[slots[i] := hits[i].drum == 0]);
    forall j | 0 <= j < VOICE_COUNT && q.active[j] ensures exists k :: 0 <= k < i + 1 && slots[k] == j {
      if j == slots[i] {
        assert slots[i] == j;
      } else {
        var k :| 0 <= k < i && slots[k] == j;
        assert k < i + 1;
      }
    }
  }

  // After a cell the transport sounds that cell, whatever it sounded before.
  lemma {:induction false} AfterCellSeats(p: Transport, hits: Cell, position: int, contiguous: bool)
    requires Eight(p) && |hits| <= VOICE_COUNT
    ensures var t := Planned(p, hits, position, contiguous);
            var q := AfterCell(p, hits, position, contiguous);
            && DistinctSlots(t.of, |hits|) && Seated(q, hits, t.of, |hits|) && q.position == position && q.valid
  {
    hide *;
    PlanFits(p, hits, position, contiguous);
    var t := Planned(p, hits, position, contiguous);
    PlanSize(t, hits);
    FitDistinct(t, |hits|);
    var cleared := p.(active := UNSET.active);
    NoneSeated(p, hits, t.of);
    PlacedSeats(hits, t, 0, cleared);
    AfterCellIs(p, hits, position, contiguous);
    MovedSeats(Placed(hits, t, 0, cleared), hits, t.of, position);
  }

  lemma {:induction false} PlanSize(t: Slots, hits: Cell)
    requires Fit(t) && |hits| <= VOICE_COUNT
    ensures |hits| <= VOICE_COUNT == |t.of| && Eight(UNSET)
  {
  }

  lemma {:induction false} AfterCellIs(p: Transport, hits: Cell, position: int, contiguous: bool)
    requires Eight(p) && |hits| <= VOICE_COUNT
    requires var t := Planned(p, hits, position, contiguous);
             |hits| <= |t.of| && forall k :: 0 <= k < |hits| ==> 0 <= t.of[k] < VOICE_COUNT
    ensures var t := Planned(p, hits, position, contiguous);
            AfterCell(p, hits, position, contiguous) ==
            Placed(hits, t, 0, p.(active := UNSET.active)).(position := position, valid := true)
  {
    hide Planned, Placed;
  }

  lemma {:induction false} MovedSeats(q: Transport, hits: Cell, slots: seq<int>, position: int)
    requires Seated(q, hits, slots, |hits|)
    ensures Seated(q.(position := position, valid := true), hits, slots, |hits|)
  {
    var r := q.(position := position, valid := true);
    assert r.notes == q.notes && r.active == q.active;
  }

  lemma {:induction false} NoneSeated(p: Transport, hits: Cell, slots: seq<int>)
    requires Eight(p) && |hits| <= |slots|
    ensures Eight(p.(active := UNSET.active)) && Seated(p.(active := UNSET.active), hits, slots, 0)
  {
  }

  lemma {:induction false} FitDistinct(t: Slots, n: nat)
    requires Fit(t) && n <= VOICE_COUNT && forall k :: 0 <= k < n ==> t.of[k] >= 0
    ensures DistinctSlots(t.of, n)
  {
    hide Trues, Given;
  }

  // What matching found: used slots sound the notes they were matched with.
  predicate MatchedTo(p: Transport, hits: Cell, s: Slots, n: nat) {
    && Eight(p) && n <= |hits| <= |s.of| && |s.used| == VOICE_COUNT
    && (forall i :: 0 <= i < n && s.of[i] >= 0 ==>
          s.of[i] < VOICE_COUNT && p.active[s.of[i]] && SameNote(p.notes[s.of[i]], hits[i]) && hits[i].tie && hits[i].drum == 0)
    && (forall j :: 0 <= j < VOICE_COUNT && s.used[j] ==> exists i :: 0 <= i < n && s.of[i] == j)
  }

  lemma {:induction false} MatchUnfold(p: Transport, hits: Cell, i: nat, s: Slots)
    requires Eight(p) && |hits| <= VOICE_COUNT && i <= |hits| && |s.of| == VOICE_COUNT && |s.used| == VOICE_COUNT
    ensures MatchFrom(p, hits, i, s) ==
            if i == |hits| then s else MatchFrom(p, hits, i + 1, MatchNext(p, hits, i, s))
    ensures i < |hits| ==> |MatchNext(p, hits, i, s).of| == |MatchNext(p, hits, i, s).used| == VOICE_COUNT
  {
    hide MatchNext;
    if i < |hits| {
      NextSize(p, hits, i, s);
    }
  }

  lemma {:induction false} NextSize(p: Transport, hits: Cell, i: nat, s: Slots)
    requires Eight(p) && i < |hits| <= VOICE_COUNT && |s.of| == VOICE_COUNT && |s.used| == VOICE_COUNT
    ensures |MatchNext(p, hits, i, s).of| == |MatchNext(p, hits, i, s).used| == VOICE_COUNT
  {
    hide FirstMatch;
  }

  // ---- The theorem ----

  // Distinct slots in 0..7 for every cell; drums as drums, kept slots as holds and the rest as attacks; loop-off names
  // exactly the slots of the held hits; and a held hit is a tied one on a slot that sounded the same note.
  predicate WellPlanned(p: Transport, hits: Cell, t: Slots, keep: set<int>, cmds: seq<Command>) {
    && Eight(p) && |cmds| == |hits| + 1 && cmds[0] == LoopOff(keep)
    && DistinctSlots(t.of, |hits|)
    && (forall i :: 0 <= i < |hits| ==> cmds[i + 1] == CommandFor(hits[i], t.of[i], t.of[i] in keep))
    && (forall i :: 0 <= i < |hits| && t.of[i] in keep ==>
          hits[i].tie && hits[i].drum == 0 && p.active[t.of[i]] && SameNote(p.notes[t.of[i]], hits[i]))
    && (forall j :: j in keep ==> 0 <= j < VOICE_COUNT && exists i :: 0 <= i < |hits| && t.of[i] == j)
  }

  lemma {:induction false} EveryCellIsPlanned(p: Transport, hits: Cell, position: int, contiguous: bool)
    requires Eight(p) && |hits| <= VOICE_COUNT
    ensures WellPlanned(p, hits, Planned(p, hits, position, contiguous), KeptSet(Matched(p, hits, position, contiguous)),
                        Commands(p, hits, position, contiguous))
  {
    hide Matched, Planned, Fit, MatchedTo, Commands, KeptSet, DistinctSlots, CommandFor, Kept, SameNote;
    var m, t := Matched(p, hits, position, contiguous), Planned(p, hits, position, contiguous);
    PlanFits(p, hits, position, contiguous);
    PlanSize(t, hits);
    PlanSize(m, hits);
    FitDistinct(t, |hits|);
    MatchedMeans(p, hits, position, contiguous);
    KeptSlots(p, hits, m, t);
    CommandsAre(p, hits, position, contiguous);
  }

  lemma {:induction false} CommandsAre(p: Transport, hits: Cell, position: int, contiguous: bool)
    requires Eight(p) && |hits| <= VOICE_COUNT && |hits| <= |Planned(p, hits, position, contiguous).of|
    ensures var m, t := Matched(p, hits, position, contiguous), Planned(p, hits, position, contiguous);
            var cmds := Commands(p, hits, position, contiguous);
            cmds[0] == LoopOff(KeptSet(m)) &&
            forall i :: 0 <= i < |hits| ==> cmds[i + 1] == CommandFor(hits[i], t.of[i], Kept(m, t.of[i]))
  {
    var m, t := Matched(p, hits, position, contiguous), Planned(p, hits, position, contiguous);
    assert Commands(p, hits, position, contiguous) == CommandsOf(hits, m, t) by {
      hide Planned, Matched, CommandsOf, Fit;
    }
    hide *;
    CommandsInOrder(hits, m, t);
  }

  lemma {:induction false} CommandsInOrder(hits: Cell, m: Slots, t: Slots)
    requires |hits| <= |t.of|
    ensures var cmds := CommandsOf(hits, m, t);
            cmds[0] == LoopOff(KeptSet(m)) &&
            forall i :: 0 <= i < |hits| ==> cmds[i + 1] == CommandFor(hits[i], t.of[i], Kept(m, t.of[i]))
  {
    hide KeptSet, Kept, CommandFor, HitCommands;
    var first, rest := LoopOff(KeptSet(m)), HitCommands(hits, t, m);
    var cmds := CommandsOf(hits, m, t);
    assert cmds == [first] + rest;
    hide *;
    forall i | 0 <= i < |hits| ensures cmds[i + 1] == CommandFor(hits[i], t.of[i], Kept(m, t.of[i])) {
      assert cmds[i + 1] == rest[i];
    }
  }

  lemma {:induction false} KeptSlots(p: Transport, hits: Cell, m: Slots, t: Slots)
    requires MatchedTo(p, hits, m, |hits|) && DistinctSlots(t.of, |hits|) && |hits| <= VOICE_COUNT == |m.of|
    requires forall k :: 0 <= k < VOICE_COUNT && m.of[k] >= 0 ==> k < |t.of| && t.of[k] == m.of[k]
    requires forall k :: 0 <= k < |hits| && m.of[k] < 0 ==> !m.used[t.of[k]]
    ensures var keep := KeptSet(m);
      && (forall i :: 0 <= i < |hits| ==> (t.of[i] in keep <==> Kept(m, t.of[i])))
      && (forall i :: 0 <= i < |hits| && t.of[i] in keep ==>
            hits[i].tie && hits[i].drum == 0 && p.active[t.of[i]] && SameNote(p.notes[t.of[i]], hits[i]))
      && (forall j :: j in keep ==> 0 <= j < VOICE_COUNT && exists i :: 0 <= i < |hits| && t.of[i] == j)
  {
    forall j | j in KeptSet(m) ensures 0 <= j < VOICE_COUNT && exists i :: 0 <= i < |hits| && t.of[i] == j {
      var i :| 0 <= i < |hits| && m.of[i] == j;
      assert t.of[i] == j;
    }
  }

  // Matching only ever uses a slot for a tied hit it sounds.
  lemma {:induction false} MatchedMeans(p: Transport, hits: Cell, position: int, contiguous: bool)
    requires Eight(p) && |hits| <= VOICE_COUNT
    ensures MatchedTo(p, hits, Matched(p, hits, position, contiguous), |hits|)
  {
    assert MatchedTo(p, hits, NO_SLOTS, |hits|);
    assert MatchedTo(p, hits, NO_SLOTS, 0);
    hide MatchFrom, MatchedTo;
    MatchingMeans(p, hits, 0, NO_SLOTS);
  }

  lemma {:induction false} MatchingMeans(p: Transport, hits: Cell, i: nat, s: Slots)
    requires Eight(p) && |hits| <= VOICE_COUNT && i <= |hits| && |s.of| == VOICE_COUNT && |s.used| == VOICE_COUNT
    requires MatchedTo(p, hits, s, i) && forall k :: i <= k < |hits| ==> s.of[k] < 0
    ensures MatchedTo(p, hits, MatchFrom(p, hits, i, s), |hits|)
    decreases |hits| - i
  {
    if i < |hits| {
      var j := if hits[i].tie && hits[i].drum == 0 then FirstMatch(p, s.used, hits[i], 0) else VOICE_COUNT;
      var t := MatchNext(p, hits, i, s);
      if j < VOICE_COUNT {
        StillMatched(p, hits, i, s, j);
      } else {
        StillUnmatched(p, hits, i, s);
      }
      hide MatchedTo;
      MatchingMeans(p, hits, i + 1, t);
    }
  }

  lemma {:induction false} StillUnmatched(p: Transport, hits: Cell, i: nat, s: Slots)
    requires i < |hits| <= |s.of| && MatchedTo(p, hits, s, i) && s.of[i] < 0
    ensures MatchedTo(p, hits, s, i + 1)
  {
    forall l | 0 <= l < VOICE_COUNT && s.used[l] ensures exists k :: 0 <= k < i + 1 && s.of[k] == l {
      var k :| 0 <= k < i && s.of[k] == l;
      assert k < i + 1;
    }
  }

  lemma {:induction false} StillMatched(p: Transport, hits: Cell, i: nat, s: Slots, j: nat)
    requires i < |hits| <= |s.of| && MatchedTo(p, hits, s, i) && j < VOICE_COUNT
    requires hits[i].tie && hits[i].drum == 0 && p.active[j] && SameNote(p.notes[j], hits[i])
    ensures MatchedTo(p, hits, Slots(s.of[i := j], s.used[j := true]), i + 1)
  {
    var t := Slots(s.of[i := j], s.used[j := true]);
    forall l | 0 <= l < VOICE_COUNT && t.used[l] ensures exists k :: 0 <= k < i + 1 && t.of[k] == l {
      if l == j {
        assert t.of[i] == l;
      } else {
        var k :| 0 <= k < i && s.of[k] == l;
        assert t.of[k] == l;
      }
    }
  }

  lemma {:induction false} PlannedAt(p: Transport, hits: Cell, t: Slots, keep: set<int>, cmds: seq<Command>, i: nat)
    requires WellPlanned(p, hits, t, keep, cmds) && i < |hits|
    ensures |hits| <= |t.of| && |cmds| == |hits| + 1 && 0 <= t.of[i] < VOICE_COUNT
    ensures cmds[i + 1] == CommandFor(hits[i], t.of[i], t.of[i] in keep)
    ensures t.of[i] in keep ==> hits[i].tie && p.active[t.of[i]] && SameNote(p.notes[t.of[i]], hits[i])
  {
    hide CommandFor, SameNote;
  }
}

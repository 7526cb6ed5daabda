/**
  The commands of a cell, number by number: which voice every hit is given and
  what is sent for it.
 */
module PinaoCommands {
  import opened PinaoSong
  import opened PinaoTransport

  // Hit i on voice 300 + slots[i]: a drum strikes, a kept note goes on, any other one is struck anew.
  predicate Sends(hits: Cell, slots: seq<int>, keep: set<int>, cmds: seq<Command>) {
    && |slots| == |hits| && |cmds| == |hits| + 1 && cmds[0] == LoopOff(keep)
    && forall i :: 0 <= i < |hits| ==>
         cmds[i + 1] == if hits[i].drum > 0 then Drum(300 + slots[i], hits[i].drum - 1)
                        else if slots[i] in keep then Hold(300 + slots[i], hits[i].midi, hits[i].tone)
                        else On(300 + slots[i], hits[i].midi, hits[i].tone)
  }

  // Every slot once; a hit that is not kept takes the lowest one that no kept hit and no hit before it has.
  predicate FromBelow(slots: seq<int>, keep: set<int>) {
    && (forall i :: 0 <= i < |slots| ==> 0 <= slots[i] < 8)
    && (forall i, k :: 0 <= i < k < |slots| ==> slots[i] != slots[k])
    && (forall i: nat, j: nat {:trigger Taken(slots, keep, i, j)} ::
          i < |slots| && slots[i] !in keep && j < slots[i] ==> Taken(slots, keep, i, j))
  }

  predicate Taken(slots: seq<int>, keep: set<int>, i: nat, j: nat)
    requires i < |slots|
  {
    j in keep || exists k :: 0 <= k < i && slots[k] == j
  }

  // For every cell and any earlier state: the commands, and that only a cell right after the one before keeps notes.
  lemma {:induction false} CellSends(p: Transport, hits: Cell, position: int, contiguous: bool)
    returns (slots: seq<int>, keep: set<int>)
    requires Eight(p) && |hits| <= 8
    ensures Sends(hits, slots, keep, Commands(p, hits, position, contiguous)) && FromBelow(slots, keep)
    ensures !(contiguous && p.valid && position == p.position + 1) ==> keep == {}
    ensures (forall i :: 0 <= i < |hits| ==> !hits[i].tie) ==> keep == {}
  {
    hide *;
    VoicesAreEight();
    var m, t := Matched(p, hits, position, contiguous), Planned(p, hits, position, contiguous);
    keep := KeptSet(m);
    EveryCellIsPlanned(p, hits, position, contiguous);
    PlanFits(p, hits, position, contiguous);
    PlanSize(t, hits);
    slots := t.of[..|hits|];
    PlanSends(p, hits, t, keep, Commands(p, hits, position, contiguous));
    PlannedFromBelow(p, hits, position, contiguous);
    if !(contiguous && p.valid && position == p.position + 1) {
      NotInStep(p, hits, position, contiguous);
    }
  }

  lemma {:induction false} VoicesAreEight()
    ensures VOICE_COUNT == 8
  {
  }

  lemma {:induction false} PlanSends(p: Transport, hits: Cell, t: Slots, keep: set<int>, cmds: seq<Command>)
    requires WellPlanned(p, hits, t, keep, cmds) && |hits| <= |t.of|
    ensures Sends(hits, t.of[..|hits|], keep, cmds)
    ensures (forall i :: 0 <= i < |hits| ==> !hits[i].tie) ==> keep == {}
  {
    hide SameNote, DistinctSlots;
    forall j | j in keep ensures exists i :: 0 <= i < |hits| && hits[i].tie {
      var i :| 0 <= i < |hits| && t.of[i] == j;
      assert hits[i].tie;
    }
  }

  lemma {:induction false} NotInStep(p: Transport, hits: Cell, position: int, contiguous: bool)
    requires Eight(p) && |hits| <= VOICE_COUNT && !(contiguous && p.valid && position == p.position + 1)
    ensures KeptSet(Matched(p, hits, position, contiguous)) == {}
  {
    hide MatchFrom;
  }

  // A slot is in use exactly when a hit has it.
  predicate UsedByHits(s: Slots) {
    && |s.of| == 8 && |s.used| == 8
    && forall j :: 0 <= j < 8 ==> (s.used[j] <==> exists k :: 0 <= k < 8 && s.of[k] == j)
  }

  lemma {:induction false} PlannedFromBelow(p: Transport, hits: Cell, position: int, contiguous: bool)
    requires Eight(p) && |hits| <= VOICE_COUNT == 8
    ensures var m, t := Matched(p, hits, position, contiguous), Planned(p, hits, position, contiguous);
      |hits| <= |t.of| && FromBelow(t.of[..|hits|], KeptSet(m))
  {
    hide *;
    var m, t := Matched(p, hits, position, contiguous), Planned(p, hits, position, contiguous);
    PlanFits(p, hits, position, contiguous);
    PlanSize(t, hits);
    FitShape(m);
    FitDistinct(t, |hits|);
    MatchedMeans(p, hits, position, contiguous);
    MatchedByHits(p, hits, m);
    PlannedIs(p, hits, position, contiguous);
    FillsFromBelow(|hits|, 0, m);
    BelowIs(hits, m, t);
  }

  lemma {:induction false} PlannedIs(p: Transport, hits: Cell, position: int, contiguous: bool)
    requires Eight(p) && |hits| <= VOICE_COUNT
    requires var m := Matched(p, hits, position, contiguous); |m.of| == VOICE_COUNT == |m.used|
    ensures Planned(p, hits, position, contiguous) == FillFrom(|hits|, 0, Matched(p, hits, position, contiguous))
  {
    hide Matched, FillFrom;
  }

  lemma {:induction false} MatchedByHits(p: Transport, hits: Cell, m: Slots)
    requires MatchedTo(p, hits, m, |hits|) && Fit(m) && |hits| <= VOICE_COUNT == 8
    ensures UsedByHits(m)
  {
    hide Trues, Given, SameNote;
    forall j | 0 <= j < 8 ensures m.used[j] <==> exists k :: 0 <= k < 8 && m.of[k] == j {
      if m.used[j] {
        var k :| 0 <= k < |hits| && m.of[k] == j;
        assert k < 8;
      }
    }
  }

  // Every slot below the one of hit k belongs to a hit that had it before the filling, or to one filled before k.
  predicate Below(s: Slots, t: Slots, k: nat)
    requires |s.of| == 8 == |t.of| && k < 8
  {
    forall j: nat {:trigger Owned(s, t, k, j)} :: j < t.of[k] && j < 8 ==> Owned(s, t, k, j)
  }

  predicate Owned(s: Slots, t: Slots, k: nat, j: nat)
    requires |s.of| == 8 == |t.of|
  {
    exists h :: 0 <= h < 8 && t.of[h] == j && (s.of[h] == j || h < k)
  }

  lemma {:induction false} FillsFromBelow(n: nat, i: nat, s: Slots)
    requires i <= n <= 8 == VOICE_COUNT && UsedByHits(s) && Fit(s)
    ensures var t := FillFrom(n, i, s);
      && |t.of| == 8 && (forall k :: 0 <= k < 8 && s.of[k] >= 0 ==> t.of[k] == s.of[k])
      && forall k :: i <= k < n && s.of[k] < 0 ==> Below(s, t, k)
    decreases n - i
  {
    hide *;
    Eights(s);
    FillUnfold(n, i, s);
    if i < n {
      if s.of[i] >= 0 {
        FillsFromBelow(n, i + 1, s);
      } else {
        SlotIsLeft(s, i);
        var f := FirstFree(s.used, 0);
        GiveFits(s, i, f);
        GivenByHit(s, i, f);
        FillsFromBelow(n, i + 1, Give(s, i, f));
        FilledBelow(n, i, f, s, FillFrom(n, i + 1, Give(s, i, f)));
      }
    }
  }

  lemma {:induction false} Eights(s: Slots)
    requires UsedByHits(s)
    ensures |s.of| == 8 == |s.used|
  {
  }

  lemma {:induction false} GivenByHit(s: Slots, i: nat, f: nat)
    requires UsedByHits(s) && i < 8 && f < 8 && s.of[i] < 0 && !s.used[f]
    ensures UsedByHits(Give(s, i, f)) && Give(s, i, f) == Slots(s.of[i := f], s.used[f := true])
  {
    var t := Give(s, i, f);
    forall j | 0 <= j < 8 ensures t.used[j] <==> exists k :: 0 <= k < 8 && t.of[k] == j {
      if j == f {
        assert t.of[i] == j;
      } else {
        assert forall k :: 0 <= k < 8 && s.of[k] == j ==> t.of[k] == j;
      }
    }
  }

  lemma {:induction false} FilledBelow(n: nat, i: nat, f: nat, s: Slots, u: Slots)
    requires i < n <= 8 && f < 8 && UsedByHits(s) && |u.of| == 8 && s.of[i] < 0 && !s.used[f]
    requires forall j :: 0 <= j < f ==> s.used[j]
    requires Give(s, i, f) == Slots(s.of[i := f], s.used[f := true])
    requires forall k :: 0 <= k < 8 && Give(s, i, f).of[k] >= 0 ==> u.of[k] == Give(s, i, f).of[k]
    requires forall k :: i + 1 <= k < n && Give(s, i, f).of[k] < 0 ==> Below(Give(s, i, f), u, k)
    ensures forall k :: 0 <= k < 8 && s.of[k] >= 0 ==> u.of[k] == s.of[k]
    ensures forall k :: i <= k < n && s.of[k] < 0 ==> Below(s, u, k)
  {
    var t := Give(s, i, f);
    forall k | i <= k < n && s.of[k] < 0 ensures Below(s, u, k) {
      forall j: nat | j < u.of[k] && j < 8 ensures Owned(s, u, k, j) {
        if k == i {
          assert s.used[j];
          var h :| 0 <= h < 8 && s.of[h] == j;
          assert u.of[h] == j;
        } else {
          assert Below(t, u, k) && Owned(t, u, k, j);
          var h :| 0 <= h < 8 && u.of[h] == j && (t.of[h] == j || h < k);
          assert s.of[h] == j || h < k;
        }
      }
    }
  }

  lemma {:induction false} FillUnfold(n: nat, i: nat, s: Slots)
    requires i <= n <= VOICE_COUNT && |s.of| == VOICE_COUNT && |s.used| == VOICE_COUNT
    ensures i == n ==> FillFrom(n, i, s) == s
    ensures i < n && s.of[i] >= 0 ==> FillFrom(n, i, s) == FillFrom(n, i + 1, s)
    ensures i < n && s.of[i] < 0 && FirstFree(s.used, 0) < VOICE_COUNT ==>
              FillFrom(n, i, s) == FillFrom(n, i + 1, Give(s, i, FirstFree(s.used, 0)))
  {
    hide FirstFree;
  }

  lemma {:induction false} BelowIs(hits: Cell, m: Slots, t: Slots)
    requires |hits| <= 8 == VOICE_COUNT && UsedByHits(m) && |t.of| == 8 && DistinctSlots(t.of, |hits|)
    requires forall k :: 0 <= k < 8 && m.of[k] >= 0 ==> t.of[k] == m.of[k]
    requires forall k :: 0 <= k < |hits| && m.of[k] < 0 ==> Below(m, t, k)
    ensures FromBelow(t.of[..|hits|], KeptSet(m))
  {
    var slots, keep := t.of[..|hits|], KeptSet(m);
    forall i: nat, j: nat | i < |slots| && slots[i] !in keep && j < slots[i] ensures Taken(slots, keep, i, j) {
      assert m.of[i] < 0;
      assert Below(m, t, i) && Owned(m, t, i, j);
      var h :| 0 <= h < 8 && t.of[h] == j && (m.of[h] == j || h < i);
      if h < i {
        assert slots[h] == j;
      }
    }
  }

  // Without ties, the hits of a cell take the voices in their order, all of them struck.
  lemma {:induction false} UntiedInOrder(p: Transport, hits: Cell, position: int, contiguous: bool)
    requires Eight(p) && |hits| <= 8 && forall i :: 0 <= i < |hits| ==> !hits[i].tie
    ensures var cmds := Commands(p, hits, position, contiguous);
      && |cmds| == |hits| + 1 && cmds[0] == LoopOff({})
      && forall i :: 0 <= i < |hits| ==>
           cmds[i + 1] == if hits[i].drum > 0 then Drum(300 + i, hits[i].drum - 1) else On(300 + i, hits[i].midi, hits[i].tone)
  {
    hide *;
    VoicesAreEight();
    var slots, keep := CellSends(p, hits, position, contiguous);
    forall n: nat | n < |slots| ensures slots[n] == n {
      InOrder(slots, n);
    }
    InOrderSends(hits, slots, Commands(p, hits, position, contiguous));
  }

  lemma {:induction false} InOrderSends(hits: Cell, slots: seq<int>, cmds: seq<Command>)
    requires Sends(hits, slots, {}, cmds) && forall n: nat :: n < |slots| ==> slots[n] == n
    ensures |cmds| == |hits| + 1 && cmds[0] == LoopOff({})
    ensures forall i :: 0 <= i < |hits| ==>
              cmds[i + 1] == if hits[i].drum > 0 then Drum(300 + i, hits[i].drum - 1) else On(300 + i, hits[i].midi, hits[i].tone)
  {
  }

  predicate Differ(a: int, b: int) {
    a != b
  }

  lemma {:induction false} InOrder(slots: seq<int>, n: nat)
    requires FromBelow(slots, {}) && n < |slots|
    ensures forall i :: 0 <= i <= n ==> slots[i] == i
  {
    if n > 0 {
      InOrder(slots, n - 1);
    }
    var v := slots[n];
    forall k | 0 <= k < n ensures Differ(v, k) {
      assert slots[k] == k;
    }
    assert 0 <= v < n ==> Differ(v, v);
    assert slots[n] > n ==> Taken(slots, {}, n, n);
  }
}

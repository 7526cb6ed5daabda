/**
  Holding a note while the cursor moves on (extendHeld in Pinao/ties.go): which
  ties are written and what the keys remember.
 */
module PinaoHeld {
  import opened PinaoSong
  import opened PinaoModel

  // ---- Held notes ----

  // The key still holds a note of the cell the cursor came from.
  predicate Continues(m: Model, from: nat, code: nat)
    requires Shaped(m.song) && from < Total(m.song) && code < |m.captures|
  {
    var c := m.captures[code];
    code in m.held && c.valid && c.position == from && Sounds(CellAt(m.song, from), c.hit)
  }

  function Tied(m: Model, codes: seq<nat>): (cell: Cell)
    requires forall i :: 0 <= i < |codes| ==> codes[i] < |m.captures|
    ensures |cell| == |codes| && forall i :: 0 <= i < |codes| ==> cell[i] == m.captures[codes[i]].hit.(tie := true)
  {
    seq(|codes|, i requires 0 <= i < |codes| => m.captures[codes[i]].hit.(tie := true))
  }

  // What a key remembers once the next cell is `cell`: a note that goes on there, tied.
  function Remembered(m: Model, from: nat, code: nat, cell: Cell): Capture
    requires Shaped(m.song) && from < Total(m.song) && code < |m.captures|
  {
    var c, i := m.captures[code], NoteIndex(cell, m.captures[code].hit);
    if Continues(m, from, code) && i >= 0 then c.(valid := cell[i].tie, position := from + 1) else c.(valid := false)
  }

  // The keys in codes go on, in their order: each puts a tied copy of its note at the end of the next cell, where it did
  // not sound yet and had room. Of the others that go on below n, each finds its note there already, or eight others.
  ghost predicate Filled(m: Model, from: nat, n: nat, codes: seq<nat>, cell: Cell, next: Cell)
    requires Shaped(m.song) && from < Total(m.song) && n <= |m.captures|
  {
    && (forall i :: 0 <= i < |codes| ==> codes[i] < n && Continues(m, from, codes[i]))
    && (forall i, j :: 0 <= i < j < |codes| ==> codes[i] < codes[j])
    && next == cell + Tied(m, codes) && (codes != [] ==> |next| <= 8)
    && (forall i :: 0 <= i < |codes| ==> !Sounds(next[..|cell| + i], m.captures[codes[i]].hit))
    && (forall c: nat :: c < n && Continues(m, from, c) && !Sounds(next, m.captures[c].hit) ==>
          |next| >= 8 && forall i :: 0 <= i < |codes| ==> codes[i] < c)
  }

  // The keys below n remember what became of their notes.
  predicate Recalled(m: Model, captures: seq<Capture>, from: nat, n: nat, next: Cell)
    requires Shaped(m.song) && from < Total(m.song) && |m.captures| == 128
  {
    |captures| == 128 &&
    forall c: nat :: c < 128 ==> captures[c] == if c < n then Remembered(m, from, c, next) else m.captures[c]
  }

  // What going through the keys below n has changed: the next cell, a song with ties, the captures.
  ghost predicate Extends(m: Model, r: Model, from: nat, n: nat, codes: seq<nat>) {
    && Framed(m) && Framed(r) && from + 1 < Total(m.song) && Total(r.song) == Total(m.song) && n <= 128
    && r == m.(song := r.song, captures := r.captures, clearUntil := if codes == [] then m.clearUntil else NO_TIME,
               clearPage := if codes == [] then m.clearPage else -1)
    && r.song == m.song.(pages := r.song.pages, format := if codes == [] then m.song.format else 3)
    && (forall q: nat :: q < Total(m.song) && q != from + 1 ==> CellAt(r.song, q) == CellAt(m.song, q))
    && Filled(m, from, n, codes, CellAt(m.song, from + 1), CellAt(r.song, from + 1))
    && Recalled(m, r.captures, from, n, CellAt(r.song, from + 1))
  }

  predicate NothingRemembered(captures: seq<Capture>) {
    |captures| == 128 && forall c :: 0 <= c < 128 ==> !captures[c].valid
  }

  // A recorded step to the cell right after takes the held notes along; any other move lets go of them.
  ghost predicate Follows(m: Model, r: Model, from: nat, codes: seq<nat>) {
    if m.recording && m.stepMode && m.page * 16 + m.step == from + 1 then Extends(m, r, from, 128, codes)
    else r == m.(captures := r.captures) && NothingRemembered(r.captures)
  }

  lemma {:induction false} SoundsLonger(cell: Cell, more: Cell, h: Hit)
    requires Sounds(cell, h)
    ensures NoteIndex(cell + more, h) == NoteIndex(cell, h)
  {
    var i := NoteIndex(cell, h);
    assert forall k :: 0 <= k < |cell| ==> (cell + more)[k] == cell[k];
  }

  lemma {:induction false} SoundsLast(cell: Cell, h: Hit)
    requires !Sounds(cell, h) && h.drum == 0
    ensures NoteIndex(cell + [h.(tie := true)], h) == |cell|
  {
    var next := cell + [h.(tie := true)];
    assert SameNote(next[|cell|], h);
    assert forall k :: 0 <= k < |cell| ==> next[k] == cell[k];
  }

  lemma {:induction false} ExtendNothing(m: Model, from: nat)
    requires Framed(m) && from + 1 < Total(m.song)
    ensures Extends(m, m, from, 0, [])
  {
    var cell := CellAt(m.song, from + 1);
    assert Tied(m, []) == [] && cell + [] == cell;
    hide Shaped, CellAt, NoteIndex, Continues, Remembered;
  }

  // One key more.
  lemma {:induction false} ExtendMore(m: Model, r: Model, from: nat, n: nat, codes: seq<nat>) returns (more: seq<nat>)
    requires Extends(m, r, from, n, codes) && n < 128 && m.step >= 0 && m.page * 16 + m.step == from + 1
    ensures Framed(r) && r.step >= 0 && from < Total(r.song) && Extends(m, ExtendOne(r, from, n), from, n + 1, more)
  {
    hide *;
    ExtendsParts(m, r, from, n, codes);
    var s := ExtendOne(r, from, n);
    var cell, next := CellAt(m.song, from + 1), CellAt(r.song, from + 1);
    var h := m.captures[n].hit;
    OneIs(m, r, from, n);
    if Continues(m, from, n) && !Sounds(next, h) && |next| < 8 {
      more := codes + [n];
      ContinuesMelodic(m, from, n);
      FilledMore(m, from, n, codes, cell, next);
      AllPlaced(m, from, n, codes, cell, next);
      RecalledMore(m, r.captures, from, n, next);
      TieIn(r.song, from + 1, next + [h.(tie := true)], from);
      ExtendsFrom(m, r, s, from, n, codes, more);
    } else {
      more := codes;
      FilledOn(m, from, n, codes, cell, next);
      RecalledOn(m, r.captures, from, n, next);
      ExtendsStill(m, r, s, from, n, codes);
    }
  }

  lemma {:induction false} ExtendsParts(m: Model, r: Model, from: nat, n: nat, codes: seq<nat>)
    requires Extends(m, r, from, n, codes)
    ensures Shaped(m.song) && Shaped(r.song) && from + 1 < Total(m.song) == Total(r.song) && |m.captures| == 128 == |r.captures|
    ensures Framed(m) && Framed(r) && r.page == m.page && r.step == m.step && r.held == m.held && KEY_CODES == 128
    ensures CellAt(r.song, from) == CellAt(m.song, from) && (n < 128 ==> r.captures[n] == m.captures[n])
    ensures Filled(m, from, n, codes, CellAt(m.song, from + 1), CellAt(r.song, from + 1))
    ensures Recalled(m, r.captures, from, n, CellAt(r.song, from + 1))
  {
    hide CellAt, Filled, Remembered;
  }

  lemma {:induction false} ContinuesMelodic(m: Model, from: nat, code: nat)
    requires Shaped(m.song) && from < Total(m.song) && code < |m.captures| && Continues(m, from, code)
    ensures m.captures[code].hit.drum == 0 && m.captures[code].valid
  {
    hide CellAt;
  }

  lemma {:induction false} OneIs(m: Model, r: Model, from: nat, n: nat)
    requires Framed(m) && Framed(r) && Shaped(m.song) && Shaped(r.song) && from + 1 < Total(m.song) == Total(r.song)
    requires n < 128 == |m.captures| == |r.captures| && r.captures[n] == m.captures[n] && r.held == m.held
    requires CellAt(r.song, from) == CellAt(m.song, from) && r.step >= 0 && r.page * 16 + r.step == from + 1
    ensures from < Total(r.song)
    ensures var next, c := CellAt(r.song, from + 1), m.captures[n];
      var i := NoteIndex(next, c.hit);
      ExtendOne(r, from, n) ==
        if Continues(m, from, n) && !Sounds(next, c.hit) && |next| < 8
        then r.(song := WithCell(r.song, from + 1, next + [c.hit.(tie := true)]).(format := 3),
                captures := r.captures[n := c.(position := from + 1)], clearUntil := NO_TIME, clearPage := -1)
        else r.(captures := r.captures[n := Remembered(m, from, n, next)])
  {
    hide CellAt, WithCell, NoteIndex, Shaped, Total;
  }

  lemma {:induction false} TieIn(s: Song, pos: nat, cell: Cell, q: nat)
    requires Shaped(s) && pos < Total(s) && q < Total(s)
    ensures var t := WithCell(s, pos, cell).(format := 3);
      && Shaped(t) && Total(t) == Total(s) && |t.pages| == |s.pages| && t == s.(pages := t.pages, format := 3)
      && CellAt(t, pos) == cell && forall q: nat :: q < Total(s) && q != pos ==> CellAt(t, q) == CellAt(s, q)
  {
    var t := WithCell(s, pos, cell);
    forall q: nat | q < Total(s) ensures CellAt(t.(format := 3), q) == CellAt(t, q) {
    }
    hide WithCell, CellAt;
  }

  lemma {:induction false} ExtendsStill(m: Model, r: Model, s: Model, from: nat, n: nat, codes: seq<nat>)
    requires Extends(m, r, from, n, codes) && n < 128 && s == r.(captures := s.captures) && Shaped(m.song)
    requires |m.captures| == 128 == |s.captures|
    requires Shaped(r.song) && from + 1 < Total(m.song) == Total(r.song)
    requires Filled(m, from, n + 1, codes, CellAt(m.song, from + 1), CellAt(r.song, from + 1))
    requires Recalled(m, s.captures, from, n + 1, CellAt(r.song, from + 1))
    ensures Extends(m, s, from, n + 1, codes)
  {
    hide CellAt, Filled, Recalled, Shaped;
  }

  lemma {:induction false} ExtendsFrom(m: Model, r: Model, s: Model, from: nat, n: nat, codes: seq<nat>, more: seq<nat>)
    requires Extends(m, r, from, n, codes) && n < 128 && more != [] && Shaped(m.song) && |m.captures| == 128 == |s.captures|
    requires Shaped(r.song) && Shaped(s.song) && from + 1 < Total(m.song) == Total(r.song) == Total(s.song)
    requires s == r.(song := s.song, captures := s.captures, clearUntil := NO_TIME, clearPage := -1)
    requires s.song == r.song.(pages := s.song.pages, format := 3) && |s.song.pages| == |r.song.pages|
    requires forall q: nat :: q < Total(r.song) && q != from + 1 ==> CellAt(s.song, q) == CellAt(r.song, q)
    requires Filled(m, from, n + 1, more, CellAt(m.song, from + 1), CellAt(s.song, from + 1))
    requires Recalled(m, s.captures, from, n + 1, CellAt(s.song, from + 1))
    ensures Extends(m, s, from, n + 1, more)
  {
    hide CellAt, Filled, Recalled, Shaped;
  }

  lemma {:induction false} FilledMore(m: Model, from: nat, n: nat, codes: seq<nat>, cell: Cell, next: Cell)
    requires Shaped(m.song) && from < Total(m.song) && n < |m.captures| && Filled(m, from, n, codes, cell, next)
    requires Continues(m, from, n) && !Sounds(next, m.captures[n].hit) && |next| < 8 && m.captures[n].hit.drum == 0
    ensures Filled(m, from, n + 1, codes + [n], cell, next + [m.captures[n].hit.(tie := true)])
  {
    hide Continues, NoteIndex, Sounds;
    var h, more := m.captures[n].hit, codes + [n];
    var after := next + [h.(tie := true)];
    TiedMore(m, codes, n);
    Associate(cell, Tied(m, codes), [h.(tie := true)]);
    forall i | 0 <= i < |more| ensures !Sounds(after[..|cell| + i], m.captures[more[i]].hit) {
      if i < |codes| {
        assert after[..|cell| + i] == next[..|cell| + i];
      } else {
        assert after[..|next|] == next;
      }
    }
    forall c: nat | c < n + 1 && Continues(m, from, c) ensures Sounds(after, m.captures[c].hit) {
      if c < n {
        assert Sounds(next, m.captures[c].hit);
        StillSounds(next, h.(tie := true), m.captures[c].hit);
      } else {
        NowSounds(next, h);
      }
    }
  }

  lemma {:induction false} Associate<T>(a: seq<T>, b: seq<T>, c: seq<T>)
    ensures (a + b) + c == a + (b + c)
  {
  }

  lemma {:induction false} TiedMore(m: Model, codes: seq<nat>, n: nat)
    requires n < |m.captures| && forall i :: 0 <= i < |codes| ==> codes[i] < |m.captures|
    ensures forall i :: 0 <= i < |codes + [n]| ==> (codes + [n])[i] < |m.captures|
    ensures Tied(m, codes + [n]) == Tied(m, codes) + [m.captures[n].hit.(tie := true)]
  {
  }

  // While the cell has room, every key that goes on sounds in it.
  lemma {:induction false} AllPlaced(m: Model, from: nat, n: nat, codes: seq<nat>, cell: Cell, next: Cell)
    requires Shaped(m.song) && from < Total(m.song) && n <= |m.captures| && Filled(m, from, n, codes, cell, next) && |next| < 8
    ensures forall c: nat :: c < n && Continues(m, from, c) ==> Sounds(next, m.captures[c].hit)
  {
    hide Continues, Sounds, Tied;
  }

  lemma {:induction false} StillSounds(cell: Cell, x: Hit, h: Hit)
    requires Sounds(cell, h)
    ensures Sounds(cell + [x], h) && NoteIndex(cell + [x], h) == NoteIndex(cell, h)
  {
    SoundsLonger(cell, [x], h);
  }

  lemma {:induction false} NowSounds(cell: Cell, h: Hit)
    requires !Sounds(cell, h) && h.drum == 0
    ensures Sounds(cell + [h.(tie := true)], h) && NoteIndex(cell + [h.(tie := true)], h) == |cell|
  {
    SoundsLast(cell, h);
  }

  lemma {:induction false} FilledOn(m: Model, from: nat, n: nat, codes: seq<nat>, cell: Cell, next: Cell)
    requires Shaped(m.song) && from < Total(m.song) && n < |m.captures| && Filled(m, from, n, codes, cell, next)
    requires !(Continues(m, from, n) && !Sounds(next, m.captures[n].hit) && |next| < 8)
    ensures Filled(m, from, n + 1, codes, cell, next)
  {
    hide Continues, NoteIndex, Sounds, Tied;
  }

  lemma {:induction false} RecalledOn(m: Model, captures: seq<Capture>, from: nat, n: nat, next: Cell)
    requires Shaped(m.song) && from < Total(m.song) && |m.captures| == 128 && n < 128 && Recalled(m, captures, from, n, next)
    ensures Recalled(m, captures[n := Remembered(m, from, n, next)], from, n + 1, next)
  {
    hide Remembered;
  }

  // A longer cell changes nothing for the keys already seen: those without a place found it full.
  lemma {:induction false} RecalledMore(m: Model, captures: seq<Capture>, from: nat, n: nat, next: Cell)
    requires Shaped(m.song) && from < Total(m.song) && |m.captures| == 128 && n < 128 && Recalled(m, captures, from, n, next)
    requires Continues(m, from, n) && !Sounds(next, m.captures[n].hit) && m.captures[n].hit.drum == 0 && m.captures[n].valid
    requires forall c: nat :: c < n && Continues(m, from, c) ==> Sounds(next, m.captures[c].hit)
    ensures var c := m.captures[n];
      Recalled(m, captures[n := c.(position := from + 1)], from, n + 1, next + [c.hit.(tie := true)])
  {
    var h := m.captures[n].hit;
    var after := next + [h.(tie := true)];
    NowSounds(next, h);
    forall c: nat | c < n ensures Remembered(m, from, c, after) == Remembered(m, from, c, next) {
      if Continues(m, from, c) {
        StillSounds(next, h.(tie := true), m.captures[c].hit);
      }
    }
    hide Continues, NoteIndex;
  }

  // Going through all keys.
  lemma {:induction false} ExtendRest(m: Model, r: Model, from: nat, n: nat, codes: seq<nat>) returns (all: seq<nat>)
    requires Extends(m, r, from, n, codes) && m.step >= 0 && m.page * 16 + m.step == from + 1
    ensures Framed(r) && r.step >= 0 && from < Total(r.song) && n <= KEY_CODES == 128
    ensures Extends(m, ExtendFrom(r, from, n), from, 128, all)
    decreases 128 - n
  {
    ExtendsFramed(m, r, from, n, codes);
    hide ExtendOne, Extends, Framed, Total;
    if n == 128 {
      all := codes;
    } else {
      var more := ExtendMore(m, r, from, n, codes);
      all := ExtendRest(m, ExtendOne(r, from, n), from, n + 1, more);
    }
  }

  lemma {:induction false} ExtendsFramed(m: Model, r: Model, from: nat, n: nat, codes: seq<nat>)
    requires Extends(m, r, from, n, codes)
    ensures Framed(r) && r.step == m.step && from < Total(r.song) && n <= 128
  {
    hide Filled, Recalled, Framed;
  }

  // The whole of extendHeld.
  lemma {:induction false} HeldNotesFollow(m: Model, from: nat) returns (codes: seq<nat>)
    requires Framed(m) && m.step >= 0
    ensures Follows(m, Extended(m, from), from, codes)
  {
    hide ExtendFrom, Extends, Framed;
    codes := [];
    if m.recording && m.stepMode && m.page * 16 + m.step == from + 1 {
      PositionInSong(m);
      ExtendNothing(m, from);
      codes := ExtendRest(m, m, from, 0, []);
    }
  }
}

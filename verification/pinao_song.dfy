/**
  Songs of the Pinao sequencer (Pinao/model.go, ties.go, pages.go): pages of
  sixteen cells, notes that continue the preceding cell, and the edits that
  keep every such tie attached. The first page and the further ones form one
  list here.
 */
module PinaoSong {

  const STEPS: nat := 16
  const MAX_PAGES: nat := 64
  const VOICE_COUNT: nat := 8

  datatype Hit = Hit(midi: int, tone: int, drum: int, tie: bool)

  type Cell = seq<Hit>

  datatype Song = Song(format: int, bpm: int, octave: int, tone: int, volume: int, pages: seq<seq<Cell>>)

  predicate Shaped(s: Song) {
    s.pages != [] && forall p :: 0 <= p < |s.pages| ==> |s.pages[p]| == STEPS
  }

  function Total(s: Song): nat {
    |s.pages| * STEPS
  }

  function CellAt(s: Song, pos: nat): Cell
    requires Shaped(s) && pos < Total(s)
  {
    s.pages[pos / STEPS][pos % STEPS]
  }

  // The chronologically preceding cell; nothing precedes the first.
  function Before(s: Song, pos: nat): Cell
    requires Shaped(s) && pos <= Total(s)
  {
    if pos == 0 then [] else CellAt(s, pos - 1)
  }

  // A cell by its page and step.
  lemma {:induction false} CellOnPage(s: Song, page: nat, step: nat)
    requires Shaped(s) && page < |s.pages| && step < STEPS
    ensures page * STEPS + step < Total(s) && CellAt(s, page * STEPS + step) == s.pages[page][step]
  {
  }

  // ---- Notes ----

  predicate SameNote(a: Hit, b: Hit) {
    a.drum == 0 && b.drum == 0 && a.midi == b.midi && a.tone == b.tone
  }

  function NoteIndex(notes: Cell, h: Hit): (i: int)
    ensures -1 <= i < |notes|
    ensures i >= 0 ==> SameNote(notes[i], h) && forall k :: 0 <= k < i ==> !SameNote(notes[k], h)
    ensures i < 0 ==> forall k :: 0 <= k < |notes| ==> !SameNote(notes[k], h)
  {
    if notes == [] then -1
    else if SameNote(notes[0], h) then 0
    else
      var i := NoteIndex(notes[1..], h);
      assert i < 0 ==> forall k :: 0 < k < |notes| ==> notes[k] == notes[1..][k - 1];
      if i < 0 then -1 else i + 1
  }

  predicate Sounds(notes: Cell, h: Hit) {
    NoteIndex(notes, h) >= 0
  }

  lemma {:induction false} SoundsIs(notes: Cell, h: Hit)
    ensures Sounds(notes, h) <==> exists k :: 0 <= k < |notes| && SameNote(notes[k], h)
  {
    var i := NoteIndex(notes, h);
  }

  method FindNote(notes: Cell, h: Hit) returns (i: int)
    ensures i == NoteIndex(notes, h)
  {
    i := 0;
    while i < |notes|
      invariant 0 <= i <= |notes|
      invariant forall k :: 0 <= k < i ==> !SameNote(notes[k], h)
    {
      if SameNote(notes[i], h) {
        return;
      }
      i := i + 1;
    }
    return -1;
  }

  // ---- Valid songs ----

  predicate HitOk(h: Hit) {
    0 <= h.drum <= 4 && 0 <= h.tone <= 2 && (h.drum == 0 ==> 36 <= h.midi <= 96)
  }

  // A tie continues the same pitch and tone of the preceding cell, in a format that has ties.
  predicate TieOk(format: int, before: Cell, h: Hit) {
    h.tie ==> format == 3 && h.drum == 0 && Sounds(before, h)
  }

  predicate CellOk(format: int, before: Cell, cell: Cell) {
    |cell| <= VOICE_COUNT && forall i :: 0 <= i < |cell| ==> TieOk(format, before, cell[i]) && HitOk(cell[i])
  }

  predicate SettingsOk(s: Song) {
    && 1 <= s.format <= 3 && (s.format == 1 ==> |s.pages| == 1) && |s.pages| <= MAX_PAGES
    && 60 <= s.bpm <= 180 && 3 <= s.octave <= 6 && 0 <= s.tone <= 2 && 0 <= s.volume <= 100
  }

  predicate ValidSong(s: Song) {
    Shaped(s) && SettingsOk(s) && forall pos: nat :: pos < Total(s) ==> CellOk(s.format, Before(s, pos), CellAt(s, pos))
  }

  // Song.validate
  method Validate(s: Song) returns (ok: bool)
    requires Shaped(s)
    ensures ok <==> ValidSong(s)
  {
    hide CellOk, CellAt, Before;
    if (s.format < 1 || s.format > 3) || (s.format == 1 && |s.pages| != 1) || |s.pages| > MAX_PAGES ||
       s.bpm < 60 || s.bpm > 180 || s.octave < 3 || s.octave > 6 || s.tone < 0 || s.tone > 2 ||
       s.volume < 0 || s.volume > 100 {
      return false;
    }
    for page := 0 to |s.pages|
      invariant forall pos: nat :: pos < page * STEPS ==> CellOk(s.format, Before(s, pos), CellAt(s, pos))
    {
      for step := 0 to STEPS
        invariant forall pos: nat :: pos < page * STEPS + step ==> CellOk(s.format, Before(s, pos), CellAt(s, pos))
      {
        var pos := page * STEPS + step;
        var cell := s.pages[page][step];
        CellOnPage(s, page, step);
        var good := ValidateCell(s, pos, cell);
        if !good {
          return false;
        }
      }
    }
    return true;
  }

  method ValidateCell(s: Song, pos: nat, notes: Cell) returns (ok: bool)
    requires Shaped(s) && pos < Total(s)
    ensures ok <==> CellOk(s.format, Before(s, pos), notes)
  {
    if |notes| > 8 {
      return false;
    }
    for i := 0 to |notes|
      invariant forall k :: 0 <= k < i ==> TieOk(s.format, Before(s, pos), notes[k]) && HitOk(notes[k])
    {
      var h := notes[i];
      if h.tie {
        if s.format != 3 || h.drum != 0 || pos == 0 {
          return false;
        }
        var before := FindNote(CellAt(s, pos - 1), h);
        if before < 0 {
          return false;
        }
      }
      if h.drum < 0 || h.drum > 4 || h.tone < 0 || h.tone > 2 || (h.drum == 0 && (h.midi < 36 || h.midi > 96)) {
        return false;
      }
    }
    return true;
  }

  // No pitch and tone twice in a cell. Files may break this; editing never does.
  predicate Distinct(cell: Cell) {
    forall i, j :: 0 <= i < j < |cell| ==> !SameNote(cell[i], cell[j])
  }

  predicate DistinctSong(s: Song) {
    Shaped(s) && forall pos: nat :: pos < Total(s) ==> Distinct(CellAt(s, pos))
  }

  // ---- One cell replaced ----

  function WithCell(s: Song, pos: nat, cell: Cell): (t: Song)
    requires Shaped(s) && pos < Total(s)
    ensures Shaped(t) && |t.pages| == |s.pages|
    ensures t == s.(pages := t.pages)
    ensures forall q: nat :: q < Total(s) ==> CellAt(t, q) == if q == pos then cell else CellAt(s, q)
  {
    s.(pages := s.pages[pos / STEPS := s.pages[pos / STEPS][pos % STEPS := cell]])
  }

  // An edit that keeps the notes of a cell keeps the ties of the next one.
  lemma {:induction false} EditKeepsValid(s: Song, pos: nat, cell: Cell, format: int)
    requires ValidSong(s) && pos < Total(s) && (format == s.format || format == 3)
    requires CellOk(format, Before(s, pos), cell)
    requires forall h :: Sounds(CellAt(s, pos), h) ==> Sounds(cell, h)
    ensures ValidSong(WithCell(s, pos, cell).(format := format))
  {
    hide *;
    EditedSettings(s, pos, cell, format);
    var t := WithCell(s, pos, cell).(format := format);
    forall q: nat | q < Total(t) ensures CellOk(t.format, Before(t, q), CellAt(t, q)) {
      EditedAt(s, pos, cell, format, q);
    }
    ValidFromCells(t);
  }

  lemma {:induction false} EditedSettings(s: Song, pos: nat, cell: Cell, format: int)
    requires ValidSong(s) && pos < Total(s) && (format == s.format || format == 3)
    ensures var t := WithCell(s, pos, cell).(format := format);
            Shaped(s) && Shaped(t) && SettingsOk(t) && Total(t) == Total(s) && t.format == format
  {
    hide WithCell, CellOk, CellAt, Before;
  }

  lemma {:induction false} ValidAt(s: Song, pos: nat)
    requires ValidSong(s) && pos < Total(s)
    ensures CellOk(s.format, Before(s, pos), CellAt(s, pos))
  {
    hide CellOk, CellAt, Before;
  }

  lemma {:induction false} EditedAt(s: Song, pos: nat, cell: Cell, format: int, q: nat)
    requires ValidSong(s) && Shaped(s) && pos < Total(s) && (format == s.format || format == 3) && q < Total(s)
    requires CellOk(format, Before(s, pos), cell) && forall h :: Sounds(CellAt(s, pos), h) ==> Sounds(cell, h)
    ensures var t := WithCell(s, pos, cell).(format := format);
            Shaped(t) && q < Total(t) && CellOk(format, Before(t, q), CellAt(t, q))
  {
    hide *;
    EditedSettings(s, pos, cell, format);
    var t := WithCell(s, pos, cell).(format := format);
    ValidAt(s, q);
    SameIn(s, pos, cell, format, q);
    BeforeCases(s, q);
    BeforeCases(t, q);
    if q > 0 {
      SameIn(s, pos, cell, format, q - 1);
    }
    if q != pos {
      CellOkGrows(s.format, format, Before(s, q), Before(t, q), CellAt(s, q));
    }
  }

  lemma {:induction false} SameIn(s: Song, pos: nat, cell: Cell, format: int, q: nat)
    requires Shaped(s) && pos < Total(s) && q < Total(s)
    ensures CellAt(WithCell(s, pos, cell).(format := format), q) == if q == pos then cell else CellAt(s, q)
  {
    assert CellAt(WithCell(s, pos, cell), q) == CellAt(WithCell(s, pos, cell).(format := format), q);
  }

  lemma {:induction false} CellOkGrows(format: int, next: int, before: Cell, wider: Cell, cell: Cell)
    requires CellOk(format, before, cell) && (next == format || next == 3)
    requires forall h :: Sounds(before, h) ==> Sounds(wider, h)
    ensures CellOk(next, wider, cell)
  {
    hide Sounds, HitOk;
  }

  lemma {:induction false} EditKeepsDistinct(s: Song, pos: nat, cell: Cell)
    requires DistinctSong(s) && pos < Total(s) && Distinct(cell)
    ensures DistinctSong(WithCell(s, pos, cell))
  {
    hide WithCell, Distinct;
  }

  // ---- Repairing ties ----

  // A continuation that has nothing to continue becomes an attack.
  function RepairHit(before: Cell, h: Hit): Hit {
    h.(tie := h.tie && Sounds(before, h))
  }

  function RepairCell(before: Cell, cell: Cell): (r: Cell)
    ensures |r| == |cell| && forall i :: 0 <= i < |cell| ==> r[i] == RepairHit(before, cell[i])
  {
    seq(|cell|, i requires 0 <= i < |cell| => RepairHit(before, cell[i]))
  }

  function RepairedPage(s: Song, p: nat): (page: seq<Cell>)
    requires Shaped(s) && p < |s.pages|
    ensures |page| == STEPS
    ensures forall i :: 0 <= i < STEPS ==> page[i] == RepairCell(Before(s, p * STEPS + i), s.pages[p][i])
  {
    seq(STEPS, i requires 0 <= i < STEPS => RepairCell(Before(s, p * STEPS + i), s.pages[p][i]))
  }

  function Repaired(s: Song): (t: Song)
    requires Shaped(s)
    ensures Shaped(t) && |t.pages| == |s.pages| && t == s.(pages := t.pages)
    ensures forall p :: 0 <= p < |s.pages| ==> t.pages[p] == RepairedPage(s, p)
  {
    s.(pages := seq(|s.pages|, p requires 0 <= p < |s.pages| => RepairedPage(s, p)))
  }

  lemma {:induction false} RepairedCell(s: Song, pos: nat)
    requires Shaped(s) && pos < Total(s)
    ensures CellAt(Repaired(s), pos) == RepairCell(Before(s, pos), CellAt(s, pos))
  {
    var p, i := pos / STEPS, pos % STEPS;
    assert p * STEPS + i == pos;
    assert Repaired(s).pages[p] == RepairedPage(s, p);
    hide Repaired, RepairedPage, RepairCell, Before;
  }

  lemma {:induction false} RepairedCells(s: Song)
    requires Shaped(s)
    ensures forall pos: nat :: pos < Total(s) ==> CellAt(Repaired(s), pos) == RepairCell(Before(s, pos), CellAt(s, pos))
  {
    hide CellAt, RepairCell, Before, Repaired;
    forall pos: nat | pos < Total(s) ensures CellAt(Repaired(s), pos) == RepairCell(Before(s, pos), CellAt(s, pos)) {
      RepairedCell(s, pos);
    }
  }

  lemma {:induction false} SameCells(s: Song, t: Song)
    requires Shaped(s) && Shaped(t) && |s.pages| == |t.pages| && s == t.(pages := s.pages)
    requires forall pos: nat :: pos < Total(s) ==> CellAt(s, pos) == CellAt(t, pos)
    ensures s == t
  {
    forall p | 0 <= p < |s.pages| ensures s.pages[p] == t.pages[p] {
      forall i | 0 <= i < STEPS ensures s.pages[p][i] == t.pages[p][i] {
        assert CellAt(s, p * STEPS + i) == CellAt(t, p * STEPS + i);
      }
    }
  }

  // Ties do not matter to which notes a cell sounds.
  lemma {:induction false} RepairSounds(before: Cell, cell: Cell, h: Hit)
    ensures Sounds(RepairCell(before, cell), h) <==> Sounds(cell, h)
  {
    var r := RepairCell(before, cell);
    SoundsIs(r, h);
    SoundsIs(cell, h);
    hide Sounds;
    assert forall k :: 0 <= k < |cell| ==> (SameNote(r[k], h) <==> SameNote(cell[k], h));
  }

  // Everything validate asks for but that ties are attached.
  predicate LooseCell(format: int, cell: Cell) {
    |cell| <= VOICE_COUNT &&
    forall i :: 0 <= i < |cell| ==> HitOk(cell[i]) && (cell[i].tie ==> format == 3 && cell[i].drum == 0)
  }

  predicate LooseSong(s: Song) {
    Shaped(s) && SettingsOk(s) && forall pos: nat :: pos < Total(s) ==> LooseCell(s.format, CellAt(s, pos))
  }

  lemma {:induction false} ValidIsLoose(s: Song)
    requires ValidSong(s)
    ensures LooseSong(s)
  {
    hide Sounds, HitOk;
    forall pos: nat | pos < Total(s) ensures LooseCell(s.format, CellAt(s, pos)) {
      assert CellOk(s.format, Before(s, pos), CellAt(s, pos));
    }
  }

  lemma {:induction false} RepairMakesValid(s: Song)
    requires LooseSong(s)
    ensures ValidSong(Repaired(s))
  {
    hide *;
    RepairedSettings(s);
    var t := Repaired(s);
    forall pos: nat | pos < Total(t) ensures CellOk(t.format, Before(t, pos), CellAt(t, pos)) {
      RepairedAt(s, pos);
    }
    ValidFromCells(t);
  }

  lemma {:induction false} RepairedSettings(s: Song)
    requires LooseSong(s)
    ensures Shaped(s) && SettingsOk(Repaired(s)) && Total(Repaired(s)) == Total(s) && Repaired(s).format == s.format
  {
    hide Repaired, LooseCell, CellAt;
  }

  lemma {:induction false} ValidFromCells(s: Song)
    requires Shaped(s) && SettingsOk(s)
    requires forall pos: nat :: pos < Total(s) ==> CellOk(s.format, Before(s, pos), CellAt(s, pos))
    ensures ValidSong(s)
  {
    hide CellOk, CellAt, Before, SettingsOk;
  }

  lemma {:induction false} LooseAt(s: Song, pos: nat)
    requires LooseSong(s) && pos < Total(s)
    ensures LooseCell(s.format, CellAt(s, pos))
  {
    hide LooseCell, CellAt;
  }

  lemma {:induction false} RepairedAt(s: Song, pos: nat)
    requires LooseSong(s) && Shaped(s) && pos < Total(s) && Total(Repaired(s)) == Total(s)
    ensures CellOk(s.format, Before(Repaired(s), pos), CellAt(Repaired(s), pos))
  {
    hide *;
    var t := Repaired(s);
    RepairedCell(s, pos);
    LooseAt(s, pos);
    BeforeCases(s, pos);
    BeforeCases(t, pos);
    if pos > 0 {
      RepairedCell(s, pos - 1);
    }
    forall h ensures Sounds(Before(t, pos), h) <==> Sounds(Before(s, pos), h) {
      if pos > 0 {
        RepairSounds(Before(s, pos - 1), CellAt(s, pos - 1), h);
      }
    }
    RepairedCellOk(s.format, Before(s, pos), Before(t, pos), CellAt(s, pos));
  }

  lemma {:induction false} BeforeCases(s: Song, pos: nat)
    requires Shaped(s) && pos <= Total(s)
    ensures Before(s, pos) == if pos == 0 then [] else CellAt(s, pos - 1)
  {
    hide CellAt;
  }

  lemma {:induction false} RepairedCellOk(format: int, before: Cell, after: Cell, cell: Cell)
    requires LooseCell(format, cell) && forall h :: Sounds(after, h) <==> Sounds(before, h)
    ensures CellOk(format, after, RepairCell(before, cell))
  {
    hide RepairCell, Sounds;
  }

  lemma {:induction false} RepairKeepsDistinct(s: Song)
    requires DistinctSong(s)
    ensures DistinctSong(Repaired(s))
  {
    var t := Repaired(s);
    RepairedCells(s);
    hide Repaired, Sounds, RepairCell, CellAt;
    forall pos: nat | pos < Total(t) ensures Distinct(CellAt(t, pos)) {
      assert Distinct(CellAt(s, pos));
    }
  }

  // A valid song is left as it is.
  lemma {:induction false} RepairLeavesValid(s: Song)
    requires ValidSong(s)
    ensures Repaired(s) == s
  {
    var t := Repaired(s);
    RepairedCells(s);
    hide Repaired, Sounds, RepairCell, CellAt;
    forall pos: nat | pos < Total(s) ensures CellAt(t, pos) == CellAt(s, pos) {
      assert CellOk(s.format, Before(s, pos), CellAt(s, pos));
    }
    SameCells(t, s);
  }

  // ---- Inserting a page ----

  function BlankPage(): (p: seq<Cell>)
    ensures |p| == STEPS && forall i :: 0 <= i < STEPS ==> p[i] == []
  {
    [[], [], [], [], [], [], [], [], [], [], [], [], [], [], [], []]
  }

  function Inserted(s: Song, index: nat): (t: Song)
    requires Shaped(s) && index <= |s.pages|
    ensures Shaped(t)
  {
    s.(pages := s.pages[..index] + [BlankPage()] + s.pages[index..], format := if s.format < 2 then 2 else s.format)
  }

  lemma {:induction false} InsertedCell(s: Song, index: nat, pos: nat)
    requires Shaped(s) && index <= |s.pages| && pos < Total(s) + STEPS
    ensures var t := Inserted(s, index);
            && Total(t) == Total(s) + STEPS
            && CellAt(t, pos) == if pos / STEPS < index then CellAt(s, pos)
                                 else if pos / STEPS == index then []
                                 else CellAt(s, pos - STEPS)
  {
  }

  lemma {:induction false} InsertKeepsLoose(s: Song, index: nat)
    requires LooseSong(s) && index <= |s.pages| < MAX_PAGES
    ensures LooseSong(Inserted(s, index))
  {
    var t := Inserted(s, index);
    hide HitOk;
    InsertedCell(s, index, 0);
    forall pos: nat | pos < Total(t) ensures LooseCell(t.format, CellAt(t, pos)) {
      InsertedCell(s, index, pos);
      if pos / STEPS < index {
        assert LooseCell(s.format, CellAt(s, pos));
      } else if pos / STEPS > index {
        assert LooseCell(s.format, CellAt(s, pos - STEPS));
      }
    }
  }

  lemma {:induction false} InsertKeepsDistinct(s: Song, index: nat)
    requires DistinctSong(s) && index <= |s.pages|
    ensures DistinctSong(Inserted(s, index))
  {
    var t := Inserted(s, index);
    InsertedCell(s, index, 0);
    forall pos: nat | pos < Total(t) ensures Distinct(CellAt(t, pos)) {
      InsertedCell(s, index, pos);
      if pos / STEPS < index {
        assert Distinct(CellAt(s, pos));
      } else if pos / STEPS > index {
        assert Distinct(CellAt(s, pos - STEPS));
      }
    }
  }

  // Removing the notes of a cell.
  lemma {:induction false} ClearKeepsLoose(s: Song, pos: nat)
    requires LooseSong(s) && pos < Total(s)
    ensures LooseSong(WithCell(s, pos, []))
  {
    hide WithCell, HitOk;
    var t := WithCell(s, pos, []);
    forall q: nat | q < Total(t) ensures LooseCell(t.format, CellAt(t, q)) {
      assert LooseCell(s.format, CellAt(s, q));
    }
  }

  function EmptyPages(s: Song): (t: Song)
    ensures Shaped(t)
  {
    s.(pages := [BlankPage()], format := 1)
  }

  lemma {:induction false} EmptySongIsValid(s: Song)
    requires SettingsOk(s)
    ensures ValidSong(EmptyPages(s)) && DistinctSong(EmptyPages(s))
  {
  }

  // ---- The loops in place ----

  class SongBook {
    var song: Song

    constructor (s: Song)
      ensures song == s
    {
      song := s;
    }

    // Song.repairTies
    method RepairTies()
      requires Shaped(song)
      modifies this
      ensures song == Repaired(old(song))
    {
      ghost var start := song;
      hide Repaired, WithCell;
      var pos := 0;
      while pos < |song.pages| * STEPS
        invariant 0 <= pos <= Total(start)
        invariant Shaped(song) && |song.pages| == |start.pages| && song == start.(pages := song.pages)
        invariant forall q: nat :: q < pos ==> CellAt(song, q) == RepairCell(Before(start, q), CellAt(start, q))
        invariant forall q: nat :: pos <= q < Total(start) ==> CellAt(song, q) == CellAt(start, q)
        decreases Total(start) - pos
      {
        RepairCellAt(pos, start);
        pos := pos + 1;
      }
      RepairedCells(start);
      SameCells(song, Repaired(start));
    }

    method RepairCellAt(pos: nat, ghost start: Song)
      requires Shaped(song) && pos < Total(song) && Shaped(start) && |song.pages| == |start.pages|
      requires pos > 0 ==> CellAt(song, pos - 1) == RepairCell(Before(start, pos - 1), CellAt(start, pos - 1))
      modifies this
      ensures song == WithCell(old(song), pos, RepairCell(Before(start, pos), CellAt(old(song), pos)))
    {
      hide RepairCell, WithCell;
      ghost var was, cell := song, CellAt(song, pos);
      for i := 0 to |CellAt(song, pos)|
        invariant Shaped(song) && |song.pages| == |was.pages| && song == was.(pages := song.pages)
        invariant forall q: nat :: q < Total(was) && q != pos ==> CellAt(song, q) == CellAt(was, q)
        invariant |CellAt(song, pos)| == |cell|
        invariant forall k :: 0 <= k < i ==> CellAt(song, pos)[k] == RepairHit(Before(start, pos), cell[k])
        invariant forall k :: i <= k < |cell| ==> CellAt(song, pos)[k] == cell[k]
      {
        var h := CellAt(song, pos)[i];
        var found := -1;
        if pos > 0 {
          found := FindNote(CellAt(song, pos - 1), h);
          RepairSounds(Before(start, pos - 1), CellAt(start, pos - 1), h);
        }
        assert Sounds(Before(start, pos), h) <==> found >= 0;
        if h.tie && (pos == 0 || found < 0) {
          song := WithCell(song, pos, CellAt(song, pos)[i := h.(tie := false)]);
        }
      }
      assert CellAt(song, pos) == RepairCell(Before(start, pos), cell);
      SameCells(song, WithCell(was, pos, RepairCell(Before(start, pos), cell)));
    }

    // The page shift of insertPage.
    method MakeRoom(index: nat)
      requires Shaped(song) && index <= |song.pages|
      modifies this
      ensures song == Inserted(old(song), index)
    {
      var oldCount := |song.pages|;
      ghost var start := song.pages;
      song := song.(pages := song.pages + [BlankPage()]);
      var p := oldCount;
      while p > index
        invariant index <= p <= oldCount && |song.pages| == oldCount + 1
        invariant song == old(song).(pages := song.pages)
        invariant forall k :: 0 <= k < p ==> song.pages[k] == start[k]
        invariant forall k :: p < k <= oldCount ==> song.pages[k] == start[k - 1]
      {
        song := song.(pages := song.pages[p := song.pages[p - 1]]);
        p := p - 1;
      }
      song := song.(pages := song.pages[index := BlankPage()]);
      song := song.(format := if song.format < 2 then 2 else song.format);
      assert song.pages == start[..index] + [BlankPage()] + start[index..];
    }
  }
}

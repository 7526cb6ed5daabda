/**
  Moving the directory cursor: whatever the reader does, the cursor stays on a
  row that is shown, as long as any row is.
 */
module DirectoryCursor {
  import opened Options
  import opened Directory

  datatype Action =
    | Move(delta: int)                    // up and down, by 1 or by 5
    | Activate(landed: Option<int>)       // right: fold a volume, or open a section (with what opening led to)
    | Leave                               // left: fold the volume in, or leave the directory
    | Reveal(index: int)                  // coming back from the reader, resuming, jumping by percentage

  // ---- Reference description of the operations ----

  // moveSelection of app.go, on a list that is not empty.
  function MoveSelection(current: int, delta: int, count: nat): (r: int)
    requires count > 0
    ensures 0 <= r < count
  {
    if current + delta < 0 then 0 else if current + delta >= count then count - 1 else current + delta
  }

  // Where the cursor stands in the row list; 0 when it is not shown.
  function Selected(rows: seq<Row>, row: Row): (n: nat)
    ensures row in rows ==> n < |rows| && rows[n] == row
    ensures row !in rows ==> n == 0
  {
    if row !in rows then 0 else LastIndex(rows, row)
  }

  function LastIndex(rows: seq<Row>, row: Row): (n: nat)
    requires row in rows
    ensures n < |rows| && rows[n] == row
  {
    if rows[|rows| - 1] == row then |rows| - 1 else LastIndex(rows[..|rows| - 1], row)
  }

  predicate OnHeader(c: Contents, s: Cursor)
    requires WellFormed(c)
  {
    0 <= s.pick < |c.chapters| && TopVolume(c, s.pick) && !s.body
  }

  // The volume that Left folds in.
  function CollapseTarget(c: Contents, s: Cursor): Option<int>
    requires WellFormed(c)
  {
    if !(0 <= s.pick < |c.chapters|) || !c.outline.grouped then None
    else if c.outline.entries[s.pick].volume && s.pick in s.expanded then Some(s.pick)
    else if c.outline.entries[s.pick].parent >= 0 then Some(c.outline.entries[s.pick].parent)
    else None
  }

  function Revealed(c: Contents, s: Cursor, index: int): Cursor
    requires WellFormed(c)
  {
    var plain := Cursor(index, false, s.expanded);
    if !(0 <= index < |c.chapters|) then plain
    else
      var e := c.outline.entries[index];
      if !c.outline.grouped then
        if HeadingOnly(c, index) && ReadingTarget(c, index).Some?
        then plain.(pick := ReadingTarget(c, index).value) else plain
      else if !e.volume && HeadingOnly(c, index) then
        if Rows(c, s.expanded) != [] then plain.(pick := Rows(c, s.expanded)[0].chapter) else plain
      else if e.volume && c.chapters[index].hasBody then
        Cursor(index, true, s.expanded + {if e.parent >= 0 then e.parent else index})
      else if e.parent >= 0 then
        Cursor(if e.volume then e.parent else index, false, s.expanded + {e.parent})
      else plain
  }

  // ---- The cursor is shown ----

  predicate CursorShown(c: Contents, s: Cursor)
    requires WellFormed(c)
  {
    Rows(c, s.expanded) != [] ==> Row(s.pick, s.body) in Rows(c, s.expanded)
  }

  // Only top volumes are ever folded out.
  predicate OnlyVolumesUnfold(c: Contents, s: Cursor)
    requires WellFormed(c)
  {
    forall v {:trigger v in s.expanded} :: v in s.expanded ==> TopVolume(c, v)
  }

  // Revealing a section shows it, whatever is folded; and only an index outside the book could lose the cursor.
  lemma {:induction false} RevealShows(c: Contents, s: Cursor, index: int)
    requires WellFormed(c)
    ensures CursorShown(c, Revealed(c, s, index)) <==>
            0 <= index < |c.chapters| || Rows(c, s.expanded) == []
    ensures OnlyVolumesUnfold(c, s) ==> OnlyVolumesUnfold(c, Revealed(c, s, index))
  {
    hide Rows, Readable;
    var r := Revealed(c, s, index);
    InRows(c, r.expanded, Row(r.pick, r.body));
    if 0 <= index < |c.chapters| {
      var e := c.outline.entries[index];
      if c.outline.grouped && !e.volume && HeadingOnly(c, index) && Rows(c, s.expanded) != [] {
        FirstRow(c, s.expanded);
      } else if !c.outline.grouped && HeadingOnly(c, index) && ReadingTarget(c, index).None? {
        NoTarget(c, index);
        NothingReadable(c, s.expanded);
      }
    }
  }

  lemma {:induction false} InRows(c: Contents, expanded: set<int>, row: Row)
    requires WellFormed(c)
    ensures row in Rows(c, expanded) <==> Visible(c, expanded, row)
  {
    RowsAreVisible(c, expanded, 0, row);
    if Visible(c, expanded, row) {
      assert row.chapter >= 0;
    }
  }

  // An ungrouped book of bare headings shows no row.
  lemma {:induction false} NothingReadable(c: Contents, expanded: set<int>)
    requires WellFormed(c) && !c.outline.grouped && forall k :: 0 <= k < |c.chapters| ==> HeadingOnly(c, k)
    ensures Rows(c, expanded) == []
  {
    if Rows(c, expanded) != [] {
      InRows(c, expanded, Rows(c, expanded)[0]);
      assert false;
    }
  }

  // ---- The directory object ----

  class DirectoryView {
    const contents: Contents
    var chapterPick: int
    var volumeBodyPick: bool
    var expandedVolumes: map<int, bool>
    var onShelf: bool

    ghost function View(): Cursor
      reads this
    {
      Cursor(chapterPick, volumeBodyPick, Expanded())
    }

    // The volumes whose entry in the map is true; a missing entry reads as false.
    function Expanded(): set<int>
      reads this
    {
      set v | v in expandedVolumes && expandedVolumes[v]
    }

    ghost predicate Valid()
      reads this
    {
      WellFormed(contents) && OnlyVolumesUnfold(contents, View()) && CursorShown(contents, View())
    }

    // Opening a book: nothing is folded out and the cursor stands on the first row.
    constructor (contents: Contents)
      requires WellFormed(contents)
      ensures this.contents == contents && Valid() && Expanded() == {} && !onShelf
    {
      this.contents := contents;
      chapterPick, volumeBodyPick, expandedVolumes, onShelf := 0, false, map[], false;
      new;
      var rows, selected := DirectoryRows(contents, Cursor(0, false, {}));
      if |rows| > 0 {
        chapterPick := rows[0].chapter;
        FirstRow(contents, {});
        assert rows[0] == Row(chapterPick, false);
      }
      assert Expanded() == {};
    }

    method SetVolumeExpanded(index: int, expanded: bool)
      modifies this`expandedVolumes
      ensures Expanded() == if expanded then old(Expanded()) + {index} else old(Expanded()) - {index}
    {
      expandedVolumes := expandedVolumes[index := expanded];
    }

    method MoveDirectorySelection(delta: int)
      requires Valid()
      modifies this`chapterPick, this`volumeBodyPick
      ensures Valid()
      ensures var rows := Rows(contents, Expanded());
              && (rows == [] ==> View() == old(View()))
              && (rows != [] ==>
                    var at := MoveSelection(Selected(rows, old(Row(chapterPick, volumeBodyPick))), delta, |rows|);
                    Row(chapterPick, volumeBodyPick) == rows[at])
    {
      var rows, selected := DirectoryRows(contents, Cursor(chapterPick, volumeBodyPick, Expanded()));
      if |rows| == 0 {
        return;
      }
      OneIndex(contents, Expanded(), selected, Selected(rows, Row(chapterPick, volumeBodyPick)));
      var row := rows[MoveSelection(selected, delta, |rows|)];
      chapterPick, volumeBodyPick := row.chapter, row.volumeBody;
    }

    method RevealChapter(index: int)
      requires WellFormed(contents) && OnlyVolumesUnfold(contents, View())
      modifies this`chapterPick, this`volumeBodyPick, this`expandedVolumes
      ensures View() == Revealed(contents, old(View()), index)
      ensures 0 <= index < |contents.chapters| ==> Valid()
    {
      ghost var before := View();
      RevealShows(contents, View(), index);
      chapterPick, volumeBodyPick := index, false;
      if index < 0 || index >= |contents.chapters| {
        return;
      }
      var outline := contents.outline;
      var entry := outline.entries[index];
      if !outline.grouped {
        if HeadingOnly(contents, index) {
          var target := ReadableChapter(contents, index, 1);
          if target.None? {
            target := ReadableChapter(contents, index, -1);
          }
          if target.Some? {
            chapterPick := target.value;
          }
        }
        return;
      }
      if !entry.volume && HeadingOnly(contents, index) {
        var rows, _ := DirectoryRows(contents, Cursor(chapterPick, volumeBodyPick, Expanded()));
        if |rows| > 0 {
          chapterPick := rows[0].chapter;
        }
        return;
      }
      if entry.volume && contents.chapters[index].hasBody {
        var parent := index;
        if entry.parent >= 0 {
          parent := entry.parent;
        }
        SetVolumeExpanded(parent, true);
        volumeBodyPick := true;
      } else if entry.parent >= 0 {
        SetVolumeExpanded(entry.parent, true);
        if entry.volume {
          chapterPick := entry.parent;
        }
      }
    }

    // Right. landed is the section the reader ended up in, None when opening failed.
    method ActivateDirectorySelection(landed: Option<int>)
      requires Valid() && (landed.Some? ==> 0 <= landed.value < |contents.chapters|)
      modifies this`chapterPick, this`volumeBodyPick, this`expandedVolumes
      ensures Valid()
      ensures var before := old(View());
              if OnHeader(contents, before) then
                View() == before.(expanded := if before.pick in before.expanded then before.expanded - {before.pick}
                                              else before.expanded + {before.pick})
              else View() == if landed.Some? then Revealed(contents, before, landed.value) else before
    {
      if 0 <= chapterPick < |contents.chapters| && contents.outline.grouped &&
         contents.outline.entries[chapterPick].volume && contents.outline.entries[chapterPick].parent < 0 &&
         !volumeBodyPick {
        SetVolumeExpanded(chapterPick, chapterPick !in Expanded());
        InRows(contents, Expanded(), Row(chapterPick, volumeBodyPick));
        return;
      }
      if landed.Some? {
        RevealChapter(landed.value);
      }
    }

    // Left.
    method LeaveDirectory()
      requires Valid()
      modifies this
      ensures Valid()
      ensures var target := CollapseTarget(contents, old(View()));
              && (target.Some? ==> View() == Cursor(target.value, false, old(Expanded()) - {target.value}) &&
                                   onShelf == old(onShelf))
              && (target.None? ==> View() == old(View()) && onShelf)
    {
      if 0 <= chapterPick < |contents.chapters| && contents.outline.grouped {
        var entry := contents.outline.entries[chapterPick];
        var parent := if entry.volume && chapterPick in Expanded() then chapterPick
                      else if entry.parent >= 0 then entry.parent else -1;
        if parent >= 0 {
          SetVolumeExpanded(parent, false);
          chapterPick, volumeBodyPick := parent, false;
          InRows(contents, Expanded(), Row(parent, false));
          return;
        }
      }
      onShelf := true;
    }
  }

  // No row is listed twice.
  lemma {:induction false} OneIndex(c: Contents, expanded: set<int>, i: nat, j: nat)
    requires WellFormed(c) && i < |Rows(c, expanded)| && j < |Rows(c, expanded)|
    requires Rows(c, expanded)[i] == Rows(c, expanded)[j]
    ensures i == j
  {
    NoRepeats(c, expanded, 0, i, j);
  }

  lemma {:induction false} NoRepeats(c: Contents, expanded: set<int>, k: nat, i: nat, j: nat)
    requires WellFormed(c) && k <= |c.chapters|
    requires i < |RowsFrom(c, expanded, k)| && j < |RowsFrom(c, expanded, k)|
    requires RowsFrom(c, expanded, k)[i] == RowsFrom(c, expanded, k)[j]
    ensures i == j
    decreases |c.chapters| - k
  {
    RowsUnfold(c, expanded, k);
    hide *;
    var here, rest := RowsOf(c, expanded, k), RowsFrom(c, expanded, k + 1);
    var m := |here|;
    if i >= m && j >= m {
      NoRepeats(c, expanded, k + 1, i - m, j - m);
    }
  }

  // The rows of one section are its own and differ; those that follow belong to later sections.
  lemma {:induction false} RowsUnfold(c: Contents, expanded: set<int>, k: nat)
    requires WellFormed(c) && k <= |c.chapters| && RowsFrom(c, expanded, k) != []
    ensures k < |c.chapters|
    ensures var here, rest := RowsOf(c, expanded, k), RowsFrom(c, expanded, k + 1);
      && RowsFrom(c, expanded, k) == here + rest
      && (forall i :: 0 <= i < |here| ==> here[i].chapter == k)
      && (forall i, j :: 0 <= i < j < |here| ==> here[i] != here[j])
      && (forall i :: 0 <= i < |rest| ==> rest[i].chapter >= k + 1)
  {
    hide Visible, HeadingOnly, WellFormed;
    var rest := RowsFrom(c, expanded, k + 1);
    forall i | 0 <= i < |rest| ensures rest[i].chapter >= k + 1 {
      RowsAreVisible(c, expanded, k + 1, rest[i]);
    }
  }

  // ---- The order of the rows ----

  predicate Above(r: Row, s: Row) {
    r.chapter < s.chapter || (r.chapter == s.chapter && !r.volumeBody && s.volumeBody)
  }

  // Rows come in the order of the sections, a volume's heading above its own text.
  lemma {:induction false} RowsInOrder(c: Contents, expanded: set<int>, k: nat, i: nat, j: nat)
    requires WellFormed(c) && k <= |c.chapters| && i < j < |RowsFrom(c, expanded, k)|
    ensures Above(RowsFrom(c, expanded, k)[i], RowsFrom(c, expanded, k)[j])
    decreases |c.chapters| - k
  {
    RowsUnfold(c, expanded, k);
    RowsOfInOrder(c, expanded, k);
    hide RowsFrom, RowsOf, HeadingOnly, WellFormed;
    var here, rest := RowsOf(c, expanded, k), RowsFrom(c, expanded, k + 1);
    var m := |here|;
    if i >= m {
      RowsInOrder(c, expanded, k + 1, i - m, j - m);
    } else if j >= m {
      assert here[i].chapter == k && rest[j - m].chapter >= k + 1;
    }
  }

  lemma {:induction false} RowsOfInOrder(c: Contents, expanded: set<int>, k: nat)
    requires WellFormed(c) && k < |c.chapters|
    ensures var here := RowsOf(c, expanded, k); forall i, j :: 0 <= i < j < |here| ==> Above(here[i], here[j])
  {
    hide HeadingOnly, WellFormed;
  }

  // ---- Where the operations lead ----

  // The cursor moves as many rows as asked for, and no further than the first or the last one.
  lemma {:induction false} MovesByRows(from: int, delta: int, count: nat)
    requires 0 <= from < count
    ensures var to := MoveSelection(from, delta, count);
      && (0 <= delta < count - from ==> to - from == delta) && (delta >= count - from ==> to == count - 1)
      && (0 <= -delta <= from ==> from - to == -delta) && (-delta > from ==> to == 0)
  {
  }

  // Revealing a section unfolds the volume its row is under, if it has one, and goes to that row, to the volume's own
  // text if it is a volume with text. Without a row of its own, a bare heading gives way to the nearest section to read,
  // or in a grouped book to the first row, and a repeated volume heading to the one it repeats.
  lemma {:induction false} RevealGoesThere(c: Contents, s: Cursor, index: int)
    requires WellFormed(c) && 0 <= index < |c.chapters| && Rows(c, s.expanded) != []
    ensures var r, e := Revealed(c, s, index), c.outline.entries[index];
      var own := exists b {:trigger Row(index, b)} :: Visible(c, r.expanded, Row(index, b));
      && (own ==> r.pick == index && r.body == (c.outline.grouped && e.volume && c.chapters[index].hasBody))
      && (!own && !c.outline.grouped ==> ReadingTarget(c, index) == Some(r.pick) && !r.body)
      && (!own && c.outline.grouped ==>
            !r.body && r.pick == if e.volume then e.parent else Rows(c, s.expanded)[0].chapter)
      && r.expanded == s.expanded +
           (if !c.outline.grouped || (!e.volume && HeadingOnly(c, index)) then {}
            else if e.parent >= 0 then {e.parent}
            else if e.volume && c.chapters[index].hasBody then {index} else {})
  {
    hide Rows, Readable;
    var r, e := Revealed(c, s, index), c.outline.entries[index];
    assert Visible(c, r.expanded, Row(index, false)) || Visible(c, r.expanded, Row(index, true)) <==>
           exists b {:trigger Row(index, b)} :: Visible(c, r.expanded, Row(index, b));
    if !c.outline.grouped && ReadingTarget(c, index).None? {
      NoTarget(c, index);
      NothingReadable(c, s.expanded);
    }
    if !c.outline.grouped {
      NoParents(c, index);
    }
  }

  // In a book that is not grouped no section has a volume.
  lemma {:induction false} NoParents(c: Contents, index: int)
    requires WellFormed(c) && 0 <= index < |c.chapters| && !c.outline.grouped
    ensures c.outline.entries[index].parent < 0
  {
  }

  // Left folds in exactly the unfolded volume that the cursor's row belongs to, as its heading or as one of its sections.
  lemma {:induction false} LeaveFolds(c: Contents, s: Cursor, v: int)
    requires WellFormed(c) && OnlyVolumesUnfold(c, s) && CursorShown(c, s) && 0 <= s.pick < |c.chapters|
    ensures CollapseTarget(c, s) == Some(v) <==>
            TopVolume(c, v) && v in s.expanded && (s.pick == v || c.outline.entries[s.pick].parent == v)
  {
    hide Rows, HeadingOnly;
    var e := c.outline.entries[s.pick];
    InRows(c, s.expanded, Row(s.pick, s.body));
    if e.parent >= 0 {
      assert TopVolume(c, e.parent);
      InRows(c, s.expanded, Row(e.parent, false));
    }
    if !c.outline.grouped {
      NoParents(c, s.pick);
    }
  }

  // A folded volume shows its heading only; no other row comes or goes.
  lemma {:induction false} FoldHides(c: Contents, expanded: set<int>, v: int, row: Row)
    requires WellFormed(c) && TopVolume(c, v) && v in expanded
    ensures row in Rows(c, expanded - {v}) <==>
            row in Rows(c, expanded) && row != Row(v, true) &&
            (0 <= row.chapter < |c.chapters| ==> c.outline.entries[row.chapter].parent != v)
  {
    hide Rows, HeadingOnly;
    InRows(c, expanded, row);
    InRows(c, expanded - {v}, row);
  }

  // Every session with one book: any sequence of moves, foldings, openings and reveals.
  method Session(contents: Contents, actions: seq<Action>) returns (view: DirectoryView)
    requires WellFormed(contents)
    requires forall a :: a in actions && a.Reveal? ==> 0 <= a.index < |contents.chapters|
    requires forall a :: a in actions && a.Activate? && a.landed.Some? ==> 0 <= a.landed.value < |contents.chapters|
    ensures view.contents == contents && view.Valid()
    ensures Rows(contents, view.Expanded()) != [] ==>
              Row(view.chapterPick, view.volumeBodyPick) in Rows(contents, view.Expanded())
  {
    view := new DirectoryView(contents);
    for i := 0 to |actions|
      invariant view.contents == contents && view.Valid() && fresh(view)
    {
      assert actions[i] in actions;
      match actions[i]
      case Move(delta) => view.MoveDirectorySelection(delta);
      case Activate(landed) => view.ActivateDirectorySelection(landed);
      case Leave => view.LeaveDirectory();
      case Reveal(index) => view.RevealChapter(index);
    }
  }
}

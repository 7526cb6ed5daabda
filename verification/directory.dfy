/**
  The chapter directory, App/book-reader/directory.go: the rows it shows, the
  cursor, and the operations that move the cursor or fold volumes. Labels are
  left out; a row is identified by its section and whether it is that volume's
  own body text.
 */
module Directory {
  import opened Pager
  import opened Options
  import opened Outline

  datatype Contents = Contents(chapters: seq<Chapter>, outline: Outline)

  datatype Row = Row(chapter: int, volumeBody: bool)

  // Cursor and folded volumes.
  datatype Cursor = Cursor(pick: int, body: bool, expanded: set<int>)

  // What the directory relies on of an outline.
  predicate WellFormed(c: Contents) {
    && |c.outline.entries| == |c.chapters|
    && forall i {:trigger c.outline.entries[i].parent} :: 0 <= i < |c.chapters| && c.outline.entries[i].parent >= 0 ==>
         c.outline.entries[i].parent < i && TopVolume(c, c.outline.entries[i].parent)
  }

  predicate TopVolume(c: Contents, v: int)
    requires |c.outline.entries| == |c.chapters|
  {
    0 <= v < |c.chapters| && c.outline.grouped && c.outline.entries[v].volume && c.outline.entries[v].parent < 0
  }

  lemma {:induction false} OutlinesAreWellFormed(t: Titles, c: Contents)
    requires IsOutline(t, c.chapters, c.outline)
    ensures WellFormed(c)
  {
    forall i {:trigger c.outline.entries[i].parent} | 0 <= i < |c.chapters| && c.outline.entries[i].parent >= 0
      ensures c.outline.entries[i].parent < i && TopVolume(c, c.outline.entries[i].parent)
    {
      OwnersAreTopVolumes(t, c.chapters, c.outline, i);
    }
  }

  // ---- Readable sections ----

  predicate HeadingOnly(c: Contents, i: nat)
    requires WellFormed(c) && i < |c.chapters|
  {
    !c.chapters[i].hasBody && (c.outline.entries[i].volume || c.chapters[i].title == PREAMBLE)
  }

  // readableChapter: the first section from index on, stepping by direction, that is not a bare heading.
  method ReadableChapter(c: Contents, index: int, direction: int) returns (r: Option<int>)
    requires WellFormed(c) && (direction == 1 || direction == -1)
    ensures r == Readable(c, index, direction)
  {
    var i := index;
    while 0 <= i < |c.chapters|
      invariant Readable(c, index, direction) == Readable(c, i, direction)
      decreases if direction == 1 then |c.chapters| - i else i
    {
      if !HeadingOnly(c, i) {
        return Some(i);
      }
      i := i + direction;
    }
    return None;
  }

  function Readable(c: Contents, index: int, direction: int): (r: Option<int>)
    requires WellFormed(c) && (direction == 1 || direction == -1)
    ensures r.Some? ==> 0 <= r.value < |c.chapters| && !HeadingOnly(c, r.value)
    ensures r.Some? ==> if direction == 1 then index <= r.value else r.value <= index
    decreases if direction == 1 then |c.chapters| - index else index
  {
    if !(0 <= index < |c.chapters|) then None
    else if !HeadingOnly(c, index) then Some(index)
    else Readable(c, index + direction, direction)
  }

  // Nothing readable is skipped on the way.
  lemma {:induction false} ReadableIsFirst(c: Contents, index: int, direction: int, k: int)
    requires WellFormed(c) && (direction == 1 || direction == -1)
    requires 0 <= index < |c.chapters| && 0 <= k < |c.chapters| && !HeadingOnly(c, k)
    requires if direction == 1 then index <= k else k <= index
    ensures Readable(c, index, direction).Some?
    ensures var r := Readable(c, index, direction).value; if direction == 1 then r <= k else k <= r
    decreases if direction == 1 then |c.chapters| - index else index
  {
    if HeadingOnly(c, index) {
      ReadableIsFirst(c, index + direction, direction, k);
    }
  }

  // The section readingTarget picks: the next readable one, at the end of the book the previous one.
  function ReadingTarget(c: Contents, index: int): (r: Option<int>)
    requires WellFormed(c)
    ensures r.Some? ==> 0 <= r.value < |c.chapters| && !HeadingOnly(c, r.value)
  {
    if !(0 <= index < |c.chapters|) then None
    else if Readable(c, index, 1).Some? then Readable(c, index, 1)
    else Readable(c, index, -1)
  }

  // Without a target the whole book is bare headings.
  lemma {:induction false} NoTarget(c: Contents, index: int)
    requires WellFormed(c) && 0 <= index < |c.chapters| && ReadingTarget(c, index).None?
    ensures forall k :: 0 <= k < |c.chapters| ==> HeadingOnly(c, k)
  {
    forall k | 0 <= k < |c.chapters| ensures HeadingOnly(c, k) {
      if !HeadingOnly(c, k) {
        ReadableIsFirst(c, index, if index <= k then 1 else -1, k);
      }
    }
  }

  // The target is the first section from index on that is not a bare heading, else the last one before it.
  lemma {:induction false} TargetIsNearest(c: Contents, index: int)
    requires WellFormed(c)
    ensures var r := ReadingTarget(c, index);
      && (r.Some? <==> 0 <= index < |c.chapters| && exists k :: 0 <= k < |c.chapters| && !HeadingOnly(c, k))
      && (r.Some? ==>
            && 0 <= r.value < |c.chapters| && !HeadingOnly(c, r.value)
            && (forall k :: index <= k < |c.chapters| && (k < r.value || r.value < index) ==> HeadingOnly(c, k))
            && (forall k :: r.value < k < index ==> HeadingOnly(c, k)))
  {
    hide HeadingOnly, Readable;
    if 0 <= index < |c.chapters| {
      var r := ReadingTarget(c, index);
      forall k | 0 <= k < |c.chapters| && !HeadingOnly(c, k)
        ensures r.Some? && (index <= k ==> index <= r.value <= k) && (k < index && r.value < index ==> k <= r.value)
      {
        ReadableIsFirst(c, index, if index <= k then 1 else -1, k);
      }
    }
  }

  // ---- Rows ----

  // The rows section i contributes.
  function RowsOf(c: Contents, expanded: set<int>, i: nat): seq<Row>
    requires WellFormed(c) && i < |c.chapters|
  {
    var e := c.outline.entries[i];
    var body := c.chapters[i].hasBody;
    if e.volume && c.outline.grouped then
      if e.parent >= 0 then
        if e.parent in expanded && body then [Row(i, true)] else []
      else if i in expanded && body then [Row(i, false), Row(i, true)]
      else [Row(i, false)]
    else if HeadingOnly(c, i) || (e.parent >= 0 && e.parent !in expanded) then []
    else [Row(i, false)]
  }

  function RowsFrom(c: Contents, expanded: set<int>, i: nat): seq<Row>
    requires WellFormed(c) && i <= |c.chapters|
    decreases |c.chapters| - i
  {
    if i == |c.chapters| then [] else RowsOf(c, expanded, i) + RowsFrom(c, expanded, i + 1)
  }

  function Rows(c: Contents, expanded: set<int>): seq<Row>
    requires WellFormed(c)
  {
    RowsFrom(c, expanded, 0)
  }

  // Which rows are visible, said without the loop.
  predicate Visible(c: Contents, expanded: set<int>, row: Row)
    requires WellFormed(c)
  {
    0 <= row.chapter < |c.chapters| &&
    var e := c.outline.entries[row.chapter];
    var unfolded := e.parent < 0 || e.parent in expanded;
    if e.volume && c.outline.grouped then
      if row.volumeBody then
        c.chapters[row.chapter].hasBody && (if e.parent >= 0 then e.parent in expanded else row.chapter in expanded)
      else e.parent < 0
    else !row.volumeBody && !HeadingOnly(c, row.chapter) && unfolded
  }

  lemma {:induction false} RowsAreVisible(c: Contents, expanded: set<int>, i: nat, row: Row)
    requires WellFormed(c) && i <= |c.chapters|
    ensures row in RowsFrom(c, expanded, i) <==> Visible(c, expanded, row) && row.chapter >= i
    decreases |c.chapters| - i
  {
    if i < |c.chapters| {
      RowsAreVisible(c, expanded, i + 1, row);
    }
  }

  // Rows come in section order, a volume's header before its body text.
  lemma {:induction false} FirstIsLeast(c: Contents, expanded: set<int>, i: nat)
    requires WellFormed(c) && i <= |c.chapters| && RowsFrom(c, expanded, i) != []
    ensures var first := RowsFrom(c, expanded, i)[0];
            && first in RowsFrom(c, expanded, i)
            && (forall row :: row in RowsFrom(c, expanded, i) ==> row.chapter >= first.chapter)
            && (first.volumeBody ==> !Visible(c, expanded, Row(first.chapter, false)))
    decreases |c.chapters| - i
  {
    if RowsOf(c, expanded, i) == [] {
      FirstIsLeast(c, expanded, i + 1);
    } else {
      forall row | row in RowsFrom(c, expanded, i) ensures row.chapter >= i {
        RowsAreVisible(c, expanded, i, row);
      }
    }
  }

  // The first row, if any, is never a volume's body text.
  lemma {:induction false} FirstRow(c: Contents, expanded: set<int>)
    requires WellFormed(c) && Rows(c, expanded) != []
    ensures !Rows(c, expanded)[0].volumeBody && Rows(c, expanded)[0] in Rows(c, expanded)
  {
    FirstIsLeast(c, expanded, 0);
    var first := Rows(c, expanded)[0];
    RowsAreVisible(c, expanded, 0, first);
    if first.volumeBody {
      var parent := c.outline.entries[first.chapter].parent;
      if parent >= 0 {
        RowsAreVisible(c, expanded, 0, Row(parent, false));
      }
    }
  }

  // directoryRows: the rows and the index of the one under the cursor, 0 when it is not shown.
  method DirectoryRows(c: Contents, cursor: Cursor) returns (rows: seq<Row>, selected: nat)
    requires WellFormed(c)
    ensures rows == Rows(c, cursor.expanded)
    ensures Row(cursor.pick, cursor.body) in rows ==>
              selected < |rows| && rows[selected] == Row(cursor.pick, cursor.body)
    ensures Row(cursor.pick, cursor.body) !in rows ==> selected == 0
  {
    hide RowsFrom, HeadingOnly;
    rows, selected := [], 0;
    var wanted := Row(cursor.pick, cursor.body);
    for index := 0 to |c.chapters|
      invariant Rows(c, cursor.expanded) == rows + RowsFrom(c, cursor.expanded, index)
      invariant if wanted in rows then selected < |rows| && rows[selected] == wanted else selected == 0
    {
      var entry := c.outline.entries[index];
      var chapter := c.chapters[index];
      NextRows(c, cursor.expanded, rows, index);
      if entry.volume && c.outline.grouped {
        if entry.parent >= 0 {
          if entry.parent in cursor.expanded && chapter.hasBody {
            rows, selected := AppendRow(rows, selected, wanted, Row(index, true));
          }
        } else {
          rows, selected := AppendRow(rows, selected, wanted, Row(index, false));
          if index in cursor.expanded && chapter.hasBody {
            rows, selected := AppendRow(rows, selected, wanted, Row(index, true));
          }
        }
      } else if !HeadingOnly(c, index) && !(entry.parent >= 0 && entry.parent !in cursor.expanded) {
        rows, selected := AppendRow(rows, selected, wanted, Row(index, false));
      }
    }
    NextRows(c, cursor.expanded, rows, |c.chapters|);
  }

  lemma {:induction false} NextRows(c: Contents, expanded: set<int>, rows: seq<Row>, i: nat)
    requires WellFormed(c) && i <= |c.chapters|
    ensures i == |c.chapters| ==> rows + RowsFrom(c, expanded, i) == rows
    ensures i < |c.chapters| ==>
              rows + RowsFrom(c, expanded, i) == (rows + RowsOf(c, expanded, i)) + RowsFrom(c, expanded, i + 1)
    ensures i < |c.chapters| ==>
              var next := RowsOf(c, expanded, i);
              && (next == [] ==> rows + next == rows)
              && (|next| == 2 ==> (rows + [next[0]]) + [next[1]] == rows + next)
  {
  }

  method AppendRow(rows: seq<Row>, selected: nat, wanted: Row, row: Row) returns (rows': seq<Row>, selected': nat)
    ensures rows' == rows + [row]
    ensures selected' == if row == wanted then |rows| else selected
  {
    selected' := if row == wanted then |rows| else selected;
    rows' := rows + [row];
  }
}

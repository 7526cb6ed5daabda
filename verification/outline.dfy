/**
  The chapter outline of a book, App/book-reader/outline.go and the sequence
  check of volume_number.go. The title patterns are uninterpreted: which titles
  name a volume, when two volume titles are the same, and the number a volume
  title states.
 */
module Outline {
  import opened Pager
  import opened Options

  datatype VolumeNumber = VolumeNumber(number: int, unit: int)

  datatype Titles = Titles(isVolume: seq<int> -> bool, normalized: seq<int> -> seq<int>,
                           number: seq<int> -> Option<VolumeNumber>)

  const PREAMBLE: seq<int> := [0x5F00, 0x59CB]   // the text before the first heading
  const WHOLE_TEXT: seq<int> := [0x6B63, 0x6587]  // a book without headings

  datatype Entry = Entry(volume: bool, parent: int, chapterNo: nat, chapterCount: nat)

  datatype Outline = Outline(grouped: bool, entries: seq<Entry>, volumes: nat, chapters: nat)

  // ---- Reference description ----

  predicate IsVolume(t: Titles, chapters: seq<Chapter>, i: nat)
    requires i < |chapters|
  {
    t.isVolume(chapters[i].title)
  }

  predicate IsNumbered(t: Titles, chapters: seq<Chapter>, i: nat)
    requires i < |chapters|
  {
    !IsVolume(t, chapters, i) && chapters[i].title != PREAMBLE && chapters[i].title != WHOLE_TEXT
  }

  // The volume in force before section i: the latest one whose title is not a mere repetition.
  function Parent(t: Titles, chapters: seq<Chapter>, i: nat): (p: int)
    requires i <= |chapters|
    ensures -1 <= p < i
    ensures p >= 0 ==> IsRoot(t, chapters, p)
    decreases i, 0
  {
    if i == 0 then -1
    else if IsRoot(t, chapters, i - 1) then i - 1
    else Parent(t, chapters, i - 1)
  }

  // A volume heading that opens a new volume.
  predicate IsRoot(t: Titles, chapters: seq<Chapter>, i: nat)
    requires i < |chapters|
    decreases i, 1
  {
    IsVolume(t, chapters, i) &&
    var p := Parent(t, chapters, i);
    p < 0 || t.normalized(chapters[i].title) != t.normalized(chapters[p].title)
  }

  // The volume section i belongs to, -1 for volume openings and for text before the first volume.
  function Owner(t: Titles, chapters: seq<Chapter>, i: nat): (p: int)
    requires i < |chapters|
    ensures -1 <= p < i
  {
    if IsRoot(t, chapters, i) then -1 else Parent(t, chapters, i)
  }

  function CountRoots(t: Titles, chapters: seq<Chapter>, i: nat): (n: nat)
    requires i <= |chapters|
    ensures n <= i
  {
    if i == 0 then 0 else CountRoots(t, chapters, i - 1) + if IsRoot(t, chapters, i - 1) then 1 else 0
  }

  function CountNumbered(t: Titles, chapters: seq<Chapter>, i: nat): nat
    requires i <= |chapters|
  {
    if i == 0 then 0 else CountNumbered(t, chapters, i - 1) + if IsNumbered(t, chapters, i - 1) then 1 else 0
  }

  // Numbered chapters among the first i that volume v owns.
  function CountOwned(t: Titles, chapters: seq<Chapter>, v: int, i: nat): (n: nat)
    requires i <= |chapters|
    ensures i <= v ==> n == 0
  {
    if i == 0 then 0
    else
      CountOwned(t, chapters, v, i - 1) +
      if IsNumbered(t, chapters, i - 1) && v >= 0 && Owner(t, chapters, i - 1) == v then 1 else 0
  }

  // The volume headings are numbered 1, 2, ... in one unit, and every volume heading states a number.
  predicate Sequenced(t: Titles, chapters: seq<Chapter>, i: nat)
    requires i <= |chapters|
  {
    forall k :: 0 <= k < i && IsVolume(t, chapters, k) ==> InSequence(t, chapters, k)
  }

  predicate InSequence(t: Titles, chapters: seq<Chapter>, k: nat)
    requires k < |chapters| && IsVolume(t, chapters, k)
  {
    var n := t.number(chapters[k].title);
    n.Some? &&
    (IsRoot(t, chapters, k) ==>
       && n.value.number == CountRoots(t, chapters, k) + 1
       && forall j :: 0 <= j < k && IsRoot(t, chapters, j) && t.number(chapters[j].title).Some? ==>
            t.number(chapters[j].title).value.unit == n.value.unit)
  }

  predicate Grouped(t: Titles, chapters: seq<Chapter>) {
    CountRoots(t, chapters, |chapters|) > 0 && Sequenced(t, chapters, |chapters|)
  }

  function EntryOf(t: Titles, chapters: seq<Chapter>, i: nat, upTo: nat): Entry
    requires i < |chapters| && upTo <= |chapters|
  {
    Entry(IsVolume(t, chapters, i), Owner(t, chapters, i),
          if IsNumbered(t, chapters, i) then CountNumbered(t, chapters, i + 1) else 0,
          CountOwned(t, chapters, i, upTo))
  }

  function FinalEntry(t: Titles, chapters: seq<Chapter>, i: nat): Entry
    requires i < |chapters|
  {
    var e := EntryOf(t, chapters, i, |chapters|);
    if Grouped(t, chapters) then e else e.(parent := -1, chapterCount := 0)
  }

  // What chapterOutline returns.
  predicate IsOutline(t: Titles, chapters: seq<Chapter>, o: Outline) {
    && o.grouped == Grouped(t, chapters)
    && |o.entries| == |chapters|
    && (forall i :: 0 <= i < |chapters| ==> o.entries[i] == FinalEntry(t, chapters, i))
    && o.volumes == (if o.grouped then CountRoots(t, chapters, |chapters|) else 0)
    && o.chapters == CountNumbered(t, chapters, |chapters|)
  }

  // ---- The loops ----

  method ChapterOutline(t: Titles, chapters: seq<Chapter>) returns (o: Outline)
    ensures IsOutline(t, chapters, o)
  {
    var entries := seq(|chapters|, _ => Entry(false, 0, 0, 0));
    var volumes: nat, numbered: nat := 0, 0;
    var parent := -1;
    for index := 0 to |chapters|
      invariant |entries| == |chapters|
      invariant parent == Parent(t, chapters, index)
      invariant volumes == CountRoots(t, chapters, index)
      invariant numbered == CountNumbered(t, chapters, index)
      invariant forall i :: 0 <= i < index ==> entries[i] == EntryOf(t, chapters, i, index)
    {
      var title := chapters[index].title;
      var entry := Entry(false, parent, 0, 0);
      ghost var before := entries;
      if t.isVolume(title) {
        entry := entry.(volume := true);
        if parent < 0 || t.normalized(title) != t.normalized(chapters[parent].title) {
          entry := entry.(parent := -1);
          parent := index;
          volumes := volumes + 1;
        }
      } else if title != PREAMBLE && title != WHOLE_TEXT {
        numbered := numbered + 1;
        entry := entry.(chapterNo := numbered);
        if parent >= 0 {
          entries := entries[parent := entries[parent].(chapterCount := entries[parent].chapterCount + 1)];
        }
      }
      entries := entries[index := entry];
      forall i | 0 <= i <= index ensures entries[i] == EntryOf(t, chapters, i, index + 1) {
      }
    }
    o := ValidateVolumeSequence(t, chapters, Outline(false, entries, volumes, numbered));
  }

  // validateVolumeSequence: a broken sequence clears the grouping, nothing else.
  method ValidateVolumeSequence(t: Titles, chapters: seq<Chapter>, outline: Outline) returns (o: Outline)
    requires |outline.entries| == |chapters|
    requires forall i :: 0 <= i < |chapters| ==> outline.entries[i] == EntryOf(t, chapters, i, |chapters|)
    requires outline.volumes == CountRoots(t, chapters, |chapters|)
    requires outline.chapters == CountNumbered(t, chapters, |chapters|)
    ensures IsOutline(t, chapters, o)
  {
    o := outline;
    var last, kind := 0, None;
    var valid := o.volumes > 0;
    var index := 0;
    while index < |chapters|
      invariant 0 <= index <= |chapters|
      invariant valid == (o.volumes > 0)
      invariant Scanned(t, chapters, index, last, kind)
    {
      var entry := o.entries[index];
      ScanOne(t, chapters, index, last, kind);
      if entry.volume {
        var n := t.number(chapters[index].title);
        if n.None? {
          valid := false;
          break;
        }
        if entry.parent < 0 {
          if n.value.number != last + 1 || (kind.Some? && n.value.unit != kind.value) {
            valid := false;
            break;
          }
          last, kind := n.value.number, Some(n.value.unit);
        }
      }
      index := index + 1;
    }
    o := o.(grouped := valid);
    if !valid {
      o := o.(volumes := 0);
      var entries := o.entries;
      for i := 0 to |entries|
        invariant |entries| == |chapters|
        invariant forall k :: 0 <= k < i ==>
                    entries[k] == outline.entries[k].(parent := -1, chapterCount := 0)
        invariant forall k :: i <= k < |entries| ==> entries[k] == outline.entries[k]
      {
        entries := entries[i := entries[i].(parent := -1, chapterCount := 0)];
      }
      o := o.(entries := entries);
    }
  }

  // The first i sections are in sequence; kind is the unit their volumes are counted in.
  ghost predicate Scanned(t: Titles, chapters: seq<Chapter>, i: nat, last: int, kind: Option<int>)
    requires i <= |chapters|
  {
    && last == CountRoots(t, chapters, i)
    && Sequenced(t, chapters, i)
    && (kind.None? ==> forall j :: 0 <= j < i ==> !IsRoot(t, chapters, j))
    && (kind.Some? ==>
          && (exists j :: 0 <= j < i && IsRoot(t, chapters, j))
          && forall j :: 0 <= j < i && IsRoot(t, chapters, j) ==>
               t.number(chapters[j].title) == Some(VolumeNumber(t.number(chapters[j].title).value.number, kind.value)))
  }

  // One more section: it is in sequence exactly when the loop's tests pass.
  lemma {:induction false} ScanOne(t: Titles, chapters: seq<Chapter>, i: nat, last: int, kind: Option<int>)
    requires i < |chapters| && Scanned(t, chapters, i, last, kind)
    ensures IsVolume(t, chapters, i) ==> (Owner(t, chapters, i) < 0 <==> IsRoot(t, chapters, i))
    ensures var n := t.number(chapters[i].title);
            if !IsVolume(t, chapters, i) then Scanned(t, chapters, i + 1, last, kind)
            else if n.None? then !Sequenced(t, chapters, |chapters|)
            else if !IsRoot(t, chapters, i) then Scanned(t, chapters, i + 1, last, kind)
            else if n.value.number != last + 1 || (kind.Some? && n.value.unit != kind.value)
            then !Sequenced(t, chapters, |chapters|)
            else Scanned(t, chapters, i + 1, n.value.number, Some(n.value.unit))
  {
    hide Parent, CountRoots;
    Unfold(t, chapters, i);
    if IsVolume(t, chapters, i) {
      var n := t.number(chapters[i].title);
      if n.Some? && IsRoot(t, chapters, i) {
        if n.value.number == last + 1 && (kind.None? || n.value.unit == kind.value) {
          assert InSequence(t, chapters, i);
        } else {
          assert !InSequence(t, chapters, i);
        }
      } else if n.Some? {
        assert InSequence(t, chapters, i);
      } else {
        assert !InSequence(t, chapters, i);
      }
    }
  }

  // Among volume headings, exactly the new ones are owned by no volume.
  lemma {:induction false} Unfold(t: Titles, chapters: seq<Chapter>, i: nat)
    requires i < |chapters|
    ensures IsVolume(t, chapters, i) ==> (Owner(t, chapters, i) < 0 <==> IsRoot(t, chapters, i))
    ensures CountRoots(t, chapters, i + 1) ==
            CountRoots(t, chapters, i) + if IsRoot(t, chapters, i) then 1 else 0
  {
  }

  // ---- What the outline promises ----

  // Sections are only ever placed under an earlier volume heading that itself stands at the top level.
  lemma {:induction false} OwnersAreTopVolumes(t: Titles, chapters: seq<Chapter>, o: Outline, i: nat)
    requires IsOutline(t, chapters, o) && i < |chapters| && o.entries[i].parent >= 0
    ensures o.grouped && o.entries[i].parent < i
    ensures o.entries[o.entries[i].parent].volume && o.entries[o.entries[i].parent].parent == -1
  {
    var p := Owner(t, chapters, i);
    assert p == Parent(t, chapters, i);
    assert o.entries[p] == FinalEntry(t, chapters, p);
  }

  // Sum of the chapter counts shown beside the volume headings.
  function OwnedTotal(entries: seq<Entry>): nat {
    if entries == [] then 0 else entries[0].chapterCount + OwnedTotal(entries[1..])
  }

  function UnownedNumbered(t: Titles, chapters: seq<Chapter>, i: nat): nat
    requires i <= |chapters|
  {
    if i == 0 then 0
    else UnownedNumbered(t, chapters, i - 1) +
         if IsNumbered(t, chapters, i - 1) && Owner(t, chapters, i - 1) < 0 then 1 else 0
  }

  // No chapter is lost or counted twice: the counts beside the volumes and the chapters before the first
  // volume add up to the number of chapters.
  lemma {:induction false} ChaptersConserved(t: Titles, chapters: seq<Chapter>, o: Outline)
    requires IsOutline(t, chapters, o) && o.grouped
    ensures OwnedTotal(o.entries) + UnownedNumbered(t, chapters, |chapters|) == o.chapters
  {
    CountsUpTo(t, chapters, |chapters|);
    SumOfCounts(t, chapters, o.entries, |chapters|, 0);
    assert o.entries[0..] == o.entries;
  }

  function SumOwned(t: Titles, chapters: seq<Chapter>, i: nat, from: nat): nat
    requires i <= |chapters| && from <= |chapters|
    decreases |chapters| - from
  {
    if from == |chapters| then 0 else CountOwned(t, chapters, from, i) + SumOwned(t, chapters, i, from + 1)
  }

  lemma {:induction false} SumOfCounts(t: Titles, chapters: seq<Chapter>, entries: seq<Entry>, i: nat, from: nat)
    requires |entries| == |chapters| && i <= |chapters| && from <= |chapters|
    requires forall k :: 0 <= k < |chapters| ==> entries[k].chapterCount == CountOwned(t, chapters, k, i)
    ensures OwnedTotal(entries[from..]) == SumOwned(t, chapters, i, from)
    decreases |chapters| - from
  {
    if from < |chapters| {
      SumOfCounts(t, chapters, entries, i, from + 1);
      assert entries[from..][1..] == entries[from + 1..];
    }
  }

  lemma {:induction false} CountsUpTo(t: Titles, chapters: seq<Chapter>, i: nat)
    requires i <= |chapters|
    ensures SumOwned(t, chapters, i, 0) + UnownedNumbered(t, chapters, i) == CountNumbered(t, chapters, i)
  {
    if i == 0 {
      SumNothing(t, chapters, 0);
    } else {
      CountsUpTo(t, chapters, i - 1);
      SumStep(t, chapters, i, 0);
    }
  }

  lemma {:induction false} SumNothing(t: Titles, chapters: seq<Chapter>, from: nat)
    requires from <= |chapters|
    ensures SumOwned(t, chapters, 0, from) == 0
    decreases |chapters| - from
  {
    if from < |chapters| {
      SumNothing(t, chapters, from + 1);
    }
  }

  // Section i - 1 raises exactly its owner's count.
  lemma {:induction false} SumStep(t: Titles, chapters: seq<Chapter>, i: nat, from: nat)
    requires 0 < i <= |chapters| && from <= |chapters|
    ensures SumOwned(t, chapters, i, from) == SumOwned(t, chapters, i - 1, from) +
            if IsNumbered(t, chapters, i - 1) && Owner(t, chapters, i - 1) >= from then 1 else 0
    decreases |chapters| - from
  {
    if from < |chapters| {
      SumStep(t, chapters, i, from + 1);
    }
  }

  // ---- The outline said without counting loops ----

  // The volume in force is the nearest one opened before; a heading opens one unless it repeats the title of that one.
  lemma {:induction false} VolumeInForce(t: Titles, chapters: seq<Chapter>, i: nat)
    requires i <= |chapters|
    ensures var p := Parent(t, chapters, i);
      && (p >= 0 ==> p < i && IsRoot(t, chapters, p))
      && (forall k: nat :: p < k < i ==> !IsRoot(t, chapters, k))
      && (i < |chapters| ==>
            (IsRoot(t, chapters, i) <==>
             t.isVolume(chapters[i].title) &&
             (p < 0 || t.normalized(chapters[i].title) != t.normalized(chapters[p].title))))
  {
    if i > 0 {
      VolumeInForce(t, chapters, i - 1);
    }
  }

  // Numbered chapters among the first i.
  ghost function NumberedSet(t: Titles, chapters: seq<Chapter>, i: nat): set<nat>
    requires i <= |chapters|
  {
    set k: nat | k < i && IsNumbered(t, chapters, k)
  }

  lemma {:induction false} NumberedIs(t: Titles, chapters: seq<Chapter>, i: nat)
    requires i <= |chapters|
    ensures CountNumbered(t, chapters, i) == |NumberedSet(t, chapters, i)|
  {
    hide IsNumbered;
    if i > 0 {
      NumberedIs(t, chapters, i - 1);
      var before := NumberedSet(t, chapters, i - 1);
      assert NumberedSet(t, chapters, i) == if IsNumbered(t, chapters, i - 1) then before + {i - 1} else before;
    }
  }

  ghost function OwnedSet(t: Titles, chapters: seq<Chapter>, v: int, i: nat): set<nat>
    requires i <= |chapters|
  {
    set k: nat | k < i && IsNumbered(t, chapters, k) && v >= 0 && Owner(t, chapters, k) == v
  }

  lemma {:induction false} OwnedIs(t: Titles, chapters: seq<Chapter>, v: int, i: nat)
    requires i <= |chapters|
    ensures CountOwned(t, chapters, v, i) == |OwnedSet(t, chapters, v, i)|
  {
    hide IsNumbered, Owner;
    if i > 0 {
      OwnedIs(t, chapters, v, i - 1);
      var before := OwnedSet(t, chapters, v, i - 1);
      assert OwnedSet(t, chapters, v, i) ==
             if IsNumbered(t, chapters, i - 1) && v >= 0 && Owner(t, chapters, i - 1) == v then before + {i - 1} else before;
    }
  }

  ghost function RootSet(t: Titles, chapters: seq<Chapter>, i: nat): set<nat>
    requires i <= |chapters|
  {
    set k: nat | k < i && IsRoot(t, chapters, k)
  }

  lemma {:induction false} RootsAre(t: Titles, chapters: seq<Chapter>, i: nat)
    requires i <= |chapters|
    ensures CountRoots(t, chapters, i) == |RootSet(t, chapters, i)|
  {
    hide IsRoot;
    if i > 0 {
      RootsAre(t, chapters, i - 1);
      var before := RootSet(t, chapters, i - 1);
      assert RootSet(t, chapters, i) == if IsRoot(t, chapters, i - 1) then before + {i - 1} else before;
    }
  }

  // A section that is neither a volume heading nor the preamble nor the whole text has its number, one more than there
  // are such sections before it. In a grouped book a section stands under the volume in force, a heading that opens a
  // volume under none, and beside every volume stands how many numbered sections stand under it.
  lemma {:induction false} OutlineShows(t: Titles, chapters: seq<Chapter>, o: Outline, i: nat)
    requires IsOutline(t, chapters, o) && i < |chapters|
    ensures |o.entries| == |chapters| && o.chapters == |NumberedSet(t, chapters, |chapters|)|
    ensures var e, title := o.entries[i], chapters[i].title;
      var numbered := !t.isVolume(title) && title != [0x5F00, 0x59CB] && title != [0x6B63, 0x6587];
      && e.volume == t.isVolume(title) && (i in NumberedSet(t, chapters, |chapters|) <==> numbered)
      && e.chapterNo == (if numbered then |NumberedSet(t, chapters, i)| + 1 else 0)
      && (o.grouped ==>
            && e.parent == (if IsRoot(t, chapters, i) then -1 else Parent(t, chapters, i))
            && o.volumes == |RootSet(t, chapters, |chapters|)| > 0
            && e.chapterCount == |OwnedSet(t, chapters, i, |chapters|)|)
      && (!o.grouped ==> e.parent == -1 && e.chapterCount == 0 && o.volumes == 0)
  {
    NumberedIs(t, chapters, i);
    NumberedIs(t, chapters, |chapters|);
    OwnedIs(t, chapters, i, |chapters|);
    RootsAre(t, chapters, |chapters|);
    assert o.entries[i] == FinalEntry(t, chapters, i);
    hide IsRoot, Parent, CountOwned, CountRoots, Sequenced, OwnedSet, RootSet, CountNumbered;
    NextNumber(t, chapters, i);
  }

  lemma {:induction false} NextNumber(t: Titles, chapters: seq<Chapter>, i: nat)
    requires i < |chapters|
    ensures CountNumbered(t, chapters, i + 1) == CountNumbered(t, chapters, i) + if IsNumbered(t, chapters, i) then 1 else 0
  {
  }
}

/** Segment files and cursors of one priority class (internal/spool): what they stand for in the contract of Lanes,
  * and that growing, evicting, consuming and collecting segments keeps it. */
module Segments {
  import opened Prelude
  import opened Lanes

  /** `off` counts records where the source counts bytes. */
  datatype Cursor = Cursor(seqNo: nat, off: nat)

  datatype Segment = Segment(seqNo: nat, recs: seq<Record>)

  // ---------------------------------------------------------------- what segments and cursors stand for

  /** Numbers ascend and the next one follows the newest. */
  ghost predicate Numbered(segs: seq<Segment>, nextSeq: nat) {
    && (forall i | 0 <= i < |segs| :: 1 <= segs[i].seqNo < nextSeq)
    && (forall i, j | 0 <= i < j < |segs| :: segs[i].seqNo < segs[j].seqNo)
    && (segs != [] ==> nextSeq == segs[|segs| - 1].seqNo + 1)
  }

  /** Segment i holds the records of the log from position firsts[i]; together they hold its tail. */
  ghost predicate Tiled(segs: seq<Segment>, firsts: seq<nat>, log: seq<Record>) {
    && |firsts| == |segs|
    && (forall i {:trigger Holds(segs[i], firsts[i], log)} | 0 <= i < |segs| :: Holds(segs[i], firsts[i], log))
    && (forall i {:trigger End(segs, firsts, i)} | 0 <= i < |segs| ::
          End(segs, firsts, i) == if i + 1 < |segs| then firsts[i + 1] else |log|)
  }

  ghost predicate Holds(seg: Segment, first: nat, log: seq<Record>) {
    first + |seg.recs| <= |log| && seg.recs == log[first..first + |seg.recs|]
  }

  ghost function End(segs: seq<Segment>, firsts: seq<nat>, i: nat): nat
    requires i < |segs| == |firsts|
  {
    firsts[i] + |segs[i].recs|
  }

  /** Cursor c stands for position `at`: inside the segment of its number, or before the oldest one. */
  ghost predicate Marks(segs: seq<Segment>, firsts: seq<nat>, c: Cursor, at: nat)
    requires |firsts| == |segs|
  {
    segs == [] || (c.seqNo < segs[0].seqNo && at <= firsts[0]) || exists m :: MarksIn(segs, firsts, c, at, m)
  }

  ghost predicate MarksIn(segs: seq<Segment>, firsts: seq<nat>, c: Cursor, at: nat, m: int)
    requires |firsts| == |segs|
  {
    0 <= m < |segs| && segs[m].seqNo == c.seqNo && firsts[m] + c.off == at <= End(segs, firsts, m)
  }

  ghost predicate Placed(segs: seq<Segment>, firsts: seq<nat>, cursor: Cursor, view: Lane)
    requires |firsts| == |segs|
  {
    && view.Valid()
    && Marks(segs, firsts, cursor, view.cur)
    && if segs == [] then
         && view.cur == |view.log| == Max(view.synced, view.base)
         && (if view.stale then view.file == |view.log| else view.base == |view.log|)
       else
         && view.base <= firsts[0] <= Max(view.file, view.base) && firsts[0] <= view.cur
         && firsts[|segs| - 1] <= Max(view.synced, view.base)
         && (cursor.seqNo < segs[0].seqNo ==> view.cur == firsts[0])
  }

  /** How far the cursor file of a stale class reaches: through every segment numbered below its own, and up to its
    * offset into the segment that shares its number. */
  ghost predicate Reaches(segs: seq<Segment>, firsts: seq<nat>, c: Cursor, file: nat, end: nat)
    requires |firsts| == |segs|
  {
    if segs == [] then file == end
    else
      || (c.seqNo < segs[0].seqNo && file <= firsts[0])
      || (c.seqNo > segs[|segs| - 1].seqNo && file == end)
      || exists m :: ReachesInto(segs, firsts, c, file, m)
  }

  ghost predicate ReachesInto(segs: seq<Segment>, firsts: seq<nat>, c: Cursor, file: nat, m: int)
    requires |firsts| == |segs|
  {
    0 <= m < |segs| && segs[m].seqNo == c.seqNo && file == firsts[m] + Min(c.off, |segs[m].recs|)
  }

  /** What the cursor file means: the durable position, unless the class is stale. A written cursor is never the
    * start of segment 1. */
  ghost predicate Filed(segs: seq<Segment>, nextSeq: nat, saved: Option<Cursor>, firsts: seq<nat>, view: Lane)
    requires |firsts| == |segs|
  {
    && view.filed == saved.Some?
    && (!view.stale ==> (view.empty <==> segs == []))
    && (saved.Some? ==>
          && saved.value.seqNo >= 1 && (saved.value.seqNo >= 2 || saved.value.off >= 1)
          && if view.stale then Reaches(segs, firsts, saved.value, view.file, |view.log|)
             else saved.value.seqNo < nextSeq && Marks(segs, firsts, saved.value, view.disk))
  }

  // ---------------------------------------------------------------- growing and shrinking the list

  lemma TileEnds(segs: seq<Segment>, firsts: seq<nat>, log: seq<Record>, i: nat)
    requires Tiled(segs, firsts, log) && i < |segs|
    ensures End(segs, firsts, i) <= |log| && segs[i].recs == log[firsts[i]..End(segs, firsts, i)]
    ensures End(segs, firsts, i) == if i + 1 < |segs| then firsts[i + 1] else |log|
  {
    assert Holds(segs[i], firsts[i], log);
  }

  lemma RecordAt(segs: seq<Segment>, firsts: seq<nat>, log: seq<Record>, i: nat, off: nat)
    requires Tiled(segs, firsts, log) && i < |segs| && off < |segs[i].recs|
    ensures firsts[i] + off < |log| && segs[i].recs[off] == log[firsts[i] + off]
  {
    TileEnds(segs, firsts, log, i);
  }

  lemma {:induction false} FirstsGrow(segs: seq<Segment>, firsts: seq<nat>, log: seq<Record>, i: nat, j: nat)
    requires Tiled(segs, firsts, log) && i <= j < |segs|
    ensures firsts[i] <= firsts[j]
    decreases j - i
  {
    if i < j {
      TileEnds(segs, firsts, log, i);
      FirstsGrow(segs, firsts, log, i + 1, j);
    }
  }

  lemma NewSegmentKeepsTiles(segs: seq<Segment>, firsts: seq<nat>, nextSeq: nat, log: seq<Record>)
    requires Numbered(segs, nextSeq) && Tiled(segs, firsts, log) && nextSeq >= 1
    ensures Numbered(segs + [Segment(nextSeq, [])], nextSeq + 1)
    ensures Tiled(segs + [Segment(nextSeq, [])], firsts + [|log|], log)
  {
    var segs', firsts' := segs + [Segment(nextSeq, [])], firsts + [|log|];
    forall i | 0 <= i < |segs'|
      ensures Holds(segs'[i], firsts'[i], log)
    {
      if i < |segs| {
        assert Holds(segs[i], firsts[i], log);
      }
    }
    forall i | 0 <= i < |segs'|
      ensures End(segs', firsts', i) == if i + 1 < |segs'| then firsts'[i + 1] else |log|
    {
      if i < |segs| {
        TileEnds(segs, firsts, log, i);
      }
    }
  }

  lemma NewSegmentKeepsMark(segs: seq<Segment>, firsts: seq<nat>, nextSeq: nat, log: seq<Record>, c: Cursor, at: nat)
    requires |firsts| == |segs| && Marks(segs, firsts, c, at) && c.seqNo < nextSeq && at <= |log|
    ensures Marks(segs + [Segment(nextSeq, [])], firsts + [|log|], c, at)
  {
    if m :| MarksIn(segs, firsts, c, at, m) {
      assert MarksIn(segs + [Segment(nextSeq, [])], firsts + [|log|], c, at, m);
    }
  }

  lemma NewSegmentKeepsReach(segs: seq<Segment>, firsts: seq<nat>, nextSeq: nat, log: seq<Record>, c: Cursor, file: nat)
    requires Numbered(segs, nextSeq) && |firsts| == |segs| && Reaches(segs, firsts, c, file, |log|) && file <= |log|
    ensures Reaches(segs + [Segment(nextSeq, [])], firsts + [|log|], c, file, |log|)
  {
    var segs', firsts' := segs + [Segment(nextSeq, [])], firsts + [|log|];
    if m :| ReachesInto(segs, firsts, c, file, m) {
      assert ReachesInto(segs', firsts', c, file, m);
    } else if c.seqNo == nextSeq {
      assert ReachesInto(segs', firsts', c, file, |segs|);
    }
  }

  function Extended(segs: seq<Segment>, r: Record): seq<Segment>
    requires segs != []
  {
    var last := segs[|segs| - 1];
    segs[..|segs| - 1] + [last.(recs := last.recs + [r])]
  }

  lemma AppendKeepsTiles(segs: seq<Segment>, firsts: seq<nat>, nextSeq: nat, log: seq<Record>, r: Record)
    requires segs != [] && Numbered(segs, nextSeq) && Tiled(segs, firsts, log)
    ensures Numbered(Extended(segs, r), nextSeq) && Tiled(Extended(segs, r), firsts, log + [r])
  {
    var segs', log' := Extended(segs, r), log + [r];
    forall i | 0 <= i < |segs'|
      ensures Holds(segs'[i], firsts[i], log')
    {
      assert Holds(segs[i], firsts[i], log);
      assert End(segs, firsts, i) == if i + 1 < |segs| then firsts[i + 1] else |log|;
      if i == |segs| - 1 {
        assert segs'[i].recs == log'[firsts[i]..];
      } else {
        assert segs'[i] == segs[i];
      }
    }
    forall i | 0 <= i < |segs'|
      ensures End(segs', firsts, i) == if i + 1 < |segs'| then firsts[i + 1] else |log'|
    {
      assert End(segs, firsts, i) == if i + 1 < |segs| then firsts[i + 1] else |log|;
    }
  }

  lemma AppendKeepsMark(segs: seq<Segment>, firsts: seq<nat>, r: Record, c: Cursor, at: nat)
    requires segs != [] && |firsts| == |segs| && Marks(segs, firsts, c, at)
    ensures Marks(Extended(segs, r), firsts, c, at)
  {
    if m :| MarksIn(segs, firsts, c, at, m) {
      assert MarksIn(Extended(segs, r), firsts, c, at, m);
    }
  }

  /** Whether the newest segment is numbered within reach of cursor c, with the next record. */
  predicate NextIsUnder(segs: seq<Segment>, c: Cursor)
    requires segs != []
  {
    var last := segs[|segs| - 1];
    c.seqNo > last.seqNo || (c.seqNo == last.seqNo && c.off > |last.recs|)
  }

  lemma AppendKeepsReach(
    segs: seq<Segment>, firsts: seq<nat>, nextSeq: nat, log: seq<Record>, r: Record, c: Cursor, file: nat)
    requires segs != [] && Numbered(segs, nextSeq) && Tiled(segs, firsts, log) && Reaches(segs, firsts, c, file, |log|)
    ensures NextIsUnder(segs, c) ==> file == |log|
    ensures Reaches(Extended(segs, r), firsts, c, if NextIsUnder(segs, c) then |log| + 1 else file, |log| + 1)
  {
    var segs', file' := Extended(segs, r), if NextIsUnder(segs, c) then |log| + 1 else file;
    TileEnds(segs, firsts, log, |segs| - 1);
    if m :| ReachesInto(segs, firsts, c, file, m) {
      assert ReachesInto(segs', firsts, c, file', m);
    }
  }

  /** Deleting the first j segments keeps the rest in place. */
  lemma DropKeeps(segs: seq<Segment>, firsts: seq<nat>, nextSeq: nat, log: seq<Record>, j: nat)
    requires Numbered(segs, nextSeq) && Tiled(segs, firsts, log) && j <= |segs|
    ensures Numbered(segs[j..], nextSeq) && Tiled(segs[j..], firsts[j..], log)
    ensures forall i | j <= i < |segs| :: End(segs[j..], firsts[j..], i - j) == End(segs, firsts, i)
  {
    var segs', firsts' := segs[j..], firsts[j..];
    forall i | 0 <= i < |segs'|
      ensures Holds(segs'[i], firsts'[i], log) && End(segs', firsts', i) == End(segs, firsts, i + j)
      ensures End(segs', firsts', i) == if i + 1 < |segs'| then firsts'[i + 1] else |log|
    {
      assert Holds(segs[i + j], firsts[i + j], log);
    }
  }

  /** A cursor still marks its place after the oldest segment is gone; inside that one it comes to mean the
    * oldest survivor. */
  lemma DropKeepsMark(segs: seq<Segment>, firsts: seq<nat>, nextSeq: nat, log: seq<Record>, c: Cursor, at: nat)
    requires Numbered(segs, nextSeq) && Tiled(segs, firsts, log) && segs != [] && Marks(segs, firsts, c, at)
    ensures Marks(segs[1..], firsts[1..], c, at)
  {
    TileEnds(segs, firsts, log, 0);
    if m :| MarksIn(segs, firsts, c, at, m) {
      if m > 0 {
        assert MarksIn(segs[1..], firsts[1..], c, at, m - 1);
      }
    }
  }

  /** A cursor file reaches as far into what is left after the oldest segment is gone, or to its start. */
  lemma DropKeepsReach(segs: seq<Segment>, firsts: seq<nat>, nextSeq: nat, log: seq<Record>, c: Cursor, file: nat)
    requires Numbered(segs, nextSeq) && Tiled(segs, firsts, log) && segs != []
    requires Reaches(segs, firsts, c, file, |log|) && file <= |log|
    ensures Reaches(segs[1..], firsts[1..], c, Max(file, End(segs, firsts, 0)), |log|)
  {
    TileEnds(segs, firsts, log, 0);
    if m :| ReachesInto(segs, firsts, c, file, m) {
      if m > 0 {
        FirstsGrow(segs, firsts, log, 1, m);
        assert ReachesInto(segs[1..], firsts[1..], c, file, m - 1);
      }
    }
  }

  /** A class with all its parts; `view` and `firsts` say what they stand for. */
  ghost predicate Sound(
    segs: seq<Segment>, cursor: Cursor, nextSeq: nat, saved: Option<Cursor>, firsts: seq<nat>, view: Lane)
  {
    && nextSeq >= 1 && cursor.seqNo < nextSeq
    && Numbered(segs, nextSeq) && Tiled(segs, firsts, view.log) && Placed(segs, firsts, cursor, view)
    && Filed(segs, nextSeq, saved, firsts, view)
  }

  /** The file is on disk, still without a record. */
  lemma NewSegmentSound(
    segs: seq<Segment>, cursor: Cursor, nextSeq: nat, saved: Option<Cursor>, firsts: seq<nat>, view: Lane)
    requires Sound(segs, cursor, nextSeq, saved, firsts, view)
    ensures Sound(segs + [Segment(nextSeq, [])], cursor, nextSeq + 1, saved, firsts + [|view.log|],
                  view.Sync().(empty := false, writing := true))
  {
    NewSegmentKeepsTiles(segs, firsts, nextSeq, view.log);
    NewSegmentPlaced(segs, cursor, nextSeq, firsts, view);
    NewSegmentFiled(segs, nextSeq, saved, firsts, view);
  }

  lemma NewSegmentPlaced(segs: seq<Segment>, cursor: Cursor, nextSeq: nat, firsts: seq<nat>, view: Lane)
    requires |firsts| == |segs| && Placed(segs, firsts, cursor, view) && cursor.seqNo < nextSeq
    requires segs != [] ==> firsts[|segs| - 1] <= |view.log|
    ensures Placed(segs + [Segment(nextSeq, [])], firsts + [|view.log|], cursor,
                   view.Sync().(empty := false, writing := true))
  {
    NewSegmentKeepsMark(segs, firsts, nextSeq, view.log, cursor, view.cur);
  }

  lemma NewSegmentFiled(segs: seq<Segment>, nextSeq: nat, saved: Option<Cursor>, firsts: seq<nat>, view: Lane)
    requires Numbered(segs, nextSeq) && |firsts| == |segs| && Filed(segs, nextSeq, saved, firsts, view) && view.Valid()
    ensures Filed(segs + [Segment(nextSeq, [])], nextSeq + 1, saved, firsts + [|view.log|],
                  view.Sync().(empty := false, writing := true))
  {
    if saved.Some? {
      if view.stale {
        NewSegmentKeepsReach(segs, firsts, nextSeq, view.log, saved.value, view.file);
      } else {
        NewSegmentKeepsMark(segs, firsts, nextSeq, view.log, saved.value, view.disk);
      }
    }
  }

  lemma AppendSound(
    segs: seq<Segment>, cursor: Cursor, nextSeq: nat, saved: Option<Cursor>, firsts: seq<nat>, view: Lane, r: Record)
    requires Sound(segs, cursor, nextSeq, saved, firsts, view) && segs != []
    ensures var under := saved.Some? && NextIsUnder(segs, saved.value);
            Sound(Extended(segs, r), cursor, nextSeq, saved, firsts, view.Append(r, under))
  {
    AppendKeepsTiles(segs, firsts, nextSeq, view.log, r);
    AppendKeepsMark(segs, firsts, r, cursor, view.cur);
    if saved.Some? {
      if view.stale {
        AppendKeepsReach(segs, firsts, nextSeq, view.log, r, saved.value, view.file);
      } else {
        AppendKeepsMark(segs, firsts, r, saved.value, view.disk);
      }
    }
  }

  function AfterEviction(segs: seq<Segment>, cursor: Cursor): Cursor
    requires segs != []
  {
    if cursor.seqNo != segs[0].seqNo then cursor
    else if |segs| > 1 then Cursor(segs[1].seqNo, 0) else Cursor(0, 0)
  }

  lemma EvictSound(
    segs: seq<Segment>, cursor: Cursor, nextSeq: nat, saved: Option<Cursor>, firsts: seq<nat>, view: Lane)
    requires Sound(segs, cursor, nextSeq, saved, firsts, view) && segs != []
    ensures var upto := End(segs, firsts, 0);
            && view.base <= upto <= |view.log| && (|segs| == 1 ==> upto == |view.log|)
            && Sound(segs[1..], AfterEviction(segs, cursor), nextSeq, saved, firsts[1..], view.Evict(upto, |segs| == 1))
  {
    TileEnds(segs, firsts, view.log, 0);
    DropKeeps(segs, firsts, nextSeq, view.log, 1);
    EvictPlaced(segs, cursor, nextSeq, firsts, view);
    if saved.Some? {
      if view.stale {
        DropKeepsReach(segs, firsts, nextSeq, view.log, saved.value, view.file);
      } else {
        DropKeepsMark(segs, firsts, nextSeq, view.log, saved.value, view.disk);
      }
    }
  }

  lemma EvictPlaced(segs: seq<Segment>, cursor: Cursor, nextSeq: nat, firsts: seq<nat>, view: Lane)
    requires Numbered(segs, nextSeq) && Tiled(segs, firsts, view.log)
    requires Placed(segs, firsts, cursor, view) && segs != []
    requires cursor.seqNo < nextSeq
    ensures Placed(segs[1..], firsts[1..], AfterEviction(segs, cursor), view.Evict(End(segs, firsts, 0), |segs| == 1))
    ensures AfterEviction(segs, cursor).seqNo < nextSeq
  {
    TileEnds(segs, firsts, view.log, 0);
    EvictKeepsCursor(segs, cursor, nextSeq, firsts, view);
  }

  lemma EvictKeepsCursor(segs: seq<Segment>, cursor: Cursor, nextSeq: nat, firsts: seq<nat>, view: Lane)
    requires Numbered(segs, nextSeq) && Tiled(segs, firsts, view.log)
    requires Placed(segs, firsts, cursor, view) && segs != []
    ensures var c, cur := AfterEviction(segs, cursor), Max(view.cur, End(segs, firsts, 0));
            && Marks(segs[1..], firsts[1..], c, cur)
            && (|segs| > 1 && c.seqNo < segs[1].seqNo ==> cur == firsts[1])
  {
    TileEnds(segs, firsts, view.log, 0);
    var c, cur := AfterEviction(segs, cursor), Max(view.cur, End(segs, firsts, 0));
    if |segs| > 1 {
      if cursor.seqNo == segs[0].seqNo {
        assert MarksIn(segs[1..], firsts[1..], c, cur, 0);
      } else if m :| MarksIn(segs, firsts, cursor, view.cur, m) {
        FirstsGrow(segs, firsts, view.log, 1, m);
        assert MarksIn(segs[1..], firsts[1..], c, cur, m - 1);
      }
    }
  }

  /** Where a commit that consumed up to record `endOff` of segment `endIdx` leaves the cursor. */
  function Landed(segs: seq<Segment>, endIdx: nat, endOff: nat): Cursor
    requires endIdx < |segs|
  {
    if endOff >= |segs[endIdx].recs| && endIdx + 1 < |segs|
    then Cursor(segs[endIdx + 1].seqNo, 0) else Cursor(segs[endIdx].seqNo, endOff)
  }

  lemma AdvanceSound(
    segs: seq<Segment>, cursor: Cursor, nextSeq: nat, saved: Option<Cursor>, firsts: seq<nat>, view: Lane,
    n: nat, endIdx: nat, endOff: nat)
    requires Sound(segs, cursor, nextSeq, saved, firsts, view) && endIdx < |segs| && 0 < endOff <= |segs[endIdx].recs|
    requires firsts[endIdx] + endOff == view.Advance(n).cur
    ensures var c := Landed(segs, endIdx, endOff);
            && c.seqNo >= segs[0].seqNo
            && Sound(segs, c, nextSeq, saved, firsts, view.Advance(n))
            && Sound(segs, c, nextSeq, Some(c), firsts, view.Commit(n))
  {
    var c, e := Landed(segs, endIdx, endOff), firsts[endIdx] + endOff;
    TileEnds(segs, firsts, view.log, endIdx);
    assert MarksIn(segs, firsts, c, e, if c.seqNo == segs[endIdx].seqNo then endIdx else endIdx + 1);
  }

  /** The segments numbered q and up start at index j. */
  ghost predicate CutAt(segs: seq<Segment>, q: nat, j: nat) {
    j <= |segs| && (forall i | 0 <= i < j :: segs[i].seqNo < q) && (forall i | j <= i < |segs| :: segs[i].seqNo >= q)
  }

  /** Keeps the segments numbered q and up. */
  method KeepFrom(segs: seq<Segment>, nextSeq: nat, q: nat) returns (kept: seq<Segment>, ghost j: nat)
    requires Numbered(segs, nextSeq)
    ensures CutAt(segs, q, j) && kept == segs[j..]
  {
    kept, j := [], 0;
    var i := 0;
    while i < |segs|
      invariant j <= i <= |segs| && kept == segs[j..i] && (j < i ==> segs[j].seqNo >= q)
      invariant forall m | 0 <= m < j :: segs[m].seqNo < q
    {
      if segs[i].seqNo >= q {
        kept := kept + [segs[i]];
      } else {
        j := i + 1;
      }
      i := i + 1;
    }
  }

  lemma GcSound(segs: seq<Segment>, cursor: Cursor, nextSeq: nat, firsts: seq<nat>, view: Lane, j: nat)
    requires Sound(segs, cursor, nextSeq, Some(cursor), firsts, view) && segs != [] && cursor.seqNo >= segs[0].seqNo
    requires !view.stale && view.disk == view.cur && CutAt(segs, cursor.seqNo, j)
    ensures j < |segs| && Sound(segs[j..], cursor, nextSeq, Some(cursor), firsts[j..], view)
  {
    MarkedAtCut(segs, nextSeq, firsts, cursor, view.cur, j);
    DropKeeps(segs, firsts, nextSeq, view.log, j);
    FirstsGrow(segs, firsts, view.log, 0, j);
    assert MarksIn(segs[j..], firsts[j..], cursor, view.cur, 0);
  }

  lemma Ordered(segs: seq<Segment>, nextSeq: nat, i: nat, m: nat)
    requires Numbered(segs, nextSeq) && i < |segs| && m < |segs| && segs[i].seqNo <= segs[m].seqNo
    ensures i <= m
  {
  }

  lemma CutIsAt(segs: seq<Segment>, nextSeq: nat, q: nat, j: nat, m: nat)
    requires Numbered(segs, nextSeq) && CutAt(segs, q, j) && m < |segs| && segs[m].seqNo == q
    ensures j < |segs| && segs[j].seqNo == q && j == m
  {
  }

  lemma CutIsEnd(segs: seq<Segment>, nextSeq: nat, q: nat, j: nat)
    requires Numbered(segs, nextSeq) && CutAt(segs, q, j) && segs != [] && segs[|segs| - 1].seqNo < q
    ensures j == |segs|
  {
  }

  /** Cutting below a cursor inside the list leaves its segment as the oldest. */
  lemma MarkedAtCut(segs: seq<Segment>, nextSeq: nat, firsts: seq<nat>, c: Cursor, at: nat, j: nat)
    requires Numbered(segs, nextSeq) && |firsts| == |segs| && Marks(segs, firsts, c, at) && CutAt(segs, c.seqNo, j)
    requires segs != [] && c.seqNo >= segs[0].seqNo
    ensures MarksIn(segs, firsts, c, at, j)
  {
    var m :| MarksIn(segs, firsts, c, at, m);
  }
}

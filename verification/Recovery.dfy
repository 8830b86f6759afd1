/** Reopening a class (internal/spool) after the power went or the process died: the scan, the cursor file against
  * what is left, and exactly when Open skips a record. */
module Recovery {
  import opened Prelude
  import opened Lanes
  import opened Segments

  // ---------------------------------------------------------------- reopening

  /** The segments with the newest `lost` records gone. */
  function Torn(segs: seq<Segment>, lost: nat): seq<Segment> {
    if segs == [] then [] else
      var last := segs[|segs| - 1];
      segs[|segs| - 1 := last.(recs := last.recs[..Max(|last.recs| - lost, 0)])]
  }

  lemma TornSound(segs: seq<Segment>, nextSeq: nat, firsts: seq<nat>, log: seq<Record>, lost: nat)
    requires Numbered(segs, nextSeq) && Tiled(segs, firsts, log) && lost <= |log|
    requires if segs == [] then lost == 0 else lost <= |segs[|segs| - 1].recs|
    ensures Numbered(Torn(segs, lost), nextSeq) && Tiled(Torn(segs, lost), firsts, log[..|log| - lost])
  {
    var segs', log' := Torn(segs, lost), log[..|log| - lost];
    forall i | 0 <= i < |segs'|
      ensures Holds(segs'[i], firsts[i], log')
    {
      TornSegment(segs, firsts, log, lost, i);
    }
    forall i | 0 <= i < |segs'|
      ensures End(segs', firsts, i) == if i + 1 < |segs'| then firsts[i + 1] else |log'|
    {
      TornSegment(segs, firsts, log, lost, i);
    }
  }

  lemma TornSegment(segs: seq<Segment>, firsts: seq<nat>, log: seq<Record>, lost: nat, i: nat)
    requires Tiled(segs, firsts, log) && i < |segs| && lost <= |segs[|segs| - 1].recs| && lost <= |log|
    ensures var segs', log' := Torn(segs, lost), log[..|log| - lost];
            && Holds(segs'[i], firsts[i], log')
            && End(segs', firsts, i) == if i + 1 < |segs'| then firsts[i + 1] else |log'|
  {
    var segs', log' := Torn(segs, lost), log[..|log| - lost];
    TileEnds(segs, firsts, log, i);
    TileEnds(segs, firsts, log, |segs| - 1);
    if i + 1 < |segs| {
      FirstsGrow(segs, firsts, log, i + 1, |segs| - 1);
      assert segs'[i] == segs[i];
    }
    var n := |segs'[i].recs|;
    assert segs'[i].recs == segs[i].recs[..n];
    assert log[firsts[i]..firsts[i] + |segs[i].recs|][..n] == log'[firsts[i]..firsts[i] + n];
  }

  lemma TornKeepsMark(
    segs: seq<Segment>, nextSeq: nat, firsts: seq<nat>, log: seq<Record>, lost: nat, c: Cursor, at: nat)
    requires Numbered(segs, nextSeq) && Tiled(segs, firsts, log) && lost <= |log|
    requires if segs == [] then lost == 0 else lost <= |segs[|segs| - 1].recs|
    requires Marks(segs, firsts, c, at) && at <= |log| - lost
    ensures Marks(Torn(segs, lost), firsts, c, at)
  {
    if m :| MarksIn(segs, firsts, c, at, m) {
      TileEnds(segs, firsts, log, m);
      assert MarksIn(Torn(segs, lost), firsts, c, at, m);
    }
  }

  lemma TornKeepsReach(
    segs: seq<Segment>, nextSeq: nat, firsts: seq<nat>, log: seq<Record>, lost: nat, c: Cursor, file: nat)
    requires Numbered(segs, nextSeq) && Tiled(segs, firsts, log) && lost <= |log|
    requires if segs == [] then lost == 0 else lost <= |segs[|segs| - 1].recs|
    requires Reaches(segs, firsts, c, file, |log|) && file <= |log|
    ensures Reaches(Torn(segs, lost), firsts, c, Min(file, |log| - lost), |log| - lost)
  {
    if segs != [] {
      TileEnds(segs, firsts, log, |segs| - 1);
      FirstsGrow(segs, firsts, log, 0, |segs| - 1);
      if m :| ReachesInto(segs, firsts, c, file, m) {
        TileEnds(segs, firsts, log, m);
        if m + 1 < |segs| {
          FirstsGrow(segs, firsts, log, m + 1, |segs| - 1);
        }
        assert ReachesInto(Torn(segs, lost), firsts, c, Min(file, |log| - lost), m);
      }
    }
  }

  function Find(segs: seq<Segment>, q: nat): Option<Segment> {
    if segs == [] then None else if segs[0].seqNo == q then Some(segs[0]) else Find(segs[1..], q)
  }

  /** A loaded cursor against the survivors: clamped to the end of its segment, parked at the newest's end when
    * past them all, and otherwise rewound to the oldest. */
  function Normalized(c: Cursor, kept: seq<Segment>): Cursor {
    if kept == [] then Cursor(0, 0)
    else if c.seqNo < kept[0].seqNo then Cursor(kept[0].seqNo, 0)
    else match Find(kept, c.seqNo)
      case Some(seg) => Cursor(c.seqNo, Min(c.off, |seg.recs|))
      case None =>
        var newest := kept[|kept| - 1];
        if c.seqNo > newest.seqNo then Cursor(newest.seqNo, |newest.recs|) else Cursor(kept[0].seqNo, 0)
  }

  /** The newest number on disk plus one; with no segment left, numbering starts over. */
  method NextNumber(scanned: seq<Segment>, bound: nat) returns (next: nat)
    requires Numbered(scanned, bound)
    ensures next >= 1 && Numbered(scanned, next) && (scanned == [] ==> next == 1)
  {
    next := 1;
    for i := 0 to |scanned|
      invariant next == if i == 0 then 1 else scanned[i - 1].seqNo + 1
    {
      if scanned[i].seqNo >= next {
        next := scanned[i].seqNo + 1;
      }
    }
  }

  /** The cursor Open starts from: the file's, or the oldest record. */
  function Loaded(saved: Option<Cursor>, scanned: seq<Segment>): Cursor {
    if saved.Some? then saved.value else if scanned != [] then Cursor(scanned[0].seqNo, 0) else Cursor(0, 0)
  }

  /** The cursor file no longer means the durable position once `keep` records are left. */
  predicate Detached(view: Lane, keep: nat) {
    view.stale || keep < view.disk
  }

  /** What there can be of a class when it is opened: `scanned` tiles the first `keep` records. */
  ghost predicate OnDisk(
    scanned: seq<Segment>, next: nat, saved: Option<Cursor>, firsts: seq<nat>, view: Lane, keep: nat)
  {
    && view.Valid() && view.base <= keep && view.synced <= keep <= |view.log|
    && Numbered(scanned, next) && (scanned == [] ==> next == 1) && Tiled(scanned, firsts, view.log[..keep])
    && view.filed == saved.Some? && (!view.stale ==> (view.empty <==> scanned == []))
    && (saved.Some? ==>
          && saved.value.seqNo >= 1 && (saved.value.seqNo >= 2 || saved.value.off >= 1)
          && if Detached(view, keep) then Reaches(scanned, firsts, saved.value, Min(view.file, keep), keep)
             else Marks(scanned, firsts, saved.value, view.disk))
    && if scanned == [] then keep == |view.log| && (if view.stale then view.file == keep else view.base == keep)
       else
         && view.base <= firsts[0] <= Max(Min(view.file, keep), view.base)
         && firsts[|scanned| - 1] <= Max(view.synced, view.base)
  }

  /** Open starts reading where the contract says: Open's own cursor, on what it keeps. */
  lemma LandsAtFile(
    scanned: seq<Segment>, next: nat, saved: Option<Cursor>, firsts: seq<nat>, view: Lane, keep: nat, j: nat)
    requires OnDisk(scanned, next, saved, firsts, view, keep) && CutAt(scanned, Loaded(saved, scanned).seqNo, j)
    ensures var kept := scanned[j..];
            && view.Reopened(keep) ==
               (if kept == [] then keep else firsts[j] + Normalized(Loaded(saved, scanned), kept).off)
            && (kept != [] ==>
                  && Normalized(Loaded(saved, scanned), kept).seqNo == kept[0].seqNo
                  && Normalized(Loaded(saved, scanned), kept).off <= |kept[0].recs|)
  {
    var c, kept := Loaded(saved, scanned), scanned[j..];
    if kept != [] {
      assert kept[0] == scanned[j];
    }
    if scanned == [] {
    } else if c.seqNo < scanned[0].seqNo || saved.None? {
      assert j == 0;
    } else if Detached(view, keep) && c.seqNo > scanned[|scanned| - 1].seqNo {
      CutIsEnd(scanned, next, c.seqNo, j);
    } else {
      var m: nat := if Detached(view, keep) then var m :| ReachesInto(scanned, firsts, c, Min(view.file, keep), m); m
                    else var m :| MarksIn(scanned, firsts, c, view.disk, m); m;
      CutIsAt(scanned, next, c.seqNo, j, m);
      FirstsGrow(scanned, firsts, view.log[..keep], 0, j);
    }
  }

  /** What Open may take as surviving a power cut: with no segment left there is nothing to lose. */
  predicate Firm(kept: seq<Segment>, view: Lane, keep: nat, firm: nat) {
    view.synced <= firm <= keep && (kept == [] ==> firm == keep)
  }

  lemma LoadSound(
    scanned: seq<Segment>, next: nat, saved: Option<Cursor>, firsts: seq<nat>, view: Lane, keep: nat, firm: nat, j: nat)
    requires OnDisk(scanned, next, saved, firsts, view, keep) && next >= 1
    requires CutAt(scanned, Loaded(saved, scanned).seqNo, j) && Firm(scanned[j..], view, keep, firm)
    ensures Sound(scanned[j..], Normalized(Loaded(saved, scanned), scanned[j..]), next, saved, firsts[j..],
                  view.Open(keep, firm))
  {
    LandsAtFile(scanned, next, saved, firsts, view, keep, j);
    DropKeeps(scanned, firsts, next, view.log[..keep], j);
    LoadFiled(scanned, next, saved, firsts, view, keep, firm, j);
    if j < |scanned| {
      FirstsGrow(scanned, firsts, view.log[..keep], 0, j);
      assert scanned[j..][0] == scanned[j];
    }
    LoadPlaced(scanned[j..], Normalized(Loaded(saved, scanned), scanned[j..]), firsts[j..], view, keep, firm);
  }

  lemma LoadPlaced(kept: seq<Segment>, cursor: Cursor, firsts: seq<nat>, view: Lane, keep: nat, firm: nat)
    requires view.Valid() && view.base <= keep && Firm(kept, view, keep, firm) && keep <= |view.log|
    requires Tiled(kept, firsts, view.log[..keep])
    requires view.empty && !view.stale ==> view.base == keep
    requires if kept == [] then
               && view.Reopened(keep) == keep
               && (if view.Open(keep, firm).stale then view.Open(keep, firm).file == keep else view.base == keep)
             else
               && view.base <= firsts[0] && view.Reopened(keep) == firsts[0] + cursor.off
               && cursor.seqNo == kept[0].seqNo && cursor.off <= |kept[0].recs|
               && firsts[|kept| - 1] <= Max(view.synced, view.base)
    ensures Placed(kept, firsts, cursor, view.Open(keep, firm))
  {
    if kept != [] {
      FirstsGrow(kept, firsts, view.log[..keep], 0, |kept| - 1);
      TileEnds(kept, firsts, view.log[..keep], |kept| - 1);
      TileEnds(kept, firsts, view.log[..keep], 0);
      assert MarksIn(kept, firsts, cursor, view.Reopened(keep), 0);
    }
  }

  /** The cursor file reaches as far into what is kept. */
  lemma LoadFiled(
    scanned: seq<Segment>, next: nat, saved: Option<Cursor>, firsts: seq<nat>, view: Lane, keep: nat, firm: nat, j: nat)
    requires OnDisk(scanned, next, saved, firsts, view, keep) && CutAt(scanned, Loaded(saved, scanned).seqNo, j)
    ensures Filed(scanned[j..], next, saved, firsts[j..], view.Open(keep, firm))
  {
    if saved.Some? && scanned != [] && saved.value.seqNo >= scanned[0].seqNo {
      var c := saved.value;
      if Detached(view, keep) {
        if m :| ReachesInto(scanned, firsts, c, Min(view.file, keep), m) {
          CutIsAt(scanned, next, c.seqNo, j, m);
          assert ReachesInto(scanned[j..], firsts[j..], c, Min(view.file, keep), 0);
        } else {
          CutIsEnd(scanned, next, c.seqNo, j);
        }
      } else {
        MarkedAtCut(scanned, next, firsts, c, view.disk, j);
        assert MarksIn(scanned[j..], firsts[j..], c, view.disk, 0);
      }
    }
  }

  lemma TornIsOnDisk(
    segs: seq<Segment>, cursor: Cursor, nextSeq: nat, saved: Option<Cursor>, firsts: seq<nat>, view: Lane,
    lost: nat, next: nat)
    requires Sound(segs, cursor, nextSeq, saved, firsts, view) && lost <= |view.log| - Max(view.synced, view.base)
    requires segs == [] || lost <= |segs[|segs| - 1].recs|
    requires Numbered(Torn(segs, lost), next) && (segs == [] ==> next == 1)
    ensures OnDisk(Torn(segs, lost), next, saved, firsts, view, |view.log| - lost)
  {
    TornSound(segs, nextSeq, firsts, view.log, lost);
    TornKeepsFile(segs, nextSeq, saved, firsts, view, lost);
    if segs != [] {
      FirstsGrow(segs, firsts, view.log, 0, |segs| - 1);
      TileEnds(segs, firsts, view.log, |segs| - 1);
    }
  }

  lemma TornKeepsFile(segs: seq<Segment>, nextSeq: nat, saved: Option<Cursor>, firsts: seq<nat>, view: Lane, lost: nat)
    requires Numbered(segs, nextSeq) && Tiled(segs, firsts, view.log) && Filed(segs, nextSeq, saved, firsts, view)
    requires view.Valid() && lost <= |view.log|
    requires if segs == [] then lost == 0 else lost <= |segs[|segs| - 1].recs|
    ensures |Torn(segs, lost)| == |firsts|
    ensures saved.Some? ==>
              if Detached(view, |view.log| - lost)
              then Reaches(Torn(segs, lost), firsts, saved.value, Min(view.file, |view.log| - lost), |view.log| - lost)
              else Marks(Torn(segs, lost), firsts, saved.value, view.disk)
  {
    if saved.Some? {
      if view.stale {
        TornKeepsReach(segs, nextSeq, firsts, view.log, lost, saved.value, view.file);
      } else if |view.log| - lost < view.disk {
        TornPastMark(segs, nextSeq, firsts, view.log, lost, saved.value, view.disk);
      } else {
        TornKeepsMark(segs, nextSeq, firsts, view.log, lost, saved.value, view.disk);
      }
    }
  }

  /** Cursor c points past the end of the newest segment, its own. */
  predicate PastEnd(segs: seq<Segment>, c: Cursor) {
    segs != [] && segs[|segs| - 1].seqNo == c.seqNo && c.off > |segs[|segs| - 1].recs|
  }

  /** A mark among the records that go leaves the cursor past the end of the newest segment. */
  lemma TornPastMark(
    segs: seq<Segment>, nextSeq: nat, firsts: seq<nat>, log: seq<Record>, lost: nat, c: Cursor, at: nat)
    requires Numbered(segs, nextSeq) && Tiled(segs, firsts, log) && |log| - lost < at <= |log|
    requires segs != [] && lost <= |segs[|segs| - 1].recs| && Marks(segs, firsts, c, at)
    ensures PastEnd(Torn(segs, lost), c)
    ensures Reaches(Torn(segs, lost), firsts, c, |log| - lost, |log| - lost)
  {
    var last := |segs| - 1;
    TileEnds(segs, firsts, log, last);
    FirstsGrow(segs, firsts, log, 0, last);
    var m :| MarksIn(segs, firsts, c, at, m);
    if m < last {
      TileEnds(segs, firsts, log, m);
      FirstsGrow(segs, firsts, log, m + 1, last);
    }
    assert ReachesInto(Torn(segs, lost), firsts, c, |log| - lost, last);
  }

  /** While the file means the durable position, it points past the end of its segment after a loss exactly if the
    * loss took records it has as consumed. */
  lemma PastEndIff(segs: seq<Segment>, nextSeq: nat, saved: Option<Cursor>, firsts: seq<nat>, view: Lane, lost: nat)
    requires Numbered(segs, nextSeq) && Tiled(segs, firsts, view.log) && Filed(segs, nextSeq, saved, firsts, view)
    requires view.Valid() && !view.stale && lost <= |view.log| && saved.Some?
    requires segs != [] && lost <= |segs[|segs| - 1].recs|
    ensures PastEnd(Torn(segs, lost), saved.value) <==> |view.log| - lost < view.disk
  {
    if |view.log| - lost < view.disk {
      TornPastMark(segs, nextSeq, firsts, view.log, lost, saved.value, view.disk);
    } else {
      TileEnds(segs, firsts, view.log, |segs| - 1);
    }
  }

  // ---------------------------------------------------------------- what Open skips

  /** Cursor c lies behind record k of the segment numbered seqNo. */
  predicate IsBefore(seqNo: nat, k: nat, c: Cursor) {
    seqNo < c.seqNo || (seqNo == c.seqNo && k < c.off)
  }

  /** Cursor c lies behind some record of the segments that is not durably consumed. */
  ghost predicate Covers(scanned: seq<Segment>, firsts: seq<nat>, disk: nat, c: Cursor)
    requires |firsts| == |scanned|
  {
    exists i, k :: CoversIn(scanned, firsts, disk, c, i, k)
  }

  ghost predicate CoversIn(scanned: seq<Segment>, firsts: seq<nat>, disk: nat, c: Cursor, i: nat, k: nat)
    requires |firsts| == |scanned|
  {
    && i < |scanned| && k < |scanned[i].recs| && firsts[i] + k >= disk && IsBefore(scanned[i].seqNo, k, c)
  }

  /** Reading from `cur` leaves behind a surviving record that was not durably consumed. */
  ghost predicate SkipsRecord(scanned: seq<Segment>, firsts: seq<nat>, disk: nat, cur: nat)
    requires |firsts| == |scanned|
  {
    scanned != [] && Max(disk, firsts[0]) < cur
  }

  /** A cursor file reaches past a record exactly if its number and offset lie behind it. */
  lemma ReachDecides(
    segs: seq<Segment>, next: nat, firsts: seq<nat>, log: seq<Record>, c: Cursor, file: nat, i: nat, k: nat)
    requires Numbered(segs, next) && Tiled(segs, firsts, log) && Reaches(segs, firsts, c, file, |log|)
    requires i < |segs| && k < |segs[i].recs|
    ensures firsts[i] + k < file <==> IsBefore(segs[i].seqNo, k, c)
  {
    FirstsGrow(segs, firsts, log, 0, i);
    TileEnds(segs, firsts, log, i);
    if m :| ReachesInto(segs, firsts, c, file, m) {
      if i < m {
        FirstsGrow(segs, firsts, log, i + 1, m);
      } else if m < i {
        TileEnds(segs, firsts, log, m);
        FirstsGrow(segs, firsts, log, m + 1, i);
      }
    }
  }

  /** The segment that holds position p. */
  lemma {:induction false} Holder(segs: seq<Segment>, firsts: seq<nat>, log: seq<Record>, p: nat, n: nat)
    returns (i: nat)
    requires Tiled(segs, firsts, log) && n < |segs| && firsts[0] <= p < End(segs, firsts, n)
    ensures i <= n && firsts[i] <= p < End(segs, firsts, i)
    decreases n
  {
    i := n;
    if p < firsts[n] {
      TileEnds(segs, firsts, log, n - 1);
      i := Holder(segs, firsts, log, p, n - 1);
    }
  }

  /** Open skips a record it found that was not durably consumed exactly if the class is stale and its cursor file
    * lies behind one. */
  lemma SkipsIffStale(scanned: seq<Segment>, next: nat, saved: Option<Cursor>, firsts: seq<nat>, view: Lane, keep: nat)
    requires OnDisk(scanned, next, saved, firsts, view, keep)
    ensures SkipsRecord(scanned, firsts, view.disk, view.Reopened(keep)) <==>
              view.stale && Covers(scanned, firsts, view.disk, saved.value)
  {
    if view.stale && scanned != [] {
      var c, log, file: nat := saved.value, view.log[..keep], Min(view.file, keep);
      var at := Max(view.disk, firsts[0]);
      TileEnds(scanned, firsts, log, |scanned| - 1);
      if at < view.Reopened(keep) {
        var i := Holder(scanned, firsts, log, at, |scanned| - 1);
        ReachDecides(scanned, next, firsts, log, c, file, i, at - firsts[i]);
        assert CoversIn(scanned, firsts, view.disk, c, i, at - firsts[i]);
      }
      if i, k :| CoversIn(scanned, firsts, view.disk, c, i, k) {
        FirstsGrow(scanned, firsts, log, 0, i);
        ReachDecides(scanned, next, firsts, log, c, file, i, k);
      }
    }
  }

  /** Scans what is left. */
  method ScanClass(
    segs: seq<Segment>, ghost cursor: Cursor, nextSeq: nat, saved: Option<Cursor>, ghost firsts: seq<nat>,
    ghost view: Lane, lost: nat, ghost keep: nat)
    returns (scanned: seq<Segment>, next: nat)
    requires Sound(segs, cursor, nextSeq, saved, firsts, view) && lost <= |view.log| - Max(view.synced, view.base)
    requires segs == [] || lost <= |segs[|segs| - 1].recs|
    requires keep == |view.log| - lost
    ensures scanned == Torn(segs, lost)
    ensures next >= 1 && OnDisk(scanned, next, saved, firsts, view, keep)
    ensures segs == [] ==> next == 1
  {
    TornSound(segs, nextSeq, firsts, view.log, lost);
    scanned := Torn(segs, lost);
    next := NextNumber(scanned, nextSeq);
    TornIsOnDisk(segs, cursor, nextSeq, saved, firsts, view, lost, next);
  }

  /** Drops what the cursor file has as consumed and normalises the cursor. Whatever was `firm` stays so, and with
    * every segment deleted nothing can be lost any more. */
  method LoadClass(
    scanned: seq<Segment>, next: nat, saved: Option<Cursor>, ghost firsts: seq<nat>, ghost view: Lane,
    ghost keep: nat, ghost firm: nat)
    returns (kept: seq<Segment>, cursor: Cursor, ghost firsts': seq<nat>, ghost view': Lane)
    requires OnDisk(scanned, next, saved, firsts, view, keep) && next >= 1 && view.synced <= firm <= keep
    ensures view' == view.Open(keep, if kept == [] then keep else firm)
    ensures Sound(kept, cursor, next, saved, firsts', view')
    ensures if kept == [] then saved.Some? ==> !PastEnd(scanned, saved.value)
            else scanned != [] && kept[|kept| - 1] == scanned[|scanned| - 1]
    ensures scanned == [] ==> kept == []
  {
    var c := Loaded(saved, scanned);
    ghost var j: nat;
    kept, j := KeepFrom(scanned, next, c.seqNo);
    ghost var firm' := if kept == [] then keep else firm;
    LoadSound(scanned, next, saved, firsts, view, keep, firm', j);
    view' := view.Open(keep, firm');
    cursor, firsts' := Normalized(c, kept), firsts[j..];
  }

  /** A class becomes stale when Open finds its cursor file beside no segment, or pointing past the end of one. */
  lemma StaleFrom(
    segs: seq<Segment>, cursor: Cursor, nextSeq: nat, saved: Option<Cursor>, firsts: seq<nat>, view: Lane, lost: nat,
    firm: nat)
    requires Sound(segs, cursor, nextSeq, saved, firsts, view) && lost <= |view.log| - Max(view.synced, view.base)
    requires segs == [] || lost <= |segs[|segs| - 1].recs|
    ensures view.Open(|view.log| - lost, firm).stale <==>
              view.stale || (saved.Some? && (segs == [] || PastEnd(Torn(segs, lost), saved.value)))
  {
    if !view.stale && saved.Some? && segs != [] {
      PastEndIff(segs, nextSeq, saved, firsts, view, lost);
    }
  }

  lemma LossIsInNewest(
    segs: seq<Segment>, cursor: Cursor, nextSeq: nat, saved: Option<Cursor>, firsts: seq<nat>, view: Lane, lost: nat)
    requires Sound(segs, cursor, nextSeq, saved, firsts, view) && lost <= |view.log| - Max(view.synced, view.base)
    ensures if segs == [] then lost == 0 else lost <= |segs[|segs| - 1].recs|
  {
    if segs != [] {
      TileEnds(segs, firsts, view.log, |segs| - 1);
    }
  }

  /** The class is stale, and the cursor file lies behind a record that is left and was not durably consumed. */
  ghost predicate LiesBehind(segs: seq<Segment>, firsts: seq<nat>, view: Lane, saved: Option<Cursor>, lost: nat)
    requires |firsts| == |segs|
  {
    view.stale && saved.Some? && Covers(Torn(segs, lost), firsts, view.disk, saved.value)
  }

  /** The class was stale, or the cursor file is found beside no segment or pointing past the end of its own. */
  predicate GoesStale(segs: seq<Segment>, view: Lane, saved: Option<Cursor>, lost: nat) {
    view.stale || (saved.Some? && (segs == [] || PastEnd(Torn(segs, lost), saved.value)))
  }

  /** What Open skips, and when the class is stale from then on. */
  lemma OpenSkipsIff(
    segs: seq<Segment>, cursor: Cursor, nextSeq: nat, saved: Option<Cursor>, firsts: seq<nat>, view: Lane, lost: nat,
    firm: nat)
    requires Sound(segs, cursor, nextSeq, saved, firsts, view) && lost <= |view.log| - Max(view.synced, view.base)
    ensures SkipsRecord(segs, firsts, view.disk, view.Reopened(|view.log| - lost)) <==>
              LiesBehind(segs, firsts, view, saved, lost)
    ensures view.Open(|view.log| - lost, firm).stale <==> GoesStale(segs, view, saved, lost)
  {
    LossIsInNewest(segs, cursor, nextSeq, saved, firsts, view, lost);
    TornSound(segs, nextSeq, firsts, view.log, lost);
    var next := if segs == [] then 1 else nextSeq;
    TornIsOnDisk(segs, cursor, nextSeq, saved, firsts, view, lost, next);
    SkipsIffStale(Torn(segs, lost), next, saved, firsts, view, |view.log| - lost);
    StaleFrom(segs, cursor, nextSeq, saved, firsts, view, lost, firm);
  }

  /** Why a class is opened again; a dead process may have left its last record torn. */
  datatype Crash = PowerCut | ProcessDied(torn: bool)

  /** What survives the next power cut: all that was found on the disk or synced with a torn tail, and when every
    * segment is deleted there is nothing to lose; otherwise what was synced before. */
  function FirmAfter(view: Lane, crash: Crash, lost: nat, kept: seq<Segment>): nat
    requires lost <= |view.log|
  {
    if crash == ProcessDied(false) && kept != [] then view.synced else |view.log| - lost
  }

  /** Open, of a class that has lost its newest `lost` records. */
  method Recover(
    segs: seq<Segment>, ghost cursor: Cursor, nextSeq: nat, saved: Option<Cursor>, ghost firsts: seq<nat>,
    ghost view: Lane, ghost crash: Crash, lost: nat)
    returns (kept: seq<Segment>, start: Cursor, next: nat, ghost firsts': seq<nat>, ghost view': Lane)
    requires Sound(segs, cursor, nextSeq, saved, firsts, view) && lost <= |view.log| - Max(view.synced, view.base)
    ensures Sound(kept, start, next, saved, firsts', view')
    ensures view' == view.Open(|view.log| - lost, FirmAfter(view, crash, lost, kept))
    ensures segs == [] ==> kept == [] && next == 1
    ensures if kept == [] then saved.Some? ==> !PastEnd(Torn(segs, lost), saved.value)
            else segs != [] && kept[|kept| - 1] == Torn(segs, lost)[|segs| - 1]
  {
    var scanned;
    ghost var keep: nat := |view.log| - lost;
    LossIsInNewest(segs, cursor, nextSeq, saved, firsts, view, lost);
    scanned, next := ScanClass(segs, cursor, nextSeq, saved, firsts, view, lost, keep);
    ghost var firm := if crash == ProcessDied(false) then view.synced else keep;
    kept, start, firsts', view' := LoadClass(scanned, next, saved, firsts, view, keep, firm);
  }
}

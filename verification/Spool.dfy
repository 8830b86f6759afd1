/** One priority class as internal/spool keeps it: a list of segment files, a read cursor into them and a cursor
  * file, proved to implement the contract of Lanes through eviction, crashes and reopening. */
module Spool {
  import opened Prelude
  import opened Lanes
  import opened Segments
  import opened Recovery

  const SEG_CAP := 256 * 1024

  lemma GatherOne(log: seq<Record>, start: nat, recs: seq<Record>, r: Record, max: int, maxBytes: int)
    requires start + |recs| < |log| && recs == log[start..start + |recs|] && r == log[start + |recs|]
    requires Greedy(recs, max, maxBytes) && Takes(recs, r, max, maxBytes)
    ensures recs + [r] == log[start..start + |recs + [r]|] && Bytes(recs + [r]) == Bytes(recs) + r.size
    ensures Greedy(recs + [r], max, maxBytes)
  {
    GreedyGrows(recs, r, max, maxBytes);
  }

  /** Reads on from record `off` of segment i until the limits stop it. */
  method Gather(
    segs: seq<Segment>, ghost firsts: seq<nat>, ghost log: seq<Record>, i0: nat, off0: nat, max: int, maxBytes: int)
    returns (recs: seq<Record>)
    requires Tiled(segs, firsts, log) && i0 < |segs| && off0 <= |segs[i0].recs|
    ensures var start := firsts[i0] + off0;
            && start + |recs| <= |log| && recs == log[start..start + |recs|] && Greedy(recs, max, maxBytes)
            && (start + |recs| < |log| ==> !Takes(recs, log[start + |recs|], max, maxBytes))
  {
    recs := [];
    var i: nat, off: nat, acc := i0, off0, 0;
    ghost var start := firsts[i0] + off0;
    TileEnds(segs, firsts, log, i0);
    while i < |segs|
      invariant i <= |segs| && acc == Bytes(recs) && Greedy(recs, max, maxBytes)
      invariant start + |recs| <= |log| && recs == log[start..start + |recs|]
      invariant if i < |segs| then off <= |segs[i].recs| && firsts[i] + off == start + |recs|
                else start + |recs| == |log|
      decreases |segs| - i, (if i < |segs| then |segs[i].recs| else 0) - off
    {
      if off == |segs[i].recs| {
        TileEnds(segs, firsts, log, i);
        i, off := i + 1, 0;
      } else {
        var r := segs[i].recs[off];
        RecordAt(segs, firsts, log, i, off);
        if (max > 0 && |recs| >= max) || (maxBytes > 0 && recs != [] && acc + r.size > maxBytes) {
          return;
        }
        GatherOne(log, start, recs, r, max, maxBytes);
        recs, acc, off := recs + [r], acc + r.size, off + 1;
      }
    }
  }

  /** Where segment i lies against the read position. */
  lemma CursorAgainst(segs: seq<Segment>, cursor: Cursor, nextSeq: nat, firsts: seq<nat>, view: Lane, i: nat)
    requires Numbered(segs, nextSeq) && Tiled(segs, firsts, view.log)
    requires Placed(segs, firsts, cursor, view) && i < |segs|
    ensures segs[i].seqNo < cursor.seqNo ==> End(segs, firsts, i) <= view.cur
    ensures segs[i].seqNo == cursor.seqNo ==> firsts[i] + cursor.off == view.cur <= End(segs, firsts, i)
    ensures segs[i].seqNo == cursor.seqNo && i > 0 ==> End(segs, firsts, i - 1) <= view.cur
    ensures segs[i].seqNo > cursor.seqNo ==> view.cur <= firsts[i]
  {
    if cursor.seqNo < segs[0].seqNo {
      FirstsGrow(segs, firsts, view.log, 0, i);
    } else {
      var m :| MarksIn(segs, firsts, cursor, view.cur, m);
      TileEnds(segs, firsts, view.log, m);
      if i < m {
        TileEnds(segs, firsts, view.log, i);
        FirstsGrow(segs, firsts, view.log, i + 1, m);
      } else if m < i {
        FirstsGrow(segs, firsts, view.log, m + 1, i);
      } else if i > 0 {
        TileEnds(segs, firsts, view.log, i - 1);
      }
    }
  }

  predicate Fits(seg: Segment, r: Record) {
    Bytes(seg.recs) + r.size <= SEG_CAP
  }

  predicate NeedsSegment(segs: seq<Segment>, r: Record) {
    segs == [] || (segs[|segs| - 1].recs != [] && !Fits(segs[|segs| - 1], r))
  }

  /** The segments once there is room for r. */
  function WithRoom(segs: seq<Segment>, nextSeq: nat, r: Record): (room: seq<Segment>)
    ensures room != []
  {
    if NeedsSegment(segs, r) then segs + [Segment(nextSeq, [])] else segs
  }

  /** Whether the next record comes to lie within the cursor file's reach. */
  predicate Under(room: seq<Segment>, saved: Option<Cursor>)
    requires room != []
  {
    saved.Some? && NextIsUnder(room, saved.value)
  }

  class Fifo {
    var segs: seq<Segment>
    var writing: bool // the newest segment is open for appending
    var cursor: Cursor
    var nextSeq: nat
    var saved: Option<Cursor>
    ghost var view: Lane
    ghost var firsts: seq<nat>

    ghost predicate Valid()
      reads this
    {
      Sound(segs, cursor, nextSeq, saved, firsts, view) && view.writing == writing
    }

    constructor ()
      ensures Valid() && view == EMPTY && saved.None? && segs == []
    {
      segs, writing, cursor, nextSeq, saved := [], false, Cursor(0, 0), 1, None;
      view, firsts := EMPTY, [];
    }

    method NewSegment()
      requires Valid()
      modifies `segs, `writing, `nextSeq, `firsts, `view
      ensures Valid() && view == old(view).Sync().(empty := false, writing := true)
      ensures segs == old(segs) + [Segment(old(nextSeq), [])] && firsts == old(firsts) + [|view.log|]
    {
      NewSegmentSound(segs, cursor, nextSeq, saved, firsts, view);
      segs, writing := segs + [Segment(nextSeq, [])], true;
      nextSeq := nextSeq + 1;
      firsts := firsts + [|view.log|];
      view := view.Sync().(empty := false, writing := true);
    }

    method AppendToNewest(r: Record)
      requires Valid() && segs != []
      modifies `segs, `writing, `view
      ensures Valid() && segs == Extended(old(segs), r)
      ensures view == old(view).Append(r, Under(old(segs), saved))
    {
      AppendSound(segs, cursor, nextSeq, saved, firsts, view, r);
      view := view.Append(r, Under(segs, saved));
      segs, writing := Extended(segs, r), true;
    }

    /** One record more; a segment rotated out on the way was synced. */
    method Append(r: Record)
      requires Valid()
      modifies `segs, `writing, `nextSeq, `firsts, `view
      ensures Valid()
      ensures var room := WithRoom(old(segs), old(nextSeq), r);
              && segs == Extended(room, r)
              && var before := if NeedsSegment(old(segs), r) then old(view).Sync() else old(view);
                 view == before.Append(r, Under(room, saved))
    {
      if NeedsSegment(segs, r) {
        NewSegment();
      }
      AppendToNewest(r);
    }

    /** Drops the oldest segment, whatever of it is still unread. */
    method EvictOldest() returns (evicted: bool)
      requires Valid()
      modifies `segs, `writing, `cursor, `firsts, `view
      ensures Valid()
      ensures evicted <==> old(segs) != []
      ensures evicted ==>
                && segs == old(segs)[1..]
                && view == old(view).Evict(End(old(segs), old(firsts), 0), |old(segs)| == 1)
      ensures !evicted ==> view == old(view) && segs == []
    {
      if segs == [] {
        return false;
      }
      EvictSound(segs, cursor, nextSeq, saved, firsts, view);
      view := view.Evict(End(segs, firsts, 0), |segs| == 1);
      if cursor.seqNo == segs[0].seqNo {
        cursor := if |segs| > 1 then Cursor(segs[1].seqNo, 0) else Cursor(0, 0);
      }
      segs, writing, firsts := segs[1..], writing && |segs| > 1, firsts[1..];
      return true;
    }

    // ---------------------------------------------------------------- commit

    /** Where the read cursor starts: its own segment, or the oldest one. */
    method Start() returns (i: nat, off: nat)
      requires Valid() && segs != []
      ensures i < |segs| && off <= |segs[i].recs| && firsts[i] + off == view.cur
    {
      i := 0;
      while i < |segs|
        invariant i <= |segs| && forall j | 0 <= j < i :: segs[j].seqNo != cursor.seqNo
      {
        if segs[i].seqNo == cursor.seqNo {
          ghost var m :| MarksIn(segs, firsts, cursor, view.cur, m);
          return i, cursor.off;
        }
        i := i + 1;
      }
      return 0, 0;
    }

    /** How much is pending, segment by segment: nothing below the cursor's, the rest of its own, all above. */
    method PendingCount() returns (count: nat)
      requires Valid()
      ensures count == |view.Pending()|
    {
      count := 0;
      var i := 0;
      while i < |segs|
        invariant i <= |segs|
        invariant count == if i == 0 then 0 else Max(0, End(segs, firsts, i - 1) - view.cur)
      {
        TileEnds(segs, firsts, view.log, i);
        CursorAgainst(segs, cursor, nextSeq, firsts, view, i);
        if i > 0 {
          TileEnds(segs, firsts, view.log, i - 1);
        }
        if segs[i].seqNo == cursor.seqNo {
          count := count + (|segs[i].recs| - cursor.off);
        } else if segs[i].seqNo > cursor.seqNo {
          count := count + |segs[i].recs|;
        }
        i := i + 1;
      }
    }

    /** The oldest pending records, as many as the limits let one Peek take; nothing is consumed. */
    method Peek(max: int, maxBytes: int) returns (recs: seq<Record>)
      requires Valid()
      ensures recs <= view.Pending() && Greedy(recs, max, maxBytes)
      ensures |recs| < |view.Pending()| ==> !Takes(recs, view.Pending()[|recs|], max, maxBytes)
    {
      if segs == [] {
        return [];
      }
      var i: nat, off: nat := Start();
      recs := Gather(segs, firsts, view.log, i, off, max, maxBytes);
    }

    /** Steps over at most n records from the cursor; endIdx and endOff say where the last one ends. */
    method Walk(n: nat) returns (walked: nat, endIdx: nat, endOff: nat)
      requires Valid()
      ensures walked == Min(n, |view.log| - view.cur)
      ensures walked > 0 ==>
                endIdx < |segs| && 0 < endOff <= |segs[endIdx].recs| && firsts[endIdx] + endOff == view.cur + walked
    {
      walked, endIdx, endOff := 0, 0, 0;
      if segs == [] {
        return;
      }
      var i: nat, off: nat := Start();
      while i < |segs| && walked < n
        invariant walked <= n && i <= |segs|
        invariant i < |segs| ==> off <= |segs[i].recs| && firsts[i] + off == view.cur + walked
        invariant i == |segs| ==> |view.log| == view.cur + walked
        invariant walked > 0 ==>
            endIdx < |segs| && 0 < endOff <= |segs[endIdx].recs| && firsts[endIdx] + endOff == view.cur + walked
        decreases |segs| - i, (if i < |segs| then |segs[i].recs| else 0) - off
      {
        TileEnds(segs, firsts, view.log, i);
        if off < |segs[i].recs| {
          off, walked := off + 1, walked + 1;
          endIdx, endOff := i, off;
        } else {
          i, off := i + 1, 0;
        }
      }
      if i < |segs| {
        TileEnds(segs, firsts, view.log, i);
      }
    }

    /** Deletes exactly the segments below the cursor. */
    method GcConsumed()
      requires Valid() && saved == Some(cursor) && segs != [] && cursor.seqNo >= segs[0].seqNo
      requires !view.stale && view.disk == view.cur
      modifies `segs, `firsts
      ensures Valid()
      ensures exists j: nat :: CutAt(old(segs), cursor.seqNo, j) && segs == old(segs)[j..]
    {
      ghost var j: nat;
      var kept: seq<Segment>;
      kept, j := KeepFrom(segs, nextSeq, cursor.seqNo);
      GcSound(segs, cursor, nextSeq, firsts, view, j);
      firsts := firsts[j..];
      segs := kept;
    }

    method MoveCursor(n: nat, endIdx: nat, endOff: nat, end: CommitEnd, cut: bool)
      requires Valid() && !end.SyncFails? && endIdx < |segs| && 0 < endOff <= |segs[endIdx].recs|
      requires firsts[endIdx] + endOff == view.Advance(n).cur
      modifies `cursor, `saved, `segs, `firsts, `view
      ensures Valid()
      ensures view == if end.CursorFails? then old(view).Advance(n) else old(view).Commit(n)
    {
      AdvanceSound(segs, cursor, nextSeq, saved, firsts, view, n, endIdx, endOff);
      cursor := Landed(segs, endIdx, endOff);
      if end.CursorFails? {
        view := view.Advance(n);
        return;
      }
      view := view.Commit(n);
      saved := Some(cursor);
      if !cut {
        GcConsumed();
      }
    }

    /** Consumes the n oldest pending records, syncing them first if a segment is open for writing; `cut` leaves the
      * consumed segment files behind, as a power cut after the cursor write does. */
    method Commit(n: nat, end: CommitEnd, cut: bool) returns (ok: bool)
      requires Valid()
      modifies this
      ensures Valid()
      ensures view == if n == 0 || old(view).Pending() == [] || end.SyncFails? then old(view)
                      else if end.CursorFails? then old(view).Advance(n) else old(view).Commit(n)
      ensures ok <==> end.Ok? || n == 0 || old(view).Pending() == []
    {
      if n == 0 {
        return true;
      }
      var walked, endIdx, endOff := Walk(n);
      if walked == 0 {
        return true;
      }
      if !end.SyncFails? {
        MoveCursor(n, endIdx, endOff, end, cut);
      }
      return end.Ok?;
    }

    // ---------------------------------------------------------------- power cut and Open

    /** Starts a process on what is on the disk. */
    method Load(segs': seq<Segment>, start: Cursor, next: nat, ghost firsts': seq<nat>, ghost view': Lane)
      requires Sound(segs', start, next, saved, firsts', view') && !view'.writing
      modifies `segs, `writing, `cursor, `nextSeq, `firsts, `view
      ensures Valid() && segs == segs' && nextSeq == next && view == view'
    {
      segs, writing, cursor, nextSeq, firsts, view := segs', false, start, next, firsts', view';
    }

    /** What a new process makes of what is left. */
    method Found(crash: Crash, lost: nat)
      returns (kept: seq<Segment>, start: Cursor, next: nat, ghost firsts': seq<nat>, ghost view': Lane)
      requires Valid() && lost <= |view.log| - Max(view.synced, view.base)
      ensures Sound(kept, start, next, saved, firsts', view')
      ensures view' == view.Open(|view.log| - lost, FirmAfter(view, crash, lost, kept))
      ensures segs == [] ==> kept == [] && next == 1
      ensures if kept == [] then saved.Some? ==> !PastEnd(Torn(segs, lost), saved.value)
              else segs != [] && kept[|kept| - 1] == Torn(segs, lost)[|segs| - 1]
    {
      kept, start, next, firsts', view' := Recover(segs, cursor, nextSeq, saved, firsts, view, crash, lost);
    }

    method Open(crash: Crash, lost: nat)
      requires Valid() && lost <= |view.log| - Max(view.synced, if crash.PowerCut? then view.base else view.cur)
      modifies `segs, `writing, `cursor, `nextSeq, `firsts, `view
      ensures Valid()
      ensures view == old(view).Open(|old(view).log| - lost, FirmAfter(old(view), crash, lost, segs))
      ensures old(segs) == [] ==> segs == [] && nextSeq == 1
      ensures if segs == [] then saved.Some? ==> !PastEnd(Torn(old(segs), lost), saved.value)
              else old(segs) != [] && segs[|segs| - 1] == Torn(old(segs), lost)[|old(segs)| - 1]
    {
      ghost var firsts', view';
      var kept, start, next;
      kept, start, next, firsts', view' := Found(crash, lost);
      Load(kept, start, next, firsts', view');
    }

    lemma OpenSkips(lost: nat)
      requires Valid() && lost <= |view.log| - Max(view.synced, view.base)
      ensures SkipsRecord(segs, firsts, view.disk, view.Reopened(|view.log| - lost)) <==>
                LiesBehind(segs, firsts, view, saved, lost)
      ensures view.Open(|view.log| - lost, 0).stale <==> GoesStale(segs, view, saved, lost)
    {
      OpenSkipsIff(segs, cursor, nextSeq, saved, firsts, view, lost, 0);
    }

    /** The newest `lost` records are gone, with the power if they were not synced or with the process if they were
      * still in its buffer, and Open recovers the rest. It skips a record it finds that was not durably consumed
      * exactly if the class is stale and the cursor file lies behind one; and it is stale exactly if, since the last
      * commit, an Open found the file beside no segment or pointing past the end of its own. */
    method Reopen(crash: Crash, lost: nat)
      requires Valid() && lost <= |view.log| - Max(view.synced, if crash.PowerCut? then view.base else view.cur)
      modifies `segs, `writing, `cursor, `nextSeq, `firsts, `view
      ensures Valid()
      ensures view == old(view).Open(|old(view).log| - lost, FirmAfter(old(view), crash, lost, segs))
      ensures SkipsRecord(old(segs), old(firsts), old(view).disk, view.cur) <==>
                LiesBehind(old(segs), old(firsts), old(view), old(saved), lost)
      ensures view.stale <==> GoesStale(old(segs), old(view), old(saved), lost)
    {
      OpenSkips(lost);
      Open(crash, lost);
    }
  }

  /** Open promises to redeliver rather than skip. But once a class with a cursor file has lost its last segment to
    * eviction, one restart restarts the numbering, and the next one skips the record appended between. */
  method StaleCursorSkips(f: Fifo, r: Record, first: Crash, second: Crash)
    requires f.Valid() && f.segs == [] && f.saved.Some?
    modifies f
    ensures f.Valid() && f.view.log == old(f.view).log + [r]
    ensures f.view.Pending() == [] && f.view.disk <= |old(f.view).log|
  {
    f.Open(first, 0);
    f.Append(r);
    f.Open(second, 0);
  }

  /** Commit promises that the cursor never passes synced data. But a process that found records and has not written
    * to the class since does not sync them: after one process has appended and died, the next one commits durably
    * what a power cut can still take. */
  method CommitsUnsynced(f: Fifo, r: Record)
    requires f.Valid() && f.view == EMPTY && f.segs == [] && f.saved.None?
    modifies f
    ensures f.Valid() && f.view == Plain([r], 0, 1, 1, 0, true, false).(writing := false)
  {
    f.Append(r);
    f.Open(ProcessDied(false), 0);
    var ok := f.Commit(1, Ok, false);
  }

  /** Then the power goes and takes the newest of them; Open finds the cursor file past the end of its segment, and
    * though it clamps its own cursor the file stays. A record of the same size, appended in place of the lost one, is
    * skipped by the Open after that, synced or not. */
  method UnsyncedCommitSkips(f: Fifo, r: Record, again: Crash)
    requires f.Valid() && !f.view.stale && f.view.disk == |f.view.log| > Max(f.view.synced, f.view.base)
    requires f.segs != [] && Fits(f.segs[|f.segs| - 1], r) && r.size == f.view.log[|f.view.log| - 1].size
    modifies f
    ensures f.Valid() && f.view.log == old(f.view).log[..|old(f.view).log| - 1] + [r]
    ensures f.view.Pending() == [] && f.view.disk == |old(f.view).log| - 1
  {
    ShorterFits(f.segs[|f.segs| - 1], r);
    f.OpenSkips(1);
    f.Open(PowerCut, 1);
    f.Append(r);
    f.Open(again, 0);
  }

  lemma ShorterFits(seg: Segment, r: Record)
    requires Fits(seg, r)
    ensures Fits(seg.(recs := seg.recs[..Max(|seg.recs| - 1, 0)]), r)
  {
  }
}

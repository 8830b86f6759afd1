/** The contract of one priority class of the spool, as the uplink relies on it: everything ever appended, in
  * order, with positions into it. */
module Lanes {
  import opened Prelude

  datatype Stream = Events | Health | Plan | Telemetry

  /** `id` is the arrival number; `size` the bytes the record takes on disk. */
  datatype Record = Record(id: nat, stream: Stream, size: nat)

  /** Positions into everything ever appended: records before `base` were evicted; those before `cur` are consumed
    * as far as this process knows, those before `disk` durably; those before `synced` survive a power cut. While a
    * segment is open for `writing` a commit syncs the class. Opening starts at `file`, where the cursor file points.
    * That is `disk` unless the class is `stale`: since the last commit it was opened with a cursor file (`filed`) and
    * no segment (`empty`), when numbering restarts below the file's number, or a power cut took records the file has
    * as consumed, and it points past the end of its segment. */
  datatype Lane = Lane(
    log: seq<Record>, base: nat, cur: nat, disk: nat, synced: nat, file: nat, filed: bool, empty: bool, stale: bool,
    writing: bool)
  {
    predicate Valid() {
      && base <= cur <= |log| && disk <= cur && synced <= |log| && disk <= file <= |log|
      && (!filed ==> disk == 0 && !stale)
      && (!stale ==> file == disk)
      && (empty && !stale ==> base == |log|)
    }

    function Pending(): seq<Record>
      requires Valid()
    {
      log[cur..]
    }

    /** In a stale class `under` says whether the record lies within the cursor file's reach. */
    function Append(r: Record, under: bool): Lane {
      this.(log := log + [r], empty := false, writing := true,
            file := if stale && under && file == |log| then |log| + 1 else file)
    }

    function Sync(): Lane {
      this.(synced := |log|)
    }

    /** `last` says that no segment is left. */
    function Evict(upto: nat, last: bool): Lane {
      this.(base := upto, cur := Max(cur, upto), empty := last, writing := writing && !last,
            file := if stale then Max(file, upto) else file)
    }

    function Commit(n: nat): Lane {
      var end := Min(cur + n, |log|);
      Advance(n).(disk := end, file := end, filed := true, empty := false, stale := false)
    }

    /** The cursor file could not be written: consumed in memory only. What this process has not written to, it does
      * not sync. */
    function Advance(n: nat): Lane {
      this.(cur := Min(cur + n, |log|), synced := if writing then |log| else synced)
    }

    /** Where Open starts reading when the first `keep` records are still there. */
    function Reopened(keep: nat): nat {
      Max(Min(file, keep), base)
    }

    /** Open, on the first `keep` records, the first `firm` of which now survive a power cut. */
    function Open(keep: nat, firm: nat): Lane
      requires keep <= |log|
    {
      var restarts := empty && filed && !stale;
      Lane(log[..keep], base, Reopened(keep), Min(disk, keep), firm, if restarts then keep else Min(file, keep), filed,
           empty, stale || restarts || keep < disk, false)
    }

    /** After a power cut Open finds what was synced, and perhaps more; all of it is on the disk. */
    predicate CutTo(keep: nat) {
      Max(synced, base) <= keep <= |log|
    }

    /** After the process died Open finds all that had left its buffers, which is what was read and perhaps more. */
    predicate LeftWith(keep: nat, firm: nat) {
      Max(synced, cur) <= keep <= |log| && synced <= firm <= keep
    }

    predicate Opens(keep: nat, firm: nat) {
      (CutTo(keep) && firm == keep) || LeftWith(keep, firm)
    }

    /** The records found that Open leaves behind without their having been durably consumed or evicted. */
    function Skipped(keep: nat): seq<Record>
      requires Valid() && keep <= |log|
    {
      if Max(disk, base) < Reopened(keep) <= |log| then log[Max(disk, base)..Reopened(keep)] else []
    }
  }

  /** A class that is not stale and, unless it is empty, written to by this process. */
  function Plain(log: seq<Record>, base: nat, cur: nat, disk: nat, synced: nat, filed: bool, empty: bool): Lane {
    Lane(log, base, cur, disk, synced, disk, filed, empty, false, !empty)
  }

  /** Whatever Open takes as consumed was consumed before or is among the records it leaves behind. */
  lemma OpenConsumes(a: Lane, keep: nat, firm: nat, i: nat)
    requires a.Valid() && a.Opens(keep, firm) && i < a.Open(keep, firm).cur
    ensures a.Open(keep, firm).Valid() && a.Open(keep, firm).log[i] == a.log[i]
    ensures i < a.cur || a.log[i] in a.Skipped(keep)
  {
    if i >= Max(a.disk, a.base) {
      assert a.Skipped(keep)[i - Max(a.disk, a.base)] == a.log[i];
    }
  }

  /** What is on disk stays as it is, and what is durably consumed stays so for as long as it exists. */
  ghost predicate Kept(a: Lane, b: Lane) {
    && a.Valid() && b.Valid()
    && a.synced <= b.synced && a.log[..a.synced] <= b.log && a.base <= b.base
    && Min(a.disk, a.synced) <= b.disk
  }

  lemma GrowthKeepsDurable(a: Lane, r: Record, under: bool)
    requires a.Valid()
    ensures Kept(a, a) && Kept(a, a.Sync()) && Kept(a, a.Append(r, under))
  {
  }

  lemma EvictionKeepsDurable(a: Lane, upto: nat, last: bool)
    requires a.Valid() && a.base <= upto <= |a.log| && (last ==> upto == |a.log|)
    ensures Kept(a, a.Evict(upto, last))
  {
  }

  lemma CommitKeepsDurable(a: Lane, n: nat)
    requires a.Valid()
    ensures Kept(a, a.Commit(n)) && Kept(a, a.Advance(n))
  {
  }

  lemma OpenKeepsDurable(a: Lane, keep: nat, firm: nat)
    requires a.Valid() && a.Opens(keep, firm)
    ensures Kept(a, a.Open(keep, firm))
  {
  }

  const EMPTY := Plain([], 0, 0, 0, 0, false, true)

  /** How a commit ends: done, the data could not be synced, or the cursor file could not be written. */
  datatype CommitEnd = Ok | SyncFails | CursorFails

  // ---------------------------------------------------------------- how much one Peek takes

  function Bytes(recs: seq<Record>): nat {
    if recs == [] then 0 else Bytes(recs[..|recs| - 1]) + recs[|recs| - 1].size
  }

  /** Whether one Peek takes r after `recs`: at least one record, then up to `max` records and `maxBytes` bytes. */
  predicate Takes(recs: seq<Record>, r: Record, max: int, maxBytes: int) {
    && (max > 0 ==> |recs| < max)
    && (maxBytes > 0 && recs != [] ==> Bytes(recs) + r.size <= maxBytes)
  }

  ghost predicate Greedy(recs: seq<Record>, max: int, maxBytes: int) {
    forall k | 0 <= k < |recs| :: Takes(recs[..k], recs[k], max, maxBytes)
  }

  lemma GreedyGrows(recs: seq<Record>, r: Record, max: int, maxBytes: int)
    requires Greedy(recs, max, maxBytes) && Takes(recs, r, max, maxBytes)
    ensures Greedy(recs + [r], max, maxBytes) && Bytes(recs + [r]) == Bytes(recs) + r.size
  {
    forall k | 0 <= k < |recs| + 1
      ensures Takes((recs + [r])[..k], (recs + [r])[k], max, maxBytes)
    {
      assert (recs + [r])[..k] == recs[..k];
      assert recs[..|recs|] == recs;
    }
    assert (recs + [r])[..|recs|] == recs;
  }

  // ---------------------------------------------------------------- the classes of a spool, most urgent first

  predicate AllValid(lanes: seq<Lane>) {
    forall l | 0 <= l < |lanes| :: lanes[l].Valid()
  }

  /** The most urgent class with something pending, or |lanes|. */
  function Top(lanes: seq<Lane>): (t: nat)
    requires AllValid(lanes)
    ensures t <= |lanes| && (t < |lanes| ==> lanes[t].Pending() != [])
    ensures forall l | 0 <= l < t :: lanes[l].Pending() == []
  {
    TopFrom(lanes, 0)
  }

  function TopFrom(lanes: seq<Lane>, l: nat): (t: nat)
    requires AllValid(lanes) && l <= |lanes|
    ensures l <= t <= |lanes| && (t < |lanes| ==> lanes[t].Pending() != [])
    ensures forall m | l <= m < t :: lanes[m].Pending() == []
    decreases |lanes| - l
  {
    if l == |lanes| || lanes[l].Pending() != [] then l else TopFrom(lanes, l + 1)
  }

  /** The class a Commit consumes from: the one last peeked, or the top one when that has nothing left. */
  function Target(lanes: seq<Lane>, peeked: nat): (t: nat)
    requires AllValid(lanes) && peeked < |lanes|
    ensures t <= |lanes| && (t < |lanes| ==> lanes[t].Pending() != [])
  {
    if lanes[peeked].Pending() != [] then peeked else Top(lanes)
  }

  /** The records a Commit(n) consumes. */
  function Consumed(lanes: seq<Lane>, peeked: nat, n: nat): seq<Record>
    requires AllValid(lanes) && peeked < |lanes|
  {
    var t := Target(lanes, peeked);
    if t == |lanes| then [] else lanes[t].Pending()[..Min(n, |lanes[t].Pending()|)]
  }

  function CommitTo(lanes: seq<Lane>, peeked: nat, n: nat, end: CommitEnd): seq<Lane>
    requires AllValid(lanes) && peeked < |lanes|
  {
    var t := Target(lanes, peeked);
    if t == |lanes| || end.SyncFails? then lanes
    else lanes[t := if end.Ok? then lanes[t].Commit(n) else lanes[t].Advance(n)]
  }

  /** A commit moves one cursor over exactly the records it consumes. */
  lemma CommitConsumes(lanes: seq<Lane>, peeked: nat, n: nat, end: CommitEnd)
    requires AllValid(lanes) && peeked < |lanes|
    ensures var lanes' := CommitTo(lanes, peeked, n, end);
            && |lanes'| == |lanes| && AllValid(lanes')
            && (forall l | 0 <= l < |lanes| :: lanes'[l].log == lanes[l].log && lanes'[l].cur >= lanes[l].cur)
            && (forall l, i | 0 <= l < |lanes| && lanes[l].cur <= i < lanes'[l].cur ::
                  lanes[l].log[i] in Consumed(lanes, peeked, n))
  {
    var lanes' := CommitTo(lanes, peeked, n, end);
    forall l, i | 0 <= l < |lanes| && lanes[l].cur <= i < lanes'[l].cur
      ensures lanes[l].log[i] in Consumed(lanes, peeked, n)
    {
      assert Consumed(lanes, peeked, n)[i - lanes[l].cur] == lanes[l].log[i];
    }
  }

  /** It takes exactly n records off the front of that class, or all there are, durably if the cursor file is written,
    * and touches no other class. */
  lemma CommitTakesExactly(lanes: seq<Lane>, peeked: nat, n: nat, end: CommitEnd)
    requires AllValid(lanes) && peeked < |lanes| && Target(lanes, peeked) < |lanes| && !end.SyncFails?
    ensures var t, lanes' := Target(lanes, peeked), CommitTo(lanes, peeked, n, end);
            && |lanes'| == |lanes| && lanes'[t].Valid()
            && |lanes[t].Pending()| - |lanes'[t].Pending()| == Min(n, |lanes[t].Pending()|)
            && lanes'[t].Pending() == lanes[t].Pending()[Min(n, |lanes[t].Pending()|)..]
            && (end.Ok? ==> lanes'[t].disk == lanes'[t].cur)
            && forall l | 0 <= l < |lanes| && l != t :: lanes'[l] == lanes[l]
  {
  }
}

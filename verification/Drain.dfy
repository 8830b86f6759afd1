/** The drain loop of cmd/cloudlink/batch.go, run against the spool's contract with no one else at work: what a
  * whole drain sends, drops and leaves. */
module Drain {
  import opened Prelude
  import opened Lanes
  import opened Frames

  const MAX_PEEK_RECORDS := 500
  const MAX_PEEK_BYTES := 256 * 1024

  /** The classes of the spool, each as its contract describes it. */
  class Store {
    var lanes: seq<Lane>
    var lastPeekClass: nat

    ghost predicate Valid()
      reads this
    {
      |lanes| == 3 && AllValid(lanes) && lastPeekClass < 3
    }

    constructor (lanes: seq<Lane>)
      requires |lanes| == 3 && AllValid(lanes)
      ensures Valid() && this.lanes == lanes
    {
      this.lanes, lastPeekClass := lanes, 0;
    }

    method TopClass() returns (t: nat)
      requires Valid()
      ensures t == Top(lanes)
    {
      t := 0;
      while t < 3
        invariant t <= 3 && forall l | 0 <= l < t :: lanes[l].Pending() == []
      {
        if lanes[t].Pending() != [] {
          return;
        }
        t := t + 1;
      }
    }

    /** The oldest records of the top class, as many as the limits let one Peek take. */
    method Peek(max: int, maxBytes: int) returns (recs: seq<Record>)
      requires Valid()
      modifies `lastPeekClass
      ensures Valid()
      ensures var t := Top(lanes);
              if t == 3 then recs == [] && lastPeekClass == old(lastPeekClass)
              else
                var pending := lanes[t].Pending();
                && lastPeekClass == t && recs != [] && recs <= pending && Greedy(recs, max, maxBytes)
                && (|recs| < |pending| ==> !Takes(recs, pending[|recs|], max, maxBytes))
    {
      var t := TopClass();
      if t == 3 {
        return [];
      }
      lastPeekClass := t;
      var pending := lanes[t].Pending();
      recs := [];
      while |recs| < |pending| && Takes(recs, pending[|recs|], max, maxBytes)
        invariant lastPeekClass == t && recs <= pending && Greedy(recs, max, maxBytes)
        decreases |pending| - |recs|
      {
        GreedyGrows(recs, pending[|recs|], max, maxBytes);
        recs := recs + [pending[|recs|]];
      }
    }

    method Commit(n: nat, end: CommitEnd) returns (ok: bool)
      requires Valid() && n > 0
      modifies `lanes
      ensures Valid() && lanes == CommitTo(old(lanes), lastPeekClass, n, end)
      ensures ok <==> end.Ok? || Top(old(lanes)) == 3
    {
      var c := lastPeekClass;
      if lanes[c].Pending() == [] {
        c := TopClass();
      }
      if c == 3 {
        return true;
      }
      if end.Ok? {
        lanes := lanes[c := lanes[c].Commit(n)];
      } else if end.CursorFails? {
        lanes := lanes[c := lanes[c].Advance(n)];
      }
      return end.Ok?;
    }
  }

  // ---------------------------------------------------------------- one step of the drain

  /** Everything waiting, in the order a drain takes it. */
  ghost function Backlog(lanes: seq<Lane>): seq<Record>
    requires |lanes| == 3 && AllValid(lanes)
  {
    lanes[0].Pending() + lanes[1].Pending() + lanes[2].Pending()
  }

  lemma CommitTakesFront(lanes: seq<Lane>, n: nat, end: CommitEnd)
    requires |lanes| == 3 && AllValid(lanes) && Top(lanes) < 3 && n <= |lanes[Top(lanes)].Pending()|
    ensures var t := Top(lanes);
            var lanes' := CommitTo(lanes, t, n, end);
            && |lanes'| == 3 && AllValid(lanes')
            && Backlog(lanes) == (if end.SyncFails? then [] else lanes[t].Pending()[..n]) + Backlog(lanes')
  {
    CommitConsumes(lanes, Top(lanes), n, end);
    if !end.SyncFails? {
      var t := Top(lanes);
      var lanes' := CommitTo(lanes, t, n, end);
      var taken := lanes[t].Pending()[..n];
      assert lanes[t].Pending() == taken + lanes'[t].Pending();
      assert forall l | 0 <= l < 3 && l != t :: lanes'[l] == lanes[l];
      FrontOfBacklog(lanes, lanes', t, taken);
    }
  }

  lemma CommitTakesRun(lanes: seq<Lane>, run: seq<Record>, n: nat, end: CommitEnd)
    requires |lanes| == 3 && AllValid(lanes) && Top(lanes) < 3 && 0 < n <= |run| && run <= lanes[Top(lanes)].Pending()
    ensures var lanes' := CommitTo(lanes, Top(lanes), n, end);
            && |lanes'| == 3 && AllValid(lanes')
            && Backlog(lanes) == (if end.SyncFails? then [] else run[..n]) + Backlog(lanes')
  {
    CommitTakesFront(lanes, n, end);
    assert lanes[Top(lanes)].Pending()[..n] == run[..n];
  }

  lemma BacklogIffTop(lanes: seq<Lane>)
    requires |lanes| == 3 && AllValid(lanes)
    ensures Backlog(lanes) == [] <==> Top(lanes) == 3
  {
    if Top(lanes) < 3 {
      assert lanes[Top(lanes)].Pending()[0] in Backlog(lanes);
    }
  }

  lemma FrontOfBacklog(lanes: seq<Lane>, lanes': seq<Lane>, t: nat, taken: seq<Record>)
    requires |lanes| == |lanes'| == 3 && AllValid(lanes) && AllValid(lanes') && t < 3
    requires forall l | 0 <= l < 3 && l != t :: lanes'[l] == lanes[l]
    requires forall l | 0 <= l < t :: lanes[l].Pending() == []
    requires lanes[t].Pending() == taken + lanes'[t].Pending()
    ensures Backlog(lanes) == taken + Backlog(lanes')
  {
    var p0, p1, p2 := lanes[0].Pending(), lanes[1].Pending(), lanes[2].Pending();
    var q0, q1, q2 := lanes'[0].Pending(), lanes'[1].Pending(), lanes'[2].Pending();
    if t == 0 {
      assert (taken + q0) + q1 + q2 == taken + (q0 + q1 + q2);
    } else if t == 1 {
      assert [] + (taken + q1) + q2 == taken + ([] + q1 + q2);
    } else {
      assert [] + [] + (taken + q2) == taken + ([] + [] + q2);
    }
  }

  /** How the outside world treats one turn of the loop. */
  datatype Turn = Turn(connected: bool, published: bool, bumped: bool, end: CommitEnd)

  predicate Smooth(turn: Turn) {
    turn == Turn(true, true, true, Ok)
  }

  /** What one turn does: a frame acknowledged by the cloud, or one record given up; `took` are the records that
    * left the backlog. */
  datatype Result = Result(progressed: bool, err: bool, frame: Option<Frame>, took: seq<Record>)

  /** Records leave only in a frame that the cloud acknowledged, or alone when no frame can carry them. */
  ghost predicate Accounted(fits: Fits, r: Result) {
    r.took != [] ==>
      if r.frame.Some? then
        && r.frame.value.recs == r.took && fits(r.frame.value.stream, r.frame.value.seqNo, r.took)
        && forall x | x in r.took :: x.stream == r.frame.value.stream
      else |r.took| == 1 && exists seqNo :: !fits(r.took[0].stream, seqNo, r.took)
  }

  /** No longer prefix of the run on the halving chain would fit, and the frame is on the chain. */
  ghost predicate Largest(fits: Fits, f: Frame, run: seq<Record>) {
    && f.recs <= run && InChain(|run|, |f.recs|)
    && forall m: nat | InChain(|run|, m) && |f.recs| < m <= |run| :: !fits(f.stream, f.seqNo, run[..m])
  }

  lemma FirstFitMakesLargest(fits: Fits, stream: Stream, seqNo: nat, run: seq<Record>, n: nat)
    requires run != [] && FirstFit(fits, stream, seqNo, run, |run|) == Some(n)
    ensures Largest(fits, Frame(stream, seqNo, run[..n]), run)
  {
    FirstFitIsLargest(fits, stream, seqNo, run, |run|, |run|);
    forall m: nat | InChain(|run|, m) && n < m <= |run|
      ensures !fits(stream, seqNo, run[..m])
    {
      FirstFitIsLargest(fits, stream, seqNo, run, |run|, m);
    }
  }

  /** What a turn offers to the frame: the oldest records of the most urgent class, all of one stream, up to 500 of
    * them and 256 KiB. */
  ghost predicate Offered(lanes: seq<Lane>, run: seq<Record>)
    requires AllValid(lanes)
  {
    var t := Top(lanes);
    && t < |lanes| && run != [] && run <= lanes[t].Pending() && Greedy(run, 500, 262144)
    && (forall r | r in run :: r.stream == run[0].stream)
    && (|run| < |lanes[t].Pending()| ==>
          var next := lanes[t].Pending()[|run|]; next.stream != run[0].stream || !Takes(run, next, 500, 262144))
  }

  lemma RunIsOffered(lanes: seq<Lane>, peeked: seq<Record>, run: seq<Record>)
    requires AllValid(lanes) && Top(lanes) < |lanes| && peeked != [] && peeked <= lanes[Top(lanes)].Pending()
    requires Greedy(peeked, 500, 262144)
    requires var pending := lanes[Top(lanes)].Pending();
             |peeked| < |pending| ==> !Takes(peeked, pending[|peeked|], 500, 262144)
    requires run != [] && run <= peeked && (forall r | r in run :: r.stream == peeked[0].stream)
    requires |run| < |peeked| ==> peeked[|run|].stream != peeked[0].stream
    ensures Offered(lanes, run)
  {
    assert forall k | 0 <= k < |run| :: run[..k] == peeked[..k] && run[k] == peeked[k];
    if |run| == |peeked| {
      assert run == peeked;
    }
  }

  /** Seqs after a turn: advanced by one for the stream of a frame whose advance could be written, before any of
    * its records is consumed. */
  ghost predicate Advanced(before: map<Stream, nat>, after: map<Stream, nat>, r: Result, turn: Turn) {
    && (r.frame.Some? ==> turn.published && r.frame.value.seqNo == SeqOf(before, r.frame.value.stream))
    && (r.frame.Some? && r.took != [] ==> turn.bumped)
    && forall stream: Stream ::
         SeqOf(after, stream) ==
         SeqOf(before, stream) + if r.frame.Some? && turn.bumped && stream == r.frame.value.stream then 1 else 0
  }

  ghost function Taken(done: seq<Result>): seq<Record> {
    if done == [] then [] else Taken(done[..|done| - 1]) + done[|done| - 1].took
  }

  lemma TakenGrows(done: seq<Result>, r: Result, before: seq<Record>, after: seq<Record>)
    requires before == r.took + after
    ensures Taken(done) + before == Taken(done + [r]) + after
  {
    assert (done + [r])[..|done|] == done;
    assert Taken(done) + (r.took + after) == (Taken(done) + r.took) + after;
  }

  class Batcher {
    const spool: Store
    const seqs: SeqStore
    const fits: Fits

    ghost predicate Valid()
      reads this, spool, seqs
    {
      spool.Valid() && seqs.Valid()
    }

    constructor (spool: Store, seqs: SeqStore, fits: Fits)
      requires spool.Valid() && seqs.Valid()
      ensures Valid() && this.spool == spool && this.seqs == seqs && this.fits == fits
    {
      this.spool, this.seqs, this.fits := spool, seqs, fits;
    }

    /** Consumes the n records of a frame, or the one given up. */
    method Finish(run: seq<Record>, n: nat, frame: Option<Frame>, end: CommitEnd) returns (r: Result)
      requires Valid() && 0 < n <= |run| && Top(spool.lanes) == spool.lastPeekClass
      requires run <= spool.lanes[spool.lastPeekClass].Pending()
      modifies spool
      ensures Valid() && r == Result(end.Ok?, !end.Ok?, frame, if end.SyncFails? then [] else run[..n])
      ensures Backlog(old(spool.lanes)) == r.took + Backlog(spool.lanes)
    {
      CommitTakesRun(spool.lanes, run, n, end);
      var ok := spool.Commit(n, end);
      return Result(ok, !ok, frame, if end.SyncFails? then [] else run[..n]);
    }

    method SendRun(run: seq<Record>, turn: Turn) returns (r: Result)
      requires Valid() && run != [] && Top(spool.lanes) == spool.lastPeekClass
      requires run <= spool.lanes[spool.lastPeekClass].Pending() && forall x | x in run :: x.stream == run[0].stream
      modifies spool, seqs
      ensures Valid() && Accounted(fits, r) && Advanced(old(seqs.files), seqs.files, r, turn)
      ensures r.progressed || r.err
      ensures Backlog(old(spool.lanes)) == r.took + Backlog(spool.lanes)
      ensures Smooth(turn) ==> r.progressed && !r.err && r.took != []
      ensures turn.published && turn.bumped ==> (r.took != [] <==> !turn.end.SyncFails?)
      ensures r.progressed ==> r.took != []
      ensures r.err <==> !r.progressed
      ensures r.frame.Some? ==> Largest(fits, r.frame.value, run)
    {
      var stream := run[0].stream;
      var seqNo := seqs.Peek(stream);
      assert seqNo == SeqOf(seqs.files, stream);
      var frame, n, dropped := BuildFrame(fits, stream, seqNo, run);
      if dropped {
        r := Finish(run, 1, None, turn.end);
        return;
      }
      if !turn.published {
        return Result(false, true, None, []);
      }
      FirstFitMakesLargest(fits, stream, seqNo, run, n);
      var bumped := seqs.Bump(stream, turn.bumped);
      if !bumped {
        return Result(false, true, frame, []);
      }
      r := Finish(run, n, frame, turn.end);
    }

    method DrainOne(turn: Turn) returns (r: Result)
      requires Valid()
      modifies spool, seqs
      ensures Valid() && Accounted(fits, r) && Advanced(old(seqs.files), seqs.files, r, turn)
      ensures Backlog(old(spool.lanes)) == r.took + Backlog(spool.lanes)
      ensures !r.progressed && !r.err <==> Backlog(old(spool.lanes)) == []
      ensures Smooth(turn) && Backlog(old(spool.lanes)) != [] ==> r.progressed && !r.err && r.took != []
      ensures turn.published && turn.bumped && Backlog(old(spool.lanes)) != [] ==>
                (r.took != [] <==> !turn.end.SyncFails?)
      ensures (r.progressed ==> r.took != []) && !(r.progressed && r.err)
      ensures r.frame.Some? ==>
                exists run :: Offered(old(spool.lanes), run) && Largest(fits, r.frame.value, run)
    {
      BacklogIffTop(spool.lanes);
      var recs := spool.Peek(MAX_PEEK_RECORDS, MAX_PEEK_BYTES);
      if recs == [] {
        return Result(false, false, None, []);
      }
      var run := TakeLeadingRun(recs);
      RunIsOffered(spool.lanes, recs, run);
      r := SendRun(run, turn);
    }

    /** Turns until the spool is empty, the cloud is gone or the script ends with the process. Whatever fails on
      * the way, what left the backlog left from its front, in order, and every bit of it is accounted for; with
      * an always-acknowledging cloud the spool ends empty. */
    method DrainAll(script: seq<Turn>) returns (done: seq<Result>)
      requires Valid()
      modifies spool, seqs
      ensures Valid() && forall i | 0 <= i < |done| :: Accounted(fits, done[i])
      ensures Backlog(old(spool.lanes)) == Taken(done) + Backlog(spool.lanes)
      ensures (forall i | 0 <= i < |script| :: Smooth(script[i])) && |script| > |Backlog(old(spool.lanes))| ==>
                Backlog(spool.lanes) == []
      // It gives up early only on a lost connection or an empty spool, never on an error.
      ensures |done| <= |script| && (|done| < |script| ==> !script[|done|].connected || Backlog(spool.lanes) == [])
    {
      done := [];
      ghost var all := Backlog(spool.lanes);
      var i := 0;
      while i < |script|
        invariant |done| == i <= |script| && Valid()
        invariant forall j | 0 <= j < |done| :: Accounted(fits, done[j])
        invariant all == Taken(done) + Backlog(spool.lanes)
        invariant (forall j | 0 <= j < |script| :: Smooth(script[j])) ==> |Backlog(spool.lanes)| + i <= |all|
      {
        if !script[i].connected {
          return;
        }
        ghost var before := Backlog(spool.lanes);
        var r := DrainOne(script[i]);
        TakenGrows(done, r, before, Backlog(spool.lanes));
        done := done + [r];
        if !r.err && !r.progressed {
          return;
        }
        i := i + 1;
      }
    }
  }
}

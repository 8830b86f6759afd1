/** What a deduplicating receiver misses, exactly, in runs of one process where each stream has one class and nothing is
  * evicted or given up: frames that share a key start at the same record, so only their lengths matter. */
module UplinkKeys {
  import opened Prelude
  import opened Lanes
  import opened Frames
  import opened Uplink
  import opened UplinkRuns
  import opened UplinkDedupe

  type Classes = Stream -> nat

  predicate Tame(classOf: Classes, s: State, e: Event) {
    && !e.Evict? && !e.PowerCut? && !e.Restart?
    && (e.Append? ==> e.lane == classOf(e.stream))
    && (e.Commit? ==> s.flight.Some? ==> s.flight.value.phase.Bumped?)
  }

  ghost predicate TameRun(fits: Fits, classOf: Classes, s: State, es: seq<Event>)
    requires Inv(fits, s)
    decreases |es|
  {
    es == [] ||
    (TameRun(fits, classOf, s, es[..|es| - 1]) && Tame(classOf, Final(fits, s, es[..|es| - 1]), es[|es| - 1]))
  }

  /** The position in its class where frame j starts. */
  function StartOf(s: State, j: nat): int
    requires j < |s.fired|
  {
    if s.fired[j].recs != [] && s.fired[j].recs[0].id < |s.places| then s.places[s.fired[j].recs[0].id].index else -1
  }

  /** Frame j is a piece of its class's log that starts no later than the read position. */
  ghost predicate Piece(classOf: Classes, s: State, j: nat)
    requires j < |s.fired|
  {
    var f, c, start := s.fired[j], classOf(s.fired[j].stream), StartOf(s, j);
    && c < |s.lanes| && f.recs != [] && f.recs[0].stream == f.stream
    && 0 <= start <= s.lanes[c].cur && start + |f.recs| <= |s.lanes[c].log|
    && f.recs == s.lanes[c].log[start..start + |f.recs|]
  }

  ghost predicate Sorted(classOf: Classes, s: State) {
    forall l, i | 0 <= l < |s.lanes| && 0 <= i < |s.lanes[l].log| :: classOf(s.lanes[l].log[i].stream) == l
  }

  /** A frame of the stream is acknowledged, its seq advanced, its records not yet committed. */
  predicate BumpedFor(s: State, stream: Stream) {
    && s.flight.Some? && s.flight.value.phase.Bumped?
    && s.flight.value.recs != [] && s.flight.value.recs[0].stream == stream
  }

  /** Frames under a stream's current seq start at the read position of its class. */
  ghost predicate StartsNow(classOf: Classes, s: State, j: nat)
    requires j < |s.fired| && Piece(classOf, s, j)
  {
    var f := s.fired[j];
    && f.seqNo <= SeqOf(s.seqs, f.stream)
    && (f.seqNo == SeqOf(s.seqs, f.stream) ==> StartOf(s, j) == s.lanes[classOf(f.stream)].cur)
    && (BumpedFor(s, f.stream) ==> f.seqNo < SeqOf(s.seqs, f.stream))
  }

  ghost predicate Keyed(classOf: Classes, s: State) {
    && Steady(s) && Sorted(classOf, s)
    && (forall j | 0 <= j < |s.fired| :: Piece(classOf, s, j) && StartsNow(classOf, s, j))
    && (forall j, k | 0 <= j < |s.fired| && 0 <= k < |s.fired| && SameKey(s.fired[j], s.fired[k]) ::
          StartOf(s, j) == StartOf(s, k))
    && s.dropped == s.evicted == s.skipped == s.overrun == {}
  }

  // ---------------------------------------------------------------- every tame step keeps it

  lemma SameFrames(classOf: Classes, s: State, t: State)
    requires Keyed(classOf, s) && s.fired == t.fired && s.places <= t.places && |s.lanes| == |t.lanes|
    requires forall l | 0 <= l < |s.lanes| :: s.lanes[l].log <= t.lanes[l].log && s.lanes[l].cur == t.lanes[l].cur
    ensures forall j | 0 <= j < |t.fired| :: Piece(classOf, t, j) && StartOf(t, j) == StartOf(s, j)
  {
    forall j | 0 <= j < |t.fired|
      ensures Piece(classOf, t, j) && StartOf(t, j) == StartOf(s, j)
    {
      assert Piece(classOf, s, j);
    }
  }

  /** A step that moves no read position, no seq and no frame. */
  lemma StillKeyed(classOf: Classes, s: State, t: State)
    requires Keyed(classOf, s) && s.fired == t.fired && s.places <= t.places && |s.lanes| == |t.lanes|
    requires forall l | 0 <= l < |s.lanes| :: s.lanes[l].log <= t.lanes[l].log && s.lanes[l].cur == t.lanes[l].cur
    requires s.seqs == t.seqs && Steady(t) && Sorted(classOf, t)
    requires forall stream: Stream :: BumpedFor(t, stream) ==> BumpedFor(s, stream)
    requires t.dropped == t.evicted == t.skipped == t.overrun == {}
    ensures Keyed(classOf, t)
  {
    SameFrames(classOf, s, t);
    forall j | 0 <= j < |t.fired|
      ensures StartsNow(classOf, t, j)
    {
      assert StartsNow(classOf, s, j);
    }
  }

  lemma QuietKeepsKeyed(fits: Fits, classOf: Classes, s: State, e: Event)
    requires Inv(fits, s) && Keyed(classOf, s) && Tame(classOf, s, e) && !e.Fire? && !e.Commit? && !e.BumpOk?
    ensures Keyed(classOf, Next(fits, s, e))
  {
    var t := Next(fits, s, e);
    if e.Append? && Enabled(s, e) {
      assert t.lanes[e.lane].log == s.lanes[e.lane].log + [Record(|s.places|, e.stream, e.size)];
    }
    StillKeyed(classOf, s, t);
  }

  lemma BumpKeepsKeyed(fits: Fits, classOf: Classes, s: State)
    requires Inv(fits, s) && Keyed(classOf, s) && Enabled(s, BumpOk)
    ensures Keyed(classOf, BumpNext(s))
  {
    var t := BumpNext(s);
    SameFrames(classOf, s, t);
    forall j | 0 <= j < |t.fired|
      ensures StartsNow(classOf, t, j)
    {
      assert StartsNow(classOf, s, j);
    }
  }

  /** A new frame starts at the read position, and so did every earlier one of its key. */
  lemma FireKeepsKeyed(fits: Fits, classOf: Classes, s: State, peeked: nat)
    requires Inv(fits, s) && Keyed(classOf, s) && Enabled(s, Fire(peeked))
    ensures Keyed(classOf, FireNext(fits, s, peeked))
  {
    var t := FireNext(fits, s, peeked);
    var c := Top(s.lanes);
    var lane := s.lanes[c];
    var run := LeadingRun(lane.Pending()[..peeked]);
    var r := FirstFit(fits, run[0].stream, SeqOf(s.seqs, run[0].stream), run, |run|);
    RunIsPending(lane, peeked, if r.Some? then r.value else 1);
    if r.Some? {
      NewFrame(fits, classOf, s, t, run[..r.value]);
    } else {
      SameFrames(classOf, s, t);
      forall j | 0 <= j < |t.fired|
        ensures StartsNow(classOf, t, j)
      {
        assert StartsNow(classOf, s, j);
      }
    }
  }

  lemma NewFrame(fits: Fits, classOf: Classes, s: State, t: State, recs: seq<Record>)
    requires Inv(fits, s) && Keyed(classOf, s) && s.flight.None? && recs != []
    requires var c, stream := Top(s.lanes), recs[0].stream;
             && c < |s.lanes| && s.lanes[c].cur + |recs| <= |s.lanes[c].log|
             && recs == s.lanes[c].log[s.lanes[c].cur..s.lanes[c].cur + |recs|]
             && t == s.(flight := Some(Flight(c, s.lanes[c].cur, recs, Sent(|s.fired|))),
                        fired := s.fired + [Frame(stream, SeqOf(s.seqs, stream), recs)])
    ensures Keyed(classOf, t)
  {
    var c, n := Top(s.lanes), |s.fired|;
    assert recs[0] == s.lanes[c].log[s.lanes[c].cur];
    assert At(s, recs[0], c, s.lanes[c].cur);
    assert StartOf(t, n) == s.lanes[c].cur && classOf(recs[0].stream) == c;
    forall j | 0 <= j < n
      ensures Piece(classOf, t, j) && StartsNow(classOf, t, j) && StartOf(t, j) == StartOf(s, j)
    {
      assert t.fired[j] == s.fired[j] && Piece(classOf, s, j) && StartsNow(classOf, s, j);
    }
    forall j, k | 0 <= j < |t.fired| && 0 <= k < |t.fired| && SameKey(t.fired[j], t.fired[k])
      ensures StartOf(t, j) == StartOf(t, k)
    {
      if j < n && k < n {
        assert SameKey(s.fired[j], s.fired[k]);
      }
    }
  }

  lemma CommitKeepsKeyed(fits: Fits, classOf: Classes, s: State, end: CommitEnd)
    requires Inv(fits, s) && Keyed(classOf, s) && Enabled(s, Commit(end)) && Tame(classOf, s, Commit(end))
    ensures Keyed(classOf, CommitNext(s, end))
  {
    var t := CommitNext(s, end);
    CommitMovesOneClass(fits, classOf, s, end);
    forall j | 0 <= j < |t.fired|
      ensures Piece(classOf, t, j) && StartsNow(classOf, t, j) && StartOf(t, j) == StartOf(s, j)
    {
      CommitKeepsPiece(fits, classOf, s, t, j);
    }
  }

  lemma CommitKeepsPiece(fits: Fits, classOf: Classes, s: State, t: State, j: nat)
    requires Inv(fits, s) && Keyed(classOf, s) && s.flight.Some? && s.flight.value.phase.Bumped? && j < |s.fired|
    requires t == s.(lanes := t.lanes, flight := None) && |t.lanes| == |s.lanes|
    requires var l := s.flight.value.lane;
             && l < |s.lanes| && (forall m | 0 <= m < |s.lanes| && m != l :: t.lanes[m] == s.lanes[m])
             && t.lanes[l].log == s.lanes[l].log && s.lanes[l].cur <= t.lanes[l].cur <= |t.lanes[l].log|
    ensures Piece(classOf, t, j) && StartsNow(classOf, t, j) && StartOf(t, j) == StartOf(s, j)
  {
    assert Piece(classOf, s, j) && StartsNow(classOf, s, j);
    CommittedPastCurrent(classOf, s, j);
  }

  lemma CommitMovesOneClass(fits: Fits, classOf: Classes, s: State, end: CommitEnd)
    requires Inv(fits, s) && Keyed(classOf, s) && Enabled(s, Commit(end)) && Tame(classOf, s, Commit(end))
    ensures var t, f := CommitNext(s, end), s.flight.value;
            && t == s.(lanes := t.lanes, flight := None) && |t.lanes| == |s.lanes| && Steady(t)
            && (forall l | 0 <= l < |s.lanes| && l != f.lane :: t.lanes[l] == s.lanes[l])
            && t.lanes[f.lane].log == s.lanes[f.lane].log
            && s.lanes[f.lane].cur <= t.lanes[f.lane].cur <= |t.lanes[f.lane].log|
  {
    CalmCommit(fits, s, end);
    CommitConsumes(s.lanes, s.flight.value.lane, |s.flight.value.recs|, end);
    assert Target(s.lanes, s.flight.value.lane) == s.flight.value.lane;
  }

  /** In the class being committed no frame is under a current seq any more. */
  lemma CommittedPastCurrent(classOf: Classes, s: State, j: nat)
    requires Keyed(classOf, s) && j < |s.fired| && Piece(classOf, s, j) && StartsNow(classOf, s, j)
    requires s.flight.Some? && s.flight.value.phase.Bumped?
    requires s.flight.value.lane < |s.lanes| && s.flight.value.recs != []
    requires var f := s.flight.value;
             && f.start + |f.recs| <= |s.lanes[f.lane].log|
             && f.recs == s.lanes[f.lane].log[f.start..f.start + |f.recs|]
    ensures classOf(s.fired[j].stream) == s.flight.value.lane ==>
              s.fired[j].seqNo < SeqOf(s.seqs, s.fired[j].stream)
  {
    var f, g := s.flight.value, s.fired[j];
    if classOf(g.stream) == f.lane && StartOf(s, j) == s.lanes[f.lane].cur {
      assert g.recs[0] == s.lanes[f.lane].log[f.start] == f.recs[0];
      assert BumpedFor(s, g.stream);
    }
  }

  lemma TameStepKeepsKeyed(fits: Fits, classOf: Classes, s: State, e: Event)
    requires Inv(fits, s) && Keyed(classOf, s) && Tame(classOf, s, e)
    ensures Keyed(classOf, Next(fits, s, e))
  {
    if Enabled(s, e) {
      match e
      case Fire(peeked) => FireKeepsKeyed(fits, classOf, s, peeked);
      case BumpOk => BumpKeepsKeyed(fits, classOf, s);
      case Commit(end) => CommitKeepsKeyed(fits, classOf, s, end);
      case _ => QuietKeepsKeyed(fits, classOf, s, e);
    }
  }

  /** Over every such run frames that share a key start at the same record. */
  lemma {:induction false} TameRunIsKeyed(fits: Fits, classOf: Classes, s: State, es: seq<Event>)
    requires Inv(fits, s) && Keyed(classOf, s) && TameRun(fits, classOf, s, es)
    ensures Keyed(classOf, Final(fits, s, es))
    decreases |es|
  {
    if es != [] {
      TameRunIsKeyed(fits, classOf, s, es[..|es| - 1]);
      TameStepKeepsKeyed(fits, classOf, Final(fits, s, es[..|es| - 1]), es[|es| - 1]);
    }
  }

  lemma StartIsKeyed(classOf: Classes)
    ensures Keyed(classOf, START)
  {
  }

  // ---------------------------------------------------------------- what the receiver misses

  /** A frame carries a record of the log exactly if the record lies in its piece. */
  lemma InPiece(fits: Fits, classOf: Classes, s: State, j: nat, c: nat, i: nat)
    requires Inv(fits, s) && j < |s.fired| && Piece(classOf, s, j) && c < CLASSES && i < |s.lanes[c].log|
    ensures s.lanes[c].log[i] in s.fired[j].recs <==>
              classOf(s.fired[j].stream) == c && StartOf(s, j) <= i < StartOf(s, j) + |s.fired[j].recs|
  {
    var r, f, d, start := s.lanes[c].log[i], s.fired[j], classOf(s.fired[j].stream), StartOf(s, j);
    assert At(s, r, c, i);
    if k :| 0 <= k < |f.recs| && f.recs[k] == r {
      assert s.lanes[d].log[start + k] == r;
      assert At(s, r, d, start + k);
    }
    if d == c && start <= i < start + |f.recs| {
      assert f.recs[i - start] == r;
    }
  }

  /** Under one key the receiver's copy holds all records of a frame exactly if the frame is not longer than it. */
  lemma FrameIsKeptIff(fits: Fits, classOf: Classes, s: State, j: nat, first: nat)
    requires Inv(fits, s) && Keyed(classOf, s) && j < |s.fired|
    requires KeptFirst(s, first) && SameKey(s.fired[s.arrived[first]], s.fired[j])
    ensures var kept := s.fired[s.arrived[first]].recs;
            (forall r | r in s.fired[j].recs :: r in kept) <==> |s.fired[j].recs| <= |kept|
  {
    var k := s.arrived[first];
    assert Piece(classOf, s, j) && Piece(classOf, s, k) && StartOf(s, j) == StartOf(s, k);
    var c, start, n := classOf(s.fired[j].stream), StartOf(s, j), |s.fired[k].recs|;
    if |s.fired[j].recs| <= n {
      assert s.fired[j].recs == s.fired[k].recs[..|s.fired[j].recs|];
    } else {
      assert s.fired[j].recs[n] == s.lanes[c].log[start + n];
      InPiece(fits, classOf, s, k, c, start + n);
    }
  }

  ghost predicate Carries(s: State, p: nat, r: Record) {
    p < |s.arrived| && s.arrived[p] < |s.fired| && r in s.fired[s.arrived[p]].recs
  }

  /** The frame kept for arrival p's key ends before position i. */
  ghost predicate KeptEndsBefore(s: State, p: nat, i: nat)
    requires p < |s.arrived| && s.arrived[p] < |s.fired|
  {
    exists first: nat :: KeptFirst(s, first) && SameKey(s.fired[s.arrived[first]], s.fired[s.arrived[p]])
      && StartOf(s, s.arrived[first]) + |s.fired[s.arrived[first]].recs| <= i
  }

  /** Over every such run a consumed record was acknowledged, and the receiver misses it exactly if under each key it
    * arrived with, the first frame to arrive was too short to reach it. */
  lemma MissingIff(fits: Fits, classOf: Classes, es: seq<Event>, c: nat, i: nat)
    requires Inv(fits, START) && TameRun(fits, classOf, START, es)
    requires c < CLASSES && i < Final(fits, START, es).lanes[c].cur
    ensures var t := Final(fits, START, es);
            && i < |t.lanes[c].log|
            && var r := t.lanes[c].log[i];
               && Delivered(t, r)
               && (!Held(t, r) <==> forall p: nat | Carries(t, p, r) :: KeptEndsBefore(t, p, i))
  {
    StartIsKeyed(classOf);
    TameRunIsKeyed(fits, classOf, START, es);
    var t := Final(fits, START, es);
    assert i < t.lanes[c].cur <= |t.lanes[c].log|;
    assert Settled(t, t.lanes[c].log[i]);
    MissingInState(fits, classOf, t, c, i);
  }

  lemma MissingInState(fits: Fits, classOf: Classes, s: State, c: nat, i: nat)
    requires Inv(fits, s) && Keyed(classOf, s) && c < CLASSES && i < |s.lanes[c].log|
    ensures var r := s.lanes[c].log[i]; !Held(s, r) <==> forall p: nat | Carries(s, p, r) :: KeptEndsBefore(s, p, i)
  {
    var r := s.lanes[c].log[i];
    if Held(s, r) {
      var p: nat :| KeptFirst(s, p) && r in s.fired[s.arrived[p]].recs;
      assert Carries(s, p, r);
      InPiece(fits, classOf, s, s.arrived[p], c, i);
      KeptIsUnique(s, p);
      assert StartOf(s, s.arrived[p]) + |s.fired[s.arrived[p]].recs| > i;
    } else {
      forall p: nat | Carries(s, p, r)
        ensures KeptEndsBefore(s, p, i)
      {
        var first := KeyIsKept(s, p);
        InPiece(fits, classOf, s, s.arrived[p], c, i);
        InPiece(fits, classOf, s, s.arrived[first], c, i);
      }
    }
  }

  /** No other arrival of the key is first. */
  lemma KeptIsUnique(s: State, p: nat)
    requires KeptFirst(s, p)
    ensures forall q: nat | KeptFirst(s, q) && SameKey(s.fired[s.arrived[q]], s.fired[s.arrived[p]]) :: q == p
  {
  }

  /** An acknowledged frame none of whose records arrived under another key loses one of them exactly if it is longer
    * than the frame kept for its key. */
  lemma LosesIffLonger(fits: Fits, classOf: Classes, es: seq<Event>, j: nat, first: nat)
    requires Inv(fits, START) && TameRun(fits, classOf, START, es)
    requires var t := Final(fits, START, es);
             && j < |t.fired| && KeptFirst(t, first) && SameKey(t.fired[t.arrived[first]], t.fired[j])
             && forall p: nat, r | r in t.fired[j].recs && Carries(t, p, r) ::
                  SameKey(t.fired[t.arrived[p]], t.fired[j])
    ensures var t := Final(fits, START, es);
            (exists r :: r in t.fired[j].recs && !Held(t, r)) <==> |t.fired[j].recs| > |t.fired[t.arrived[first]].recs|
  {
    StartIsKeyed(classOf);
    TameRunIsKeyed(fits, classOf, START, es);
    var t := Final(fits, START, es);
    FrameIsKeptIff(fits, classOf, t, j, first);
    KeptIsUnique(t, first);
    forall r | r in t.fired[j].recs
      ensures Held(t, r) <==> r in t.fired[t.arrived[first]].recs
    {
      if p: nat :| KeptFirst(t, p) && r in t.fired[t.arrived[p]].recs {
        assert Carries(t, p, r);
      }
    }
  }
}

/** Sequence numbers over whole runs, and the receiver that keeps the first frame of each (stream, seq). */
module UplinkDedupe {
  import opened Prelude
  import opened Lanes
  import opened Frames
  import opened Uplink
  import opened UplinkRuns

  // ---------------------------------------------------------------- sequence numbers count advances

  /** Advances of the stream made before the frame at place k was fired. */
  ghost function Advances(bumps: seq<Bump>, stream: Stream, k: nat): nat {
    if bumps == [] then 0 else
      var b := bumps[|bumps| - 1];
      Advances(bumps[..|bumps| - 1], stream, k) + if b.stream == stream && b.firedBefore <= k then 1 else 0
  }

  ghost predicate InOrder(s: State) {
    forall i | 0 <= i < |s.bumps| :: s.bumps[i].firedBefore <= |s.fired|
  }

  ghost predicate Counted(s: State) {
    && InOrder(s)
    && (forall stream: Stream :: SeqOf(s.seqs, stream) == Advances(s.bumps, stream, |s.fired|))
    && forall k | 0 <= k < |s.fired| :: s.fired[k].seqNo == Advances(s.bumps, s.fired[k].stream, k)
  }

  lemma {:induction false} AdvancesSettle(bumps: seq<Bump>, stream: Stream, n: nat)
    requires forall i | 0 <= i < |bumps| :: bumps[i].firedBefore <= n
    ensures Advances(bumps, stream, n + 1) == Advances(bumps, stream, n)
  {
    if bumps != [] {
      AdvancesSettle(bumps[..|bumps| - 1], stream, n);
    }
  }

  /** Between two places the count grows by the advances made there. */
  lemma {:induction false} AdvancesBetween(bumps: seq<Bump>, stream: Stream, j: nat, k: nat)
    requires j <= k
    ensures Advances(bumps, stream, j) <= Advances(bumps, stream, k)
    ensures Advances(bumps, stream, j) == Advances(bumps, stream, k) <==>
              forall i | 0 <= i < |bumps| :: !(bumps[i].stream == stream && j < bumps[i].firedBefore <= k)
  {
    if bumps != [] {
      var front := bumps[..|bumps| - 1];
      AdvancesBetween(front, stream, j, k);
      assert forall i | 0 <= i < |front| :: front[i] == bumps[i];
      assert forall i | 0 <= i < |bumps| :: i < |front| ==> front[i] == bumps[i];
    }
  }

  lemma FireKeepsCount(fits: Fits, s: State, peeked: nat)
    requires AllValid(s.lanes) && Counted(s) && Enabled(s, Fire(peeked))
    ensures Counted(FireNext(fits, s, peeked))
  {
    var t := FireNext(fits, s, peeked);
    if t.fired != s.fired {
      forall stream: Stream
        ensures SeqOf(t.seqs, stream) == Advances(t.bumps, stream, |t.fired|)
      {
        AdvancesSettle(s.bumps, stream, |s.fired|);
      }
      var k := |s.fired|;
      assert t.fired[..k] == s.fired;
      assert t.fired[k].seqNo == SeqOf(s.seqs, t.fired[k].stream);
    }
  }

  lemma BumpKeepsCount(s: State)
    requires AllValid(s.lanes) && Counted(s) && Enabled(s, BumpOk)
    ensures Counted(BumpNext(s))
  {
    var t := BumpNext(s);
    assert t.bumps[..|t.bumps| - 1] == s.bumps;
    forall stream: Stream
      ensures SeqOf(t.seqs, stream) == Advances(t.bumps, stream, |t.fired|)
    {
      assert SeqOf(s.seqs, stream) == Advances(s.bumps, stream, |s.fired|);
    }
  }

  lemma StepKeepsCount(fits: Fits, s: State, e: Event)
    requires AllValid(s.lanes) && Counted(s)
    ensures var t := Next(fits, s, e);
            && Counted(t) && s.bumps <= t.bumps
            && forall stream: Stream :: SeqOf(s.seqs, stream) <= SeqOf(t.seqs, stream)
  {
    if Enabled(s, e) {
      match e
      case Fire(peeked) => FireKeepsCount(fits, s, peeked);
      case BumpOk => BumpKeepsCount(s);
      case _ => assert Next(fits, s, e).(bumps := s.bumps, seqs := s.seqs, fired := s.fired) == Next(fits, s, e);
    }
  }

  /** Seqs never decrease, whatever fails and however often the power goes. */
  lemma {:induction false} RunKeepsCount(fits: Fits, s: State, es: seq<Event>)
    requires Inv(fits, s) && Counted(s)
    ensures Counted(Final(fits, s, es)) && s.bumps <= Final(fits, s, es).bumps
    ensures forall stream: Stream :: SeqOf(s.seqs, stream) <= SeqOf(Final(fits, s, es).seqs, stream)
    decreases |es|
  {
    if es != [] {
      RunKeepsCount(fits, s, es[..|es| - 1]);
      var before := Final(fits, s, es[..|es| - 1]);
      StepKeepsCount(fits, before, es[|es| - 1]);
      var t := Next(fits, before, es[|es| - 1]);
      assert t == Final(fits, s, es);
      forall stream: Stream
        ensures SeqOf(s.seqs, stream) <= SeqOf(t.seqs, stream)
      {
        assert SeqOf(s.seqs, stream) <= SeqOf(before.seqs, stream) <= SeqOf(t.seqs, stream);
      }
    }
  }

  /** From the start on they count the advances. */
  lemma SeqsCountFromStart(fits: Fits, es: seq<Event>)
    ensures Inv(fits, START) && Counted(Final(fits, START, es))
  {
    StartIsInv(fits);
    RunKeepsCount(fits, START, es);
  }

  /** Two frames of a stream share a seq exactly when no advance of that stream succeeded between them; power
    * cuts in between change nothing, and a later frame never has a smaller one. */
  lemma SharedSeqIff(fits: Fits, s: State, es: seq<Event>, j: nat, k: nat)
    requires Inv(fits, s) && Counted(s)
    requires var t := Final(fits, s, es); j < k < |t.fired| && t.fired[j].stream == t.fired[k].stream
    ensures var t := Final(fits, s, es);
            && t.fired[j].seqNo <= t.fired[k].seqNo
            && (t.fired[j].seqNo == t.fired[k].seqNo <==>
                  forall i | 0 <= i < |t.bumps| ::
                    !(t.bumps[i].stream == t.fired[j].stream && j < t.bumps[i].firedBefore <= k))
  {
    RunKeepsCount(fits, s, es);
    var t := Final(fits, s, es);
    AdvancesBetween(t.bumps, t.fired[j].stream, j, k);
  }

  // ---------------------------------------------------------------- the deduplicating receiver

  predicate SameKey(a: Frame, b: Frame) {
    a.stream == b.stream && a.seqNo == b.seqNo
  }

  /** Arrival p is the first of its key, so the receiver keeps it. */
  ghost predicate KeptFirst(s: State, p: nat) {
    && p < |s.arrived| && s.arrived[p] < |s.fired|
    && forall q: nat | q < p :: s.arrived[q] < |s.fired| ==> !SameKey(s.fired[s.arrived[q]], s.fired[s.arrived[p]])
  }

  ghost predicate Held(s: State, r: Record) {
    exists p: nat :: KeptFirst(s, p) && r in s.fired[s.arrived[p]].recs
  }

  /** An acknowledged frame carries no record that the frame kept for its key lacks; in particular when every retry
    * repeats the records of the first attempt. */
  ghost predicate RetriesAddNothing(s: State) {
    forall j, p: nat |
        j in s.acked && j < |s.fired| && KeptFirst(s, p) && SameKey(s.fired[s.arrived[p]], s.fired[j]) ::
      forall r | r in s.fired[j].recs :: r in s.fired[s.arrived[p]].recs
  }

  lemma {:induction false} KeyIsKept(s: State, p: nat) returns (first: nat)
    requires p < |s.arrived| && s.arrived[p] < |s.fired|
    ensures KeptFirst(s, first) && SameKey(s.fired[s.arrived[first]], s.fired[s.arrived[p]])
    decreases p
  {
    if KeptFirst(s, p) {
      first := p;
    } else {
      var q: nat :| q < p && s.arrived[q] < |s.fired| && SameKey(s.fired[s.arrived[q]], s.fired[s.arrived[p]]);
      first := KeyIsKept(s, q);
    }
  }

  lemma DeliveredIsHeld(fits: Fits, s: State, r: Record)
    requires Inv(fits, s) && RetriesAddNothing(s) && Delivered(s, r)
    ensures Held(s, r)
  {
    var j :| j in s.acked && j < |s.fired| && s.fired[j].stream == r.stream && r in s.fired[j].recs;
    var p :| 0 <= p < |s.arrived| && s.arrived[p] == j;
    var first := KeyIsKept(s, p);
    assert r in s.fired[s.arrived[first]].recs;
  }

  /** When no retry adds records under a seq already used, the receiver holds every consumed record that was not
    * dropped as too large, evicted, skipped by a commit or left behind by an Open. */
  lemma DedupeLosesNothing(fits: Fits, s: State, es: seq<Event>, l: nat, i: nat)
    requires Inv(fits, s) && RetriesAddNothing(Final(fits, s, es))
    requires l < CLASSES && i < Final(fits, s, es).lanes[l].cur
    ensures var t := Final(fits, s, es);
            && i < |t.lanes[l].log|
            && var r := t.lanes[l].log[i];
               Held(t, r) || r in t.dropped || r in t.evicted || r in t.skipped || r in t.overrun
  {
    var t := Final(fits, s, es);
    assert i < t.lanes[l].cur <= |t.lanes[l].log|;
    assert Settled(t, t.lanes[l].log[i]);
    if Delivered(t, t.lanes[l].log[i]) {
      DeliveredIsHeld(fits, t, t.lanes[l].log[i]);
    }
  }

  // ---------------------------------------------------------------- a retry with more records

  const R0 := Record(0, Events, 1)
  const R1 := Record(1, Events, 1)
  const F0 := Frame(Events, 0, [R0])
  const F1 := Frame(Events, 0, [R0, R1])

  /** One event in the spool, its frame sent and arrived. */
  function FirstSent(flight: Option<Flight>): State {
    START.(lanes := [Plain([R0], 0, 0, 0, 0, false, false), EMPTY, EMPTY], places := [Place(0, 0)],
           flight := flight, fired := [F0], arrived := [0])
  }

  /** After the lost acknowledgement a second event joined it and both were sent again. */
  function SecondSent(phase: Phase, arrived: seq<nat>, acked: set<nat>): State {
    START.(lanes := [Plain([R0, R1], 0, 0, 0, 0, false, false), EMPTY, EMPTY], places := [Place(0, 0), Place(0, 1)],
           flight := Some(Flight(0, 0, [R0, R1], phase)), fired := [F0, F1], arrived := arrived, acked := acked)
  }

  function Committed(): State {
    SecondSent(Acked(1), [0, 1], {1}).(
      seqs := map[Events := 1], bumps := [Bump(Events, 2)], flight := None,
      lanes := [Plain([R0, R1], 0, 2, 2, 2, true, false), EMPTY, EMPTY])
  }

  function Waiting(recs: seq<Record>, places: seq<Place>, fired: seq<Frame>, arrived: seq<nat>): State {
    START.(lanes := [Plain(recs, 0, 0, 0, 0, false, false), EMPTY, EMPTY], places := places, fired := fired,
           arrived := arrived)
  }

  lemma StoreFirst(fits: Fits)
    ensures Next(fits, START, Append(0, Events, 1, false)) == Waiting([R0], [Place(0, 0)], [], [])
  {
    var t := Next(fits, START, Append(0, Events, 1, false));
    assert [] + [R0] == [R0];
    assert t.lanes == [Plain([R0], 0, 0, 0, 0, false, false), EMPTY, EMPTY] && t.places == [Place(0, 0)];
  }

  lemma StoreSecond(fits: Fits)
    ensures Next(fits, FirstSent(None), Append(0, Events, 1, false)) ==
            Waiting([R0, R1], [Place(0, 0), Place(0, 1)], [F0], [0])
  {
    var t := Next(fits, FirstSent(None), Append(0, Events, 1, false));
    assert [R0] + [R1] == [R0, R1];
    assert t.lanes == [Plain([R0, R1], 0, 0, 0, 0, false, false), EMPTY, EMPTY];
    assert t.places == [Place(0, 0), Place(0, 1)];
  }

  /** With only events pending, all of them fitting one frame, everything is sent. */
  lemma FireAll(fits: Fits, s: State, recs: seq<Record>)
    requires AllValid(s.lanes) && |s.lanes| == 3 && s.flight.None?
    requires s.lanes[0] == Plain(recs, 0, 0, 0, 0, false, false)
    requires recs != [] && (forall r | r in recs :: r.stream == Events) && fits(Events, SeqOf(s.seqs, Events), recs)
    ensures Next(fits, s, Fire(|recs|)) ==
            s.(flight := Some(Flight(0, 0, recs, Sent(|s.fired|))),
               fired := s.fired + [Frame(Events, SeqOf(s.seqs, Events), recs)])
  {
    assert s.lanes[0].Pending() == recs && recs[..|recs|] == recs;
    assert Top(s.lanes) == 0;
    assert LeadingRun(recs) == recs by {
      assert RunLength(recs, Events) == |recs|;
    }
  }

  lemma ArriveFirst(fits: Fits)
    ensures var sent := FirstSent(Some(Flight(0, 0, [R0], Sent(0))));
            && Next(fits, sent.(arrived := []), Arrive(0)) == sent && Next(fits, sent, PublishErr) == FirstSent(None)
  {
    assert [] + [0] == [0];
  }

  lemma ArriveSecond(fits: Fits)
    ensures var sent := SecondSent(Sent(1), [0, 1], {});
            && Next(fits, sent.(arrived := [0]), Arrive(1)) == sent
            && Next(fits, sent, PublishOk) == SecondSent(Acked(1), [0, 1], {1})
  {
    assert [0] + [1] == [0, 1];
    assert 1 == [0, 1][1] && {} + {1} == {1};
  }

  lemma CommitBoth(fits: Fits)
    ensures Next(fits, BumpNext(SecondSent(Acked(1), [0, 1], {1})), Commit(Ok)) == Committed()
  {
    var bumped := BumpNext(SecondSent(Acked(1), [0, 1], {1}));
    assert bumped.seqs == map[Events := 1] && bumped.bumps == [Bump(Events, 2)];
    assert bumped.lanes[0].Pending() == [R0, R1];
    assert Eaten(bumped, Ok) == [R0, R1];
    var t := CommitNext(bumped, Ok);
    assert t.lanes == Committed().lanes;
    assert Elements([R0, R1]) - Elements([R0, R1]) == {};
  }

  lemma FirstAttempt(fits: Fits)
    requires fits(Events, 0, [R0])
    ensures Reachable(fits, FirstSent(None))
  {
    SentFirst(fits);
    ArriveFirst(fits);
    Follows(fits, FirstSent(Some(Flight(0, 0, [R0], Sent(0)))), PublishErr, FirstSent(None));
  }

  lemma SecondAttempt(fits: Fits)
    requires fits(Events, 0, [R0, R1]) && Reachable(fits, FirstSent(None))
    ensures Reachable(fits, Committed())
  {
    var both, acked := Waiting([R0, R1], [Place(0, 0), Place(0, 1)], [F0], [0]), SecondSent(Acked(1), [0, 1], {1});
    StoreSecond(fits);
    Follows(fits, FirstSent(None), Append(0, Events, 1, false), both);
    FireAll(fits, both, [R0, R1]);
    assert [F0] + [F1] == [F0, F1];
    Follows(fits, both, Fire(2), SecondSent(Sent(1), [0], {}));
    ArriveSecond(fits);
    Follows(fits, SecondSent(Sent(1), [0], {}), Arrive(1), SecondSent(Sent(1), [0, 1], {}));
    Follows(fits, SecondSent(Sent(1), [0, 1], {}), PublishOk, acked);
    Follows(fits, acked, BumpOk, BumpNext(acked));
    CommitBoth(fits);
    Follows(fits, BumpNext(acked), Commit(Ok), Committed());
  }

  /** An acknowledgement is lost, an event arrives, and the retry sends both under the same seq: the receiver
    * keeps the first frame, the hub commits both records, and the second event is in no frame that was kept. */
  lemma LostAckLosesAnEvent(fits: Fits)
    requires fits(Events, 0, [R0]) && fits(Events, 0, [R0, R1])
    ensures exists t :: Reachable(fits, t) && |t.lanes| == 3 && t.lanes[0].log == [R0, R1] && t.lanes[0].disk == 2
                        && Delivered(t, R1) && !Held(t, R1)
  {
    FirstAttempt(fits);
    SecondAttempt(fits);
    var t := Committed();
    assert t.fired[1].recs[1] == R1;
    assert SameKey(t.fired[t.arrived[0]], t.fired[t.arrived[1]]);
    assert !KeptFirst(t, 1);
    assert forall p: nat :: KeptFirst(t, p) ==> p == 0;
  }

  // ---------------------------------------------------------------- a power cut under a frame

  const G1 := Frame(Events, 0, [R1])

  /** The first event was sent, arrived and went with the power; a second one is in its place. */
  function Replaced(flight: Option<Flight>, fired: seq<Frame>, arrived: seq<nat>, acked: set<nat>): State {
    START.(lanes := [Plain([R1], 0, 0, 0, 0, false, false), EMPTY, EMPTY], places := [Place(0, 0), Place(0, 0)],
           flight := flight, fired := fired, arrived := arrived, acked := acked)
  }

  function ReplacedCommitted(): State {
    Replaced(None, [F0, G1], [0, 1], {1}).(
      seqs := map[Events := 1], bumps := [Bump(Events, 2)],
      lanes := [Plain([R1], 0, 1, 1, 1, true, false), EMPTY, EMPTY])
  }

  lemma PowerCutForgets(fits: Fits)
    ensures var sent := FirstSent(Some(Flight(0, 0, [R0], Sent(0))));
            Next(fits, Next(fits, sent, PowerCut([0, 0, 0])), Append(0, Events, 1, false)) ==
            Replaced(None, [F0], [0], {})
  {
    var sent := FirstSent(Some(Flight(0, 0, [R0], Sent(0))));
    var cut := Next(fits, sent, PowerCut([0, 0, 0]));
    assert Enabled(sent, PowerCut([0, 0, 0]));
    assert cut.lanes == [Plain([], 0, 0, 0, 0, false, false).(writing := false), EMPTY, EMPTY];
    assert cut.overrun == {};
    var t := Next(fits, cut, Append(0, Events, 1, false));
    assert [] + [R1] == [R1];
    assert t.lanes == [Plain([R1], 0, 0, 0, 0, false, false), EMPTY, EMPTY];
    assert t.places == [Place(0, 0), Place(0, 0)];
  }

  lemma ArriveReplaced(fits: Fits)
    ensures var flight := Some(Flight(0, 0, [R1], Sent(1)));
            var sent := Replaced(flight, [F0, G1], [0, 1], {});
            && Next(fits, sent.(arrived := [0]), Arrive(1)) == sent
            && Next(fits, sent, PublishOk) == Replaced(Some(Flight(0, 0, [R1], Acked(1))), [F0, G1], [0, 1], {1})
  {
    assert [0] + [1] == [0, 1];
    assert 1 == [0, 1][1] && {} + {1} == {1};
  }

  lemma CommitReplaced(fits: Fits)
    ensures Next(fits, BumpNext(Replaced(Some(Flight(0, 0, [R1], Acked(1))), [F0, G1], [0, 1], {1})), Commit(Ok)) ==
            ReplacedCommitted()
  {
    var bumped := BumpNext(Replaced(Some(Flight(0, 0, [R1], Acked(1))), [F0, G1], [0, 1], {1}));
    assert bumped.seqs == map[Events := 1] && bumped.bumps == [Bump(Events, 2)];
    assert bumped.lanes[0].Pending() == [R1];
    assert Eaten(bumped, Ok) == [R1];
    var t := CommitNext(bumped, Ok);
    assert t.lanes == ReplacedCommitted().lanes;
    assert Elements([R1]) - Elements([R1]) == {};
  }

  lemma SentFirst(fits: Fits)
    requires fits(Events, 0, [R0])
    ensures Reachable(fits, FirstSent(Some(Flight(0, 0, [R0], Sent(0)))))
  {
    StartIsInv(fits);
    assert Final(fits, START, []) == START;
    var stored, sent := Waiting([R0], [Place(0, 0)], [], []), FirstSent(Some(Flight(0, 0, [R0], Sent(0))));
    StoreFirst(fits);
    Follows(fits, START, Append(0, Events, 1, false), stored);
    FireAll(fits, stored, [R0]);
    assert [] + [F0] == [F0];
    Follows(fits, stored, Fire(1), sent.(arrived := []));
    ArriveFirst(fits);
    Follows(fits, sent.(arrived := []), Arrive(0), sent);
  }

  lemma ReplaceAndSend(fits: Fits)
    requires fits(Events, 0, [R1]) && Reachable(fits, FirstSent(Some(Flight(0, 0, [R0], Sent(0)))))
    ensures Reachable(fits, ReplacedCommitted())
  {
    var sent := FirstSent(Some(Flight(0, 0, [R0], Sent(0))));
    var waiting := Replaced(None, [F0], [0], {});
    PowerCutForgets(fits);
    Follows(fits, sent, PowerCut([0, 0, 0]), Next(fits, sent, PowerCut([0, 0, 0])));
    Follows(fits, Next(fits, sent, PowerCut([0, 0, 0])), Append(0, Events, 1, false), waiting);
    FireAll(fits, waiting, [R1]);
    assert [F0] + [G1] == [F0, G1];
    Follows(fits, waiting, Fire(1), Replaced(Some(Flight(0, 0, [R1], Sent(1))), [F0, G1], [0], {}));
    SendReplaced(fits);
  }

  lemma SendReplaced(fits: Fits)
    requires Reachable(fits, Replaced(Some(Flight(0, 0, [R1], Sent(1))), [F0, G1], [0], {}))
    ensures Reachable(fits, ReplacedCommitted())
  {
    var sent := Replaced(Some(Flight(0, 0, [R1], Sent(1))), [F0, G1], [0, 1], {});
    var acked := Replaced(Some(Flight(0, 0, [R1], Acked(1))), [F0, G1], [0, 1], {1});
    ArriveReplaced(fits);
    Follows(fits, sent.(arrived := [0]), Arrive(1), sent);
    Follows(fits, sent, PublishOk, acked);
    Follows(fits, acked, BumpOk, BumpNext(acked));
    CommitReplaced(fits);
    Follows(fits, BumpNext(acked), Commit(Ok), ReplacedCommitted());
  }

  /** An unsynced record is peeked, sent and arrives, and the power goes before the commit would have synced it: the
    * next event goes out under the same seq and the receiver keeps the frame of the forgotten one. */
  lemma PowerCutLosesTheNextEvent(fits: Fits)
    requires fits(Events, 0, [R0]) && fits(Events, 0, [R1])
    ensures exists t :: Reachable(fits, t) && |t.lanes| == 3 && t.lanes[0].log == [R1] && t.lanes[0].disk == 1
                        && Delivered(t, R1) && !Held(t, R1)
  {
    SentFirst(fits);
    ReplaceAndSend(fits);
    var t := ReplacedCommitted();
    assert t.fired[1].recs[0] == R1;
    assert SameKey(t.fired[t.arrived[0]], t.fired[t.arrived[1]]);
    assert !KeptFirst(t, 1);
    assert forall p: nat :: KeptFirst(t, p) ==> p == 0;
  }
}

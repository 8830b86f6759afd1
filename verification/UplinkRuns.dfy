/** Whole runs of the uplink: while nothing is evicted under the frame in flight no commit skips a record, and a run
  * in which an eviction makes one skip an event. */
module UplinkRuns {
  import opened Prelude
  import opened Lanes
  import opened Frames
  import opened Uplink

  // ---------------------------------------------------------------- runs without eviction under a frame

  ghost predicate Undisturbed(s: State, e: Event) {
    e.Evict? && s.flight.Some? ==> e.lane != s.flight.value.lane
  }

  ghost predicate Calm(fits: Fits, s: State, es: seq<Event>)
    requires Inv(fits, s)
  {
    es == [] || (Calm(fits, s, es[..|es| - 1]) && Undisturbed(Final(fits, s, es[..|es| - 1]), es[|es| - 1]))
  }

  predicate Steady(s: State) {
    s.flight.Some? ==> s.flight.value.lane < |s.lanes| && s.lanes[s.flight.value.lane].cur == s.flight.value.start
  }

  lemma CalmStep(fits: Fits, s: State, e: Event)
    requires Inv(fits, s) && Steady(s) && Undisturbed(s, e)
    ensures Steady(Next(fits, s, e)) && Next(fits, s, e).skipped == s.skipped
  {
    if e.Commit? && Enabled(s, e) {
      CalmCommit(fits, s, e.end);
    }
  }

  lemma CalmCommit(fits: Fits, s: State, end: CommitEnd)
    requires Inv(fits, s) && Steady(s) && Enabled(s, Commit(end))
    ensures CommitNext(s, end).skipped == s.skipped
  {
    SafeCommitStaysInFrame(fits, s, end);
    assert Elements(Eaten(s, end)) - Elements(s.flight.value.recs) == {};
  }

  /** As long as nothing is evicted from the class of the frame in flight, every consumed record was sent,
    * dropped as too large, or evicted while it was pending. */
  lemma {:induction false} CalmRunsSkipNothing(fits: Fits, s: State, es: seq<Event>)
    requires Inv(fits, s) && s.flight.None? && Calm(fits, s, es)
    ensures Steady(Final(fits, s, es)) && Final(fits, s, es).skipped == s.skipped
    decreases |es|
  {
    if es != [] {
      CalmRunsSkipNothing(fits, s, es[..|es| - 1]);
      CalmStep(fits, Final(fits, s, es[..|es| - 1]), es[|es| - 1]);
    }
  }

  // ---------------------------------------------------------------- a run that loses an event

  ghost predicate Reachable(fits: Fits, t: State) {
    Inv(fits, START) && exists es :: Final(fits, START, es) == t
  }

  lemma Follows(fits: Fits, s: State, e: Event, t: State)
    requires Reachable(fits, s) && AllValid(s.lanes) && Next(fits, s, e) == t
    ensures Reachable(fits, t) && AllValid(t.lanes)
  {
    var es :| Final(fits, START, es) == s;
    assert (es + [e])[..|es|] == es;
    assert Final(fits, START, es + [e]) == t;
  }

  const TEL := Record(0, Telemetry, 1)
  const EVENT := Record(1, Events, 1)

  /** One telemetry record in the spool, its frame on the way. */
  function Flying(phase: Phase, arrived: seq<nat>, acked: set<nat>): State {
    START.(lanes := [EMPTY, EMPTY, Plain([TEL], 0, 0, 0, 0, false, false)], places := [Place(2, 0)],
           flight := Some(Flight(2, 0, [TEL], phase)), fired := [Frame(Telemetry, 0, [TEL])],
           arrived := arrived, acked := acked)
  }

  /** The same once its seq is advanced and an event arrived. */
  function EventWaiting(telemetry: Lane): State {
    Flying(Bumped(0), [0], {0}).(
      seqs := map[Telemetry := 1], bumps := [Bump(Telemetry, 1)],
      lanes := [Plain([EVENT], 0, 0, 0, 0, false, false), EMPTY, telemetry], places := [Place(2, 0), Place(0, 0)])
  }

  function BeforeEviction(): State {
    EventWaiting(Plain([TEL], 0, 0, 0, 0, false, false))
  }

  function AfterEviction(): State {
    EventWaiting(Plain([TEL], 1, 1, 0, 0, false, true)).(evicted := {TEL})
  }

  function Stored(): State {
    START.(lanes := [EMPTY, EMPTY, Plain([TEL], 0, 0, 0, 0, false, false)], places := [Place(2, 0)])
  }

  lemma Store(fits: Fits)
    ensures Next(fits, START, Append(2, Telemetry, 1, false)) == Stored()
  {
    var s1 := Next(fits, START, Append(2, Telemetry, 1, false));
    assert [] + [TEL] == [TEL];
    assert s1.lanes == [EMPTY, EMPTY, Plain([TEL], 0, 0, 0, 0, false, false)] && s1.places == [Place(2, 0)];
  }

  lemma FireStored(fits: Fits)
    requires fits(Telemetry, 0, [TEL])
    ensures AllValid(Stored().lanes) && Next(fits, Stored(), Fire(1)) == Flying(Sent(0), [], {})
  {
    var s := Stored();
    assert s.lanes[0].Pending() == s.lanes[1].Pending() == [] && s.lanes[2].Pending() == [TEL];
    assert Top(s.lanes) == 2;
    assert LeadingRun([TEL]) == [TEL] && [TEL][..1] == [TEL];
    assert [] + [Frame(Telemetry, 0, [TEL])] == [Frame(Telemetry, 0, [TEL])];
  }

  lemma Acknowledge(fits: Fits)
    ensures var sent, arrived := Flying(Sent(0), [], {}), Flying(Sent(0), [0], {});
            && Next(fits, sent, Arrive(0)) == arrived
            && Next(fits, arrived, PublishOk) == Flying(Acked(0), [0], {0})
  {
    assert [] + [0] == [0] && {} + {0} == {0};
    assert 0 in Flying(Sent(0), [0], {}).arrived;
  }

  lemma BumpAndAppend(fits: Fits)
    ensures var acked := Flying(Acked(0), [0], {0});
            Next(fits, BumpNext(acked), Append(0, Events, 1, false)) ==
            BeforeEviction()
  {
    var bumped := BumpNext(Flying(Acked(0), [0], {0}));
    assert bumped.seqs == map[Telemetry := 1];
    assert bumped.bumps == [Bump(Telemetry, 1)];
    var t := Next(fits, bumped, Append(0, Events, 1, false));
    assert [] + [EVENT] == [EVENT];
    assert t.lanes == [Plain([EVENT], 0, 0, 0, 0, false, false), EMPTY, Plain([TEL], 0, 0, 0, 0, false, false)];
    assert t.places == [Place(2, 0), Place(0, 0)];
  }

  lemma EvictAndCommit(fits: Fits)
    ensures var full, empty := BeforeEviction(), AfterEviction();
            && Next(fits, full, Evict(2, 1, true)) == empty
            && var t := Next(fits, empty, Commit(Ok));
               t.lanes[0] == Plain([EVENT], 0, 1, 1, 1, true, false) && t.skipped == {EVENT} && t.fired == empty.fired
  {
    var full, empty := BeforeEviction(), AfterEviction();
    var evicted := Next(fits, full, Evict(2, 1, true));
    assert evicted.lanes == empty.lanes;
    assert [TEL][0..1] == [TEL] && {} + Elements([TEL]) == {TEL};
    assert Target(empty.lanes, 2) == 0;
    assert Eaten(empty, Ok) == [EVENT];
    assert Elements([EVENT]) - Elements([TEL]) == {EVENT};
  }

  /** A consumed record that no frame ever carried. */
  ghost predicate LosesEvent(t: State) {
    |t.lanes| > 0 && t.lanes[0].log == [EVENT] && t.lanes[0].disk == 1
    && forall j | 0 <= j < |t.fired| :: EVENT !in t.fired[j].recs
  }

  /** A telemetry frame is acknowledged, then an event arrives and evicts the class of the frame: the commit
    * falls on the event instead, which is durably consumed and in no frame. */
  lemma EvictionSkipsAnEvent(fits: Fits)
    requires fits(Telemetry, 0, [TEL])
    ensures exists t :: Reachable(fits, t) && LosesEvent(t)
  {
    StartIsInv(fits);
    assert Final(fits, START, []) == START;
    Store(fits);
    Follows(fits, START, Append(2, Telemetry, 1, false), Stored());
    FireStored(fits);
    Follows(fits, Stored(), Fire(1), Flying(Sent(0), [], {}));
    SendAcknowledged(fits);
    var t := EvictAndLose(fits);
    assert Reachable(fits, t) && LosesEvent(t);
  }

  lemma SendAcknowledged(fits: Fits)
    requires Reachable(fits, Flying(Sent(0), [], {}))
    ensures Reachable(fits, BeforeEviction())
  {
    var sent, arrived, acked := Flying(Sent(0), [], {}), Flying(Sent(0), [0], {}), Flying(Acked(0), [0], {0});
    Acknowledge(fits);
    Follows(fits, sent, Arrive(0), arrived);
    Follows(fits, arrived, PublishOk, acked);
    Follows(fits, acked, BumpOk, BumpNext(acked));
    BumpAndAppend(fits);
    Follows(fits, BumpNext(acked), Append(0, Events, 1, false), BeforeEviction());
  }

  lemma EvictAndLose(fits: Fits) returns (t: State)
    requires Reachable(fits, BeforeEviction())
    ensures Reachable(fits, t) && LosesEvent(t)
  {
    var full, empty := BeforeEviction(), AfterEviction();
    EvictAndCommit(fits);
    Follows(fits, full, Evict(2, 1, true), empty);
    t := Next(fits, empty, Commit(Ok));
    Follows(fits, empty, Commit(Ok), t);
  }
}

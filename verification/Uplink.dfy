/** The store-and-forward uplink as a state machine over its smallest steps: appends and evictions by other
  * goroutines, frames that arrive late, twice or never, lost acknowledgements, failed file writes, and power cuts and
  * process restarts anywhere between Peek and Commit. */
module Uplink {
  import opened Prelude
  import opened Lanes
  import opened Frames

  const CLASSES: nat := 3

  /** How far a drain is between its Peek and its Commit; `idx` is its frame's place among those fired. */
  datatype Phase = TooBig | Sent(idx: nat) | Acked(idx: nat) | Bumped(idx: nat)

  datatype Flight = Flight(lane: nat, start: nat, recs: seq<Record>, phase: Phase)

  datatype Bump = Bump(stream: Stream, firedBefore: nat)

  datatype Place = Place(lane: nat, index: nat)

  datatype State = State(
    lanes: seq<Lane>, seqs: map<Stream, nat>, flight: Option<Flight>,
    // History: frames fired and their arrivals at the cloud in order, those acknowledged, seq advances, what
    // became of consumed records other than being sent (given up, evicted, consumed by a commit without being in its
    // frame, left behind by Open), and where each record was appended.
    fired: seq<Frame>, arrived: seq<nat>, acked: set<nat>, bumps: seq<Bump>,
    dropped: set<Record>, evicted: set<Record>, skipped: set<Record>, overrun: set<Record>, places: seq<Place>)

  datatype Event =
    | Append(lane: nat, stream: Stream, size: nat, under: bool)
    | Evict(lane: nat, upto: nat, last: bool)
    | Sync(lane: nat)
    | Fire(peeked: nat)
    | Arrive(idx: nat)
    | PublishOk
    | PublishErr
    | BumpOk
    | BumpErr
    | Commit(end: CommitEnd)
    | PowerCut(keep: seq<nat>)
    | Restart(keep: seq<nat>, firm: seq<nat>)

  const START := State([EMPTY, EMPTY, EMPTY], map[], None, [], [], {}, [], {}, {}, {}, {}, [])

  function Elements(recs: seq<Record>): set<Record> {
    set r | r in recs
  }

  // ---------------------------------------------------------------- steps

  predicate Enabled(s: State, e: Event)
    requires AllValid(s.lanes)
  {
    match e
    case Append(lane, _, _, _) => lane < |s.lanes|
    case Evict(lane, upto, last) =>
      && lane < |s.lanes| && s.lanes[lane].base <= upto <= |s.lanes[lane].log|
      && (last ==> upto == |s.lanes[lane].log|)
    case Sync(lane) => lane < |s.lanes|
    case Fire(peeked) =>
      var t := Top(s.lanes);
      s.flight.None? && t < |s.lanes| && 1 <= peeked <= |s.lanes[t].Pending()|
    case Arrive(idx) => idx < |s.fired|
    // An acknowledged QoS 1 publish has arrived (MQTT 3.1.1 section 4.3.2).
    case PublishOk => s.flight.Some? && s.flight.value.phase.Sent? && s.flight.value.phase.idx in s.arrived
    case PublishErr => s.flight.Some? && s.flight.value.phase.Sent?
    case BumpOk => s.flight.Some? && s.flight.value.phase.Acked? && s.flight.value.recs != []
    case BumpErr => s.flight.Some? && s.flight.value.phase.Acked?
    case Commit(_) =>
      && s.flight.Some? && (s.flight.value.phase.TooBig? || s.flight.value.phase.Bumped?)
      && s.flight.value.lane < |s.lanes|
    case PowerCut(keep) => |keep| == |s.lanes| && forall l | 0 <= l < |keep| :: s.lanes[l].CutTo(keep[l])
    case Restart(keep, firm) =>
      && |keep| == |firm| == |s.lanes| && forall l | 0 <= l < |keep| :: s.lanes[l].LeftWith(keep[l], firm[l])
  }

  /** Peek the top class, take its leading run of one stream, pack what fits and publish it. */
  function FireNext(fits: Fits, s: State, peeked: nat): State
    requires AllValid(s.lanes) && Enabled(s, Fire(peeked))
  {
    var t := Top(s.lanes);
    var run := LeadingRun(s.lanes[t].Pending()[..peeked]);
    var stream := run[0].stream;
    var seqNo := SeqOf(s.seqs, stream);
    match FirstFit(fits, stream, seqNo, run, |run|)
    case None => s.(flight := Some(Flight(t, s.lanes[t].cur, run[..1], TooBig)))
    case Some(n) =>
      s.(flight := Some(Flight(t, s.lanes[t].cur, run[..n], Sent(|s.fired|))),
         fired := s.fired + [Frame(stream, seqNo, run[..n])])
  }

  function BumpNext(s: State): State
    requires AllValid(s.lanes) && Enabled(s, BumpOk)
  {
    var f := s.flight.value;
    var stream := f.recs[0].stream;
    s.(flight := Some(f.(phase := Bumped(f.phase.idx))),
       seqs := s.seqs[stream := SeqOf(s.seqs, stream) + 1],
       bumps := s.bumps + [Bump(stream, |s.fired|)])
  }

  /** What the spool consumes on this commit. */
  function Eaten(s: State, end: CommitEnd): seq<Record>
    requires AllValid(s.lanes) && Enabled(s, Commit(end))
  {
    if end.SyncFails? then [] else Consumed(s.lanes, s.flight.value.lane, |s.flight.value.recs|)
  }

  function CommitNext(s: State, end: CommitEnd): State
    requires AllValid(s.lanes) && Enabled(s, Commit(end))
  {
    var f := s.flight.value;
    var eaten := Elements(Eaten(s, end));
    s.(lanes := CommitTo(s.lanes, f.lane, |f.recs|, end), flight := None,
       dropped := if f.phase.TooBig? then s.dropped + eaten * Elements(f.recs) else s.dropped,
       skipped := s.skipped + (eaten - Elements(f.recs)))
  }

  /** What a new process may find in the classes. */
  predicate Openable(s: State, keep: seq<nat>, firm: seq<nat>) {
    && |keep| == |firm| == |s.lanes|
    && forall l | 0 <= l < |keep| :: s.lanes[l].Opens(keep[l], firm[l])
  }

  /** A new process starts over from the files: it finds `keep` records of each class, `firm` of them synced. */
  function OpenNext(s: State, keep: seq<nat>, firm: seq<nat>): State
    requires AllValid(s.lanes) && Openable(s, keep, firm)
  {
    s.(flight := None, lanes := seq(|s.lanes|, l requires 0 <= l < |s.lanes| => s.lanes[l].Open(keep[l], firm[l])),
       overrun := s.overrun + (set l, r | 0 <= l < |s.lanes| && r in s.lanes[l].Skipped(keep[l]) :: r))
  }

  function Next(fits: Fits, s: State, e: Event): State
    requires AllValid(s.lanes)
  {
    if !Enabled(s, e) then s else
    match e
    case Append(l, stream, size, under) =>
      s.(lanes := s.lanes[l := s.lanes[l].Append(Record(|s.places|, stream, size), under)],
         places := s.places + [Place(l, |s.lanes[l].log|)])
    case Evict(l, upto, last) =>
      s.(lanes := s.lanes[l := s.lanes[l].Evict(upto, last)],
         evicted := s.evicted + Elements(s.lanes[l].log[s.lanes[l].cur..Max(s.lanes[l].cur, upto)]))
    case Sync(l) => s.(lanes := s.lanes[l := s.lanes[l].Sync()])
    case Fire(peeked) => FireNext(fits, s, peeked)
    case Arrive(idx) => s.(arrived := s.arrived + [idx])
    case PublishOk =>
      var f := s.flight.value;
      s.(flight := Some(f.(phase := Acked(f.phase.idx))), acked := s.acked + {f.phase.idx})
    case PublishErr => s.(flight := None)
    case BumpOk => BumpNext(s)
    case BumpErr => s.(flight := None)
    case Commit(end) => CommitNext(s, end)
    case PowerCut(keep) => OpenNext(s, keep, keep)
    case Restart(keep, firm) => OpenNext(s, keep, firm)
  }

  // ---------------------------------------------------------------- what every step keeps

  /** What became of a consumed record. */
  ghost predicate Settled(s: State, r: Record) {
    Delivered(s, r) || r in s.dropped || r in s.evicted || r in s.skipped || r in s.overrun
  }

  ghost predicate FatesGrow(s: State, t: State) {
    s.dropped <= t.dropped && s.evicted <= t.evicted && s.skipped <= t.skipped && s.overrun <= t.overrun
  }

  /** In an acknowledged frame of its own stream. */
  ghost predicate Delivered(s: State, r: Record) {
    exists j :: j in s.acked && j < |s.fired| && s.fired[j].stream == r.stream && r in s.fired[j].recs
  }

  ghost predicate Accounts(s: State) {
    forall l, i | 0 <= l < |s.lanes| && 0 <= i < s.lanes[l].cur <= |s.lanes[l].log| :: Settled(s, s.lanes[l].log[i])
  }

  /** Only a record whose frame alone is too large is dropped. */
  ghost predicate DroppedAreTooBig(fits: Fits, s: State) {
    forall r | r in s.dropped :: exists seqNo :: !fits(r.stream, seqNo, [r])
  }

  /** The frame in flight holds the records from where Peek found the cursor. */
  ghost predicate InFlight(fits: Fits, s: State, f: Flight) {
    && f.lane < |s.lanes| && f.recs != []
    && f.start <= s.lanes[f.lane].cur
    && f.start + |f.recs| <= |s.lanes[f.lane].log| && f.recs == s.lanes[f.lane].log[f.start..f.start + |f.recs|]
    && (forall r | r in f.recs :: r.stream == f.recs[0].stream)
    && if f.phase.TooBig? then |f.recs| == 1 && exists seqNo :: !fits(f.recs[0].stream, seqNo, f.recs)
       else
         && f.phase.idx < |s.fired|
         && s.fired[f.phase.idx].recs == f.recs && s.fired[f.phase.idx].stream == f.recs[0].stream
         && (!f.phase.Sent? ==> f.phase.idx in s.acked)
  }

  ghost predicate Inv(fits: Fits, s: State) {
    && |s.lanes| == CLASSES && AllValid(s.lanes)
    && Accounts(s) && DroppedAreTooBig(fits, s)
    && (s.flight.Some? ==> InFlight(fits, s, s.flight.value))
    && (forall j | j in s.acked :: j < |s.fired| && j in s.arrived)
    && (forall j | j in s.arrived :: j < |s.fired|)
    && Identified(s) && (forall r | r in s.overrun :: r.id < |s.places|)
  }

  /** A record's number tells where it was appended, so no two are alike. */
  ghost predicate Identified(s: State) {
    forall l, i | 0 <= l < |s.lanes| && 0 <= i < |s.lanes[l].log| :: At(s, s.lanes[l].log[i], l, i)
  }

  ghost predicate At(s: State, r: Record, l: int, i: int) {
    r.id < |s.places| && s.places[r.id].lane == l && s.places[r.id].index == i
  }

  lemma SettledStays(s: State, t: State, r: Record)
    requires Settled(s, r) && s.fired <= t.fired && s.acked <= t.acked
    requires FatesGrow(s, t)
    ensures Settled(t, r)
  {
    if Delivered(s, r) {
      var j :| j in s.acked && j < |s.fired| && s.fired[j].stream == r.stream && r in s.fired[j].recs;
      assert t.fired[j] == s.fired[j];
    }
  }

  lemma AccountsStay(s: State, t: State)
    requires Accounts(s) && |s.lanes| == |t.lanes| && AllValid(s.lanes) && AllValid(t.lanes)
    requires s.fired <= t.fired && s.acked <= t.acked
    requires FatesGrow(s, t)
    requires forall l, i | 0 <= l < |t.lanes| && 0 <= i < t.lanes[l].cur ::
               (i < s.lanes[l].cur && t.lanes[l].log[i] == s.lanes[l].log[i]) || Settled(t, t.lanes[l].log[i])
    ensures Accounts(t)
  {
    forall l, i | 0 <= l < |t.lanes| && 0 <= i < t.lanes[l].cur <= |t.lanes[l].log|
      ensures Settled(t, t.lanes[l].log[i])
    {
      if i < s.lanes[l].cur && t.lanes[l].log[i] == s.lanes[l].log[i] {
        assert i < s.lanes[l].cur <= |s.lanes[l].log|;
        SettledStays(s, t, s.lanes[l].log[i]);
      }
    }
  }

  lemma AppendKeepsInv(fits: Fits, s: State, e: Event)
    requires Inv(fits, s) && e.Append? && Enabled(s, e)
    ensures Inv(fits, Next(fits, s, e))
  {
    AccountsStay(s, Next(fits, s, e));
  }

  lemma EvictedAreSettled(s: State, l: nat, upto: nat, last: bool, m: int, i: int)
    requires AllValid(s.lanes) && Enabled(s, Evict(l, upto, last)) && 0 <= m < |s.lanes|
    requires var a := s.lanes[l].Evict(upto, last); 0 <= i < if m == l then a.cur else s.lanes[m].cur
    ensures i < |s.lanes[m].log|
    ensures var gone := Elements(s.lanes[l].log[s.lanes[l].cur..Max(s.lanes[l].cur, upto)]);
            i < s.lanes[m].cur || s.lanes[m].log[i] in gone
  {
    var gone := s.lanes[l].log[s.lanes[l].cur..Max(s.lanes[l].cur, upto)];
    if i >= s.lanes[m].cur {
      assert s.lanes[m].log[i] == gone[i - s.lanes[m].cur];
    }
  }

  lemma EvictKeepsInv(fits: Fits, s: State, l: nat, upto: nat, last: bool)
    requires Inv(fits, s) && Enabled(s, Evict(l, upto, last))
    ensures Inv(fits, Next(fits, s, Evict(l, upto, last)))
  {
    var t := Next(fits, s, Evict(l, upto, last));
    forall m, i | 0 <= m < |t.lanes| && 0 <= i < t.lanes[m].cur
      ensures (i < s.lanes[m].cur && t.lanes[m].log[i] == s.lanes[m].log[i]) || Settled(t, t.lanes[m].log[i])
    {
      EvictedAreSettled(s, l, upto, last, m, i);
    }
    AccountsStay(s, t);
  }

  lemma RunIsPending(lane: Lane, peeked: nat, n: nat)
    requires lane.Valid() && peeked <= |lane.Pending()| && n <= |LeadingRun(lane.Pending()[..peeked])|
    ensures var run := LeadingRun(lane.Pending()[..peeked]);
            && lane.cur + n <= |lane.log| && run[..n] == lane.log[lane.cur..lane.cur + n]
            && forall r | r in run[..n] :: r.stream == run[0].stream
  {
    var run := LeadingRun(lane.Pending()[..peeked]);
    assert run == lane.Pending()[..|run|];
    assert run[..n] == lane.Pending()[..n] == lane.log[lane.cur..lane.cur + n];
    forall r | r in run[..n]
      ensures r.stream == run[0].stream
    {
      assert r in run && run[0] == lane.Pending()[..peeked][0];
    }
  }

  lemma FireInFlight(fits: Fits, s: State, peeked: nat)
    requires Inv(fits, s) && Enabled(s, Fire(peeked))
    ensures InFlight(fits, FireNext(fits, s, peeked), FireNext(fits, s, peeked).flight.value)
  {
    var t := Top(s.lanes);
    var run := LeadingRun(s.lanes[t].Pending()[..peeked]);
    var r := FirstFit(fits, run[0].stream, SeqOf(s.seqs, run[0].stream), run, |run|);
    RunIsPending(s.lanes[t], peeked, if r.Some? then r.value else 1);
  }

  lemma FireKeepsInv(fits: Fits, s: State, peeked: nat)
    requires Inv(fits, s) && Enabled(s, Fire(peeked))
    ensures Inv(fits, Next(fits, s, Fire(peeked)))
  {
    FireInFlight(fits, s, peeked);
    AccountsStay(s, FireNext(fits, s, peeked));
  }

  /** Each record a commit consumes was in the frame, hence acknowledged or dropped, or is counted as skipped. */
  lemma EatenAreSettled(fits: Fits, s: State, end: CommitEnd, r: Record)
    requires Inv(fits, s) && Enabled(s, Commit(end)) && r in Eaten(s, end)
    ensures Settled(CommitNext(s, end), r)
  {
    var f := s.flight.value;
    if r in f.recs && !f.phase.TooBig? {
      assert f.phase.idx in s.acked && s.fired[f.phase.idx].recs == f.recs;
      assert Delivered(CommitNext(s, end), r);
    }
  }

  lemma CommitKeepsInv(fits: Fits, s: State, end: CommitEnd)
    requires Inv(fits, s) && Enabled(s, Commit(end))
    ensures Inv(fits, CommitNext(s, end))
  {
    var f, t := s.flight.value, CommitNext(s, end);
    CommitConsumes(s.lanes, f.lane, |f.recs|, end);
    forall l, i | 0 <= l < |t.lanes| && 0 <= i < t.lanes[l].cur
      ensures (i < s.lanes[l].cur && t.lanes[l].log[i] == s.lanes[l].log[i]) || Settled(t, t.lanes[l].log[i])
    {
      if i >= s.lanes[l].cur {
        EatenAreSettled(fits, s, end, t.lanes[l].log[i]);
      }
    }
    AccountsStay(s, t);
    CommitDrops(fits, s, end);
  }

  lemma CommitDrops(fits: Fits, s: State, end: CommitEnd)
    requires Inv(fits, s) && Enabled(s, Commit(end))
    ensures DroppedAreTooBig(fits, CommitNext(s, end))
  {
    var f := s.flight.value;
    forall r | r in CommitNext(s, end).dropped
      ensures exists seqNo :: !fits(r.stream, seqNo, [r])
    {
      if r !in s.dropped {
        assert f.recs == [r];
      }
    }
  }

  /** What Open leaves behind is what lies between the durable position and where it starts. */
  lemma OpenKeepsInv(fits: Fits, s: State, keep: seq<nat>, firm: seq<nat>)
    requires Inv(fits, s) && Openable(s, keep, firm)
    ensures Inv(fits, OpenNext(s, keep, firm))
  {
    var t := OpenNext(s, keep, firm);
    forall l, i | 0 <= l < |t.lanes| && 0 <= i < t.lanes[l].cur
      ensures (i < s.lanes[l].cur && t.lanes[l].log[i] == s.lanes[l].log[i]) || Settled(t, t.lanes[l].log[i])
    {
      OpenConsumes(s.lanes[l], keep[l], firm[l], i);
      if s.lanes[l].log[i] in s.lanes[l].Skipped(keep[l]) {
        assert s.lanes[l].log[i] in t.overrun;
      }
    }
    forall l | 0 <= l < |t.lanes|
      ensures t.lanes[l].Valid()
    {
      OpenKeepsDurable(s.lanes[l], keep[l], firm[l]);
    }
    AccountsStay(s, t);
    OverrunIsKnown(fits, s, keep, firm);
  }

  lemma OverrunIsKnown(fits: Fits, s: State, keep: seq<nat>, firm: seq<nat>)
    requires Inv(fits, s) && Openable(s, keep, firm)
    ensures forall r | r in OpenNext(s, keep, firm).overrun :: r.id < |s.places|
  {
    forall l, i | 0 <= l < |s.lanes| && 0 <= i < |s.lanes[l].Skipped(keep[l])|
      ensures s.lanes[l].Skipped(keep[l])[i].id < |s.places|
    {
      var a := s.lanes[l];
      assert At(s, a.log[Max(a.disk, a.base) + i], l, Max(a.disk, a.base) + i);
    }
  }

  lemma PublishKeepsInv(fits: Fits, s: State, e: Event)
    requires Inv(fits, s) && Enabled(s, e) && e in {PublishOk, PublishErr, BumpOk, BumpErr}
    ensures Inv(fits, Next(fits, s, e))
  {
    AccountsStay(s, Next(fits, s, e));
  }

  lemma StepKeepsInv(fits: Fits, s: State, e: Event)
    requires Inv(fits, s)
    ensures Inv(fits, Next(fits, s, e))
  {
    if Enabled(s, e) {
      match e
      case Append(_, _, _, _) => AppendKeepsInv(fits, s, e);
      case Evict(l, upto, last) => EvictKeepsInv(fits, s, l, upto, last);
      case Sync(l) => AccountsStay(s, Next(fits, s, e));
      case Fire(peeked) => FireKeepsInv(fits, s, peeked);
      case Arrive(_) => AccountsStay(s, Next(fits, s, e));
      case Commit(end) => CommitKeepsInv(fits, s, end);
      case PowerCut(keep) => OpenKeepsInv(fits, s, keep, keep);
      case Restart(keep, firm) => OpenKeepsInv(fits, s, keep, firm);
      case _ => PublishKeepsInv(fits, s, e);
    }
  }

  // ---------------------------------------------------------------- conservation over whole runs

  lemma StartIsInv(fits: Fits)
    ensures Inv(fits, START)
  {}

  /** Every run keeps account of every record: whatever a class has consumed was in an acknowledged frame of its
    * own stream, dropped as too large to send, evicted, skipped by a commit, or left behind by Open. */
  ghost function Final(fits: Fits, s: State, es: seq<Event>): (t: State)
    requires Inv(fits, s)
    ensures Inv(fits, t)
    decreases |es|
  {
    if es == [] then s else
      var before := Final(fits, s, es[..|es| - 1]);
      StepKeepsInv(fits, before, es[|es| - 1]);
      Next(fits, before, es[|es| - 1])
  }

  lemma StepKeepsDurable(fits: Fits, s: State, e: Event, l: nat)
    requires AllValid(s.lanes) && l < |s.lanes|
    ensures var t := Next(fits, s, e); |t.lanes| == |s.lanes| && Kept(s.lanes[l], t.lanes[l])
  {
    GrowthKeepsDurable(s.lanes[l], Record(0, Events, 0), false);
    if Enabled(s, e) {
      match e
      case Append(_, stream, size, under) =>
        GrowthKeepsDurable(s.lanes[l], Record(|s.places|, stream, size), under);
      case Evict(m, upto, last) => if m == l { EvictionKeepsDurable(s.lanes[l], upto, last); }
      case Commit(end) => CommitKeepsDurable(s.lanes[l], |s.flight.value.recs|);
      case PowerCut(keep) => OpenKeepsDurable(s.lanes[l], keep[l], keep[l]);
      case Restart(keep, firm) => OpenKeepsDurable(s.lanes[l], keep[l], firm[l]);
      case Sync(_) =>
      case _ => assert Next(fits, s, e).lanes == s.lanes;
    }
  }

  /** What was durably consumed in `a` is so in `b`, or gone. */
  ghost predicate StaysConsumed(a: Lane, b: Lane) {
    forall i | 0 <= i < a.disk <= |a.log| :: i < b.disk || i >= |b.log| || b.log[i] != a.log[i]
  }

  /** One step leaves each record in its place, puts a new one there or takes it away, and consumes more. */
  ghost predicate Moves(a: Lane, b: Lane, known: nat) {
    && (forall i | 0 <= i < |b.log| :: (i < |a.log| && b.log[i] == a.log[i]) || b.log[i].id >= known)
    && Min(a.disk, |b.log|) <= b.disk
  }

  lemma StepMoves(fits: Fits, s: State, e: Event, l: nat)
    requires AllValid(s.lanes) && l < |s.lanes|
    ensures var t := Next(fits, s, e); |t.lanes| == |s.lanes| && Moves(s.lanes[l], t.lanes[l], |s.places|)
  {
    if Enabled(s, e) {
      match e
      case Append(_, _, _, _) =>
      case Commit(end) => CommitMoves(s, end, l);
      case Evict(_, _, _) =>
      case Sync(_) =>
      case PowerCut(keep) =>
      case Restart(keep, firm) =>
      case _ => assert Next(fits, s, e).lanes == s.lanes;
    }
  }

  lemma CommitMoves(s: State, end: CommitEnd, l: nat)
    requires AllValid(s.lanes) && Enabled(s, Commit(end)) && l < |s.lanes|
    ensures Moves(s.lanes[l], CommitNext(s, end).lanes[l], |s.places|)
  {
  }

  lemma MovesStaysConsumed(a: Lane, b: Lane, c: Lane, known: nat)
    requires StaysConsumed(a, b) && Moves(b, c, known) && forall i | 0 <= i < |a.log| :: a.log[i].id < known
    ensures StaysConsumed(a, c)
  {
  }

  lemma PlacesGrow(fits: Fits, s: State, e: Event)
    requires AllValid(s.lanes)
    ensures s.places <= Next(fits, s, e).places
  {
  }

  lemma {:induction false} ConsumedStaysConsumed(fits: Fits, s: State, es: seq<Event>, l: nat)
    requires Inv(fits, s) && l < CLASSES
    ensures StaysConsumed(s.lanes[l], Final(fits, s, es).lanes[l]) && s.places <= Final(fits, s, es).places
    decreases |es|
  {
    if es != [] {
      ConsumedStaysConsumed(fits, s, es[..|es| - 1], l);
      var a := s.lanes[l];
      forall i | 0 <= i < |a.log|
        ensures a.log[i].id < |s.places|
      {
        assert At(s, a.log[i], l, i);
      }
      var before := Final(fits, s, es[..|es| - 1]);
      StepMoves(fits, before, es[|es| - 1], l);
      PlacesGrow(fits, before, es[|es| - 1]);
      MovesStaysConsumed(a, before.lanes[l], Next(fits, before, es[|es| - 1]).lanes[l], |before.places|);
    }
  }

  /** Whatever happens, a durably consumed record is never pending again, in no class. */
  lemma ConsumedNeverReturns(fits: Fits, s: State, es: seq<Event>, l: nat, i: nat, m: nat)
    requires Inv(fits, s) && l < CLASSES && i < s.lanes[l].disk && m < CLASSES
    ensures var a, b := s.lanes[l], Final(fits, s, es).lanes[m]; i < |a.log| && a.log[i] !in b.Pending()
  {
    ConsumedStaysConsumed(fits, s, es, l);
    var a, t := s.lanes[l], Final(fits, s, es);
    assert At(s, a.log[i], l, i);
    forall j | t.lanes[m].cur <= j < |t.lanes[m].log|
      ensures t.lanes[m].log[j] != a.log[i]
    {
      assert At(t, t.lanes[m].log[j], m, j);
    }
  }

  lemma EatenIsDurable(fits: Fits, s: State, r: Record) returns (l: nat, i: nat)
    requires Inv(fits, s) && Enabled(s, Commit(Ok)) && r in Eaten(s, Ok)
    ensures var t := CommitNext(s, Ok); l < |t.lanes| && i < t.lanes[l].disk && i < |t.lanes[l].log|
    ensures CommitNext(s, Ok).lanes[l].log[i] == r
  {
    l := Target(s.lanes, s.flight.value.lane);
    CommitTakesExactly(s.lanes, s.flight.value.lane, |s.flight.value.recs|, Ok);
    var k :| 0 <= k < |Eaten(s, Ok)| && Eaten(s, Ok)[k] == r;
    i := s.lanes[l].cur + k;
  }

  /** Hence what a successful commit consumes never comes back, in whatever class, after whatever follows. */
  lemma CommittedNeverReturns(fits: Fits, s: State, es: seq<Event>, r: Record, m: nat)
    requires Inv(fits, s) && Enabled(s, Commit(Ok)) && r in Eaten(s, Ok) && m < CLASSES
    ensures Inv(fits, CommitNext(s, Ok)) && r !in Final(fits, CommitNext(s, Ok), es).lanes[m].Pending()
  {
    StepKeepsInv(fits, s, Commit(Ok));
    var l, i := EatenIsDurable(fits, s, r);
    ConsumedNeverReturns(fits, CommitNext(s, Ok), es, l, i, m);
  }

  /** No record that reached the disk is forgotten: at any later time it is still where it was and either
    * pending or accounted for. */
  lemma {:induction false} DurableRecordsAreAccounted(fits: Fits, s: State, es: seq<Event>, l: nat)
    requires Inv(fits, s) && l < CLASSES
    ensures var a, b := s.lanes[l], Final(fits, s, es).lanes[l];
            && Kept(a, b)
            && forall i | 0 <= i < a.synced ::
                 b.log[i] == a.log[i] && (i >= b.cur || Settled(Final(fits, s, es), a.log[i]))
    decreases |es|
  {
    var t := Final(fits, s, es);
    if es != [] {
      var before := Final(fits, s, es[..|es| - 1]);
      DurableRecordsAreAccounted(fits, s, es[..|es| - 1], l);
      StepKeepsDurable(fits, before, es[|es| - 1], l);
    }
    var a, b := s.lanes[l], t.lanes[l];
    forall i | 0 <= i < a.synced
      ensures b.log[i] == a.log[i] && (i >= b.cur || Settled(t, a.log[i]))
    {
      assert b.log[i] == a.log[..a.synced][i];
    }
  }

  // ---------------------------------------------------------------- when a commit skips records

  /** Nothing was evicted under the frame, or nothing follows its records, or nothing at all is pending. */
  predicate CommitSafe(s: State)
    requires s.flight.Some? && AllValid(s.lanes) && s.flight.value.lane < |s.lanes|
  {
    var f := s.flight.value;
    var lane := s.lanes[f.lane];
    || lane.cur == f.start
    || (lane.Pending() != [] && |lane.log| == f.start + |f.recs|)
    || Top(s.lanes) == |s.lanes|
  }

  /** A commit consumes only records of the frame it commits exactly when that holds. */
  lemma CommitSkipsNothingIff(fits: Fits, s: State, end: CommitEnd)
    requires Inv(fits, s) && Enabled(s, Commit(end)) && !end.SyncFails?
    ensures (forall r | r in Eaten(s, end) :: r in s.flight.value.recs) <==> CommitSafe(s)
  {
    if CommitSafe(s) {
      SafeCommitStaysInFrame(fits, s, end);
    } else {
      var lane, eaten := s.lanes[Target(s.lanes, s.flight.value.lane)], Eaten(s, end);
      assert eaten == lane.Pending()[..|eaten|];
      assert eaten[|eaten| - 1] == lane.log[lane.cur + |eaten| - 1];
      OutsideTheFrame(fits, s, Target(s.lanes, s.flight.value.lane), lane.cur + |eaten| - 1);
    }
  }

  lemma SafeCommitStaysInFrame(fits: Fits, s: State, end: CommitEnd)
    requires Inv(fits, s) && Enabled(s, Commit(end)) && CommitSafe(s)
    ensures forall r | r in Eaten(s, end) :: r in s.flight.value.recs
  {
    var f, eaten := s.flight.value, Eaten(s, end);
    forall i | 0 <= i < |eaten|
      ensures eaten[i] in f.recs
    {
      assert f.recs[s.lanes[f.lane].cur + i - f.start] == eaten[i];
    }
  }

  lemma OutsideTheFrame(fits: Fits, s: State, l: nat, i: nat)
    requires Inv(fits, s) && s.flight.Some? && l < CLASSES && i < |s.lanes[l].log|
    requires l != s.flight.value.lane || i >= s.flight.value.start + |s.flight.value.recs|
    ensures s.lanes[l].log[i] !in s.flight.value.recs
  {
    var f := s.flight.value;
    forall k | 0 <= k < |f.recs|
      ensures f.recs[k] != s.lanes[l].log[i]
    {
      assert f.recs[k] == s.lanes[f.lane].log[f.start + k];
      assert At(s, f.recs[k], f.lane, f.start + k) && At(s, s.lanes[l].log[i], l, i);
    }
  }
}

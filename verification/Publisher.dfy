/** The optimistic publisher of retained documents: the desired-state actuators (cmd/hub/desired.go) and
  * its per-device copy for advanced functions (cmd/hub/adv.go).
  *
  * The state keeps every document ever fired; what the publisher believes to be on the broker, what is
  * still unresolved and what was acknowledged are indices into that list. */
module Publisher {
  import opened Prelude

  const HEARTBEAT := 150 // half of the reconciler's staleness bound
  const STALE_AFTER := 300

  datatype Doc<C> = Doc(content: C, issuedAt: int, seqNo: nat)

  /** What a non-blocking look at a publish finds. */
  datatype Verdict = InFlight | Acked | Failed | TimedOut

  datatype State<C> = State(
    fired: seq<Doc<C>>,
    belief: Option<nat>, seqNo: nat,
    pending: Option<nat>, prev: Option<nat>, prevSeq: nat,
    // History: the latest acknowledged publish, those rolled back, whether the pending one was fired over
    // an unresolved one, and whether such a one was rolled back since the latest acknowledgement.
    acked: Option<nat>, rolledBack: set<nat>, stacked: bool, tainted: bool)

  function Start<C>(): State<C> { State([], None, 0, None, None, 0, None, {}, false, false) }

  function Believed<C>(s: State<C>): Option<Doc<C>> {
    if s.belief.Some? && s.belief.value < |s.fired| then Some(s.fired[s.belief.value]) else None
  }

  function Harvest<C>(s: State<C>, v: Verdict): State<C> {
    if s.pending.None? || v.InFlight? then s
    else if v.Acked? then s.(pending := None, acked := s.pending, tainted := false)
    else s.(belief := s.prev, seqNo := s.prevSeq, pending := None,
            rolledBack := s.rolledBack + {s.pending.value}, tainted := s.tainted || s.stacked)
  }

  predicate HeartbeatDue<C>(last: Option<Doc<C>>, now: int) {
    last.Some? && now - last.value.issuedAt >= HEARTBEAT
  }

  predicate Fires<C(==)>(last: Option<Doc<C>>, content: C, now: int) {
    last.None? || last.value.content != content || HeartbeatDue(last, now)
  }

  function Fire<C>(s: State<C>, content: C, now: int): State<C> {
    s.(fired := s.fired + [Doc(content, now, s.seqNo)],
       prev := s.belief, prevSeq := s.seqNo, belief := Some(|s.fired|), seqNo := s.seqNo + 1,
       stacked := s.pending.Some?, pending := Some(|s.fired|))
  }

  /** One evaluation: harvest, fire if due, harvest again. */
  function Apply<C(==)>(s: State<C>, content: C, now: int, entry: Verdict, exit: Verdict): State<C> {
    var h := Harvest(s, entry);
    if Fires(Believed(h), content, now) then Harvest(Fire(h, content, now), exit) else h
  }

  // ---------------------------------------------------------------- invariants

  predicate Indices<C>(s: State<C>) {
    && (s.belief.Some? ==> s.belief.value < |s.fired|)
    && (s.acked.Some? ==> s.acked.value < |s.fired|)
    && (s.pending.Some? ==>
          && |s.fired| > 0 && s.pending.value == |s.fired| - 1 && s.belief == s.pending
          && (s.prev.Some? ==> s.prev.value < s.pending.value)
          && (s.acked.Some? ==> s.acked.value < s.pending.value)
          && s.pending.value !in s.rolledBack)
    && (forall k | k in s.rolledBack :: k < |s.fired|)
  }

  /** Sequence numbers grow by at most one, and stay put exactly after a rollback. */
  predicate Sequenced<C>(s: State<C>) {
    && (forall k | 0 <= k < |s.fired| - 1 ::
          s.fired[k + 1].seqNo == s.fired[k].seqNo + if k in s.rolledBack then 0 else 1)
    && s.seqNo == (if s.fired == [] then 0
                   else s.fired[|s.fired| - 1].seqNo + if |s.fired| - 1 in s.rolledBack then 0 else 1)
    && (s.pending.Some? && |s.fired| > 0 ==> s.prevSeq == s.fired[|s.fired| - 1].seqNo)
  }

  /** A pending document was due relative to what a rollback restores. */
  ghost predicate Justified<C>(s: State<C>) {
    s.pending.Some? && s.pending.value < |s.fired| && s.prev.Some? && s.prev.value < |s.fired| ==>
      var d, p := s.fired[s.pending.value], s.fired[s.prev.value];
      d.content != p.content || d.issuedAt - p.issuedAt >= HEARTBEAT
  }

  function Later(a: Option<nat>, b: Option<nat>): bool {
    a.Some? && (b.None? || a.value > b.value)
  }

  /** With nothing pending the belief is the latest acknowledged publish, unless a publish fired over an
    * unresolved one was rolled back since: then it is the later, abandoned one. */
  predicate Accurate<C>(s: State<C>) {
    var base := if s.pending.Some? then s.prev else s.belief;
    if s.pending.Some? && s.stacked then Later(base, s.acked)
    else if s.tainted then Later(base, s.acked) else base == s.acked
  }

  ghost predicate Inv<C>(s: State<C>) { Indices(s) && Sequenced(s) && Justified(s) && Accurate(s) }

  lemma HarvestKeepsInv<C>(s: State<C>, v: Verdict)
    requires Inv(s)
    ensures Inv(Harvest(s, v)) && Harvest(s, v).fired == s.fired
  {
  }

  lemma FireKeepsInv<C>(s: State<C>, content: C, now: int)
    requires Inv(s) && Fires(Believed(s), content, now)
    ensures Inv(Fire(s, content, now))
  {
  }

  lemma ApplyKeepsInv<C>(s: State<C>, content: C, now: int, entry: Verdict, exit: Verdict)
    requires Inv(s)
    ensures Inv(Apply(s, content, now, entry, exit))
  {
    HarvestKeepsInv(s, entry);
    var h := Harvest(s, entry);
    if Fires(Believed(h), content, now) {
      FireKeepsInv(h, content, now);
      HarvestKeepsInv(Fire(h, content, now), exit);
    }
  }

  datatype Call<C> = Call(content: C, now: int, entry: Verdict, exit: Verdict)

  function Run<C(==)>(s: State<C>, calls: seq<Call<C>>): State<C>
    decreases |calls|
  {
    if calls == [] then s
    else Run(Apply(s, calls[0].content, calls[0].now, calls[0].entry, calls[0].exit), calls[1..])
  }

  lemma {:induction false} RunKeepsInv<C>(s: State<C>, calls: seq<Call<C>>)
    requires Inv(s)
    ensures Inv(Run(s, calls))
    decreases |calls|
  {
    if calls != [] {
      ApplyKeepsInv(s, calls[0].content, calls[0].now, calls[0].entry, calls[0].exit);
      RunKeepsInv(Apply(s, calls[0].content, calls[0].now, calls[0].entry, calls[0].exit), calls[1..]);
    }
  }

  // ---------------------------------------------------------------- what every run satisfies

  /** Fired sequence numbers never decrease and grow by at most one; a number is used again only after its
    * earlier use was rolled back. */
  lemma SeqDiscipline<C>(calls: seq<Call<C>>, j: nat, k: nat)
    requires j < k < |Run(Start(), calls).fired|
    ensures var s := Run(Start(), calls);
            && s.fired[j].seqNo <= s.fired[k].seqNo <= s.fired[j].seqNo + (k - j)
            && (s.fired[j].seqNo == s.fired[k].seqNo ==> forall i | j <= i < k :: i in s.rolledBack)
  {
    RunKeepsInv(Start(), calls);
    SeqSpan(Run(Start(), calls), j, k);
  }

  lemma {:induction false} SeqSpan<C>(s: State<C>, j: nat, k: nat)
    requires Inv(s) && j < k < |s.fired|
    ensures s.fired[j].seqNo <= s.fired[k].seqNo <= s.fired[j].seqNo + (k - j)
    ensures s.fired[j].seqNo == s.fired[k].seqNo ==> forall i | j <= i < k :: i in s.rolledBack
    decreases k - j
  {
    if j + 1 < k {
      SeqSpan(s, j + 1, k);
    }
  }

  lemma {:induction false} RunEnds<C>(s: State<C>, calls: seq<Call<C>>)
    requires calls != []
    ensures var front, c := calls[..|calls| - 1], calls[|calls| - 1];
            Run(s, calls) == Apply(Run(s, front), c.content, c.now, c.entry, c.exit)
    decreases |calls|
  {
    var c := calls[0];
    if |calls| > 1 {
      RunEnds(Apply(s, c.content, c.now, c.entry, c.exit), calls[1..]);
      assert calls[1..][..|calls| - 2] == calls[..|calls| - 1][1..];
    } else {
      assert calls[..0] == [] && calls[1..] == [];
    }
  }

  /** What the publisher believes when it decides: its belief once the previous outcome is in. */
  function AtHarvest<C(==)>(calls: seq<Call<C>>): Option<Doc<C>>
    requires calls != []
  {
    Believed(Harvest(Run(Start(), calls[..|calls| - 1]), calls[|calls| - 1].entry))
  }

  /** A call fires exactly one document, with its own content and time, when nothing is believed, when the believed
    * content is another, and when the believed document is 150 s old; otherwise none. */
  lemma FiresExactly<C>(calls: seq<Call<C>>)
    requires calls != []
    ensures var s, t, c := Run(Start(), calls[..|calls| - 1]), Run(Start(), calls), calls[|calls| - 1];
            var b := AtHarvest(calls);
            if b.None? || b.value.content != c.content || c.now - b.value.issuedAt >= 150
            then |t.fired| == |s.fired| + 1 && s.fired <= t.fired
                 && t.fired[|s.fired|].content == c.content && t.fired[|s.fired|].issuedAt == c.now
            else t.fired == s.fired
  {
    RunEnds(Start(), calls);
  }

  /** After any call whose own publish, if it fired, is not rolled back at once, the publisher believes in a document
    * with that call's content, younger than 150 s. */
  lemma BeliefFollowsCall<C>(calls: seq<Call<C>>)
    requires calls != [] && calls[|calls| - 1].exit in {InFlight, Acked}
    ensures var t, c := Run(Start(), calls), calls[|calls| - 1];
            && t.belief.Some? && t.belief.value < |t.fired|
            && t.fired[t.belief.value].content == c.content && c.now - t.fired[t.belief.value].issuedAt < 150
  {
    RunKeepsInv(Start(), calls[..|calls| - 1]);
    RunEnds(Start(), calls);
  }

  /** After a rollback the next call with the same content and a clock that has not gone back fires again, for a
    * content change and for a heartbeat alike. */
  lemma RollbackIsRetried<C>(calls: seq<Call<C>>, v: Verdict, now: int, exit: Verdict)
    requires var s := Run(Start(), calls);
             && s.pending.Some? && v in {Failed, TimedOut}
             && s.pending.value < |s.fired| && now >= s.fired[s.pending.value].issuedAt
    ensures var s := Run(Start(), calls);
            var content := s.fired[s.pending.value].content;
            var t := Run(Start(), calls + [Call(content, now, v, exit)]);
            && |t.fired| == |s.fired| + 1 && s.fired <= t.fired
            && t.fired[|s.fired|].content == content && t.fired[|s.fired|].issuedAt == now
  {
    RunKeepsInv(Start(), calls);
    var s := Run(Start(), calls);
    var again := calls + [Call(s.fired[s.pending.value].content, now, v, exit)];
    assert again[..|again| - 1] == calls;
    FiresExactly(again);
  }

  lemma {:induction false} RunSplits<C>(s: State<C>, calls: seq<Call<C>>, more: seq<Call<C>>)
    ensures Run(s, calls + more) == Run(Run(s, calls), more)
    decreases |calls|
  {
    if calls == [] {
      assert [] + more == more;
    } else {
      RunSplits(Apply(s, calls[0].content, calls[0].now, calls[0].entry, calls[0].exit), calls[1..], more);
      assert (calls + more)[1..] == calls[1..] + more;
    }
  }

  /** A publish that is neither in flight nor rolled back stays so. */
  lemma {:induction false} SettledStays<C>(s: State<C>, calls: seq<Call<C>>, k: nat)
    requires k < |s.fired| && k !in s.rolledBack && s.pending != Some(k)
    ensures k !in Run(s, calls).rolledBack
    decreases |calls|
  {
    if calls != [] {
      SettledStays(Apply(s, calls[0].content, calls[0].now, calls[0].entry, calls[0].exit), calls[1..], k);
    }
  }

  /** An acknowledgement settles the publish in flight: the call that finds it records it, and no later call rolls the
    * publish back, whatever it finds. */
  lemma AcknowledgedIsSettled<C>(calls: seq<Call<C>>, c: Call<C>, more: seq<Call<C>>)
    requires Run(Start(), calls).pending.Some? && c.entry.Acked?
    ensures var k, t := Run(Start(), calls).pending.value, Run(Start(), calls + [c]);
            && t.acked.Some? && t.acked.value >= k
            && (t.fired == Run(Start(), calls).fired ==> t.pending.None? && t.belief == t.acked == Some(k))
            && k !in Run(Start(), calls + [c] + more).rolledBack
  {
    RunKeepsInv(Start(), calls);
    RunEnds(Start(), calls + [c]);
    assert (calls + [c])[..|calls + [c]| - 1] == calls;
    RunSplits(Start(), calls + [c], more);
    SettledStays(Run(Start(), calls + [c]), more, Run(Start(), calls).pending.value);
  }

  /** Every run: with nothing pending, the belief is the latest acknowledged publish exactly when no publish
    * fired over an unresolved one was rolled back since. */
  lemma BeliefAccuracy<C>(calls: seq<Call<C>>)
    ensures var s := Run(Start(), calls);
            s.pending.None? ==> (s.belief == s.acked <==> !s.tainted)
  {
    RunKeepsInv(Start<C>(), calls);
  }

  /** No call of the run fires while the previous publish is unresolved. */
  predicate NeverStacks<C(==)>(s: State<C>, calls: seq<Call<C>>)
    decreases |calls|
  {
    calls == [] ||
    (&& (var h := Harvest(s, calls[0].entry); h.pending.Some? ==> !Fires(Believed(h), calls[0].content, calls[0].now))
     && NeverStacks(Apply(s, calls[0].content, calls[0].now, calls[0].entry, calls[0].exit), calls[1..]))
  }

  lemma {:induction false} UnstackedRunsAreUntainted<C>(s: State<C>, calls: seq<Call<C>>)
    requires NeverStacks(s, calls) && !s.tainted && !s.stacked
    ensures !Run(s, calls).tainted
    decreases |calls|
  {
    if calls != [] {
      UnstackedRunsAreUntainted(Apply(s, calls[0].content, calls[0].now, calls[0].entry, calls[0].exit), calls[1..]);
    }
  }

  lemma UnstackedBeliefIsAcked<C>(calls: seq<Call<C>>)
    requires NeverStacks(Start(), calls)
    ensures var s := Run(Start(), calls);
            s.pending.None? ==> s.belief == s.acked
  {
    BeliefAccuracy(calls);
    UnstackedRunsAreUntainted(Start(), calls);
  }

  predicate FiresNothing<C(==)>(calls: seq<Call<C>>, c: Call<C>) {
    Run(Start(), calls + [c]).fired == Run(Start(), calls).fired
  }

  /** Stacking breaks the claim: a rollback restores an abandoned publish that nobody ever acknowledged, and
    * its content is not sent again before the heartbeat. */
  lemma AbandonedPublishIsBelieved<C>(a: C, b: C, t: int)
    requires a != b
    ensures var calls := [Call(a, t, InFlight, InFlight), Call(b, t, InFlight, Failed)];
            var s := Run(Start(), calls);
            && s.pending.None? && s.belief == Some(0) && s.acked.None? && |s.fired| == 2
            && forall now, entry, exit | t <= now < t + 150 :: FiresNothing(calls, Call(a, now, entry, exit))
  {
    var c0, c1 := Call(a, t, InFlight, InFlight), Call(b, t, InFlight, Failed);
    var calls := [c0, c1];
    assert calls[1..] == [c1] && [c1][1..] == [];
    var s1 := Apply(Start(), a, t, InFlight, InFlight);
    var s2 := Apply(s1, b, t, InFlight, Failed);
    assert Run(s2, []) == s2 && Run(s1, [c1]) == s2;
    forall now, entry, exit | t <= now < t + 150
      ensures FiresNothing(calls, Call(a, now, entry, exit))
    {
      var next := calls + [Call(a, now, entry, exit)];
      assert next[..2] == calls;
      FiresExactly(next);
    }
  }

  // ---------------------------------------------------------------- the actuators

  class DesiredActuator<C(==)> {
    var lastPublished: Option<Doc<C>>
    var seqNo: nat
    var pending: bool
    var pendingPrev: Option<Doc<C>>
    var pendingSeq: nat
    ghost var h: State<C>

    ghost predicate Valid()
      reads this
    {
      && Inv(h)
      && lastPublished == Believed(h) && seqNo == h.seqNo && pending == h.pending.Some?
      && (pending ==>
            && pendingSeq == h.prevSeq
            && pendingPrev == if h.prev.Some? then Some(h.fired[h.prev.value]) else None)
    }

    constructor ()
      ensures Valid() && h == Start()
    {
      lastPublished, seqNo, pending, pendingPrev, pendingSeq := None, 0, false, None, 0;
      h := Start();
    }

    method HarvestPending(v: Verdict) returns (rolledBack: bool)
      requires Valid()
      modifies this
      ensures Valid() && h == Harvest(old(h), v) && h.fired == old(h.fired)
      ensures rolledBack <==> old(pending) && v in {Failed, TimedOut}
      ensures pending <==> old(pending) && v.InFlight?
      ensures lastPublished == if rolledBack then old(pendingPrev) else old(lastPublished)
      ensures seqNo == if rolledBack then old(pendingSeq) else old(seqNo)
    {
      HarvestKeepsInv(h, v);
      if !pending || v.InFlight? {
        return false;
      }
      h := Harvest(h, v);
      pending := false;
      if v.Acked? {
        return false;
      }
      lastPublished, seqNo := pendingPrev, pendingSeq;
      return true;
    }

    method Publish(content: C, now: int) returns (doc: Doc<C>)
      requires Valid() && Fires(Believed(h), content, now)
      modifies this
      ensures Valid() && h == Fire(old(h), content, now) && h.fired == old(h.fired) + [doc]
    {
      doc := Doc(content, now, seqNo);
      FireKeepsInv(h, content, now);
      h := Fire(h, content, now);
      pendingPrev, pendingSeq := lastPublished, seqNo;
      lastPublished, seqNo, pending := Some(doc), seqNo + 1, true;
    }

    /** The publishing part of an Apply call; `doc` is the document it fires. */
    method ApplyCommand(content: C, now: int, entry: Verdict, exit: Verdict) returns (doc: Option<Doc<C>>)
      requires Valid()
      modifies this
      ensures Valid() && h == Apply(old(h), content, now, entry, exit)
      ensures h.fired == old(h.fired) + if doc.Some? then [doc.value] else []
      ensures doc.Some? <==>
                var b := Believed(Harvest(old(h), entry));
                b.None? || b.value.content != content || now - b.value.issuedAt >= 150
      ensures doc.Some? ==> doc.value.content == content && doc.value.issuedAt == now
    {
      var rolledBack := HarvestPending(entry);
      var contentChanged := lastPublished.None? || lastPublished.value.content != content;
      if !contentChanged && !HeartbeatDue(lastPublished, now) {
        return None;
      }
      var fired := Publish(content, now);
      rolledBack := HarvestPending(exit);
      doc := Some(fired);
    }
  }

  /** The per-device copy keeps only the content key and the issue time of what it believes: the same
    * machine. */
  class AdvDocState<K(==, 0)> {
    var published: bool
    var lastKey: K
    var lastIssuedAt: int
    var seqNo: nat
    var pending: bool
    var prevPublished: bool
    var prevKey: K
    var prevIssuedAt: int
    var prevSeq: nat
    ghost var h: State<K>

    static ghost predicate Shows(set_: bool, key: K, issuedAt: int, d: Option<Doc<K>>) {
      set_ == d.Some? && (set_ ==> key == d.value.content && issuedAt == d.value.issuedAt)
    }

    ghost predicate Valid()
      reads this
    {
      && Inv(h)
      && Shows(published, lastKey, lastIssuedAt, Believed(h)) && seqNo == h.seqNo && pending == h.pending.Some?
      && (pending ==>
            && prevSeq == h.prevSeq
            && Shows(prevPublished, prevKey, prevIssuedAt,
                     if h.prev.Some? then Some(h.fired[h.prev.value]) else None))
    }

    constructor ()
      ensures Valid() && h == Start()
    {
      published, seqNo, pending, prevPublished, prevSeq, lastIssuedAt, prevIssuedAt := false, 0, false, false, 0, 0, 0;
      h := Start();
    }

    method HarvestDevice(v: Verdict) returns (rolledBack: bool)
      requires Valid()
      modifies this
      ensures Valid() && h == Harvest(old(h), v) && h.fired == old(h.fired)
      ensures rolledBack <==> old(pending) && v in {Failed, TimedOut}
      ensures pending <==> old(pending) && v.InFlight?
      ensures (published, lastKey, lastIssuedAt, seqNo) ==
              if rolledBack then old((prevPublished, prevKey, prevIssuedAt, prevSeq))
              else old((published, lastKey, lastIssuedAt, seqNo))
    {
      HarvestKeepsInv(h, v);
      if !pending || v.InFlight? {
        return false;
      }
      h := Harvest(h, v);
      pending := false;
      if v.Acked? {
        return false;
      }
      published, lastKey, lastIssuedAt, seqNo := prevPublished, prevKey, prevIssuedAt, prevSeq;
      return true;
    }

    method FireDevice(key: K, now: int)
      requires Valid() && Fires(Believed(h), key, now)
      modifies this
      ensures Valid() && h == Fire(old(h), key, now)
    {
      FireKeepsInv(h, key, now);
      h := Fire(h, key, now);
      prevPublished, prevKey, prevIssuedAt, prevSeq := published, lastKey, lastIssuedAt, seqNo;
      published, lastKey, lastIssuedAt, seqNo, pending := true, key, now, seqNo + 1, true;
    }

    method PublishDevice(key: K, now: int, exit: Verdict)
      requires Valid()
      modifies this
      ensures Valid()
      ensures h == if Fires(Believed(old(h)), key, now) then Harvest(Fire(old(h), key, now), exit) else old(h)
      ensures var b := Believed(old(h));
              if b.None? || b.value.content != key || now - b.value.issuedAt >= 150
              then h.fired == old(h).fired + [Doc(key, now, old(seqNo))]
              else h.fired == old(h).fired
    {
      var changed := !published || key != lastKey;
      var heartbeat := published && now - lastIssuedAt >= HEARTBEAT;
      if !changed && !heartbeat {
        return;
      }
      FireDevice(key, now);
      var rolledBack := HarvestDevice(exit);
    }
  }
}

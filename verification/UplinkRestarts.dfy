/** Restarts of the uplink, after a power cut or of the process alone: exactly which of them let Open leave records
  * behind, and which commits allow a power cut to do so. */
module UplinkRestarts {
  import opened Prelude
  import opened Lanes
  import opened Frames
  import opened Uplink

  /** Opening this class would find its cursor file but no segment, and numbering would start over below it. */
  predicate StartsOver(a: Lane) {
    a.empty && a.filed && !a.stale
  }

  /** No such class, and no power cut takes records that a cursor file has as consumed. */
  predicate SafeRestart(s: State, e: Event)
    requires AllValid(s.lanes)
  {
    && (e.PowerCut? && Enabled(s, e) ==> forall l | 0 <= l < |s.lanes| :: Spares(s.lanes[l], e.keep[l]))
    && (e.Restart? && Enabled(s, e) ==> forall l | 0 <= l < |s.lanes| :: Spares(s.lanes[l], e.keep[l]))
  }

  predicate Spares(a: Lane, keep: nat) {
    !StartsOver(a) && a.disk <= keep
  }

  /** Every restart of the run is of that kind. */
  ghost predicate SafeRun(fits: Fits, s: State, es: seq<Event>)
    requires Inv(fits, s)
    decreases |es|
  {
    es == [] || (SafeRun(fits, s, es[..|es| - 1]) && SafeRestart(Final(fits, s, es[..|es| - 1]), es[|es| - 1]))
  }

  predicate NoneStale(s: State) {
    forall l | 0 <= l < |s.lanes| :: !s.lanes[l].stale
  }

  /** A class that is not stale opens at its durable position, and is stale from then on unless it was spared. */
  lemma CurrentSkipsNothing(a: Lane, keep: nat, firm: nat)
    requires a.Valid() && a.Opens(keep, firm) && !a.stale
    ensures a.Skipped(keep) == [] && (a.Open(keep, firm).stale <==> !Spares(a, keep))
  {
  }

  lemma SafeOpen(s: State, keep: seq<nat>, firm: seq<nat>)
    requires AllValid(s.lanes) && Openable(s, keep, firm) && NoneStale(s)
    requires forall l | 0 <= l < |s.lanes| :: Spares(s.lanes[l], keep[l])
    ensures NoneStale(OpenNext(s, keep, firm)) && OpenNext(s, keep, firm).overrun == s.overrun
  {
    forall l | 0 <= l < |s.lanes|
      ensures s.lanes[l].Skipped(keep[l]) == [] && !s.lanes[l].Open(keep[l], firm[l]).stale
    {
      CurrentSkipsNothing(s.lanes[l], keep[l], firm[l]);
    }
  }

  lemma SafeStep(fits: Fits, s: State, e: Event)
    requires Inv(fits, s) && NoneStale(s) && SafeRestart(s, e)
    ensures NoneStale(Next(fits, s, e)) && Next(fits, s, e).overrun == s.overrun
  {
    if Enabled(s, e) {
      if e.PowerCut? {
        SafeOpen(s, e.keep, e.keep);
      } else if e.Restart? {
        SafeOpen(s, e.keep, e.firm);
      }
    }
  }

  lemma {:induction false} SafeRunsOverrunNothing(fits: Fits, s: State, es: seq<Event>)
    requires Inv(fits, s) && NoneStale(s) && SafeRun(fits, s, es)
    ensures NoneStale(Final(fits, s, es)) && Final(fits, s, es).overrun == s.overrun
    decreases |es|
  {
    if es != [] {
      SafeRunsOverrunNothing(fits, s, es[..|es| - 1]);
      SafeStep(fits, Final(fits, s, es[..|es| - 1]), es[|es| - 1]);
    }
  }

  // ---------------------------------------------------------------- after an unsafe restart

  /** One more record, and the power goes again with everything on disk. */
  function AppendAndRestart(t: State, l: nat): seq<Event>
    requires l < |t.lanes|
  {
    [Append(l, Events, 1, true), PowerCut(seq(|t.lanes|, m requires 0 <= m < |t.lanes| =>
       |t.lanes[m].log| + if m == l then 1 else 0))]
  }

  /** A stale class before its first record. */
  predicate JustStale(a: Lane) {
    a.stale && a.file == Max(a.disk, a.base) == |a.log|
  }

  lemma StaleAppend(a: Lane, r: Record)
    requires a.Valid() && JustStale(a)
    ensures var b := a.Append(r, true);
            b.Valid() && b.Skipped(|b.log|) == [r] && !StartsOver(b)
  {
  }

  lemma StaleSteps(fits: Fits, t: State, l: nat)
    requires Inv(fits, t) && l < CLASSES && forall m | 0 <= m < CLASSES :: !StartsOver(t.lanes[m])
    requires JustStale(t.lanes[l])
    ensures var es := AppendAndRestart(t, l);
            var u := Next(fits, t, es[0]);
            && AllValid(u.lanes) && SafeRestart(t, es[0]) && SafeRestart(u, es[1])
            && !(Next(fits, u, es[1]).overrun <= t.overrun)
  {
    var es := AppendAndRestart(t, l);
    var r := Record(|t.places|, Events, 1);
    StaleAppend(t.lanes[l], r);
    var u := Next(fits, t, es[0]);
    assert u.lanes[l] == t.lanes[l].Append(r, true);
    assert Enabled(u, es[1]);
    assert r in u.lanes[l].Skipped(es[1].keep[l]);
    assert r in Next(fits, u, es[1]).overrun && r !in t.overrun;
  }

  lemma RunStep(fits: Fits, s: State, es: seq<Event>, e: Event)
    requires Inv(fits, s)
    ensures Final(fits, s, es + [e]) == Next(fits, Final(fits, s, es), e)
    ensures SafeRun(fits, s, es + [e]) <==> SafeRun(fits, s, es) && SafeRestart(Final(fits, s, es), e)
  {
    assert (es + [e])[..|es|] == es;
  }

  /** From there a restart leaves the record behind, and is itself a safe one. */
  lemma StaleClassOverruns(fits: Fits, t: State, l: nat)
    requires Inv(fits, t) && l < CLASSES && forall m | 0 <= m < CLASSES :: !StartsOver(t.lanes[m])
    requires JustStale(t.lanes[l])
    ensures SafeRun(fits, t, AppendAndRestart(t, l)) && !(Final(fits, t, AppendAndRestart(t, l)).overrun <= t.overrun)
  {
    var es := AppendAndRestart(t, l);
    StaleSteps(fits, t, l);
    RunStep(fits, t, [], es[0]);
    RunStep(fits, t, [es[0]], es[1]);
    assert [] + [es[0]] == [es[0]] && [es[0]] + [es[1]] == es;
  }

  lemma UnsafeOpenGoesStale(fits: Fits, s: State, keep: seq<nat>, firm: seq<nat>) returns (l: nat)
    requires Inv(fits, s) && Openable(s, keep, firm) && NoneStale(s)
    requires exists m | 0 <= m < |s.lanes| :: !Spares(s.lanes[m], keep[m])
    ensures var t := OpenNext(s, keep, firm);
            && l < CLASSES && t.overrun == s.overrun && JustStale(t.lanes[l])
            && forall m | 0 <= m < CLASSES :: !StartsOver(t.lanes[m])
  {
    l :| 0 <= l < |s.lanes| && !Spares(s.lanes[l], keep[l]);
    assert forall m | 0 <= m < CLASSES :: OpenNext(s, keep, firm).lanes[m] == s.lanes[m].Open(keep[m], firm[m]);
    forall m | 0 <= m < |s.lanes|
      ensures s.lanes[m].Skipped(keep[m]) == []
    {
      CurrentSkipsNothing(s.lanes[m], keep[m], firm[m]);
    }
  }

  /** A restart that does not spare a class leaves nothing behind itself but makes the class stale. */
  lemma UnsafeRestartGoesStale(fits: Fits, s: State, e: Event) returns (l: nat)
    requires Inv(fits, s) && NoneStale(s) && !SafeRestart(s, e)
    ensures var t := Next(fits, s, e);
            && Inv(fits, t) && l < CLASSES && t.overrun == s.overrun && JustStale(t.lanes[l])
            && forall m | 0 <= m < CLASSES :: !StartsOver(t.lanes[m])
  {
    StepKeepsInv(fits, s, e);
    if e.PowerCut? {
      l := UnsafeOpenGoesStale(fits, s, e.keep, e.keep);
    } else {
      l := UnsafeOpenGoesStale(fits, s, e.keep, e.firm);
    }
  }

  // ---------------------------------------------------------------- exactly when

  lemma {:induction false} SafePrefix(fits: Fits, s: State, es: seq<Event>, prefix: seq<Event>)
    requires Inv(fits, s) && SafeRun(fits, s, es) && prefix <= es
    ensures SafeRun(fits, s, prefix)
    decreases |es|
  {
    if prefix != es {
      SafePrefix(fits, s, es[..|es| - 1], prefix);
    }
  }

  lemma {:induction false} FirstUnsafe(fits: Fits, s: State, es: seq<Event>) returns (front: seq<Event>, e: Event)
    requires Inv(fits, s) && !SafeRun(fits, s, es)
    ensures front + [e] <= es && SafeRun(fits, s, front) && !SafeRestart(Final(fits, s, front), e)
    decreases |es|
  {
    front, e := es[..|es| - 1], es[|es| - 1];
    if !SafeRun(fits, s, front) {
      front, e := FirstUnsafe(fits, s, front);
    }
  }

  /** After `prefix` no safe continuation leaves a record behind. */
  ghost predicate KeepsAll(fits: Fits, s0: State, prefix: seq<Event>, more: seq<Event>)
    requires Inv(fits, s0)
  {
    var s := Final(fits, s0, prefix);
    SafeRun(fits, s, more) ==> Final(fits, s, more).overrun <= s0.overrun
  }

  /** Along a run and in every safe continuation of its parts Open leaves nothing more behind, exactly when no
    * restart of the run meets a class that has a cursor file and no segment, and no power cut takes records that a
    * cursor file has as consumed. */
  lemma OverrunsNothingIff(fits: Fits, s0: State, es: seq<Event>)
    requires Inv(fits, s0) && NoneStale(s0)
    ensures (forall prefix, more | prefix <= es :: KeepsAll(fits, s0, prefix, more)) <==> SafeRun(fits, s0, es)
  {
    if SafeRun(fits, s0, es) {
      forall prefix, more | prefix <= es
        ensures KeepsAll(fits, s0, prefix, more)
      {
        SafePrefix(fits, s0, es, prefix);
        SafeKeepsAll(fits, s0, prefix, more);
      }
    } else {
      var front, e := FirstUnsafe(fits, s0, es);
      var more := UnsafeAt(fits, s0, front, e);
    }
  }

  lemma SafeKeepsAll(fits: Fits, s0: State, prefix: seq<Event>, more: seq<Event>)
    requires Inv(fits, s0) && NoneStale(s0) && SafeRun(fits, s0, prefix)
    ensures KeepsAll(fits, s0, prefix, more)
  {
    SafeRunsOverrunNothing(fits, s0, prefix);
    if SafeRun(fits, Final(fits, s0, prefix), more) {
      SafeRunsOverrunNothing(fits, Final(fits, s0, prefix), more);
    }
  }

  /** From the start on: nothing at all is left behind. */
  lemma NothingIsOverrunIff(fits: Fits, es: seq<Event>)
    requires Inv(fits, START)
    ensures (forall prefix, more | prefix <= es :: KeepsAll(fits, START, prefix, more)) <==> SafeRun(fits, START, es)
    ensures SafeRun(fits, START, es) ==> Final(fits, START, es).overrun == {}
  {
    OverrunsNothingIff(fits, START, es);
    if SafeRun(fits, START, es) {
      SafeRunsOverrunNothing(fits, START, es);
    }
  }

  lemma UnsafeAt(fits: Fits, s0: State, front: seq<Event>, e: Event) returns (more: seq<Event>)
    requires Inv(fits, s0) && NoneStale(s0) && SafeRun(fits, s0, front)
    requires !SafeRestart(Final(fits, s0, front), e)
    ensures !KeepsAll(fits, s0, front + [e], more)
  {
    SafeRunsOverrunNothing(fits, s0, front);
    RunStep(fits, s0, front, e);
    more := UnsafeRestartOverruns(fits, Final(fits, s0, front), e);
  }

  lemma UnsafeRestartOverruns(fits: Fits, s: State, e: Event) returns (more: seq<Event>)
    requires Inv(fits, s) && NoneStale(s) && !SafeRestart(s, e)
    ensures Inv(fits, Next(fits, s, e)) && SafeRun(fits, Next(fits, s, e), more)
    ensures !(Final(fits, Next(fits, s, e), more).overrun <= s.overrun)
  {
    var l := UnsafeRestartGoesStale(fits, s, e);
    StaleClassOverruns(fits, Next(fits, s, e), l);
    more := AppendAndRestart(Next(fits, s, e), l);
  }

  // ---------------------------------------------------------------- which commits a power cut can undo

  predicate AllFirm(s: State) {
    forall l | 0 <= l < |s.lanes| :: s.lanes[l].disk <= s.lanes[l].synced
  }

  /** Whoever commits has written to the class since opening it, or what is committed was synced before. */
  predicate FirmCommit(s: State, e: Event)
    requires AllValid(s.lanes)
  {
    e.Commit? && Enabled(s, e) && e.end.Ok? ==>
      var l := Target(s.lanes, s.flight.value.lane);
      l < |s.lanes| ==>
        var a := s.lanes[l];
        a.writing || Min(a.cur + |s.flight.value.recs|, |a.log|) <= a.synced
  }

  ghost predicate FirmRun(fits: Fits, s: State, es: seq<Event>)
    requires Inv(fits, s)
    decreases |es|
  {
    es == [] || (FirmRun(fits, s, es[..|es| - 1]) && FirmCommit(Final(fits, s, es[..|es| - 1]), es[|es| - 1]))
  }

  /** No power cut that can happen now takes durably consumed records. */
  ghost predicate CutsSpare(s: State)
    requires AllValid(s.lanes)
  {
    forall keep | Enabled(s, PowerCut(keep)) :: forall l | 0 <= l < |s.lanes| :: s.lanes[l].disk <= keep[l]
  }

  lemma FirmStep(fits: Fits, s: State, e: Event)
    requires Inv(fits, s) && AllFirm(s) && FirmCommit(s, e)
    ensures AllFirm(Next(fits, s, e))
  {
  }

  /** After any other commit a power cut can. */
  lemma UnfirmCommit(fits: Fits, s: State, e: Event)
    requires Inv(fits, s) && !FirmCommit(s, e)
    ensures AllValid(Next(fits, s, e).lanes) && !CutsSpare(Next(fits, s, e))
  {
    StepKeepsInv(fits, s, e);
    var t, l := Next(fits, s, e), Target(s.lanes, s.flight.value.lane);
    var keep := seq(|t.lanes|, m requires 0 <= m < |t.lanes| => Max(t.lanes[m].synced, t.lanes[m].base));
    assert Enabled(t, PowerCut(keep));
    assert t.lanes[l] == s.lanes[l].Commit(|s.flight.value.recs|);
    assert t.lanes[l].disk > keep[l];
  }

  lemma FirmSpares(s: State)
    requires AllValid(s.lanes) && AllFirm(s)
    ensures CutsSpare(s)
  {
  }

  lemma {:induction false} FirmRunsSpare(fits: Fits, s: State, es: seq<Event>)
    requires Inv(fits, s) && AllFirm(s) && FirmRun(fits, s, es)
    ensures AllFirm(Final(fits, s, es)) && CutsSpare(Final(fits, s, es))
    decreases |es|
  {
    if es != [] {
      FirmRunsSpare(fits, s, es[..|es| - 1]);
      FirmStep(fits, Final(fits, s, es[..|es| - 1]), es[|es| - 1]);
    }
    FirmSpares(Final(fits, s, es));
  }

  ghost predicate SparesAfter(fits: Fits, s: State, prefix: seq<Event>)
    requires Inv(fits, s)
  {
    CutsSpare(Final(fits, s, prefix))
  }

  /** At no point of a run can a power cut take durably consumed records, exactly when every commit of the run is by a
    * process that has written to the class since opening it, or of records synced before. */
  lemma {:induction false} CutsSpareIff(fits: Fits, s: State, es: seq<Event>)
    requires Inv(fits, s) && AllFirm(s)
    ensures (forall prefix | prefix <= es :: SparesAfter(fits, s, prefix)) <==> FirmRun(fits, s, es)
    decreases |es|
  {
    if es == [] {
      FirmRunsSpare(fits, s, es);
    } else {
      var front, e := es[..|es| - 1], es[|es| - 1];
      CutsSpareIff(fits, s, front);
      if FirmRun(fits, s, front) {
        if FirmCommit(Final(fits, s, front), e) {
          FirmRunsSpare(fits, s, es);
          forall prefix | prefix <= es
            ensures SparesAfter(fits, s, prefix)
          {
            if prefix != es {
              assert prefix <= front;
            }
          }
        } else {
          UnfirmCommit(fits, Final(fits, s, front), e);
          assert !SparesAfter(fits, s, es);
        }
      } else {
        var prefix :| prefix <= front && !SparesAfter(fits, s, prefix);
        assert prefix <= es;
      }
    }
  }

  /** Every restart finds a segment beside each cursor file. */
  ghost predicate FilesBesideSegments(fits: Fits, s: State, es: seq<Event>)
    requires Inv(fits, s)
    decreases |es|
  {
    es == [] ||
      var before := Final(fits, s, es[..|es| - 1]);
      && FilesBesideSegments(fits, s, es[..|es| - 1])
      && (es[|es| - 1].PowerCut? || es[|es| - 1].Restart? ==>
            forall l | 0 <= l < |before.lanes| :: !StartsOver(before.lanes[l]))
  }

  /** So with such commits it is enough that no restart meets a cursor file without a segment. */
  lemma {:induction false} FirmRunsAreSafe(fits: Fits, s: State, es: seq<Event>)
    requires Inv(fits, s) && AllFirm(s) && FirmRun(fits, s, es) && FilesBesideSegments(fits, s, es)
    ensures SafeRun(fits, s, es)
    decreases |es|
  {
    if es != [] {
      FirmRunsAreSafe(fits, s, es[..|es| - 1]);
      FirmRunsSpare(fits, s, es[..|es| - 1]);
    }
  }
}

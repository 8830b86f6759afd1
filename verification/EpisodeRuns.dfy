/** Runs of the breach component: the pairing of its alert stream, the site alarm fed by it, and
  * continuity across a restart. */
module EpisodeRuns {
  import opened Prelude
  import opened EpisodeId
  import opened Episodes
  import AlarmEdges

  ghost predicate Feasible(s: State, es: seq<Event>)
    decreases |es|
  {
    es == [] || (Enabled(s, es[0]) && Feasible(Next(s, es[0]).state, es[1..]))
  }

  ghost function Final(s: State, es: seq<Event>): State
    requires Feasible(s, es)
    decreases |es|
  {
    if es == [] then s else Final(Next(s, es[0]).state, es[1..])
  }

  ghost function Alerts(s: State, es: seq<Event>): seq<Alert>
    requires Feasible(s, es)
    decreases |es|
  {
    if es == [] then [] else Next(s, es[0]).alerts + Alerts(Next(s, es[0]).state, es[1..])
  }

  lemma OneMore(s: State, e: Event, es: seq<Event>)
    requires Enabled(s, e) && Feasible(Next(s, e).state, es)
    ensures Feasible(s, [e] + es)
    ensures Final(s, [e] + es) == Final(Next(s, e).state, es)
    ensures Alerts(s, [e] + es) == Next(s, e).alerts + Alerts(Next(s, e).state, es)
  {
    assert ([e] + es)[1..] == es;
  }

  // ---------------------------------------------------------------- pairing

  /** What one step does to a stream whose last alert was `prev`. */
  lemma StepKeepsPairing(s: State, e: Event, prev: Option<Alert>)
    requires Enabled(s, e) && Tracks(s, prev)
    ensures var step := Next(s, e);
            && |step.alerts| <= 1 && PairedAfter(prev, step.alerts) && Tracks(step.state, LastOf(prev, step.alerts))
  {
  }

  lemma {:induction false} PairedConcat(prev: Option<Alert>, a: seq<Alert>, b: seq<Alert>)
    requires PairedAfter(prev, a) && PairedAfter(LastOf(prev, a), b)
    ensures PairedAfter(prev, a + b) && LastOf(prev, a + b) == LastOf(LastOf(prev, a), b)
    decreases |a|
  {
    if a == [] {
      assert a + b == b;
    } else {
      assert (a + b)[1..] == a[1..] + b;
      PairedConcat(Some(a[0]), a[1..], b);
    }
  }

  /** Every end comes right after the begin it closes; `prev` is the alert before the stream. */
  predicate PairedAfter(prev: Option<Alert>, alerts: seq<Alert>)
    decreases |alerts|
  {
    alerts == [] ||
    (&& (alerts[0].End? ==>
            && prev.Some? && prev.value.Begin?
            && prev.value.mrid == alerts[0].mrid && prev.value.episode == alerts[0].episode)
     && PairedAfter(Some(alerts[0]), alerts[1..]))
  }

  function LastOf(prev: Option<Alert>, alerts: seq<Alert>): Option<Alert> {
    if alerts == [] then prev else Some(alerts[|alerts| - 1])
  }

  predicate IsOpen(prev: Option<Alert>) { prev.Some? && prev.value.Begin? }

  /** An open episode is the one the latest alert began. */
  predicate Tracks(s: State, prev: Option<Alert>) {
    s.active != "" ==> IsOpen(prev) && prev.value.mrid == s.active && prev.value.episode == s.episode
  }

  lemma {:induction false} StreamIsPaired(s: State, es: seq<Event>, prev: Option<Alert>)
    requires Feasible(s, es) && Tracks(s, prev)
    ensures PairedAfter(prev, Alerts(s, es))
    ensures Tracks(Final(s, es), LastOf(prev, Alerts(s, es)))
    decreases |es|
  {
    if es != [] {
      var step := Next(s, es[0]);
      StepKeepsPairing(s, es[0], prev);
      StreamIsPaired(step.state, es[1..], LastOf(prev, step.alerts));
      PairedConcat(prev, step.alerts, Alerts(step.state, es[1..]));
    }
  }

  /** The same, by position: no end without its begin just before it, so no two ends in a row. */
  lemma {:induction false} PairedByPosition(prev: Option<Alert>, alerts: seq<Alert>)
    requires PairedAfter(prev, alerts)
    ensures forall k | 1 <= k < |alerts| && alerts[k].End? ::
              alerts[k - 1].Begin? && alerts[k - 1].mrid == alerts[k].mrid && alerts[k - 1].episode == alerts[k].episode
    ensures alerts != [] && alerts[0].End? ==>
              IsOpen(prev) && prev.value.mrid == alerts[0].mrid && prev.value.episode == alerts[0].episode
    decreases |alerts|
  {
    if alerts != [] {
      var tail := alerts[1..];
      PairedByPosition(Some(alerts[0]), tail);
      forall k | 1 <= k < |alerts| && alerts[k].End?
        ensures alerts[k - 1].Begin?
        ensures alerts[k - 1].mrid == alerts[k].mrid && alerts[k - 1].episode == alerts[k].episode
      {
        assert tail[k - 1] == alerts[k];
        if k > 1 {
          assert tail[k - 2] == alerts[k - 1];
        }
      }
    }
  }

  // ---------------------------------------------------------------- the stream follows the evidence

  predicate NamedBreach(e: Event) {
    e.OnPlan? && !e.safety && e.planBreach.Some? ==> e.planBreach.value.mrid != ""
  }

  predicate AllNamed(es: seq<Event>) { forall k | 0 <= k < |es| :: NamedBreach(es[k]) }

  predicate NamedState(s: State) { s.plan.Some? ==> s.plan.value.mrid != "" }

  lemma LastOfConcat(prev: Option<Alert>, a: seq<Alert>, b: seq<Alert>)
    ensures LastOf(prev, a + b) == LastOf(LastOf(prev, a), b)
  {
  }

  /** After an assessed step the stream is open exactly when the evidence breaches. */
  ghost predicate FollowsAt(s: State, e: Event, prev: Option<Alert>)
    requires Enabled(s, e)
  {
    Absorb(s, e).Some? ==>
      (IsOpen(LastOf(prev, Next(s, e).alerts)) <==> Effective(Absorb(s, e).value, e.now, e.order).Some?)
  }

  /** The same at every step of a run. */
  ghost predicate Follows(s: State, es: seq<Event>, prev: Option<Alert>)
    requires Feasible(s, es)
    decreases |es|
  {
    es == [] ||
    (FollowsAt(s, es[0], prev) && Follows(Next(s, es[0]).state, es[1..], LastOf(prev, Next(s, es[0]).alerts)))
  }

  lemma {:induction false} Joined(s: State, a: seq<Event>, b: seq<Event>)
    requires Feasible(s, a)
    ensures Feasible(s, a + b) <==> Feasible(Final(s, a), b)
    ensures Feasible(s, a + b) ==>
              && Final(s, a + b) == Final(Final(s, a), b)
              && Alerts(s, a + b) == Alerts(s, a) + Alerts(Final(s, a), b)
    decreases |a|
  {
    if a == [] {
      assert a + b == b;
    } else {
      assert (a + b)[1..] == a[1..] + b;
      Joined(Next(s, a[0]).state, a[1..], b);
    }
  }

  lemma {:induction false} JoinedFollows(s: State, a: seq<Event>, b: seq<Event>, prev: Option<Alert>)
    requires Feasible(s, a) && Feasible(Final(s, a), b) && Feasible(s, a + b)
    requires Follows(s, a + b, prev)
    ensures Follows(Final(s, a), b, LastOf(prev, Alerts(s, a)))
    decreases |a|
  {
    if a == [] {
      assert a + b == b;
    } else {
      assert (a + b)[1..] == a[1..] + b;
      var step := Next(s, a[0]);
      JoinedFollows(step.state, a[1..], b, LastOf(prev, step.alerts));
      LastOfConcat(prev, step.alerts, Alerts(step.state, a[1..]));
    }
  }

  /** With named evidence an edge leaves an episode open exactly when the evidence breaches. */
  lemma EmitFollows(u: State, now: int, order: seq<string>, saved: bool, prev: Option<Alert>)
    requires (forall d | d in order :: d in u.reports) && NamedState(u) && (IsOpen(prev) <==> u.active != "")
    ensures var step := Emit(u, now, order, saved);
            && step.state.plan == u.plan
            && (step.state.active != "" <==> Effective(u, now, order).Some?)
            && (IsOpen(LastOf(prev, step.alerts)) <==> step.state.active != "")
  {
    assert Effective(u, now, order).Some? ==> Effective(u, now, order).value.breach.mrid != "";
  }

  lemma StepKeepsOpen(s: State, e: Event, prev: Option<Alert>)
    requires Enabled(s, e) && NamedState(s) && NamedBreach(e) && (IsOpen(prev) <==> s.active != "")
    ensures var step := Next(s, e);
            NamedState(step.state) && (IsOpen(LastOf(prev, step.alerts)) <==> step.state.active != "")
    ensures FollowsAt(s, e, prev)
  {
    if Absorb(s, e).Some? {
      EmitFollows(Absorb(s, e).value, e.now, e.order, e.saved, prev);
    }
  }

  /** With named breaches the stream is open exactly while an episode is, and follows the evidence. */
  lemma {:induction false} NamedRunFollows(s: State, es: seq<Event>, prev: Option<Alert>)
    requires Feasible(s, es) && NamedState(s) && AllNamed(es) && (IsOpen(prev) <==> s.active != "")
    ensures Follows(s, es, prev) && NamedState(Final(s, es))
    ensures IsOpen(LastOf(prev, Alerts(s, es))) <==> Final(s, es).active != ""
    decreases |es|
  {
    if es != [] {
      var step := Next(s, es[0]);
      StepKeepsOpen(s, es[0], prev);
      NamedRunFollows(step.state, es[1..], LastOf(prev, step.alerts));
      LastOfConcat(prev, step.alerts, Alerts(step.state, es[1..]));
    }
  }

  /** Every device of `rest` converges, then a plan reports no breach. */
  function Clearing(rest: seq<string>, all: seq<string>): seq<Event> {
    if rest == [] then [OnPlan(false, None, 0, all, true)]
    else [OnReport(NonConvergedEnd, rest[0], "", 0, 0, all, true)] + Clearing(rest[1..], all)
  }

  /** From an unnamed breach that began an alert, the clear leaves that alert open. */
  lemma {:induction false} ClearLeavesOpen(u: State, rest: seq<string>, all: seq<string>, prev: Option<Alert>)
    requires u.plan.Some? && u.plan.value.mrid == "" && u.active == "" && IsOpen(prev) && Enumerates(all, u.reports)
    requires forall d | d in u.reports && u.reports[d].nonConverged :: d in rest
    requires forall d | d in rest :: d in u.reports
    ensures AllNamed(Clearing(rest, all)) && Feasible(u, Clearing(rest, all)) && !Follows(u, Clearing(rest, all), prev)
    decreases |rest|
  {
    var es := Clearing(rest, all);
    if rest == [] {
      ArbitrationIgnoresOrder(all, u.reports, "");
      assert Next(u, es[0]).alerts == [];
      assert !FollowsAt(u, es[0], prev);
    } else {
      assert es[1..] == Clearing(rest[1..], all);
      var v := Absorb(u, es[0]).value;
      assert v.reports.Keys == u.reports.Keys;
      assert Next(u, es[0]) == Step(v, []);
      ClearLeavesOpen(v, rest[1..], all, prev);
    }
  }

  /** In every named state an unnamed meter breach breaks the claim: with no episode open it breaches without a
    * begin, and during an episode it begins an alert that the clear does not end. */
  lemma UnnamedBreachFails(s: State, e: Event, prev: Option<Alert>) returns (more: seq<Event>)
    requires Enabled(s, e) && NamedState(s) && !NamedBreach(e) && (IsOpen(prev) <==> s.active != "")
    ensures s.active == "" ==> !FollowsAt(s, e, prev) && Next(s, e).alerts == []
    ensures s.active != "" ==>
              && FollowsAt(s, e, prev) && AllNamed(more) && Feasible(Next(s, e).state, more)
              && !Follows(Next(s, e).state, more, LastOf(prev, Next(s, e).alerts))
  {
    more := [];
    if s.active != "" {
      var step := Next(s, e);
      more := Clearing(e.order, e.order);
      ClearLeavesOpen(step.state, e.order, e.order, LastOf(prev, step.alerts));
    }
  }

  lemma {:induction false} FirstUnnamed(es: seq<Event>) returns (k: nat)
    requires !AllNamed(es)
    ensures k < |es| && AllNamed(es[..k]) && !NamedBreach(es[k])
    decreases |es|
  {
    var front := es[..|es| - 1];
    if AllNamed(front) {
      k := |front|;
    } else {
      k := FirstUnnamed(front);
      assert front[..k] == es[..k];
    }
  }

  /** The claim holds after the first k events of a run and however it goes on with named breaches. */
  ghost predicate FollowsOn(s: State, es: seq<Event>, k: nat, more: seq<Event>)
    requires k <= |es|
  {
    AllNamed(more) && Feasible(s, es[..k] + more) ==> Follows(s, es[..k] + more, None)
  }

  /** Along a run, and in every named continuation of it, every begin is closed by the clear and every breach is
    * announced, exactly when every assessed plan breach of the run has a name. */
  lemma FollowsIffNamed(es: seq<Event>)
    requires Feasible(FRESH, es)
    ensures (forall k: nat, more | k <= |es| :: FollowsOn(FRESH, es, k, more)) <==> AllNamed(es)
  {
    if AllNamed(es) {
      forall k: nat, more | k <= |es|
        ensures FollowsOn(FRESH, es, k, more)
      {
        if AllNamed(more) && Feasible(FRESH, es[..k] + more) {
          NamedRunFollows(FRESH, es[..k] + more, None);
        }
      }
    } else {
      var k, more := UnnamedRunFails(FRESH, es);
    }
  }

  /** The breaking step and what follows it, as one run. */
  lemma UnnamedBreachRun(s: State, e: Event, prev: Option<Alert>) returns (more: seq<Event>)
    requires Enabled(s, e) && NamedState(s) && !NamedBreach(e) && (IsOpen(prev) <==> s.active != "")
    ensures AllNamed(more) && Feasible(s, [e] + more) && !Follows(s, [e] + more, prev)
  {
    more := UnnamedBreachFails(s, e, prev);
    if s.active == "" {
      more := [];
    }
    assert ([e] + more)[1..] == more;
  }

  lemma UnnamedRunFails(s: State, es: seq<Event>) returns (k: nat, more: seq<Event>)
    requires Feasible(s, es) && !AllNamed(es) && NamedState(s) && s.active == ""
    ensures k <= |es| && !FollowsOn(s, es, k, more)
  {
    var n := FirstUnnamed(es);
    NextIsEnabled(s, es, n);
    more := FailsAfter(s, es[..n], es[n]);
    k := n + 1;
    assert es[..k] == es[..n] + [es[n]];
  }

  lemma FailsAfter(s: State, front: seq<Event>, e: Event) returns (more: seq<Event>)
    requires Feasible(s, front) && AllNamed(front) && Enabled(Final(s, front), e) && !NamedBreach(e)
    requires NamedState(s) && s.active == ""
    ensures AllNamed(more) && Feasible(s, front + [e] + more) && !Follows(s, front + [e] + more, None)
  {
    NamedRunFollows(s, front, None);
    more := UnnamedBreachRun(Final(s, front), e, LastOf(None, Alerts(s, front)));
    var tail := [e] + more;
    Joined(s, front, tail);
    if Follows(s, front + tail, None) {
      JoinedFollows(s, front, tail, None);
    }
    assert front + [e] + more == front + tail;
  }

  lemma NextIsEnabled(s: State, es: seq<Event>, k: nat)
    requires Feasible(s, es) && k < |es|
    ensures Feasible(s, es[..k]) && Enabled(Final(s, es[..k]), es[k])
  {
    Prefix(s, es, k);
    assert es[..k] + es[k..] == es;
    Joined(s, es[..k], es[k..]);
    assert es[k..][0] == es[k];
  }

  lemma {:induction false} Prefix(s: State, es: seq<Event>, k: nat)
    requires Feasible(s, es) && k <= |es|
    ensures Feasible(s, es[..k])
    decreases k
  {
    if k > 0 {
      Prefix(Next(s, es[0]).state, es[1..], k - 1);
      assert es[..k][1..] == es[1..][..k - 1];
    }
  }

  /** A shortest such run: a begin that no end ever closes. */
  lemma UnnamedBreachIsNeverClosed(x: Breach, nameless: Breach, now: int)
    requires x.mrid != "" && nameless.mrid == ""
    ensures var es := [OnPlan(false, Some(x), now, [], true), OnPlan(false, Some(nameless), now, [], true),
                       OnPlan(false, None, now, [], true)];
            && Feasible(FRESH, es) && Final(FRESH, es).plan == None && Final(FRESH, es).reports == map[]
            && |Alerts(FRESH, es)| == 2 && Alerts(FRESH, es)[0].Begin? && Alerts(FRESH, es)[1].Begin?
  {
    var e0, e1, e2 := OnPlan(false, Some(x), now, [], true), OnPlan(false, Some(nameless), now, [], true),
                      OnPlan(false, None, now, [], true);
    var s1 := Next(FRESH, e0).state;
    var s2 := Next(s1, e1).state;
    assert Next(FRESH, e0).alerts == [Begin(x.mrid, s1.episode, x)];
    assert Next(s1, e1).alerts == [Begin("", s2.episode, nameless)];
    assert Next(s2, e2).alerts == [];
    OneMore(s2, e2, []);
    OneMore(s1, e1, [e2]);
    OneMore(FRESH, e0, [e1, e2]);
    assert [e2] + [] == [e2] && [e1] + [e2] == [e1, e2] && [e0] + [e1, e2] == [e0, e1, e2];
  }

  /** Safety plans, other report kinds and unnamed device faults change nothing and emit nothing. */
  lemma UnassessedEventsChangeNothing(s: State, e: Event)
    requires Enabled(s, e) && !e.Resave?
    requires || (e.OnPlan? && e.safety)
             || (e.OnReport? && (e.kind.OtherKind? || (e.kind.NonConvergedBegin? && e.mrid == "")))
    ensures Next(s, e) == Step(s, [])
  {
  }

  // ---------------------------------------------------------------- site alarm

  /** Fed with a paired stream, the site's events alternate alarm and return to normal, even when a second
    * control begins without an end in between. */
  lemma {:induction false} SiteAlarmsAlternate(
    prev: Option<Alert>, alerts: seq<Alert>, times: seq<int>, latch: bool, count: nat)
    requires PairedAfter(prev, alerts) && |alerts| == |times| && (latch <==> IsOpen(prev))
    ensures Alternates(AlarmEdges.Feed(latch, alerts, times, count), !latch)
    decreases |alerts|
  {
    if alerts != [] {
      var out := AlarmEdges.SiteEvents(latch, alerts[0], times[0], (count + 1) % 65536);
      SiteEventTakesTurn(prev, alerts[0], times[0], (count + 1) % 65536);
      SiteAlarmsAlternate(Some(alerts[0]), alerts[1..], times[1..], alerts[0].Begin?, (count + |out|) % 65536);
      var rest := AlarmEdges.Feed(alerts[0].Begin?, alerts[1..], times[1..], (count + |out|) % 65536);
      AlternatesJoin(out, rest, !latch);
    }
  }

  lemma SiteEventTakesTurn(prev: Option<Alert>, a: Alert, now: int, id: nat)
    requires a.End? ==> IsOpen(prev)
    ensures var latch, out := IsOpen(prev), AlarmEdges.SiteEvents(IsOpen(prev), a, now, id);
            && |out| <= 1 && (out != [] ==> out[0].alarm == !latch)
            && a.Begin? == (if out == [] then latch else !latch)
  {
  }

  /** Alarm states take turns, the first being `first`. */
  ghost predicate Alternates(events: seq<AlarmEdges.LogEvent>, first: bool) {
    && (events != [] ==> events[0].alarm == first)
    && forall k | 0 < k < |events| :: events[k].alarm != events[k - 1].alarm
  }

  lemma AlternatesJoin(out: seq<AlarmEdges.LogEvent>, rest: seq<AlarmEdges.LogEvent>, first: bool)
    requires |out| <= 1 && (out != [] ==> out[0].alarm == first)
    requires Alternates(rest, if out == [] then first else !first)
    ensures Alternates(out + rest, first)
  {
    if out == [] {
      assert out + rest == rest;
    } else {
      assert forall k | 0 < k < |out + rest| :: (out + rest)[k] == rest[k - 1];
    }
  }

  /** The whole pipeline from a fresh start: episodes into alarms. */
  lemma PipelineAlternates(es: seq<Event>, times: seq<int>)
    requires Feasible(FRESH, es) && |times| == |Alerts(FRESH, es)|
    ensures Alternates(AlarmEdges.Feed(false, Alerts(FRESH, es), times, 0), true)
  {
    StreamIsPaired(FRESH, es, None);
    SiteAlarmsAlternate(None, Alerts(FRESH, es), times, false, 0);
  }

  // ---------------------------------------------------------------- identities

  function Begins(alerts: seq<Alert>): seq<Alert> {
    if alerts == [] then []
    else (if alerts[0].Begin? then [alerts[0]] else []) + Begins(alerts[1..])
  }

  lemma {:induction false} BeginsOfConcat(a: seq<Alert>, b: seq<Alert>)
    ensures Begins(a + b) == Begins(a) + Begins(b)
    decreases |a|
  {
    if a == [] {
      assert a + b == b;
    } else {
      BeginsOfConcat(a[1..], b);
      assert (a + b)[0] == a[0] && (a + b)[1..] == a[1..] + b;
      var head := if a[0].Begin? then [a[0]] else [];
      assert head + (Begins(a[1..]) + Begins(b)) == (head + Begins(a[1..])) + Begins(b);
    }
  }

  /** The begins of a stream are numbered lo + 1, lo + 2, ... in their episode IDs. */
  ghost predicate Numbered(begins: seq<Alert>, lo: nat) {
    forall k | 0 <= k < |begins| ::
      begins[k].episode.Episode? && begins[k].episode.counter == lo + 1 + k && begins[k].episode.mrid == begins[k].mrid
  }

  lemma StepBegins(s: State, e: Event)
    requires Enabled(s, e)
    ensures var b := Begins(Next(s, e).alerts);
            && |b| <= 1 && Next(s, e).state.counter == s.counter + |b|
            && Numbered(b, s.counter)
  {
  }

  lemma NumberedConcat(a: seq<Alert>, b: seq<Alert>, lo: nat)
    requires Numbered(a, lo) && Numbered(b, lo + |a|)
    ensures Numbered(a + b, lo)
  {
    forall k | 0 <= k < |a + b|
      ensures (a + b)[k].episode.Episode? && (a + b)[k].episode.counter == lo + 1 + k
      ensures (a + b)[k].episode.mrid == (a + b)[k].mrid
    {
      if k >= |a| {
        assert (a + b)[k] == b[k - |a|];
      }
    }
  }

  lemma {:induction false} BeginsAreNumbered(s: State, es: seq<Event>)
    requires Feasible(s, es)
    ensures Numbered(Begins(Alerts(s, es)), s.counter)
    ensures Final(s, es).counter == s.counter + |Begins(Alerts(s, es))|
    decreases |es|
  {
    if es != [] {
      var step := Next(s, es[0]);
      StepBegins(s, es[0]);
      BeginsAreNumbered(step.state, es[1..]);
      var rest := Alerts(step.state, es[1..]);
      BeginsOfConcat(step.alerts, rest);
      assert Numbered(Begins(step.alerts), s.counter);
      NumberedConcat(Begins(step.alerts), Begins(rest), s.counter);
      assert Alerts(s, es) == step.alerts + rest;
    }
  }

  /** No two of them print the same episode ID. */
  ghost predicate DistinctIds(begins: seq<Alert>) {
    forall j, k | 0 <= j < k < |begins| :: Printed(begins[j].episode) != Printed(begins[k].episode)
  }

  lemma NumberedAreDistinct(begins: seq<Alert>, lo: nat)
    requires Numbered(begins, lo)
    ensures DistinctIds(begins)
  {
    forall j, k | 0 <= j < k < |begins|
      ensures Printed(begins[j].episode) != Printed(begins[k].episode)
    {
      if Printed(begins[j].episode) == Printed(begins[k].episode) {
        PrintedCounter(begins[j].episode, begins[k].episode);
      }
    }
  }
}

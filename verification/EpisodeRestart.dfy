/** Identities across a restart of the breach component: which second lives reuse an episode ID, and which
  * evidence lets a standing episode survive. */
module EpisodeRestart {
  import opened Prelude
  import opened EpisodeId
  import opened Episodes
  import opened EpisodeRuns

  // ---------------------------------------------------------------- restart

  predicate AllSaved(es: seq<Event>) { forall k | 0 <= k < |es| :: es[k].saved }

  /** While no snapshot write fails, the file is missing or names the current episode. */
  lemma {:induction false} SnapshotTracksIdentity(s: State, es: seq<Event>)
    requires Feasible(s, es) && AllSaved(es)
    requires if s.file.None? then s.active == "" else s.file.value.active == IdentityOf(s)
    ensures var t := Final(s, es);
            if t.file.None? then t.active == "" else t.file.value.active == IdentityOf(t)
    decreases |es|
  {
    if es != [] {
      SnapshotTracksIdentity(Next(s, es[0]).state, es[1..]);
    }
  }

  // ---------------------------------------------------------------- which restarts keep IDs distinct

  function Stalled(d: string, m: string, issued: int, now: int): Event {
    OnReport(NonConvergedBegin, d, m, issued, now, [d], true)
  }

  /** What a snapshot file can hold: nothing, or the identity of an episode begun so far. */
  predicate FileOk(s: State) {
    s.file.Some? && s.file.value.active.Some? ==>
      var id := s.file.value.active.value;
      id.mrid != "" && id.episode.Episode? && 1 <= id.counter <= s.counter
  }

  predicate IdentityOk(s: State) { s.active != "" ==> s.episode.Episode? && s.counter >= 1 }

  lemma StepKeepsFile(s: State, e: Event)
    requires Enabled(s, e) && FileOk(s) && IdentityOk(s)
    ensures var t := Next(s, e).state; FileOk(t) && IdentityOk(t) && t.counter >= s.counter
  {
    if Absorb(s, e).Some? {
      var u := Absorb(s, e).value;
      assert u.(plan := s.plan, reports := s.reports) == s;
      assert FileOk(Emit(u, e.now, e.order, e.saved).state);
    }
  }

  lemma {:induction false} FileNamesABegin(s: State, es: seq<Event>)
    requires Feasible(s, es) && FileOk(s) && IdentityOk(s)
    ensures FileOk(Final(s, es)) && IdentityOk(Final(s, es)) && Final(s, es).counter >= s.counter
    decreases |es|
  {
    if es != [] {
      StepKeepsFile(s, es[0]);
      FileNamesABegin(Next(s, es[0]).state, es[1..]);
    }
  }

  lemma {:induction false} FirstBeginIsNamed(s: State, es: seq<Event>)
    requires Feasible(s, es) && s.active == ""
    ensures Begins(Alerts(s, es)) != [] ==> Begins(Alerts(s, es))[0].mrid != ""
    decreases |es|
  {
    if es != [] {
      var step := Next(s, es[0]);
      var rest := Alerts(step.state, es[1..]);
      BeginsOfConcat(step.alerts, rest);
      if step.state.active == "" {
        assert Begins(step.alerts) == [];
        FirstBeginIsNamed(step.state, es[1..]);
      } else {
        assert Begins(step.alerts) == step.alerts + [];
      }
    }
  }

  /** From a restart with the counter at n, some second life begins with any identity numbered n + 1; an unnamed
    * one needs an episode to be open. */
  lemma AnyIdentityCanFollow(t: State, mrid: string, issued: int) returns (es: seq<Event>)
    requires t.plan == None && t.reports == map[] && (mrid != "" || t.active != "")
    ensures Feasible(t, es) && Begins(Alerts(t, es)) != []
    ensures Begins(Alerts(t, es))[0].episode == Episode(mrid, issued, t.counter + 1)
    decreases mrid == t.active
  {
    if mrid == "" {
      es := OneEvent(t, OnPlan(false, Some(Breach("", "", 0.0, 0.0, 0.0, "")), issued, [], true));
    } else if mrid != t.active {
      assert Scan(["d"], map["d" := Evidence(mrid, true, issued)], t.active, Pick("", 0)) == Pick(mrid, issued);
      es := OneEvent(t, Stalled("d", mrid, issued, 0));
    } else {
      var cleared := Next(t, OnPlan(false, None, 0, [], true));
      assert cleared.alerts == [End(t.active, t.episode)];
      var more := AnyIdentityCanFollow(cleared.state, mrid, issued);
      OneMore(t, OnPlan(false, None, 0, [], true), more);
      es := [OnPlan(false, None, 0, [], true)] + more;
      BeginsOfConcat(cleared.alerts, Alerts(cleared.state, more));
      assert Begins(cleared.alerts) == [] + [];
    }
  }

  lemma OneEvent(t: State, e: Event) returns (es: seq<Event>)
    requires Enabled(t, e) && |Next(t, e).alerts| == 1 && Next(t, e).alerts[0].Begin?
    ensures es == [e] && Feasible(t, es) && Begins(Alerts(t, es)) == Next(t, e).alerts
  {
    es := [e];
    OneMore(t, e, []);
    assert [e] + [] == [e];
    var begins := Next(t, e).alerts;
    assert begins + [] == begins && begins == [begins[0]] && begins[1..] == [];
    assert Begins(begins) == [begins[0]] + Begins([]);
  }

  /** The second life's IDs differ from each other and from the first life's. */
  ghost predicate KeepsIds(es1: seq<Event>, t: State, es2: seq<Event>)
    requires Feasible(FRESH, es1)
  {
    Feasible(t, es2) ==> DistinctIds(Begins(Alerts(FRESH, es1)) + Begins(Alerts(t, es2)))
  }

  /** A restart keeps episode IDs distinct, whatever the second life brings, exactly when its counter is the first
    * life's: nothing had begun, or the snapshot was accepted and names the latest episode. A missing, rejected or
    * closed snapshot and one of an earlier episode all let some second life reuse an ID. */
  lemma IdsStayDistinctIff(es1: seq<Event>, maxAgeS: int, now: int)
    requires Feasible(FRESH, es1)
    ensures var s := Final(FRESH, es1);
            var t := Restart(s, maxAgeS, now);
            && ((forall es2 :: KeepsIds(es1, t, es2)) <==> t.counter == s.counter)
            && (t.counter == s.counter <==>
                  || s.counter == 0
                  || (Load(s.file, maxAgeS, now).Some? && s.file.value.active.Some?
                      && s.file.value.active.value.counter == s.counter))
  {
    var s := Final(FRESH, es1);
    var t := Restart(s, maxAgeS, now);
    FileNamesABegin(FRESH, es1);
    BeginsAreNumbered(FRESH, es1);
    if t.counter == s.counter {
      forall es2
        ensures KeepsIds(es1, t, es2)
      {
        if Feasible(t, es2) {
          BeginsAreNumbered(t, es2);
          NumberedConcat(Begins(Alerts(FRESH, es1)), Begins(Alerts(t, es2)), 0);
          NumberedAreDistinct(Begins(Alerts(FRESH, es1)) + Begins(Alerts(t, es2)), 0);
        }
      }
    } else {
      LowerCounterReusesId(es1, t);
    }
  }

  lemma LowerCounterReusesId(es1: seq<Event>, t: State)
    requires Feasible(FRESH, es1) && t.plan == None && t.reports == map[]
    requires t.counter < Final(FRESH, es1).counter && (t.counter > 0 ==> t.active != "")
    ensures exists es2 :: !KeepsIds(es1, t, es2)
  {
    BeginsAreNumbered(FRESH, es1);
    FirstBeginIsNamed(FRESH, es1);
    var es2 := SomeLifeReusesId(Begins(Alerts(FRESH, es1)), t);
    assert !KeepsIds(es1, t, es2);
  }

  /** After more begins than its counter tells, some life of t repeats one of them. */
  lemma SomeLifeReusesId(begun: seq<Alert>, t: State) returns (es: seq<Event>)
    requires Numbered(begun, 0) && t.counter < |begun| && begun[0].mrid != ""
    requires t.plan == None && t.reports == map[] && (t.counter > 0 ==> t.active != "")
    ensures Feasible(t, es) && !DistinctIds(begun + Begins(Alerts(t, es)))
  {
    var b := begun[t.counter];
    es := AnyIdentityCanFollow(t, b.mrid, b.episode.issuedAt);
    var both := begun + Begins(Alerts(t, es));
    assert both[t.counter].episode == both[|begun|].episode;
  }

  // ---------------------------------------------------------------- any number of lives

  /** What one process saw, and how the next one loads the file it left. */
  datatype Life = Life(events: seq<Event>, maxAgeS: int, now: int)

  ghost predicate Lived(lives: seq<Life>)
    decreases |lives|, 0
  {
    lives == [] ||
    (Lived(lives[..|lives| - 1]) && Feasible(AfterLives(lives[..|lives| - 1]), lives[|lives| - 1].events))
  }

  ghost function LastState(lives: seq<Life>): State
    requires Lived(lives) && lives != []
    decreases |lives|, 1
  {
    Final(AfterLives(lives[..|lives| - 1]), lives[|lives| - 1].events)
  }

  /** The process that follows those lives. */
  ghost function AfterLives(lives: seq<Life>): State
    requires Lived(lives)
    decreases |lives|, 2
  {
    if lives == [] then FRESH
    else Restart(LastState(lives), lives[|lives| - 1].maxAgeS, lives[|lives| - 1].now)
  }

  ghost function Begun(lives: seq<Life>): seq<Alert>
    requires Lived(lives)
    decreases |lives|
  {
    if lives == [] then [] else
      Begun(lives[..|lives| - 1]) + Begins(Alerts(AfterLives(lives[..|lives| - 1]), lives[|lives| - 1].events))
  }

  /** Every restart restored the counter. */
  ghost predicate AllRestored(lives: seq<Life>)
    requires Lived(lives)
    decreases |lives|
  {
    lives == [] || (AllRestored(lives[..|lives| - 1]) && AfterLives(lives).counter == LastState(lives).counter)
  }

  /** A process that carries on from `begun`. */
  ghost predicate CarriesOn(t: State, begun: seq<Alert>) {
    && FileOk(t) && IdentityOk(t) && t.plan == None && t.reports == map[]
    && Numbered(begun, 0) && |begun| == t.counter && (begun != [] ==> begun[0].mrid != "")
  }

  lemma OneMoreLife(t: State, begun: seq<Alert>, es: seq<Event>)
    requires CarriesOn(t, begun) && Feasible(t, es)
    ensures var all, s := begun + Begins(Alerts(t, es)), Final(t, es);
            && FileOk(s) && Numbered(all, 0) && |all| == s.counter && (all != [] ==> all[0].mrid != "")
  {
    FileNamesABegin(t, es);
    BeginsAreNumbered(t, es);
    NumberedConcat(begun, Begins(Alerts(t, es)), 0);
    if begun == [] {
      FirstBeginIsNamed(t, es);
    }
  }

  lemma {:induction false} RestoredLivesCarryOn(lives: seq<Life>)
    requires Lived(lives) && AllRestored(lives)
    ensures CarriesOn(AfterLives(lives), Begun(lives))
    decreases |lives|
  {
    if lives != [] {
      var front, last := lives[..|lives| - 1], lives[|lives| - 1];
      RestoredLivesCarryOn(front);
      OneMoreLife(AfterLives(front), Begun(front), last.events);
    }
  }

  ghost predicate KeepsIdsAfter(lives: seq<Life>, es: seq<Event>) {
    Lived(lives) && Feasible(AfterLives(lives), es) ==>
      DistinctIds(Begun(lives) + Begins(Alerts(AfterLives(lives), es)))
  }

  lemma RestoredLivesKeepIds(lives: seq<Life>, es: seq<Event>)
    requires Lived(lives) && AllRestored(lives)
    ensures KeepsIdsAfter(lives, es)
  {
    if Feasible(AfterLives(lives), es) {
      RestoredLivesCarryOn(lives);
      OneMoreLife(AfterLives(lives), Begun(lives), es);
      NumberedAreDistinct(Begun(lives) + Begins(Alerts(AfterLives(lives), es)), 0);
    }
  }

  /** The first restart that does not restore the counter lets the next life reuse an ID. */
  lemma LostCounterReusesId(lives: seq<Life>) returns (es: seq<Event>)
    requires Lived(lives) && lives != [] && AllRestored(lives[..|lives| - 1]) && !AllRestored(lives)
    ensures !KeepsIdsAfter(lives, es)
  {
    var front, last := lives[..|lives| - 1], lives[|lives| - 1];
    RestoredLivesCarryOn(front);
    OneMoreLife(AfterLives(front), Begun(front), last.events);
    es := SomeLifeReusesId(Begun(lives), AfterLives(lives));
  }

  /** Over any number of lives: after every part of them IDs stay distinct whatever the next life brings, exactly when
    * every restart restored the counter. */
  lemma {:induction false} IdsStayDistinctOverLives(lives: seq<Life>)
    requires Lived(lives)
    ensures (forall part, es | part <= lives :: KeepsIdsAfter(part, es)) <==> AllRestored(lives)
    decreases |lives|
  {
    if lives == [] {
      forall part, es | part <= lives
        ensures KeepsIdsAfter(part, es)
      {
        RestoredLivesKeepIds(part, es);
      }
    } else {
      var front := lives[..|lives| - 1];
      IdsStayDistinctOverLives(front);
      if !AllRestored(front) {
        var part, es :| part <= front && !KeepsIdsAfter(part, es);
        assert part <= lives;
      } else if AllRestored(lives) {
        forall part, es | part <= lives
          ensures KeepsIdsAfter(part, es)
        {
          if part == lives {
            RestoredLivesKeepIds(lives, es);
          } else {
            assert part <= front;
          }
        }
      } else {
        var es := LostCounterReusesId(lives);
      }
    }
  }

  predicate SameIdentity(t: State, s: State) {
    t.active == s.active && t.episode == s.episode && t.counter == s.counter
  }

  /** A crash inside an episode, then a restart: the identity is back exactly when the snapshot is accepted and is of
    * this episode. Then no episode ID begins twice over both lives, and the second life's stream pairs as if it
    * followed the restored begin. */
  lemma RestartContinuity(es1: seq<Event>, maxAgeS: int, now: int, es2: seq<Event>, first: Breach)
    requires Feasible(FRESH, es1) && Final(FRESH, es1).active != ""
    requires Feasible(Restart(Final(FRESH, es1), maxAgeS, now), es2)
    ensures var s := Final(FRESH, es1);
            var t := Restart(s, maxAgeS, now);
            && (SameIdentity(t, s) <==> Load(s.file, maxAgeS, now).Some? && s.file.value.active == IdentityOf(s))
            && (SameIdentity(t, s) ==>
                  && DistinctIds(Begins(Alerts(FRESH, es1)) + Begins(Alerts(t, es2)))
                  && PairedAfter(Some(Begin(s.active, s.episode, first)), Alerts(t, es2)))
  {
    var s := Final(FRESH, es1);
    var t := Restart(s, maxAgeS, now);
    FileNamesABegin(FRESH, es1);
    if SameIdentity(t, s) {
      IdsStayDistinctIff(es1, maxAgeS, now);
      assert KeepsIds(es1, t, es2);
      StreamIsPaired(t, es2, Some(Begin(s.active, s.episode, first)));
    }
  }

  // ---------------------------------------------------------------- evidence, as delivered

  /** The events whose evidence is assessed. */
  predicate Assessed(e: Event) {
    (e.OnPlan? && !e.safety) || (e.OnReport? && Concerns(e, e.device))
  }

  /** A convergence report on device d. */
  predicate Concerns(e: Event, d: string) {
    e.OnReport? && e.device == d && ((e.kind.NonConvergedBegin? && e.mrid != "") || e.kind.NonConvergedEnd?)
  }

  /** The last plan that is no safety plan decides on the meter's breach. */
  function LatestPlan(es: seq<Event>): Option<Breach> {
    if es == [] then None else
    var e := es[|es| - 1];
    if e.OnPlan? && !e.safety then e.planBreach else LatestPlan(es[..|es| - 1])
  }

  /** The last report on device d says it has not converged to control m. */
  ghost predicate Standing(es: seq<Event>, d: string, m: string) {
    m != "" && exists k :: StandsSince(es, d, m, k)
  }

  ghost predicate StandsSince(es: seq<Event>, d: string, m: string, k: int) {
    && 0 <= k < |es| && Concerns(es[k], d) && es[k].kind.NonConvergedBegin? && es[k].mrid == m
    && forall j | k < j < |es| :: !Concerns(es[j], d)
  }

  /** The delivered evidence is for m: the meter's, or without it some device's. */
  ghost predicate Supports(es: seq<Event>, m: string) {
    match LatestPlan(es)
    case Some(b) => b.mrid == m
    case None => exists d :: Standing(es, d, m)
  }

  /** Nothing breaches any more. */
  ghost predicate AllClear(es: seq<Event>) {
    LatestPlan(es) == None && forall d, m :: !Standing(es, d, m)
  }

  lemma StandingStep(es: seq<Event>, e: Event, d: string, m: string)
    ensures Standing(es + [e], d, m) <==>
              m != "" && if Concerns(e, d) then e.kind.NonConvergedBegin? && e.mrid == m else Standing(es, d, m)
  {
    var all := es + [e];
    assert all[|es|] == e && forall j | 0 <= j < |es| :: all[j] == es[j];
    if Concerns(e, d) {
      if m != "" && e.kind.NonConvergedBegin? && e.mrid == m {
        assert StandsSince(all, d, m, |es|);
      }
      forall k | StandsSince(all, d, m, k)
        ensures k == |es|
      {
        assert !(k < |es| < |all|);
      }
    } else {
      forall k
        ensures StandsSince(all, d, m, k) <==> StandsSince(es, d, m, k)
      {
      }
    }
  }

  lemma FinalStep(t: State, es: seq<Event>)
    requires Feasible(t, es) && es != []
    ensures var front, e := es[..|es| - 1], es[|es| - 1];
            && es == front + [e] && Feasible(t, front) && Enabled(Final(t, front), e)
            && Final(t, es) == Next(Final(t, front), e).state
            && Alerts(t, es) == Alerts(t, front) + Next(Final(t, front), e).alerts
  {
    var front, e := es[..|es| - 1], es[|es| - 1];
    assert es == front + [e];
    NextIsEnabled(t, es, |front|);
    Joined(t, front, [e]);
    assert [e][1..] == [];
    assert Alerts(Final(t, front), [e]) == Next(Final(t, front), e).alerts + [];
  }

  lemma StepKeepsEvidence(s: State, e: Event)
    requires Enabled(s, e)
    ensures var u := if Absorb(s, e).Some? then Absorb(s, e).value else s;
            Next(s, e).state.plan == u.plan && Next(s, e).state.reports == u.reports
  {
  }

  lemma EvidenceStep(s: State, e: Event)
    requires Enabled(s, e)
    ensures Next(s, e).state.plan == if e.OnPlan? && !e.safety then e.planBreach else s.plan
    ensures forall d, m :: Holds(Next(s, e).state.reports, d, m) <==>
              m != "" && if Concerns(e, d) then e.kind.NonConvergedBegin? && e.mrid == m else Holds(s.reports, d, m)
  {
    StepKeepsEvidence(s, e);
  }

  /** What the component holds as evidence is what was delivered. */
  lemma {:induction false} EvidenceIsDelivered(t: State, es: seq<Event>, d: string, m: string)
    requires Feasible(t, es) && t.plan == None && t.reports == map[]
    ensures Final(t, es).plan == LatestPlan(es)
    ensures Holds(Final(t, es).reports, d, m) <==> Standing(es, d, m)
    decreases |es|
  {
    if es == [] {
    } else {
      var front, e := es[..|es| - 1], es[|es| - 1];
      FinalStep(t, es);
      EvidenceIsDelivered(t, front, d, m);
      EvidenceStep(Final(t, front), e);
      StandingStep(front, e, d, m);
    }
  }

  // ---------------------------------------------------------------- what keeps a restored episode

  /** One step with an episode open: silent exactly when the evidence still supports its control, and one end
    * exactly when nothing breaches. */
  lemma StepWhileOpen(s: State, e: Event)
    requires Enabled(s, e) && s.active != "" && Absorb(s, e).Some?
    ensures var u, step := Absorb(s, e).value, Next(s, e);
            && (step.alerts == [] <==>
                  if u.plan.Some? then u.plan.value.mrid == s.active else Candidate(u.reports, s.active))
            && (step.alerts == [] ==>
                  step.state.active == s.active && step.state.episode == s.episode && step.state.counter == s.counter)
            && (step.alerts == [End(s.active, s.episode)] <==> u.plan.None? && forall m :: !Candidate(u.reports, m))
            && |step.alerts| <= 1
  {
    var u := Absorb(s, e).value;
    ArbitrationIgnoresOrder(e.order, u.reports, s.active);
    var r := Scan(e.order, u.reports, s.active, Pick("", 0));
    assert r.mrid != "" ==> Candidate(u.reports, r.mrid);
  }

  lemma AssessedIsAbsorbed(s: State, e: Event)
    ensures Assessed(e) <==> Absorb(s, e).Some?
  {
  }

  /** The evidence u is what `es` delivered. */
  ghost predicate Knows(u: State, es: seq<Event>) {
    u.plan == LatestPlan(es) && forall d, m :: Holds(u.reports, d, m) <==> Standing(es, d, m)
  }

  /** The evidence a step has absorbed is what has been delivered up to it. */
  lemma AbsorbedIsDelivered(t: State, es: seq<Event>, s: State, e: Event)
    requires Feasible(t, es) && t.plan == None && t.reports == map[] && es != []
    requires e == es[|es| - 1] && Feasible(t, es[..|es| - 1]) && s == Final(t, es[..|es| - 1])
    requires Enabled(s, e) && Absorb(s, e).Some?
    ensures Knows(Absorb(s, e).value, es)
  {
    FinalStep(t, es);
    StepKeepsEvidence(s, e);
    var u := Absorb(s, e).value;
    EvidenceIsDelivered(t, es, "", "");
    forall d, m
      ensures Holds(u.reports, d, m) <==> Standing(es, d, m)
    {
      EvidenceIsDelivered(t, es, d, m);
    }
  }

  lemma KnownEvidence(u: State, es: seq<Event>, m: string)
    requires Knows(u, es)
    ensures (if u.plan.Some? then u.plan.value.mrid == m else Candidate(u.reports, m)) <==> Supports(es, m)
    ensures (u.plan.None? && forall c :: !Candidate(u.reports, c)) <==> AllClear(es)
  {
    forall c
      ensures Candidate(u.reports, c) <==> exists d :: Standing(es, d, c)
    {
      if d :| Holds(u.reports, d, c) {
        assert Standing(es, d, c);
      }
      if d :| Standing(es, d, c) {
        assert Holds(u.reports, d, c);
      }
    }
    if u.plan.None? && forall c :: !Candidate(u.reports, c) {
      forall d, c
        ensures !Standing(es, d, c)
      {
        assert !Candidate(u.reports, c);
      }
    }
  }

  /** Every assessed event so far found the delivered evidence in support of control m. */
  ghost predicate Supported(es: seq<Event>, m: string) {
    forall k | 0 < k <= |es| && Assessed(es[k - 1]) :: Supports(es[..k], m)
  }

  lemma SupportedStep(es: seq<Event>, m: string)
    requires es != []
    ensures Supported(es, m) <==>
              Supported(es[..|es| - 1], m) && (Assessed(es[|es| - 1]) ==> Supports(es, m))
  {
    var front := es[..|es| - 1];
    assert es[..|es|] == es;
    forall k | 0 < k <= |front|
      ensures front[..k] == es[..k] && front[k - 1] == es[k - 1]
    {
    }
  }

  /** After a restart with an episode open, a run emits nothing exactly when at each assessed event the plans and
    * reports delivered so far support its control; then the identity stays as restored. */
  lemma {:induction false} SilentIffSupported(t: State, es: seq<Event>)
    requires Feasible(t, es) && t.plan == None && t.reports == map[] && t.active != ""
    ensures Alerts(t, es) == [] <==> Supported(es, t.active)
    ensures Alerts(t, es) == [] ==>
              Final(t, es).active == t.active && Final(t, es).episode == t.episode && Final(t, es).counter == t.counter
    decreases |es|
  {
    if es != [] {
      var front, e := es[..|es| - 1], es[|es| - 1];
      FinalStep(t, es);
      SilentIffSupported(t, front);
      SupportedStep(es, t.active);
      if Alerts(t, front) == [] {
        LastStepSilentIff(t, es);
      }
    }
  }

  /** The step after a silent run. */
  lemma LastStepSilentIff(t: State, es: seq<Event>)
    requires Feasible(t, es) && t.plan == None && t.reports == map[] && t.active != "" && es != []
    requires Feasible(t, es[..|es| - 1]) && Enabled(Final(t, es[..|es| - 1]), es[|es| - 1])
    requires var s := Final(t, es[..|es| - 1]); s.active == t.active && s.episode == t.episode && s.counter == t.counter
    ensures var e, step := es[|es| - 1], Next(Final(t, es[..|es| - 1]), es[|es| - 1]);
            && (step.alerts == [] <==> (Assessed(e) ==> Supports(es, t.active)))
            && (step.alerts == [] ==>
                  step.state.active == t.active && step.state.episode == t.episode && step.state.counter == t.counter)
            && (step.alerts == [End(t.active, t.episode)] <==> Assessed(e) && AllClear(es))
            && |step.alerts| <= 1
  {
    var s, e := Final(t, es[..|es| - 1]), es[|es| - 1];
    AssessedIsAbsorbed(s, e);
    if Assessed(e) {
      AbsorbedIsDelivered(t, es, s, e);
      KnownEvidence(Absorb(s, e).value, es, s.active);
      StepWhileOpen(s, e);
    }
  }

  /** The first assessed event alone decides: it is silent exactly when it is a plan breach or a device report for
    * the restored control. */
  lemma FirstEventIff(s: State, maxAgeS: int, now: int, e: Event)
    requires Restart(s, maxAgeS, now).active != "" && Assessed(e) && Enabled(Restart(s, maxAgeS, now), e)
    ensures var t := Restart(s, maxAgeS, now);
            Next(t, e).alerts == [] <==>
              || (e.OnPlan? && e.planBreach.Some? && e.planBreach.value.mrid == t.active)
              || (e.OnReport? && e.kind.NonConvergedBegin? && e.mrid == t.active)
  {
    var t := Restart(s, maxAgeS, now);
    AssessedIsAbsorbed(t, e);
    StepWhileOpen(t, e);
    var u := Absorb(t, e).value;
    if e.OnReport? {
      assert Candidate(u.reports, t.active) <==> Holds(u.reports, e.device, t.active);
    }
  }

  /** The same evidence is silent: over every run after a restart with an episode open. */
  lemma SameEvidenceIsSilent(s: State, maxAgeS: int, now: int, es: seq<Event>)
    requires Restart(s, maxAgeS, now).active != "" && Feasible(Restart(s, maxAgeS, now), es)
    ensures var t := Restart(s, maxAgeS, now);
            && (Alerts(t, es) == [] <==> Supported(es, t.active))
            && (Alerts(t, es) == [] ==> Final(t, es).active == t.active && Final(t, es).episode == t.episode)
  {
    SilentIffSupported(Restart(s, maxAgeS, now), es);
  }

  /** Vanished evidence ends the episode once: after a silent run the next event emits exactly the restored
    * episode's end if and only if the delivered plans and reports leave nothing breaching. */
  lemma VanishedEvidenceEndsOnce(s: State, maxAgeS: int, now: int, es: seq<Event>)
    requires Restart(s, maxAgeS, now).active != "" && Feasible(Restart(s, maxAgeS, now), es) && es != []
    requires Supported(es[..|es| - 1], Restart(s, maxAgeS, now).active)
    ensures var t := Restart(s, maxAgeS, now);
            Alerts(t, es) == [End(t.active, t.episode)] <==> Assessed(es[|es| - 1]) && AllClear(es)
  {
    var t := Restart(s, maxAgeS, now);
    FinalStep(t, es);
    SilentIffSupported(t, es[..|es| - 1]);
    LastStepSilentIff(t, es);
  }

  /** The open-episode hypothesis is needed: a snapshot of a closed episode forgets the counter, and the
    * next life reuses an episode ID. */
  lemma ClosedSnapshotForgetsCounter(d: string, m: string, issued: int, t0: int)
    requires m != ""
    ensures var es := [Stalled(d, m, issued, t0), OnReport(NonConvergedEnd, d, m, issued, t0, [d], true)];
            && Feasible(FRESH, es)
            && var s := Restart(Final(FRESH, es), 300, t0);
            && Feasible(s, [es[0]])
            && Begins(Alerts(FRESH, es)) == Begins(Alerts(s, [es[0]])) != []
  {
    var e0, e1 := Stalled(d, m, issued, t0), OnReport(NonConvergedEnd, d, m, issued, t0, [d], true);
    var s1 := Next(FRESH, e0).state;
    var s2 := Next(s1, e1).state;
    var s := Restart(s2, 300, t0);
    var breach := Breach(m, "device", 0.0, 0.0, 0.0, "device not converged (reconciler)");
    var begin := Begin(m, Episode(m, issued, 1), breach);
    assert Scan([d], s1.reports, "", Pick("", 0)) == Pick(m, issued);
    assert Scan([d], s1.reports[d := s1.reports[d].(nonConverged := false)], m, Pick("", 0)) == Pick("", 0);
    assert Next(FRESH, e0).alerts == [begin];
    assert s == FRESH.(file := s2.file);
    assert Next(s, e0).alerts == [begin];
    assert Next(s1, e1).alerts == [End(m, begin.episode)];
    OneMore(s1, e1, []);
    OneMore(FRESH, e0, [e1]);
    OneMore(s, e0, []);
    assert [e1] + [] == [e1] && [e0] + [e1] == [e0, e1] && [e0] + [] == [e0];
    assert Begins([End(m, begin.episode)]) == [];
    assert [begin] + [End(m, begin.episode)] == [begin, End(m, begin.episode)];
    assert Begins([begin, End(m, begin.episode)]) == [begin] + [] && Begins([begin]) == [begin] + [];
  }

  /** Device evidence is seeded by retained reports, and nothing orders those before the first plan: a
    * plan without a breach that comes first ends a standing episode, and the report then begins it again. */
  lemma PlanBeforeRetainedReport(d: string, m: string, issued: int, t0: int)
    requires m != ""
    ensures var stalled := Stalled(d, m, issued, t0);
            && Feasible(FRESH, [stalled])
            && var s := Restart(Final(FRESH, [stalled]), 300, t0);
            && var es := [OnPlan(false, None, t0, [], true), stalled];
            && Feasible(s, es) && |Alerts(s, es)| == 2
            && Alerts(s, es)[0] == End(m, s.episode)
            && Alerts(s, es)[1].Begin? && Alerts(s, es)[1].mrid == m
            && Printed(Alerts(s, es)[1].episode) != Printed(s.episode)
  {
    var e0, e1 := Stalled(d, m, issued, t0), OnPlan(false, None, t0, [], true);
    var s1 := Next(FRESH, e0).state;
    assert Scan([d], s1.reports, "", Pick("", 0)) == Pick(m, issued);
    OneMore(FRESH, e0, []);
    assert [e0] + [] == [e0] && [e1] + [e0] == [e1, e0];
    var s := Restart(s1, 300, t0);
    assert s.active == m && s.episode == Episode(m, issued, 1) && s.counter == 1;
    var s2 := Next(s, e1).state;
    assert Next(s, e1).alerts == [End(m, s.episode)];
    assert Next(s2, e0).alerts[0].episode == Episode(m, issued, 2);
    if Printed(Episode(m, issued, 1)) == Printed(Episode(m, issued, 2)) {
      PrintedCounter(Episode(m, issued, 1), Episode(m, issued, 2));
    }
    OneMore(s2, e0, []);
    OneMore(s, e1, [e0]);
  }
}

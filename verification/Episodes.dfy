/** Breach episodes (cmd/hub/breach.go) and their snapshot (cmd/hub/snapshot.go): two sources of evidence
  * merged into one stream of begin and end alerts.
  *
  * `order` is the enumeration a loop over the device map happens to use; `saved` says whether the
  * snapshot write of a step succeeds. */
module Episodes {
  import opened Prelude
  import opened EpisodeId

  datatype Evidence = Evidence(mrid: string, nonConverged: bool, issuedAt: int)

  datatype Breach = Breach(
    mrid: string, limitType: string, limitW: real, measuredW: real, shortfallW: real, reason: string)

  /** The merged verdict: what is breaching, and the stable half of its episode ID. */
  datatype Found = Found(breach: Breach, issuedAt: int)

  datatype Alert =
    | Begin(mrid: string, episode: Episode, breach: Breach)
    | End(mrid: string, episode: Episode)

  datatype Identity = Identity(mrid: string, episode: Episode, counter: nat)

  datatype Snapshot = Snapshot(version: int, writtenAt: int, active: Option<Identity>)

  datatype State = State(
    active: string, episode: Episode, counter: nat, // "" is no episode
    plan: Option<Breach>, reports: map<string, Evidence>,
    file: Option<Snapshot>)

  const FRESH := State("", NoEpisode, 0, None, map[], None)
  const SNAPSHOT_VERSION := 1

  datatype Kind = NonConvergedBegin | NonConvergedEnd | OtherKind

  datatype Event =
    | OnPlan(safety: bool, planBreach: Option<Breach>, now: int, order: seq<string>, saved: bool)
    | OnReport(kind: Kind, device: string, mrid: string, issuedAt: int, now: int, order: seq<string>, saved: bool)
    | Resave(now: int, saved: bool)

  datatype Step = Step(state: State, alerts: seq<Alert>)

  // ---------------------------------------------------------------- arbitration

  datatype Pick = Pick(mrid: string, issuedAt: int)

  /** `order` lists every device once. */
  ghost predicate Enumerates(order: seq<string>, reports: map<string, Evidence>) {
    && (forall d | d in order :: d in reports)
    && (forall d | d in reports :: d in order)
    && forall j, k | 0 <= j < k < |order| :: order[j] != order[k]
  }

  function Scan(order: seq<string>, reports: map<string, Evidence>, active: string, best: Pick): Pick
    requires forall d | d in order :: d in reports
    decreases |order|
  {
    if order == [] then best else
    var dr := reports[order[0]];
    if !dr.nonConverged || dr.mrid == "" then Scan(order[1..], reports, active, best)
    else if dr.mrid == active then Pick(dr.mrid, dr.issuedAt)
    else if best.mrid == "" || Below(dr.mrid, best.mrid)
    then Scan(order[1..], reports, active, Pick(dr.mrid, dr.issuedAt))
    else Scan(order[1..], reports, active, best)
  }

  predicate Holds(reports: map<string, Evidence>, d: string, m: string) {
    d in reports && reports[d].nonConverged && reports[d].mrid == m && m != ""
  }

  ghost predicate Candidate(reports: map<string, Evidence>, m: string) {
    exists d :: Holds(reports, d, m)
  }

  /** The choice, without any order: the active mRID if a device still holds it, else the least one. */
  ghost predicate Chosen(reports: map<string, Evidence>, active: string, m: string) {
    if Candidate(reports, active) then m == active
    else if exists c :: Candidate(reports, c)
    then Candidate(reports, m) && forall c | Candidate(reports, c) :: c == m || Below(m, c)
    else m == ""
  }

  lemma {:induction false} ScanIsLeast(rest: seq<string>, reports: map<string, Evidence>, active: string, best: Pick)
    requires forall d | d in rest :: d in reports
    ensures var r := Scan(rest, reports, active, best);
            && ((exists d | d in rest :: Holds(reports, d, active)) ==> r.mrid == active)
            && (r != best ==> exists d | d in rest :: Holds(reports, d, r.mrid) && reports[d].issuedAt == r.issuedAt)
            && (r.mrid == "" ==> best.mrid == "" && forall d | d in rest :: !Holds(reports, d, reports[d].mrid))
            && ((forall d | d in rest :: !Holds(reports, d, active)) ==>
                  && (best.mrid != "" ==> r.mrid == best.mrid || Below(r.mrid, best.mrid))
                  && forall d | d in rest && Holds(reports, d, reports[d].mrid) ::
                       reports[d].mrid == r.mrid || Below(r.mrid, reports[d].mrid))
    decreases |rest|
  {
    if rest != [] {
      var dr := reports[rest[0]];
      assert rest == [rest[0]] + rest[1..];
      if !dr.nonConverged || dr.mrid == "" {
        ScanIsLeast(rest[1..], reports, active, best);
      } else if dr.mrid == active {
        assert Holds(reports, rest[0], active);
      } else {
        var better := best.mrid == "" || Below(dr.mrid, best.mrid);
        var next := if better then Pick(dr.mrid, dr.issuedAt) else best;
        ScanIsLeast(rest[1..], reports, active, next);
        var r := Scan(rest[1..], reports, active, next);
        assert Holds(reports, rest[0], dr.mrid);
        BelowIsTotal(dr.mrid, best.mrid);
        if Below(r.mrid, next.mrid) && better && best.mrid != "" {
          BelowIsTransitive(r.mrid, next.mrid, best.mrid);
        }
        if Below(r.mrid, best.mrid) && Below(best.mrid, dr.mrid) {
          BelowIsTransitive(r.mrid, best.mrid, dr.mrid);
        }
      }
    }
  }

  lemma ChosenIsUnique(reports: map<string, Evidence>, active: string, m: string, n: string)
    requires Chosen(reports, active, m) && Chosen(reports, active, n)
    ensures m == n
  {
    BelowIsTotal(m, n);
  }

  /** Every enumeration picks the one mRID that `Chosen` describes, held by some device since `issuedAt`. */
  lemma ArbitrationIgnoresOrder(order: seq<string>, reports: map<string, Evidence>, active: string)
    requires Enumerates(order, reports)
    ensures var r := Scan(order, reports, active, Pick("", 0));
            && Chosen(reports, active, r.mrid)
            && (r.mrid != "" ==> exists d :: Holds(reports, d, r.mrid) && reports[d].issuedAt == r.issuedAt)
    ensures forall m | Chosen(reports, active, m) :: m == Scan(order, reports, active, Pick("", 0)).mrid
  {
    var r := Scan(order, reports, active, Pick("", 0));
    ScanIsLeast(order, reports, active, Pick("", 0));
    if Candidate(reports, active) {
      var d :| Holds(reports, d, active);
      assert d in order;
    } else {
      forall m | Candidate(reports, m)
        ensures r.mrid != "" && (m == r.mrid || Below(r.mrid, m))
      {
        var d :| Holds(reports, d, m);
        assert d in order && Holds(reports, d, reports[d].mrid);
      }
    }
    forall m | Chosen(reports, active, m)
      ensures m == r.mrid
    {
      ChosenIsUnique(reports, active, m, r.mrid);
    }
  }

  lemma {:induction false} BestStays(rest: seq<string>, reports: map<string, Evidence>, active: string, best: Pick)
    requires forall d | d in rest :: d in reports && !Holds(reports, d, active)
    requires best.mrid != ""
    requires forall d | d in rest && Holds(reports, d, reports[d].mrid) :: !Below(reports[d].mrid, best.mrid)
    ensures Scan(rest, reports, active, best) == best
    decreases |rest|
  {
    if rest != [] {
      assert rest[0] in rest;
      BestStays(rest[1..], reports, active, best);
    }
  }

  /** The first listed holder of the chosen mRID supplies the issue time. */
  lemma FirstHolderWins(order: seq<string>, reports: map<string, Evidence>, active: string, m: string)
    requires Enumerates(order, reports) && order != [] && Holds(reports, order[0], m) && Chosen(reports, active, m)
    ensures Scan(order, reports, active, Pick("", 0)) == Pick(m, reports[order[0]].issuedAt)
  {
    if m != active {
      forall d | d in order[1..]
        ensures d in reports && !Holds(reports, d, active)
        ensures Holds(reports, d, reports[d].mrid) ==> !Below(reports[d].mrid, m)
      {
        assert d in order;
        if Holds(reports, d, reports[d].mrid) {
          assert Candidate(reports, reports[d].mrid);
          BelowIsTotal(m, reports[d].mrid);
        }
      }
      BestStays(order[1..], reports, active, Pick(m, reports[order[0]].issuedAt));
    }
  }

  lemma {:induction false} EnumerationExists(reports: map<string, Evidence>) returns (order: seq<string>)
    ensures Enumerates(order, reports)
    decreases |reports|
  {
    order := [];
    if reports != map[] {
      var d :| d in reports;
      var rest := EnumerationExists(reports - {d});
      order := [d] + rest;
    }
  }

  lemma EnumerationFrom(reports: map<string, Evidence>, d: string) returns (order: seq<string>)
    requires d in reports
    ensures Enumerates(order, reports) && order != [] && order[0] == d
  {
    var rest := EnumerationExists(reports - {d});
    order := [d] + rest;
  }

  /** The mRID never depends on the map's order; the issue time inside the episode ID does, unless all
    * holders of the chosen mRID share it. */
  lemma IssueTimeDependsOnOrder(reports: map<string, Evidence>, active: string, m: string)
    requires Chosen(reports, active, m) && m != ""
    ensures (forall o, p | Enumerates(o, reports) && Enumerates(p, reports) ::
               Scan(o, reports, active, Pick("", 0)) == Scan(p, reports, active, Pick("", 0)))
            <==>
            (forall d, e | Holds(reports, d, m) && Holds(reports, e, m) :: reports[d].issuedAt == reports[e].issuedAt)
  {
    if forall o, p | Enumerates(o, reports) && Enumerates(p, reports) ::
        Scan(o, reports, active, Pick("", 0)) == Scan(p, reports, active, Pick("", 0)) {
      forall d, e | Holds(reports, d, m) && Holds(reports, e, m)
        ensures reports[d].issuedAt == reports[e].issuedAt
      {
        var o := EnumerationFrom(reports, d);
        var p := EnumerationFrom(reports, e);
        FirstHolderWins(o, reports, active, m);
        FirstHolderWins(p, reports, active, m);
        assert Scan(o, reports, active, Pick("", 0)) == Scan(p, reports, active, Pick("", 0));
      }
    }
    if forall d, e | Holds(reports, d, m) && Holds(reports, e, m) :: reports[d].issuedAt == reports[e].issuedAt {
      forall o, p | Enumerates(o, reports) && Enumerates(p, reports)
        ensures Scan(o, reports, active, Pick("", 0)) == Scan(p, reports, active, Pick("", 0))
      {
        ArbitrationIgnoresOrder(o, reports, active);
        ArbitrationIgnoresOrder(p, reports, active);
      }
    }
  }

  // ---------------------------------------------------------------- one step

  /** A meter-level breach is authoritative; device evidence counts only without one. */
  function Effective(s: State, now: int, order: seq<string>): Option<Found>
    requires forall d | d in order :: d in s.reports
  {
    if s.plan.Some? then Some(Found(s.plan.value, now)) else
    var p := Scan(order, s.reports, s.active, Pick("", 0));
    if p.mrid == "" then None
    else Some(Found(Breach(p.mrid, "device", 0.0, 0.0, 0.0, "device not converged (reconciler)"), p.issuedAt))
  }

  /** What a snapshot taken now holds. */
  function IdentityOf(s: State): Option<Identity> {
    if s.active == "" then None else Some(Identity(s.active, s.episode, s.counter))
  }

  function Save(s: State, now: int, saved: bool): State {
    if saved then s.(file := Some(Snapshot(SNAPSHOT_VERSION, now, IdentityOf(s)))) else s
  }

  function Emit(s: State, now: int, order: seq<string>, saved: bool): Step
    requires forall d | d in order :: d in s.reports
  {
    var found := Effective(s, now, order);
    if found.Some? && found.value.breach.mrid != s.active then
      var m := found.value.breach.mrid;
      var id := Episode(m, found.value.issuedAt, s.counter + 1);
      var begun := s.(counter := s.counter + 1, active := m, episode := id);
      Step(Save(begun, now, saved), [Begin(m, id, found.value.breach)])
    else if found.None? && s.active != "" then
      Step(Save(s.(active := "", episode := NoEpisode), now, saved), [End(s.active, s.episode)])
    else Step(s, [])
  }

  /** The evidence after an event; None for the events that are not assessed. */
  function Absorb(s: State, e: Event): Option<State> {
    match e
    case OnPlan(safety, breach, _, _, _) => if safety then None else Some(s.(plan := breach))
    case OnReport(kind, device, mrid, issuedAt, _, _, _) =>
      (match kind
       case NonConvergedBegin =>
         if mrid == "" then None else Some(s.(reports := s.reports[device := Evidence(mrid, true, issuedAt)]))
       case NonConvergedEnd =>
         var d := if device in s.reports then s.reports[device] else Evidence("", false, 0);
         Some(s.(reports := s.reports[device := d.(nonConverged := false)]))
       case OtherKind => None)
    case Resave(_, _) => None
  }

  ghost predicate Enabled(s: State, e: Event) {
    Absorb(s, e).Some? && !e.Resave? ==> Enumerates(e.order, Absorb(s, e).value.reports)
  }

  ghost function Next(s: State, e: Event): Step
    requires Enabled(s, e)
  {
    if e.Resave? then Step(if s.active == "" then s else Save(s, e.now, e.saved), [])
    else if Absorb(s, e).None? then Step(s, [])
    else Emit(Absorb(s, e).value, e.now, e.order, e.saved)
  }

  // ---------------------------------------------------------------- what alerts and snapshots say

  lemma {:induction false} ScanPicks(
    order: seq<string>, reports: map<string, Evidence>, active: string, best: Pick)
    requires forall d | d in order :: d in reports
    ensures var r := Scan(order, reports, active, best);
            r == best || exists d | d in order :: Holds(reports, d, r.mrid) && reports[d].issuedAt == r.issuedAt
    decreases |order|
  {
    if order != [] {
      var dr := reports[order[0]];
      if dr.nonConverged && dr.mrid != "" {
        assert Holds(reports, order[0], dr.mrid);
        if dr.mrid != active {
          ScanPicks(order[1..], reports, active, Pick(dr.mrid, dr.issuedAt));
        }
      }
      ScanPicks(order[1..], reports, active, best);
    }
  }

  /** A begun alert names the new episode and gives the plan's breach, figure for figure, or else a device that has
    * not converged to that control and reported it then. */
  lemma BeginSaysWhy(s: State, e: Event)
    requires Enabled(s, e)
    ensures var t := Next(s, e).state;
            forall a | a in Next(s, e).alerts && a.Begin? ::
              && a.mrid == t.active == a.breach.mrid && a.episode == t.episode
              && t.counter == s.counter + 1 && a.episode.Episode?
              && a.episode.mrid == a.mrid && a.episode.counter == t.counter
              && match t.plan
                 case Some(b) => a.breach == b && a.episode.issuedAt == e.now
                 case None =>
                   && a.breach == Breach(a.mrid, "device", 0.0, 0.0, 0.0, "device not converged (reconciler)")
                   && exists d :: Holds(t.reports, d, a.mrid) && t.reports[d].issuedAt == a.episode.issuedAt
  {
    if !e.Resave? && Absorb(s, e).Some? {
      var u := Absorb(s, e).value;
      ScanPicks(e.order, u.reports, u.active, Pick("", 0));
    }
  }

  /** While writes succeed the file is written anew at every edge, and on demand while an episode is open, with the
    * time and the identity of that moment; otherwise it stays as it was. */
  lemma SnapshotOnEveryEdge(s: State, e: Event)
    requires Enabled(s, e)
    ensures var t, alerts := Next(s, e).state, Next(s, e).alerts;
            if e.saved && (alerts != [] || (e.Resave? && s.active != ""))
            then
              && t.file.Some? && t.file.value.version == 1 && t.file.value.writtenAt == e.now
              && match t.file.value.active
                 case None => t.active == ""
                 case Some(id) =>
                   t.active != "" && id.mrid == t.active && id.episode == t.episode && id.counter == t.counter
            else t.file == s.file
  {
  }

  // ---------------------------------------------------------------- restart

  /** The configured limit in nanoseconds, 300 s without one. */
  function Limit(maxAgeS: int): int {
    if maxAgeS <= 0 then 300 * NANOS else Wrap64(maxAgeS * NANOS)
  }

  /** The restore gate: version, then an age that is neither negative nor beyond the limit, compared in
    * nanoseconds. */
  function Load(file: Option<Snapshot>, maxAgeS: int, now: int): Option<Snapshot> {
    if file.None? || file.value.version != SNAPSHOT_VERSION then None else
    var age := Wrap64(now - file.value.writtenAt);
    if age < 0 || Wrap64(age * NANOS) > Limit(maxAgeS) then None else file
  }

  function EffectiveLimit(maxAgeS: int): int { if maxAgeS <= 0 then 300 else maxAgeS }

  /** With age and limit up to 292 years the gate is the documented one. Beyond, an over-age snapshot is accepted
    * exactly when the remainder of its age in nanoseconds, read as a signed word, is within the limit as wrapped. */
  lemma LoadGate(snap: Snapshot, maxAgeS: int, now: int)
    ensures var age, limit := Wrap64(now - snap.writtenAt), Limit(maxAgeS);
            var accepted, current := Load(Some(snap), maxAgeS, now).Some?, snap.version == SNAPSHOT_VERSION;
            && (age <= SAFE_SECONDS ==> (accepted <==> current && 0 <= age && age * NANOS <= limit))
            && (age > SAFE_SECONDS ==>
                  (accepted <==>
                     && current
                     && var rest := age * NANOS % WORD;
                        rest <= limit || (rest >= HALF_WORD && rest - WORD <= limit)))
            && (maxAgeS <= SAFE_SECONDS ==> limit == EffectiveLimit(maxAgeS) * NANOS)
  {
    var age, seconds := Wrap64(now - snap.writtenAt), EffectiveLimit(maxAgeS);
    if seconds <= SAFE_SECONDS {
      assert seconds * NANOS % WORD == seconds * NANOS;
    }
    if 0 <= age <= SAFE_SECONDS {
      assert age * NANOS % WORD == age * NANOS;
    }
  }

  /** The first age past 292 years is accepted under every limit that does not wrap itself. */
  lemma AncientSnapshotPasses(active: Option<Identity>, maxAgeS: int, now: int)
    requires maxAgeS <= SAFE_SECONDS
    ensures Load(Some(Snapshot(SNAPSHOT_VERSION, now - (SAFE_SECONDS + 1), active)), maxAgeS, now).Some?
  {
    LoadGate(Snapshot(SNAPSHOT_VERSION, now - (SAFE_SECONDS + 1), active), maxAgeS, now);
    assert (SAFE_SECONDS + 1) * NANOS % WORD == (SAFE_SECONDS + 1) * NANOS;
  }

  /** A limit wraps in the same way: a snapshot written this second is accepted exactly when the product stays in
    * the lower half of the word, which a limit of 292 years and a second does not. */
  lemma LimitWraps(active: Option<Identity>, maxAgeS: int, now: int)
    ensures Load(Some(Snapshot(SNAPSHOT_VERSION, now, active)), maxAgeS, now).Some? <==>
              maxAgeS <= 0 || maxAgeS * NANOS % WORD < HALF_WORD
    ensures maxAgeS == SAFE_SECONDS + 1 ==> Load(Some(Snapshot(SNAPSHOT_VERSION, now, active)), maxAgeS, now).None?
  {
    assert Wrap64(0) == 0;
    if maxAgeS == SAFE_SECONDS + 1 {
      assert maxAgeS * NANOS % WORD == maxAgeS * NANOS;
    }
  }

  function Restore(s: State, id: Identity): State {
    if id.mrid == "" || id.episode.NoEpisode? then s
    else s.(active := id.mrid, episode := id.episode, counter := Max(id.counter, s.counter))
  }

  /** A new process: nothing but the snapshot file survives. */
  function Restart(s: State, maxAgeS: int, now: int): State {
    var blank := FRESH.(file := s.file);
    var snap := Load(s.file, maxAgeS, now);
    if snap.Some? && snap.value.active.Some? then Restore(blank, snap.value.active.value) else blank
  }

  // ---------------------------------------------------------------- the component

  class BreachEpisodes {
    var activeMRID: string
    var episodeID: Episode
    var counter: nat
    var planBreach: Option<Breach>
    var deviceReports: map<string, Evidence>
    var snapshotFile: Option<Snapshot>

    constructor ()
      ensures Value() == FRESH
    {
      activeMRID, episodeID, counter, planBreach, deviceReports := "", NoEpisode, 0, None, map[];
      snapshotFile := None;
    }

    function Value(): State
      reads this
    {
      State(activeMRID, episodeID, counter, planBreach, deviceReports, snapshotFile)
    }

    method RestoreIdentity(mrid: string, episode: Episode, count: nat)
      modifies this
      ensures Value() == Restore(old(Value()), Identity(mrid, episode, count))
      ensures counter == if mrid != "" && episode.Episode? then Max(count, old(counter)) else old(counter)
    {
      if mrid == "" || episode.NoEpisode? {
        return;
      }
      activeMRID, episodeID := mrid, episode;
      if count > counter {
        counter := count;
      }
    }

    method WriteSnapshot(now: int, saved: bool)
      modifies this`snapshotFile
      ensures Value() == Save(old(Value()), now, saved)
    {
      if saved {
        var active := None;
        if activeMRID != "" {
          active := Some(Identity(activeMRID, episodeID, counter));
        }
        snapshotFile := Some(Snapshot(SNAPSHOT_VERSION, now, active));
      }
    }

    method ResaveIfActive(now: int, saved: bool)
      modifies this
      ensures Value() == Next(old(Value()), Resave(now, saved)).state
    {
      if activeMRID != "" {
        WriteSnapshot(now, saved);
      }
    }

    /** The loop over the device map, in the order `order`, with its early exit. */
    method EffectiveBreach(now: int, order: seq<string>) returns (found: Option<Found>)
      requires forall d | d in order :: d in deviceReports
      ensures found == Effective(Value(), now, order)
    {
      if planBreach.Some? {
        return Some(Found(planBreach.value, now));
      }
      var best := Pick("", 0);
      var i := 0;
      while i < |order|
        invariant 0 <= i <= |order|
        invariant Scan(order[i..], deviceReports, activeMRID, best) ==
                  Scan(order, deviceReports, activeMRID, Pick("", 0))
      {
        var dr := deviceReports[order[i]];
        if dr.nonConverged && dr.mrid != "" {
          if dr.mrid == activeMRID {
            best := Pick(dr.mrid, dr.issuedAt);
            break;
          }
          if best.mrid == "" || Below(dr.mrid, best.mrid) {
            best := Pick(dr.mrid, dr.issuedAt);
          }
        }
        i := i + 1;
      }
      if best.mrid == "" {
        return None;
      }
      var breach := Breach(best.mrid, "device", 0.0, 0.0, 0.0, "device not converged (reconciler)");
      return Some(Found(breach, best.issuedAt));
    }

    method EmitEdge(now: int, order: seq<string>, saved: bool) returns (alerts: seq<Alert>)
      requires forall d | d in order :: d in deviceReports
      modifies this
      ensures Step(Value(), alerts) == Emit(old(Value()), now, order, saved)
    {
      var found := EffectiveBreach(now, order);
      if found.Some? && found.value.breach.mrid != activeMRID {
        counter := counter + 1;
        activeMRID := found.value.breach.mrid;
        episodeID := Episode(activeMRID, found.value.issuedAt, counter);
        WriteSnapshot(now, saved);
        return [Begin(activeMRID, episodeID, found.value.breach)];
      }
      if found.None? && activeMRID != "" {
        var ep, mrid := episodeID, activeMRID;
        activeMRID, episodeID := "", NoEpisode;
        WriteSnapshot(now, saved);
        return [End(mrid, ep)];
      }
      return [];
    }

    method PlanArrives(safety: bool, breach: Option<Breach>, now: int, order: seq<string>, saved: bool)
      returns (alerts: seq<Alert>)
      requires Enabled(Value(), OnPlan(safety, breach, now, order, saved))
      modifies this
      ensures Step(Value(), alerts) == Next(old(Value()), OnPlan(safety, breach, now, order, saved))
      ensures safety ==> alerts == [] && Value() == old(Value())
      // A breach of another control begins its episode, with all the plan says about it.
      ensures !safety && breach.Some? ==>
                alerts == if breach.value.mrid == old(activeMRID) then []
                          else
                            var m := breach.value.mrid;
                            [Begin(m, Episode(m, now, old(counter) + 1), breach.value)]
    {
      if safety {
        return [];
      }
      planBreach := breach;
      alerts := EmitEdge(now, order, saved);
    }

    method ReportArrives(
      kind: Kind, device: string, mrid: string, issuedAt: int, now: int, order: seq<string>, saved: bool)
      returns (alerts: seq<Alert>)
      requires Enabled(Value(), OnReport(kind, device, mrid, issuedAt, now, order, saved))
      modifies this
      ensures Step(Value(), alerts) == Next(old(Value()), OnReport(kind, device, mrid, issuedAt, now, order, saved))
    {
      match kind
      case NonConvergedBegin =>
        if mrid == "" {
          return [];
        }
        deviceReports := deviceReports[device := Evidence(mrid, true, issuedAt)];
        alerts := EmitEdge(now, order, saved);
      case NonConvergedEnd =>
        var d := if device in deviceReports then deviceReports[device] else Evidence("", false, 0);
        deviceReports := deviceReports[device := d.(nonConverged := false)];
        alerts := EmitEdge(now, order, saved);
      case OtherKind =>
        alerts := [];
    }
  }
}

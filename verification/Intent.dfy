/** The EV-goal half of the hub's intent adopter (cmd/hub/intent.go): evgoal, chargenow and the timer that
  * ends a chargenow, in any interleaving. */
module Intent {
  import opened Prelude

  datatype Goal = Goal(targetKwh: real, departure: int, initialKwh: real, capacityKwh: real)

  /** A timer once started; a stopped one may still run its function. */
  datatype Timer = Timer(gen: nat, goal: Goal, accelerated: int, stopped: bool, fired: bool)

  datatype EVGoalMsg = EVGoalMsg(target: Option<real>, capacity: Option<real>, initial: Option<real>, departure: int)

  datatype Outcome = Applied | Rejected | Expired | Duplicate

  /** The adopter with the timers of the runtime and the engine's current goal. */
  datatype State = State(
    engine: Option<Goal>, standing: Option<Goal>, gen: nat, revert: Option<nat>, timers: seq<Timer>,
    lastGoalId: string, lastChargeId: string)

  const START := State(None, None, 0, None, [], "", "")

  function JudgeGoal(msg: EVGoalMsg, now: int): Outcome {
    if msg.target.None? || msg.target.value < 0.0 then Rejected
    else if msg.capacity.Some? && msg.target.value > msg.capacity.value then Rejected
    else if msg.departure <= now then Expired
    else Applied
  }

  function GoalOf(msg: EVGoalMsg): Goal
    requires msg.target.Some?
  {
    Goal(msg.target.value, msg.departure,
         if msg.initial.Some? then msg.initial.value else -1.0,
         if msg.capacity.Some? then msg.capacity.value else 0.0)
  }

  function Stop(timers: seq<Timer>, k: Option<nat>): seq<Timer> {
    if k.Some? && k.value < |timers| then timers[k.value := timers[k.value].(stopped := true)] else timers
  }

  function ApplyGoal(s: State, msg: EVGoalMsg, now: int): State {
    if JudgeGoal(msg, now) != Applied then s else
    var g := Some(GoalOf(msg));
    s.(engine := g, standing := g, gen := s.gen + 1, revert := None, timers := Stop(s.timers, s.revert))
  }

  function JudgeCharge(s: State, issuedAt: int, ttlS: int, now: int): Outcome {
    if ttlS <= 0 then Rejected
    else if issuedAt + ttlS < now then Expired
    else if s.standing.None? then Rejected
    else Applied
  }

  /** The clock's second once the duration has passed; its nanoseconds wrap in 64 bits. */
  function After(now: int, ttlS: int): int {
    now + Wrap64(ttlS * NANOS) / NANOS
  }

  function ApplyCharge(s: State, issuedAt: int, ttlS: int, now: int): State {
    if JudgeCharge(s, issuedAt, ttlS, now) != Applied then s else
    var t := Timer(s.gen + 1, s.standing.value, After(now, ttlS), false, false);
    s.(engine := Some(s.standing.value.(departure := After(now, ttlS))), gen := s.gen + 1,
       revert := Some(|s.timers|), timers := Stop(s.timers, s.revert) + [t])
  }

  /** A request that passes the expiry check is honoured at the second it names exactly up to 292 years; any longer
    * one is cut short. */
  lemma LongRequestIsCutShort(s: State, issuedAt: int, ttlS: int, now: int)
    requires JudgeCharge(s, issuedAt, ttlS, now) == Applied
    ensures var t := ApplyCharge(s, issuedAt, ttlS, now);
            && t.engine.Some? && t.engine.value.departure <= now + ttlS
            && (t.engine.value.departure == now + ttlS <==> ttlS <= SAFE_SECONDS)
  {
    var x := ttlS * NANOS;
    if ttlS <= SAFE_SECONDS {
      assert x % WORD == x;
    } else {
      assert x == WORD * (x / WORD) + x % WORD;
      assert x / WORD >= 1 || x % WORD >= HALF_WORD;
      assert Wrap64(x) <= x - WORD;
    }
  }

  /** Timer `k` runs its function. */
  function Fire(s: State, k: nat): State
    requires k < |s.timers|
  {
    var s' := s.(timers := s.timers[k := s.timers[k].(fired := true)]);
    if s.timers[k].gen != s.gen then s'
    else s'.(revert := None, engine := Some(s.timers[k].goal))
  }

  class IntentAdopter {
    var engineGoal: Option<Goal>
    var standingEVGoal: Option<Goal>
    var chargeNowGen: nat
    var chargeNowRevert: Option<nat>
    var lastID: map<string, string>
    var timers: seq<Timer>

    constructor ()
      ensures Value() == START
    {
      engineGoal, standingEVGoal, chargeNowGen, chargeNowRevert := None, None, 0, None;
      timers, lastID := [], map[];
    }

    function LastID(kind: string): string
      reads this
    {
      if kind in lastID then lastID[kind] else ""
    }

    function Value(): State
      reads this
    {
      State(engineGoal, standingEVGoal, chargeNowGen, chargeNowRevert, timers, LastID("evgoal"), LastID("chargenow"))
    }

    method ApplyEVGoal(msg: EVGoalMsg, now: int) returns (r: Outcome)
      modifies this
      ensures r == JudgeGoal(msg, now) && Value() == ApplyGoal(old(Value()), msg, now)
      ensures lastID == old(lastID)
      // Accepted with a target from zero up to the capacity, if one is given, and a departure still to come.
      ensures r == Applied <==>
                && msg.target.Some? && msg.target.value >= 0.0
                && (msg.capacity.Some? ==> msg.target.value <= msg.capacity.value) && msg.departure > now
      ensures r == Expired <==>
                && msg.target.Some? && msg.target.value >= 0.0
                && (msg.capacity.Some? ==> msg.target.value <= msg.capacity.value) && msg.departure <= now
      ensures r in {Applied, Expired, Rejected} && (r != Applied ==> Value() == old(Value()))
      // Engine and standing goal become the message's own; the running timer is stopped and its generation over.
      ensures r == Applied ==>
                && standingEVGoal.Some? && engineGoal == standingEVGoal
                && standingEVGoal.value.targetKwh == msg.target.value
                && standingEVGoal.value.departure == msg.departure
                && standingEVGoal.value.initialKwh == (if msg.initial.Some? then msg.initial.value else -1.0)
                && standingEVGoal.value.capacityKwh == (if msg.capacity.Some? then msg.capacity.value else 0.0)
                && chargeNowGen == old(chargeNowGen) + 1 && chargeNowRevert == None
                && |timers| == |old(timers)|
                && forall k | 0 <= k < |timers| ::
                     timers[k] == if old(chargeNowRevert) == Some(k) then old(timers)[k].(stopped := true)
                                  else old(timers)[k]
    {
      if msg.target.None? {
        return Rejected;
      }
      if msg.target.value < 0.0 {
        return Rejected;
      }
      if msg.capacity.Some? && msg.target.value > msg.capacity.value {
        return Rejected;
      }
      if msg.departure <= now {
        return Expired;
      }
      var goal := GoalOf(msg);
      engineGoal := Some(goal);
      standingEVGoal := Some(goal);
      chargeNowGen := chargeNowGen + 1;
      if chargeNowRevert.Some? {
        timers := Stop(timers, chargeNowRevert);
        chargeNowRevert := None;
      }
      return Applied;
    }

    method ApplyChargeNow(issuedAt: int, ttlS: int, now: int) returns (r: Outcome)
      modifies this
      ensures r == JudgeCharge(old(Value()), issuedAt, ttlS, now)
      ensures Value() == ApplyCharge(old(Value()), issuedAt, ttlS, now)
      ensures lastID == old(lastID)
      ensures r == Applied <==> ttlS > 0 && issuedAt + ttlS >= now && old(standingEVGoal).Some?
      ensures r == Expired <==> ttlS > 0 && issuedAt + ttlS < now
      ensures r in {Applied, Expired, Rejected} && (r != Applied ==> Value() == old(Value()))
      // The engine leaves as soon as the request runs out; a new timer holds the standing goal, the old one stops.
      ensures r == Applied ==>
                && standingEVGoal == old(standingEVGoal) && chargeNowGen == old(chargeNowGen) + 1
                && engineGoal == Some(standingEVGoal.value.(departure := After(now, ttlS)))
                && chargeNowRevert == Some(|old(timers)|) && |timers| == |old(timers)| + 1
                && timers[|old(timers)|].gen == chargeNowGen && timers[|old(timers)|].goal == standingEVGoal.value
                && !timers[|old(timers)|].stopped && !timers[|old(timers)|].fired
                && forall k | 0 <= k < |old(timers)| ::
                     timers[k] == if old(chargeNowRevert) == Some(k) then old(timers)[k].(stopped := true)
                                  else old(timers)[k]
    {
      if ttlS <= 0 {
        return Rejected;
      }
      if issuedAt + ttlS < now {
        return Expired;
      }
      if standingEVGoal.None? {
        return Rejected;
      }
      var accelerated := standingEVGoal.value.(departure := After(now, ttlS));
      engineGoal := Some(accelerated);
      chargeNowGen := chargeNowGen + 1;
      if chargeNowRevert.Some? {
        timers := Stop(timers, chargeNowRevert);
      }
      chargeNowRevert := Some(|timers|);
      timers := timers + [Timer(chargeNowGen, standingEVGoal.value, After(now, ttlS), false, false)];
      return Applied;
    }

    method RevertChargeNow(k: nat)
      requires k < |timers|
      modifies this
      ensures Value() == Fire(old(Value()), k)
      ensures standingEVGoal == old(standingEVGoal) && chargeNowGen == old(chargeNowGen)
      ensures if old(timers)[k].gen == chargeNowGen
              then engineGoal == Some(old(timers)[k].goal) && chargeNowRevert == None
              else engineGoal == old(engineGoal) && chargeNowRevert == old(chargeNowRevert)
    {
      var t := timers[k];
      timers := timers[k := t.(fired := true)];
      if t.gen != chargeNowGen {
        return;
      }
      chargeNowRevert := None;
      engineGoal := Some(t.goal);
    }

    method AdoptEVGoal(id: string, msg: EVGoalMsg, now: int) returns (r: Outcome)
      modifies this
      ensures Value() == Next(old(Value()), AdoptGoal(id, msg, now))
      ensures r == if id != "" && old(LastID("evgoal")) == id then Duplicate else JudgeGoal(msg, now)
      ensures if r == Duplicate then Value() == old(Value()) else LastID("evgoal") == id
    {
      if id != "" && LastID("evgoal") == id {
        return Duplicate;
      }
      r := ApplyEVGoal(msg, now);
      lastID := lastID["evgoal" := id];
    }

    method AdoptChargeNow(id: string, issuedAt: int, ttlS: int, now: int) returns (r: Outcome)
      modifies this
      ensures Value() == Next(old(Value()), AdoptCharge(id, issuedAt, ttlS, now))
      ensures r == if id != "" && old(LastID("chargenow")) == id then Duplicate
                   else JudgeCharge(old(Value()), issuedAt, ttlS, now)
      ensures if r == Duplicate then Value() == old(Value()) else LastID("chargenow") == id
    {
      if id != "" && LastID("chargenow") == id {
        return Duplicate;
      }
      r := ApplyChargeNow(issuedAt, ttlS, now);
      lastID := lastID["chargenow" := id];
    }
  }

  // ---------------------------------------------------------------- runs

  datatype Event =
    | AdoptGoal(id: string, msg: EVGoalMsg, now: int)
    | AdoptCharge(cid: string, issuedAt: int, ttlS: int, at: int)
    | TimerRuns(k: nat) // any timer ever started that has not run yet, stopped or not

  predicate Enabled(s: State, e: Event) {
    e.TimerRuns? ==> e.k < |s.timers| && !s.timers[e.k].fired
  }

  function Next(s: State, e: Event): State
    requires Enabled(s, e)
  {
    match e
    case AdoptGoal(id, msg, now) =>
      if id != "" && s.lastGoalId == id then s else ApplyGoal(s, msg, now).(lastGoalId := id)
    case AdoptCharge(id, issuedAt, ttlS, now) =>
      if id != "" && s.lastChargeId == id then s else ApplyCharge(s, issuedAt, ttlS, now).(lastChargeId := id)
    case TimerRuns(k) => Fire(s, k)
  }

  /** `es` is a run from `s` that ends in `t`. */
  predicate Runs(s: State, es: seq<Event>, t: State)
    decreases |es|
  {
    if es == [] then s == t else Enabled(s, es[0]) && Runs(Next(s, es[0]), es[1..], t)
  }

  /** The engine has the standing goal, or an accelerated copy of it whose timer is pending, carries the
    * standing goal and is of the current generation. */
  predicate Guarded(s: State) {
    && (s.revert.None? ==> s.engine == s.standing)
    && (s.revert.Some? ==>
          && s.revert.value < |s.timers| && s.standing.Some?
          && var t := s.timers[s.revert.value];
          && !t.fired && !t.stopped && t.gen == s.gen
          && t.goal == s.standing.value
          && s.engine == Some(s.standing.value.(departure := t.accelerated)))
  }

  /** Every timer but the pending one is of an earlier generation, or has run. */
  predicate Superseded(s: State) {
    forall k | 0 <= k < |s.timers| && s.revert != Some(k) :: s.timers[k].gen < s.gen || s.timers[k].fired
  }

  predicate Bounded(s: State) {
    forall k | 0 <= k < |s.timers| :: s.timers[k].gen <= s.gen
  }

  lemma GuardKept(s: State, e: Event)
    requires Guarded(s) && Superseded(s) && Bounded(s) && Enabled(s, e)
    ensures Guarded(Next(s, e)) && Superseded(Next(s, e)) && Bounded(Next(s, e))
  {
  }

  /** Over every interleaving of goals, chargenows and timers, late ones included. */
  lemma {:induction false} GenerationGuard(s: State, es: seq<Event>, t: State)
    requires Guarded(s) && Superseded(s) && Bounded(s) && Runs(s, es, t)
    ensures Guarded(t) && Superseded(t) && Bounded(t)
    decreases |es|
  {
    if es != [] {
      GuardKept(s, es[0]);
      GenerationGuard(Next(s, es[0]), es[1..], t);
    }
  }

  /** In every reachable state: a superseded timer changes nothing, and the pending one restores exactly
    * the standing goal. */
  lemma TimersInReachableStates(es: seq<Event>, t: State, k: nat)
    requires Runs(START, es, t) && Enabled(t, TimerRuns(k))
    ensures var u := Fire(t, k);
            && u.standing == t.standing && u.gen == t.gen
            && (t.revert != Some(k) ==> u.engine == t.engine && u.revert == t.revert)
            && (t.revert == Some(k) ==> u.engine == t.standing && u.revert == None && t.standing.Some?)
    ensures Guarded(t)
  {
    GenerationGuard(START, es, t);
  }
}

/** The publisher with its broker: from any reachable state, however wrong the belief, a stable intent gets
  * onto the broker and stays fresh.
  *
  * The broker retains the last document that reaches it (MQTT 3.1.1 section 3.3.1.3). The network may
  * deliver a fired document late, again or never, whatever the publisher concluded about it; section 4.6
  * of MQTT 3.1.1 is the assumption that a document never reaches the broker after a newer one. */
module SelfHealing {
  import opened Prelude
  import opened Publisher

  datatype World<C> = World(pub: State<C>, retained: Option<nat>)

  datatype Event<C> =
    | Evaluate(content: C, now: int, entry: Verdict, exit: Verdict)
    | Reach(k: nat, now: int)

  function Next<C(==)>(w: World<C>, e: Event<C>): World<C> {
    match e
    case Evaluate(content, now, entry, exit) => w.(pub := Apply(w.pub, content, now, entry, exit))
    case Reach(k, _) => w.(retained := Some(k))
  }

  function Final<C(==)>(w: World<C>, es: seq<Event<C>>): World<C> {
    if es == [] then w else Next(Final(w, es[..|es| - 1]), es[|es| - 1])
  }

  /** Documents from index `n0` on are those fired since the intent became stable. */
  predicate Orderly<C>(w: World<C>, e: Event<C>, n0: nat) {
    e.Reach? ==> e.k < |w.pub.fired| && (w.retained.Some? && w.retained.value >= n0 ==> e.k >= w.retained.value)
  }

  /** A stretch of a run from time t0 during which every evaluation carries `intent`. */
  predicate Stable<C(==)>(w: World<C>, es: seq<Event<C>>, intent: C, t0: int, n0: nat) {
    es == [] ||
    (var front, e := es[..|es| - 1], es[|es| - 1];
     && Stable(w, front, intent, t0, n0)
     && e.now >= (if front == [] then t0 else front[|front| - 1].now)
     && (e.Evaluate? ==> e.content == intent)
     && Orderly(Final(w, front), e, n0))
  }

  function Clock<C>(es: seq<Event<C>>, t0: int): int {
    if es == [] then t0 else es[|es| - 1].now
  }

  // ---------------------------------------------------------------- invariant of a stable stretch

  /** Issue times up to index `n0` are at most t0; later documents carry the intent, in time order. */
  ghost predicate Issued<C>(s: State<C>, intent: C, t0: int, n0: nat, now: int) {
    && n0 <= |s.fired|
    && (forall k | 0 <= k < n0 :: s.fired[k].issuedAt <= t0)
    && (forall k | n0 <= k < |s.fired| :: s.fired[k].content == intent && t0 <= s.fired[k].issuedAt <= now)
    && forall j, k | n0 <= j <= k < |s.fired| :: s.fired[j].issuedAt <= s.fired[k].issuedAt
  }

  /** An evaluation at `a` is within one heartbeat of the start of the stretch or of a document fired in it. */
  ghost predicate Covered<C>(s: State<C>, a: int, t0: int, n0: nat) {
    a - t0 < HEARTBEAT || exists k | n0 <= k < |s.fired| :: a - HEARTBEAT < s.fired[k].issuedAt <= a
  }

  ghost predicate Evaluated<C>(es: seq<Event<C>>, a: int) {
    exists k | 0 <= k < |es| :: es[k].Evaluate? && es[k].now == a
  }

  lemma EvaluationCovers<C>(s: State<C>, e: Event<C>, t0: int, n0: nat, before: int)
    requires Inv(s) && e.Evaluate? && Issued(s, e.content, t0, n0, before) && t0 <= before <= e.now
    ensures var t := Next(World(s, None), e).pub;
            && Inv(t) && Issued(t, e.content, t0, n0, e.now) && Covered(t, e.now, t0, n0) && s.fired <= t.fired
  {
    ApplyKeepsInv(s, e.content, e.now, e.entry, e.exit);
    HarvestKeepsInv(s, e.entry);
    var h := Harvest(s, e.entry);
    var t := Apply(s, e.content, e.now, e.entry, e.exit);
    if Fires(Believed(h), e.content, e.now) {
      FireKeepsInv(h, e.content, e.now);
      HarvestKeepsInv(Fire(h, e.content, e.now), e.exit);
      assert t.fired == s.fired + [Doc(e.content, e.now, h.seqNo)];
      assert t.fired[|s.fired|].issuedAt == e.now;
    } else {
      var d := Believed(h).value;
      assert e.now - d.issuedAt < HEARTBEAT && d == s.fired[h.belief.value];
    }
  }

  /** Firing more documents keeps every earlier evaluation covered. */
  lemma CoverageGrows<C>(es: seq<Event<C>>, s: State<C>, t: State<C>, t0: int, n0: nat)
    requires es != [] && s.fired <= t.fired
    requires forall a | Evaluated(es[..|es| - 1], a) :: Covered(s, a, t0, n0)
    requires es[|es| - 1].Evaluate? ==> Covered(t, es[|es| - 1].now, t0, n0)
    ensures forall a | Evaluated(es, a) :: Covered(t, a, t0, n0)
  {
    var front := es[..|es| - 1];
    forall a | Evaluated(es, a)
      ensures Covered(t, a, t0, n0)
    {
      var k :| 0 <= k < |es| && es[k].Evaluate? && es[k].now == a;
      if k < |front| {
        assert front[k] == es[k];
        assert Covered(s, a, t0, n0);
        if a - t0 >= HEARTBEAT {
          var j :| n0 <= j < |s.fired| && a - HEARTBEAT < s.fired[j].issuedAt <= a;
          assert t.fired[j] == s.fired[j];
        }
      }
    }
  }

  lemma {:induction false} StableInvariant<C>(w: World<C>, es: seq<Event<C>>, intent: C, t0: int, n0: nat)
    requires Inv(w.pub) && n0 == |w.pub.fired| && Issued(w.pub, intent, t0, n0, t0)
    requires Stable(w, es, intent, t0, n0)
    ensures var f := Final(w, es);
            && Clock(es, t0) >= t0
            && Inv(f.pub) && Issued(f.pub, intent, t0, n0, Clock(es, t0)) && w.pub.fired <= f.pub.fired
            && forall a | Evaluated(es, a) :: Covered(f.pub, a, t0, n0)
    decreases |es|
  {
    if es != [] {
      var front, e := es[..|es| - 1], es[|es| - 1];
      StableInvariant(w, front, intent, t0, n0);
      var g, f := Final(w, front), Final(w, es);
      if e.Evaluate? {
        EvaluationCovers(g.pub, e, t0, n0, Clock(front, t0));
        assert f.pub == Next(World(g.pub, None), e).pub;
      }
      CoverageGrows(es, g.pub, f.pub, t0, n0);
    }
  }

  // ---------------------------------------------------------------- delivery

  /** Every document fired in the stretch at least `latency` seconds ago has reached the broker. */
  ghost predicate Delivered<C>(f: World<C>, es: seq<Event<C>>, n0: nat, latency: nat, now: int) {
    forall k | n0 <= k < |f.pub.fired| && f.pub.fired[k].issuedAt + latency <= now :: Reached(es, k)
  }

  ghost predicate Reached<C>(es: seq<Event<C>>, k: nat) {
    exists i | 0 <= i < |es| :: es[i].Reach? && es[i].k == k
  }

  lemma {:induction false} ReachedStays<C>(w: World<C>, es: seq<Event<C>>, intent: C, t0: int, n0: nat, k: nat)
    requires Stable(w, es, intent, t0, n0) && Reached(es, k) && k >= n0
    ensures Final(w, es).retained.Some? && Final(w, es).retained.value >= k
    decreases |es|
  {
    var front, e := es[..|es| - 1], es[|es| - 1];
    if e.Reach? && e.k == k {
    } else {
      var i :| 0 <= i < |es| && es[i].Reach? && es[i].k == k;
      assert front[i] == es[i];
      ReachedStays(w, front, intent, t0, n0, k);
    }
  }

  lemma {:induction false} RetainedWasFired<C>(w: World<C>, es: seq<Event<C>>, intent: C, t0: int, n0: nat)
    requires Inv(w.pub) && Stable(w, es, intent, t0, n0) && (w.retained.Some? ==> w.retained.value < |w.pub.fired|)
    ensures var f := Final(w, es); Inv(f.pub) && (f.retained.Some? ==> f.retained.value < |f.pub.fired|)
    decreases |es|
  {
    if es != [] {
      var front, e := es[..|es| - 1], es[|es| - 1];
      RetainedWasFired(w, front, intent, t0, n0);
      var g := Final(w, front);
      if e.Evaluate? {
        ApplyKeepsInv(g.pub, e.content, e.now, e.entry, e.exit);
        HarvestKeepsInv(g.pub, e.entry);
        var h := Harvest(g.pub, e.entry);
        if Fires(Believed(h), e.content, e.now) {
          FireKeepsInv(h, e.content, e.now);
          HarvestKeepsInv(Fire(h, e.content, e.now), e.exit);
        }
      }
    }
  }

  /** From any reachable state at t0: once the intent is stable, evaluations are at most `gap` apart and new
    * documents take at most `latency`, then from t0 + heartbeat + gap + latency on the broker retains the
    * intent, and the retained document is never older than heartbeat + gap + latency. */
  lemma StableIntentIsRetained<C>(
    w: World<C>, es: seq<Event<C>>, intent: C, t0: int, now: int, gap: nat, latency: nat)
    requires var n0 := |w.pub.fired|;
             && Inv(w.pub) && (forall k | 0 <= k < n0 :: w.pub.fired[k].issuedAt <= t0)
             && (w.retained.Some? ==> w.retained.value < n0)
             && Stable(w, es, intent, t0, n0)
             && Delivered(Final(w, es), es, n0, latency, now)
    requires exists a :: Evaluated(es, a) && now - latency - gap <= a <= now - latency
    requires now >= t0 + HEARTBEAT + gap + latency
    ensures var f := Final(w, es);
            && f.retained.Some? && f.retained.value < |f.pub.fired|
            && f.pub.fired[f.retained.value].content == intent
            && now - f.pub.fired[f.retained.value].issuedAt < HEARTBEAT + gap + latency
  {
    var n0 := |w.pub.fired|;
    var f := Final(w, es);
    StableInvariant(w, es, intent, t0, n0);
    RetainedWasFired(w, es, intent, t0, n0);
    var a :| Evaluated(es, a) && now - latency - gap <= a <= now - latency;
    assert Covered(f.pub, a, t0, n0);
    var k :| n0 <= k < |f.pub.fired| && a - HEARTBEAT < f.pub.fired[k].issuedAt <= a;
    ReachedStays(w, es, intent, t0, n0, k);
    assert f.pub.fired[k].issuedAt <= f.pub.fired[f.retained.value].issuedAt;
  }

  /** Hence a restarting consumer never finds it stale, as long as gap and latency together stay within one
    * heartbeat. */
  lemma RetainedIsNeverStale<C>(
    w: World<C>, es: seq<Event<C>>, intent: C, t0: int, now: int, gap: nat, latency: nat)
    requires gap + latency <= STALE_AFTER - HEARTBEAT
    requires var n0 := |w.pub.fired|;
             && Inv(w.pub) && (forall k | 0 <= k < n0 :: w.pub.fired[k].issuedAt <= t0)
             && (w.retained.Some? ==> w.retained.value < n0)
             && Stable(w, es, intent, t0, n0)
             && Delivered(Final(w, es), es, n0, latency, now)
    requires exists a :: Evaluated(es, a) && now - latency - gap <= a <= now - latency
    requires now >= t0 + HEARTBEAT + gap + latency
    ensures var f := Final(w, es);
            && f.retained.Some? && f.retained.value < |f.pub.fired|
            && now - f.pub.fired[f.retained.value].issuedAt < STALE_AFTER
  {
    StableIntentIsRetained(w, es, intent, t0, now, gap, latency);
  }

  // ---------------------------------------------------------------- a changed intent

  ghost predicate Differs<C>(d: Option<Doc<C>>, intent: C) {
    d.None? || d.value.content != intent
  }

  lemma DifferenceFires<C>(s: State<C>, intent: C, now: int, entry: Verdict, exit: Verdict)
    requires Differs(Believed(Harvest(s, entry)), intent)
    ensures var t := Apply(s, intent, now, entry, exit);
            |t.fired| == |s.fired| + 1 && t.fired[|s.fired|].issuedAt == now
  {
  }

  lemma FiringGrows<C>(w: World<C>, e: Event<C>)
    ensures w.pub.fired <= Next(w, e).pub.fired
  {
  }

  /** No evaluation yet, or a first one that fired at once. */
  ghost predicate FiredFirst<C>(w: World<C>, f: World<C>, es: seq<Event<C>>, n0: nat) {
    if forall k | 0 <= k < |es| :: !es[k].Evaluate? then f.pub == w.pub
    else |f.pub.fired| > n0 && forall a | Evaluated(es, a) :: f.pub.fired[n0].issuedAt <= a
  }

  lemma LaterEvaluations<C>(w: World<C>, g: World<C>, f: World<C>, es: seq<Event<C>>, n0: nat)
    requires es != [] && FiredFirst(w, g, es[..|es| - 1], n0) && g.pub.fired <= f.pub.fired
    requires |g.pub.fired| > n0 && g.pub.fired[n0].issuedAt <= es[|es| - 1].now
    requires exists k | 0 <= k < |es| - 1 :: es[k].Evaluate?
    ensures FiredFirst(w, f, es, n0)
  {
    var front := es[..|es| - 1];
    var j :| 0 <= j < |es| - 1 && es[j].Evaluate?;
    assert front[j].Evaluate?;
    forall a | Evaluated(es, a)
      ensures f.pub.fired[n0].issuedAt <= a
    {
      var k :| 0 <= k < |es| && es[k].Evaluate? && es[k].now == a;
      if k < |front| {
        assert front[k] == es[k];
        assert Evaluated(front, a);
      }
    }
  }

  /** The first evaluation of a changed intent fires it at once. */
  lemma {:induction false} FirstEvaluationFires<C>(
    w: World<C>, es: seq<Event<C>>, intent: C, t0: int, n0: nat)
    requires Inv(w.pub) && n0 == |w.pub.fired| && Issued(w.pub, intent, t0, n0, t0) && Stable(w, es, intent, t0, n0)
    requires forall k | 0 <= k < |es| && es[k].Evaluate? :: Differs(Believed(Harvest(w.pub, es[k].entry)), intent)
    ensures FiredFirst(w, Final(w, es), es, n0)
    decreases |es|
  {
    if es != [] {
      var front, e := es[..|es| - 1], es[|es| - 1];
      assert forall k | 0 <= k < |front| :: front[k] == es[k];
      FirstEvaluationFires(w, front, intent, t0, n0);
      StableInvariant(w, front, intent, t0, n0);
      if k :| 0 <= k < |es| - 1 && es[k].Evaluate? {
        assert front[k].Evaluate? && Evaluated(front, front[k].now);
        FiringGrows(Final(w, front), e);
        LaterEvaluations(w, Final(w, front), Final(w, es), es, n0);
      } else if e.Evaluate? {
        DifferenceFires(w.pub, intent, e.now, e.entry, e.exit);
      }
    }
  }

  /** An intent that differs from what the publisher believes, and would still after a rollback, is on the broker
    * within one evaluation gap and the latency, whatever is rolled back later. */
  lemma ChangedIntentIsRetained<C>(
    w: World<C>, es: seq<Event<C>>, intent: C, t0: int, now: int, gap: nat, latency: nat)
    requires var n0 := |w.pub.fired|;
             && Inv(w.pub) && (forall k | 0 <= k < n0 :: w.pub.fired[k].issuedAt <= t0)
             && (w.retained.Some? ==> w.retained.value < n0)
             && Stable(w, es, intent, t0, n0)
             && Delivered(Final(w, es), es, n0, latency, now)
    requires forall k | 0 <= k < |es| && es[k].Evaluate? :: Differs(Believed(Harvest(w.pub, es[k].entry)), intent)
    requires exists a :: Evaluated(es, a) && a <= t0 + gap
    requires now >= t0 + gap + latency
    ensures var f := Final(w, es);
            && f.retained.Some? && f.retained.value < |f.pub.fired|
            && f.pub.fired[f.retained.value].content == intent
  {
    var n0 := |w.pub.fired|;
    StableInvariant(w, es, intent, t0, n0);
    RetainedWasFired(w, es, intent, t0, n0);
    FirstEvaluationFires(w, es, intent, t0, n0);
    ReachedStays(w, es, intent, t0, n0, n0);
  }

  /** In particular when nothing is rolled back and the believed content is another. */
  lemma ChangedIntentIsRetainedSmoothly<C>(
    w: World<C>, es: seq<Event<C>>, intent: C, t0: int, now: int, gap: nat, latency: nat)
    requires var n0 := |w.pub.fired|;
             && Inv(w.pub) && (forall k | 0 <= k < n0 :: w.pub.fired[k].issuedAt <= t0)
             && (w.retained.Some? ==> w.retained.value < n0)
             && Stable(w, es, intent, t0, n0)
             && Delivered(Final(w, es), es, n0, latency, now)
    requires Differs(Believed(w.pub), intent)
    requires forall k | 0 <= k < |es| && es[k].Evaluate? :: es[k].entry in {InFlight, Acked}
    requires exists a :: Evaluated(es, a) && a <= t0 + gap
    requires now >= t0 + gap + latency
    ensures var f := Final(w, es);
            && f.retained.Some? && f.retained.value < |f.pub.fired|
            && f.pub.fired[f.retained.value].content == intent
  {
    ChangedIntentIsRetained(w, es, intent, t0, now, gap, latency);
  }
}

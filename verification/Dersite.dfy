/** The site report publisher (cmd/hub/dersite.go): the same optimistic update, but never a publish over an
  * unresolved one. Content is compared by its hash. */
module Dersite {
  import opened Prelude
  import opened Publisher

  const MIN_REPUBLISH := 60
  const HEARTBEAT_S := 300

  datatype Report = Report(hash: string, at: int)

  /** What the publisher believes to be on the broker. */
  datatype Site = Site(
    lastHash: string, lastAt: Option<int>, prevHash: string, prevAt: Option<int>, pending: Option<nat>,
    // History: everything fired, and the indices acknowledged, in order.
    fired: seq<Report>, acked: seq<nat>)

  const START := Site("", None, "", None, None, [], [])

  function HarvestSite(s: Site, v: Verdict): Site {
    if s.pending.None? || v.InFlight? then s
    else if v.Acked? then s.(pending := None, acked := s.acked + [s.pending.value])
    else s.(lastHash := s.prevHash, lastAt := s.prevAt, pending := None)
  }

  predicate IsDue(s: Site, hash: string, now: int) {
    s.lastAt.None? || now - s.lastAt.value >= if hash != s.lastHash then MIN_REPUBLISH else HEARTBEAT_S
  }

  function FireSite(s: Site, hash: string, now: int): Site {
    s.(prevHash := s.lastHash, prevAt := s.lastAt, lastHash := hash, lastAt := Some(now),
       pending := Some(|s.fired|), fired := s.fired + [Report(hash, now)])
  }

  function PublishIfDue(s: Site, hash: string, now: int, entry: Verdict, exit: Verdict): Site {
    var h := HarvestSite(s, entry);
    if h.pending.Some? || !IsDue(h, hash, now) then h else HarvestSite(FireSite(h, hash, now), exit)
  }

  /** Nothing is in flight and the believed report is missing, 60 s old with another hash, or 300 s old. */
  predicate Owes(b: Site, hash: string, now: int) {
    && b.pending.None?
    && (|| b.lastAt.None?
        || (b.lastHash != hash && now - b.lastAt.value >= 60)
        || now - b.lastAt.value >= 300)
  }

  /** A tick fires exactly one report, its own, when that is so; otherwise none. */
  lemma PublishFires(s: Site, hash: string, now: int, entry: Verdict, exit: Verdict)
    ensures PublishIfDue(s, hash, now, entry, exit).fired ==
            s.fired + if Owes(HarvestSite(s, entry), hash, now) then [Report(hash, now)] else []
  {
  }

  class DersiteAggregator {
    var lastFullHash: string
    var lastPublishAt: Option<int>
    var prevFullHash: string
    var prevPublishAt: Option<int>
    var pending: bool
    ghost var h: Site

    ghost predicate Valid()
      reads this
    {
      && lastFullHash == h.lastHash && lastPublishAt == h.lastAt
      && prevFullHash == h.prevHash && prevPublishAt == h.prevAt
      && pending == h.pending.Some?
    }

    constructor ()
      ensures Valid() && h == START
    {
      lastFullHash, lastPublishAt, prevFullHash, prevPublishAt, pending := "", None, "", None, false;
      h := START;
    }

    method HarvestLocked(v: Verdict) returns (rolledBack: bool)
      requires Valid()
      modifies this
      ensures Valid() && h == HarvestSite(old(h), v)
      ensures rolledBack <==> old(pending) && v in {Failed, TimedOut}
      ensures pending <==> old(pending) && v.InFlight?
      ensures (lastFullHash, lastPublishAt) ==
              if rolledBack then old((prevFullHash, prevPublishAt)) else old((lastFullHash, lastPublishAt))
    {
      if !pending || v.InFlight? {
        return false;
      }
      h := HarvestSite(h, v);
      pending := false;
      if v.Acked? {
        return false;
      }
      lastFullHash, lastPublishAt := prevFullHash, prevPublishAt;
      return true;
    }

    method PublishWhenDue(hash: string, now: int, entry: Verdict, exit: Verdict)
      requires Valid()
      modifies this
      ensures Valid() && h == PublishIfDue(old(h), hash, now, entry, exit)
      ensures h.fired ==
              old(h).fired + if Owes(HarvestSite(old(h), entry), hash, now) then [Report(hash, now)] else []
    {
      PublishFires(h, hash, now, entry, exit);
      var rolledBack := HarvestLocked(entry);
      if pending {
        return;
      }
      if lastPublishAt.Some? {
        var age := now - lastPublishAt.value;
        if hash != lastFullHash {
          if age < MIN_REPUBLISH {
            return;
          }
        } else if age < HEARTBEAT_S {
          return;
        }
      }
      h := FireSite(h, hash, now);
      prevFullHash, prevPublishAt := lastFullHash, lastPublishAt;
      lastFullHash, lastPublishAt := hash, Some(now);
      pending := true;
      rolledBack := HarvestLocked(exit);
    }
  }

  // ---------------------------------------------------------------- runs

  datatype Tick = Tick(hash: string, now: int, entry: Verdict, exit: Verdict)

  function Run(s: Site, ticks: seq<Tick>): Site
    decreases |ticks|
  {
    if ticks == [] then s
    else Run(PublishIfDue(s, ticks[0].hash, ticks[0].now, ticks[0].entry, ticks[0].exit), ticks[1..])
  }

  /** Hash and time are those of the latest acknowledged report, or nothing if there is none. */
  predicate ShowsLastAck(s: Site, hash: string, at: Option<int>) {
    if s.acked == [] then hash == "" && at.None?
    else s.acked[|s.acked| - 1] < |s.fired| &&
         hash == s.fired[s.acked[|s.acked| - 1]].hash && at == Some(s.fired[s.acked[|s.acked| - 1]].at)
  }

  /** Two reports in a row are 60 s apart, and 300 s when the second repeats the first. */
  predicate Apart(a: Report, b: Report) {
    b.at - a.at >= if a.hash == b.hash then 300 else 60
  }

  predicate Spaced(s: Site) {
    && (forall k | 0 <= k < |s.acked| :: s.acked[k] < |s.fired|)
    && forall k | 0 <= k < |s.acked| - 1 :: Apart(s.fired[s.acked[k]], s.fired[s.acked[k + 1]])
  }

  predicate Inv(s: Site) {
    && Spaced(s)
    && (s.pending.None? ==> ShowsLastAck(s, s.lastHash, s.lastAt))
    && (s.pending.Some? ==>
          && ShowsLastAck(s, s.prevHash, s.prevAt)
          && s.pending.value < |s.fired| && s.fired[s.pending.value] == Report(s.lastHash, s.fired[s.pending.value].at)
          && s.lastAt == Some(s.fired[s.pending.value].at)
          && (s.acked != [] && s.acked[|s.acked| - 1] < |s.fired| ==>
                Apart(s.fired[s.acked[|s.acked| - 1]], s.fired[s.pending.value])))
  }

  lemma HarvestKeepsInv(s: Site, v: Verdict)
    requires Inv(s)
    ensures Inv(HarvestSite(s, v))
  {
  }

  lemma TickKeepsInv(s: Site, t: Tick)
    requires Inv(s)
    ensures Inv(PublishIfDue(s, t.hash, t.now, t.entry, t.exit))
  {
    HarvestKeepsInv(s, t.entry);
    var h := HarvestSite(s, t.entry);
    if h.pending.None? && IsDue(h, t.hash, t.now) {
      assert Inv(FireSite(h, t.hash, t.now));
      HarvestKeepsInv(FireSite(h, t.hash, t.now), t.exit);
    }
  }

  lemma {:induction false} RunKeepsInv(s: Site, ticks: seq<Tick>)
    requires Inv(s)
    ensures Inv(Run(s, ticks))
    decreases |ticks|
  {
    if ticks != [] {
      TickKeepsInv(s, ticks[0]);
      RunKeepsInv(PublishIfDue(s, ticks[0].hash, ticks[0].now, ticks[0].entry, ticks[0].exit), ticks[1..]);
    }
  }

  /** Every run: with nothing pending the belief is the latest acknowledged report; acknowledged reports were fired at
    * least 60 s apart, and a repetition at least 300 s after the report it repeats. */
  lemma SiteBeliefIsAcked(ticks: seq<Tick>)
    ensures var s := Run(START, ticks);
            && (s.pending.None? ==> ShowsLastAck(s, s.lastHash, s.lastAt))
            && (forall k | 0 <= k < |s.acked| :: s.acked[k] < |s.fired|)
            && (forall k | 0 <= k < |s.acked| - 1 ::
                  var a, b := s.fired[s.acked[k]], s.fired[s.acked[k + 1]];
                  a.hash == b.hash ==> b.at - a.at >= 300)
            && forall j, k | 0 <= j < k < |s.acked| :: s.fired[s.acked[k]].at - s.fired[s.acked[j]].at >= 60 * (k - j)
  {
    RunKeepsInv(START, ticks);
    var s := Run(START, ticks);
    forall k | 0 <= k < |s.acked| - 1
      ensures s.fired[s.acked[k]].hash == s.fired[s.acked[k + 1]].hash ==>
                s.fired[s.acked[k + 1]].at - s.fired[s.acked[k]].at >= 300
    {
      assert Apart(s.fired[s.acked[k]], s.fired[s.acked[k + 1]]);
    }
    forall j, k | 0 <= j < k < |s.acked|
      ensures s.fired[s.acked[k]].at - s.fired[s.acked[j]].at >= 60 * (k - j)
    {
      SpacedFar(s, j, k);
    }
  }

  lemma {:induction false} SpacedFar(s: Site, j: nat, k: nat)
    requires Spaced(s) && j < k < |s.acked|
    ensures s.fired[s.acked[k]].at - s.fired[s.acked[j]].at >= 60 * (k - j)
    decreases k - j
  {
    assert Apart(s.fired[s.acked[j]], s.fired[s.acked[j + 1]]);
    if j + 1 < k {
      SpacedFar(s, j + 1, k);
    }
  }

  // ---------------------------------------------------------------- what a tick owes

  lemma {:induction false} RunEnds(s: Site, ticks: seq<Tick>)
    requires ticks != []
    ensures var t := ticks[|ticks| - 1];
            Run(s, ticks) == PublishIfDue(Run(s, ticks[..|ticks| - 1]), t.hash, t.now, t.entry, t.exit)
    decreases |ticks|
  {
    var t := ticks[0];
    if |ticks| > 1 {
      RunEnds(PublishIfDue(s, t.hash, t.now, t.entry, t.exit), ticks[1..]);
      assert ticks[1..][..|ticks| - 2] == ticks[..|ticks| - 1][1..];
    } else {
      assert ticks[..0] == [] && ticks[1..] == [];
    }
  }

  /** What the publisher believes when the last tick decides, with the previous outcome in. */
  function AtTick(s0: Site, ticks: seq<Tick>): Site
    requires ticks != []
  {
    HarvestSite(Run(s0, ticks[..|ticks| - 1]), ticks[|ticks| - 1].entry)
  }

  /** From any state on, a tick fires exactly one report, its own, when nothing is in flight and the believed report is
    * missing, 60 s old with another hash, or 300 s old; otherwise none. */
  lemma TickFiresExactly(s0: Site, ticks: seq<Tick>)
    requires ticks != []
    ensures var t, h, s := ticks[|ticks| - 1], AtTick(s0, ticks), Run(s0, ticks);
            s.fired == h.fired + if Owes(h, t.hash, t.now) then [Report(t.hash, t.now)] else []
  {
    var t := ticks[|ticks| - 1];
    RunEnds(s0, ticks);
    PublishFires(Run(s0, ticks[..|ticks| - 1]), t.hash, t.now, t.entry, t.exit);
  }

  /** After a tick that nothing in flight holds back and that is not rolled back at once, the believed report is the
    * tick's, or younger than 60 s; and in any case younger than 300 s. */
  lemma BeliefFollowsTick(s0: Site, ticks: seq<Tick>)
    requires ticks != [] && ticks[|ticks| - 1].exit in {InFlight, Acked}
    requires !ticks[|ticks| - 1].entry.InFlight? || Run(s0, ticks[..|ticks| - 1]).pending.None?
    ensures var t, s := ticks[|ticks| - 1], Run(s0, ticks);
            && s.lastAt.Some?
            && (s.lastHash == t.hash || t.now - s.lastAt.value < 60)
            && t.now - s.lastAt.value < 300
  {
    RunEnds(s0, ticks);
  }

  /** A report rolled back is sent again by the tick that finds it, if that brings the same report and its clock has
    * not gone back. */
  lemma RollbackIsResent(ticks: seq<Tick>, t: Tick)
    requires var s := Run(START, ticks);
             && s.pending.Some? && s.pending.value < |s.fired| && t.entry in {Failed, TimedOut}
             && t.hash == s.fired[s.pending.value].hash && t.now >= s.fired[s.pending.value].at
    ensures Run(START, ticks + [t]).fired == Run(START, ticks).fired + [Report(t.hash, t.now)]
  {
    RunKeepsInv(START, ticks);
    RunEnds(START, ticks + [t]);
    assert (ticks + [t])[..|ticks + [t]| - 1] == ticks;
    PublishFires(Run(START, ticks), t.hash, t.now, t.entry, t.exit);
  }
}

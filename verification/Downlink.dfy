/** The cloud-to-intent downlink (cmd/cloudlink/downlink.go): the validation chain and the token bucket
  * each kind has. Tokens and seconds are reals. */
module Downlink {
  import opened Prelude

  const BURST: real := 3.0
  const REFILL_EVERY: real := 10.0

  datatype Bucket = Bucket(tokens: real, last: real)

  datatype Verdict = Verdict(bucket: Bucket, ok: bool)

  predicate InBounds(b: Bucket) { 0.0 <= b.tokens <= BURST }

  function Refilled(b: Bucket, now: real): Bucket {
    if now - b.last <= 0.0 then b else
    var tokens := b.tokens + (now - b.last) / REFILL_EVERY;
    Bucket(if tokens > BURST then BURST else tokens, now)
  }

  function Allow(b: Bucket, now: real): (v: Verdict)
    ensures InBounds(b) ==> InBounds(v.bucket)
    // No credit from a clock that went back.
    ensures now <= b.last ==> v.bucket.tokens <= b.tokens && v.bucket.last == b.last
  {
    var r := Refilled(b, now);
    if r.tokens >= 1.0 then Verdict(r.(tokens := r.tokens - 1.0), true) else Verdict(r, false)
  }

  class TokenBucket {
    var tokens: real
    var last: real

    constructor (last: real)
      ensures tokens == BURST && this.last == last
    {
      tokens, this.last := BURST, last;
    }

    function Value(): Bucket
      reads this
    {
      Bucket(tokens, last)
    }

    method TryTake(now: real) returns (ok: bool)
      modifies this
      ensures Verdict(Value(), ok) == Allow(old(Value()), now)
    {
      var elapsed := now - last;
      if elapsed > 0.0 {
        tokens := tokens + elapsed / REFILL_EVERY;
        if tokens > BURST {
          tokens := BURST;
        }
        last := now;
      }
      if tokens >= 1.0 {
        tokens := tokens - 1.0;
        return true;
      }
      return false;
    }
  }

  /** A kind's first call finds a full bucket. */
  function BucketOf(m: map<string, Bucket>, kind: string, now: real): Bucket {
    if kind in m then m[kind] else Bucket(BURST, now)
  }

  class PerKindLimiter {
    var buckets: map<string, TokenBucket>

    constructor ()
      ensures Valid() && Values() == map[]
    {
      buckets := map[];
    }

    ghost predicate Valid()
      reads this
    {
      forall j, k | j in buckets && k in buckets && j != k :: buckets[j] != buckets[k]
    }

    function Values(): map<string, Bucket>
      reads this, buckets.Values
    {
      map k | k in buckets :: buckets[k].Value()
    }

    method TryTake(kind: string, now: real) returns (ok: bool)
      requires Valid()
      modifies this, buckets.Values
      ensures Valid()
      ensures var v := Allow(BucketOf(old(Values()), kind, now), now);
              ok == v.ok && Values() == old(Values())[kind := v.bucket]
      ensures forall b | b in buckets.Values :: b in old(buckets.Values) || fresh(b)
    {
      if kind !in buckets {
        var b := new TokenBucket(now);
        buckets := buckets[kind := b];
      }
      ok := buckets[kind].TryTake(now);
    }
  }

  // ---------------------------------------------------------------- one kind

  /** Accepted calls of a bucket over call times `ts`; no bucket yet means a full one at the first call. */
  function Accepted(b: Option<Bucket>, ts: seq<real>): nat
    decreases |ts|
  {
    if ts == [] then 0 else
    var v := Allow(OrFull(b, ts[0]), ts[0]);
    (if v.ok then 1 else 0) + Accepted(Some(v.bucket), ts[1..])
  }

  function OrFull(b: Option<Bucket>, now: real): Bucket {
    match b case Some(x) => x case None => Bucket(BURST, now)
  }

  function Final(b: Bucket, ts: seq<real>): Bucket
    decreases |ts|
  {
    if ts == [] then b else Final(Allow(b, ts[0]).bucket, ts[1..])
  }

  /** What is taken was there or was refilled since. */
  lemma {:induction false} Potential(b: Bucket, ts: seq<real>)
    requires InBounds(b)
    ensures InBounds(Final(b, ts)) && Final(b, ts).last >= b.last
    ensures Accepted(Some(b), ts) as real <=
            b.tokens - Final(b, ts).tokens + (Final(b, ts).last - b.last) / REFILL_EVERY
    decreases |ts|
  {
    if ts != [] {
      Potential(Allow(b, ts[0]).bucket, ts[1..]);
    }
  }

  /** The high-water mark is the latest time seen. */
  lemma {:induction false} FinalLast(b: Bucket, ts: seq<real>, hi: real)
    requires b.last <= hi && forall k | 0 <= k < |ts| :: ts[k] <= hi
    ensures Final(b, ts).last <= hi
    decreases |ts|
  {
    if ts != [] {
      FinalLast(Allow(b, ts[0]).bucket, ts[1..], hi);
    }
  }

  /** Every window of call times, whatever the clock did before or does inside it: at most 3 calls plus one per
    * 10 s from the window's first call to its latest time. */
  lemma WindowBound(b: Option<Bucket>, ts: seq<real>, lo: real, hi: real)
    requires b.Some? ==> InBounds(b.value)
    requires ts != [] && ts[0] >= lo && forall k | 0 <= k < |ts| :: ts[k] <= hi
    ensures Accepted(b, ts) as real <= BURST + (hi - lo) / REFILL_EVERY
  {
    var first := OrFull(b, ts[0]);
    if first.last <= hi {
      var v := Allow(first, ts[0]);
      Potential(v.bucket, ts[1..]);
      FinalLast(v.bucket, ts[1..], hi);
    } else {
      Potential(first, ts);
      FinalLast(first, ts, first.last);
    }
  }

  // ---------------------------------------------------------------- when a call is refused

  /** The latest time up to call k. */
  function Mark(ts: seq<real>, k: nat): real
    requires k < |ts|
  {
    if k == 0 || ts[k] > Mark(ts, k - 1) then ts[k] else Mark(ts, k - 1)
  }

  /** Calls accepted of the first n since the kind's first call. */
  function Taken(ts: seq<real>, n: nat): int
    requires n <= |ts|
  {
    Accepted(None, ts[..n])
  }

  predicate Refused(ts: seq<real>, n: nat)
    requires n < |ts|
  {
    Taken(ts, n + 1) == Taken(ts, n)
  }

  /** From call j to call n, not counting n, more calls were accepted than 2 and one per 10 s. */
  predicate Spent(ts: seq<real>, j: nat, n: nat)
    requires j <= n < |ts|
  {
    (Taken(ts, n) - Taken(ts, j)) as real > 2.0 + (Mark(ts, n) - Mark(ts, j)) / 10.0
  }

  ghost predicate AnySpent(ts: seq<real>, n: nat)
    requires n < |ts|
  {
    exists j | 0 <= j < n :: Spent(ts, j, n)
  }

  lemma {:induction false} MarkGrows(ts: seq<real>, j: nat, n: nat)
    requires j <= n < |ts|
    ensures Mark(ts, j) <= Mark(ts, n)
    decreases n
  {
    if j < n {
      MarkGrows(ts, j, n - 1);
    }
  }

  lemma {:induction false} AcceptedEnds(b: Bucket, ts: seq<real>, t: real)
    ensures Accepted(Some(b), ts + [t]) == Accepted(Some(b), ts) + if Allow(Final(b, ts), t).ok then 1 else 0
    ensures Final(b, ts + [t]) == Allow(Final(b, ts), t).bucket
    decreases |ts|
  {
    if ts == [] {
      assert [] + [t] == [t] && [t][1..] == [];
      assert Accepted(Some(Allow(b, t).bucket), []) == 0;
    } else {
      AcceptedEnds(Allow(b, ts[0]).bucket, ts[1..], t);
      assert (ts + [t])[1..] == ts[1..] + [t];
    }
  }

  /** The bucket that call n finds. */
  function Before(ts: seq<real>, n: nat): Bucket
    requires n <= |ts| && ts != []
  {
    Final(Bucket(BURST, ts[0]), ts[..n])
  }

  lemma TakenEnds(ts: seq<real>, n: nat)
    requires n < |ts|
    ensures Taken(ts, n + 1) == Taken(ts, n) + if Allow(Before(ts, n), ts[n]).ok then 1 else 0
    ensures Before(ts, n + 1) == Allow(Before(ts, n), ts[n]).bucket
  {
    var full := Bucket(BURST, ts[0]);
    AcceptedEnds(full, ts[..n], ts[n]);
    assert ts[..n + 1] == ts[..n] + [ts[n]];
    assert Accepted(None, ts[..n + 1]) == Accepted(Some(full), ts[..n + 1]);
    assert n > 0 ==> ts[..n][0] == ts[0];
    assert Accepted(None, ts[..n]) == Accepted(Some(full), ts[..n]);
  }

  /** What the bucket held at call j, less what was accepted since, and what was refilled. */
  function Left(ts: seq<real>, j: nat, n: nat): real
    requires j <= n < |ts|
  {
    3.0 - (Taken(ts, n) - Taken(ts, j)) as real + (Mark(ts, n) - Mark(ts, j)) / 10.0
  }

  /** The tokens at call n are the least that a full bucket at some call so far would leave. */
  lemma {:induction false} TokensAreLeast(ts: seq<real>, n: nat) returns (least: nat)
    requires n < |ts|
    ensures var r := Refilled(Before(ts, n), ts[n]);
            && r.last == Mark(ts, n) && 0.0 <= r.tokens <= 3.0
            && (forall j | 0 <= j <= n :: r.tokens <= Left(ts, j, n))
            && least <= n && r.tokens == Left(ts, least, n)
    decreases n
  {
    if n == 0 {
      least := 0;
    } else {
      var before := TokensAreLeast(ts, n - 1);
      TakenEnds(ts, n - 1);
      var r := Refilled(Before(ts, n), ts[n]);
      least := if r.tokens == 3.0 then n else before;
      forall j | 0 <= j <= n
        ensures r.tokens <= Left(ts, j, n)
      {
        if j < n {
          assert Refilled(Before(ts, n - 1), ts[n - 1]).tokens <= Left(ts, j, n - 1);
        }
      }
    }
  }

  /** A call is refused exactly if some earlier call opens a window that ends with it and in which more calls were
    * accepted than 2 and one per 10 s. */
  lemma RefusedIff(ts: seq<real>, n: nat)
    requires n < |ts|
    ensures Refused(ts, n) <==> AnySpent(ts, n)
  {
    TakenEnds(ts, n);
    var least := TokensAreLeast(ts, n);
    if Refused(ts, n) {
      assert Left(ts, least, n) < 1.0;
      assert Spent(ts, least, n);
    }
    if AnySpent(ts, n) {
      var j :| 0 <= j < n && Spent(ts, j, n);
      assert Left(ts, j, n) < 1.0;
    }
  }

  /** The first three calls of a kind are accepted. */
  lemma FirstThreeAreAccepted(ts: seq<real>, n: nat)
    requires n < |ts| && n < 3
    ensures !Refused(ts, n)
  {
    RefusedIff(ts, n);
    forall j | 0 <= j < n
      ensures !Spent(ts, j, n)
    {
      MarkGrows(ts, j, n);
      TakenEnds(ts, 0);
      if n == 2 {
        TakenEnds(ts, 1);
      }
    }
  }

  /** So is a call 10 s or more after every earlier one. */
  lemma TenSecondsLaterIsAccepted(ts: seq<real>, n: nat)
    requires 0 < n < |ts| && ts[n] >= Mark(ts, n - 1) + 10.0
    ensures !Refused(ts, n)
  {
    TakenEnds(ts, n);
    TakenEnds(ts, n - 1);
    var k := TokensAreLeast(ts, n - 1);
  }

  // ---------------------------------------------------------------- all kinds

  datatype Call = Call(kind: string, now: real)

  function TimesOf(cs: seq<Call>, kind: string): seq<real> {
    if cs == [] then []
    else (if cs[0].kind == kind then [cs[0].now] else []) + TimesOf(cs[1..], kind)
  }

  function Lookup(m: map<string, Bucket>, kind: string): Option<Bucket> {
    if kind in m then Some(m[kind]) else None
  }

  /** Accepted calls of `kind` when all kinds share one limiter. */
  function AcceptedOf(m: map<string, Bucket>, cs: seq<Call>, kind: string): nat
    decreases |cs|
  {
    if cs == [] then 0 else
    var v := Allow(BucketOf(m, cs[0].kind, cs[0].now), cs[0].now);
    (if v.ok && cs[0].kind == kind then 1 else 0) + AcceptedOf(m[cs[0].kind := v.bucket], cs[1..], kind)
  }

  /** Other kinds' calls do not matter. */
  lemma {:induction false} KindsAreIndependent(m: map<string, Bucket>, cs: seq<Call>, kind: string)
    ensures AcceptedOf(m, cs, kind) == Accepted(Lookup(m, kind), TimesOf(cs, kind))
    decreases |cs|
  {
    if cs != [] {
      var v := Allow(BucketOf(m, cs[0].kind, cs[0].now), cs[0].now);
      KindsAreIndependent(m[cs[0].kind := v.bucket], cs[1..], kind);
      if cs[0].kind == kind {
        assert ([cs[0].now] + TimesOf(cs[1..], kind))[1..] == TimesOf(cs[1..], kind);
      } else {
        assert [] + TimesOf(cs[1..], kind) == TimesOf(cs[1..], kind);
      }
    }
  }

  lemma {:induction false} TimesEnd(cs: seq<Call>, c: Call)
    ensures TimesOf(cs + [c], c.kind) == TimesOf(cs, c.kind) + [c.now]
    decreases |cs|
  {
    if cs == [] {
      assert [] + [c] == [c] && [c][1..] == [];
      assert TimesOf([c], c.kind) == [c.now] + TimesOf([], c.kind);
    } else {
      TimesEnd(cs[1..], c);
      assert (cs + [c])[1..] == cs[1..] + [c];
    }
  }

  /** With all kinds on one limiter: a call adds to its kind's acceptances unless its kind's own calls have spent the
    * budget. */
  lemma CallIsRefusedIff(cs: seq<Call>, c: Call)
    ensures var ts := TimesOf(cs, c.kind) + [c.now];
            AcceptedOf(map[], cs + [c], c.kind) == AcceptedOf(map[], cs, c.kind) +
              if AnySpent(ts, |ts| - 1) then 0 else 1
  {
    var ts := TimesOf(cs, c.kind) + [c.now];
    KindsAreIndependent(map[], cs, c.kind);
    KindsAreIndependent(map[], cs + [c], c.kind);
    TimesEnd(cs, c);
    assert ts[..|ts| - 1] == TimesOf(cs, c.kind) && ts[..|ts|] == ts;
    TakenEnds(ts, |ts| - 1);
    RefusedIff(ts, |ts| - 1);
  }

  // ---------------------------------------------------------------- validation chain

  const KINDS := {"mode", "evgoal", "reserve", "tariff", "solarforecast", "loadprofile", "chargenow"}
  const CMD_VERSION := 1

  /** A received command, as its decoding turns out. */
  datatype Message = Message(
    wellFormed: bool, version: int, kind: string, decodes: bool, finite: bool,
    origin: string, issuedAt: int, ttlS: int)

  datatype Reason =
    | Malformed | BadVersion | Diag | UnknownKind | BadBody | NonFinite | OriginForgery | Expired
    | RateLimited | PublishFailed | Forwarded

  /** The verdict of every check before the limiter; None passes the message on to it. */
  function Validate(msg: Message, nowUnix: int): Option<Reason> {
    if !msg.wellFormed then Some(Malformed)
    else if msg.version < 1 || msg.version > CMD_VERSION then Some(BadVersion)
    else if msg.kind == "diag" then Some(Diag)
    else if msg.kind !in KINDS then Some(UnknownKind)
    else if !msg.decodes then Some(BadBody)
    else if !msg.finite then Some(NonFinite)
    else if msg.origin != "cloud" then Some(OriginForgery)
    else if msg.kind == "chargenow" && msg.issuedAt + msg.ttlS < nowUnix then Some(Expired)
    else None
  }

  /** Only a message that passes every other check costs its kind a token. */
  method Process(limiter: PerKindLimiter, msg: Message, now: real, published: bool) returns (r: Reason)
    requires limiter.Valid()
    modifies limiter, limiter.buckets.Values
    ensures limiter.Valid()
    ensures Validate(msg, now.Floor).Some? ==>
              r == Validate(msg, now.Floor).value && limiter.Values() == old(limiter.Values())
    ensures Validate(msg, now.Floor).None? ==>
              var v := Allow(BucketOf(old(limiter.Values()), msg.kind, now), now);
              && limiter.Values() == old(limiter.Values())[msg.kind := v.bucket]
              && r == if !v.ok then RateLimited else if published then Forwarded else PublishFailed
    // It reaches the limiter exactly when nothing is wrong with it, and otherwise the first fault is reported.
    ensures r in {RateLimited, PublishFailed, Forwarded} <==>
              && msg.wellFormed && msg.version == 1 && msg.kind in KINDS && msg.decodes && msg.finite
              && msg.origin == "cloud" && (msg.kind == "chargenow" ==> now.Floor <= msg.issuedAt + msg.ttlS)
    ensures r == Malformed <==> !msg.wellFormed
    ensures r == BadVersion <==> msg.wellFormed && msg.version != 1
    ensures r == Diag <==> msg.wellFormed && msg.version == 1 && msg.kind == "diag"
    ensures r == UnknownKind <==> msg.wellFormed && msg.version == 1 && msg.kind !in KINDS + {"diag"}
    ensures r == BadBody <==> msg.wellFormed && msg.version == 1 && msg.kind in KINDS && !msg.decodes
    ensures r == NonFinite <==>
              msg.wellFormed && msg.version == 1 && msg.kind in KINDS && msg.decodes && !msg.finite
    ensures r == OriginForgery <==>
              && msg.wellFormed && msg.version == 1 && msg.kind in KINDS && msg.decodes && msg.finite
              && msg.origin != "cloud"
    ensures forall b | b in limiter.buckets.Values :: b in old(limiter.buckets.Values) || fresh(b)
  {
    if !msg.wellFormed {
      return Malformed;
    }
    if msg.version < 1 || msg.version > CMD_VERSION {
      return BadVersion;
    }
    if msg.kind == "diag" {
      return Diag;
    }
    if msg.kind !in KINDS {
      return UnknownKind;
    }
    if !msg.decodes {
      return BadBody;
    }
    if !msg.finite {
      return NonFinite;
    }
    if msg.origin != "cloud" {
      return OriginForgery;
    }
    if msg.kind == "chargenow" && msg.issuedAt + msg.ttlS < now.Floor {
      return Expired;
    }
    var ok := limiter.TryTake(msg.kind, now);
    if !ok {
      return RateLimited;
    }
    return if published then Forwarded else PublishFailed;
  }

  datatype Receipt = Receipt(msg: Message, now: real, published: bool)

  /** Messages of `kind` forwarded by a run of the downlink. */
  function ForwardedOf(m: map<string, Bucket>, rs: seq<Receipt>, kind: string): nat
    decreases |rs|
  {
    if rs == [] then 0
    else if Validate(rs[0].msg, rs[0].now.Floor).Some? then ForwardedOf(m, rs[1..], kind)
    else
      var v := Allow(BucketOf(m, rs[0].msg.kind, rs[0].now), rs[0].now);
      (if v.ok && rs[0].published && rs[0].msg.kind == kind then 1 else 0) +
      ForwardedOf(m[rs[0].msg.kind := v.bucket], rs[1..], kind)
  }

  function CallsOf(rs: seq<Receipt>): seq<Call> {
    if rs == [] then []
    else if Validate(rs[0].msg, rs[0].now.Floor).Some? then CallsOf(rs[1..])
    else [Call(rs[0].msg.kind, rs[0].now)] + CallsOf(rs[1..])
  }

  lemma {:induction false} ForwardedIsAccepted(m: map<string, Bucket>, rs: seq<Receipt>, kind: string)
    ensures ForwardedOf(m, rs, kind) <= AcceptedOf(m, CallsOf(rs), kind)
    decreases |rs|
  {
    if rs != [] {
      if Validate(rs[0].msg, rs[0].now.Floor).Some? {
        ForwardedIsAccepted(m, rs[1..], kind);
      } else {
        var v := Allow(BucketOf(m, rs[0].msg.kind, rs[0].now), rs[0].now);
        ForwardedIsAccepted(m[rs[0].msg.kind := v.bucket], rs[1..], kind);
        assert CallsOf(rs)[1..] == CallsOf(rs[1..]);
      }
    }
  }

  lemma {:induction false} TimesWithin(rs: seq<Receipt>, kind: string, lo: real, hi: real)
    requires forall k | 0 <= k < |rs| :: lo <= rs[k].now <= hi
    ensures forall k | 0 <= k < |TimesOf(CallsOf(rs), kind)| :: lo <= TimesOf(CallsOf(rs), kind)[k] <= hi
    decreases |rs|
  {
    if rs != [] {
      TimesWithin(rs[1..], kind, lo, hi);
      if Validate(rs[0].msg, rs[0].now.Floor).None? {
        assert CallsOf(rs)[1..] == CallsOf(rs[1..]);
      }
    }
  }

  /** In any window of any run, with whatever traffic on the other kinds: at most 3 forwarded messages of
    * a kind plus one per 10 s. */
  lemma ForwardedBound(m: map<string, Bucket>, rs: seq<Receipt>, kind: string, lo: real, hi: real)
    requires forall k | k in m :: InBounds(m[k])
    requires lo <= hi && forall k | 0 <= k < |rs| :: lo <= rs[k].now <= hi
    ensures ForwardedOf(m, rs, kind) as real <= BURST + (hi - lo) / REFILL_EVERY
  {
    ForwardedIsAccepted(m, rs, kind);
    KindsAreIndependent(m, CallsOf(rs), kind);
    TimesWithin(rs, kind, lo, hi);
    if TimesOf(CallsOf(rs), kind) != [] {
      WindowBound(Lookup(m, kind), TimesOf(CallsOf(rs), kind), lo, hi);
    }
  }
}

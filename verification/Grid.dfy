/** Interval lists onto the planner's 288 five-minute steps: the DER schedule and the utility prices
  * (cmd/hub/main.go) and the OpenADR prices (cmd/hub/openadr_adopt.go). Times are Unix seconds. */
module Grid {
  import opened Prelude

  const STEPS := 288
  const STEP_SEC := 300

  // ---------------------------------------------------------------- meaning

  /** A value that holds on [start, end); no end is an unbounded interval. */
  datatype Span<T> = Span(start: int, end: Option<int>, payload: T)

  predicate Holds<T>(s: Span<T>, t: int) { s.start <= t && (s.end.Some? ==> t < s.end.value) }

  /** The value in force at `t`: later listed spans override earlier ones. */
  function Latest<T>(spans: seq<Span<T>>, t: int): Option<T> {
    if spans == [] then None
    else if Holds(spans[|spans| - 1], t) then Some(spans[|spans| - 1].payload)
    else Latest(spans[..|spans| - 1], t)
  }

  /** `Latest` is the last listed span that holds. */
  lemma {:induction false} LatestMeaning<T>(spans: seq<Span<T>>, t: int)
    ensures Latest(spans, t).None? <==> forall k | 0 <= k < |spans| :: !Holds(spans[k], t)
    ensures forall k | 0 <= k < |spans| && Holds(spans[k], t) && (forall j | k < j < |spans| :: !Holds(spans[j], t)) ::
              Latest(spans, t) == Some(spans[k].payload)
    decreases |spans|
  {
    if spans != [] {
      var front := spans[..|spans| - 1];
      LatestMeaning(front, t);
      assert forall k | 0 <= k < |front| :: front[k] == spans[k];
    }
  }

  lemma LatestAppend<T>(spans: seq<Span<T>>, s: Span<T>, t: int)
    ensures Latest(spans + [s], t) == if Holds(s, t) then Some(s.payload) else Latest(spans, t)
  {
    assert (spans + [s])[..|spans|] == spans;
  }

  function OrElse<T>(o: Option<T>, d: T): T {
    match o case Some(v) => v case None => d
  }

  function StepStart(ws: int, i: int): int { ws + STEP_SEC * i }

  /** The last second of step i. */
  function StepEnd(ws: int, i: int): int { StepStart(ws, i + 1) - 1 }

  // ---------------------------------------------------------------- Go integers

  /** Division that truncates toward zero, for a positive divisor. */
  function TruncDiv(a: int, b: int): int
    requires b > 0
  {
    if a >= 0 then a / b else -(-a / b)
  }

  function TruncMod(a: int, b: int): int
    requires b > 0
  {
    a - b * TruncDiv(a, b)
  }

  // ---------------------------------------------------------------- DER schedule

  datatype Slot = Slot(
    start: int, end: int, connect: Option<bool>,
    expLimW: Option<real>, impLimW: Option<real>, maxLimW: Option<real>, fixedW: Option<real>,
    genLimW: Option<real>, loadLimW: Option<real>)

  /** None is an absent limit. */
  datatype StepConstraint = StepConstraint(
    disconnect: bool, expLimW: Option<real>, impLimW: Option<real>, maxLimW: Option<real>,
    fixedW: Option<real>, genLimW: Option<real>, loadLimW: Option<real>)

  const UNCONSTRAINED := StepConstraint(false, None, None, None, None, None, None)

  function LimitsOf(s: Slot, ausLimits: bool): StepConstraint {
    StepConstraint(
      s.connect == Some(false), s.expLimW, s.impLimW, s.maxLimW, s.fixedW,
      if ausLimits then s.genLimW else None, if ausLimits then s.loadLimW else None)
  }

  function SlotSpans(slots: seq<Slot>, ausLimits: bool): (r: seq<Span<StepConstraint>>)
    ensures |r| == |slots|
    ensures forall k | 0 <= k < |slots| ::
              r[k] == Span(slots[k].start, Some(slots[k].end), LimitsOf(slots[k], ausLimits))
  {
    seq(|slots|, k requires 0 <= k < |slots| =>
      Span(slots[k].start, Some(slots[k].end), LimitsOf(slots[k], ausLimits)))
  }

  predicate InSlot(s: Slot, ws: int, i: int) { s.start < ws + STEP_SEC * (i + 1) <= s.end }

  /** The truncated and clamped index range of a slot holds exactly the steps whose last second lies in
    * the slot. */
  lemma IndexRange(s: Slot, ws: int, i: int)
    requires 0 <= i < STEPS
    ensures var lo, hi := TruncDiv(s.start - ws, STEP_SEC), TruncDiv(s.end - ws, STEP_SEC);
            (lo < STEPS && hi > 0 && Max(lo, 0) <= i < Min(hi, STEPS)) <==> InSlot(s, ws, i)
  {
  }

  ghost predicate Projected(
    out: seq<StepConstraint>, spans: seq<Span<StepConstraint>>, ws: int)
  {
    && |out| == STEPS
    && forall i | 0 <= i < STEPS :: out[i] == OrElse(Latest(spans, StepEnd(ws, i)), UNCONSTRAINED)
  }

  method FillSlot(steps: array<StepConstraint>, slot: Slot, ausLimits: bool, ws: int,
                  ghost applied: seq<Span<StepConstraint>>)
    requires Projected(steps[..], applied, ws)
    modifies steps
    ensures Projected(steps[..], applied + [Span(slot.start, Some(slot.end), LimitsOf(slot, ausLimits))], ws)
  {
    ghost var span := Span(slot.start, Some(slot.end), LimitsOf(slot, ausLimits));
    var startIdx := TruncDiv(slot.start - ws, STEP_SEC);
    var endIdx := TruncDiv(slot.end - ws, STEP_SEC);
    forall i | 0 <= i < STEPS
      ensures Latest(applied + [span], StepEnd(ws, i)) ==
              if startIdx < STEPS && endIdx > 0 && Max(startIdx, 0) <= i < Min(endIdx, STEPS)
              then Some(LimitsOf(slot, ausLimits)) else Latest(applied, StepEnd(ws, i))
    {
      LatestAppend(applied, span, StepEnd(ws, i));
      IndexRange(slot, ws, i);
    }
    if startIdx >= STEPS || endIdx <= 0 {
      return;
    }
    startIdx, endIdx := Max(startIdx, 0), Min(endIdx, STEPS);
    var i := startIdx;
    while i < endIdx
      invariant startIdx <= i
      invariant forall x | 0 <= x < STEPS ::
          steps[x] == if startIdx <= x < i then LimitsOf(slot, ausLimits) else old(steps[x])
      invariant i <= Max(startIdx, endIdx)
    {
      steps[i] := LimitsOf(slot, ausLimits);
      i := i + 1;
    }
  }

  /** The last second of step i lies in the slot. */
  predicate Applies(s: Slot, ws: int, i: int) { s.start <= ws + 300 * (i + 1) - 1 < s.end }

  /** A step under a slot: each limit is the slot's own, the two Australian ones only where they are in use. */
  predicate Shows(c: StepConstraint, s: Slot, ausLimits: bool) {
    && (c.disconnect <==> s.connect == Some(false))
    && c.expLimW == s.expLimW && c.impLimW == s.impLimW && c.maxLimW == s.maxLimW && c.fixedW == s.fixedW
    && c.genLimW == (if ausLimits then s.genLimW else None)
    && c.loadLimW == (if ausLimits then s.loadLimW else None)
  }

  predicate Free(c: StepConstraint) {
    && !c.disconnect && c.expLimW == c.impLimW == c.maxLimW == None && c.fixedW == None
    && c.genLimW == c.loadLimW == None
  }

  /** Every step shows the last listed slot that applies to it, and is free where none does. */
  ghost predicate Scheduled(out: seq<StepConstraint>, slots: seq<Slot>, ausLimits: bool, ws: int) {
    && |out| == 288
    && forall i | 0 <= i < 288 ::
         && ((forall k | 0 <= k < |slots| :: !Applies(slots[k], ws, i)) ==> Free(out[i]))
         && forall k | 0 <= k < |slots| && Applies(slots[k], ws, i)
                       && (forall j | k < j < |slots| :: !Applies(slots[j], ws, i)) ::
              Shows(out[i], slots[k], ausLimits)
  }

  lemma ProjectedIsScheduled(out: seq<StepConstraint>, slots: seq<Slot>, ausLimits: bool, ws: int)
    requires Projected(out, SlotSpans(slots, ausLimits), ws)
    ensures Scheduled(out, slots, ausLimits, ws)
  {
    var spans := SlotSpans(slots, ausLimits);
    forall i | 0 <= i < 288
      ensures (forall k | 0 <= k < |slots| :: !Applies(slots[k], ws, i)) ==> Free(out[i])
      ensures forall k | 0 <= k < |slots| && Applies(slots[k], ws, i)
                         && (forall j | k < j < |slots| :: !Applies(slots[j], ws, i)) ::
                Shows(out[i], slots[k], ausLimits)
    {
      LatestMeaning(spans, StepEnd(ws, i));
      assert forall k | 0 <= k < |slots| :: Holds(spans[k], StepEnd(ws, i)) <==> Applies(slots[k], ws, i);
      assert out[i] == OrElse(Latest(spans, StepEnd(ws, i)), UNCONSTRAINED);
    }
  }

  /** Step i gets the limits of the last listed slot with start < ws + 300(i+1) <= end. */
  method DerConstraintsFromSchedule(windowStart: int, slots: seq<Slot>, ausLimits: bool)
    returns (out: seq<StepConstraint>)
    ensures slots == [] <==> out == []
    ensures slots != [] ==>
              Projected(out, SlotSpans(slots, ausLimits), windowStart - TruncMod(windowStart, STEP_SEC))
    ensures slots != [] ==> Scheduled(out, slots, ausLimits, windowStart - TruncMod(windowStart, 300))
  {
    if slots == [] {
      return [];
    }
    var ws := windowStart - TruncMod(windowStart, STEP_SEC);
    var steps := new StepConstraint[STEPS](_ => UNCONSTRAINED);
    ghost var spans := SlotSpans(slots, ausLimits);
    for k := 0 to |slots|
      invariant Projected(steps[..], spans[..k], ws)
    {
      FillSlot(steps, slots[k], ausLimits, ws, spans[..k]);
      assert spans[..k] + [spans[k]] == spans[..k + 1];
    }
    assert spans[..|slots|] == spans;
    out := steps[..];
    ProjectedIsScheduled(out, slots, ausLimits, ws);
  }

  // ---------------------------------------------------------------- prices

  /** Every step has the price in force at its first second, or its base price. */
  ghost predicate Priced(prices: seq<real>, spans: seq<Span<real>>, ws: int, base: seq<real>) {
    && |prices| == STEPS == |base|
    && forall i | 0 <= i < STEPS :: prices[i] == OrElse(Latest(spans, StepStart(ws, i)), base[i])
  }

  /** Overwrites the steps whose first second lies in the span. */
  method FillSpan(dst: array<real>, ws: int, s: Span<real>, ghost applied: seq<Span<real>>, ghost base: seq<real>)
    requires Priced(dst[..], applied, ws, base)
    modifies dst
    ensures Priced(dst[..], applied + [s], ws, base)
  {
    forall i | 0 <= i < STEPS
      ensures Latest(applied + [s], StepStart(ws, i)) ==
              if Holds(s, StepStart(ws, i)) then Some(s.payload) else Latest(applied, StepStart(ws, i))
    {
      LatestAppend(applied, s, StepStart(ws, i));
    }
    for i := 0 to dst.Length
      invariant forall x | 0 <= x < STEPS ::
          dst[x] == OrElse(Latest(if x < i then applied + [s] else applied, StepStart(ws, x)), base[x])
    {
      if Holds(s, StepStart(ws, i)) {
        dst[i] := s.payload;
      }
    }
  }

  function BasePrices(ws: int, fallback: int -> real): (r: seq<real>)
    ensures |r| == STEPS && forall i | 0 <= i < STEPS :: r[i] == fallback(StepStart(ws, i))
  {
    seq(STEPS, i => fallback(StepStart(ws, i)))
  }

  method BaseRates(ws: int, fallback: int -> real) returns (dst: array<real>)
    ensures fresh(dst) && dst[..] == BasePrices(ws, fallback)
  {
    dst := new real[STEPS];
    for i := 0 to STEPS
      invariant forall x | 0 <= x < i :: dst[x] == fallback(StepStart(ws, x))
    {
      dst[i] := fallback(StepStart(ws, i));
    }
  }

  datatype Interval = Interval(start: int, duration: nat, blockPrices: seq<int>)

  datatype RateComponent = RateComponent(active: seq<Interval>, scheduled: seq<Interval>)

  datatype TariffProfile = TariffProfile(powerOfTen: int, components: seq<RateComponent>)

  function Pow10(p: int): real
    decreases if p >= 0 then p else -p
  {
    if p == 0 then 1.0 else if p > 0 then Pow10(p - 1) * 10.0 else Pow10(p + 1) / 10.0
  }

  function PriceSpan(iv: Interval, mult: real): Span<real>
    requires iv.blockPrices != []
  {
    Span(iv.start, Some(iv.start + iv.duration), iv.blockPrices[0] as real * mult / 1000.0)
  }

  /** The priced intervals of a list, in order; an interval without blocks prices nothing. */
  function IntervalSpans(intervals: seq<Interval>, mult: real): seq<Span<real>> {
    if intervals == [] then [] else
    var last := intervals[|intervals| - 1];
    IntervalSpans(intervals[..|intervals| - 1], mult) +
    if last.blockPrices == [] then [] else [PriceSpan(last, mult)]
  }

  function ComponentSpans(components: seq<RateComponent>, mult: real): seq<Span<real>> {
    if components == [] then [] else
    var last := components[|components| - 1];
    ComponentSpans(components[..|components| - 1], mult) + IntervalSpans(last.active + last.scheduled, mult)
  }

  method Multiplier(powerOfTen: int) returns (mult: real)
    ensures mult == Pow10(powerOfTen)
  {
    mult := 1.0;
    for i := 0 to Max(powerOfTen, 0)
      invariant mult == Pow10(i)
    {
      mult := mult * 10.0;
    }
    for i := 0 to Max(-powerOfTen, 0)
      invariant mult == if powerOfTen > 0 then Pow10(powerOfTen) else Pow10(-i)
    {
      mult := mult / 10.0;
    }
  }

  lemma IntervalSpansAppend(intervals: seq<Interval>, iv: Interval, mult: real)
    requires iv.blockPrices != []
    ensures IntervalSpans(intervals + [iv], mult) ==
            IntervalSpans(intervals, mult) + [PriceSpan(iv, mult)]
  {
    assert (intervals + [iv])[..|intervals|] == intervals;
  }

  method FillIntervals(
    dst: array<real>, ws: int, all: seq<Interval>, mult: real, ghost applied: seq<Span<real>>, ghost base: seq<real>)
    requires Priced(dst[..], applied, ws, base)
    modifies dst
    ensures Priced(dst[..], applied + IntervalSpans(all, mult), ws, base)
  {
    assert applied + IntervalSpans(all[..0], mult) == applied;
    for b := 0 to |all|
      invariant Priced(dst[..], applied + IntervalSpans(all[..b], mult), ws, base)
    {
      ghost var before := IntervalSpans(all[..b], mult);
      assert all[..b + 1][..b] == all[..b];
      if all[b].blockPrices == [] {
        assert IntervalSpans(all[..b + 1], mult) == before;
        continue;
      }
      var s := PriceSpan(all[b], mult);
      FillSpan(dst, ws, s, applied + before, base);
      assert applied + before + [s] == applied + (before + [s]);
      IntervalSpansAppend(all[..b], all[b], mult);
      assert all[..b + 1] == all[..b] + [all[b]];
    }
    assert all[..|all|] == all;
  }

  /** Interval k of a component: the active ones, then the scheduled ones. */
  function IntervalAt(c: RateComponent, k: nat): Interval
    requires k < |c.active| + |c.scheduled|
  {
    if k < |c.active| then c.active[k] else c.scheduled[k - |c.active|]
  }

  predicate InForce(iv: Interval, t: int) {
    iv.blockPrices != [] && iv.start <= t < iv.start + iv.duration
  }

  /** The first block's price, in thousandths and scaled. */
  function PriceOf(iv: Interval, scale: real): real
    requires iv.blockPrices != []
  {
    iv.blockPrices[0] as real * scale / 1000.0
  }

  predicate InForceAt(components: seq<RateComponent>, a: nat, k: nat, t: int) {
    && a < |components| && k < |components[a].active| + |components[a].scheduled|
    && InForce(IntervalAt(components[a], k), t)
  }

  /** No interval in force is listed later. */
  ghost predicate LastInForce(components: seq<RateComponent>, a: nat, k: nat, t: int) {
    && InForceAt(components, a, k, t)
    && forall b: nat, j: nat | InForceAt(components, b, j, t) :: b < a || (b == a && j <= k)
  }

  /** The price at t is that of the last listed interval in force, or else the fallback. */
  ghost predicate PriceAt(price: real, components: seq<RateComponent>, scale: real, t: int, fallback: real) {
    && ((forall a: nat, k: nat :: !InForceAt(components, a, k, t)) ==> price == fallback)
    && forall a: nat, k: nat | LastInForce(components, a, k, t) ::
         price == PriceOf(IntervalAt(components[a], k), scale)
  }

  /** Every step has the price at its first second. */
  ghost predicate Tariffed(
    prices: seq<real>, components: seq<RateComponent>, scale: real, ws: int, fallback: int -> real)
  {
    && |prices| == 288
    && forall i | 0 <= i < 288 :: PriceAt(prices[i], components, scale, ws + 300 * i, fallback(ws + 300 * i))
  }

  lemma {:induction false} LatestConcat<T>(a: seq<Span<T>>, b: seq<Span<T>>, t: int)
    ensures Latest(a + b, t) == if Latest(b, t).Some? then Latest(b, t) else Latest(a, t)
    decreases |b|
  {
    if b == [] {
      assert a + b == a;
    } else {
      assert (a + b)[..|a + b| - 1] == a + b[..|b| - 1];
      LatestConcat(a, b[..|b| - 1], t);
    }
  }

  lemma IntervalSpansEnd(ivs: seq<Interval>, mult: real, t: int)
    requires ivs != []
    ensures var front, last := ivs[..|ivs| - 1], ivs[|ivs| - 1];
            Latest(IntervalSpans(ivs, mult), t) ==
            if InForce(last, t) then Some(PriceOf(last, mult))
            else Latest(IntervalSpans(front, mult), t)
  {
    var front, last := ivs[..|ivs| - 1], ivs[|ivs| - 1];
    if last.blockPrices == [] {
      assert IntervalSpans(ivs, mult) == IntervalSpans(front, mult);
    } else {
      LatestAppend(IntervalSpans(front, mult), PriceSpan(last, mult), t);
    }
  }

  lemma {:induction false} NoneOfList(ivs: seq<Interval>, mult: real, t: int)
    requires forall k | 0 <= k < |ivs| :: !InForce(ivs[k], t)
    ensures Latest(IntervalSpans(ivs, mult), t).None?
    decreases |ivs|
  {
    if ivs != [] {
      IntervalSpansEnd(ivs, mult, t);
      NoneOfList(ivs[..|ivs| - 1], mult, t);
    }
  }

  lemma {:induction false} LastOfList(ivs: seq<Interval>, mult: real, t: int, k: nat)
    requires k < |ivs| && InForce(ivs[k], t) && forall j | k < j < |ivs| :: !InForce(ivs[j], t)
    ensures Latest(IntervalSpans(ivs, mult), t) == Some(PriceOf(ivs[k], mult))
    decreases |ivs|
  {
    IntervalSpansEnd(ivs, mult, t);
    if k < |ivs| - 1 {
      LastOfList(ivs[..|ivs| - 1], mult, t, k);
    }
  }

  lemma ComponentSpansEnd(components: seq<RateComponent>, mult: real, t: int)
    requires components != []
    ensures var front, last := components[..|components| - 1], components[|components| - 1];
            var own := Latest(IntervalSpans(last.active + last.scheduled, mult), t);
            Latest(ComponentSpans(components, mult), t) ==
            if own.Some? then own else Latest(ComponentSpans(front, mult), t)
  {
    var front, last := components[..|components| - 1], components[|components| - 1];
    LatestConcat(ComponentSpans(front, mult), IntervalSpans(last.active + last.scheduled, mult), t);
  }

  lemma {:induction false} NoneOfComponents(components: seq<RateComponent>, mult: real, t: int)
    requires forall a: nat, k: nat :: !InForceAt(components, a, k, t)
    ensures Latest(ComponentSpans(components, mult), t).None?
    decreases |components|
  {
    if components != [] {
      var front, last := components[..|components| - 1], components[|components| - 1];
      var own := last.active + last.scheduled;
      ComponentSpansEnd(components, mult, t);
      forall k | 0 <= k < |own|
        ensures !InForce(own[k], t)
      {
        assert !InForceAt(components, |front|, k, t);
        assert own[k] == IntervalAt(last, k);
      }
      NoneOfList(own, mult, t);
      forall a: nat, k: nat
        ensures !InForceAt(front, a, k, t)
      {
        assert !InForceAt(components, a, k, t);
      }
      NoneOfComponents(front, mult, t);
    }
  }

  lemma {:induction false} LastOfComponents(components: seq<RateComponent>, mult: real, t: int, a: nat, k: nat)
    requires LastInForce(components, a, k, t)
    ensures Latest(ComponentSpans(components, mult), t) ==
            Some(PriceOf(IntervalAt(components[a], k), mult))
    decreases |components|
  {
    var front, last := components[..|components| - 1], components[|components| - 1];
    var own := last.active + last.scheduled;
    ComponentSpansEnd(components, mult, t);
    forall j: nat | j < |own| && (a < |front| || j > k)
      ensures !InForce(own[j], t)
    {
      assert own[j] == IntervalAt(last, j);
      assert InForceAt(components, |front|, j, t) <==> InForce(own[j], t);
    }
    if a == |front| {
      assert own[k] == IntervalAt(last, k);
      LastOfList(own, mult, t, k);
    } else {
      NoneOfList(own, mult, t);
      forall b: nat, j: nat | InForceAt(front, b, j, t)
        ensures b < a || (b == a && j <= k)
      {
        assert InForceAt(components, b, j, t);
      }
      LastOfComponents(front, mult, t, a, k);
    }
  }

  lemma PriceAtLatest(components: seq<RateComponent>, scale: real, t: int, fallback: real)
    ensures PriceAt(OrElse(Latest(ComponentSpans(components, scale), t), fallback), components, scale, t, fallback)
  {
    if forall a: nat, k: nat :: !InForceAt(components, a, k, t) {
      NoneOfComponents(components, scale, t);
    }
    forall a: nat, k: nat | LastInForce(components, a, k, t)
      ensures Latest(ComponentSpans(components, scale), t) ==
              Some(PriceOf(IntervalAt(components[a], k), scale))
    {
      LastOfComponents(components, scale, t, a, k);
    }
  }

  lemma PricedAt(
    prices: seq<real>, spans: seq<Span<real>>, ws: int, fallback: int -> real, i: nat)
    requires Priced(prices, spans, ws, BasePrices(ws, fallback)) && i < 288
    ensures prices[i] == OrElse(Latest(spans, ws + 300 * i), fallback(ws + 300 * i))
  {
    assert StepStart(ws, i) == ws + 300 * i;
  }

  lemma PricedIsTariffed(
    prices: seq<real>, components: seq<RateComponent>, scale: real, ws: int, fallback: int -> real)
    requires Priced(prices, ComponentSpans(components, scale), ws, BasePrices(ws, fallback))
    ensures Tariffed(prices, components, scale, ws, fallback)
  {
    var spans := ComponentSpans(components, scale);
    forall i: nat | i < 288
      ensures PriceAt(prices[i], components, scale, ws + 300 * i, fallback(ws + 300 * i))
    {
      PriceAtLatest(components, scale, ws + 300 * i, fallback(ws + 300 * i));
      PricedAt(prices, spans, ws, fallback, i);
    }
  }

  /** Powers of ten, negative ones included. */
  lemma {:induction false} Pow10Grows(p: int)
    ensures Pow10(0) == 1.0 && Pow10(p + 1) == 10.0 * Pow10(p)
  {
  }

  method PricesOfProfile(profile: TariffProfile, ws: int, fallback: int -> real) returns (prices: seq<real>)
    ensures Priced(prices, ComponentSpans(profile.components, Pow10(profile.powerOfTen)), ws, BasePrices(ws, fallback))
  {
    var dst := BaseRates(ws, fallback);
    ghost var base := dst[..];
    var components := profile.components;
    var mult := Multiplier(profile.powerOfTen);
    for a := 0 to |components|
      invariant Priced(dst[..], ComponentSpans(components[..a], mult), ws, base)
    {
      FillIntervals(
        dst, ws, components[a].active + components[a].scheduled, mult, ComponentSpans(components[..a], mult), base);
      assert components[..a + 1][..a] == components[..a];
    }
    assert components[..|components|] == components;
    return dst[..];
  }

  /** Step i gets the price of the last listed interval with start <= ws + 300 i < end, else the
    * fallback rate at that instant. Only the first profile is read. */
  method PricesFromPricingUpdate(profiles: seq<TariffProfile>, now: int, fallback: int -> real)
    returns (prices: Option<seq<real>>)
    ensures prices.None? <==> profiles == []
    ensures prices.Some? ==>
              var ws := now - TruncMod(now, STEP_SEC);
              var spans := ComponentSpans(profiles[0].components, Pow10(profiles[0].powerOfTen));
              Priced(prices.value, spans, ws, BasePrices(ws, fallback))
    ensures prices.Some? ==>
              Tariffed(prices.value, profiles[0].components, Pow10(profiles[0].powerOfTen), now - TruncMod(now, 300),
                       fallback)
  {
    if profiles == [] {
      return None;
    }
    var ws := now - TruncMod(now, STEP_SEC);
    var filled := PricesOfProfile(profiles[0], ws, fallback);
    PricedIsTariffed(filled, profiles[0].components, Pow10(profiles[0].powerOfTen), ws, fallback);
    return Some(filled);
  }

  // ---------------------------------------------------------------- OpenADR

  datatype AdrInterval = AdrInterval(startTs: int, durationS: int, value: real)

  datatype AdrSeries = AdrSeries(kind: string, intervals: seq<AdrInterval>)

  /** A duration of zero or less is unbounded. */
  function AdrSpan(iv: AdrInterval): Span<real> {
    Span(iv.startTs, if iv.durationS <= 0 then None else Some(iv.startTs + iv.durationS), iv.value)
  }

  function AdrSpans(ivs: seq<AdrInterval>): (r: seq<Span<real>>)
    ensures |r| == |ivs| && forall k | 0 <= k < |ivs| :: r[k] == AdrSpan(ivs[k])
  {
    seq(|ivs|, k requires 0 <= k < |ivs| => AdrSpan(ivs[k]))
  }

  predicate AdrInForce(iv: AdrInterval, t: int) {
    iv.startTs <= t && (iv.durationS > 0 ==> t < iv.startTs + iv.durationS)
  }

  /** Every step has the value of the last listed interval in force at its first second, or its base. */
  ghost predicate Valued(prices: seq<real>, ivs: seq<AdrInterval>, ws: int, base: seq<real>) {
    && |prices| == |base| == 288
    && forall i | 0 <= i < 288 ::
         && ((forall k | 0 <= k < |ivs| :: !AdrInForce(ivs[k], ws + 300 * i)) ==> prices[i] == base[i])
         && forall k | 0 <= k < |ivs| && AdrInForce(ivs[k], ws + 300 * i)
                       && (forall j | k < j < |ivs| :: !AdrInForce(ivs[j], ws + 300 * i)) ::
              prices[i] == ivs[k].value
  }

  lemma PricedIsValued(prices: seq<real>, ivs: seq<AdrInterval>, ws: int, base: seq<real>)
    requires Priced(prices, AdrSpans(ivs), ws, base)
    ensures Valued(prices, ivs, ws, base)
  {
    var spans := AdrSpans(ivs);
    forall i | 0 <= i < 288
      ensures (forall k | 0 <= k < |ivs| :: !AdrInForce(ivs[k], ws + 300 * i)) ==> prices[i] == base[i]
      ensures forall k | 0 <= k < |ivs| && AdrInForce(ivs[k], ws + 300 * i)
                         && (forall j | k < j < |ivs| :: !AdrInForce(ivs[j], ws + 300 * i)) ::
                prices[i] == ivs[k].value
    {
      LatestMeaning(spans, StepStart(ws, i));
      assert forall k | 0 <= k < |ivs| :: Holds(spans[k], StepStart(ws, i)) <==> AdrInForce(ivs[k], ws + 300 * i);
      assert prices[i] == OrElse(Latest(spans, StepStart(ws, i)), base[i]);
    }
  }

  method FillOpenADRIntervals(dst: array<real>, ivs: seq<AdrInterval>, ws: int)
    requires dst.Length == STEPS
    modifies dst
    ensures Priced(dst[..], AdrSpans(ivs), ws, old(dst[..]))
    ensures Valued(dst[..], ivs, ws, old(dst[..]))
  {
    ghost var base := dst[..];
    ghost var spans := AdrSpans(ivs);
    for k := 0 to |ivs|
      invariant Priced(dst[..], spans[..k], ws, base)
    {
      FillSpan(dst, ws, AdrSpan(ivs[k]), spans[..k], base);
      assert spans[..k] + [spans[k]] == spans[..k + 1];
    }
    assert spans[..|ivs|] == spans;
    PricedIsValued(dst[..], ivs, ws, base);
  }

  /** The first series of a kind. */
  function FirstOf(series: seq<AdrSeries>, kind: string): (r: Option<AdrSeries>)
    ensures r.None? <==> forall s | s in series :: s.kind != kind
    ensures r.Some? ==> exists k | 0 <= k < |series| ::
                series[k] == r.value && r.value.kind == kind && forall j | 0 <= j < k :: series[j].kind != kind
  {
    if series == [] then None
    else if series[0].kind == kind then Some(series[0])
    else
      var r := FirstOf(series[1..], kind);
      assert r.Some? ==> exists k | 1 <= k < |series| :: 
        series[k] == r.value && forall j | 0 <= j < k :: series[j].kind != kind by {
        if r.Some? {
          var rest := series[1..];
          var k :| 0 <= k < |rest| && rest[k] == r.value && forall j | 0 <= j < k :: rest[j].kind != kind;
          assert series[k + 1] == r.value;
          assert forall j | 1 <= j < k + 1 :: series[j] == series[1..][j - 1];
        }
      }
      r
  }

  method ImportPrices(ivs: seq<AdrInterval>, ws: int, fallback: int -> real) returns (prices: seq<real>)
    ensures Priced(prices, AdrSpans(ivs), ws, BasePrices(ws, fallback))
    ensures Valued(prices, ivs, ws, BasePrices(ws, fallback))
  {
    var dst := BaseRates(ws, fallback);
    FillOpenADRIntervals(dst, ivs, ws);
    return dst[..];
  }

  const NO_PRICES: seq<real> := seq(STEPS, _ => 0.0)

  method ExportPrices(ivs: seq<AdrInterval>, ws: int) returns (prices: seq<real>)
    ensures Priced(prices, AdrSpans(ivs), ws, NO_PRICES)
    ensures Valued(prices, ivs, ws, NO_PRICES)
  {
    var dst := new real[STEPS](_ => 0.0);
    assert dst[..] == NO_PRICES;
    FillOpenADRIntervals(dst, ivs, ws);
    return dst[..];
  }

  method SeriesPrices(price: AdrSeries, export_: Option<AdrSeries>, ws: int, fallback: int -> real)
    returns (imports: seq<real>, exports: Option<seq<real>>)
    ensures Priced(imports, AdrSpans(price.intervals), ws, BasePrices(ws, fallback))
    ensures Valued(imports, price.intervals, ws, BasePrices(ws, fallback))
    ensures exports.Some? <==> export_.Some?
    ensures exports.Some? ==>
              && Priced(exports.value, AdrSpans(export_.value.intervals), ws, NO_PRICES)
              && Valued(exports.value, export_.value.intervals, ws, NO_PRICES)
  {
    imports := ImportPrices(price.intervals, ws, fallback);
    exports := None;
    if export_.Some? {
      var priced := ExportPrices(export_.value.intervals, ws);
      exports := Some(priced);
    }
  }

  /** The first series of each kind; import prices fall back to the default rate, export prices to zero; without a
    * PRICE series there are neither. */
  method PricesFromOpenADR(series: seq<AdrSeries>, now: int, fallback: int -> real)
    returns (imports: Option<seq<real>>, exports: Option<seq<real>>)
    ensures imports.Some? <==> FirstOf(series, "PRICE").Some?
    ensures exports.Some? <==> FirstOf(series, "PRICE").Some? && FirstOf(series, "EXPORT_PRICE").Some?
    ensures imports.Some? ==>
              var ws, ivs := now - TruncMod(now, 300), FirstOf(series, "PRICE").value.intervals;
              && Priced(imports.value, AdrSpans(ivs), ws, BasePrices(ws, fallback))
              && Valued(imports.value, ivs, ws, BasePrices(ws, fallback))
    ensures exports.Some? ==>
              var ws, ivs := now - TruncMod(now, 300), FirstOf(series, "EXPORT_PRICE").value.intervals;
              Priced(exports.value, AdrSpans(ivs), ws, NO_PRICES) && Valued(exports.value, ivs, ws, NO_PRICES)
  {
    var ws := now - TruncMod(now, STEP_SEC);
    var price, export_ := FirstOf(series, "PRICE"), FirstOf(series, "EXPORT_PRICE");
    if price.None? {
      return None, None;
    }
    var filled;
    filled, exports := SeriesPrices(price.value, export_, ws, fallback);
    imports := Some(filled);
  }
}

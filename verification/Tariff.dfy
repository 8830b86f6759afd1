/** The tariff compiler (cmd/hub/tariff.go) and the cost model it targets
  * (internal/orchestrator/costmodel.go). */
module Tariff {
  import opened Prelude

  /** A float that may be NaN or infinite. */
  datatype Float = Finite(v: real) | NotFinite

  datatype Period = Period(
    name: string, days: seq<int>, startHH: int, endHH: int,
    importRate: Float, exportRate: Option<Float>, deliveryRate: Option<Float>)

  datatype Spec = Spec(currency: string, periods: seq<Period>, fixedDaily: Option<Float>)

  datatype Cell = Cell(rate: real, delivery: real, name: string, owner: nat)

  datatype Run = Run(startHour: int, endHour: int, rate: real, name: string)

  datatype CostModel = CostModel(runs: seq<Run>, defaultRate: real, peakThreshold: real)

  datatype Compiled = Compiled(supply: CostModel, delivery: Option<CostModel>, fixedDaily: Float, currency: string)

  datatype Result = Ok(tariff: Compiled) | Rejected

  // ---------------------------------------------------------------- cost model

  predicate InRun(hour: int, r: Run) {
    if r.startHour <= r.endHour then r.startHour <= hour < r.endHour
    else r.startHour <= hour || hour < r.endHour
  }

  function FindRun(runs: seq<Run>, hour: int): (r: Option<Run>)
    ensures r.Some? ==> r.value in runs && InRun(hour, r.value)
  {
    if runs == [] then None
    else if InRun(hour, runs[0]) then Some(runs[0])
    else FindRun(runs[1..], hour)
  }

  function CurrentRate(m: CostModel, hour: int): real {
    match FindRun(m.runs, hour) case Some(r) => r.rate case None => m.defaultRate
  }

  predicate IsPeakHour(m: CostModel, hour: int) {
    CurrentRate(m, hour) >= m.peakThreshold
  }

  /** The runs tile [a, b) in order. */
  ghost predicate Tiles(runs: seq<Run>, a: int, b: int) {
    && (forall k | 0 <= k < |runs| :: runs[k].startHour < runs[k].endHour)
    && (forall k | 0 <= k < |runs| - 1 :: runs[k].endHour == runs[k + 1].startHour)
    && if runs == [] then a == b else runs[0].startHour == a && runs[|runs| - 1].endHour == b
  }

  /** In a tiling every hour is found, in the one run that holds it. */
  lemma {:induction false} TilingLookup(runs: seq<Run>, a: int, b: int, hour: int)
    requires Tiles(runs, a, b) && a <= hour < b
    ensures FindRun(runs, hour).Some?
    ensures forall r | r in runs && r.startHour <= hour < r.endHour :: FindRun(runs, hour) == Some(r)
    decreases |runs|
  {
    var tail := runs[1..];
    assert runs == [runs[0]] + tail;
    if InRun(hour, runs[0]) {
      TilingStartsAfter(runs, a, b);
    } else {
      TilingLookup(tail, runs[0].endHour, b, hour);
    }
  }

  lemma {:induction false} TilingStartsAfter(runs: seq<Run>, a: int, b: int)
    requires Tiles(runs, a, b) && runs != []
    ensures forall k | 1 <= k < |runs| :: runs[0].endHour <= runs[k].startHour
    decreases |runs|
  {
    if |runs| > 1 {
      TilingStartsAfter(runs[1..], runs[1].startHour, b);
      assert forall k | 2 <= k < |runs| :: runs[k] == runs[1..][k - 1];
    }
  }

  // ---------------------------------------------------------------- specification

  predicate WellFormed(p: Period) {
    && p.days != [] && (forall d | d in p.days :: 0 <= d <= 6)
    && 0 <= p.startHH <= 23 && 1 <= p.endHH <= 24 && p.startHH < p.endHH
    && p.importRate.Finite? && p.importRate.v >= 0.0
    && (p.exportRate.Some? ==> p.exportRate.value == Finite(0.0))
    && (p.deliveryRate.Some? ==> p.deliveryRate.value.Finite? && p.deliveryRate.value.v >= 0.0)
  }

  predicate Covers(p: Period, d: int, h: int) {
    d in p.days && p.startHH <= h < p.endHH
  }

  function ImportOf(p: Period): real { if p.importRate.Finite? then p.importRate.v else 0.0 }

  function DeliveryOf(p: Period): real {
    if p.deliveryRate.Some? && p.deliveryRate.value.Finite? then p.deliveryRate.value.v else 0.0
  }

  /** How often the first `k` listed days of `p` claim the cell: a repeated day counts twice. */
  ghost function Claims(p: Period, k: nat, d: int, h: int): nat
    requires k <= |p.days|
  {
    if p.startHH <= h < p.endHH then multiset(p.days[..k])[d] else 0
  }

  ghost function Coverage(periods: seq<Period>, n: nat, d: int, h: int): nat
    requires n <= |periods|
  {
    if n == 0 then 0
    else Coverage(periods, n - 1, d, h) + Claims(periods[n - 1], |periods[n - 1].days|, d, h)
  }

  ghost predicate CoveredOnce(periods: seq<Period>) {
    forall d, h | 0 <= d < 7 && 0 <= h < 24 :: Coverage(periods, |periods|, d, h) == 1
  }

  ghost predicate NeverTwice(periods: seq<Period>) {
    forall d, h | 0 <= d < 7 && 0 <= h < 24 :: Coverage(periods, |periods|, d, h) <= 1
  }

  predicate AnyDelivery(periods: seq<Period>) {
    exists i | 0 <= i < |periods| :: periods[i].deliveryRate.Some?
  }

  /** The cost model is day-blind, so Sunday's owner of an hour must price it like any other day's. */
  ghost predicate DayInvariant(periods: seq<Period>) {
    forall d, h, i, k |
      0 <= d < 7 && 0 <= h < 24 && 0 <= i < |periods| && 0 <= k < |periods| &&
      Covers(periods[i], 0, h) && Covers(periods[k], d, h) ::
      && ImportOf(periods[i]) == ImportOf(periods[k])
      && periods[i].name == periods[k].name
      && DeliveryOf(periods[i]) == DeliveryOf(periods[k])
  }

  ghost predicate Acceptable(spec: Spec) {
    && spec.currency == "USD" && spec.periods != []
    && (forall p | p in spec.periods :: WellFormed(p))
    && CoveredOnce(spec.periods)
    && DayInvariant(spec.periods)
  }

  lemma {:induction false} CoverageMonotone(periods: seq<Period>, n: nat, m: nat, d: int, h: int)
    requires n <= m <= |periods|
    ensures Coverage(periods, n, d, h) <= Coverage(periods, m, d, h)
    decreases m
  {
    if n < m {
      CoverageMonotone(periods, n, m - 1, d, h);
    }
  }

  lemma ClaimsStep(p: Period, k: nat, d: int, h: int)
    requires k < |p.days|
    ensures Claims(p, k + 1, d, h) ==
            Claims(p, k, d, h) + if p.days[k] == d && p.startHH <= h < p.endHH then 1 else 0
    ensures Claims(p, |p.days|, d, h) >= Claims(p, k + 1, d, h)
  {
    assert p.days[..k + 1] == p.days[..k] + [p.days[k]];
    assert p.days[..|p.days|] == p.days[..k + 1] + p.days[k + 1..];
  }

  lemma ClaimsOfCover(p: Period, d: int, h: int)
    ensures Covers(p, d, h) <==> Claims(p, |p.days|, d, h) > 0
  {
    assert p.days[..|p.days|] == p.days;
    assert d in p.days <==> d in multiset(p.days);
  }

  /** Two periods covering one cell are two claims on it. */
  lemma {:induction false} UniqueOwner(periods: seq<Period>, n: nat, i: nat, k: nat, d: int, h: int)
    requires i < n <= |periods| && k < n && Coverage(periods, n, d, h) <= 1
    requires Covers(periods[i], d, h) && Covers(periods[k], d, h)
    ensures i == k
    decreases n
  {
    ClaimsOfCover(periods[i], d, h);
    ClaimsOfCover(periods[k], d, h);
    if i < n - 1 && k < n - 1 {
      UniqueOwner(periods, n - 1, i, k, d, h);
    } else if i < n - 1 {
      CoverageMonotone(periods, i + 1, n - 1, d, h);
    } else if k < n - 1 {
      CoverageMonotone(periods, k + 1, n - 1, d, h);
    }
  }

  // ---------------------------------------------------------------- grid

  /** Claims on a cell after `i` whole periods and `j` days of the next. */
  ghost function Count(periods: seq<Period>, i: nat, j: nat, d: int, h: int): nat
    requires i <= |periods| && (i < |periods| ==> j <= |periods[i].days|)
  {
    Coverage(periods, i, d, h) + if i < |periods| then Claims(periods[i], j, d, h) else 0
  }

  ghost predicate CellOk(c: Option<Cell>, periods: seq<Period>, count: nat, d: int, h: int) {
    && count <= 1 && (c.None? <==> count == 0)
    && (c.Some? ==>
          && c.value.owner < |periods| && Covers(periods[c.value.owner], d, h)
          && c.value.rate == ImportOf(periods[c.value.owner])
          && c.value.delivery == DeliveryOf(periods[c.value.owner])
          && c.value.name == periods[c.value.owner].name)
  }

  ghost predicate Filled(grid: array2<Option<Cell>>, periods: seq<Period>, i: nat, j: nat)
    reads grid
    requires grid.Length0 == 7 && grid.Length1 == 24
    requires i <= |periods| && (i < |periods| ==> j <= |periods[i].days|)
  {
    forall d, h | 0 <= d < 7 && 0 <= h < 24 :: CellOk(grid[d, h], periods, Count(periods, i, j, d, h), d, h)
  }

  /** Fills the hours of one listed day; fails on the first cell that is taken. */
  method FillDay(grid: array2<Option<Cell>>, periods: seq<Period>, i: nat, j: nat) returns (ok: bool)
    requires grid.Length0 == 7 && grid.Length1 == 24
    requires i < |periods| && WellFormed(periods[i]) && j < |periods[i].days|
    requires Filled(grid, periods, i, j)
    modifies grid
    ensures ok ==> Filled(grid, periods, i, j + 1)
    ensures !ok ==> exists h | 0 <= h < 24 :: Coverage(periods, |periods|, periods[i].days[j], h) >= 2
  {
    var p := periods[i];
    var day := p.days[j];
    assert day in p.days;
    forall d, h
      ensures Count(periods, i, j + 1, d, h) ==
              Count(periods, i, j, d, h) + if day == d && p.startHH <= h < p.endHH then 1 else 0
    {
      ClaimsStep(p, j, d, h);
    }
    for h := p.startHH to p.endHH
      invariant forall d, x | 0 <= d < 7 && 0 <= x < 24 && !(d == day && p.startHH <= x < h) ::
          grid[d, x] == old(grid[d, x])
      invariant forall x | p.startHH <= x < h ::
          old(grid[day, x]).None? && grid[day, x] == Some(Cell(ImportOf(p), DeliveryOf(p), p.name, i))
    {
      if grid[day, h].Some? {
        assert CellOk(old(grid[day, h]), periods, Count(periods, i, j, day, h), day, h);
        ClaimsStep(p, j, day, h);
        CoverageMonotone(periods, i + 1, |periods|, day, h);
        return false;
      }
      grid[day, h] := Some(Cell(ImportOf(p), DeliveryOf(p), p.name, i));
    }
    forall d, h | 0 <= d < 7 && 0 <= h < 24
      ensures CellOk(grid[d, h], periods, Count(periods, i, j + 1, d, h), d, h)
    {
      assert CellOk(old(grid[d, h]), periods, Count(periods, i, j, d, h), d, h);
    }
    return true;
  }

  /** Validates and grids every period. Fails exactly on a malformed period or a cell claimed twice. */
  method FillGrid(periods: seq<Period>) returns (grid: array2<Option<Cell>>, ok: bool)
    ensures grid.Length0 == 7 && grid.Length1 == 24
    ensures ok <==> (forall p | p in periods :: WellFormed(p)) && NeverTwice(periods)
    ensures ok ==> Filled(grid, periods, |periods|, 0)
  {
    grid := new Option<Cell>[7, 24]((_, _) => None);
    for i := 0 to |periods|
      invariant forall k | 0 <= k < i :: WellFormed(periods[k])
      invariant Filled(grid, periods, i, 0)
    {
      var p := periods[i];
      if !WellFormed(p) {
        assert p in periods;
        return grid, false;
      }
      for j := 0 to |p.days|
        invariant Filled(grid, periods, i, j)
      {
        ok := FillDay(grid, periods, i, j);
        if !ok {
          assert p.days[j] in p.days;
          return;
        }
      }
      assert forall d, h :: Count(periods, i, |p.days|, d, h) == Count(periods, i + 1, 0, d, h) by {
        assert i + 1 < |periods| ==> periods[i + 1].days[..0] == [];
      }
    }
    forall d, h | 0 <= d < 7 && 0 <= h < 24
      ensures Coverage(periods, |periods|, d, h) <= 1
    {
      assert CellOk(grid[d, h], periods, Count(periods, |periods|, 0, d, h), d, h);
    }
    return grid, true;
  }

  // ---------------------------------------------------------------- coalescing

  ghost predicate Differ(a: Run, b: Run) { a.rate != b.rate || a.name != b.name }

  ghost predicate FlatRow(row: seq<Cell>, rateOf: Cell -> real) {
    forall h, k | 0 <= h < |row| && 0 <= k < |row| :: rateOf(row[h]) == rateOf(row[k])
  }

  ghost predicate TopRate(row: seq<Cell>, rateOf: Cell -> real, h: int)
    requires 0 <= h < |row|
  {
    forall k | 0 <= k < |row| :: rateOf(row[k]) <= rateOf(row[h])
  }

  function RateAxis(c: Cell): real { c.rate }

  function DeliveryAxis(c: Cell): real { c.delivery }

  /** Runs that tile the first `upto` hours of the row, each with one rate and label, neighbours apart. */
  ghost predicate Coalesced(runs: seq<Run>, row: seq<Cell>, rateOf: Cell -> real, upto: nat) {
    && upto <= |row|
    && Tiles(runs, 0, upto)
    && (forall k | 0 <= k < |runs| - 1 :: Differ(runs[k], runs[k + 1]))
    && forall k | 0 <= k < |runs| :: Uniform(runs[k], row, rateOf)
  }

  ghost predicate Uniform(r: Run, row: seq<Cell>, rateOf: Cell -> real) {
    && 0 <= r.startHour <= r.endHour <= |row|
    && forall x | r.startHour <= x < r.endHour :: rateOf(row[x]) == r.rate && row[x].name == r.name
  }

  lemma CoalescedAppend(runs: seq<Run>, row: seq<Cell>, rateOf: Cell -> real, upto: nat, r: Run)
    requires Coalesced(runs, row, rateOf, upto)
    requires r.startHour == upto < r.endHour && Uniform(r, row, rateOf)
    requires runs != [] ==> Differ(runs[|runs| - 1], r)
    ensures Coalesced(runs + [r], row, rateOf, r.endHour)
  {
  }

  /** Every hour keeps its rate and its label. */
  lemma CoalescedLookup(runs: seq<Run>, row: seq<Cell>, rateOf: Cell -> real, h: int)
    requires |row| == 24 && Coalesced(runs, row, rateOf, 24) && 0 <= h < 24
    ensures FindRun(runs, h).Some?
    ensures FindRun(runs, h).value.rate == rateOf(row[h]) && FindRun(runs, h).value.name == row[h].name
  {
    TilingLookup(runs, 0, 24, h);
    var k :| 0 <= k < |runs| && runs[k] == FindRun(runs, h).value;
    assert Uniform(runs[k], row, rateOf) && InRun(h, runs[k]);
  }

  /** What the coalesced runs and the derived threshold mean. */
  lemma ModelMeaning(m: CostModel, row: seq<Cell>, rateOf: Cell -> real, maxRate: real, multiple: bool)
    requires |row| == 24 && Coalesced(m.runs, row, rateOf, 24)
    requires forall x | 0 <= x < 24 :: rateOf(row[x]) <= maxRate
    requires exists x | 0 <= x < 24 :: rateOf(row[x]) == maxRate
    requires multiple <==> exists x | 0 <= x < 24 :: rateOf(row[x]) != rateOf(row[0])
    requires m.peakThreshold == if multiple then maxRate else maxRate + 1.0
    ensures KeepsRow(m, row, rateOf)
  {
    forall h | 0 <= h < 24
      ensures FindRun(m.runs, h).Some?
      ensures FindRun(m.runs, h).value.rate == rateOf(row[h]) && FindRun(m.runs, h).value.name == row[h].name
    {
      CoalescedLookup(m.runs, row, rateOf, h);
    }
  }

  /** Every hour keeps its rate and label, and is peak exactly when it has the top rate of a row that
    * is not flat. */
  ghost predicate KeepsRow(m: CostModel, row: seq<Cell>, rateOf: Cell -> real)
    requires |row| == 24
  {
    forall h | 0 <= h < 24 ::
      && FindRun(m.runs, h).Some? && FindRun(m.runs, h).value.name == row[h].name
      && CurrentRate(m, h) == rateOf(row[h])
      && (IsPeakHour(m, h) <==> TopRate(row, rateOf, h) && !FlatRow(row, rateOf))
  }

  /** Merges a day's row into runs: the runs tile the day and neighbours differ. */
  method BuildModel(row: seq<Cell>, rateOf: Cell -> real) returns (m: CostModel)
    requires |row| == 24
    ensures Coalesced(m.runs, row, rateOf, 24)
    ensures KeepsRow(m, row, rateOf)
  {
    var runs: seq<Run> := [];
    var maxRate, firstRate, multiple, runStart := rateOf(row[0]), rateOf(row[0]), false, 0;
    for h := 1 to 25
      invariant if h == 25 then runStart == 24 else 0 <= runStart < h
      invariant Coalesced(runs, row, rateOf, runStart)
      invariant h < 25 ==> Uniform(Run(runStart, h, rateOf(row[runStart]), row[runStart].name), row, rateOf)
      invariant runs != [] && h < 25 ==>
          Differ(runs[|runs| - 1], Run(runStart, h, rateOf(row[runStart]), row[runStart].name))
      invariant forall x | 0 <= x < Min(h, 24) :: rateOf(row[x]) <= maxRate
      invariant exists x | 0 <= x < Min(h, 24) :: rateOf(row[x]) == maxRate
      invariant multiple <==> exists x | 0 <= x < Min(h, 24) :: rateOf(row[x]) != firstRate
    {
      if h < 24 {
        if rateOf(row[h]) > maxRate {
          maxRate := rateOf(row[h]);
        }
        if rateOf(row[h]) != firstRate {
          multiple := true;
        }
      }
      if h == 24 || rateOf(row[h]) != rateOf(row[runStart]) || row[h].name != row[runStart].name {
        var r := Run(runStart, h, rateOf(row[runStart]), row[runStart].name);
        CoalescedAppend(runs, row, rateOf, runStart, r);
        runs, runStart := runs + [r], h;
      }
    }
    m := CostModel(runs, maxRate, if multiple then maxRate else maxRate + 1.0);
    ModelMeaning(m, row, rateOf, maxRate, multiple);
  }

  /** What an accepted tariff charges, in terms of the spec alone. */
  ghost predicate Prices(t: Compiled, periods: seq<Period>) {
    forall d, h, i | 0 <= d < 7 && 0 <= h < 24 && 0 <= i < |periods| && Covers(periods[i], d, h) ::
      PricesHour(t, periods[i], h)
  }

  /** Hour h costs what period p says. */
  predicate PricesHour(t: Compiled, p: Period, h: int) {
    && p.importRate == Finite(CurrentRate(t.supply, h))
    && FindRun(t.supply.runs, h).Some? && FindRun(t.supply.runs, h).value.name == p.name
    && (t.delivery.Some? ==>
          if p.deliveryRate.Some? then p.deliveryRate.value == Finite(CurrentRate(t.delivery.value, h))
          else CurrentRate(t.delivery.value, h) == 0.0)
  }

  /** Runs tile the day and neighbours differ; peak hours have the top rate of at least two. */
  ghost predicate WellShaped(m: CostModel) {
    && Tiles(m.runs, 0, 24)
    && (forall k | 0 <= k < |m.runs| - 1 :: Differ(m.runs[k], m.runs[k + 1]))
    && forall h | 0 <= h < 24 ::
         IsPeakHour(m, h) <==>
           && (forall k | 0 <= k < 24 :: CurrentRate(m, k) <= CurrentRate(m, h))
           && exists k | 0 <= k < 24 :: CurrentRate(m, k) != CurrentRate(m, h)
  }

  lemma ModelShape(m: CostModel, row: seq<Cell>, rateOf: Cell -> real)
    requires |row| == 24 && Coalesced(m.runs, row, rateOf, 24) && KeepsRow(m, row, rateOf)
    ensures WellShaped(m)
  {
    forall h | 0 <= h < 24
      ensures IsPeakHour(m, h) <==>
                && (forall k | 0 <= k < 24 :: CurrentRate(m, k) <= CurrentRate(m, h))
                && exists k | 0 <= k < 24 :: CurrentRate(m, k) != CurrentRate(m, h)
    {
      assert (forall k | 0 <= k < 24 :: CurrentRate(m, k) <= CurrentRate(m, h)) <==> TopRate(row, rateOf, h);
      assert (forall k | 0 <= k < 24 :: CurrentRate(m, k) == CurrentRate(m, h)) <==> FlatRow(row, rateOf);
    }
  }

  /** A grid of exactly claimed cells that all days agree on. */
  ghost predicate Row(row: seq<Cell>, periods: seq<Period>) {
    && |row| == 24
    && forall d, h, i | 0 <= d < 7 && 0 <= h < 24 && 0 <= i < |periods| && Covers(periods[i], d, h) ::
          && row[h].rate == ImportOf(periods[i]) && row[h].delivery == DeliveryOf(periods[i])
          && row[h].name == periods[i].name
  }

  method CheckCoverage(grid: array2<Option<Cell>>, periods: seq<Period>) returns (ok: bool)
    requires grid.Length0 == 7 && grid.Length1 == 24 && Filled(grid, periods, |periods|, 0)
    ensures ok <==> CoveredOnce(periods)
    ensures ok ==> forall d, h | 0 <= d < 7 && 0 <= h < 24 :: grid[d, h].Some?
  {
    for d := 0 to 7
      invariant forall x, h | 0 <= x < d && 0 <= h < 24 :: grid[x, h].Some?
    {
      for h := 0 to 24
        invariant forall x | 0 <= x < h :: grid[d, x].Some?
      {
        if grid[d, h].None? {
          assert CellOk(grid[d, h], periods, Count(periods, |periods|, 0, d, h), d, h);
          return false;
        }
      }
    }
    forall d, h | 0 <= d < 7 && 0 <= h < 24
      ensures Coverage(periods, |periods|, d, h) == 1
    {
      assert CellOk(grid[d, h], periods, Count(periods, |periods|, 0, d, h), d, h);
    }
    return true;
  }

  lemma OwnerOf(grid: array2<Option<Cell>>, periods: seq<Period>, d: int, h: int, i: nat)
    requires grid.Length0 == 7 && grid.Length1 == 24 && Filled(grid, periods, |periods|, 0)
    requires 0 <= d < 7 && 0 <= h < 24 && grid[d, h].Some? && i < |periods|
    ensures Covers(periods[i], d, h) <==> grid[d, h].value.owner == i
    ensures grid[d, h].value.owner == i ==>
              && grid[d, h].value.rate == ImportOf(periods[i]) && grid[d, h].value.delivery == DeliveryOf(periods[i])
              && grid[d, h].value.name == periods[i].name
  {
    assert CellOk(grid[d, h], periods, Count(periods, |periods|, 0, d, h), d, h);
    if Covers(periods[i], d, h) {
      UniqueOwner(periods, |periods|, i, grid[d, h].value.owner, d, h);
    }
  }

  /** Compares every day with Sunday; Sunday's row then stands for all. */
  method CheckDays(grid: array2<Option<Cell>>, periods: seq<Period>, anyDelivery: bool)
    returns (ok: bool, row: seq<Cell>)
    requires grid.Length0 == 7 && grid.Length1 == 24 && Filled(grid, periods, |periods|, 0)
    requires forall d, h | 0 <= d < 7 && 0 <= h < 24 :: grid[d, h].Some?
    requires anyDelivery <==> AnyDelivery(periods)
    ensures ok <==> DayInvariant(periods)
    ensures ok ==> Row(row, periods)
  {
    row := seq(24, h requires 0 <= h < 24 && grid[0, h].Some? reads grid => grid[0, h].value);
    for h := 0 to 24
      invariant forall x, d | 0 <= x < h && 0 <= d < 7 :: Agrees(grid[d, x].value, row[x], anyDelivery)
    {
      for d := 1 to 7
        invariant forall x | 0 <= x < d :: Agrees(grid[x, h].value, row[h], anyDelivery)
      {
        if !Agrees(grid[d, h].value, row[h], anyDelivery) {
          OwnerOf(grid, periods, 0, h, row[h].owner);
          OwnerOf(grid, periods, d, h, grid[d, h].value.owner);
          return false, row;
        }
      }
    }
    forall d, h, i | 0 <= d < 7 && 0 <= h < 24 && 0 <= i < |periods| && Covers(periods[i], d, h)
      ensures row[h].rate == ImportOf(periods[i]) && row[h].delivery == DeliveryOf(periods[i])
      ensures row[h].name == periods[i].name
    {
      OwnerOf(grid, periods, d, h, i);
      OwnerOf(grid, periods, 0, h, row[h].owner);
      assert Agrees(grid[d, h].value, row[h], anyDelivery);
    }
    return true, row;
  }

  predicate Agrees(c: Cell, sunday: Cell, anyDelivery: bool) {
    c.rate == sunday.rate && c.name == sunday.name && (anyDelivery ==> c.delivery == sunday.delivery)
  }

  /** The models of such a row charge what the periods say. */
  lemma RowPrices(t: Compiled, row: seq<Cell>, periods: seq<Period>)
    requires |row| == 24 && Row(row, periods) && (forall p | p in periods :: WellFormed(p))
    requires KeepsRow(t.supply, row, RateAxis)
    requires t.delivery.Some? ==> KeepsRow(t.delivery.value, row, DeliveryAxis)
    ensures Prices(t, periods)
  {
    forall d, h, i | 0 <= d < 7 && 0 <= h < 24 && 0 <= i < |periods| && Covers(periods[i], d, h)
      ensures PricesHour(t, periods[i], h)
    {
      assert WellFormed(periods[i]) && row[h].rate == ImportOf(periods[i]);
      assert RateAxis(row[h]) == row[h].rate && DeliveryAxis(row[h]) == row[h].delivery;
    }
  }

  /** Accepts exactly the acceptable specs, and then prices every hour of every day as the one period
    * that covers it does. */
  method CompileTariff(spec: Spec) returns (r: Result)
    ensures r.Ok? <==> Acceptable(spec)
    ensures r.Ok? ==>
              && Prices(r.tariff, spec.periods)
              && WellShaped(r.tariff.supply) && (r.tariff.delivery.Some? ==> WellShaped(r.tariff.delivery.value))
              && (r.tariff.delivery.Some? <==> AnyDelivery(spec.periods))
              && r.tariff.currency == "USD"
              && r.tariff.fixedDaily == (if spec.fixedDaily.Some? then spec.fixedDaily.value else Finite(0.0))
  {
    if spec.currency != "USD" || spec.periods == [] {
      return Rejected;
    }
    var grid, ok := FillGrid(spec.periods);
    if !ok {
      return Rejected;
    }
    ok := CheckCoverage(grid, spec.periods);
    if !ok {
      return Rejected;
    }
    var anyDelivery := AnyDelivery(spec.periods);
    var row;
    ok, row := CheckDays(grid, spec.periods, anyDelivery);
    if !ok {
      return Rejected;
    }
    var supply := BuildModel(row, RateAxis);
    ModelShape(supply, row, RateAxis);
    var delivery: Option<CostModel> := None;
    if anyDelivery {
      var m := BuildModel(row, DeliveryAxis);
      ModelShape(m, row, DeliveryAxis);
      delivery := Some(m);
    }
    var fixed := if spec.fixedDaily.Some? then spec.fixedDaily.value else Finite(0.0);
    var compiled := Compiled(supply, delivery, fixed, spec.currency);
    RowPrices(compiled, row, spec.periods);
    r := Ok(compiled);
  }
}

/** Fixed-point watts: the ActivePower type of IEEE 2030.5 as encoded by the hub (cmd/hub/state.go) and
  * by the Modbus service (cmd/modbus/main.go). Watts are reals. */
module Watts {
  import opened Prelude

  /** value * 10^multiplier watts; `value` is an int16 on the wire. */
  datatype ActivePower = ActivePower(value: int, multiplier: nat)

  const MAX_MULTIPLIER: nat := 9

  predicate IsInt16(v: int) { -32768 <= v <= 32767 }

  predicate Fits(w: real) { -32768.0 <= w <= 32767.0 }

  /** Round half away from zero. */
  function Round(w: real): int {
    if w >= 0.0 then (w + 0.5).Floor else -(0.5 - w).Floor
  }

  function Abs(x: real): real { if x >= 0.0 then x else -x }

  /** v * 10^m. */
  function Raise(v: real, m: nat): real
    decreases m
  {
    if m == 0 then v else Raise(10.0 * v, m - 1)
  }

  /** w / 10^m. */
  function Lower(w: real, m: nat): real {
    if m == 0 then w else Lower(w, m - 1) / 10.0
  }

  function Decode(a: ActivePower): real { Raise(a.value as real, a.multiplier) }

  /** The first multiplier from `m` on at which the value fits, or the greatest one there is. */
  function Multiplier(w: real, m: nat, top: nat): nat
    requires m <= top
    decreases top - m
  {
    if m < top && !Fits(Lower(w, m)) then Multiplier(w, m + 1, top) else m
  }

  /** Both encodings for a greatest multiplier `top`; the code has MAX_MULTIPLIER. */
  function HubEncode(w: real, top: nat): ActivePower {
    var m := Multiplier(w, 0, top);
    ActivePower(Round(Lower(w, m)), m)
  }

  function ModbusEncode(w: real, top: nat): ActivePower {
    var v := if w < 0.0 then 0.0 else w;
    var m := Multiplier(v, 0, top);
    ActivePower(Round(if Lower(v, m) > 32767.0 then 32767.0 else Lower(v, m)), m)
  }

  method WattsToActivePower(watts: real) returns (a: ActivePower)
    ensures a == HubEncode(watts, 9)
  {
    var w, mult := watts, 0;
    while (w > 32767.0 || w < -32768.0) && mult < 9
      invariant mult <= 9 && w == Lower(watts, mult)
      invariant Multiplier(watts, mult, MAX_MULTIPLIER) == Multiplier(watts, 0, MAX_MULTIPLIER)
      decreases 9 - mult
    {
      w, mult := w / 10.0, mult + 1;
    }
    a := ActivePower(Round(w), mult);
  }

  method ActivePowerFromWatts(watts: real) returns (a: ActivePower)
    ensures a == ModbusEncode(watts, 9)
  {
    ghost var v := if watts < 0.0 then 0.0 else watts;
    var w, mult := if watts < 0.0 then 0.0 else watts, 0;
    while w > 32767.0 && mult < 9
      invariant 0.0 <= w && mult <= 9 && w == Lower(v, mult)
      invariant Multiplier(v, mult, MAX_MULTIPLIER) == Multiplier(v, 0, MAX_MULTIPLIER)
      decreases 9 - mult
    {
      w, mult := w / 10.0, mult + 1;
    }
    if w > 32767.0 {
      w := 32767.0;
    }
    a := ActivePower(Round(w), mult);
  }

  // ---------------------------------------------------------------- arithmetic

  lemma {:induction false} RaiseLower(w: real, m: nat)
    ensures Raise(Lower(w, m), m) == w
    decreases m
  {
    if m > 0 {
      RaiseLower(w, m - 1);
    }
  }

  lemma {:induction false} LowerRaise(v: real, m: nat)
    ensures Lower(Raise(v, m), m) == v
    decreases m
  {
    if m > 0 {
      LowerRaise(10.0 * v, m - 1);
      assert Lower(Raise(10.0 * v, m - 1), m - 1) == 10.0 * v;
    }
  }

  lemma {:induction false} RaiseMonotone(a: real, b: real, m: nat)
    requires a <= b
    ensures Raise(a, m) <= Raise(b, m)
    decreases m
  {
    if m > 0 {
      RaiseMonotone(10.0 * a, 10.0 * b, m - 1);
    }
  }

  lemma {:induction false} LowerMonotone(a: real, b: real, m: nat)
    requires a <= b
    ensures Lower(a, m) <= Lower(b, m)
    decreases m
  {
    if m > 0 {
      LowerMonotone(a, b, m - 1);
    }
  }

  /** An error of e in the last place is an error of e * 10^m in watts. */
  lemma {:induction false} RaiseError(a: real, b: real, e: real, m: nat)
    requires Abs(a - b) <= e
    ensures Abs(Raise(a, m) - Raise(b, m)) <= Raise(e, m)
    decreases m
  {
    if m > 0 {
      RaiseError(10.0 * a, 10.0 * b, 10.0 * e, m - 1);
    }
  }

  lemma RoundNear(w: real)
    ensures Abs(Round(w) as real - w) <= 0.5
    ensures Fits(w) ==> IsInt16(Round(w))
    ensures IsInt16(Round(w)) <==> -32768.5 < w < 32767.5
  {
  }

  /** Halves go away from zero. */
  lemma HalvesGoAway(n: nat)
    ensures Round(n as real + 0.5) == n + 1 && Round(-(n as real + 0.5)) == -(n + 1)
  {
  }

  lemma {:induction false} MultiplierIsLeast(w: real, m: nat, top: nat)
    requires m <= top
    ensures m <= Multiplier(w, m, top) <= top
    ensures forall k | m <= k < Multiplier(w, m, top) :: !Fits(Lower(w, k))
    ensures Fits(Lower(w, Multiplier(w, m, top))) || Multiplier(w, m, top) == top
    decreases top - m
  {
    if m < top && !Fits(Lower(w, m)) {
      MultiplierIsLeast(w, m + 1, top);
    }
  }

  /** What fits at one multiplier fits at every greater one. */
  lemma {:induction false} FitsFurther(w: real, k: nat, m: nat)
    requires k <= m && Fits(Lower(w, k))
    ensures Fits(Lower(w, m))
    decreases m - k
  {
    if k < m {
      FitsFurther(w, k + 1, m);
    }
  }

  // ---------------------------------------------------------------- encoders

  /** In range: at most 32767 * 10^top up and 32768 * 10^top down. */
  predicate InRange(w: real, top: nat) { Raise(-32768.0, top) <= w <= Raise(32767.0, top) }

  lemma InRangeFits(w: real, top: nat)
    ensures InRange(w, top) <==> Fits(Lower(w, top))
  {
    var v := Lower(w, top);
    RaiseLower(w, top);
    LowerRaise(32767.0, top);
    LowerRaise(-32768.0, top);
    if Raise(-32768.0, top) <= w <= Raise(32767.0, top) {
      LowerMonotone(w, Raise(32767.0, top), top);
      LowerMonotone(Raise(-32768.0, top), w, top);
    }
    if Fits(v) {
      RaiseMonotone(v, 32767.0, top);
      RaiseMonotone(-32768.0, v, top);
    }
  }

  /** The hub's encoding is within half of the last place, at the least multiplier that fits. */
  lemma HubEncodeError(w: real, top: nat)
    ensures var a := HubEncode(w, top);
            && a.multiplier <= top
            && Abs(Decode(a) - w) <= Raise(0.5, a.multiplier)
            && (forall k | 0 <= k < a.multiplier :: !Fits(Lower(w, k)))
  {
    MultiplierIsLeast(w, 0, top);
    var m := Multiplier(w, 0, top);
    RoundNear(Lower(w, m));
    RaiseLower(w, m);
    RaiseError(Round(Lower(w, m)) as real, Lower(w, m), 0.5, m);
  }

  /** Its value is an int16 exactly when the watts round into the range at the last multiplier. */
  lemma HubEncodeInRange(w: real, top: nat)
    ensures IsInt16(HubEncode(w, top).value) <==> -32768.5 < Lower(w, top) < 32767.5
    ensures InRange(w, top) ==> IsInt16(HubEncode(w, top).value) && Fits(Lower(w, HubEncode(w, top).multiplier))
  {
    MultiplierIsLeast(w, 0, top);
    InRangeFits(w, top);
    var m := Multiplier(w, 0, top);
    RoundNear(Lower(w, m));
    if Fits(Lower(w, m)) {
      FitsFurther(w, m, top);
    }
  }

  /** The encoders agree on every non-negative value in range; the Modbus one clamps the rest. */
  lemma EncodersAgree(w: real, top: nat)
    ensures w >= 0.0 && InRange(w, top) ==> ModbusEncode(w, top) == HubEncode(w, top)
    ensures w > Raise(32767.0, top) ==> ModbusEncode(w, top) == ActivePower(32767, top)
    ensures w <= 0.0 ==> ModbusEncode(w, top) == ActivePower(0, 0)
    ensures IsInt16(ModbusEncode(w, top).value)
  {
    var v := if w < 0.0 then 0.0 else w;
    MultiplierIsLeast(v, 0, top);
    InRangeFits(v, top);
    HubEncodeInRange(v, top);
    var m := Multiplier(v, 0, top);
    LowerMonotone(0.0, v, m);
    LowerOfZero(m);
    RoundNear(if Lower(v, m) > 32767.0 then 32767.0 else Lower(v, m));
    if w > Raise(32767.0, top) {
      if m < top {
        FitsFurther(v, m, top);
      }
      assert Round(32767.0) == 32767;
      LowerMonotone(Raise(32767.0, top), w, top);
      LowerRaise(32767.0, top);
    }
  }

  lemma {:induction false} LowerOfZero(m: nat)
    ensures Lower(0.0, m) == 0.0
    decreases m
  {
    if m > 0 {
      LowerOfZero(m - 1);
    }
  }

  // ---------------------------------------------------------------- battery command

  /** Export limit for discharge, import limit for charge. */
  datatype Control = Control(expLimW: Option<ActivePower>, impLimW: Option<ActivePower>)

  /** The setpoint a device reads back: export minus import. */
  function Signed(c: Control): real {
    (if c.expLimW.Some? then Decode(c.expLimW.value) else 0.0) -
    (if c.impLimW.Some? then Decode(c.impLimW.value) else 0.0)
  }

  function UnitOf(c: Control): nat {
    if c.expLimW.Some? then c.expLimW.value.multiplier
    else if c.impLimW.Some? then c.impLimW.value.multiplier else 0
  }

  method BattCommandToControl(setpointW: Option<real>) returns (c: Control)
    ensures setpointW.None? <==> c == Control(None, None)
    ensures setpointW.Some? ==>
              c.expLimW.Some? == (setpointW.value >= 0.0) && c.impLimW.Some? == (setpointW.value < 0.0)
    ensures setpointW.Some? && Abs(setpointW.value) <= Raise(32767.0, 9) ==>
              Abs(Signed(c) - setpointW.value) <= Raise(0.5, UnitOf(c))
  {
    if setpointW.None? {
      return Control(None, None);
    }
    var w := setpointW.value;
    if w >= 0.0 {
      var a := ActivePowerFromWatts(w);
      c := Control(Some(a), None);
    } else {
      var a := ActivePowerFromWatts(-w);
      c := Control(None, Some(a));
    }
    if Abs(w) <= Raise(32767.0, MAX_MULTIPLIER) {
      NonNegativeInRange(Abs(w), MAX_MULTIPLIER);
      EncodersAgree(Abs(w), MAX_MULTIPLIER);
      HubEncodeError(Abs(w), MAX_MULTIPLIER);
    }
  }

  lemma NonNegativeInRange(w: real, top: nat)
    requires 0.0 <= w <= Raise(32767.0, top)
    ensures InRange(w, top)
  {
    RaiseMonotone(-32768.0, 0.0, top);
    RaiseLower(0.0, top);
    LowerOfZero(top);
  }
}

/** Alarm and return-to-normal events (cmd/hub/logevent.go): per-device alarm bits under a rate floor, and
  * the site alarm fed by breach alerts. A bitfield is the set of its set bit positions. */
module AlarmEdges {
  import opened Prelude
  import opened EpisodeId
  import Episodes

  /** The parts a dedupe key is printed from. */
  datatype Key =
    | BitKey(device: string, code: nat, at: int, id: nat)
    | AlarmKey(episode: string)
    | RtnKey(episode: string)

  datatype LogEvent = LogEvent(device: string, code: nat, alarm: bool, id: nat, at: int, key: Key)

  datatype Mapped = Mapped(bit: nat, code: nat)

  /** Manual shutdown, over/under frequency, AC over/under voltage, in emission order. */
  const MAPPED := [Mapped(6, 14), Mapped(8, 6), Mapped(9, 8), Mapped(10, 2), Mapped(11, 4)]

  const EMERGENCY_REMOTE: nat := 16

  /** Alarm codes are even and their return-to-normal is the next code. */
  function Rtn(code: nat): nat { if code % 2 != 0 then code else code + 1 }

  // ---------------------------------------------------------------- one bit

  datatype BitState = BitState(reported: bool, last: Option<int>)

  datatype Observed = Observed(state: BitState, emitted: bool)

  /** One measurement of one bit: a change is reported unless the last event is younger than the floor. */
  function Observe(b: BitState, cur: bool, now: int, floor: nat): Observed {
    if cur == b.reported || (b.last.Some? && now - b.last.value < floor) then Observed(b, false)
    else Observed(BitState(cur, Some(now)), true)
  }

  datatype Sample = Sample(now: int, cur: bool)

  datatype Edge = Edge(alarm: bool, at: int)

  function After(b: BitState, ms: seq<Sample>, floor: nat): BitState
    decreases |ms|
  {
    if ms == [] then b else After(Observe(b, ms[0].cur, ms[0].now, floor).state, ms[1..], floor)
  }

  function Edges(b: BitState, ms: seq<Sample>, floor: nat): seq<Edge>
    decreases |ms|
  {
    if ms == [] then [] else
    var o := Observe(b, ms[0].cur, ms[0].now, floor);
    (if o.emitted then [Edge(ms[0].cur, ms[0].now)] else []) + Edges(o.state, ms[1..], floor)
  }

  /** Alarms and returns alternate, starting from the opposite of the baseline; the reported bit is the
    * baseline flipped once per event. */
  lemma {:induction false} EdgesAlternate(b: BitState, ms: seq<Sample>, floor: nat)
    ensures var es := Edges(b, ms, floor);
            && (forall k | 0 <= k < |es| :: es[k].alarm == (if k % 2 == 0 then !b.reported else b.reported))
            && After(b, ms, floor).reported == (if |es| % 2 == 0 then b.reported else !b.reported)
    decreases |ms|
  {
    if ms != [] {
      var o := Observe(b, ms[0].cur, ms[0].now, floor);
      EdgesAlternate(o.state, ms[1..], floor);
      var rest := Edges(o.state, ms[1..], floor);
      var es := Edges(b, ms, floor);
      if o.emitted {
        forall k | 0 <= k < |es|
          ensures es[k].alarm == (if k % 2 == 0 then !b.reported else b.reported)
        {
          if k > 0 {
            assert es[k] == rest[k - 1];
          }
        }
      } else {
        assert es == rest;
      }
    }
  }

  /** Events of a bit are at least the floor apart, whatever the clock does; the last one is remembered. */
  lemma {:induction false} EdgesSpaced(b: BitState, ms: seq<Sample>, floor: nat)
    ensures var es := Edges(b, ms, floor);
            && (forall k | 0 <= k < |es| - 1 :: es[k + 1].at - es[k].at >= floor)
            && (es != [] && b.last.Some? ==> es[0].at - b.last.value >= floor)
            && After(b, ms, floor).last == (if es == [] then b.last else Some(es[|es| - 1].at))
    decreases |ms|
  {
    if ms != [] {
      var o := Observe(b, ms[0].cur, ms[0].now, floor);
      EdgesSpaced(o.state, ms[1..], floor);
      var rest := Edges(o.state, ms[1..], floor);
      if o.emitted {
        var es := Edges(b, ms, floor);
        assert es == [Edge(ms[0].cur, ms[0].now)] + rest;
        forall k | 0 <= k < |es| - 1
          ensures es[k + 1].at - es[k].at >= floor
        {
          assert es[k + 1] == rest[k];
          if k > 0 {
            assert es[k] == rest[k - 1];
          }
        }
      } else {
        assert Edges(b, ms, floor) == rest;
      }
    }
  }

  /** After any measurement the reported bit is the measured one, unless its last event is younger than
    * the floor. */
  lemma {:induction false} LagIsBoundedByFloor(b: BitState, ms: seq<Sample>, floor: nat)
    requires ms != []
    ensures var a, m := After(b, ms, floor), ms[|ms| - 1];
            a.reported != m.cur ==> a.last.Some? && m.now - a.last.value < floor
    decreases |ms|
  {
    if |ms| > 1 {
      LagIsBoundedByFloor(Observe(b, ms[0].cur, ms[0].now, floor).state, ms[1..], floor);
    }
  }

  /** While the measured bit stays at `c` there is at most one event; once a measurement is past the floor
    * the change has been reported, exactly once. */
  lemma {:induction false} PersistentChangeEmittedOnce(b: BitState, ms: seq<Sample>, floor: nat, c: bool)
    requires forall k | 0 <= k < |ms| :: ms[k].cur == c
    ensures |Edges(b, ms, floor)| <= 1
    ensures b.reported == c ==> Edges(b, ms, floor) == []
    ensures (exists k | 0 <= k < |ms| :: b.last.None? || ms[k].now - b.last.value >= floor) && b.reported != c ==>
              |Edges(b, ms, floor)| == 1 && Edges(b, ms, floor)[0].alarm == c && After(b, ms, floor).reported == c
    decreases |ms|
  {
    if ms != [] {
      var o := Observe(b, ms[0].cur, ms[0].now, floor);
      PersistentChangeEmittedOnce(o.state, ms[1..], floor, c);
      EdgesAlternate(o.state, ms[1..], floor);
      if b.reported != c && !o.emitted &&
         exists k | 0 <= k < |ms| :: b.last.None? || ms[k].now - b.last.value >= floor {
        var k :| 0 <= k < |ms| && (b.last.None? || ms[k].now - b.last.value >= floor);
        assert ms[1..][k - 1] == ms[k];
      }
    }
  }

  // ---------------------------------------------------------------- the detector

  datatype DevValue = DevValue(reported: set<nat>, lastEmit: map<nat, int>)

  function BitOf(v: DevValue, bit: nat): BitState {
    BitState(bit in v.reported, if bit in v.lastEmit then Some(v.lastEmit[bit]) else None)
  }

  function BitEvent(device: string, m: Mapped, cur: bool, now: int, id: nat): LogEvent {
    var code := if cur then m.code else Rtn(m.code);
    LogEvent(device, code, cur, id, now, BitKey(device, code, now, id))
  }

  /** The events of one measurement: one per mapped bit that reports, numbered on from `count`. */
  function EventsOf(
    maps: seq<Mapped>, v: DevValue, bits: set<nat>, now: int, floor: nat, device: string, count: nat): seq<LogEvent>
  {
    if maps == [] then [] else
    var m := maps[|maps| - 1];
    var front := EventsOf(maps[..|maps| - 1], v, bits, now, floor, device, count);
    if Observe(BitOf(v, m.bit), m.bit in bits, now, floor).emitted
    then front + [BitEvent(device, m, m.bit in bits, now, (count + |front| + 1) % 65536)]
    else front
  }

  lemma EventsOfNext(
    maps: seq<Mapped>, i: nat, v: DevValue, bits: set<nat>, now: int, floor: nat, device: string, count: nat)
    requires i < |maps|
    ensures var m, front := maps[i], EventsOf(maps[..i], v, bits, now, floor, device, count);
            EventsOf(maps[..i + 1], v, bits, now, floor, device, count) ==
            if Observe(BitOf(v, m.bit), m.bit in bits, now, floor).emitted
            then front + [BitEvent(device, m, m.bit in bits, now, (count + |front| + 1) % 65536)] else front
  {
    assert maps[..i + 1][..i] == maps[..i];
  }

  predicate Lists(maps: seq<Mapped>, bit: nat) { exists k | 0 <= k < |maps| :: maps[k].bit == bit }

  predicate Distinct(maps: seq<Mapped>) {
    forall j, k | 0 <= j < k < |maps| :: maps[j].bit != maps[k].bit
  }

  /** What one measurement of one bit makes of a device. */
  function StepBit(v: DevValue, bit: nat, cur: bool, now: int, floor: nat): DevValue {
    if !Observe(BitOf(v, bit), cur, now, floor).emitted then v
    else DevValue(if bit in v.reported then v.reported - {bit} else v.reported + {bit}, v.lastEmit[bit := now])
  }

  function StepMapped(maps: seq<Mapped>, v: DevValue, bits: set<nat>, now: int, floor: nat): DevValue {
    if maps == [] then v else
    var bit := maps[|maps| - 1].bit;
    StepBit(StepMapped(maps[..|maps| - 1], v, bits, now, floor), bit, bit in bits, now, floor)
  }

  /** Bits outside the mapping carry no events and just follow the measurement. */
  function Track(maps: seq<Mapped>, v: DevValue, bits: set<nat>): DevValue {
    v.(reported := (set b | b in v.reported && Lists(maps, b)) + (set b | b in bits && !Lists(maps, b)))
  }

  function StepDevice(maps: seq<Mapped>, v: DevValue, bits: set<nat>, now: int, floor: nat): DevValue {
    Track(maps, StepMapped(maps, v, bits, now, floor), bits)
  }

  lemma StepBitOf(v: DevValue, bit: nat, cur: bool, now: int, floor: nat, b: nat)
    ensures BitOf(StepBit(v, bit, cur, now, floor), b) ==
            if b == bit then Observe(BitOf(v, b), cur, now, floor).state else BitOf(v, b)
  {
  }

  /** Every mapped bit steps on its own; no other bit is touched. */
  lemma {:induction false} StepMappedOf(maps: seq<Mapped>, v: DevValue, bits: set<nat>, now: int, floor: nat, b: nat)
    requires Distinct(maps)
    ensures BitOf(StepMapped(maps, v, bits, now, floor), b) ==
            if Lists(maps, b) then Observe(BitOf(v, b), b in bits, now, floor).state else BitOf(v, b)
    decreases |maps|
  {
    if maps != [] {
      var front, last := maps[..|maps| - 1], maps[|maps| - 1];
      StepMappedOf(front, v, bits, now, floor, b);
      StepBitOf(StepMapped(front, v, bits, now, floor), last.bit, last.bit in bits, now, floor, b);
      if b == last.bit {
        assert Lists(maps, b);
      } else {
        assert Lists(maps, b) <==> Lists(front, b) by {
          if k :| 0 <= k < |front| && front[k].bit == b {
            assert maps[k].bit == b;
          }
          if k :| 0 <= k < |maps| && maps[k].bit == b {
            assert front[k].bit == b;
          }
        }
      }
    }
  }

  class DevAlarmState {
    var reported: set<nat>
    var lastEmit: map<nat, int>

    constructor (reported: set<nat>)
      ensures Value() == DevValue(reported, map[])
    {
      this.reported, lastEmit := reported, map[];
    }

    function Value(): DevValue
      reads this
    {
      DevValue(reported, lastEmit)
    }

    method ObserveBit(bit: nat, cur: bool, now: int, floor: nat) returns (emitted: bool)
      modifies this
      ensures Observed(BitOf(Value(), bit), emitted) == Observe(BitOf(old(Value()), bit), cur, now, floor)
      ensures Value() == StepBit(old(Value()), bit, cur, now, floor)
    {
      var rep := bit in reported;
      if cur == rep {
        return false;
      }
      if bit in lastEmit && now - lastEmit[bit] < floor {
        return false;
      }
      lastEmit := lastEmit[bit := now];
      reported := if rep then reported - {bit} else reported + {bit};
      return true;
    }

    method TrackUnmapped(maps: seq<Mapped>, bits: set<nat>)
      modifies this`reported
      ensures Value() == Track(maps, old(Value()), bits)
    {
      reported := (set b | b in reported && Lists(maps, b)) + (set b | b in bits && !Lists(maps, b));
    }

    method ObserveMapped(maps: seq<Mapped>, device: string, bits: set<nat>, now: int, floor: nat, count: nat)
      returns (out: seq<LogEvent>)
      requires Distinct(maps)
      modifies this
      ensures out == EventsOf(maps, old(Value()), bits, now, floor, device, count)
      ensures Value() == StepMapped(maps, old(Value()), bits, now, floor)
    {
      ghost var v := Value();
      out := [];
      for i := 0 to |maps|
        invariant out == EventsOf(maps[..i], v, bits, now, floor, device, count)
        invariant Value() == StepMapped(maps[..i], v, bits, now, floor)
      {
        var cur := maps[i].bit in bits;
        assert maps[..i + 1][..i] == maps[..i];
        NotYetStepped(maps, i, v, bits, now, floor);
        var emitted := ObserveBit(maps[i].bit, cur, now, floor);
        EventsOfNext(maps, i, v, bits, now, floor, device, count);
        if emitted {
          out := out + [BitEvent(device, maps[i], cur, now, (count + |out| + 1) % 65536)];
        }
      }
      assert maps[..|maps|] == maps;
    }

    /** Every mapped bit steps on its own; every other bit follows the measurement. */
    method ObserveBits(maps: seq<Mapped>, device: string, bits: set<nat>, now: int, floor: nat, count: nat)
      returns (out: seq<LogEvent>)
      requires Distinct(maps)
      modifies this
      ensures out == EventsOf(maps, old(Value()), bits, now, floor, device, count)
      ensures Value() == StepDevice(maps, old(Value()), bits, now, floor)
      ensures forall b: nat | Lists(maps, b) ::
                BitOf(Value(), b) == Observe(BitOf(old(Value()), b), b in bits, now, floor).state
      ensures forall b: nat | !Lists(maps, b) :: b in reported <==> b in bits
    {
      ghost var v := Value();
      out := ObserveMapped(maps, device, bits, now, floor, count);
      TrackUnmapped(maps, bits);
      forall b: nat | Lists(maps, b)
        ensures BitOf(Value(), b) == Observe(BitOf(v, b), b in bits, now, floor).state
      {
        StepMappedOf(maps, v, bits, now, floor, b);
      }
    }
  }

  /** A mapped bit is untouched until its turn. */
  lemma NotYetStepped(maps: seq<Mapped>, i: nat, v: DevValue, bits: set<nat>, now: int, floor: nat)
    requires Distinct(maps) && i < |maps|
    ensures BitOf(StepMapped(maps[..i], v, bits, now, floor), maps[i].bit) == BitOf(v, maps[i].bit)
  {
    StepMappedOf(maps[..i], v, bits, now, floor, maps[i].bit);
  }

  datatype Detector = Detector(devices: map<string, DevValue>, latch: bool, count: nat)

  datatype Posted = Posted(state: Detector, events: seq<LogEvent>)

  /** The first measurement of a device is its baseline; every other one steps the device. */
  function Measure(d: Detector, device: string, bits: set<nat>, now: int, floor: nat): Posted {
    if device !in d.devices then Posted(d.(devices := d.devices[device := DevValue(bits, map[])]), []) else
    var out := EventsOf(MAPPED, d.devices[device], bits, now, floor, device, d.count);
    var v := StepDevice(MAPPED, d.devices[device], bits, now, floor);
    Posted(d.(devices := d.devices[device := v], count := (d.count + |out|) % 65536), out)
  }

  /** A second begin without an end is absorbed; an end always posts the return to normal. */
  function Alert(d: Detector, a: Episodes.Alert, now: int): Posted {
    var out := SiteEvents(d.latch, a, now, (d.count + 1) % 65536);
    Posted(d.(latch := LatchAfter(d.latch, a), count := (d.count + |out|) % 65536), out)
  }

  class LogEventDetector {
    const minInterval: nat
    var devices: map<string, DevAlarmState>
    var breachReported: bool
    var count: nat // the 16-bit event counter

    constructor (minInterval: nat)
      ensures Valid() && this.minInterval == minInterval && devices == map[] && !breachReported && count == 0
    {
      this.minInterval, devices, breachReported, count := minInterval, map[], false, 0;
    }

    ghost predicate Valid()
      reads this
    {
      && count < 65536
      && forall j, k | j in devices && k in devices && j != k :: devices[j] != devices[k]
    }

    function Value(): Detector
      reads this, devices.Values
    {
      Detector(map d | d in devices :: devices[d].Value(), breachReported, count)
    }

    lemma OneDeviceChanged(before: map<string, DevValue>, device: string)
      requires forall d :: d in devices <==> d in before || d == device
      requires forall d | d in before && d != device :: devices[d].Value() == before[d]
      ensures Value().devices == before[device := devices[device].Value()]
    {
    }

    /** The first measurement of a device is its baseline and reports nothing. */
    method MeasurementArrives(device: string, bits: set<nat>, now: int) returns (out: seq<LogEvent>)
      requires Valid()
      modifies this`devices, this`count, devices.Values
      ensures Valid() && forall s | s in devices.Values :: s in old(devices.Values) || fresh(s)
      ensures Posted(Value(), out) == Measure(old(Value()), device, bits, now, minInterval)
    {
      ghost var before := Value();
      if device !in devices {
        var d := new DevAlarmState(bits);
        devices := devices[device := d];
        OneDeviceChanged(before.devices, device);
        return [];
      }
      out := devices[device].ObserveBits(MAPPED, device, bits, now, minInterval, count);
      count := (count + |out|) % 65536;
      OneDeviceChanged(before.devices, device);
    }

    /** A second begin without an end is absorbed; an end always posts the return to normal. */
    method BreachAlertArrives(a: Episodes.Alert, now: int) returns (out: seq<LogEvent>)
      requires Valid()
      modifies this`breachReported, this`count
      ensures Valid() && devices == old(devices)
      ensures Posted(Value(), out) == Alert(old(Value()), a, now)
    {
      var key := if a.episode.NoEpisode? then a.mrid else Printed(a.episode);
      if a.Begin? {
        if breachReported {
          return [];
        }
        breachReported := true;
        count := (count + 1) % 65536;
        return [LogEvent("site", EMERGENCY_REMOTE, true, count, now, AlarmKey(key))];
      }
      breachReported := false;
      count := (count + 1) % 65536;
      return [LogEvent("site", Rtn(EMERGENCY_REMOTE), false, count, now, RtnKey(key))];
    }
  }

  // ---------------------------------------------------------------- the site alarm

  function LatchAfter(latch: bool, a: Episodes.Alert): bool { a.Begin? }

  function SiteEvents(latch: bool, a: Episodes.Alert, now: int, id: nat): seq<LogEvent> {
    var key := if a.episode.NoEpisode? then a.mrid else Printed(a.episode);
    if a.End? then [LogEvent("site", Rtn(EMERGENCY_REMOTE), false, id, now, RtnKey(key))]
    else if latch then []
    else [LogEvent("site", EMERGENCY_REMOTE, true, id, now, AlarmKey(key))]
  }

  /** The site events of an alert stream. */
  function Feed(latch: bool, alerts: seq<Episodes.Alert>, times: seq<int>, count: nat): seq<LogEvent>
    requires |alerts| == |times|
    decreases |alerts|
  {
    if alerts == [] then [] else
    var out := SiteEvents(latch, alerts[0], times[0], (count + 1) % 65536);
    out + Feed(LatchAfter(latch, alerts[0]), alerts[1..], times[1..], (count + |out|) % 65536)
  }
}

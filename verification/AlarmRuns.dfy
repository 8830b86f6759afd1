/** Runs of the log-event detector over interleaved measurements and breach alerts: what it posts for one bit of one
  * device is that bit's edge sequence, what it posts for the site follows the alerts, and every event has its number
  * and key. */
module AlarmRuns {
  import opened Prelude
  import opened AlarmEdges
  import opened EpisodeId
  import Episodes

  datatype Input =
    | Measured(device: string, bits: set<nat>, now: int)
    | Alerted(alert: Episodes.Alert, now: int)

  function Receive(d: Detector, i: Input, floor: nat): Posted {
    match i
    case Measured(device, bits, now) => Measure(d, device, bits, now, floor)
    case Alerted(a, now) => Alert(d, a, now)
  }

  /** Everything a detector posts over a run. */
  function Posts(d: Detector, ins: seq<Input>, floor: nat): seq<LogEvent>
    decreases |ins|
  {
    if ins == [] then [] else
    var p := Receive(d, ins[0], floor);
    p.events + Posts(p.state, ins[1..], floor)
  }

  // ---------------------------------------------------------------- one bit of one device

  predicate OfBit(e: LogEvent, device: string, m: Mapped) {
    e.device == device && e.code in {m.code, Rtn(m.code)}
  }

  /** The edges of a mapped bit among the events, an alarm under its own code and a return under the next. */
  function EdgesIn(events: seq<LogEvent>, device: string, m: Mapped): seq<Edge> {
    if events == [] then [] else
    var front, e := events[..|events| - 1], events[|events| - 1];
    EdgesIn(front, device, m) + if OfBit(e, device, m) then [Edge(e.code == m.code, e.at)] else []
  }

  /** What the device's measurements say about one bit. */
  function SamplesOf(ins: seq<Input>, device: string, bit: nat): seq<Sample> {
    if ins == [] then []
    else if ins[0].Measured? && ins[0].device == device
    then [Sample(ins[0].now, bit in ins[0].bits)] + SamplesOf(ins[1..], device, bit)
    else SamplesOf(ins[1..], device, bit)
  }

  /** The edges the samples call for; the first sample of an unknown device is its baseline. */
  function EdgesDue(d: Detector, device: string, bit: nat, ms: seq<Sample>, floor: nat): seq<Edge> {
    if device in d.devices then Edges(BitOf(d.devices[device], bit), ms, floor)
    else if ms == [] then []
    else Edges(BitState(ms[0].cur, None), ms[1..], floor)
  }

  lemma {:induction false} EdgesInConcat(a: seq<LogEvent>, b: seq<LogEvent>, device: string, m: Mapped)
    ensures EdgesIn(a + b, device, m) == EdgesIn(a, device, m) + EdgesIn(b, device, m)
    decreases |b|
  {
    if b == [] {
      assert a + b == a;
    } else {
      assert (a + b)[..|a + b| - 1] == a + b[..|b| - 1];
      EdgesInConcat(a, b[..|b| - 1], device, m);
    }
  }

  /** No two entries share a code, and no code is another one's return. */
  predicate DistinctCodes(maps: seq<Mapped>) {
    && (forall k | 0 <= k < |maps| :: maps[k].code % 2 == 0)
    && forall j, k | 0 <= j < k < |maps| :: maps[j].code != maps[k].code
  }

  lemma EdgesInSnoc(events: seq<LogEvent>, e: LogEvent, device: string, m: Mapped)
    ensures EdgesIn(events + [e], device, m) ==
            EdgesIn(events, device, m) + if OfBit(e, device, m) then [Edge(e.code == m.code, e.at)] else []
  {
    assert (events + [e])[..|events|] == events;
  }

  lemma EventOfBit(device: string, n: Mapped, cur: bool, now: int, id: nat, m: Mapped)
    requires m.code % 2 == 0 && n.code % 2 == 0 && (n.code == m.code ==> n == m)
    ensures OfBit(BitEvent(device, n, cur, now, id), device, m) <==> n == m
  {
  }

  lemma LastIsNotBefore(maps: seq<Mapped>, m: Mapped)
    requires DistinctCodes(maps) && maps != []
    ensures var front, last := maps[..|maps| - 1], maps[|maps| - 1];
            DistinctCodes(front) && (m in maps <==> m in front || m == last) && (last == m ==> m !in front)
  {
    var front, last := maps[..|maps| - 1], maps[|maps| - 1];
    assert maps == front + [last];
  }

  /** One measurement posts an edge of the bit exactly when the bit reports. */
  lemma {:induction false} EdgesOfMeasurement(
    maps: seq<Mapped>, v: DevValue, bits: set<nat>, now: int, floor: nat, device: string, count: nat, m: Mapped)
    requires DistinctCodes(maps) && m.code % 2 == 0
    requires forall k | 0 <= k < |maps| :: maps[k].code == m.code ==> maps[k] == m
    ensures EdgesIn(EventsOf(maps, v, bits, now, floor, device, count), device, m) ==
            if m in maps && Observe(BitOf(v, m.bit), m.bit in bits, now, floor).emitted
            then [Edge(m.bit in bits, now)] else []
    decreases |maps|
  {
    if maps != [] {
      var front, last := maps[..|maps| - 1], maps[|maps| - 1];
      LastIsNotBefore(maps, m);
      EdgesOfMeasurement(front, v, bits, now, floor, device, count, m);
      var before := EventsOf(front, v, bits, now, floor, device, count);
      var id := (count + |before| + 1) % 65536;
      EventOfBit(device, last, last.bit in bits, now, id, m);
      EdgesInSnoc(before, BitEvent(device, last, last.bit in bits, now, id), device, m);
    }
  }

  /** Events of another device are none of this bit's. */
  lemma {:induction false} EdgesElsewhere(
    maps: seq<Mapped>, v: DevValue, bits: set<nat>, now: int, floor: nat, device: string, count: nat, other: string,
    m: Mapped)
    requires other != device
    ensures EdgesIn(EventsOf(maps, v, bits, now, floor, device, count), other, m) == []
    decreases |maps|
  {
    if maps != [] {
      var front, last := maps[..|maps| - 1], maps[|maps| - 1];
      EdgesElsewhere(front, v, bits, now, floor, device, count, other, m);
      var before := EventsOf(front, v, bits, now, floor, device, count);
      EdgesInSnoc(before, BitEvent(device, last, last.bit in bits, now, (count + |before| + 1) % 65536), other, m);
    }
  }

  lemma MappedTable()
    ensures |MAPPED| == 5 && Distinct(MAPPED) && DistinctCodes(MAPPED)
    ensures forall k | 0 <= k < |MAPPED| :: MAPPED[k].code < EMERGENCY_REMOTE
  {
  }

  lemma MappedEntry(m: Mapped)
    requires m in MAPPED
    ensures m.code % 2 == 0 && m.code < EMERGENCY_REMOTE && Lists(MAPPED, m.bit)
    ensures forall k | 0 <= k < |MAPPED| :: MAPPED[k].code == m.code ==> MAPPED[k] == m
  {
    MappedTable();
    var i :| 0 <= i < |MAPPED| && MAPPED[i] == m;
    assert MAPPED[i].bit == m.bit;
  }

  lemma SiteCodes(latch: bool, a: Episodes.Alert, now: int, id: nat)
    ensures var out := SiteEvents(latch, a, now, id);
            |out| <= 1 && (out != [] ==> out[0].code in {EMERGENCY_REMOTE, EMERGENCY_REMOTE + 1})
  {
  }

  lemma NoEdge(events: seq<LogEvent>, device: string, m: Mapped)
    requires |events| <= 1 && (events != [] ==> !OfBit(events[0], device, m))
    ensures EdgesIn(events, device, m) == []
  {
    if events != [] {
      assert events[..0] == [];
    }
  }

  lemma StepOfSample(d: Detector, i: Input, floor: nat, device: string, bit: nat)
    requires Lists(MAPPED, bit) && device in d.devices
    ensures var v := Receive(d, i, floor).state.devices;
            && device in v
            && BitOf(v[device], bit) ==
               if i.Measured? && i.device == device
               then Observe(BitOf(d.devices[device], bit), bit in i.bits, i.now, floor).state
               else BitOf(d.devices[device], bit)
  {
    if i.Measured? && i.device == device {
      MappedTable();
      StepMappedOf(MAPPED, d.devices[device], i.bits, i.now, floor, bit);
    }
  }

  lemma EdgesOfInput(d: Detector, i: Input, floor: nat, device: string, m: Mapped)
    requires m in MAPPED
    ensures EdgesIn(Receive(d, i, floor).events, device, m) ==
            if i.Measured? && i.device == device && device in d.devices
               && Observe(BitOf(d.devices[device], m.bit), m.bit in i.bits, i.now, floor).emitted
            then [Edge(m.bit in i.bits, i.now)] else []
  {
    MappedTable();
    MappedEntry(m);
    match i
    case Alerted(a, now) =>
      // The site's events are no mapped bit's, even of a device called "site".
      SiteCodes(d.latch, a, now, (d.count + 1) % 65536);
      NoEdge(Receive(d, i, floor).events, device, m);
    case Measured(from, bits, now) =>
      if from in d.devices {
        if from == device {
          EdgesOfMeasurement(MAPPED, d.devices[from], bits, now, floor, from, d.count, m);
        } else {
          EdgesElsewhere(MAPPED, d.devices[from], bits, now, floor, from, d.count, device, m);
        }
      }
  }

  /** Over every run, whatever is interleaved, the events a detector posts for a mapped bit of a device are exactly
    * the edges of that bit's samples, so alternation, spacing, the lag bound and single emission hold of them. */
  lemma {:induction false} PostsAreEdges(d: Detector, ins: seq<Input>, floor: nat, device: string, m: Mapped)
    requires m in MAPPED
    ensures EdgesIn(Posts(d, ins, floor), device, m) == EdgesDue(d, device, m.bit, SamplesOf(ins, device, m.bit), floor)
    decreases |ins|
  {
    if ins != [] {
      var p := Receive(d, ins[0], floor);
      PostsAreEdges(p.state, ins[1..], floor, device, m);
      EdgesInConcat(p.events, Posts(p.state, ins[1..], floor), device, m);
      EdgesOfInput(d, ins[0], floor, device, m);
      if device in d.devices {
        MappedEntry(m);
        StepOfSample(d, ins[0], floor, device, m.bit);
      }
    }
  }

  // ---------------------------------------------------------------- numbers and keys

  /** Numbers run on from `count`. */
  predicate NumberedOn(es: seq<LogEvent>, count: nat) {
    forall k | 0 <= k < |es| :: es[k].id == (count + k + 1) % 65536
  }

  lemma NumberedMore(es: seq<LogEvent>, e: LogEvent, count: nat)
    requires NumberedOn(es, count) && e.id == (count + |es| + 1) % 65536
    ensures NumberedOn(es + [e], count)
  {
  }

  lemma {:induction false} EventsOfNumbered(
    maps: seq<Mapped>, v: DevValue, bits: set<nat>, now: int, floor: nat, device: string, count: nat)
    ensures NumberedOn(EventsOf(maps, v, bits, now, floor, device, count), count)
    decreases |maps|
  {
    if maps != [] {
      var front, m := EventsOf(maps[..|maps| - 1], v, bits, now, floor, device, count), maps[|maps| - 1];
      EventsOfNumbered(maps[..|maps| - 1], v, bits, now, floor, device, count);
      NumberedMore(front, BitEvent(device, m, m.bit in bits, now, (count + |front| + 1) % 65536), count);
    }
  }

  lemma ReceiveNumbers(d: Detector, i: Input, floor: nat)
    ensures var p := Receive(d, i, floor);
            NumberedOn(p.events, d.count) && p.state.count % 65536 == (d.count + |p.events|) % 65536
  {
    match i
    case Measured(device, bits, now) =>
      if device in d.devices {
        EventsOfNumbered(MAPPED, d.devices[device], bits, now, floor, device, d.count);
      }
    case Alerted(a, now) =>
      assert Receive(d, i, floor).events == SiteEvents(d.latch, a, now, (d.count + 1) % 65536);
  }

  lemma Modular(a: nat, b: nat, k: nat)
    requires a % 65536 == b % 65536
    ensures (a + k) % 65536 == (b + k) % 65536
  {
    assert a + k == (b + k) + 65536 * (a / 65536 - b / 65536);
  }

  lemma NumberedConcat(es: seq<LogEvent>, rest: seq<LogEvent>, count: nat, next: nat)
    requires NumberedOn(es, count) && NumberedOn(rest, next) && next % 65536 == (count + |es|) % 65536
    ensures NumberedOn(es + rest, count)
  {
    forall k | 0 <= k < |es + rest|
      ensures (es + rest)[k].id == (count + k + 1) % 65536
    {
      if k >= |es| {
        Modular(next, count + |es|, k - |es| + 1);
        assert (es + rest)[k] == rest[k - |es|];
      }
    }
  }

  /** Over every interleaving the events posted are numbered one after the other, modulo 65536. */
  lemma {:induction false} PostsAreNumbered(d: Detector, ins: seq<Input>, floor: nat)
    ensures var es := Posts(d, ins, floor); forall k | 0 <= k < |es| :: es[k].id == (d.count + k + 1) % 65536
    ensures NumberedOn(Posts(d, ins, floor), d.count)
    decreases |ins|
  {
    if ins != [] {
      var p := Receive(d, ins[0], floor);
      ReceiveNumbers(d, ins[0], floor);
      PostsAreNumbered(p.state, ins[1..], floor);
      NumberedConcat(p.events, Posts(p.state, ins[1..], floor), d.count, p.state.count);
    }
  }

  lemma Residues(a: nat, b: nat)
    requires a < b < a + 65536
    ensures a % 65536 != b % 65536
  {
    var p, q := a / 65536, b / 65536;
    assert a == 65536 * p + a % 65536 && b == 65536 * q + b % 65536;
  }

  lemma NumberedDiffer(es: seq<LogEvent>, count: nat, j: nat, k: nat)
    requires NumberedOn(es, count) && j < k < |es| && k - j < 65536
    ensures es[j].id != es[k].id
  {
    Residues(count + j + 1, count + k + 1);
  }

  /** No two of 65536 events in a row share a number. */
  lemma NumbersDiffer(d: Detector, ins: seq<Input>, floor: nat, j: nat, k: nat)
    requires j < k < |Posts(d, ins, floor)| && k - j < 65536
    ensures Posts(d, ins, floor)[j].id != Posts(d, ins, floor)[k].id
  {
    PostsAreNumbered(d, ins, floor);
    NumberedDiffer(Posts(d, ins, floor), d.count, j, k);
  }

  /** What an event says about itself: a device's event is keyed by its device, code, time and number, the site's by
    * its episode; even codes are alarms and odd ones returns. */
  predicate WellLabelled(e: LogEvent) {
    && (e.alarm <==> e.code % 2 == 0)
    && if e.code < 16 then e.key == BitKey(e.device, e.code, e.at, e.id)
       else e.device == "site" && (if e.alarm then e.key.AlarmKey? else e.key.RtnKey?)
  }

  predicate AllLabelled(es: seq<LogEvent>) {
    forall k | 0 <= k < |es| :: WellLabelled(es[k])
  }

  /** A device's events, all under codes below the site's. */
  predicate DeviceEvents(es: seq<LogEvent>) {
    forall k | 0 <= k < |es| :: es[k].code < 16
  }

  lemma BitEventLabelled(device: string, m: Mapped, cur: bool, now: int, id: nat)
    requires m.code % 2 == 0 && m.code < 16
    ensures var e := BitEvent(device, m, cur, now, id); WellLabelled(e) && e.code < 16
  {
  }

  lemma {:induction false} EventsOfLabelled(
    maps: seq<Mapped>, v: DevValue, bits: set<nat>, now: int, floor: nat, device: string, count: nat)
    requires forall k | 0 <= k < |maps| :: maps[k].code % 2 == 0 && maps[k].code < 16
    ensures var out := EventsOf(maps, v, bits, now, floor, device, count); AllLabelled(out) && DeviceEvents(out)
    decreases |maps|
  {
    if maps != [] {
      var front, m := EventsOf(maps[..|maps| - 1], v, bits, now, floor, device, count), maps[|maps| - 1];
      EventsOfLabelled(maps[..|maps| - 1], v, bits, now, floor, device, count);
      BitEventLabelled(device, m, m.bit in bits, now, (count + |front| + 1) % 65536);
    }
  }

  lemma ReceiveLabels(d: Detector, i: Input, floor: nat)
    ensures AllLabelled(Receive(d, i, floor).events)
    ensures i.Measured? ==> DeviceEvents(Receive(d, i, floor).events)
  {
    if i.Measured? && i.device in d.devices {
      MappedTable();
      EventsOfLabelled(MAPPED, d.devices[i.device], i.bits, i.now, floor, i.device, d.count);
    }
  }

  lemma {:induction false} PostsAreLabelled(d: Detector, ins: seq<Input>, floor: nat)
    ensures AllLabelled(Posts(d, ins, floor))
    decreases |ins|
  {
    if ins != [] {
      ReceiveLabels(d, ins[0], floor);
      PostsAreLabelled(Receive(d, ins[0], floor).state, ins[1..], floor);
    }
  }

  /** "%s/c%d@%d#%d" */
  function KeyText(key: Key): string
    requires key.BitKey?
  {
    key.device + "/c" + Decimal(key.code) + "@" + DecimalInt(key.at) + "#" + Decimal(key.id)
  }

  /** Hence no two device events among 65536 events in a row print the same key, whatever the devices are called. */
  lemma KeysDiffer(d: Detector, ins: seq<Input>, floor: nat, j: nat, k: nat)
    requires var es := Posts(d, ins, floor); j < k < |es| && k - j < 65536 && es[j].code < 16 && es[k].code < 16
    ensures var es := Posts(d, ins, floor);
            es[j].key.BitKey? && es[k].key.BitKey? && KeyText(es[j].key) != KeyText(es[k].key)
  {
    NumbersDiffer(d, ins, floor, j, k);
    PostsAreLabelled(d, ins, floor);
    var a, b := Posts(d, ins, floor)[j].key, Posts(d, ins, floor)[k].key;
    if KeyText(a) == KeyText(b) {
      DecimalValue(a.id);
      DecimalValue(b.id);
      LastSeparator(a.device + "/c" + Decimal(a.code) + "@" + DecimalInt(a.at), Decimal(a.id),
                    b.device + "/c" + Decimal(b.code) + "@" + DecimalInt(b.at), Decimal(b.id));
    }
  }

  // ---------------------------------------------------------------- the site

  datatype SiteEdge = SiteEdge(alarm: bool, at: int, key: Key)

  function SiteEdgesIn(events: seq<LogEvent>): seq<SiteEdge> {
    if events == [] then [] else
    var front, e := events[..|events| - 1], events[|events| - 1];
    SiteEdgesIn(front) + if e.code in {16, 17} then [SiteEdge(e.code == 16, e.at, e.key)] else []
  }

  /** What the alerts call for: a begin raises the alarm unless it stands, an end always posts the return, both under
    * the episode's ID, or the mRID where there is none. */
  function SiteEdgesDue(stands: bool, ins: seq<Input>): seq<SiteEdge>
    decreases |ins|
  {
    if ins == [] then []
    else if ins[0].Measured? then SiteEdgesDue(stands, ins[1..])
    else
      var a := ins[0].alert;
      var id := if a.episode.NoEpisode? then a.mrid else Printed(a.episode);
      if a.End? then [SiteEdge(false, ins[0].now, RtnKey(id))] + SiteEdgesDue(false, ins[1..])
      else (if stands then [] else [SiteEdge(true, ins[0].now, AlarmKey(id))]) + SiteEdgesDue(true, ins[1..])
  }

  lemma {:induction false} SiteEdgesInConcat(a: seq<LogEvent>, b: seq<LogEvent>)
    ensures SiteEdgesIn(a + b) == SiteEdgesIn(a) + SiteEdgesIn(b)
    decreases |b|
  {
    if b == [] {
      assert a + b == a;
    } else {
      assert (a + b)[..|a + b| - 1] == a + b[..|b| - 1];
      SiteEdgesInConcat(a, b[..|b| - 1]);
    }
  }

  lemma {:induction false} NoSiteEdges(events: seq<LogEvent>)
    requires DeviceEvents(events)
    ensures SiteEdgesIn(events) == []
    decreases |events|
  {
    if events != [] {
      NoSiteEdges(events[..|events| - 1]);
    }
  }

  lemma OneSiteEdge(events: seq<LogEvent>)
    requires |events| == 1
    ensures var e := events[0];
            SiteEdgesIn(events) == if e.code in {16, 17} then [SiteEdge(e.code == 16, e.at, e.key)] else []
  {
    assert events[..0] == [];
  }

  /** Over every interleaving the site's events follow the alerts, whatever is measured in between. */
  lemma {:induction false} SitePostsFollowAlerts(d: Detector, ins: seq<Input>, floor: nat)
    ensures SiteEdgesIn(Posts(d, ins, floor)) == SiteEdgesDue(d.latch, ins)
    decreases |ins|
  {
    if ins != [] {
      var p := Receive(d, ins[0], floor);
      SitePostsFollowAlerts(p.state, ins[1..], floor);
      SiteEdgesInConcat(p.events, Posts(p.state, ins[1..], floor));
      if ins[0].Measured? {
        ReceiveLabels(d, ins[0], floor);
        NoSiteEdges(p.events);
      } else if p.events != [] {
        OneSiteEdge(p.events);
      }
    }
  }
}

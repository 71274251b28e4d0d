/** The network sampler of src/data/network.rs: per-interface byte counters
    and the bytes-per-second rates between two cycles.

    The host library's interface list is an input: one sample per interface,
    with distinct names (the library keys interfaces by name), in the order
    the library yields them. The clock is an input in milliseconds. */
module Network {
  import opened Num

  /** One interface of the host library's list: its name and the values its
      `received()` and `transmitted()` return. */
  datatype InterfaceSample = InterfaceSample(name: string, received: u64, transmitted: u64)

  /** `(name, received, transmitted, rx_speed, tx_speed)` */
  datatype InterfaceEntry = InterfaceEntry(name: string, received: u64, transmitted: u64, rxSpeed: u64, txSpeed: u64)

  ghost predicate DistinctNames(snapshot: seq<InterfaceSample>)
  {
    forall i, j :: 0 <= i < j < |snapshot| ==> snapshot[i].name != snapshot[j].name
  }

  /** `unwrap_or(&0)`: an interface without a baseline has baseline zero. */
  function Baseline(m: map<string, u64>, key: string): u64
  {
    if key in m then m[key] else 0
  }

  /** The entry `update_networks` pushes for one interface: the counter growth
      (saturating, so a counter reset reads as zero) per second of elapsed time
      floored at one millisecond. */
  function EntryOf(sample: InterfaceSample, lastReceived: map<string, u64>, lastTransmitted: map<string, u64>,
                   elapsedMs: nat): InterfaceEntry
  {
    InterfaceEntry(sample.name, sample.received, sample.transmitted,
                   PerSecond(SatSub(sample.received, Baseline(lastReceived, sample.name)), elapsedMs),
                   PerSecond(SatSub(sample.transmitted, Baseline(lastTransmitted, sample.name)), elapsedMs))
  }

  function Entries(snapshot: seq<InterfaceSample>, lastReceived: map<string, u64>, lastTransmitted: map<string, u64>,
                   elapsedMs: nat): (r: seq<InterfaceEntry>)
    ensures |r| == |snapshot|
  {
    seq(|snapshot|, i requires 0 <= i < |snapshot| => EntryOf(snapshot[i], lastReceived, lastTransmitted, elapsedMs))
  }

  /** What each entry reports: the interface's own totals, and a zero rate for
      a counter that did not grow. */
  lemma EntriesMeaning(snapshot: seq<InterfaceSample>, lastReceived: map<string, u64>, lastTransmitted: map<string, u64>,
                       elapsedMs: nat, i: nat)
    requires i < |snapshot|
    ensures var e := Entries(snapshot, lastReceived, lastTransmitted, elapsedMs)[i];
      var s := snapshot[i];
      && e.name == s.name && e.received == s.received && e.transmitted == s.transmitted
      && (s.received <= Baseline(lastReceived, s.name) ==> e.rxSpeed == 0)
      && (s.transmitted <= Baseline(lastTransmitted, s.name) ==> e.txSpeed == 0)
  {
  }

  /** Below saturation the received rate is the floor of the growth per second. */
  lemma ReceiveRateIsFloor(sample: InterfaceSample, lastReceived: map<string, u64>, lastTransmitted: map<string, u64>,
                           elapsedMs: nat)
    requires sample.received >= Baseline(lastReceived, sample.name)
    requires (sample.received - Baseline(lastReceived, sample.name)) * 1000 / RateDivisorMs(elapsedMs) <= U64_MAX
    ensures var r := EntryOf(sample, lastReceived, lastTransmitted, elapsedMs).rxSpeed;
      var grown := sample.received - Baseline(lastReceived, sample.name);
      r * RateDivisorMs(elapsedMs) <= grown * 1000 < (r + 1) * RateDivisorMs(elapsedMs)
  {
    var grown := sample.received - Baseline(lastReceived, sample.name);
    var d := RateDivisorMs(elapsedMs);
    assert PerSecond(grown, elapsedMs) == PerSecond(grown, d);
    PerSecondIsFloor(grown, d);
  }

  /** Below saturation the transmitted rate is the floor of the growth per second. */
  lemma TransmitRateIsFloor(sample: InterfaceSample, lastReceived: map<string, u64>, lastTransmitted: map<string, u64>,
                            elapsedMs: nat)
    requires sample.transmitted >= Baseline(lastTransmitted, sample.name)
    requires (sample.transmitted - Baseline(lastTransmitted, sample.name)) * 1000 / RateDivisorMs(elapsedMs) <= U64_MAX
    ensures var r := EntryOf(sample, lastReceived, lastTransmitted, elapsedMs).txSpeed;
      var grown := sample.transmitted - Baseline(lastTransmitted, sample.name);
      r * RateDivisorMs(elapsedMs) <= grown * 1000 < (r + 1) * RateDivisorMs(elapsedMs)
  {
    var grown := sample.transmitted - Baseline(lastTransmitted, sample.name);
    var d := RateDivisorMs(elapsedMs);
    assert PerSecond(grown, elapsedMs) == PerSecond(grown, d);
    PerSecondIsFloor(grown, d);
  }

  /** `update_networks`: one entry per interface, in the library's order. */
  method UpdateNetworks(snapshot: seq<InterfaceSample>, lastReceived: map<string, u64>,
                        lastTransmitted: map<string, u64>, elapsedMs: nat) returns (interfaces: seq<InterfaceEntry>)
    ensures interfaces == Entries(snapshot, lastReceived, lastTransmitted, elapsedMs)
  {
    interfaces := [];
    for i := 0 to |snapshot|
      invariant |interfaces| == i
      invariant forall j :: 0 <= j < i ==> interfaces[j] == EntryOf(snapshot[j], lastReceived, lastTransmitted, elapsedMs)
    {
      var data := snapshot[i];
      var lastRx := Baseline(lastReceived, data.name);
      var lastTx := Baseline(lastTransmitted, data.name);
      var rxSpeed := PerSecond(SatSub(data.received, lastRx), elapsedMs);
      var txSpeed := PerSecond(SatSub(data.transmitted, lastTx), elapsedMs);
      interfaces := interfaces + [InterfaceEntry(data.name, data.received, data.transmitted, rxSpeed, txSpeed)];
    }
  }

  function ReceivedTotals(m: map<string, u64>, snapshot: seq<InterfaceSample>): map<string, u64>
  {
    if |snapshot| == 0 then m
    else
      var last := snapshot[|snapshot| - 1];
      ReceivedTotals(m, snapshot[..|snapshot| - 1])[last.name := last.received]
  }

  function TransmittedTotals(m: map<string, u64>, snapshot: seq<InterfaceSample>): map<string, u64>
  {
    if |snapshot| == 0 then m
    else
      var last := snapshot[|snapshot| - 1];
      TransmittedTotals(m, snapshot[..|snapshot| - 1])[last.name := last.transmitted]
  }

  /** After the baseline loop each listed interface's baselines are its
      current totals; an interface no longer listed keeps its old baselines. */
  lemma {:induction false} TotalsMeaning(m: map<string, u64>, t: map<string, u64>, snapshot: seq<InterfaceSample>, k: string)
    requires DistinctNames(snapshot)
    ensures k in ReceivedTotals(m, snapshot) <==> k in m || exists i :: 0 <= i < |snapshot| && snapshot[i].name == k
    ensures k in TransmittedTotals(t, snapshot) <==> k in t || exists i :: 0 <= i < |snapshot| && snapshot[i].name == k
    ensures forall i :: 0 <= i < |snapshot| && snapshot[i].name == k ==>
      ReceivedTotals(m, snapshot)[k] == snapshot[i].received && TransmittedTotals(t, snapshot)[k] == snapshot[i].transmitted
    ensures (forall i :: 0 <= i < |snapshot| ==> snapshot[i].name != k) ==>
      (k in m ==> ReceivedTotals(m, snapshot)[k] == m[k]) && (k in t ==> TransmittedTotals(t, snapshot)[k] == t[k])
  {
    if |snapshot| > 0 {
      var front := snapshot[..|snapshot| - 1];
      forall i | 0 <= i < |front| ensures front[i] == snapshot[i] { }
      TotalsMeaning(m, t, front, k);
    }
  }

  datatype NetworkState = NetworkState(interfaces: seq<InterfaceEntry>, lastUpdateMs: nat,
                                       lastReceived: map<string, u64>, lastTransmitted: map<string, u64>)

  /** The state `new` builds: rates against zero baselines over an elapsed
      time of zero, and the baselines left empty. */
  function Created(snapshot: seq<InterfaceSample>, nowMs: nat): NetworkState
  {
    NetworkState(Entries(snapshot, map[], map[], 0), nowMs, map[], map[])
  }

  /** One call of `update`: entries against the previous baselines, then the
      baselines set to this cycle's totals and the clock moved. */
  function Step(s: NetworkState, snapshot: seq<InterfaceSample>, nowMs: nat): NetworkState
  {
    NetworkState(Entries(snapshot, s.lastReceived, s.lastTransmitted, ElapsedMs(s.lastUpdateMs, nowMs)), nowMs,
                 ReceivedTotals(s.lastReceived, snapshot), TransmittedTotals(s.lastTransmitted, snapshot))
  }

  /** Two consecutive updates: an interface present in both reports the growth
      of its counters between them over the time between them. */
  lemma ConsecutiveRates(s: NetworkState, first: seq<InterfaceSample>, t1: nat,
                         second: seq<InterfaceSample>, t2: nat, i: nat, j: nat)
    requires DistinctNames(first)
    requires i < |first| && j < |second| && first[i].name == second[j].name
    ensures var e := Step(Step(s, first, t1), second, t2).interfaces[j];
      && e.rxSpeed == PerSecond(SatSub(second[j].received, first[i].received), ElapsedMs(t1, t2))
      && e.txSpeed == PerSecond(SatSub(second[j].transmitted, first[i].transmitted), ElapsedMs(t1, t2))
  {
    TotalsMeaning(s.lastReceived, s.lastTransmitted, first, first[i].name);
  }

  /** The first update after `new` measures each interface's whole counter:
      `new` leaves the baselines empty. */
  lemma FirstUpdateRates(first: seq<InterfaceSample>, t0: nat, t1: nat, j: nat)
    requires j < |first|
    ensures var e := Step(Created(first, t0), first, t1).interfaces[j];
      e.rxSpeed == PerSecond(first[j].received, ElapsedMs(t0, t1)) &&
      e.txSpeed == PerSecond(first[j].transmitted, ElapsedMs(t0, t1))
  {
  }

  /** An interface whose counters went backwards (a driver reload) reports zero. */
  lemma CounterResetRate(s: NetworkState, snapshot: seq<InterfaceSample>, nowMs: nat, j: nat)
    requires j < |snapshot| && snapshot[j].name in s.lastReceived
    requires snapshot[j].received <= s.lastReceived[snapshot[j].name]
    ensures Step(s, snapshot, nowMs).interfaces[j].rxSpeed == 0
  {
  }

  class NetworkData {
    var interfaces: seq<InterfaceEntry>
    var lastUpdateMs: nat
    var lastReceived: map<string, u64>
    var lastTransmitted: map<string, u64>

    function State(): NetworkState
      reads this
    {
      NetworkState(interfaces, lastUpdateMs, lastReceived, lastTransmitted)
    }

    /** `NetworkData::new` (it cannot fail). */
    constructor (snapshot: seq<InterfaceSample>, nowMs: nat)
      ensures State() == Created(snapshot, nowMs)
    {
      var entries := UpdateNetworks(snapshot, map[], map[], 0);
      interfaces := entries;
      lastUpdateMs := nowMs;
      lastReceived := map[];
      lastTransmitted := map[];
    }

    /** `NetworkData::update` (it cannot fail). */
    method Update(snapshot: seq<InterfaceSample>, nowMs: nat)
      modifies this
      ensures State() == Step(old(State()), snapshot, nowMs)
    {
      interfaces := [];
      var elapsedMs := ElapsedMs(lastUpdateMs, nowMs);
      interfaces := UpdateNetworks(snapshot, lastReceived, lastTransmitted, elapsedMs);
      ghost var received0, transmitted0 := lastReceived, lastTransmitted;
      for i := 0 to |snapshot|
        invariant lastReceived == ReceivedTotals(received0, snapshot[..i])
        invariant lastTransmitted == TransmittedTotals(transmitted0, snapshot[..i])
        invariant interfaces == Entries(snapshot, received0, transmitted0, elapsedMs)
      {
        assert snapshot[..i + 1][..i] == snapshot[..i];
        var data := snapshot[i];
        lastReceived := lastReceived[data.name := data.received];
        lastTransmitted := lastTransmitted[data.name := data.transmitted];
      }
      assert snapshot[..|snapshot|] == snapshot;
      lastUpdateMs := nowMs;
    }
  }
}

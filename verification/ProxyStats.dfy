/**
 The proxy's counters and its rate sampler (internal/otlp/proxy_stats.go).

 Signals are numbered 0 (logs), 1 (spans) and 2 (metrics). Time is in seconds and
 rates are reals; 64-bit wrap-around and floating-point rounding are not modelled.
 */
module ProxyStats {

  const SIGNAL_COUNT := 3

  // One value per signal.
  type Counts = s: seq<int> | |s| == SIGNAL_COUNT witness [0, 0, 0]
  type Rates = s: seq<real> | |s| == SIGNAL_COUNT witness [0.0, 0.0, 0.0]

  datatype Snapshot = Snapshot(forwarded: Counts, failed: Counts, timestamp: real)

  datatype SnapshotWithRate = SnapshotWithRate(snapshot: Snapshot, rate: Rates)

  class Stats {
    var forwarded: array<int>
    var failed: array<int>

    ghost predicate Valid()
      reads this
    {
      forwarded.Length == failed.Length == SIGNAL_COUNT && forwarded != failed
    }

    constructor ()
      ensures Valid() && fresh(forwarded) && fresh(failed)
      ensures forwarded[..] == [0, 0, 0] && failed[..] == [0, 0, 0]
    {
      forwarded := new int[SIGNAL_COUNT](_ => 0);
      failed := new int[SIGNAL_COUNT](_ => 0);
    }

    method RecordForwarded(sig: int, n: int)
      requires Valid()
      modifies forwarded
      ensures forwarded[..] == Recorded(old(forwarded[..]), sig, n)
      ensures forall i :: 0 <= i < 3 ==> forwarded[i] == old(forwarded[i]) + if i == sig && n > 0 then n else 0
    {
      if sig < 0 || sig >= SIGNAL_COUNT || n <= 0 {
        return;
      }
      forwarded[sig] := forwarded[sig] + n;
    }

    method RecordFailed(sig: int, n: int)
      requires Valid()
      modifies failed
      ensures failed[..] == Recorded(old(failed[..]), sig, n)
      ensures forall i :: 0 <= i < 3 ==> failed[i] == old(failed[i]) + if i == sig && n > 0 then n else 0
    {
      if sig < 0 || sig >= SIGNAL_COUNT || n <= 0 {
        return;
      }
      failed[sig] := failed[sig] + n;
    }
  }

  /** A counter array after recording n for a signal; unknown signals and empty batches count nothing. */
  function Recorded(counts: Counts, sig: int, n: int): Counts {
    if 0 <= sig < SIGNAL_COUNT && n > 0 then counts[sig := counts[sig] + n] else counts
  }

  // ----- Sampling -----

  function RateAgainst(prev: Snapshot, cur: Snapshot, sig: nat): real
    requires sig < SIGNAL_COUNT
  {
    var dt := cur.timestamp - prev.timestamp;
    if dt > 0.0 then (cur.forwarded[sig] - prev.forwarded[sig]) as real / dt else 0.0
  }

  function RatesAgainst(prev: Snapshot, cur: Snapshot): Rates {
    [RateAgainst(prev, cur, 0), RateAgainst(prev, cur, 1), RateAgainst(prev, cur, 2)]
  }

  /** The sample taken at reading i of a run: its rates are against the reading before it. */
  function SampleAt(readings: seq<Snapshot>, i: nat): SnapshotWithRate
    requires i < |readings|
  {
    SnapshotWithRate(readings[i], if i == 0 then [0.0, 0.0, 0.0] else RatesAgainst(readings[i - 1], readings[i]))
  }

  function Samples(readings: seq<Snapshot>): seq<SnapshotWithRate> {
    seq(|readings|, i requires 0 <= i < |readings| => SampleAt(readings, i))
  }

  /** The last n elements, or all of them. */
  function LastN<T>(s: seq<T>, n: nat): seq<T> {
    if |s| <= n then s else s[|s| - n..]
  }

  class RateSampler {
    const stats: Stats
    const capacity: nat
    var window: seq<SnapshotWithRate>
    // Every reading of the counters so far.
    ghost var readings: seq<Snapshot>

    ghost predicate Valid()
      reads this, stats
    {
      capacity >= 1 && stats.Valid() && window == LastN(Samples(readings), capacity)
    }

    constructor (stats: Stats, capacity: int)
      requires stats.Valid()
      ensures Valid() && this.stats == stats && readings == []
      ensures this.capacity == if capacity < 1 then 1 else capacity
    {
      this.stats := stats;
      this.capacity := if capacity < 1 then 1 else capacity;
      window := [];
      readings := [];
    }

    /** The window stays the last `capacity` samples of the readings taken so far. */
    method Sample(now: real) returns (cur: SnapshotWithRate)
      requires Valid()
      modifies this
      ensures Valid() && readings == old(readings) + [cur.snapshot]
      ensures cur.snapshot == Snapshot(stats.forwarded[..], stats.failed[..], now)
      ensures window[|window| - 1] == cur
      ensures window == (if |old(window)| < capacity then old(window) else old(window)[1..]) + [cur]
      ensures old(window) == [] ==> cur.rate == [0.0, 0.0, 0.0]
    {
      var snapshot := Snapshot(stats.forwarded[..], stats.failed[..], now);
      NextSample(readings, snapshot, capacity);
      var rate := [0.0, 0.0, 0.0];
      if |window| > 0 {
        rate := Rate(window[|window| - 1].snapshot, snapshot);
      }
      cur := SnapshotWithRate(snapshot, rate);
      if |window| >= capacity {
        window := window[1..][..capacity - 1];
      }
      window := window + [cur];
      readings := readings + [snapshot];
    }

    method History() returns (out: seq<SnapshotWithRate>)
      requires Valid()
      ensures out == LastN(Samples(readings), capacity)
    {
      out := window;
    }
  }

  /** The rate loop of one sample. */
  method Rate(prev: Snapshot, cur: Snapshot) returns (rate: Rates)
    ensures rate == RatesAgainst(prev, cur)
  {
    rate := [0.0, 0.0, 0.0];
    var dt := cur.timestamp - prev.timestamp;
    if dt > 0.0 {
      for i := 0 to SIGNAL_COUNT
        invariant forall j :: 0 <= j < i ==> rate[j] == RateAgainst(prev, cur, j)
      {
        var delta := cur.forwarded[i] - prev.forwarded[i];
        rate := rate[i := delta as real / dt];
      }
    }
  }

  lemma NextSample(readings: seq<Snapshot>, cur: Snapshot, capacity: nat)
    requires capacity >= 1
    ensures var w := LastN(Samples(readings), capacity);
            var next := SampleAt(readings + [cur], |readings|);
            && (w == [] <==> readings == [])
            && (w != [] ==> next.rate == RatesAgainst(w[|w| - 1].snapshot, cur))
            && LastN(Samples(readings + [cur]), capacity) == (if |w| < capacity then w else w[1..]) + [next]
  {
    hide RatesAgainst;
    SamplesSnoc(readings, cur);
    LastNSnoc(Samples(readings), SampleAt(readings + [cur], |readings|), capacity);
  }

  lemma SamplesSnoc(readings: seq<Snapshot>, cur: Snapshot)
    ensures Samples(readings + [cur]) == Samples(readings) + [SampleAt(readings + [cur], |readings|)]
  {
    hide RatesAgainst;
    var longer := readings + [cur];
    forall i | 0 <= i < |readings| ensures SampleAt(longer, i) == SampleAt(readings, i) {
      assert longer[i] == readings[i] && (i > 0 ==> longer[i - 1] == readings[i - 1]);
    }
  }

  lemma LastNSnoc<T>(s: seq<T>, x: T, n: nat)
    requires n >= 1
    ensures LastN(s + [x], n) == (if |LastN(s, n)| < n then LastN(s, n) else LastN(s, n)[1..]) + [x]
  {
  }

  // ----- What the sparkline and the totals rely on -----

  /** Records accounted for by the rates of a window, its first entry excepted: rate times time, summed. */
  function Flow(w: seq<SnapshotWithRate>, sig: nat): real
    requires sig < SIGNAL_COUNT
  {
    if |w| < 2 then 0.0
    else
      var n := |w| - 1;
      Flow(w[..n], sig) + RateTimesTime(w[n].rate[sig], w[n - 1].snapshot, w[n].snapshot)
  }

  function RateTimesTime(rate: real, prev: Snapshot, cur: Snapshot): real {
    rate * (cur.timestamp - prev.timestamp)
  }

  /** Records counted between two entries whose clock did not advance. */
  function Lost(w: seq<SnapshotWithRate>, sig: nat): int
    requires sig < SIGNAL_COUNT
  {
    if |w| < 2 then 0
    else
      var n := |w| - 1;
      var prev, cur := w[n - 1].snapshot, w[n].snapshot;
      Lost(w[..n], sig) + if cur.timestamp <= prev.timestamp then cur.forwarded[sig] - prev.forwarded[sig] else 0
  }

  /** Every rate after the first entry is against the entry before it. */
  predicate Consecutive(w: seq<SnapshotWithRate>) {
    forall i :: 0 < i < |w| ==> w[i].rate == RatesAgainst(w[i - 1].snapshot, w[i].snapshot)
  }

  lemma WindowConsecutive(readings: seq<Snapshot>, capacity: nat)
    ensures Consecutive(LastN(Samples(readings), capacity))
  {
    hide RatesAgainst;
    var w := LastN(Samples(readings), capacity);
    var k := |readings| - |w|;
    forall i | 0 < i < |w| ensures w[i].rate == RatesAgainst(w[i - 1].snapshot, w[i].snapshot) {
      assert w[i] == SampleAt(readings, k + i) && w[i - 1] == SampleAt(readings, k + i - 1);
    }
  }

  /** One entry's rate: never negative on a growing counter, and times its interval it is
      the records of that interval, or none if the clock stood still. */
  lemma OneEntry(prev: Snapshot, cur: Snapshot, sig: nat)
    requires sig < SIGNAL_COUNT
    ensures RateTimesTime(RatesAgainst(prev, cur)[sig], prev, cur)
         == if cur.timestamp <= prev.timestamp then 0.0 else (cur.forwarded[sig] - prev.forwarded[sig]) as real
    ensures prev.forwarded[sig] <= cur.forwarded[sig] ==> RatesAgainst(prev, cur)[sig] >= 0.0
  {
    var delta, dt := cur.forwarded[sig] - prev.forwarded[sig], cur.timestamp - prev.timestamp;
    assert RatesAgainst(prev, cur)[sig] == RateAgainst(prev, cur, sig);
    if dt > 0.0 {
      assert delta as real / dt * dt == delta as real;
    }
  }

  /** Conservation: rates times time, and what a standing clock lost, add up to the growth of the counter. */
  lemma {:induction false} FlowConservation(w: seq<SnapshotWithRate>, sig: nat)
    requires Consecutive(w) && w != [] && sig < SIGNAL_COUNT
    ensures Flow(w, sig) + Lost(w, sig) as real == Growth(w, sig) as real
  {
    hide RatesAgainst, RateTimesTime;
    if |w| >= 2 {
      FlowConservation(w[..|w| - 1], sig);
      OneEntry(w[|w| - 2].snapshot, w[|w| - 1].snapshot, sig);
    }
  }

  /** What a counter grew by over a window. */
  function Growth(w: seq<SnapshotWithRate>, sig: nat): int
    requires sig < SIGNAL_COUNT && w != []
  {
    w[|w| - 1].snapshot.forwarded[sig] - w[0].snapshot.forwarded[sig]
  }

  /** The clock advanced between two readings, or nothing was counted. */
  predicate Timed(prev: Snapshot, cur: Snapshot, sig: nat)
    requires sig < SIGNAL_COUNT
  {
    prev.timestamp < cur.timestamp || cur.forwarded[sig] == prev.forwarded[sig]
  }

  predicate AllTimed(w: seq<SnapshotWithRate>, sig: nat)
    requires sig < SIGNAL_COUNT
  {
    forall i :: 0 < i < |w| ==> Timed(w[i - 1].snapshot, w[i].snapshot, sig)
  }

  /** Counts that do not go down from entry to entry. */
  predicate Growing(w: seq<SnapshotWithRate>, sig: nat)
    requires sig < SIGNAL_COUNT
  {
    forall i :: 0 < i < |w| ==> w[i - 1].snapshot.forwarded[sig] <= w[i].snapshot.forwarded[sig]
  }

  /** Rates are never negative, and they account for all records exactly when
      no record was counted under a clock that stood still. */
  lemma RatesAccountForAllIff(w: seq<SnapshotWithRate>, sig: nat)
    requires Consecutive(w) && w != [] && sig < SIGNAL_COUNT && Growing(w, sig)
    ensures forall i :: 0 < i < |w| ==> w[i].rate[sig] >= 0.0
    ensures Flow(w, sig) == Growth(w, sig) as real <==> AllTimed(w, sig)
  {
    hide RatesAgainst, Flow, Lost;
    FlowConservation(w, sig);
    LostIff(w, sig);
    forall i | 0 < i < |w| ensures w[i].rate[sig] >= 0.0 {
      OneEntry(w[i - 1].snapshot, w[i].snapshot, sig);
    }
  }

  lemma {:induction false} LostIff(w: seq<SnapshotWithRate>, sig: nat)
    requires sig < SIGNAL_COUNT && Growing(w, sig)
    ensures Lost(w, sig) >= 0
    ensures Lost(w, sig) == 0 <==> AllTimed(w, sig)
  {
    if |w| >= 2 {
      hide AllTimed;
      var n := |w| - 1;
      LostIff(w[..n], sig);
      AllTimedSnoc(w, sig);
    }
  }

  lemma AllTimedSnoc(w: seq<SnapshotWithRate>, sig: nat)
    requires sig < SIGNAL_COUNT && |w| >= 2
    ensures var n := |w| - 1;
            AllTimed(w, sig) <==> AllTimed(w[..n], sig) && Timed(w[n - 1].snapshot, w[n].snapshot, sig)
  {
    hide Timed;
    var n := |w| - 1;
    if AllTimed(w[..n], sig) {
      forall i | 0 < i < n ensures Timed(w[i - 1].snapshot, w[i].snapshot, sig) {
        assert w[..n][i] == w[i] && w[..n][i - 1] == w[i - 1];
      }
    }
  }

  // ----- Every run -----

  /** What happens to one proxy's counters and sampler, in any order. */
  datatype Activity = Forward(sig: int, n: int) | Fail(sig: int, n: int) | Read(now: real)

  datatype SamplerRun = SamplerRun(forwarded: Counts, failed: Counts, readings: seq<Snapshot>)

  function Next(r: SamplerRun, a: Activity): SamplerRun {
    match a
    case Forward(sig, n) => r.(forwarded := Recorded(r.forwarded, sig, n))
    case Fail(sig, n) => r.(failed := Recorded(r.failed, sig, n))
    case Read(now) => r.(readings := r.readings + [Snapshot(r.forwarded, r.failed, now)])
  }

  function RunOf(activities: seq<Activity>): SamplerRun {
    if activities == [] then SamplerRun([0, 0, 0], [0, 0, 0], [])
    else Next(RunOf(activities[..|activities| - 1]), activities[|activities| - 1])
  }

  /** The window that a sampler has after a run. */
  function WindowOf(activities: seq<Activity>, capacity: nat): seq<SnapshotWithRate> {
    LastN(Samples(RunOf(activities).readings), capacity)
  }

  /** Counters and sampler are in the state of a run. */
  ghost predicate InState(stats: Stats, sampler: RateSampler, r: SamplerRun)
    reads stats, stats.forwarded, stats.failed, sampler
  {
    && stats.Valid() && sampler.stats == stats && sampler.Valid()
    && stats.forwarded[..] == r.forwarded && stats.failed[..] == r.failed && sampler.readings == r.readings
  }

  method Perform(stats: Stats, sampler: RateSampler, a: Activity, ghost r: SamplerRun)
    requires InState(stats, sampler, r)
    modifies sampler, stats.forwarded, stats.failed
    ensures InState(stats, sampler, Next(r, a))
  {
    hide Recorded, LastN, Samples;
    match a
    case Forward(sig, n) => stats.RecordForwarded(sig, n);
    case Fail(sig, n) => stats.RecordFailed(sig, n);
    case Read(now) =>
      var _ := sampler.Sample(now);
  }

  /** Counters and sampler, driven by any activities, are in the state of the run. */
  method Drive(activities: seq<Activity>, capacity: int) returns (stats: Stats, sampler: RateSampler)
    ensures InState(stats, sampler, RunOf(activities))
    ensures sampler.window == WindowOf(activities, if capacity < 1 then 1 else capacity)
  {
    hide Next, LastN, Samples;
    stats := new Stats();
    sampler := new RateSampler(stats, capacity);
    for i := 0 to |activities|
      invariant fresh(sampler) && fresh(stats.forwarded) && fresh(stats.failed)
      invariant InState(stats, sampler, RunOf(activities[..i]))
      invariant sampler.capacity == if capacity < 1 then 1 else capacity
    {
      assert activities[..i + 1][..i] == activities[..i];
      Perform(stats, sampler, activities[i], RunOf(activities[..i]));
    }
    assert activities[..|activities|] == activities;
  }

  /** No reading shows a smaller count than an earlier one, and none a larger one than the counter. */
  predicate Ascending(r: SamplerRun, sig: nat)
    requires sig < SIGNAL_COUNT
  {
    && (forall i, j :: 0 <= i < j < |r.readings| ==> r.readings[i].forwarded[sig] <= r.readings[j].forwarded[sig])
    && (forall i :: 0 <= i < |r.readings| ==> r.readings[i].forwarded[sig] <= r.forwarded[sig])
  }

  lemma {:induction false} RunsAscend(activities: seq<Activity>, sig: nat)
    requires sig < SIGNAL_COUNT
    ensures Ascending(RunOf(activities), sig)
  {
    if activities != [] {
      RunsAscend(activities[..|activities| - 1], sig);
    }
  }

  /** Counters only go up, so every window of every run is Growing. */
  lemma WindowGrows(activities: seq<Activity>, capacity: nat, sig: nat)
    requires sig < SIGNAL_COUNT
    ensures Growing(WindowOf(activities, capacity), sig)
  {
    hide RunOf, RatesAgainst;
    RunsAscend(activities, sig);
    var readings, w := RunOf(activities).readings, WindowOf(activities, capacity);
    var k := |readings| - |w|;
    forall i | 0 < i < |w| ensures w[i - 1].snapshot.forwarded[sig] <= w[i].snapshot.forwarded[sig] {
      assert w[i].snapshot == readings[k + i] && w[i - 1].snapshot == readings[k + i - 1];
    }
  }

  /** In every run, whatever the clock does: the window's rates are never negative, and they
      account for all records that the window's counter grew by exactly when none of them
      was counted under a clock that stood still or went back. */
  lemma RunRates(activities: seq<Activity>, capacity: nat, sig: nat)
    requires sig < SIGNAL_COUNT && WindowOf(activities, capacity) != []
    ensures var w := WindowOf(activities, capacity);
            && (forall i :: 0 < i < |w| ==> w[i].rate[sig] >= 0.0)
            && Flow(w, sig) + Lost(w, sig) as real == Growth(w, sig) as real && Lost(w, sig) >= 0
            && (Flow(w, sig) == Growth(w, sig) as real <==> AllTimed(w, sig))
  {
    hide *;
    var w := WindowOf(activities, capacity);
    WindowOfConsecutive(activities, capacity);
    WindowGrows(activities, capacity, sig);
    FlowConservation(w, sig);
    LostIff(w, sig);
    RatesAccountForAllIff(w, sig);
  }

  lemma WindowOfConsecutive(activities: seq<Activity>, capacity: nat)
    ensures Consecutive(WindowOf(activities, capacity))
  {
    hide RunOf, Consecutive;
    WindowConsecutive(RunOf(activities).readings, capacity);
  }

  /** One record between two ticks at the same time: the counter grew, the rates say nothing. */
  lemma StandingClockLoses(capacity: nat)
    requires capacity >= 2
    ensures var w := WindowOf([Read(0.0), Forward(0, 1), Read(0.0)], capacity);
            |w| == 2 && Growth(w, 0) == 1 && Flow(w, 0) == 0.0
  {
    var activities := [Read(0.0), Forward(0, 1), Read(0.0)];
    var r0 := SamplerRun([0, 0, 0], [0, 0, 0], []);
    var first, second := Snapshot([0, 0, 0], [0, 0, 0], 0.0), Snapshot([1, 0, 0], [0, 0, 0], 0.0);
    assert activities[..2][..1][..0] == [] && activities[..2][..1] == [Read(0.0)];
    assert RunOf(activities[..2][..1]) == r0.(readings := [first]);
    assert RunOf(activities[..2]) == r0.(forwarded := [1, 0, 0], readings := [first]);
    assert RunOf(activities).readings == [first, second];
    var w := WindowOf(activities, capacity);
    assert w[1].rate[0] == RateAgainst(first, second, 0) == 0.0;
    assert Flow(w[..1], 0) == 0.0;
  }
}

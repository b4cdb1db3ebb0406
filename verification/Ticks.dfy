/**
 * Counters: the conversion of ticks, their sum over the tunnel processes, and the measurement (platform_linux.go,
 * platform_darwin.go, iperf.go).
 */
module Ticks {
  import opened Wrappers
  import opened Reports
  import opened WorkerSpec

  const UINT64: nat := 0x1_0000_0000_0000_0000
  const GIGA: nat := 1_000_000_000
  /** Up to this frequency the second product of the conversion fits into 64 bits, whatever the total. */
  const MAX_FREQUENCY: nat := 18_446_744_074

  /** What becomes of a result of unsigned 64-bit arithmetic. */
  function Wrap(n: int): (r: nat)
    ensures r < UINT64 && (0 <= n < UINT64 ==> r == n)
  {
    n % UINT64
  }

  /** total / ticks * 1e9 + total % ticks * 1e9 / ticks, each operation in 64 bits. */
  function Convert(total: nat, ticks: nat): nat
    requires ticks > 0
  {
    Combine(total / ticks * GIGA, total % ticks * GIGA, ticks)
  }

  function Combine(first: int, second: int, ticks: nat): nat
    requires ticks > 0
  {
    Wrap(Wrap(first) + Over(Wrap(second), ticks))
  }

  function Over(n: nat, ticks: nat): nat
    requires ticks > 0
  {
    n / ticks
  }

  lemma CombineSum(first: nat, second: nat, ticks: nat)
    requires ticks > 0 && first < UINT64
    ensures Combine(first, second, ticks) == Wrap(first + Over(Wrap(second), ticks))
  {
  }

  // ----- Division

  lemma Divide(n: nat, t: nat)
    requires t > 0
    ensures n == (n / t) * t + n % t && n % t < t
  {
  }

  lemma QuotientIs(n: nat, t: nat, q: nat, r: nat)
    requires t > 0 && n == q * t + r && r < t
    ensures n / t == q
  {
    Divide(n, t);
    var p := n / t;
    if p < q {
      Apart(p, q, t);
    } else if p > q {
      Apart(q, p, t);
    }
  }

  lemma Apart(p: nat, q: nat, t: nat)
    requires p < q && t > 0
    ensures q * t >= p * t + t
  {
    var d := q - p;
    assert q * t == p * t + d * t;
    AtLeastOnce(d, t);
  }

  lemma AtLeastOnce(d: nat, t: nat)
    requires d > 0
    ensures d * t >= t
  {
  }

  lemma AddMultiple(k: nat, t: nat, x: nat)
    requires t > 0
    ensures (k * t + x) / t == k + x / t
  {
    Divide(x, t);
    assert (k + x / t) * t == k * t + (x / t) * t;
    QuotientIs(k * t + x, t, k + x / t, x % t);
  }

  lemma QuotientRises(m: nat, n: nat, t: nat)
    requires t > 0 && m <= n
    ensures m / t <= n / t
  {
    Divide(m, t);
    Divide(n, t);
    if m / t > n / t {
      Apart(n / t, m / t, t);
    }
  }

  // ----- The conversion

  /** The number of nanoseconds in so many ticks. */
  function Nanoseconds(total: nat, ticks: nat): nat
    requires ticks > 0
  {
    total * GIGA / ticks
  }

  lemma SplitTotal(total: nat, ticks: nat)
    requires ticks > 0
    ensures Nanoseconds(total, ticks) == total / ticks * GIGA + total % ticks * GIGA / ticks
  {
    Divide(total, ticks);
    var q, r := total / ticks, total % ticks;
    assert total * GIGA == (q * GIGA) * ticks + r * GIGA;
    AddMultiple(q * GIGA, ticks, r * GIGA);
  }

  /** The second product never overflows, for any total, exactly up to the bound on the frequency. */
  lemma ProductFitsExactly(ticks: nat)
    requires 0 < ticks < UINT64
    ensures (forall total: nat :: total < UINT64 ==> total % ticks * GIGA < UINT64) <==> ticks <= MAX_FREQUENCY
  {
    if ticks <= MAX_FREQUENCY {
      forall total: nat | total < UINT64
        ensures total % ticks * GIGA < UINT64
      {
        Divide(total, ticks);
      }
    } else {
      var total := ticks - 1;
      QuotientIs(total, ticks, 0, total);
      assert total % ticks == total;
      assert total % ticks * GIGA >= UINT64;
    }
  }

  /** Up to that bound the conversion rounds the exact value down, as long as this fits into 64 bits. */
  lemma ConvertIsFloor(total: nat, ticks: nat)
    requires 0 < ticks <= MAX_FREQUENCY && total < UINT64 && Nanoseconds(total, ticks) < UINT64
    ensures Convert(total, ticks) == Nanoseconds(total, ticks)
  {
    SplitTotal(total, ticks);
    ProductFitsExactly(ticks);
    FloorParts(total / ticks * GIGA, total % ticks * GIGA, ticks);
  }

  lemma FloorParts(first: int, second: int, ticks: nat)
    requires ticks > 0 && 0 <= first && 0 <= second < UINT64 && first + second / ticks < UINT64
    ensures Combine(first, second, ticks) == first + second / ticks
  {
  }

  lemma CombineFails(product: nat, ticks: nat)
    requires 0 < ticks < UINT64 <= product && product / ticks < GIGA
    ensures Combine(0, product, ticks) < product / ticks
  {
    hide Wrap, Over, Combine;
    CombineSum(0, product, ticks);
    Lost(product, ticks);
    assert 0 + Over(Wrap(product), ticks) == Over(Wrap(product), ticks) < UINT64;
  }

  /** Beyond it, the conversion is wrong for a total whose exact value would fit. */
  lemma ConvertFails(ticks: nat)
    requires MAX_FREQUENCY < ticks < UINT64
    ensures Nanoseconds(ticks - 1, ticks) < UINT64 && Convert(ticks - 1, ticks) != Nanoseconds(ticks - 1, ticks)
  {
    hide Wrap, Combine;
    var total := ticks - 1;
    QuotientIs(total, ticks, 0, total);
    Divide(total, ticks);
    assert total % ticks == total;
    LessThanGiga(total, ticks);
    CombineFails(total * GIGA, ticks);
  }

  lemma LessThanGiga(total: nat, ticks: nat)
    requires total < ticks
    ensures total * GIGA / ticks < GIGA
  {
  }

  /** A wrapped product is short of a multiple of 2^64, so that its quotient is too small. */
  lemma Lost(product: nat, ticks: nat)
    requires 0 < ticks < UINT64 <= product
    ensures Over(Wrap(product), ticks) < product / ticks
  {
    var rest := product - ticks;
    assert Wrap(product) <= rest;
    QuotientRises(Wrap(product), rest, ticks);
    AddMultiple(1, ticks, rest);
  }

  /** So the conversion is right for every total whose value fits exactly when the frequency is within the bound. */
  lemma ConvertRightExactly(ticks: nat)
    requires 0 < ticks < UINT64
    ensures
      (forall total: nat :: total < UINT64 && Nanoseconds(total, ticks) < UINT64 ==> Convert(total, ticks) == Nanoseconds(total, ticks))
      <==> ticks <= MAX_FREQUENCY
  {
    hide Convert, Nanoseconds;
    if ticks <= MAX_FREQUENCY {
      forall total: nat | total < UINT64 && Nanoseconds(total, ticks) < UINT64
        ensures Convert(total, ticks) == Nanoseconds(total, ticks)
      {
        ConvertIsFloor(total, ticks);
      }
    } else {
      ConvertFails(ticks);
    }
  }

  /** A counter that does not go back does not go back in nanoseconds. */
  lemma ConvertRises(first: nat, last: nat, ticks: nat)
    requires 0 < ticks <= MAX_FREQUENCY && first <= last < UINT64 && Nanoseconds(last, ticks) < UINT64
    ensures Convert(first, ticks) <= Convert(last, ticks)
  {
    QuotientRises(first * GIGA, last * GIGA, ticks);
    ConvertIsFloor(first, ticks);
    ConvertIsFloor(last, ticks);
  }

  // ----- The snapshot over all tunnel processes

  datatype Counters = Counters(cpu: nat, energy: nat)

  function Total(readings: seq<Counters>): Counters {
    if readings == [] then Counters(0, 0)
    else
      var front, last := Total(readings[..|readings| - 1]), readings[|readings| - 1];
      Counters(front.cpu + last.cpu, front.energy + last.energy)
  }

  /** What the additions of takeSnapshot leave of the total. */
  function Snapped(readings: seq<Counters>): Counters {
    Counters(Wrap(Total(readings).cpu), Wrap(Total(readings).energy))
  }

  /** The loop of takeSnapshot, in 64 bits; a process whose counters cannot be read fails it. */
  method TakeSnapshot(readings: seq<Option<Counters>>) returns (total: Option<Counters>)
    ensures total.None? <==> None in readings
    ensures total.Some? ==>
      total.value == Snapped(seq(|readings|, i requires 0 <= i < |readings| && readings[i].Some? => readings[i].value))
  {
    var cpu, energy := 0, 0;
    ghost var values: seq<Counters> := [];
    for i := 0 to |readings|
      invariant None !in readings[..i]
      invariant |values| == i && forall j :: 0 <= j < i ==> readings[j] == Some(values[j])
      invariant cpu == Wrap(Total(values).cpu) && energy == Wrap(Total(values).energy)
    {
      assert readings[..i + 1] == readings[..i] + [readings[i]];
      match readings[i] {
        case None =>
          return None;
        case Some(reading) =>
          TotalNext(values, reading);
          WrapSum(Total(values).cpu, reading.cpu);
          WrapSum(Total(values).energy, reading.energy);
          cpu, energy := Wrap(cpu + reading.cpu), Wrap(energy + reading.energy);
          values := values + [reading];
      }
    }
    assert readings[..|readings|] == readings;
    assert values == seq(|readings|, i requires 0 <= i < |readings| && readings[i].Some? => readings[i].value);
    return Some(Counters(cpu, energy));
  }

  lemma TotalNext(values: seq<Counters>, last: Counters)
    ensures Total(values + [last]) == Counters(Total(values).cpu + last.cpu, Total(values).energy + last.energy)
  {
  }

  lemma WrapSum(a: nat, b: nat)
    ensures Wrap(Wrap(a) + b) == Wrap(a + b)
  {
  }

  predicate NotAbove(a: Counters, b: Counters) { a.cpu <= b.cpu && a.energy <= b.energy }

  /** No counter of any process goes back from the first readings to the last. */
  ghost predicate NoneGoesBack(first: seq<Counters>, last: seq<Counters>) {
    |first| == |last| && forall i :: 0 <= i < |first| ==> NotAbove(first[i], last[i])
  }

  lemma {:induction false} TotalRises(first: seq<Counters>, last: seq<Counters>)
    requires NoneGoesBack(first, last)
    ensures NotAbove(Total(first), Total(last))
  {
    if first != [] {
      TotalRises(first[..|first| - 1], last[..|last| - 1]);
    }
  }

  /** A sum of 64 bits falls exactly when what is added to it carries it over 2^64. */
  lemma FallsExactly(first: nat, last: nat)
    requires first <= last
    ensures Wrap(last) < Wrap(first) <==> Wrap(first) + Wrap(last - first) >= UINT64
  {
  }

  /**
   * Between two snapshots in which no counter goes back, a sum goes back if and only if the growth of all processes
   * together carries it over 2^64.
   */
  lemma SnapshotFallsExactly(first: seq<Counters>, last: seq<Counters>)
    requires NoneGoesBack(first, last)
    ensures NotAbove(Total(first), Total(last))
    ensures NotAbove(Snapped(first), Snapped(last)) <==>
      && Snapped(first).cpu + Wrap(Total(last).cpu - Total(first).cpu) < UINT64
      && Snapped(first).energy + Wrap(Total(last).energy - Total(first).energy) < UINT64
  {
    hide Wrap;
    TotalRises(first, last);
    FallsExactly(Total(first).cpu, Total(last).cpu);
    FallsExactly(Total(first).energy, Total(last).energy);
  }

  /** No sum that grows to this one can be above what 64 bits hold of it. */
  predicate Settled(sum: nat) { sum < UINT64 || Wrap(sum) == UINT64 - 1 }

  /** Some processes could have grown to these readings from any smaller total. */
  lemma {:induction false} GrownFrom(last: seq<Counters>, cpu: nat, energy: nat) returns (first: seq<Counters>)
    requires NotAbove(Counters(cpu, energy), Total(last))
    ensures NoneGoesBack(first, last) && Total(first) == Counters(cpu, energy)
  {
    if last == [] {
      first := [];
    } else {
      var n := |last| - 1;
      var rest := Total(last[..n]);
      var frontCpu, frontEnergy := if cpu < rest.cpu then cpu else rest.cpu, if energy < rest.energy then energy else rest.energy;
      var front := GrownFrom(last[..n], frontCpu, frontEnergy);
      var reading := Counters(cpu - frontCpu, energy - frontEnergy);
      TotalNext(front, reading);
      first := front + [reading];
      assert forall i :: 0 <= i < n ==> NotAbove(front[i], last[..n][i]);
    }
  }

  lemma SettledRises(first: nat, last: nat)
    requires first <= last && Settled(last)
    ensures Wrap(first) <= Wrap(last)
  {
  }

  /** From below an unsettled sum, the greatest number of 64 bits would fall to it. */
  lemma UnsettledFalls(sum: nat)
    requires !Settled(sum)
    ensures UINT64 - 1 <= sum && Wrap(sum) < Wrap(UINT64 - 1)
  {
  }

  /**
   * Whatever the earlier readings were, if no counter goes back then neither does the snapshot, if and only if both totals
   * of the later readings fit into 64 bits or leave the greatest number of 64 bits.
   */
  lemma SnapshotRisesExactly(last: seq<Counters>)
    ensures (forall first :: NoneGoesBack(first, last) ==> NotAbove(Snapped(first), Snapped(last)))
            <==> Settled(Total(last).cpu) && Settled(Total(last).energy)
  {
    hide Total, Wrap, Settled;
    var total := Total(last);
    if Settled(total.cpu) && Settled(total.energy) {
      forall first | NoneGoesBack(first, last)
        ensures NotAbove(Snapped(first), Snapped(last))
      {
        TotalRises(first, last);
        SettledRises(Total(first).cpu, total.cpu);
        SettledRises(Total(first).energy, total.energy);
      }
    } else {
      if !Settled(total.cpu) {
        UnsettledFalls(total.cpu);
        var first := GrownFrom(last, UINT64 - 1, 0);
        assert NoneGoesBack(first, last) && !NotAbove(Snapped(first), Snapped(last));
      } else {
        UnsettledFalls(total.energy);
        var first := GrownFrom(last, 0, UINT64 - 1);
        assert NoneGoesBack(first, last) && !NotAbove(Snapped(first), Snapped(last));
      }
    }
  }

  /** Two processes, one of which uses a nanosecond more, so that the snapshot goes back to zero. */
  lemma SnapshotCanFall()
    ensures
      var first := [Counters(UINT64 - 1, 0), Counters(0, 0)];
      var last := [Counters(UINT64 - 1, 0), Counters(1, 0)];
      NoneGoesBack(first, last) && Snapped(first).cpu == UINT64 - 1 && Snapped(last).cpu == 0
  {
    TotalNext([Counters(UINT64 - 1, 0)], Counters(0, 0));
    TotalNext([Counters(UINT64 - 1, 0)], Counters(1, 0));
    TotalNext([], Counters(UINT64 - 1, 0));
    assert [] + [Counters(UINT64 - 1, 0)] == [Counters(UINT64 - 1, 0)];
    assert [Counters(UINT64 - 1, 0)] + [Counters(0, 0)] == [Counters(UINT64 - 1, 0), Counters(0, 0)];
    assert [Counters(UINT64 - 1, 0)] + [Counters(1, 0)] == [Counters(UINT64 - 1, 0), Counters(1, 0)];
  }

  // ----- From the ticks of the processes to the snapshot

  /** What the kernel reports of a process. */
  datatype Usage = Usage(user: nat, system: nat, energy: nat)

  /** `readCounters`; the ticks are added in 64 bits as well. */
  function ReadCounters(usage: Usage, ticks: nat): Counters
    requires ticks > 0
  {
    Counters(Convert(Wrap(usage.user + usage.system), ticks), usage.energy)
  }

  function ReadAll(usages: seq<Usage>, ticks: nat): (readings: seq<Counters>)
    requires ticks > 0
    ensures |readings| == |usages|
  {
    seq(|usages|, i requires 0 <= i < |usages| => ReadCounters(usages[i], ticks))
  }

  /** The counters without any loss to 64 bits. */
  function Exact(usages: seq<Usage>, ticks: nat): (readings: seq<Counters>)
    requires ticks > 0
    ensures |readings| == |usages|
  {
    seq(|usages|, i requires 0 <= i < |usages| =>
      Counters(Nanoseconds(usages[i].user + usages[i].system, ticks), usages[i].energy))
  }

  predicate UsageNotAbove(a: Usage, b: Usage) { a.user <= b.user && a.system <= b.system && a.energy <= b.energy }

  /** The ticks of every process, and the nanoseconds and the energy of all processes together, fit into 64 bits. */
  ghost predicate Fits(usages: seq<Usage>, ticks: nat)
    requires ticks > 0
  {
    && (forall i :: 0 <= i < |usages| ==> usages[i].user + usages[i].system < UINT64)
    && Total(Exact(usages, ticks)).cpu < UINT64 && Total(Exact(usages, ticks)).energy < UINT64
  }

  lemma {:induction false} PartOfTotal(readings: seq<Counters>, i: nat)
    requires i < |readings|
    ensures NotAbove(readings[i], Total(readings))
  {
    if i < |readings| - 1 {
      PartOfTotal(readings[..|readings| - 1], i);
    }
  }

  lemma ReadIsExact(usages: seq<Usage>, ticks: nat)
    requires 0 < ticks <= MAX_FREQUENCY && Fits(usages, ticks)
    ensures ReadAll(usages, ticks) == Exact(usages, ticks) && Snapped(ReadAll(usages, ticks)) == Total(Exact(usages, ticks))
  {
    hide Convert, Nanoseconds, Total;
    forall i | 0 <= i < |usages|
      ensures ReadCounters(usages[i], ticks) == Exact(usages, ticks)[i]
    {
      PartOfTotal(Exact(usages, ticks), i);
      ConvertIsFloor(usages[i].user + usages[i].system, ticks);
    }
  }

  lemma ExactRises(first: seq<Usage>, last: seq<Usage>, ticks: nat)
    requires ticks > 0 && |first| == |last|
    requires forall i :: 0 <= i < |first| ==> UsageNotAbove(first[i], last[i])
    ensures NoneGoesBack(Exact(first, ticks), Exact(last, ticks))
  {
    forall i | 0 <= i < |first|
      ensures NotAbove(Exact(first, ticks)[i], Exact(last, ticks)[i])
    {
      TicksRise(first[i].user + first[i].system, last[i].user + last[i].system, ticks);
    }
  }

  lemma TicksRise(first: nat, last: nat, ticks: nat)
    requires ticks > 0 && first <= last
    ensures Nanoseconds(first, ticks) <= Nanoseconds(last, ticks)
  {
    QuotientRises(first * GIGA, last * GIGA, ticks);
  }

  /**
   * From ticks to snapshot: if the ticks and the energy of no process go back, and the later ones fit, then both snapshots
   * are the exact totals, rounded down for each process, and the second is not below the first.
   */
  lemma ProcessesRise(first: seq<Usage>, last: seq<Usage>, ticks: nat)
    requires 0 < ticks <= MAX_FREQUENCY && |first| == |last| && Fits(last, ticks)
    requires forall i :: 0 <= i < |first| ==> UsageNotAbove(first[i], last[i])
    ensures Snapped(ReadAll(first, ticks)) == Total(Exact(first, ticks))
    ensures Snapped(ReadAll(last, ticks)) == Total(Exact(last, ticks))
    ensures NotAbove(Snapped(ReadAll(first, ticks)), Snapped(ReadAll(last, ticks)))
  {
    hide Total, Snapped, Exact, ReadAll;
    ExactRises(first, last, ticks);
    TotalRises(Exact(first, ticks), Exact(last, ticks));
    assert forall i :: 0 <= i < |first| ==> UsageNotAbove(first[i], last[i]) && last[i].user + last[i].system < UINT64;
    ReadIsExact(first, ticks);
    ReadIsExact(last, ticks);
  }

  // ----- The measurement

  function CounterOf(metric: Metric, snapshot: Snapshot): nat {
    if metric == Energy then snapshot.energyNanojoules else snapshot.cpuNanoseconds
  }

  /**
   * A measurement is made exactly when time has passed, something was received, and the counter of the metric has
   * advanced. It says for how long, how much, and how far, and it never makes a report illegal.
   */
  lemma MeasurementExactly(before: Snapshot, after: Snapshot, received: nat, metric: Metric)
    ensures
      var sample := CalculateMeasurement(before, after, received, metric);
      && (sample.Some? <==> before.at < after.at && received > 0 && CounterOf(metric, before) < CounterOf(metric, after))
      && (sample.Some? ==>
            && ValidSample(sample.value)
            && sample.value.seconds * 1000000000.0 == (after.at - before.at) as real
            && sample.value.bits == 8.0 * received as real
            && sample.value.tunnel * 1000000000.0 == (CounterOf(metric, after) - CounterOf(metric, before)) as real)
  {
  }

}

/** How the summary groups the cases of a matrix and orders each group (summary.go). */
module Summary {
  import opened Wrappers
  import opened Reports
  import Growth
  import Seqs
  import Sorting

  // ----- Groups

  datatype Workload = Workload(
    ip: int, network: string, direction: string, kind: Kind, mtu: int, parallel: int, bitrate: nat)

  function WorkloadOf(recorded: CaseResult): Workload {
    var c := recorded.configuration;
    Workload(c.ip, c.network, c.direction, c.kind, c.mtu, c.parallel, c.bitrate)
  }

  /** The same configuration, up to what is compared: the matrix, the implementation and its stack. */
  predicate SameWorkload(a: CaseResult, b: CaseResult) {
    var c := b.configuration;
    a.configuration.(matrix := c.matrix, implementation := c.implementation, stack := c.stack) == c
  }

  /** A group is not empty; it holds cases of the matrix among the first n, in their order, all of one workload. */
  ghost predicate GroupInv(cases: seq<CaseResult>, matrix: string, n: nat, group: seq<nat>)
    requires n <= |cases|
  {
    && group != [] && Seqs.Rising(group)
    && (forall k :: 0 <= k < |group| ==>
          group[k] < n && cases[group[k]].configuration.matrix == matrix
          && WorkloadOf(cases[group[k]]) == WorkloadOf(cases[group[0]]))
  }

  predicate InGroup(groups: seq<seq<nat>>, i: nat, g: nat) { g < |groups| && i in groups[g] }

  /** The groups divide up the cases of the matrix by workload, in the order in which the workloads first appear. */
  ghost predicate Partition(cases: seq<CaseResult>, matrix: string, n: nat, groups: seq<seq<nat>>)
    requires n <= |cases|
  {
    && (forall g :: 0 <= g < |groups| ==> GroupInv(cases, matrix, n, groups[g]))
    && (forall g, h :: 0 <= g < h < |groups| ==>
          groups[g][0] < groups[h][0] && WorkloadOf(cases[groups[g][0]]) != WorkloadOf(cases[groups[h][0]]))
    && (forall i :: 0 <= i < n && cases[i].configuration.matrix == matrix ==> exists g :: InGroup(groups, i, g))
  }

  predicate HeadOf(cases: seq<CaseResult>, groups: seq<seq<nat>>, g: nat, key: Workload) {
    g < |groups| && groups[g] != [] && groups[g][0] < |cases| && WorkloadOf(cases[groups[g][0]]) == key
  }

  /** The map of the loop finds the group of a workload. */
  ghost predicate Indexed(cases: seq<CaseResult>, groups: seq<seq<nat>>, indexes: map<Workload, nat>) {
    && (forall key :: key in indexes ==> HeadOf(cases, groups, indexes[key], key))
    && (forall g, key :: HeadOf(cases, groups, g, key) ==> key in indexes && indexes[key] == g)
  }

  method GroupCases(cases: seq<CaseResult>, matrix: string) returns (groups: seq<seq<nat>>)
    ensures Partition(cases, matrix, |cases|, groups)
  {
    hide Partition, Indexed;
    groups := [];
    var groupIndexes: map<Workload, nat> := map[];
    NoGroups(cases, matrix);
    for i := 0 to |cases|
      invariant Partition(cases, matrix, i, groups)
      invariant Indexed(cases, groups, groupIndexes)
    {
      if cases[i].configuration.matrix != matrix {
        SkipCase(cases, matrix, i, groups);
        continue;
      }
      var key := WorkloadOf(cases[i]);
      if key in groupIndexes {
        Found(cases, groups, groupIndexes, key);
        var index := groupIndexes[key];
        JoinGroup(cases, matrix, i, groups, index);
        JoinIndexed(cases, groups, groupIndexes, index, i);
        groups := groups[index := groups[index] + [i]];
      } else {
        OpenGroup(cases, matrix, i, groups, groupIndexes);
        OpenIndexed(cases, groups, groupIndexes, i);
        groupIndexes := groupIndexes[key := |groups|];
        groups := groups + [[i]];
      }
    }
  }

  lemma NoGroups(cases: seq<CaseResult>, matrix: string)
    ensures Partition(cases, matrix, 0, []) && Indexed(cases, [], map[])
  {
  }

  lemma SkipCase(cases: seq<CaseResult>, matrix: string, i: nat, groups: seq<seq<nat>>)
    requires i < |cases| && Partition(cases, matrix, i, groups) && cases[i].configuration.matrix != matrix
    ensures Partition(cases, matrix, i + 1, groups)
  {
  }

  lemma Found(cases: seq<CaseResult>, groups: seq<seq<nat>>, indexes: map<Workload, nat>, key: Workload)
    requires Indexed(cases, groups, indexes) && key in indexes
    ensures HeadOf(cases, groups, indexes[key], key)
  {
  }

  lemma JoinIndexed(cases: seq<CaseResult>, groups: seq<seq<nat>>, indexes: map<Workload, nat>, g: nat, i: nat)
    requires Indexed(cases, groups, indexes) && g < |groups| && groups[g] != []
    ensures Indexed(cases, groups[g := groups[g] + [i]], indexes)
  {
    var after := groups[g := groups[g] + [i]];
    forall h: nat, key
      ensures HeadOf(cases, after, h, key) <==> HeadOf(cases, groups, h, key)
    {
    }
  }

  lemma OpenIndexed(cases: seq<CaseResult>, groups: seq<seq<nat>>, indexes: map<Workload, nat>, i: nat)
    requires Indexed(cases, groups, indexes) && i < |cases| && WorkloadOf(cases[i]) !in indexes
    ensures Indexed(cases, groups + [[i]], indexes[WorkloadOf(cases[i]) := |groups|])
  {
    var after := groups + [[i]];
    forall h: nat, key
      ensures HeadOf(cases, after, h, key) <==>
        HeadOf(cases, groups, h, key) || (h == |groups| && key == WorkloadOf(cases[i]))
    {
    }
  }

  lemma JoinCovers(cases: seq<CaseResult>, matrix: string, i: nat, groups: seq<seq<nat>>, g: nat)
    requires i < |cases| && Partition(cases, matrix, i, groups) && g < |groups|
    ensures
      var after := groups[g := groups[g] + [i]];
      forall j :: 0 <= j <= i && cases[j].configuration.matrix == matrix ==> exists h :: InGroup(after, j, h)
  {
    hide GroupInv;
    var after := groups[g := groups[g] + [i]];
    assert after[g][|groups[g]|] == i;
    assert InGroup(after, i, g);
    forall j | 0 <= j < i && cases[j].configuration.matrix == matrix
      ensures exists h :: InGroup(after, j, h)
    {
      var h :| InGroup(groups, j, h);
      assert InGroup(after, j, h);
    }
  }

  lemma GroupStays(cases: seq<CaseResult>, matrix: string, i: nat, group: seq<nat>)
    requires i < |cases| && GroupInv(cases, matrix, i, group)
    ensures GroupInv(cases, matrix, i + 1, group)
  {
  }

  lemma GroupGrows(cases: seq<CaseResult>, matrix: string, i: nat, group: seq<nat>)
    requires i < |cases| && GroupInv(cases, matrix, i, group)
    requires cases[i].configuration.matrix == matrix && WorkloadOf(cases[i]) == WorkloadOf(cases[group[0]])
    ensures GroupInv(cases, matrix, i + 1, group + [i])
  {
  }

  lemma JoinGroup(cases: seq<CaseResult>, matrix: string, i: nat, groups: seq<seq<nat>>, g: nat)
    requires i < |cases| && Partition(cases, matrix, i, groups) && g < |groups|
    requires cases[i].configuration.matrix == matrix && WorkloadOf(cases[i]) == WorkloadOf(cases[groups[g][0]])
    ensures Partition(cases, matrix, i + 1, groups[g := groups[g] + [i]])
  {
    hide WorkloadOf;
    var after := groups[g := groups[g] + [i]];
    JoinCovers(cases, matrix, i, groups, g);
    forall h | 0 <= h < |groups|
      ensures GroupInv(cases, matrix, i + 1, after[h]) && after[h][0] == groups[h][0]
    {
      assert GroupInv(cases, matrix, i, groups[h]);
      if h == g {
        GroupGrows(cases, matrix, i, groups[g]);
      } else {
        GroupStays(cases, matrix, i, groups[h]);
      }
    }
  }

  lemma OpenCovers(cases: seq<CaseResult>, matrix: string, i: nat, groups: seq<seq<nat>>)
    requires i < |cases| && Partition(cases, matrix, i, groups)
    ensures forall j :: 0 <= j <= i && cases[j].configuration.matrix == matrix ==>
      exists h :: InGroup(groups + [[i]], j, h)
  {
    var after := groups + [[i]];
    assert InGroup(after, i, |groups|);
    forall j | 0 <= j < i && cases[j].configuration.matrix == matrix
      ensures exists h :: InGroup(after, j, h)
    {
      var h :| InGroup(groups, j, h);
      assert InGroup(after, j, h);
    }
  }

  lemma OpenGroup(cases: seq<CaseResult>, matrix: string, i: nat, groups: seq<seq<nat>>, indexes: map<Workload, nat>)
    requires i < |cases| && Partition(cases, matrix, i, groups) && Indexed(cases, groups, indexes)
    requires cases[i].configuration.matrix == matrix && WorkloadOf(cases[i]) !in indexes
    ensures Partition(cases, matrix, i + 1, groups + [[i]])
  {
    var after := groups + [[i]];
    OpenCovers(cases, matrix, i, groups);
    forall h | 0 <= h < |groups|
      ensures GroupInv(cases, matrix, i + 1, after[h])
      ensures after[h][0] < i && WorkloadOf(cases[after[h][0]]) != WorkloadOf(cases[i])
    {
      assert GroupInv(cases, matrix, i, groups[h]);
      assert after[h] == groups[h];
      assert HeadOf(cases, groups, h, WorkloadOf(cases[groups[h][0]]));
    }
    assert GroupInv(cases, matrix, i + 1, after[|groups|]);
  }

  /** Two cases of the matrix are in the same group exactly when they have the same workload, and no case is in two. */
  lemma SameGroup(cases: seq<CaseResult>, matrix: string, groups: seq<seq<nat>>, i: nat, j: nat, g: nat, h: nat)
    requires Partition(cases, matrix, |cases|, groups) && InGroup(groups, i, g) && InGroup(groups, j, h)
    ensures i < |cases| && j < |cases|
    ensures SameWorkload(cases[i], cases[j]) <==> g == h
    ensures i == j ==> g == h
    ensures cases[i].configuration.matrix == matrix
  {
    assert GroupInv(cases, matrix, |cases|, groups[g]) && GroupInv(cases, matrix, |cases|, groups[h]);
    var k :| 0 <= k < |groups[g]| && groups[g][k] == i;
    var l :| 0 <= l < |groups[h]| && groups[h][l] == j;
    assert WorkloadOf(cases[i]) == WorkloadOf(cases[groups[g][0]]);
    assert WorkloadOf(cases[j]) == WorkloadOf(cases[groups[h][0]]);
  }

  // ----- The order of a throughput group

  const MINIMUM_EFFICIENCY_BITRATE: real := 5000000.0

  /** What the comparison looks at: nothing unless the case has passed. */
  datatype Row = NotPassed | Passing(rate: real, cost: real)

  function RowOf(recorded: CaseResult): (r: Row)
    requires ValidCase(recorded) && recorded.configuration.kind == Throughput
    ensures r.Passing? <==> recorded.status == Passed
    ensures
      r.Passing? ==>
        var sample := recorded.sample.value;
        r.rate * sample.seconds == sample.bits && r.cost * sample.bits == sample.tunnel
  {
    if recorded.status != Passed then NotPassed
    else
      var sample := recorded.sample.value;
      Passing(sample.bits / sample.seconds, sample.tunnel / sample.bits)
  }

  function CompareReals(x: real, y: real): int { if x < y then -1 else if x > y then 1 else 0 }

  /** The comparator, branch by branch. */
  function Compare(unlimited: bool, a: Row, b: Row): int {
    if a.NotPassed? then
      if b.Passing? then 1 else 0
    else if b.NotPassed? then -1
    else if unlimited || a.rate < MINIMUM_EFFICIENCY_BITRATE || b.rate < MINIMUM_EFFICIENCY_BITRATE then
      CompareReals(b.rate, a.rate)
    else CompareReals(a.cost, b.cost)
  }

  /** Where a row belongs: its part of the table, and its place there. */
  datatype Rank = Rank(part: nat, value: real)

  function RankOf(unlimited: bool, row: Row): Rank {
    match row
    case NotPassed => Rank(2, 0.0)
    case Passing(rate, cost) =>
      if unlimited then Rank(1, -rate)
      else if rate >= MINIMUM_EFFICIENCY_BITRATE then Rank(0, cost)
      else Rank(1, -rate)
  }

  function CompareRanks(a: Rank, b: Rank): int {
    if a.part < b.part then -1 else if a.part > b.part then 1 else CompareReals(a.value, b.value)
  }

  /**
   * The comparator is the lexicographic order: passed cases first; of these, when the bitrate is limited, those that
   * reach the minimum rate, by cost, and then the others by falling rate; all by falling rate when it is not limited.
   */
  lemma CompareIsLexicographic(unlimited: bool, a: Row, b: Row)
    ensures Compare(unlimited, a, b) == CompareRanks(RankOf(unlimited, a), RankOf(unlimited, b))
  {
  }

  /** So it is an order that a sort may use: antisymmetric in its sign, transitive, and total. */
  lemma CompareIsOrder(unlimited: bool, a: Row, b: Row, c: Row)
    ensures Compare(unlimited, a, b) == -Compare(unlimited, b, a)
    ensures Compare(unlimited, a, b) <= 0 && Compare(unlimited, b, c) <= 0 ==> Compare(unlimited, a, c) <= 0
    ensures Compare(unlimited, a, b) == 0 ==> Compare(unlimited, a, c) == Compare(unlimited, b, c)
  {
  }

  lemma QuotientLess(p: real, q: real, r: real, s: real)
    requires q > 0.0 && s > 0.0
    ensures p / q < r / s <==> p * s < r * q
  {
    var x, y := p / q, r / s;
    assert p * s == x * (q * s) && r * q == y * (q * s);
    if x < y {
      assert (y - x) * (q * s) > 0.0;
    } else {
      assert (x - y) * (q * s) >= 0.0;
    }
  }

  /** At least five megabits were received in each second. */
  predicate Fast(sample: Sample) { sample.bits >= 5000000.0 * sample.seconds }

  /** The first of two samples goes before the second: it costs less for each bit, or more bits were received in its time. */
  predicate Better(unlimited: bool, a: Sample, b: Sample) {
    if !unlimited && Fast(a) && Fast(b) then a.tunnel * b.bits < b.tunnel * a.bits
    else b.bits * a.seconds < a.bits * b.seconds
  }

  lemma CompareSamples(unlimited: bool, a: Sample, b: Sample)
    requires ValidSample(a) && ValidSample(b)
    ensures
      Compare(unlimited, Passing(a.bits / a.seconds, a.tunnel / a.bits), Passing(b.bits / b.seconds, b.tunnel / b.bits)) < 0
      <==> Better(unlimited, a, b)
  {
    QuotientLess(b.bits, b.seconds, a.bits, a.seconds);
    QuotientLess(a.tunnel, a.bits, b.tunnel, b.bits);
    QuotientLess(a.bits, a.seconds, 5000000.0, 1.0);
    QuotientLess(b.bits, b.seconds, 5000000.0, 1.0);
  }

  /** What the comparator says of two legal cases, by their samples alone: the sign of its result is a sort's order. */
  lemma CompareCases(unlimited: bool, a: CaseResult, b: CaseResult)
    requires ValidCase(a) && a.configuration.kind == Throughput && ValidCase(b) && b.configuration.kind == Throughput
    ensures
      Compare(unlimited, RowOf(a), RowOf(b)) < 0 <==>
        a.status == Passed && (b.status == Passed ==> Better(unlimited, a.sample.value, b.sample.value))
    ensures
      Compare(unlimited, RowOf(a), RowOf(b)) > 0 <==>
        b.status == Passed && (a.status == Passed ==> Better(unlimited, b.sample.value, a.sample.value))
  {
    hide Better, ValidSample;
    CompareIsOrder(unlimited, RowOf(a), RowOf(b), RowOf(b));
    if a.status == Passed && b.status == Passed {
      hide Compare;
      CompareSamples(unlimited, a.sample.value, b.sample.value);
      CompareSamples(unlimited, b.sample.value, a.sample.value);
    }
  }

  predicate LegalCase(cases: seq<CaseResult>, kind: Kind, k: nat) {
    k < |cases| && ValidCase(cases[k]) && cases[k].configuration.kind == kind
  }

  /** The report is legal, and all of the group is of this kind. */
  ghost predicate GroupOf(cases: seq<CaseResult>, kind: Kind, indices: seq<nat>) {
    forall k :: 0 <= k < |indices| ==> LegalCase(cases, kind, indices[k])
  }

  function RowAt(cases: seq<CaseResult>, k: nat): Row {
    if LegalCase(cases, Throughput, k) then RowOf(cases[k]) else NotPassed
  }

  function Before(cases: seq<CaseResult>, unlimited: bool): (nat, nat) -> bool {
    (a: nat, b: nat) => Compare(unlimited, RowAt(cases, a), RowAt(cases, b)) <= 0
  }

  function RankAt(cases: seq<CaseResult>, unlimited: bool, k: nat): Rank { RankOf(unlimited, RowAt(cases, k)) }

  function WithRank(cases: seq<CaseResult>, unlimited: bool, rank: Rank): nat -> bool {
    (k: nat) => RankAt(cases, unlimited, k) == rank
  }

  /** The rows come in the order of their ranks, and rows of one rank as they were. */
  ghost predicate Ranked(cases: seq<CaseResult>, unlimited: bool, before: seq<nat>, after: seq<nat>) {
    && multiset(after) == multiset(before)
    && (forall i, j :: 0 <= i < j < |after| ==>
          CompareRanks(RankAt(cases, unlimited, after[i]), RankAt(cases, unlimited, after[j])) <= 0)
    && (forall rank :: Seqs.Filter(after, WithRank(cases, unlimited, rank)) == Seqs.Filter(before, WithRank(cases, unlimited, rank)))
  }

  lemma SortedIsRanked(cases: seq<CaseResult>, unlimited: bool, before: seq<nat>)
    ensures Ranked(cases, unlimited, before, Sorting.Sorted(before, Before(cases, unlimited)))
  {
    hide Compare, CompareRanks, RankOf, RowAt;
    var leq := Before(cases, unlimited);
    var after := Sorting.Sorted(before, leq);
    forall a, b, c
      ensures leq(a, b) || leq(b, a)
      ensures leq(a, b) && leq(b, c) ==> leq(a, c)
      ensures leq(a, b) <==> CompareRanks(RankAt(cases, unlimited, a), RankAt(cases, unlimited, b)) <= 0
    {
      CompareIsOrder(unlimited, RowAt(cases, a), RowAt(cases, b), RowAt(cases, c));
      CompareIsLexicographic(unlimited, RowAt(cases, a), RowAt(cases, b));
    }
    Sorting.SortedPermutes(before, leq);
    forall rank
      ensures Seqs.Filter(after, WithRank(cases, unlimited, rank)) == Seqs.Filter(before, WithRank(cases, unlimited, rank))
    {
      SameRank(rank);
      Sorting.SortedStable(before, leq, WithRank(cases, unlimited, rank));
    }
  }

  lemma SameRank(rank: Rank)
    ensures CompareRanks(rank, rank) == 0
  {
  }

  method SortThroughput(cases: seq<CaseResult>, indices: array<nat>)
    requires indices.Length > 0 && GroupOf(cases, Throughput, indices[..])
    modifies indices
    ensures
      var unlimited := cases[old(indices[0])].configuration.bitrate == 0;
      Ranked(cases, unlimited, old(indices[..]), indices[..])
  {
    var unlimited := cases[indices[0]].configuration.bitrate == 0;
    SortedIsRanked(cases, unlimited, indices[..]);
    Sorting.Sort(indices, Before(cases, unlimited));
  }

  // ----- The order of a memory group

  function GrowthOf(recorded: CaseResult): (r: Option<real>)
    requires ValidCase(recorded) && recorded.configuration.kind == Memory
    ensures r.Some? <==> recorded.status == Passed
  {
    if recorded.status != Passed then None
    else
      Growth.PassedCurve(recorded.memory.value);
      Some(Growth.Slope(recorded.memory.value.points[1..]))
  }

  function CompareGrowths(first: Option<real>, second: Option<real>): int {
    if first.Some? && second.Some? then CompareReals(first.value, second.value)
    else if first.Some? then -1
    else if second.Some? then 1
    else 0
  }

  function Lookup(growths: map<nat, real>, k: nat): Option<real> { if k in growths then Some(growths[k]) else None }

  function BeforeGrowth(growths: map<nat, real>): (nat, nat) -> bool {
    (a: nat, b: nat) => CompareGrowths(Lookup(growths, a), Lookup(growths, b)) <= 0
  }

  method CollectGrowths(cases: seq<CaseResult>, indices: seq<nat>) returns (growths: map<nat, real>)
    requires GroupOf(cases, Memory, indices)
    ensures forall k :: k in indices ==> Lookup(growths, k) == GrowthOf(cases[k])
  {
    hide ValidMemory, Growth.Slope, Growth.Spread;
    growths := map[];
    for n := 0 to |indices|
      invariant forall k :: k in growths ==> k < |cases| && cases[k].status == Passed
      invariant forall j :: 0 <= j < n ==> Lookup(growths, indices[j]) == GrowthOf(cases[indices[j]])
    {
      var current := cases[indices[n]];
      if current.status != Passed {
        continue;
      }
      Growth.PassedCurve(current.memory.value);
      var growth := Growth.ComputeGrowth(current.memory.value);
      growths := growths[indices[n] := growth];
    }
  }

  /** The cases with this growth, or those without one. */
  function WithGrowth(cases: seq<CaseResult>, growth: Option<real>): nat -> bool {
    (k: nat) => LegalCase(cases, Memory, k) && GrowthOf(cases[k]) == growth
  }

  /** The first goes no later than the second: a growth before none, and a smaller growth before a larger one. */
  predicate NoLater(first: Option<real>, second: Option<real>) {
    && (first.None? ==> second.None?)
    && (first.Some? && second.Some? ==> first.value <= second.value)
  }

  lemma CompareGrowthsExactly(first: Option<real>, second: Option<real>)
    ensures CompareGrowths(first, second) <= 0 <==> NoLater(first, second)
  {
  }

  /** The growths come in rising order, the cases without one come after them, and equal ones stay as they were. */
  ghost predicate RankedByGrowth(cases: seq<CaseResult>, before: seq<nat>, after: seq<nat>) {
    && multiset(after) == multiset(before) && GroupOf(cases, Memory, after)
    && (forall i, j :: 0 <= i < j < |after| ==>
          NoLater(GrowthOf(cases[after[i]]), GrowthOf(cases[after[j]])))
    && (forall growth ::
          Seqs.Filter(after, WithGrowth(cases, growth)) == Seqs.Filter(before, WithGrowth(cases, growth)))
  }

  lemma GrowthsInOrder(growths: map<nat, real>)
    ensures Sorting.TotalPreorder(BeforeGrowth(growths))
  {
  }

  function Looked(growths: map<nat, real>, growth: Option<real>): nat -> bool {
    (k: nat) => Lookup(growths, k) == growth
  }

  /** Cases of equal growth are tied in the sort, which therefore keeps their order. */
  lemma StableByGrowth(cases: seq<CaseResult>, before: seq<nat>, growths: map<nat, real>, growth: Option<real>)
    requires GroupOf(cases, Memory, before)
    requires forall k :: k in before ==> Lookup(growths, k) == GrowthOf(cases[k])
    ensures
      var after := Sorting.Sorted(before, BeforeGrowth(growths));
      GroupOf(cases, Memory, after) ==>
        Seqs.Filter(after, WithGrowth(cases, growth)) == Seqs.Filter(before, WithGrowth(cases, growth))
  {
    hide GrowthOf, ValidCase;
    var leq := BeforeGrowth(growths);
    var after := Sorting.Sorted(before, leq);
    GrowthsInOrder(growths);
    Sorting.SortedPermutes(before, leq);
    Sorting.SortedStable(before, leq, Looked(growths, growth));
    forall k | k in before || k in after
      ensures k in before && WithGrowth(cases, growth)(k) == Looked(growths, growth)(k)
    {
      assert k in multiset(after) <==> k in multiset(before);
    }
    Seqs.FilterSimilar(before, WithGrowth(cases, growth), Looked(growths, growth));
    Seqs.FilterSimilar(after, WithGrowth(cases, growth), Looked(growths, growth));
  }

  lemma SortedByGrowth(cases: seq<CaseResult>, before: seq<nat>, growths: map<nat, real>)
    requires GroupOf(cases, Memory, before)
    requires forall k :: k in before ==> Lookup(growths, k) == GrowthOf(cases[k])
    ensures RankedByGrowth(cases, before, Sorting.Sorted(before, BeforeGrowth(growths)))
  {
    hide GrowthOf, ValidCase, CompareGrowths, NoLater, Sorting.Sorted, Sorting.TotalPreorder;
    var leq := BeforeGrowth(growths);
    var after := Sorting.Sorted(before, leq);
    GrowthsInOrder(growths);
    Sorting.SortedPermutes(before, leq);
    forall k | 0 <= k < |after|
      ensures after[k] in before
    {
      assert after[k] in multiset(after);
    }
    forall i, j | 0 <= i < j < |after|
      ensures NoLater(GrowthOf(cases[after[i]]), GrowthOf(cases[after[j]]))
    {
      CompareGrowthsExactly(GrowthOf(cases[after[i]]), GrowthOf(cases[after[j]]));
      assert leq(after[i], after[j]);
    }
    forall growth
      ensures Seqs.Filter(after, WithGrowth(cases, growth)) == Seqs.Filter(before, WithGrowth(cases, growth))
    {
      StableByGrowth(cases, before, growths, growth);
    }
  }

  method SortMemory(cases: seq<CaseResult>, indices: array<nat>)
    requires GroupOf(cases, Memory, indices[..])
    modifies indices
    ensures RankedByGrowth(cases, old(indices[..]), indices[..])
  {
    var growths := CollectGrowths(cases, indices[..]);
    SortedByGrowth(cases, indices[..], growths);
    Sorting.Sort(indices, BeforeGrowth(growths));
  }
}

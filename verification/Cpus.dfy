/** The choice of processors, and the check that a process keeps to them (cpu.go, platform_linux.go). */
module Cpus {
  import opened Wrappers
  import Seqs
  import Sorting

  datatype CoreClass = CoreClass(kind: string, capacity: nat)

  datatype Cpu = Cpu(id: int, core: string, coreClass: CoreClass)

  datatype Environment = Environment(cpus: seq<int>, helpers: seq<int>)

  // ----- The declarative choice

  ghost predicate DistinctIds(cpus: seq<Cpu>) {
    forall i, j :: 0 <= i < j < |cpus| ==> cpus[i].id != cpus[j].id
  }

  /** The thread that stands for its core: the one with the lowest id. */
  ghost predicate Lowest(cpus: seq<Cpu>, cpu: Cpu) {
    cpu in cpus && forall other :: other in cpus && other.core == cpu.core ==> cpu.id <= other.id
  }

  /** The complete group of a class: one thread for each of its cores. */
  ghost function Group(cpus: seq<Cpu>, coreClass: CoreClass): set<Cpu> {
    set cpu | cpu in cpus && Lowest(cpus, cpu) && cpu.coreClass == coreClass
  }

  /** A class with at least two cores that no other such class beats, first by capacity and then by its size. */
  ghost predicate BestClass(cpus: seq<Cpu>, coreClass: CoreClass) {
    && |Group(cpus, coreClass)| >= 2
    && forall other: CoreClass :: |Group(cpus, other)| >= 2 ==>
         other.capacity < coreClass.capacity
         || (other.capacity == coreClass.capacity && |Group(cpus, other)| <= |Group(cpus, coreClass)|)
  }

  function Ids(cpus: seq<Cpu>): seq<int> { seq(|cpus|, i requires 0 <= i < |cpus| => cpus[i].id) }

  function Elements<T>(s: seq<T>): set<T> { set x | x in s }

  // ----- Sorting by id

  predicate SortedById(cpus: seq<Cpu>) { forall i, j :: 0 <= i < j < |cpus| ==> cpus[i].id <= cpus[j].id }

  predicate ById(a: Cpu, b: Cpu) { a.id <= b.id }

  function Sorted(cpus: seq<Cpu>): seq<Cpu> { Sorting.Sorted(cpus, ById) }

  lemma SortedPermutes(cpus: seq<Cpu>)
    ensures SortedById(Sorted(cpus)) && multiset(Sorted(cpus)) == multiset(cpus)
  {
    Sorting.SortedPermutes(cpus, ById);
    assert forall i, j :: 0 <= i < j < |Sorted(cpus)| ==> ById(Sorted(cpus)[i], Sorted(cpus)[j]);
  }

  // ----- One thread per core

  predicate HasCore(cpus: seq<Cpu>, core: string) { exists k :: 0 <= k < |cpus| && cpus[k].core == core }

  lemma HasCoreNext(cpus: seq<Cpu>, i: nat, core: string)
    requires i < |cpus|
    ensures HasCore(cpus[..i + 1], core) <==> HasCore(cpus[..i], core) || core == cpus[i].core
  {
  }

  function Uniq(cpus: seq<Cpu>): seq<Cpu> {
    if cpus == [] then []
    else
      var front, last := cpus[..|cpus| - 1], cpus[|cpus| - 1];
      if HasCore(front, last.core) then Uniq(front) else Uniq(front) + [last]
  }

  /** The library's UniqBy on the cores. */
  method UniqBy(cpus: seq<Cpu>) returns (unique: seq<Cpu>)
    ensures unique == Uniq(cpus)
  {
    var seen: set<string> := {};
    unique := [];
    for i := 0 to |cpus|
      invariant unique == Uniq(cpus[..i])
      invariant forall core :: core in seen <==> HasCore(cpus[..i], core)
    {
      var info := cpus[i];
      assert cpus[..i + 1][..i] == cpus[..i];
      forall core
        ensures HasCore(cpus[..i + 1], core) <==> HasCore(cpus[..i], core) || core == info.core
      {
        HasCoreNext(cpus, i, core);
      }
      if info.core !in seen {
        seen := seen + {info.core};
        unique := unique + [info];
      }
    }
    assert cpus[..|cpus|] == cpus;
  }

  lemma {:induction false} UniqElements(cpus: seq<Cpu>, cpu: Cpu)
    ensures cpu in Uniq(cpus) <==> exists k :: 0 <= k < |cpus| && cpus[k] == cpu && !HasCore(cpus[..k], cpu.core)
  {
    if cpus != [] {
      var n := |cpus| - 1;
      var front := cpus[..n];
      UniqElements(front, cpu);
      assert forall k :: 0 <= k < n ==> front[..k] == cpus[..k];
    }
  }

  predicate RisingById(cpus: seq<Cpu>) { forall i, j :: 0 <= i < j < |cpus| ==> cpus[i].id < cpus[j].id }

  lemma {:induction false} UniqRises(cpus: seq<Cpu>)
    requires RisingById(cpus)
    ensures RisingById(Uniq(cpus)) && forall cpu :: cpu in Uniq(cpus) ==> cpu in cpus
  {
    if cpus != [] {
      UniqRises(cpus[..|cpus| - 1]);
      assert cpus == cpus[..|cpus| - 1] + [cpus[|cpus| - 1]];
      assert forall cpu :: cpu in cpus[..|cpus| - 1] ==> cpu.id < cpus[|cpus| - 1].id;
    }
  }

  /** Of sorted threads, the first of each core is the one with the lowest id. */
  lemma UniqIsLowest(cpus: seq<Cpu>, cpu: Cpu)
    requires RisingById(cpus)
    ensures cpu in Uniq(cpus) <==> Lowest(cpus, cpu)
  {
  }

  // ----- The groups of a list of cores, and the best of them

  function GroupOf(cores: seq<Cpu>, coreClass: CoreClass): seq<Cpu> {
    if cores == [] then []
    else
      var front, last := cores[..|cores| - 1], cores[|cores| - 1];
      if last.coreClass == coreClass then GroupOf(front, coreClass) + [last] else GroupOf(front, coreClass)
  }

  predicate Beats(coreClass: CoreClass, size: nat, other: CoreClass, otherSize: nat) {
    other.capacity < coreClass.capacity || (other.capacity == coreClass.capacity && otherSize <= size)
  }

  ghost predicate BestOf(cores: seq<Cpu>, coreClass: CoreClass) {
    && |GroupOf(cores, coreClass)| >= 2
    && forall other: CoreClass :: |GroupOf(cores, other)| >= 2 ==>
         Beats(coreClass, |GroupOf(cores, coreClass)|, other, |GroupOf(cores, other)|)
  }

  /** What the loop knows of `best`. */
  ghost predicate BestSoFar(cores: seq<Cpu>, best: seq<Cpu>) {
    if best == [] then forall other: CoreClass :: |GroupOf(cores, other)| < 2
    else BestOf(cores, best[0].coreClass) && best == GroupOf(cores, best[0].coreClass)
  }

  function Split(group: seq<Cpu>): Environment {
    Environment(Ids(group[..|group| / 2]), Ids(group[|group| / 2..]))
  }

  ghost predicate Chosen(cores: seq<Cpu>, placement: Option<Environment>) {
    match placement
    case None => forall other: CoreClass :: |GroupOf(cores, other)| < 2
    case Some(p) => exists coreClass :: BestOf(cores, coreClass) && p == Split(GroupOf(cores, coreClass))
  }

  lemma {:induction false} GroupElements(cores: seq<Cpu>, coreClass: CoreClass)
    ensures forall k :: 0 <= k < |GroupOf(cores, coreClass)| ==> GroupOf(cores, coreClass)[k].coreClass == coreClass
    ensures forall cpu :: cpu in GroupOf(cores, coreClass) <==> cpu in cores && cpu.coreClass == coreClass
  {
    if cores != [] {
      GroupElements(cores[..|cores| - 1], coreClass);
      assert cores == cores[..|cores| - 1] + [cores[|cores| - 1]];
    }
  }

  lemma {:induction false} GroupRises(cores: seq<Cpu>, coreClass: CoreClass)
    requires RisingById(cores)
    ensures RisingById(GroupOf(cores, coreClass))
  {
    if cores != [] {
      GroupRises(cores[..|cores| - 1], coreClass);
      GroupElements(cores[..|cores| - 1], coreClass);
    }
  }

  /** One pass of the loop, seen from the groups. */
  lemma GroupNext(cores: seq<Cpu>, i: nat, coreClass: CoreClass)
    requires i < |cores|
    ensures GroupOf(cores[..i + 1], coreClass)
         == GroupOf(cores[..i], coreClass) + if cores[i].coreClass == coreClass then [cores[i]] else []
  {
    assert cores[..i + 1][..i] == cores[..i];
  }

  /** The group of the new core is better than the best so far. */
  predicate Better(group: seq<Cpu>, capacity: nat, best: seq<Cpu>) {
    |group| >= 2 && (best == [] || capacity > best[0].coreClass.capacity
                     || (capacity == best[0].coreClass.capacity && |group| > |best|))
  }

  lemma BestTaken(cores: seq<Cpu>, i: nat, best: seq<Cpu>)
    requires i < |cores| && BestSoFar(cores[..i], best)
    requires Better(GroupOf(cores[..i + 1], cores[i].coreClass), cores[i].coreClass.capacity, best)
    ensures BestOf(cores[..i + 1], cores[i].coreClass)
  {
    hide GroupOf;
    var next := cores[..i + 1];
    forall other: CoreClass | |GroupOf(next, other)| >= 2
      ensures Beats(cores[i].coreClass, |GroupOf(next, cores[i].coreClass)|, other, |GroupOf(next, other)|)
    {
      GroupNext(cores, i, other);
      assert other != cores[i].coreClass ==> GroupOf(cores[..i + 1], other) == GroupOf(cores[..i], other);
    }
  }

  lemma BestKept(cores: seq<Cpu>, i: nat, best: seq<Cpu>)
    requires i < |cores| && BestSoFar(cores[..i], best)
    requires !Better(GroupOf(cores[..i + 1], cores[i].coreClass), cores[i].coreClass.capacity, best)
    ensures BestSoFar(cores[..i + 1], best)
  {
    hide GroupOf;
    GroupNext(cores, i, cores[i].coreClass);
    if best != [] {
      GroupNext(cores, i, best[0].coreClass);
      assert GroupOf(cores[..i + 1], best[0].coreClass) == best;
    }
    var next := cores[..i + 1];
    forall other: CoreClass | |GroupOf(next, other)| >= 2
      ensures best != [] && Beats(best[0].coreClass, |best|, other, |GroupOf(next, other)|)
    {
      GroupNext(cores, i, other);
      assert other != cores[i].coreClass ==> GroupOf(cores[..i + 1], other) == GroupOf(cores[..i], other);
    }
  }

  function GroupIn(groups: map<CoreClass, seq<Cpu>>, coreClass: CoreClass): seq<Cpu> {
    if coreClass in groups then groups[coreClass] else []
  }

  /** The map of the loop holds the groups of the cores seen so far. */
  ghost predicate Indexed(cores: seq<Cpu>, groups: map<CoreClass, seq<Cpu>>) {
    forall other :: GroupOf(cores, other) == GroupIn(groups, other)
  }

  lemma IndexedNext(cores: seq<Cpu>, i: nat, groups: map<CoreClass, seq<Cpu>>)
    requires i < |cores| && Indexed(cores[..i], groups)
    ensures
      var group := GroupIn(groups, cores[i].coreClass) + [cores[i]];
      && group == GroupOf(cores[..i + 1], cores[i].coreClass)
      && Indexed(cores[..i + 1], groups[cores[i].coreClass := group])
  {
    hide GroupOf;
    var group := GroupIn(groups, cores[i].coreClass) + [cores[i]];
    var next := cores[..i + 1];
    forall other
      ensures GroupOf(next, other) == GroupIn(groups[cores[i].coreClass := group], other)
    {
      GroupNext(cores, i, other);
      assert GroupOf(cores[..i], other) == GroupIn(groups, other);
    }
  }

  /** One pass of the loop, seen from the best group. */
  lemma BestNext(cores: seq<Cpu>, i: nat, best: seq<Cpu>)
    requires i < |cores| && BestSoFar(cores[..i], best)
    ensures
      var group := GroupOf(cores[..i + 1], cores[i].coreClass);
      BestSoFar(cores[..i + 1], if Better(group, cores[i].coreClass.capacity, best) then group else best)
  {
    hide GroupOf, BestOf;
    var group := GroupOf(cores[..i + 1], cores[i].coreClass);
    if Better(group, cores[i].coreClass.capacity, best) {
      BestTaken(cores, i, best);
      GroupElements(cores[..i + 1], cores[i].coreClass);
    } else {
      BestKept(cores, i, best);
    }
  }

  lemma NothingSeen()
    ensures Indexed([], map[]) && BestSoFar([], [])
  {
  }

  lemma BestIsChosen(cores: seq<Cpu>, best: seq<Cpu>)
    requires BestSoFar(cores, best)
    ensures if |best| < 2 then Chosen(cores, None) else Chosen(cores, Some(Split(best)))
  {
    hide GroupOf;
  }

  /**
   * One greedy pass over the cores finds the best class. Its group is split, its smaller half going to the tunnel.
   */
  method SelectCpus(cpus: array<Cpu>) returns (placement: Option<Environment>)
    modifies cpus
    ensures cpus[..] == Sorted(old(cpus[..]))
    ensures Chosen(Uniq(Sorted(old(cpus[..]))), placement)
  {
    hide Uniq, GroupOf, Indexed, BestSoFar, Chosen;
    Sorting.Sort(cpus, ById);
    var cores := UniqBy(cpus[..]);
    var groups: map<CoreClass, seq<Cpu>> := map[];
    var best: seq<Cpu> := [];
    NothingSeen();
    assert cores[..0] == [];
    for i := 0 to |cores|
      invariant cpus[..] == Sorted(old(cpus[..]))
      invariant Indexed(cores[..i], groups) && BestSoFar(cores[..i], best)
    {
      var info := cores[i];
      var group := GroupIn(groups, info.coreClass) + [info];
      IndexedNext(cores, i, groups);
      BestNext(cores, i, best);
      groups := groups[info.coreClass := group];
      if |group| < 2 {
        continue;
      }
      if |best| == 0 || info.coreClass.capacity > best[0].coreClass.capacity
         || (info.coreClass.capacity == best[0].coreClass.capacity && |group| > |best|) {
        best := group;
      }
    }
    assert cores[..|cores|] == cores;
    BestIsChosen(cores, best);
    if |best| < 2 {
      return None;
    }
    return Some(Split(best));
  }

  // ----- What was chosen

  lemma {:induction false} RisingSize(cpus: seq<Cpu>)
    requires RisingById(cpus)
    ensures |Elements(cpus)| == |cpus|
  {
    if cpus != [] {
      var front, last := cpus[..|cpus| - 1], cpus[|cpus| - 1];
      RisingSize(front);
      assert cpus == front + [last];
      assert last !in front;
      assert Elements(cpus) == Elements(front) + {last};
    }
  }

  lemma SortedRises(all: seq<Cpu>)
    requires DistinctIds(all)
    ensures RisingById(Sorted(all)) && forall cpu :: cpu in Sorted(all) <==> cpu in all
  {
    SortedPermutes(all);
    var sorted := Sorted(all);
    forall cpu
      ensures cpu in sorted <==> cpu in all
    {
      assert cpu in sorted <==> cpu in multiset(sorted);
    }
    forall i, j | 0 <= i < j < |sorted|
      ensures sorted[i].id < sorted[j].id
    {
      AtMostOnce(all, sorted[i]);
      assert sorted[i] in all && sorted[j] in all;
      if sorted[i] == sorted[j] {
        Twice(sorted, i, j);
      }
    }
  }

  lemma Twice(cpus: seq<Cpu>, i: nat, j: nat)
    requires i < j < |cpus| && cpus[i] == cpus[j]
    ensures multiset(cpus)[cpus[i]] >= 2
  {
    assert cpus == cpus[..i] + [cpus[i]] + cpus[i + 1..j] + [cpus[j]] + cpus[j + 1..];
  }

  lemma {:induction false} AtMostOnce(all: seq<Cpu>, cpu: Cpu)
    requires DistinctIds(all)
    ensures multiset(all)[cpu] <= 1
  {
    if all != [] {
      var front, last := all[..|all| - 1], all[|all| - 1];
      assert all == front + [last];
      AtMostOnce(front, cpu);
      assert last !in front;
    }
  }

  /** The groups of the sorted unique threads are the complete groups, in the order of their ids. */
  lemma GroupOfIsGroup(all: seq<Cpu>, coreClass: CoreClass)
    requires DistinctIds(all)
    ensures
      var group := GroupOf(Uniq(Sorted(all)), coreClass);
      RisingById(group) && Elements(group) == Group(all, coreClass) && |group| == |Group(all, coreClass)|
  {
    var sorted := Sorted(all);
    var group := GroupOf(Uniq(sorted), coreClass);
    SortedRises(all);
    UniqRises(sorted);
    GroupRises(Uniq(sorted), coreClass);
    GroupElements(Uniq(sorted), coreClass);
    RisingSize(group);
    forall cpu
      ensures cpu in group <==> cpu in Group(all, coreClass)
    {
      UniqIsLowest(sorted, cpu);
      assert Lowest(sorted, cpu) <==> Lowest(all, cpu);
    }
    assert Elements(group) == Group(all, coreClass);
  }

  /** The tunnel gets the lower half of the group and the helpers the rest. */
  ghost predicate Halves(group: set<Cpu>, placement: Environment) {
    && Seqs.Rising(placement.cpus + placement.helpers)
    && Elements(placement.cpus + placement.helpers) == (set cpu | cpu in group :: cpu.id)
    && |placement.cpus| == |group| / 2 && |placement.helpers| == |group| - |group| / 2
  }

  lemma SplitHalves(group: seq<Cpu>)
    requires RisingById(group)
    ensures Halves(Elements(group), Split(group))
  {
    var p := Split(group);
    var ids := p.cpus + p.helpers;
    RisingSize(group);
    assert forall k :: 0 <= k < |group| ==> ids[k] == group[k].id;
    forall cpu | cpu in group
      ensures cpu.id in ids
    {
      var k :| 0 <= k < |group| && group[k] == cpu;
      assert ids[k] == cpu.id;
    }
  }

  /**
   * With distinct ids, the choice is the complete group of a class that no other class beats, and there is none
   * exactly when no class has two cores.
   */
  lemma ChosenIsBest(all: seq<Cpu>, placement: Option<Environment>)
    requires DistinctIds(all) && Chosen(Uniq(Sorted(all)), placement)
    ensures placement.None? <==> forall coreClass :: |Group(all, coreClass)| < 2
    ensures placement.Some? ==>
      exists coreClass :: BestClass(all, coreClass) && Halves(Group(all, coreClass), placement.value)
  {
    hide Group, Sorted, Uniq, GroupOf, Split, Halves;
    var cores := Uniq(Sorted(all));
    forall coreClass
      ensures |GroupOf(cores, coreClass)| == |Group(all, coreClass)|
    {
      GroupOfIsGroup(all, coreClass);
    }
    if placement.Some? {
      var coreClass :| BestOf(cores, coreClass) && placement.value == Split(GroupOf(cores, coreClass));
      GroupOfIsGroup(all, coreClass);
      SplitHalves(GroupOf(cores, coreClass));
      BestIsBest(all, coreClass);
      assert BestClass(all, coreClass) && Halves(Group(all, coreClass), placement.value);
    }
  }

  lemma BestIsBest(all: seq<Cpu>, coreClass: CoreClass)
    requires DistinctIds(all) && BestOf(Uniq(Sorted(all)), coreClass)
    ensures BestClass(all, coreClass)
  {
    hide Group, Sorted, Uniq, GroupOf;
    GroupOfIsGroup(all, coreClass);
    forall other: CoreClass | |Group(all, other)| >= 2
      ensures other.capacity < coreClass.capacity
           || (other.capacity == coreClass.capacity && |Group(all, other)| <= |Group(all, coreClass)|)
    {
      GroupOfIsGroup(all, other);
    }
  }

  // ----- The affinity of the threads of a process

  /** A thread may have ended since the directory was read, or its affinity may be unreadable. */
  datatype Thread = Gone | Unreadable | Affinity(cpus: set<int>)

  /** The test of the loop: as many processors as there should be, and each of these among them. */
  predicate Passes(actual: set<int>, cpus: seq<int>) {
    |actual| == |cpus| && forall k :: 0 <= k < |cpus| ==> cpus[k] in actual
  }

  lemma {:induction false} ElementsSize(ids: seq<int>)
    ensures |Elements(ids)| <= |ids|
    ensures |Elements(ids)| == |ids| <==> Seqs.Distinct(ids)
  {
    if ids != [] {
      var front, last := ids[..|ids| - 1], ids[|ids| - 1];
      assert ids == front + [last];
      assert Elements(ids) == Elements(front) + {last};
      ElementsSize(front);
      if last in front {
        assert Elements(ids) == Elements(front);
        var k :| 0 <= k < |front| && front[k] == last;
        assert ids[k] == ids[|ids| - 1];
      } else {
        assert Seqs.Distinct(ids) <==> Seqs.Distinct(front);
      }
    }
  }

  lemma Subset<T>(a: set<T>, b: set<T>)
    requires a <= b && |a| == |b|
    ensures a == b
  {
    assert b == a + (b - a);
    assert |b| == |a| + |b - a|;
  }

  /** The test is a test for equality of sets exactly when the processors of the placement are distinct. */
  lemma PassesExactly(cpus: seq<int>)
    ensures Seqs.Distinct(cpus) <==> forall actual: set<int> :: Passes(actual, cpus) <==> actual == Elements(cpus)
  {
    ElementsSize(cpus);
    if Seqs.Distinct(cpus) {
      forall actual: set<int>
        ensures Passes(actual, cpus) <==> actual == Elements(cpus)
      {
        if Passes(actual, cpus) {
          assert Elements(cpus) <= actual;
          Subset(Elements(cpus), actual);
        }
      }
    } else {
      assert !Passes(Elements(cpus), cpus);
    }
  }

  predicate Accepts(thread: Thread, cpus: seq<int>) {
    thread == Gone || (thread.Affinity? && Passes(thread.cpus, cpus))
  }

  /**
   * Accepts a process exactly when every thread that still exists passes; if the processors are distinct, exactly when
   * every such thread has just these processors.
   */
  method VerifyAffinity(threads: seq<Thread>, cpus: seq<int>) returns (ok: bool)
    ensures ok <==> forall k :: 0 <= k < |threads| ==> Accepts(threads[k], cpus)
    ensures Seqs.Distinct(cpus) ==>
      (ok <==> forall k :: 0 <= k < |threads| ==> threads[k] == Gone || threads[k] == Affinity(Elements(cpus)))
  {
    PassesExactly(cpus);
    for i := 0 to |threads|
      invariant forall k :: 0 <= k < i ==> Accepts(threads[k], cpus)
    {
      match threads[i] {
        case Gone =>
        case Unreadable =>
          assert !Accepts(threads[i], cpus);
          return false;
        case Affinity(actual) =>
          if |actual| != |cpus| {
            assert !Accepts(threads[i], cpus);
            return false;
          }
          for k := 0 to |cpus|
            invariant forall j :: 0 <= j < k ==> cpus[j] in actual
          {
            if cpus[k] !in actual {
              assert !Accepts(threads[i], cpus);
              return false;
            }
          }
          assert Passes(actual, cpus);
      }
    }
    return true;
  }

  /** What is chosen from distinct processors can be verified: its halves are distinct, and have nothing in common. */
  lemma ChosenIsDistinct(group: set<Cpu>, placement: Environment)
    requires Halves(group, placement)
    ensures Seqs.Distinct(placement.cpus) && Seqs.Distinct(placement.helpers)
    ensures Elements(placement.cpus) !! Elements(placement.helpers)
  {
    var ids := placement.cpus + placement.helpers;
    var n := |placement.cpus|;
    assert forall k :: 0 <= k < n ==> placement.cpus[k] == ids[k];
    assert forall k :: 0 <= k < |placement.helpers| ==> placement.helpers[k] == ids[n + k];
  }
}

/** The host's pool of isolated cores and memory. Cores are handed out as whole groups of SMT siblings,
from the front of a sorted list, and go back into their sorted place. */
module ResourcePool {
  import opened Ordering
  import opened Pieces

  datatype CoreGroup = CoreGroup(package: int, core: int, siblings: seq<int>)

  /** What a pair of runs asks for. */
  datatype Request = Request(vcpus: nat, memory: nat)

  datatype Allocation = Allocation(cores: seq<CoreGroup>, memory: nat)

  /** Granted, not available now, or impossible because the groups at hand do not add up. */
  datatype Outcome = Granted(allocation: Allocation) | Unavailable | SiblingMismatch

  predicate GroupLe(a: CoreGroup, b: CoreGroup) {
    || a.package < b.package
    || (a.package == b.package
        && (a.core < b.core || (a.core == b.core && LexLe(a.siblings, b.siblings))))
  }

  lemma GroupOrder()
    ensures TotalPreorder(GroupLe)
    ensures forall s: multiset<CoreGroup> :: Antisymmetric(GroupLe, s)
  {
    forall a: CoreGroup, b: CoreGroup ensures GroupLe(a, b) || GroupLe(b, a) {
      LexTotal(a.siblings, b.siblings);
    }
    forall a: CoreGroup, b: CoreGroup, c: CoreGroup | GroupLe(a, b) && GroupLe(b, c) ensures GroupLe(a, c) {
      if LexLe(a.siblings, b.siblings) && LexLe(b.siblings, c.siblings) {
        LexTransitive(a.siblings, b.siblings, c.siblings);
      }
    }
    forall a: CoreGroup, b: CoreGroup | GroupLe(a, b) && GroupLe(b, a) ensures a == b {
      LexAntisymmetric(a.siblings, b.siblings);
    }
  }

  /** The logical CPUs of a list of groups. */
  function Width(groups: seq<CoreGroup>): nat {
    if groups == [] then 0 else Width(groups[..|groups| - 1]) + |groups[|groups| - 1].siblings|
  }

  lemma {:induction false} WidthGrows(groups: seq<CoreGroup>, i: nat, j: nat)
    requires i <= j <= |groups|
    ensures Width(groups[..i]) <= Width(groups[..j])
    decreases j
  {
    if i < j {
      WidthGrows(groups, i, j - 1);
      assert groups[..j][..j - 1] == groups[..j - 1];
    }
  }

  /** `n` groups are the fewest from the front that reach the request; a loop that stops as soon as it
  has enough looks at one group at least. */
  ghost predicate Fewest(free: seq<CoreGroup>, vcpus: nat, n: nat) {
    && n <= |free| && Width(free[..n]) >= vcpus
    && (n == 0 ==> free == [])
    && (n > 1 ==> Width(free[..n - 1]) < vcpus)
  }

  /** What an allocation must come to. */
  ghost predicate Decided(free: seq<CoreGroup>, memoryFree: nat, r: Request, outcome: Outcome) {
    if r.memory > memoryFree || Width(free) < r.vcpus then outcome == Unavailable
    else exists n: nat :: Fewest(free, r.vcpus, n)
           && outcome == if Width(free[..n]) == r.vcpus then Granted(Allocation(free[..n], r.memory)) else SiblingMismatch
  }

  function Outside(groups: seq<CoreGroup>, selected: set<CoreGroup>): seq<CoreGroup> {
    if groups == [] then []
    else (if groups[0] in selected then [] else [groups[0]]) + Outside(groups[1..], selected)
  }

  /** Filtering a distinct list by its own prefix leaves the suffix. */
  lemma {:induction false} OutsidePrefix(groups: seq<CoreGroup>, n: nat, selected: set<CoreGroup>)
    requires Distinct(groups) && n <= |groups|
    requires forall i :: 0 <= i < |groups| ==> (groups[i] in selected <==> i < n)
    ensures Outside(groups, selected) == groups[n..]
  {
    if groups != [] {
      OutsidePrefix(groups[1..], if n == 0 then 0 else n - 1, selected);
    }
  }

  /** Groups of one width, and a request that is a multiple of it: the groups always add up, and the
  answer depends on the amounts alone. */
  lemma UniformGroupsAlwaysFit(free: seq<CoreGroup>, memoryFree: nat, r: Request, width: nat, outcome: Outcome)
    requires width > 0 && r.vcpus > 0 && r.vcpus % width == 0
    requires forall g :: g in free ==> |g.siblings| == width
    requires Decided(free, memoryFree, r, outcome)
    ensures !outcome.SiblingMismatch?
    ensures outcome.Unavailable? <==> r.memory > memoryFree || |free| * width < r.vcpus
    ensures outcome.Granted? ==> |outcome.allocation.cores| * width == r.vcpus
  {
    UniformWidth(free, width);
    if !outcome.Unavailable? {
      var n: nat :| Fewest(free, r.vcpus, n)
        && outcome == if Width(free[..n]) == r.vcpus then Granted(Allocation(free[..n], r.memory)) else SiblingMismatch;
      UniformWidth(free[..n], width);
      if n > 0 {
        UniformWidth(free[..n - 1], width);
        MultipleInStep(r.vcpus, width, n);
      }
    }
  }

  lemma {:induction false} UniformWidth(groups: seq<CoreGroup>, width: nat)
    requires forall g :: g in groups ==> |g.siblings| == width
    ensures Width(groups) == |groups| * width
  {
    if groups != [] {
      UniformWidth(groups[..|groups| - 1], width);
      assert groups[|groups| - 1] in groups;
    }
  }

  lemma MultipleInStep(v: nat, width: nat, n: nat)
    requires width > 0 && v % width == 0 && v > 0 && n > 0
    requires n * width >= v && (n > 1 ==> (n - 1) * width < v)
    ensures n * width == v
  {
    var q := v / width;
    assert v == q * width;
    assert q < n ==> q * width <= (n - 1) * width;
    assert q > n ==> (n + 1) * width <= q * width;
  }

  /** Collects groups from the front until they suffice or run out. */
  method SelectGroups(free: seq<CoreGroup>, vcpus: nat) returns (n: nat, count: nat)
    ensures n <= |free| && count == Width(free[..n])
    ensures count >= vcpus <==> Width(free) >= vcpus
    ensures count >= vcpus ==> Fewest(free, vcpus, n)
  {
    n, count := 0, 0;
    while n < |free| && (n == 0 || count < vcpus)
      invariant n <= |free| && count == Width(free[..n])
      invariant n > 1 ==> Width(free[..n - 1]) < vcpus
    {
      count := count + |free[n].siblings|;
      assert free[..n + 1][..n] == free[..n];
      n := n + 1;
    }
    WidthGrows(free, n, |free|);
    assert free[..|free|] == free;
  }

  /** Removes the first `n` groups, as a filter by membership does. */
  method DropSelected(free: seq<CoreGroup>, n: nat) returns (rest: seq<CoreGroup>)
    requires Distinct(free) && n <= |free|
    ensures rest == free[n..]
  {
    var selected := free[..n];
    var selectedSet := set g | g in selected;
    forall i | 0 <= i < |free| ensures free[i] in selectedSet <==> i < n {
      if i < n {
        assert selected[i] == free[i];
      }
    }
    OutsidePrefix(free, n, selectedSet);
    rest := Outside(free, selectedSet);
  }

  lemma SuffixStaysValid(free: seq<CoreGroup>, n: nat)
    requires Distinct(free) && Sorted(GroupLe, free) && n <= |free|
    ensures Distinct(free[n..]) && Sorted(GroupLe, free[n..]) && free[..n] + free[n..] == free
  {
  }

  class HostResourcePool {
    var freeCores: seq<CoreGroup>
    var memoryFree: nat

    ghost predicate Valid()
      reads this
    {
      Distinct(freeCores) && Sorted(GroupLe, freeCores)
    }

    constructor (coreGroups: seq<CoreGroup>, memory: nat)
      ensures freeCores == coreGroups && memoryFree == memory
    {
      freeCores := coreGroups;
      memoryFree := memory;
    }

    /** Takes the fewest groups from the front that give exactly the CPUs asked for, with the memory,
    or takes nothing at all. */
    method Allocate(r: Request) returns (outcome: Outcome)
      requires Valid()
      modifies this
      ensures Valid() && Decided(old(freeCores), old(memoryFree), r, outcome)
      ensures !outcome.Granted? ==> freeCores == old(freeCores) && memoryFree == old(memoryFree)
      ensures outcome.Granted? ==>
                && outcome.allocation.cores + freeCores == old(freeCores)
                && outcome.allocation.memory + memoryFree == old(memoryFree)
                && Width(outcome.allocation.cores) == r.vcpus && outcome.allocation.memory == r.memory
    {
      if r.memory > memoryFree {
        return Unavailable;
      }
      var n, count := SelectGroups(freeCores, r.vcpus);
      if count < r.vcpus {
        return Unavailable;
      }
      if count != r.vcpus {
        return SiblingMismatch;
      }
      var selected := freeCores[..n];
      SuffixStaysValid(freeCores, n);
      freeCores := DropSelected(freeCores, n);
      memoryFree := memoryFree - r.memory;
      return Granted(Allocation(selected, r.memory));
    }

    /** Puts an allocation back in its sorted place. */
    method Release(a: Allocation)
      modifies this
      ensures multiset(freeCores) == multiset(old(freeCores)) + multiset(a.cores)
      ensures Sorted(GroupLe, freeCores) && memoryFree == old(memoryFree) + a.memory
    {
      GroupOrder();
      SortIsSorted(GroupLe, freeCores + a.cores);
      freeCores := Sort(GroupLe, freeCores + a.cores);
      memoryFree := memoryFree + a.memory;
    }
  }
}

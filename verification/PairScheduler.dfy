/** Running comparison pairs in parallel over the host's pool. Pairs are started as resources allow, in
any order the pool permits; finished pairs give their resources back. */
module PairScheduler {
  import opened Ordering
  import opened Pieces
  import opened Rules
  import opened Runs
  import opened ResourcePool

  datatype Pair = Pair(index: nat, request: Request)
  datatype Running = Running(pair: Pair, allocation: Allocation)

  /** How the loop ends. */
  datatype End = AllRan | PairFailed(pair: Pair) | Mismatch | Insufficient(blocked: Pair)

  function CoresOf(active: seq<Running>): multiset<CoreGroup> {
    if active == [] then multiset{} else CoresOf(active[..|active| - 1]) + multiset(active[|active| - 1].allocation.cores)
  }

  function MemoryOf(active: seq<Running>): nat {
    if active == [] then 0 else MemoryOf(active[..|active| - 1]) + active[|active| - 1].allocation.memory
  }

  function Named(active: seq<Running>): (r: seq<Pair>)
    ensures |r| == |active| && forall i :: 0 <= i < |r| ==> r[i] == active[i].pair
  {
    seq(|active|, i requires 0 <= i < |active| => active[i].pair)
  }

  function PairsOf(active: seq<Running>): multiset<Pair> {
    multiset(Named(active))
  }

  lemma AddCores(active: seq<Running>, r: Running)
    ensures CoresOf(active + [r]) == CoresOf(active) + multiset(r.allocation.cores)
  {
    assert (active + [r])[..|active|] == active;
  }

  lemma AddMemory(active: seq<Running>, r: Running)
    ensures MemoryOf(active + [r]) == MemoryOf(active) + r.allocation.memory
  {
    assert (active + [r])[..|active|] == active;
  }

  lemma AddPair(active: seq<Running>, r: Running)
    ensures PairsOf(active + [r]) == PairsOf(active) + multiset{r.pair}
  {
    assert Named(active + [r]) == Named(active) + [r.pair];
  }

  function Drop(active: seq<Running>, i: nat): seq<Running>
    requires i < |active|
  {
    active[..i] + active[i + 1..]
  }

  lemma DropShorter(active: seq<Running>, i: nat)
    requires i < |active| - 1
    ensures Drop(active, i) == Drop(active[..|active| - 1], i) + [active[|active| - 1]]
  {
  }

  lemma {:induction false} DropCores(active: seq<Running>, i: nat)
    requires i < |active|
    ensures CoresOf(active) == CoresOf(Drop(active, i)) + multiset(active[i].allocation.cores)
    decreases |active|
  {
    var n := |active| - 1;
    if i == n {
      assert Drop(active, i) == active[..n];
    } else {
      DropCores(active[..n], i);
      DropShorter(active, i);
      AddCores(Drop(active[..n], i), active[n]);
    }
  }

  lemma {:induction false} DropMemory(active: seq<Running>, i: nat)
    requires i < |active|
    ensures MemoryOf(active) == MemoryOf(Drop(active, i)) + active[i].allocation.memory
    decreases |active|
  {
    var n := |active| - 1;
    if i == n {
      assert Drop(active, i) == active[..n];
    } else {
      DropMemory(active[..n], i);
      DropShorter(active, i);
      AddMemory(Drop(active[..n], i), active[n]);
    }
  }

  lemma DropPair(active: seq<Running>, i: nat)
    requires i < |active|
    ensures PairsOf(active) == PairsOf(Drop(active, i)) + multiset{active[i].pair}
  {
    var all, left := Named(active), Named(Drop(active, i));
    assert all == left[..i] + [active[i].pair] + left[i..];
    assert left == left[..i] + left[i..];
  }

  /** What is free and what is running add up to the host. */
  ghost predicate Conserved(cores: seq<CoreGroup>, memory: nat, free: seq<CoreGroup>, memoryFree: nat, active: seq<Running>) {
    && multiset(free) + CoresOf(active) == multiset(cores)
    && memoryFree + MemoryOf(active) == memory
  }

  /** Pairs that run together share no core group and fit into the host's memory, and each has exactly
  what it asked for. */
  ghost predicate Apart(memory: nat, active: seq<Running>) {
    && (forall i, j :: 0 <= i < j < |active| ==> Disjoint(active[i].allocation.cores, active[j].allocation.cores))
    && MemoryOf(active) <= memory
    && (forall i :: 0 <= i < |active| ==> Served(active[i]))
  }

  ghost predicate Disjoint(a: seq<CoreGroup>, b: seq<CoreGroup>) {
    forall g :: g in a ==> g !in b
  }

  predicate Served(r: Running) {
    Width(r.allocation.cores) == r.pair.request.vcpus && r.allocation.memory == r.pair.request.memory
  }

  /** Conservation over a host of distinct core groups keeps running pairs apart. */
  lemma ConservedIsApart(cores: seq<CoreGroup>, memory: nat, free: seq<CoreGroup>, memoryFree: nat, active: seq<Running>)
    requires Distinct(cores) && Conserved(cores, memory, free, memoryFree, active)
    requires forall i :: 0 <= i < |active| ==> Served(active[i])
    ensures Apart(memory, active)
  {
    forall i, j | 0 <= i < j < |active| ensures Disjoint(active[i].allocation.cores, active[j].allocation.cores) {
      forall g | g in active[i].allocation.cores ensures g !in active[j].allocation.cores {
        DistinctCounts(cores, g);
        DropCores(active, j);
        DropCores(Drop(active, j), i);
        assert Drop(active, j)[i] == active[i];
        assert multiset(active[i].allocation.cores)[g] >= 1;
        assert multiset(cores)[g] >= multiset(active[i].allocation.cores)[g] + multiset(active[j].allocation.cores)[g];
      }
    }
  }

  /** A pool with nothing running holds the same list it started with. */
  lemma IdlePoolIsFull(cores: seq<CoreGroup>, memory: nat, free: seq<CoreGroup>, memoryFree: nat)
    requires Sorted(GroupLe, cores) && Sorted(GroupLe, free) && Conserved(cores, memory, free, memoryFree, [])
    ensures free == cores && memoryFree == memory
  {
    GroupOrder();
    SortedIsUnique(GroupLe, free, cores);
  }

  /** A pool whose groups come from the host without repetition has no repetition. */
  lemma PartIsDistinct(cores: seq<CoreGroup>, free: seq<CoreGroup>)
    requires Distinct(cores) && multiset(free) <= multiset(cores)
    ensures Distinct(free)
  {
    forall i, j | 0 <= i < j < |free| ensures free[i] != free[j] {
      DistinctCounts(cores, free[j]);
      assert free == free[..j] + [free[j]] + free[j + 1..];
      assert free[i] in free[..j];
    }
  }

  /** The request cannot be met by these resources. */
  predicate TooBig(free: seq<CoreGroup>, memoryFree: nat, r: Request) {
    r.memory > memoryFree || Width(free) < r.vcpus
  }

  /** On a host whose groups all have one width, a request for a multiple of it is never refused for a
  mismatch, in any state the pool can reach: it is refused exactly when memory or CPUs are short. */
  lemma UniformHostNeverMismatches(
      cores: seq<CoreGroup>, memory: nat, free: seq<CoreGroup>, memoryFree: nat, active: seq<Running>,
      r: Request, width: nat, outcome: Outcome)
    requires Conserved(cores, memory, free, memoryFree, active) && Decided(free, memoryFree, r, outcome)
    requires width > 0 && r.vcpus > 0 && r.vcpus % width == 0
    requires forall g :: g in cores ==> |g.siblings| == width
    ensures !outcome.SiblingMismatch?
    ensures outcome.Unavailable? <==> r.memory > memoryFree || |free| * width < r.vcpus
  {
    forall g | g in free ensures |g.siblings| == width {
      assert g in multiset(free);
      assert g in multiset(cores);
    }
    UniformGroupsAlwaysFit(free, memoryFree, r, width, outcome);
  }

  /** All core groups have one width, and every pair asks for a multiple of it. */
  ghost predicate Uniform(cores: seq<CoreGroup>, pairs: seq<Pair>, width: nat) {
    && width > 0 && (forall g :: g in cores ==> |g.siblings| == width)
    && (forall p :: p in pairs ==> p.request.vcpus > 0 && p.request.vcpus % width == 0)
  }

  /** The pool refused this pair because whole groups do not add up to what it asks for. */
  ghost predicate Refused(free: seq<CoreGroup>, memoryFree: nat, pending: seq<Pair>, i: nat) {
    i < |pending| && Decided(free, memoryFree, pending[i].request, SiblingMismatch)
  }

  /** Takes the first pending pair that can be started now, and its resources. Finding none means that every
  pending pair is too big for what is free, or that the pool refused one. */
  method PopAllocatable(pending: seq<Pair>, pool: HostResourcePool) returns (found: Option<nat>, outcome: Outcome)
    requires pool.Valid()
    modifies pool
    ensures pool.Valid()
    ensures found.Some? ==> found.value < |pending| && outcome.Granted?
    ensures found.Some? ==>
              && outcome.allocation.cores + pool.freeCores == old(pool.freeCores)
              && outcome.allocation.memory + pool.memoryFree == old(pool.memoryFree)
              && Served(Running(pending[found.value], outcome.allocation))
              && forall i :: 0 <= i < found.value ==> TooBig(old(pool.freeCores), old(pool.memoryFree), pending[i].request)
    ensures outcome.SiblingMismatch? ==> exists i :: Refused(old(pool.freeCores), old(pool.memoryFree), pending, i)
    ensures found.None? ==> pool.freeCores == old(pool.freeCores) && pool.memoryFree == old(pool.memoryFree)
    ensures found.None? ==> outcome.SiblingMismatch? || outcome.Unavailable?
    ensures found.None? && outcome.Unavailable? ==>
              forall i :: 0 <= i < |pending| ==> TooBig(pool.freeCores, pool.memoryFree, pending[i].request)
  {
    var i := 0;
    while i < |pending|
      invariant 0 <= i <= |pending| && pool.Valid()
      invariant pool.freeCores == old(pool.freeCores) && pool.memoryFree == old(pool.memoryFree)
      invariant forall j :: 0 <= j < i ==> TooBig(pool.freeCores, pool.memoryFree, pending[j].request)
    {
      outcome := pool.Allocate(pending[i].request);
      match outcome {
        case Granted(_) => return Some(i), outcome;
        case SiblingMismatch =>
          assert Refused(old(pool.freeCores), old(pool.memoryFree), pending, i);
          return None, outcome;
        case Unavailable =>
      }
      i := i + 1;
    }
    return None, Unavailable;
  }

  /** What the loop was given. */
  datatype Host = Host(pairs: seq<Pair>, cores: seq<CoreGroup>, memory: nat)

  /** Where the pairs are: waiting, running, or done. */
  datatype Board = Board(waiting: seq<Pair>, active: seq<Running>, ran: seq<Pair>) {
    ghost predicate Accounts(pairs: seq<Pair>) {
      multiset(waiting) + PairsOf(active) + multiset(ran) == multiset(pairs)
    }

    function Launched(i: nat, a: Allocation): Board
      requires i < |waiting|
    {
      Board(waiting[..i] + waiting[i + 1..], active + [Running(waiting[i], a)], ran)
    }

    function Finished(i: nat): Board
      requires i < |active|
    {
      Board(waiting, Drop(active, i), ran + [active[i].pair])
    }

    /** Shrinks with every launch and with every finished pair. */
    function Work(): nat {
      2 * |waiting| + |active|
    }
  }

  /** Everything the loop keeps true. */
  ghost predicate Consistent(h: Host, free: seq<CoreGroup>, memoryFree: nat, b: Board, maxParallel: nat) {
    && Distinct(h.cores) && Sorted(GroupLe, h.cores) && Sorted(GroupLe, free)
    && Conserved(h.cores, h.memory, free, memoryFree, b.active)
    && (forall i :: 0 <= i < |b.active| ==> Served(b.active[i]))
    && b.Accounts(h.pairs) && |b.active| <= maxParallel
  }

  /** One pair is launched, or one finishes. */
  ghost predicate Step(b: Board, a: Board) {
    || (exists i: nat, allocation :: i < |b.waiting| && a == b.Launched(i, allocation))
    || (exists i: nat :: i < |b.active| && a == b.Finished(i))
  }

  ghost predicate ApartAt(h: Host, maxParallel: nat, b: Board) {
    |b.active| <= maxParallel && Apart(h.memory, b.active) && CoresOf(b.active) <= multiset(h.cores)
  }

  /** The boards from the beginning to `b`, one launch or one finish apart, with the running pairs kept apart
  on every one of them. */
  ghost predicate History(h: Host, maxParallel: nat, moments: seq<Board>, b: Board) {
    && IsRun(Step, moments) && moments[0] == Board(h.pairs, [], []) && moments[|moments| - 1] == b
    && forall m :: 0 <= m < |moments| ==> ApartAt(h, maxParallel, moments[m])
  }

  lemma Extended(h: Host, maxParallel: nat, moments: seq<Board>, b: Board, a: Board)
    requires History(h, maxParallel, moments, b) && Step(b, a) && ApartAt(h, maxParallel, a)
    ensures History(h, maxParallel, moments + [a], a)
  {
  }

  // ---- Nothing waits that could run ----------------------------------------------------------

  /** What the running pairs asked for. */
  function VcpusOf(active: seq<Running>): nat {
    if active == [] then 0 else VcpusOf(active[..|active| - 1]) + active[|active| - 1].pair.request.vcpus
  }

  /** No waiting pair can be started: the limit is reached, or each asks for more memory or more CPUs than the
  running pairs leave. */
  ghost predicate Saturated(h: Host, maxParallel: nat, b: Board) {
    || |b.active| >= maxParallel
    || forall i :: 0 <= i < |b.waiting| ==>
         || b.waiting[i].request.memory + MemoryOf(b.active) > h.memory
         || b.waiting[i].request.vcpus + VcpusOf(b.active) > Width(h.cores)
  }

  lemma {:induction false} WidthConcat(a: seq<CoreGroup>, b: seq<CoreGroup>)
    ensures Width(a + b) == Width(a) + Width(b)
  {
    if b == [] {
      assert a + b == a;
    } else {
      assert (a + b)[..|a + b| - 1] == a + b[..|b| - 1];
      WidthConcat(a, b[..|b| - 1]);
    }
  }

  lemma WidthTakeOut(s: seq<CoreGroup>, k: nat)
    requires k < |s|
    ensures Width(s) == Width(s[..k] + s[k + 1..]) + |s[k].siblings|
  {
    var c, d := s[..k], s[k + 1..];
    assert s == (c + [s[k]]) + d && (c + [s[k]])[..k] == c;
    WidthConcat(c + [s[k]], d);
    WidthConcat(c, d);
  }

  /** The width does not depend on the order. */
  lemma {:induction false} SameWidth(a: seq<CoreGroup>, b: seq<CoreGroup>)
    requires multiset(a) == multiset(b)
    ensures Width(a) == Width(b)
    decreases |a|
  {
    assert |a| == |multiset(a)| && |b| == |multiset(b)|;
    if a != [] {
      assert a[0] in multiset(b);
      var k :| 0 <= k < |b| && b[k] == a[0];
      WidthTakeOut(a, 0);
      WidthTakeOut(b, k);
      TakeOutBoth(a, 0, b, k);
      SameWidth(a[..0] + a[1..], b[..k] + b[k + 1..]);
    }
  }

  function Held(active: seq<Running>): seq<CoreGroup> {
    if active == [] then [] else Held(active[..|active| - 1]) + active[|active| - 1].allocation.cores
  }

  lemma {:induction false} HeldIsServed(active: seq<Running>)
    requires forall i :: 0 <= i < |active| ==> Served(active[i])
    ensures multiset(Held(active)) == CoresOf(active) && Width(Held(active)) == VcpusOf(active)
  {
    if active != [] {
      HeldIsServed(active[..|active| - 1]);
      WidthConcat(Held(active[..|active| - 1]), active[|active| - 1].allocation.cores);
    }
  }

  /** What is free is what the running pairs leave. */
  lemma FreeWidth(cores: seq<CoreGroup>, memory: nat, free: seq<CoreGroup>, memoryFree: nat, active: seq<Running>)
    requires Conserved(cores, memory, free, memoryFree, active) && forall i :: 0 <= i < |active| ==> Served(active[i])
    ensures Width(free) + VcpusOf(active) == Width(cores)
  {
    HeldIsServed(active);
    WidthConcat(free, Held(active));
    SameWidth(free + Held(active), cores);
  }

  /** Step `j` is a finish. */
  ghost predicate FinishAt(moments: seq<Board>, j: nat) {
    j + 1 < |moments| && |moments[j + 1].ran| > |moments[j].ran|
  }

  /** The finishes up to step `k` are those waited for on one saturated board. */
  ghost predicate WaitedFor(h: Host, maxParallel: nat, moments: seq<Board>, m: nat, k: nat) {
    && m <= k < |moments| && Saturated(h, maxParallel, moments[m])
    && forall j :: m <= j < k ==> FinishAt(moments, j)
  }

  /** The loop waits for running pairs only when no waiting pair could be started. */
  ghost predicate NeverIdles(h: Host, maxParallel: nat, moments: seq<Board>) {
    forall k: nat :: FinishAt(moments, k) ==> exists m :: WaitedFor(h, maxParallel, moments, m, k)
  }

  lemma LaunchNeverIdles(h: Host, maxParallel: nat, moments: seq<Board>, a: Board)
    requires NeverIdles(h, maxParallel, moments) && moments != [] && |a.ran| == |moments[|moments| - 1].ran|
    ensures NeverIdles(h, maxParallel, moments + [a])
  {
    var all := moments + [a];
    forall k: nat | FinishAt(all, k) ensures exists m :: WaitedFor(h, maxParallel, all, m, k) {
      assert FinishAt(moments, k);
      var m :| WaitedFor(h, maxParallel, moments, m, k);
      SameBefore(h, maxParallel, moments, a, m, k);
    }
  }

  lemma SameBefore(h: Host, maxParallel: nat, moments: seq<Board>, a: Board, m: nat, k: nat)
    requires WaitedFor(h, maxParallel, moments, m, k)
    ensures WaitedFor(h, maxParallel, moments + [a], m, k)
  {
    forall j | m <= j < k ensures FinishAt(moments + [a], j) {
      assert FinishAt(moments, j);
    }
  }

  lemma FinishNeverIdles(h: Host, maxParallel: nat, moments: seq<Board>, a: Board, m: nat)
    requires NeverIdles(h, maxParallel, moments) && moments != [] && WaitedFor(h, maxParallel, moments, m, |moments| - 1)
    requires |a.ran| > |moments[|moments| - 1].ran|
    ensures NeverIdles(h, maxParallel, moments + [a]) && WaitedFor(h, maxParallel, moments + [a], m, |moments|)
  {
    var all, last := moments + [a], |moments| - 1;
    SameBefore(h, maxParallel, moments, a, m, last);
    assert FinishAt(all, last);
    forall k: nat | FinishAt(all, k) ensures exists n :: WaitedFor(h, maxParallel, all, n, k) {
      if k < last {
        assert FinishAt(moments, k);
        var n :| WaitedFor(h, maxParallel, moments, n, k);
        SameBefore(h, maxParallel, moments, a, n, k);
      }
    }
  }

  // ---- What is recorded as run ---------------------------------------------------------------

  ghost predicate Shows(b: Board, p: Pair) {
    exists i :: 0 <= i < |b.active| && b.active[i].pair == p
  }

  lemma StepRan(b: Board, a: Board, p: Pair)
    requires Step(b, a) && p in a.ran && p !in b.ran
    ensures Shows(b, p)
  {
    var i: nat :| i < |b.active| && a == b.Finished(i);
    assert b.active[i].pair == p;
  }

  /** Whatever is recorded as having run was running on some board before. */
  lemma {:induction false} RanWasRunning(moments: seq<Board>, n: nat, p: Pair)
    requires IsRun(Step, moments) && moments[0].ran == [] && n < |moments| && p in moments[n].ran
    ensures exists m :: 0 <= m < n && Shows(moments[m], p)
  {
    assert Step(moments[n - 1], moments[n]);
    if p in moments[n - 1].ran {
      RanWasRunning(moments, n - 1, p);
    } else {
      StepRan(moments[n - 1], moments[n], p);
    }
  }

  lemma LaunchAccounts(pairs: seq<Pair>, b: Board, i: nat, a: Allocation)
    requires b.Accounts(pairs) && i < |b.waiting|
    ensures b.Launched(i, a).Accounts(pairs)
  {
    AddPair(b.active, Running(b.waiting[i], a));
    TakeOut(b.waiting, i);
  }

  lemma FinishAccounts(pairs: seq<Pair>, b: Board, i: nat)
    requires b.Accounts(pairs) && i < |b.active|
    ensures b.Finished(i).Accounts(pairs)
  {
    DropPair(b.active, i);
  }

  lemma LaunchConserves(
      cores: seq<CoreGroup>, memory: nat, free: seq<CoreGroup>, memoryFree: nat, active: seq<Running>, r: Running,
      free': seq<CoreGroup>, memoryFree': nat)
    requires Conserved(cores, memory, free, memoryFree, active)
    requires r.allocation.cores + free' == free && r.allocation.memory + memoryFree' == memoryFree
    ensures Conserved(cores, memory, free', memoryFree', active + [r])
  {
    AddCores(active, r);
    AddMemory(active, r);
    assert multiset(free) == multiset(r.allocation.cores) + multiset(free');
  }

  lemma FinishConserves(
      cores: seq<CoreGroup>, memory: nat, free: seq<CoreGroup>, memoryFree: nat, active: seq<Running>, i: nat,
      free': seq<CoreGroup>)
    requires Conserved(cores, memory, free, memoryFree, active) && i < |active|
    requires multiset(free') == multiset(free) + multiset(active[i].allocation.cores)
    ensures Conserved(cores, memory, free', memoryFree + active[i].allocation.memory, Drop(active, i))
  {
    DropCores(active, i);
    DropMemory(active, i);
  }

  /** Starts one waiting pair, if any fits. */
  method LaunchOne(ghost h: Host, b: Board, pool: HostResourcePool, maxParallel: nat)
    returns (r: Board, outcome: Outcome)
    requires Consistent(h, pool.freeCores, pool.memoryFree, b, maxParallel) && |b.active| < maxParallel
    modifies pool
    ensures Consistent(h, pool.freeCores, pool.memoryFree, r, maxParallel)
    ensures outcome.Granted? ==> Step(b, r) && r.ran == b.ran && |r.active| == |b.active| + 1 && r.Work() < b.Work() && |r.waiting| < |b.waiting|
    ensures outcome.SiblingMismatch? ==> exists i :: Refused(pool.freeCores, pool.memoryFree, b.waiting, i)
    ensures !outcome.Granted? ==> r == b && pool.freeCores == old(pool.freeCores) && pool.memoryFree == old(pool.memoryFree)
    ensures outcome.Unavailable? ==>
              forall i :: 0 <= i < |b.waiting| ==> TooBig(pool.freeCores, pool.memoryFree, b.waiting[i].request)
  {
    PartIsDistinct(h.cores, pool.freeCores);
    ghost var free, memoryFree := pool.freeCores, pool.memoryFree;
    var found: Option<nat>;
    found, outcome := PopAllocatable(b.waiting, pool);
    if found.None? {
      return b, outcome;
    }
    var i, a := found.value, outcome.allocation;
    LaunchAccounts(h.pairs, b, i, a);
    LaunchConserves(h.cores, h.memory, free, memoryFree, b.active, Running(b.waiting[i], a), pool.freeCores, pool.memoryFree);
    r := b.Launched(i, a);
  }

  /** The whole of what a round starts from. */
  ghost predicate Going(h: Host, pool: HostResourcePool, b: Board, maxParallel: nat, moments: seq<Board>)
    reads pool
  {
    && Consistent(h, pool.freeCores, pool.memoryFree, b, maxParallel) && History(h, maxParallel, moments, b)
    && NeverIdles(h, maxParallel, moments)
  }

  lemma NothingFits(h: Host, free: seq<CoreGroup>, memoryFree: nat, b: Board, maxParallel: nat)
    requires Consistent(h, free, memoryFree, b, maxParallel)
    requires b.waiting == [] || |b.active| == maxParallel
             || forall i :: 0 <= i < |b.waiting| ==> TooBig(free, memoryFree, b.waiting[i].request)
    ensures Saturated(h, maxParallel, b)
  {
    FreeWidth(h.cores, h.memory, free, memoryFree, b.active);
  }

  /** Starts waiting pairs until the limit is reached or nothing waiting fits what is free. */
  method LaunchAll(ghost h: Host, b0: Board, pool: HostResourcePool, maxParallel: nat, ghost moments0: seq<Board>)
    returns (b: Board, mismatch: bool, ghost moments: seq<Board>)
    requires Going(h, pool, b0, maxParallel, moments0)
    modifies pool
    ensures Going(h, pool, b, maxParallel, moments)
    ensures b == b0 || (b.Work() < b0.Work() && |b.active| > |b0.active|)
    ensures b.ran == b0.ran
    ensures mismatch ==> exists i :: Refused(pool.freeCores, pool.memoryFree, b.waiting, i)
    ensures mismatch || b.waiting == [] || |b.active| == maxParallel
            || forall i :: 0 <= i < |b.waiting| ==> TooBig(pool.freeCores, pool.memoryFree, b.waiting[i].request)
  {
    b, mismatch, moments := b0, false, moments0;
    while b.waiting != [] && |b.active| < maxParallel
      invariant Going(h, pool, b, maxParallel, moments)
      invariant b == b0 || (b.Work() < b0.Work() && |b.active| > |b0.active|)
      invariant b.ran == b0.ran
      decreases |b.waiting|
    {
      var next, outcome := LaunchOne(h, b, pool, maxParallel);
      if outcome.SiblingMismatch? {
        mismatch := true;
        return;
      }
      if outcome.Unavailable? {
        return;
      }
      ConservedIsApart(h.cores, h.memory, pool.freeCores, pool.memoryFree, next.active);
      Extended(h, maxParallel, moments, b, next);
      LaunchNeverIdles(h, maxParallel, moments, next);
      b, moments := next, moments + [next];
    }
  }

  /** One pair is done: its resources go back. */
  method FinishOne(ghost h: Host, b: Board, pool: HostResourcePool, maxParallel: nat, i: nat) returns (r: Board)
    requires Consistent(h, pool.freeCores, pool.memoryFree, b, maxParallel) && i < |b.active|
    modifies pool
    ensures Consistent(h, pool.freeCores, pool.memoryFree, r, maxParallel)
    ensures r == b.Finished(i) && |r.active| == |b.active| - 1
  {
    ghost var free, memoryFree := pool.freeCores, pool.memoryFree;
    pool.Release(b.active[i].allocation);
    FinishAccounts(h.pairs, b, i);
    FinishConserves(h.cores, h.memory, free, memoryFree, b.active, i, pool.freeCores);
    r := b.Finished(i);
  }

  /** The loop has come here by waiting on the board `m`. */
  ghost predicate Waits(h: Host, pool: HostResourcePool, b: Board, maxParallel: nat, moments: seq<Board>, m: nat)
    reads pool
  {
    Going(h, pool, b, maxParallel, moments) && WaitedFor(h, maxParallel, moments, m, |moments| - 1)
  }

  /** One pair is collected, while the loop waits on the board `m`. */
  method CollectOne(
      ghost h: Host, b: Board, pool: HostResourcePool, maxParallel: nat, ghost moments: seq<Board>, ghost m: nat, i: nat)
    returns (r: Board, ghost moments': seq<Board>)
    requires Waits(h, pool, b, maxParallel, moments, m) && i < |b.active|
    modifies pool
    ensures Waits(h, pool, r, maxParallel, moments', m)
    ensures r.waiting == b.waiting && r.ran == b.ran + [b.active[i].pair] && |r.active| == |b.active| - 1 && r.Work() < b.Work()
  {
    r := FinishOne(h, b, pool, maxParallel, i);
    ConservedIsApart(h.cores, h.memory, pool.freeCores, pool.memoryFree, r.active);
    Extended(h, maxParallel, moments, b, r);
    FinishNeverIdles(h, maxParallel, moments, r, m);
    moments' := moments + [r];
  }

  ghost predicate NoneFailed(ran: seq<Pair>, fails: Pair -> bool) {
    forall i :: 0 <= i < |ran| ==> !fails(ran[i])
  }

  /** The last pair that ran failed, and none before it did. */
  ghost predicate FailedLast(ran: seq<Pair>, p: Pair, fails: Pair -> bool) {
    ran != [] && ran[|ran| - 1] == p && fails(p) && NoneFailed(ran[..|ran| - 1], fails)
  }

  lemma OneMoreRan(ran: seq<Pair>, p: Pair, fails: Pair -> bool)
    requires NoneFailed(ran, fails)
    ensures if fails(p) then FailedLast(ran + [p], p, fails) else NoneFailed(ran + [p], fails)
  {
    assert (ran + [p])[..|ran|] == ran;
  }

  /** Collects one or more finished pairs, in any order, and releases what they held. A pair that
  failed stops the loop after its resources are back. */
  method CollectDone(
      ghost h: Host, b0: Board, pool: HostResourcePool, maxParallel: nat, ghost moments0: seq<Board>, fails: Pair -> bool)
    returns (b: Board, failed: Option<Pair>, ghost moments: seq<Board>)
    requires Going(h, pool, b0, maxParallel, moments0) && b0.active != [] && Saturated(h, maxParallel, b0)
    requires NoneFailed(b0.ran, fails)
    modifies pool
    ensures Going(h, pool, b, maxParallel, moments)
    ensures b.Work() < b0.Work() && b.waiting == b0.waiting
    ensures failed.None? ==> NoneFailed(b.ran, fails)
    ensures failed.Some? ==> FailedLast(b.ran, failed.value, fails)
  {
    b, failed, moments := b0, None, moments0;
    ghost var m := |moments| - 1;
    var more := true;
    while more && b.active != []
      invariant Waits(h, pool, b, maxParallel, moments, m)
      invariant b.Work() < b0.Work() || (more && b.Work() == b0.Work() && b.active != [])
      invariant b.waiting == b0.waiting && NoneFailed(b.ran, fails)
      decreases |b.active|
    {
      var i: nat :| i < |b.active|;
      var pair := b.active[i].pair;
      OneMoreRan(b.ran, pair, fails);
      b, moments := CollectOne(h, b, pool, maxParallel, moments, m, i);
      if fails(pair) {
        failed := Some(pair);
        return;
      }
      more := *;
    }
  }

  /** On a host of one width the pool refuses no multiple of it. */
  lemma RefusedIsNotUniform(h: Host, free: seq<CoreGroup>, memoryFree: nat, b: Board, i: nat, width: nat)
    requires Conserved(h.cores, h.memory, free, memoryFree, b.active) && b.Accounts(h.pairs)
    requires Refused(free, memoryFree, b.waiting, i)
    ensures !Uniform(h.cores, h.pairs, width)
  {
    var p := b.waiting[i];
    assert p in multiset(h.pairs) by {
      assert p in multiset(b.waiting);
    }
    if Uniform(h.cores, h.pairs, width) {
      UniformHostNeverMismatches(h.cores, h.memory, free, memoryFree, b.active, p.request, width, SiblingMismatch);
    }
  }

  /** The work loop. It always ends. When it ends normally every pair ran exactly once, none failed, and the pool is
  as it was; it stops at the first pair that failed; it gives up for lack of resources only with the whole host
  free again and no waiting pair that fits it, and for a mismatch only when the pool refuses a waiting pair, never
  on a host of one width whose multiples are asked for. The boards it went through lead from nothing started to
  where it ended, one launch or one finish at a time; on every one of them the running pairs are kept apart, and
  it waits for running pairs only when no waiting pair could be started. */
  method RunPairsParallel(pairs: seq<Pair>, pool: HostResourcePool, maxParallel: nat, fails: Pair -> bool)
    returns (end: End, b: Board, ghost moments: seq<Board>)
    requires pool.Valid() && maxParallel > 0
    modifies pool
    ensures b.Accounts(pairs)
    ensures end.AllRan? ==> multiset(b.ran) == multiset(pairs)
    ensures !end.PairFailed? ==> NoneFailed(b.ran, fails)
    ensures end.PairFailed? ==> FailedLast(b.ran, end.pair, fails)
    ensures end.AllRan? || end.Insufficient? ==>
              b.active == [] && pool.freeCores == old(pool.freeCores) && pool.memoryFree == old(pool.memoryFree)
    ensures end.Insufficient? ==>
              && b.waiting != [] && end.blocked == b.waiting[0]
              && forall i :: 0 <= i < |b.waiting| ==> TooBig(pool.freeCores, pool.memoryFree, b.waiting[i].request)
    ensures end.Mismatch? ==>
              && (exists i :: Refused(pool.freeCores, pool.memoryFree, b.waiting, i))
              && forall width: nat :: !Uniform(old(pool.freeCores), pairs, width)
    ensures var h := Host(pairs, old(pool.freeCores), old(pool.memoryFree));
            History(h, maxParallel, moments, b) && NeverIdles(h, maxParallel, moments)
  {
    ghost var h := Host(pairs, pool.freeCores, pool.memoryFree);
    b := Board(pairs, [], []);
    moments := [b];
    while b.waiting != [] || b.active != []
      invariant Going(h, pool, b, maxParallel, moments) && NoneFailed(b.ran, fails)
      decreases b.Work()
    {
      var before := b;
      var mismatch: bool;
      b, mismatch, moments := LaunchAll(h, b, pool, maxParallel, moments);
      if mismatch {
        ghost var i :| Refused(pool.freeCores, pool.memoryFree, b.waiting, i);
        forall width: nat ensures !Uniform(h.cores, h.pairs, width) {
          RefusedIsNotUniform(h, pool.freeCores, pool.memoryFree, b, i, width);
        }
        return Mismatch, b, moments;
      }
      if b.active != [] {
        if b != before && b.waiting != [] && |b.active| < maxParallel {
          continue;
        }
        NothingFits(h, pool.freeCores, pool.memoryFree, b, maxParallel);
        var failed: Option<Pair>;
        b, failed, moments := CollectDone(h, b, pool, maxParallel, moments, fails);
        if failed.Some? {
          return PairFailed(failed.value), b, moments;
        }
        continue;
      }
      IdlePoolIsFull(h.cores, h.memory, pool.freeCores, pool.memoryFree);
      return Insufficient(b.waiting[0]), b, moments;
    }
    IdlePoolIsFull(h.cores, h.memory, pool.freeCores, pool.memoryFree);
    return AllRan, b, moments;
  }
}

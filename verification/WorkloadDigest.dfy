/** The workload fingerprint: the bytes hashed for a set of targets and the live tasks that match
them. The bytes do not depend on any order, and they never coincide for different workloads. */
module WorkloadDigest {
  import opened Ordering
  import opened Pieces
  import opened Rules

  const MAX_TARGETS := 128
  const MAX_PROC_PROCESSES := 131_072
  const MAX_PROC_TASKS := 262_144
  const MAX_MATCHED_TASKS := 65_536

  type u32 = x: nat | x < 0x1_0000_0000

  datatype Target = Target(comm: Comm, cls: RuleClass)
  datatype Task = Task(tid: u32, starttime: u64, comm: Comm)

  predicate ByComm(a: Target, b: Target) {
    LexLe(a.comm, b.comm)
  }

  /** The derived order of task identities. */
  predicate ByIdentity(a: Task, b: Task) {
    a.tid < b.tid || (a.tid == b.tid && (a.starttime < b.starttime || (a.starttime == b.starttime && LexLe(a.comm, b.comm))))
  }

  ghost predicate DistinctNames(targets: seq<Target>) {
    forall i, j :: 0 <= i < j < |targets| ==> targets[i].comm != targets[j].comm
  }

  ghost predicate AllValid(targets: seq<Target>) {
    forall i :: 0 <= i < |targets| ==> ValidComm(targets[i].comm)
  }

  ghost predicate Short(tasks: seq<Task>) {
    forall i :: 0 <= i < |tasks| ==> |tasks[i].comm| <= MAX_COMM_BYTES
  }

  lemma OrdersAreTotal()
    ensures TotalPreorder(ByComm) && TotalPreorder(ByIdentity)
    ensures forall s: multiset<Task> :: Antisymmetric(ByIdentity, s)
  {
    LexIsTotalOrder();
    forall a: Target, b: Target, c: Target | ByComm(a, b) && ByComm(b, c) ensures ByComm(a, c) {
      LexTransitive(a.comm, b.comm, c.comm);
    }
    forall a: Target, b: Target ensures ByComm(a, b) || ByComm(b, a) { LexTotal(a.comm, b.comm); }
    forall a: Task, b: Task, c: Task | ByIdentity(a, b) && ByIdentity(b, c) ensures ByIdentity(a, c) {
      if LexLe(a.comm, b.comm) && LexLe(b.comm, c.comm) {
        LexTransitive(a.comm, b.comm, c.comm);
      }
    }
    forall a: Task, b: Task ensures ByIdentity(a, b) || ByIdentity(b, a) { LexTotal(a.comm, b.comm); }
    forall a: Task, b: Task | ByIdentity(a, b) && ByIdentity(b, a) ensures a == b {
      LexAntisymmetric(a.comm, b.comm);
    }
  }

  lemma DistinctIsAntisymmetric(targets: seq<Target>)
    requires DistinctNames(targets)
    ensures Antisymmetric(ByComm, multiset(targets))
  {
    forall x, y | x in multiset(targets) && y in multiset(targets) && ByComm(x, y) && ByComm(y, x) ensures x == y {
      LexAntisymmetric(x.comm, y.comm);
      assert x in targets && y in targets;
    }
  }

  // ---- The bytes -----------------------------------------------------------------------------

  /** The `width` low bytes of `n`, least significant first. */
  function LittleEndian(n: nat, width: nat): (r: seq<byte>)
    ensures |r| == width
  {
    if width == 0 then [] else [n % 256] + LittleEndian(n / 256, width - 1)
  }

  /** `n` needs at most `width` bytes. */
  ghost predicate Fits(n: nat, width: nat) {
    if width == 0 then n == 0 else Fits(n / 256, width - 1)
  }

  lemma {:induction false} LittleEndianInjective(a: nat, b: nat, width: nat)
    requires Fits(a, width) && Fits(b, width) && LittleEndian(a, width) == LittleEndian(b, width)
    ensures a == b
  {
    if width > 0 {
      var x, y := LittleEndian(a, width), LittleEndian(b, width);
      assert x[0] == y[0] && x[1..] == LittleEndian(a / 256, width - 1) && y[1..] == LittleEndian(b / 256, width - 1);
      LittleEndianInjective(a / 256, b / 256, width - 1);
    }
  }

  lemma WordsFit(a: u32, b: u64)
    ensures Fits(a, 4) && Fits(b, 8)
  {
    HalfFits(a);
    var c := b / 256;
    var d := c / 256;
    var e := d / 256;
    var f := e / 256;
    HalfFits(f);
    assert Fits(e, 5);
    assert Fits(d, 6);
    assert Fits(c, 7);
  }

  lemma HalfFits(a: u32)
    ensures Fits(a, 4)
  {
    var b := a / 256;
    var c := b / 256;
    var d := c / 256;
    assert Fits(d, 1);
    assert Fits(c, 2);
    assert Fits(b, 3);
  }

  /** A length-prefixed byte string; the length is cut to 32 bits. */
  function Field(value: seq<byte>): seq<byte> {
    LittleEndian(Length(value), 4) + value
  }

  function Length(value: seq<byte>): u32 {
    |value| % 0x1_0000_0000
  }

  function Ascii(s: string): (r: seq<byte>)
    requires forall i :: 0 <= i < |s| ==> s[i] < 128 as char
    ensures |r| == |s| && forall i :: 0 <= i < |r| ==> r[i] == s[i] as int
  {
    seq(|s|, i requires 0 <= i < |s| => s[i] as int)
  }

  function ClassName(cls: RuleClass): (r: seq<byte>)
    ensures 1 <= |r| < 256
  {
    match cls
    case Latency => Ascii("latency")
    case Batch => Ascii("batch")
  }

  const HEADER: seq<byte> := Ascii("scx_agent_classed/workload/v1") + [0]
  const MARK: seq<byte> := [0] + Ascii("tasks") + [0]

  function TargetBytes(target: Target): seq<byte> {
    Field(target.comm) + Field(ClassName(target.cls))
  }

  function TaskBytes(task: Task): seq<byte> {
    LittleEndian(task.tid, 4) + LittleEndian(task.starttime, 8) + Field(task.comm)
  }

  function AllTargets(targets: seq<Target>): seq<byte> {
    if targets == [] then [] else TargetBytes(targets[0]) + AllTargets(targets[1..])
  }

  function AllTasks(tasks: seq<Task>): seq<byte> {
    if tasks == [] then [] else TaskBytes(tasks[0]) + AllTasks(tasks[1..])
  }

  function Encode(header: seq<byte>, targets: seq<Target>, mark: seq<byte>, tasks: seq<Task>): seq<byte> {
    header + (AllTargets(targets) + (mark + AllTasks(tasks)))
  }

  function Preimage(targets: seq<Target>, tasks: seq<Task>): seq<byte> {
    Encode(HEADER, Sort(ByComm, targets), MARK, Sort(ByIdentity, tasks))
  }

  lemma {:induction false} AppendTarget(a: seq<Target>, t: Target)
    ensures AllTargets(a + [t]) == AllTargets(a) + TargetBytes(t)
  {
    if a != [] {
      assert (a + [t])[1..] == a[1..] + [t];
      AppendTarget(a[1..], t);
    }
  }

  lemma {:induction false} AppendTask(a: seq<Task>, t: Task)
    ensures AllTasks(a + [t]) == AllTasks(a) + TaskBytes(t)
  {
    if a != [] {
      assert (a + [t])[1..] == a[1..] + [t];
      AppendTask(a[1..], t);
    }
  }

  lemma Regroup(a: seq<byte>, b: seq<byte>, c: seq<byte>)
    ensures a + b + c == a + (b + c)
  {}

  /** One target, as two hasher updates. */
  method FeedTarget(before: seq<byte>, target: Target) returns (fed: seq<byte>)
    ensures fed == before + TargetBytes(target)
  {
    Regroup(before, Field(target.comm), Field(ClassName(target.cls)));
    fed := before + Field(target.comm);
    fed := fed + Field(ClassName(target.cls));
  }

  /** One task, as three hasher updates. */
  method FeedTask(before: seq<byte>, task: Task) returns (fed: seq<byte>)
    ensures fed == before + TaskBytes(task)
  {
    var tid, start, comm := LittleEndian(task.tid, 4), LittleEndian(task.starttime, 8), Field(task.comm);
    Regroup(before, tid, start);
    Regroup(before, tid + start, comm);
    fed := before + tid;
    fed := fed + start;
    fed := fed + comm;
  }

  method FeedTargets(before: seq<byte>, targets: seq<Target>) returns (fed: seq<byte>)
    ensures fed == before + AllTargets(targets)
  {
    fed := before;
    for i := 0 to |targets|
      invariant fed == before + AllTargets(targets[..i])
    {
      assert targets[..i + 1] == targets[..i] + [targets[i]];
      AppendTarget(targets[..i], targets[i]);
      Regroup(before, AllTargets(targets[..i]), TargetBytes(targets[i]));
      fed := FeedTarget(fed, targets[i]);
    }
    assert targets[..|targets|] == targets;
  }

  method FeedTasks(before: seq<byte>, tasks: seq<Task>) returns (fed: seq<byte>)
    ensures fed == before + AllTasks(tasks)
  {
    fed := before;
    for i := 0 to |tasks|
      invariant fed == before + AllTasks(tasks[..i])
    {
      assert tasks[..i + 1] == tasks[..i] + [tasks[i]];
      AppendTask(tasks[..i], tasks[i]);
      Regroup(before, AllTasks(tasks[..i]), TaskBytes(tasks[i]));
      fed := FeedTask(fed, tasks[i]);
    }
    assert tasks[..|tasks|] == tasks;
  }

  method Feed(header: seq<byte>, targets: seq<Target>, mark: seq<byte>, tasks: seq<Task>) returns (fed: seq<byte>)
    ensures fed == Encode(header, targets, mark, tasks)
  {
    Regroup(header, AllTargets(targets), mark);
    Regroup(header, AllTargets(targets) + mark, AllTasks(tasks));
    Regroup(AllTargets(targets), mark, AllTasks(tasks));
    fed := FeedTargets(header, targets);
    fed := fed + mark;
    fed := FeedTasks(fed, tasks);
  }

  /** Sorts, then feeds the hasher; what it was fed is the preimage. */
  method CanonicalWorkload(targets: seq<Target>, tasks: seq<Task>) returns (fed: seq<byte>)
    ensures fed == Preimage(targets, tasks)
  {
    var sortedTargets := Sort(ByComm, targets);
    var sortedTasks := Sort(ByIdentity, tasks);
    fed := Feed(HEADER, sortedTargets, MARK, sortedTasks);
  }

  // ---- The bytes determine the workload ------------------------------------------------------

  lemma Cancel(a: seq<byte>, x: seq<byte>, b: seq<byte>, y: seq<byte>)
    requires |a| == |b| && a + x == b + y
    ensures a == b && x == y
  {
    assert a == (a + x)[..|a|] && b == (b + y)[..|b|];
    assert x == (a + x)[|a|..] && y == (b + y)[|b|..];
  }

  lemma HeadIsPrefixFree(m: seq<byte>, a: seq<byte>, x: seq<byte>, n: seq<byte>, b: seq<byte>, y: seq<byte>)
    requires |m| == |n| && m + a + x == n + b + y
    ensures m == n && a + x == b + y
  {
    Regroup(m, a, x);
    Regroup(n, b, y);
    Cancel(m, a + x, n, b + y);
  }

  lemma FieldIsPrefixFree(a: seq<byte>, x: seq<byte>, b: seq<byte>, y: seq<byte>)
    requires |a| < 256 && |b| < 256 && Field(a) + x == Field(b) + y
    ensures a == b && x == y
  {
    HeadIsPrefixFree(LittleEndian(Length(a), 4), a, x, LittleEndian(Length(b), 4), b, y);
    SameWords(Length(a), 0, Length(b), 0);
    Cancel(a, x, b, y);
  }

  lemma FieldsArePrefixFree(a: seq<byte>, m: seq<byte>, x: seq<byte>, b: seq<byte>, n: seq<byte>, y: seq<byte>)
    requires |a| < 256 && |b| < 256 && |m| < 256 && |n| < 256
    requires Field(a) + Field(m) + x == Field(b) + Field(n) + y
    ensures a == b && m == n && x == y
  {
    Regroup(Field(a), Field(m), x);
    Regroup(Field(b), Field(n), y);
    FieldIsPrefixFree(a, Field(m) + x, b, Field(n) + y);
    FieldIsPrefixFree(m, x, n, y);
  }

  lemma TargetIsPrefixFree(a: Target, x: seq<byte>, b: Target, y: seq<byte>)
    requires ValidComm(a.comm) && ValidComm(b.comm) && TargetBytes(a) + x == TargetBytes(b) + y
    ensures a == b && x == y
  {
    FieldsArePrefixFree(a.comm, ClassName(a.cls), x, b.comm, ClassName(b.cls), y);
    assert ClassName(a.cls)[0] == ClassName(b.cls)[0];
  }

  lemma IdentityIsPrefixFree(p: seq<byte>, m: seq<byte>, f: seq<byte>, x: seq<byte>,
                             q: seq<byte>, n: seq<byte>, g: seq<byte>, y: seq<byte>)
    requires |p| == |q| && |m| == |n| && p + m + f + x == q + n + g + y
    ensures p == q && m == n && f + x == g + y
  {
    Regroup(p + m, f, x);
    Regroup(q + n, g, y);
    Cancel(p + m, f + x, q + n, g + y);
    Cancel(p, m, q, n);
  }

  lemma TaskIsPrefixFree(a: Task, x: seq<byte>, b: Task, y: seq<byte>)
    requires |a.comm| <= MAX_COMM_BYTES && |b.comm| <= MAX_COMM_BYTES && TaskBytes(a) + x == TaskBytes(b) + y
    ensures a == b && x == y
  {
    IdentityIsPrefixFree(LittleEndian(a.tid, 4), LittleEndian(a.starttime, 8), Field(a.comm), x,
                         LittleEndian(b.tid, 4), LittleEndian(b.starttime, 8), Field(b.comm), y);
    SameWords(a.tid, a.starttime, b.tid, b.starttime);
    FieldIsPrefixFree(a.comm, x, b.comm, y);
  }

  lemma SameWords(tid: u32, start: u64, tid': u32, start': u64)
    requires LittleEndian(tid, 4) == LittleEndian(tid', 4) && LittleEndian(start, 8) == LittleEndian(start', 8)
    ensures tid == tid' && start == start'
  {
    WordsFit(tid, start);
    WordsFit(tid', start');
    LittleEndianInjective(tid, tid', 4);
    LittleEndianInjective(start, start', 8);
  }

  /** A target never starts with a zero byte, as the mark does: it starts with the length of its name. */
  lemma TargetStartsWithItsLength(t: Target, x: seq<byte>)
    requires ValidComm(t.comm)
    ensures (TargetBytes(t) + x)[0] == |t.comm| != 0
  {
    assert (TargetBytes(t) + x)[0] == LittleEndian(|t.comm|, 4)[0];
  }

  lemma {:induction false} TasksAreDetermined(a: seq<Task>, b: seq<Task>)
    requires Short(a) && Short(b) && AllTasks(a) == AllTasks(b)
    ensures a == b
  {
    if a != [] && b != [] {
      TaskIsPrefixFree(a[0], AllTasks(a[1..]), b[0], AllTasks(b[1..]));
      TasksAreDetermined(a[1..], b[1..]);
      assert a == [a[0]] + a[1..] && b == [b[0]] + b[1..];
    }
  }

  lemma {:induction false} TargetsAreDetermined(a: seq<Target>, x: seq<byte>, b: seq<Target>, y: seq<byte>)
    requires AllValid(a) && AllValid(b) && AllTargets(a) + x == AllTargets(b) + y
    requires x != [] && y != [] && x[0] == y[0] == 0
    ensures a == b && x == y
  {
    if a == [] && b == [] {
      Cancel([], x, [], y);
    } else if a == [] {
      FirstTarget(b, y);
    } else if b == [] {
      FirstTarget(a, x);
    } else {
      FirstTarget(a, x);
      FirstTarget(b, y);
      TargetIsPrefixFree(a[0], AllTargets(a[1..]) + x, b[0], AllTargets(b[1..]) + y);
      TargetsAreDetermined(a[1..], x, b[1..], y);
      SameCons(a, b);
    }
  }

  lemma FirstTarget(a: seq<Target>, x: seq<byte>)
    requires AllValid(a) && a != []
    ensures AllTargets(a) + x == TargetBytes(a[0]) + (AllTargets(a[1..]) + x)
    ensures (AllTargets(a) + x)[0] != 0
  {
    assert AllTargets(a) + x == TargetBytes(a[0]) + (AllTargets(a[1..]) + x);
    TargetStartsWithItsLength(a[0], AllTargets(a[1..]) + x);
  }

  lemma EncodingIsDetermined(h: seq<byte>, m: seq<byte>, a: seq<Target>, x: seq<Task>, b: seq<Target>, y: seq<Task>)
    requires AllValid(a) && AllValid(b) && Short(x) && Short(y) && m != [] && m[0] == 0
    requires Encode(h, a, m, x) == Encode(h, b, m, y)
    ensures a == b && x == y
  {
    var p, q := m + AllTasks(x), m + AllTasks(y);
    Cancel(h, AllTargets(a) + p, h, AllTargets(b) + q);
    TargetsAreDetermined(a, p, b, q);
    Cancel(m, AllTasks(x), m, AllTasks(y));
    TasksAreDetermined(x, y);
  }

  lemma SortKeepsTargets(targets: seq<Target>)
    requires AllValid(targets)
    ensures AllValid(Sort(ByComm, targets))
  {
    forall i | 0 <= i < |targets| ensures ValidComm(Sort(ByComm, targets)[i].comm) {
      assert Sort(ByComm, targets)[i] in multiset(Sort(ByComm, targets));
    }
  }

  lemma SortKeepsTasks(tasks: seq<Task>)
    requires Short(tasks)
    ensures Short(Sort(ByIdentity, tasks))
  {
    forall i | 0 <= i < |tasks| ensures |Sort(ByIdentity, tasks)[i].comm| <= MAX_COMM_BYTES {
      assert Sort(ByIdentity, tasks)[i] in multiset(Sort(ByIdentity, tasks));
    }
  }

  /** Two workloads hash the same bytes exactly when they have the same targets, with the same classes,
  and the same tasks: neither order nor any choice of names, classes or identities can collide. */
  lemma SameBytesIffSameWorkload(targets: seq<Target>, tasks: seq<Task>, targets': seq<Target>, tasks': seq<Task>)
    requires AllValid(targets) && DistinctNames(targets) && Short(tasks)
    requires AllValid(targets') && DistinctNames(targets') && Short(tasks')
    ensures Preimage(targets, tasks) == Preimage(targets', tasks')
      <==> multiset(targets) == multiset(targets') && multiset(tasks) == multiset(tasks')
  {
    if Preimage(targets, tasks) == Preimage(targets', tasks') {
      SortKeepsTargets(targets);
      SortKeepsTargets(targets');
      SortKeepsTasks(tasks);
      SortKeepsTasks(tasks');
      EncodingIsDetermined(HEADER, MARK, Sort(ByComm, targets), Sort(ByIdentity, tasks), Sort(ByComm, targets'), Sort(ByIdentity, tasks'));
    }
    if multiset(targets) == multiset(targets') && multiset(tasks) == multiset(tasks') {
      SameOrder(targets, tasks, targets', tasks');
    }
  }

  lemma SameOrder(targets: seq<Target>, tasks: seq<Task>, targets': seq<Target>, tasks': seq<Task>)
    requires DistinctNames(targets) && multiset(targets) == multiset(targets') && multiset(tasks) == multiset(tasks')
    ensures Sort(ByComm, targets) == Sort(ByComm, targets') && Sort(ByIdentity, tasks) == Sort(ByIdentity, tasks')
  {
    OrdersAreTotal();
    DistinctIsAntisymmetric(targets);
    SortIsCanonical(ByComm, targets, targets');
    SortIsCanonical(ByIdentity, tasks, tasks');
  }

  // ---- From the process table to the bytes ---------------------------------------------------

  /** What reading one small file of the process table gives; a file that went away is not an error. */
  datatype Reading<T> = Gone | Got(value: T) | Broken

  /** One listed thread; a name that is not text reads as gone. */
  datatype Entry = Entry(tid: u32, comm: Reading<Comm>, starttime: Reading<u64>)

  /** One pass over the process table; `late` when some look at the clock found the time limit passed. */
  datatype Listing = Listing(processes: nat, late: bool, entries: seq<Entry>)

  ghost predicate Targeted(targets: seq<Target>, comm: Comm) {
    exists i :: 0 <= i < |targets| && targets[i].comm == comm
  }

  ghost predicate Matches(e: Entry, targets: seq<Target>, t: Task) {
    e.comm == Got(t.comm) && e.starttime == Got(t.starttime) && e.tid == t.tid && Targeted(targets, t.comm)
  }

  ghost predicate Live(entries: seq<Entry>, targets: seq<Target>, t: Task) {
    exists i :: 0 <= i < |entries| && Matches(entries[i], targets, t)
  }

  /** A file that cannot be read, or a start time that cannot be parsed for a thread of interest. */
  ghost predicate Unreadable(e: Entry, targets: seq<Target>) {
    e.comm == Broken || (e.comm.Got? && Targeted(targets, e.comm.value) && e.starttime == Broken)
  }

  /** `tasks` lists each live matching task once. */
  ghost predicate IsScan(entries: seq<Entry>, targets: seq<Target>, tasks: seq<Task>) {
    Distinct(tasks) && forall t :: t in tasks <==> Live(entries, targets, t)
  }

  ghost predicate Scannable(entries: seq<Entry>, targets: seq<Target>) {
    |entries| <= MAX_PROC_TASKS && forall i :: 0 <= i < |entries| ==> !Unreadable(entries[i], targets)
  }

  method Wanted(targets: seq<Target>, comm: Comm) returns (found: bool)
    ensures found == Targeted(targets, comm)
  {
    for i := 0 to |targets|
      invariant forall k :: 0 <= k < i ==> targets[k].comm != comm
    {
      if targets[i].comm == comm {
        return true;
      }
    }
    return false;
  }

  lemma ScanOne(entries: seq<Entry>, e: Entry, targets: seq<Target>, t: Task)
    ensures Live(entries + [e], targets, t) <==> Live(entries, targets, t) || Matches(e, targets, t)
  {
    if Live(entries + [e], targets, t) && !Matches(e, targets, t) {
      var i :| 0 <= i < |entries + [e]| && Matches((entries + [e])[i], targets, t);
      assert Matches(entries[i], targets, t);
    }
    if Live(entries, targets, t) {
      var i :| 0 <= i < |entries| && Matches(entries[i], targets, t);
      assert Matches((entries + [e])[i], targets, t);
    }
    if Matches(e, targets, t) {
      assert (entries + [e])[|entries|] == e;
    }
  }

  /** Looks at one thread: adds it when it is of interest and still there. */
  method Visit(ghost before: seq<Entry>, e: Entry, targets: seq<Target>, tasks: seq<Task>) returns (r: Result<seq<Task>>)
    requires IsScan(before, targets, tasks)
    ensures r.Err? <==> Unreadable(e, targets)
    ensures r.Ok? ==> IsScan(before + [e], targets, r.value) && tasks <= r.value
  {
    forall t ensures Live(before + [e], targets, t) <==> Live(before, targets, t) || Matches(e, targets, t) {
      ScanOne(before, e, targets, t);
    }
    if e.comm == Gone {
      return Ok(tasks);
    }
    if e.comm == Broken {
      return Err;
    }
    var wanted := Wanted(targets, e.comm.value);
    if !wanted || e.starttime == Gone {
      return Ok(tasks);
    }
    if e.starttime == Broken {
      return Err;
    }
    var task := Task(e.tid, e.starttime.value, e.comm.value);
    return Ok(if task in tasks then tasks else tasks + [task]);
  }

  ghost predicate Runs(tasks: seq<Task>, comm: Comm) {
    exists k :: 0 <= k < |tasks| && tasks[k].comm == comm
  }

  /** Every target has a live task. */
  ghost predicate Covered(targets: seq<Target>, tasks: seq<Task>) {
    forall i :: 0 <= i < |targets| ==> Runs(tasks, targets[i].comm)
  }

  method AllCovered(targets: seq<Target>, tasks: seq<Task>) returns (all: bool)
    ensures all == Covered(targets, tasks)
  {
    for i := 0 to |targets|
      invariant forall k :: 0 <= k < i ==> Runs(tasks, targets[k].comm)
    {
      var found := false;
      for j := 0 to |tasks|
        invariant found <==> exists k :: 0 <= k < j && tasks[k].comm == targets[i].comm
      {
        found := found || tasks[j].comm == targets[i].comm;
      }
      if !found {
        return false;
      }
    }
    return true;
  }

  /** A successful scan: what was hashed is the workload of all live matching tasks, each counted once. */
  ghost predicate Fingerprints(listing: Listing, targets: seq<Target>, tasks: seq<Task>, fed: seq<byte>) {
    && listing.processes <= MAX_PROC_PROCESSES && !listing.late
    && Scannable(listing.entries, targets)
    && IsScan(listing.entries, targets, tasks)
    && Covered(targets, tasks)
    && |tasks| <= MAX_MATCHED_TASKS
    && fed == Preimage(targets, tasks)
  }

  method Fingerprint(listing: Listing, targets: seq<Target>) returns (r: Result<(seq<byte>, nat)>, ghost tasks: seq<Task>)
    ensures r.Ok? ==> Fingerprints(listing, targets, tasks, r.value.0) && r.value.1 == |tasks|
    ensures r.Err? ==> forall all, fed :: !Fingerprints(listing, targets, all, fed)
  {
    var entries := listing.entries;
    var found: seq<Task> := [];
    tasks := found;
    if listing.processes > MAX_PROC_PROCESSES || listing.late {
      return Err, found;
    }
    for i := 0 to |entries|
      invariant IsScan(entries[..i], targets, found) && Scannable(entries[..i], targets)
      invariant |found| <= MAX_MATCHED_TASKS
    {
      if i >= MAX_PROC_TASKS {
        return Err, found;
      }
      assert entries[..i + 1] == entries[..i] + [entries[i]];
      var next := Visit(entries[..i], entries[i], targets, found);
      if next.Err? {
        return Err, found;
      }
      found := next.value;
      if |found| > MAX_MATCHED_TASKS {
        TooMany(listing, i + 1, targets, found);
        return Err, found;
      }
    }
    assert entries[..|entries|] == entries;
    tasks := found;
    var covered := AllCovered(targets, found);
    if !covered {
      forall all, fed ensures !Fingerprints(listing, targets, all, fed) {
        if Fingerprints(listing, targets, all, fed) {
          SameScan(entries, targets, found, all);
          CoveredBySame(targets, all, found);
        }
      }
      return Err, found;
    }
    var fed := CanonicalWorkload(targets, found);
    return Ok((fed, |found|)), found;
  }

  lemma {:induction false} Subsumes(a: seq<Task>, b: seq<Task>)
    requires Distinct(a) && forall t :: t in a ==> t in b
    ensures |a| <= |b|
  {
    if a != [] {
      var t := a[|a| - 1];
      assert t in a;
      var k :| 0 <= k < |b| && b[k] == t;
      var b' := b[..k] + b[k + 1..];
      forall u | u in a[..|a| - 1] ensures u in b' {
        assert u in a;
        var i :| 0 <= i < |b| && b[i] == u;
        if i < k { assert b'[i] == u; } else if i > k { assert b'[i - 1] == u; }
      }
      Subsumes(a[..|a| - 1], b');
    }
  }

  lemma TooMany(listing: Listing, n: nat, targets: seq<Target>, found: seq<Task>)
    requires n <= |listing.entries| && IsScan(listing.entries[..n], targets, found) && |found| > MAX_MATCHED_TASKS
    ensures forall all, fed :: !Fingerprints(listing, targets, all, fed)
  {
    forall all, fed ensures !Fingerprints(listing, targets, all, fed) {
      if Fingerprints(listing, targets, all, fed) {
        forall t | t in found ensures t in all {
          var i :| 0 <= i < n && Matches(listing.entries[..n][i], targets, t);
          assert Matches(listing.entries[i], targets, t);
        }
        Subsumes(found, all);
      }
    }
  }

  lemma SameScan(entries: seq<Entry>, targets: seq<Target>, a: seq<Task>, b: seq<Task>)
    requires IsScan(entries, targets, a) && IsScan(entries, targets, b)
    ensures multiset(a) == multiset(b)
  {
    forall t ensures multiset(a)[t] == multiset(b)[t] {
      DistinctCounts(a, t);
      DistinctCounts(b, t);
    }
  }

  lemma CoveredBySame(targets: seq<Target>, a: seq<Task>, b: seq<Task>)
    requires multiset(a) == multiset(b) && Covered(targets, a)
    ensures Covered(targets, b)
  {
    forall i | 0 <= i < |targets| ensures Runs(b, targets[i].comm) {
      assert Runs(a, targets[i].comm);
      var k :| 0 <= k < |a| && a[k].comm == targets[i].comm;
      assert a[k] in multiset(b);
      var j :| 0 <= j < |b| && b[j] == a[k];
    }
  }

  /** Two successful scans, taken at any times and in any order of the process table, hash the same bytes
  exactly when they were for the same targets and saw the same live tasks. */
  lemma SameFingerprintIffSameTasks(listing: Listing, targets: seq<Target>, tasks: seq<Task>, fed: seq<byte>,
                                    listing': Listing, targets': seq<Target>, tasks': seq<Task>, fed': seq<byte>)
    requires Fingerprints(listing, targets, tasks, fed) && Fingerprints(listing', targets', tasks', fed')
    requires AllValid(targets) && DistinctNames(targets) && AllValid(targets') && DistinctNames(targets')
    ensures fed == fed'
      <==> multiset(targets) == multiset(targets') && forall t :: Live(listing.entries, targets, t) <==> Live(listing'.entries, targets', t)
  {
    ScanIsShort(listing.entries, targets, tasks);
    ScanIsShort(listing'.entries, targets', tasks');
    SameBytesIffSameWorkload(targets, tasks, targets', tasks');
    if multiset(tasks) == multiset(tasks') {
      forall t ensures Live(listing.entries, targets, t) <==> Live(listing'.entries, targets', t) {
        assert t in tasks <==> t in multiset(tasks);
        assert t in tasks' <==> t in multiset(tasks');
      }
    }
    if forall t :: Live(listing.entries, targets, t) <==> Live(listing'.entries, targets', t) {
      assert IsScan(listing.entries, targets, tasks');
      SameScan(listing.entries, targets, tasks, tasks');
    }
  }

  lemma ScanIsShort(entries: seq<Entry>, targets: seq<Target>, tasks: seq<Task>)
    requires IsScan(entries, targets, tasks) && AllValid(targets)
    ensures Short(tasks)
  {
    forall i | 0 <= i < |tasks| ensures |tasks[i].comm| <= MAX_COMM_BYTES {
      assert Live(entries, targets, tasks[i]);
    }
  }

  // ---- Which target lists are accepted -------------------------------------------------------

  lemma SortedNeighbours(s: seq<Target>)
    requires Sorted(ByComm, s) && forall i :: 0 < i < |s| ==> s[i - 1].comm != s[i].comm
    ensures DistinctNames(s)
  {
    forall i, j | 0 <= i < j < |s| ensures s[i].comm != s[j].comm {
      if s[i].comm == s[j].comm {
        assert ByComm(s[i], s[j - 1]) || i == j - 1;
        assert ByComm(s[j - 1], s[j]);
        if i < j - 1 {
          LexAntisymmetric(s[j - 1].comm, s[j].comm);
        }
      }
    }
  }

  lemma {:induction false} DistinctIsCounted(a: seq<Target>, b: seq<Target>)
    requires multiset(a) == multiset(b) && DistinctNames(a)
    ensures DistinctNames(b)
  {
    forall i, j | 0 <= i < j < |b| ensures b[i].comm != b[j].comm {
      if b[i].comm == b[j].comm {
        assert b[i] in multiset(a) && b[j] in multiset(a);
        assert b[i] == b[j];
        assert b == b[..i] + [b[i]] + b[i + 1..j] + [b[j]] + b[j + 1..];
        assert multiset(b)[b[i]] >= 2;
        OncePerTarget(a, b[i]);
      }
    }
  }

  lemma {:induction false} OncePerTarget(a: seq<Target>, t: Target)
    requires DistinctNames(a)
    ensures multiset(a)[t] <= 1
  {
    if a != [] {
      var last := |a| - 1;
      assert a == a[..last] + [a[last]];
      OncePerTarget(a[..last], t);
      if a[last] == t {
        assert t !in a[..last];
      }
    }
  }

  /** Accepts exactly the target lists of valid, pairwise different names, and returns their one sorted
  arrangement. Comparing neighbours is enough. */
  method CanonicalTargets(targets: seq<Target>) returns (r: Result<seq<Target>>)
    ensures r.Ok? <==> 1 <= |targets| <= MAX_TARGETS && AllValid(targets) && DistinctNames(targets)
    ensures r.Ok? ==> Sorted(ByComm, r.value) && multiset(r.value) == multiset(targets)
    ensures r.Ok? ==> DistinctNames(r.value)
  {
    if |targets| < 1 || |targets| > MAX_TARGETS {
      return Err;
    }
    for i := 0 to |targets|
      invariant forall k :: 0 <= k < i ==> ValidComm(targets[k].comm)
    {
      if !ValidComm(targets[i].comm) {
        return Err;
      }
    }
    OrdersAreTotal();
    SortIsSorted(ByComm, targets);
    var sorted := Sort(ByComm, targets);
    for i := 1 to |sorted|
      invariant forall k :: 0 < k < i ==> sorted[k - 1].comm != sorted[k].comm
    {
      if sorted[i - 1].comm == sorted[i].comm {
        if DistinctNames(targets) {
          DistinctIsCounted(targets, sorted);
          assert false;
        }
        return Err;
      }
    }
    SortedNeighbours(sorted);
    DistinctIsCounted(sorted, targets);
    return Ok(sorted);
  }
}

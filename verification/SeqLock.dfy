/** Publication of a rule against concurrent readers. The scheduler makes the sequence odd, changes
the map, and makes the sequence even again; a task that must be classified reads the sequence,
looks its name up, and reads the sequence once more before it believes the answer. Every atomic
access is a step of its own, and any number of tasks interleave with the publisher. */
module SeqLock {
  import opened Rules
  import opened Runs
  import opened Scheduler

  const HALF := 0x8000_0000_0000_0000

  /** Where the one publisher stands. */
  datatype Writer = Idle | Updating(comm: Comm, state: RuleState) | Updated

  /** Where a classifying task stands. `at` is history: how many publications were complete when
  it read the sequence. */
  datatype Reader =
    | Resting
    | SawSeq(rulesSeq: u64, comm: Comm, at: nat)
    | Looked(rulesSeq: u64, comm: Comm, cls: RuleClass, at: nat)

  /** A task's classification and the sequence it was confirmed at; `version` is history. */
  datatype Task = Task(seen: u64, comm: Comm, cls: RuleClass, version: Option<nat>, reader: Reader)

  /** `loaded` is the map at start-up and `published[n]` the map after publication `n`. */
  datatype State = State(
    default: RuleClass, loaded: RuleTable, rulesSeq: u64, rulesMap: RuleTable,
    writer: Writer, published: seq<RuleTable>, tasks: map<nat, Task>)
  {
    /** The map after `n` completed publications. */
    function Version(n: nat): RuleTable
      requires n <= |published|
    {
      if n == 0 then loaded else published[n - 1]
    }
  }

  function Loaded(default: RuleClass, rulesMap: RuleTable): State {
    State(default, rulesMap, 2, rulesMap, Idle, [], map[])
  }

  datatype Event =
    | BeginUpdate(comm: Comm, state: RuleState)
    | WriteMap(ok: bool)
    | EndUpdate
    | Spawn(task: nat)
    | ReadSeq(task: nat, comm: Comm)
    | Lookup(task: nat)
    | Confirm(task: nat)
    | Defer(task: nat)

  /** The class of a name in a map; names without a rule get the default class. */
  function Classify(rulesMap: RuleTable, comm: Comm, default: RuleClass): RuleClass {
    if comm in rulesMap then rulesMap[comm] else default
  }

  /** The sequence number after `n` completed publications, as a 64-bit word; loading leaves 2. */
  function SeqOf(n: nat): u64 {
    (2 + 2 * n) % 0x1_0000_0000_0000_0000
  }

  predicate Enabled(s: State, e: Event) {
    match e
    case BeginUpdate(_, _) => s.writer.Idle?
    case WriteMap(_) => s.writer.Updating?
    case EndUpdate => s.writer.Updated?
    case Spawn(t) => t !in s.tasks
    case ReadSeq(t, _) => t in s.tasks && s.tasks[t].reader.Resting?
    case Lookup(t) => t in s.tasks && s.tasks[t].reader.SawSeq?
    case Confirm(t) => t in s.tasks && s.tasks[t].reader.Looked?
    case Defer(t) => t in s.tasks
  }

  function WithReader(s: State, t: nat, reader: Reader): State
    requires t in s.tasks
  {
    s.(tasks := s.tasks[t := s.tasks[t].(reader := reader)])
  }

  function Do(s: State, e: Event): State
    requires Enabled(s, e)
  {
    match e
    case BeginUpdate(comm, state) =>
      s.(rulesSeq := WrappingAdd(s.rulesSeq - s.rulesSeq % 2, 1), writer := Updating(comm, state))
    case WriteMap(ok) =>
      s.(rulesMap := if ok then WithState(s.rulesMap, s.writer.comm, s.writer.state) else s.rulesMap, writer := Updated)
    case EndUpdate =>
      s.(rulesSeq := WrappingAdd(s.rulesSeq - s.rulesSeq % 2, 2), writer := Idle, published := s.published + [s.rulesMap])
    case Spawn(t) =>
      s.(tasks := s.tasks[t := Task(U64 - 1, [], s.default, None, Resting)])
    case ReadSeq(t, comm) =>
      if s.rulesSeq % 2 == 1 then s
      else WithReader(s, t, SawSeq(s.rulesSeq, comm, |s.published|))
    case Lookup(t) =>
      var r := s.tasks[t].reader;
      WithReader(s, t, Looked(r.rulesSeq, r.comm, Classify(s.rulesMap, r.comm, s.default), r.at))
    case Confirm(t) =>
      var r := s.tasks[t].reader;
      if s.rulesSeq != r.rulesSeq || s.rulesSeq % 2 == 1 then WithReader(s, t, Resting)
      else s.(tasks := s.tasks[t := Task(r.rulesSeq, r.comm, r.cls, Some(r.at), Resting)])
    case Defer(t) =>
      WithReader(s, t, Resting)
  }

  ghost predicate Next(b: State, a: State) {
    exists e :: Enabled(b, e) && a == Do(b, e)
  }

  /** The sequence counts completed publications, and is odd exactly during one. */
  predicate WriterOk(s: State) {
    var n := |s.published|;
    match s.writer
    case Idle => s.rulesSeq == SeqOf(n) && s.rulesMap == s.Version(n)
    case Updating(_, _) => s.rulesSeq == SeqOf(n) + 1 && s.rulesMap == s.Version(n)
    case Updated => s.rulesSeq == SeqOf(n) + 1
  }

  /** A confirmed class is the one its own version of the map gives. */
  predicate ClassOk(s: State, task: Task) {
    match task.version
    case None => task.seen == U64 - 1
    case Some(v) => v <= |s.published| && task.seen == SeqOf(v) && task.cls == Classify(s.Version(v), task.comm, s.default)
  }

  /** What a task has read so far is worth something only while no publication has moved on. */
  predicate ReaderOk(s: State, task: Task) {
    match task.reader
    case Resting => true
    case SawSeq(q, _, at) => at <= |s.published| && q == SeqOf(at)
    case Looked(q, comm, cls, at) =>
      && at <= |s.published| && q == SeqOf(at)
      && (at == |s.published| && s.writer.Idle? ==> cls == Classify(s.Version(at), comm, s.default))
  }

  ghost predicate Inv(s: State) {
    && WriterOk(s)
    && forall t :: t in s.tasks ==> ClassOk(s, s.tasks[t]) && ReaderOk(s, s.tasks[t])
  }

  /** What publishing a rule does to classification: the name gets the rule's class, or the default class again, and
  no other name is classified differently. */
  lemma PublishedRuleIsSeen(rulesMap: RuleTable, comm: Comm, state: RuleState, other: Comm, default: RuleClass)
    ensures Classify(WithState(rulesMap, comm, state), comm, default) == match state case Present(cls) => cls case Absent => default
    ensures other != comm ==> Classify(WithState(rulesMap, comm, state), other, default) == Classify(rulesMap, other, default)
  {
  }

  lemma SeqOfIsEven(n: nat)
    ensures SeqOf(n) % 2 == 0 && SeqOf(n) + 1 < U64
    ensures SeqOf(n + 1) == WrappingAdd(SeqOf(n), 2)
  {
  }

  /** Two versions share a sequence number exactly when a multiple of 2^63 publications separates them. */
  lemma SeqOfRepeats(m: nat, n: nat)
    requires m <= n
    ensures SeqOf(m) == SeqOf(n) <==> (n - m) % 0x8000_0000_0000_0000 == 0
  {
  }

  /** During exactly one update below 2^63 publications is the sequence the number that stands for none. */
  lemma UnclassifiedNumberOccurs(n: nat)
    ensures n < HALF ==> (SeqOf(n) + 1 == U64 - 1 <==> n == HALF - 2)
  {
  }

  /** Fewer than 2^63 publications apart, equal sequence numbers mean equal versions. */
  lemma SeqOfIsInjective(m: nat, n: nat)
    requires m <= n < m + HALF && SeqOf(m) == SeqOf(n)
    ensures m == n
  {
  }

  lemma WriterStepKeepsInv(s: State, e: Event)
    requires Inv(s) && Enabled(s, e) && IsWriterStep(e)
    ensures Inv(Do(s, e))
  {
    SeqOfIsEven(|s.published|);
    var a := Do(s, e);
    forall t | t in a.tasks ensures ClassOk(a, a.tasks[t]) && ReaderOk(a, a.tasks[t]) {
      assert ClassOk(s, s.tasks[t]) && ReaderOk(s, s.tasks[t]);
      assert forall n: nat :: n <= |s.published| ==> a.Version(n) == s.Version(n);
    }
  }

  predicate IsWriterStep(e: Event) {
    e.BeginUpdate? || e.WriteMap? || e.EndUpdate?
  }

  lemma ConfirmKeepsInv(s: State, t: nat)
    requires Inv(s) && Enabled(s, Confirm(t)) && |s.published| < HALF
    ensures Inv(Do(s, Confirm(t)))
  {
    SeqOfIsEven(|s.published|);
    var a := Do(s, Confirm(t));
    assert ClassOk(s, s.tasks[t]) && ReaderOk(s, s.tasks[t]);
    var r := s.tasks[t].reader;
    if s.rulesSeq == r.rulesSeq && s.rulesSeq % 2 == 0 {
      SeqOfIsInjective(r.at, |s.published|);
    }
    assert ClassOk(a, a.tasks[t]) && ReaderOk(a, a.tasks[t]);
    OtherTasksKeep(s, a, t);
  }

  lemma OtherTasksKeep(s: State, a: State, t: nat)
    requires Inv(s) && a == s.(tasks := a.tasks) && a.tasks.Keys == s.tasks.Keys + {t}
    requires forall u :: u in s.tasks && u != t ==> a.tasks[u] == s.tasks[u]
    requires ClassOk(a, a.tasks[t]) && ReaderOk(a, a.tasks[t])
    ensures Inv(a)
  {
    forall u | u in a.tasks ensures ClassOk(a, a.tasks[u]) && ReaderOk(a, a.tasks[u]) {
      if u != t {
        assert u in s.tasks && ClassOk(s, s.tasks[u]) && ReaderOk(s, s.tasks[u]);
      }
    }
  }

  lemma ReadingKeepsInv(s: State, t: nat, reader: Reader)
    requires Inv(s) && t in s.tasks && ReaderOk(s, s.tasks[t].(reader := reader))
    ensures Inv(WithReader(s, t, reader))
  {
    assert ClassOk(s, s.tasks[t]);
    OtherTasksKeep(s, WithReader(s, t, reader), t);
  }

  lemma TaskStepKeepsInv(s: State, e: Event)
    requires Inv(s) && Enabled(s, e) && !IsWriterStep(e) && |s.published| < HALF
    ensures Inv(Do(s, e))
  {
    match e {
      case Spawn(t) =>
        OtherTasksKeep(s, Do(s, e), t);
      case ReadSeq(t, comm) =>
        if s.rulesSeq % 2 == 0 {
          SeqOfIsEven(|s.published|);
          ReadingKeepsInv(s, t, SawSeq(s.rulesSeq, comm, |s.published|));
        }
      case Lookup(t) =>
        assert ReaderOk(s, s.tasks[t]);
        var r := s.tasks[t].reader;
        ReadingKeepsInv(s, t, Looked(r.rulesSeq, r.comm, Classify(s.rulesMap, r.comm, s.default), r.at));
      case Confirm(t) =>
        ConfirmKeepsInv(s, t);
      case Defer(t) =>
        ReadingKeepsInv(s, t, Resting);
    }
  }

  /** Every run that starts loaded and stays below 2^63 publications keeps the invariant. */
  lemma RunsKeepInv(states: seq<State>, default: RuleClass, rulesMap: RuleTable, k: nat)
    requires IsRun(Next, states) && states[0] == Loaded(default, rulesMap) && k < |states|
    ensures |states[k].published| < HALF ==> Inv(states[k])
  {
    var bounded := (s: State) => |s.published| < HALF ==> Inv(s);
    forall b, a | bounded(b) && Next(b, a) ensures bounded(a) {
      var e :| Enabled(b, e) && a == Do(b, e);
      if |a.published| < HALF {
        if IsWriterStep(e) {
          WriterStepKeepsInv(b, e);
        } else {
          TaskStepKeepsInv(b, e);
        }
      }
    }
    Always(Next, bounded, states, k);
  }

  /** The three steps of one publication together do what `PublishRule` does in one call. */
  lemma PublicationIsThreeSteps(s: State, comm: Comm, state: RuleState, ok: bool)
    requires s.writer.Idle?
    ensures var a := Do(Do(Do(s, BeginUpdate(comm, state)), WriteMap(ok)), EndUpdate);
            && a.rulesSeq == Bump(s.rulesSeq)
            && a.rulesMap == (if ok then WithState(s.rulesMap, comm, state) else s.rulesMap)
            && a.published == s.published + [a.rulesMap]
  {
    var stable := s.rulesSeq - s.rulesSeq % 2;
    assert WrappingAdd(stable, 1) == stable + 1;
  }

  /** The map changes only in a step that begins and ends with the sequence odd, and the sequence
  is even exactly when no publication is under way; it then counts them all, failed ones included. */
  lemma MapChangesOnlyWhileOdd(states: seq<State>, default: RuleClass, rulesMap: RuleTable, k: nat)
    requires IsRun(Next, states) && states[0] == Loaded(default, rulesMap) && k + 1 < |states|
    requires |states[k + 1].published| < HALF
    ensures states[k].rulesMap != states[k + 1].rulesMap ==>
              states[k].rulesSeq % 2 == 1 && states[k + 1].rulesSeq == states[k].rulesSeq
    ensures states[k].rulesSeq % 2 == 0 <==> states[k].writer.Idle?
    ensures states[k].writer.Idle? ==> states[k].rulesSeq == SeqOf(|states[k].published|)
    ensures |states[k].published| <= |states[k + 1].published| <= |states[k].published| + 1
  {
    var e :| Enabled(states[k], e) && states[k + 1] == Do(states[k], e);
    RunsKeepInv(states, default, rulesMap, k);
    SeqOfIsEven(|states[k].published|);
  }

  /** Every confirmed class is the class its name has in the one version of the map whose sequence
  number it recorded; below 2^63 publications that number names no other version. */
  lemma ConfirmedClassIsOfOneVersion(
      states: seq<State>, default: RuleClass, rulesMap: RuleTable, k: nat, t: nat)
    requires IsRun(Next, states) && states[0] == Loaded(default, rulesMap) && k < |states|
    requires |states[k].published| < HALF && t in states[k].tasks && states[k].tasks[t].version.Some?
    ensures var s, task := states[k], states[k].tasks[t];
            forall v: nat :: v <= |s.published| && SeqOf(v) == task.seen ==>
              task.cls == Classify(s.Version(v), task.comm, s.default)
    ensures states[k].tasks[t].seen % 2 == 0
    ensures exists v: nat :: v <= |states[k].published| && SeqOf(v) == states[k].tasks[t].seen
  {
    RunsKeepInv(states, default, rulesMap, k);
    var s, task := states[k], states[k].tasks[t];
    assert ClassOk(s, task);
    SeqOfIsEven(task.version.value);
    forall v: nat | v <= |s.published| && SeqOf(v) == task.seen ensures v == task.version.value {
      if v <= task.version.value {
        SeqOfIsInjective(v, task.version.value);
      } else {
        SeqOfIsInjective(task.version.value, v);
      }
    }
  }

  /** The fast path compares before it looks at parity, and is sound with one exception. A task whose recorded
  sequence equals the current one already has the class a new lookup of its name would give, unless it was
  never classified and an update is under way after exactly 2^63 - 2 publications: then the sequence is the
  very number that stands for no classification. */
  lemma FastPathIsSound(states: seq<State>, default: RuleClass, rulesMap: RuleTable, k: nat, t: nat)
    requires IsRun(Next, states) && states[0] == Loaded(default, rulesMap) && k < |states|
    requires |states[k].published| < HALF && t in states[k].tasks
    requires states[k].tasks[t].seen == states[k].rulesSeq
    ensures var s, task := states[k], states[k].tasks[t];
            if task.version.Some? then s.writer.Idle? && task.cls == Classify(s.rulesMap, task.comm, s.default)
            else !s.writer.Idle? && |s.published| == HALF - 2
  {
    RunsKeepInv(states, default, rulesMap, k);
    var s, task := states[k], states[k].tasks[t];
    SeqOfIsEven(|s.published|);
    assert ClassOk(s, task);
    if task.version.Some? {
      SeqOfIsEven(task.version.value);
      SeqOfIsInjective(task.version.value, |s.published|);
    }
  }
}

/** The learned-rule store: a read-only base table, a learned table with a revision, and the
file that holds the learned table. A compare-and-set replaces the file before the memory. */
module Rules {
  import opened Ordering

  datatype Option<+T> = None | Some(value: T)
  datatype Result<+T> = Ok(value: T) | Err

  const MAX_COMM_BYTES := 15
  const MAX_RULES := 1024
  const U64 := 0x1_0000_0000_0000_0000
  type u64 = x: nat | x < U64

  /** Addition of 64-bit words. */
  function WrappingAdd(a: u64, b: u64): u64 {
    if a + b < U64 then a + b else a + b - U64
  }

  /** A task name as its UTF-8 bytes. */
  type Comm = seq<byte>

  /** Not empty, at most 15 bytes, and free of the C0, DEL and (two-byte) C1 control characters. */
  predicate ValidComm(comm: Comm) {
    && 1 <= |comm| <= MAX_COMM_BYTES
    && (forall i :: 0 <= i < |comm| ==> 32 <= comm[i] && comm[i] != 127)
    && (forall i :: 0 < i < |comm| ==> !(comm[i - 1] == 0xC2 && 0x80 <= comm[i] <= 0x9F))
  }

  datatype RuleClass = Latency | Batch
  datatype RuleState = Absent | Present(cls: RuleClass) {
    function Class(): Option<RuleClass> {
      match this case Absent => None case Present(c) => Some(c)
    }
  }
  type RuleTable = map<Comm, RuleClass>

  function ClassAt(table: RuleTable, comm: Comm): Option<RuleClass> {
    if comm in table then Some(table[comm]) else None
  }

  function StateAt(table: RuleTable, comm: Comm): RuleState {
    if comm in table then Present(table[comm]) else Absent
  }

  function WithState(table: RuleTable, comm: Comm, state: RuleState): RuleTable {
    match state
    case Absent => table - {comm}
    case Present(cls) => table[comm := cls]
  }

  /** What the classifier must see: base rules win, and the two tables never overlap. */
  function Effective(base: RuleTable, learned: RuleTable): RuleTable {
    learned + base
  }

  predicate Mergeable(base: RuleTable, learned: RuleTable) {
    base.Keys !! learned.Keys && |Effective(base, learned)| <= MAX_RULES
  }

  /** What reading the rules file yields; a missing file reads as no rules at revision 0. */
  datatype Document = Document(learned: RuleTable, revision: nat)

  /** How replacing the file ends: done, renamed with the directory sync failing, or not done. */
  datatype ReplaceOutcome = Durable | RenamedButUnsynced | NotReplaced

  datatype CasStatus = Applied | Noop | Conflict
  datatype CasResult =
    CasResult(status: CasStatus, previous: RuleState, current: RuleState, effective: RuleState, revision: nat)

  /** An immutable snapshot of the rules in memory. */
  datatype RuleSet = RuleSet(base: RuleTable, learned: RuleTable, revision: nat) {
    predicate Valid() {
      Mergeable(base, learned) && revision < U64
    }

    function Next(comm: Comm, desired: RuleState): RuleSet {
      RuleSet(base, WithState(learned, comm, desired), revision + 1)
    }

    function AsDocument(): Document {
      Document(learned, revision)
    }
  }

  /** The store as a value: the snapshot in memory, the file, and the uncertainty flag. */
  datatype StoreState = StoreState(rules: RuleSet, file: Document, uncertain: bool) {
    /** Memory and file hold the same rules at the same revision. */
    predicate Synced() {
      file == rules.AsDocument()
    }

    /** Whether a compare-and-set gets as far as replacing the file. */
    predicate Writes(comm: Comm, expected: RuleState, desired: RuleState, io: ReplaceOutcome) {
      && comm !in rules.base
      && StateAt(rules.learned, comm) == expected != desired
      && rules.Next(comm, desired).Valid()
      && !io.NotReplaced?
    }
  }

  class RuleStore {
    var rules: RuleSet
    var file: Document
    var uncertain: bool

    function State(): (s: StoreState)
      reads this
    {
      StoreState(rules, file, uncertain)
    }

    constructor Loaded(base: RuleTable, document: Document)
      ensures State() == StoreState(RuleSet(base, document.learned, document.revision), document, false)
    {
      rules := RuleSet(base, document.learned, document.revision);
      file := document;
      uncertain := false;
    }

    /** Opening fails exactly when the file's rules collide with base rules or overflow the table. */
    static method Open(base: RuleTable, document: Document) returns (r: Result<RuleStore>)
      requires document.revision < U64
      ensures r.Ok? <==> Mergeable(base, document.learned)
      ensures r.Ok? ==> fresh(r.value) && r.value.rules.Valid() && r.value.State().Synced()
      ensures r.Ok? ==> r.value.rules.base == base && r.value.file == document && !r.value.uncertain
    {
      if !Mergeable(base, document.learned) {
        return Err;
      }
      var store := new RuleStore.Loaded(base, document);
      return Ok(store);
    }

    /** Only a replaced file changes the store, and then memory and file change together. An error
    is returned for a base rule, for a change that may not be written, and for one that was not
    written durably. */
    method CompareAndSet(comm: Comm, expected: RuleState, desired: RuleState, io: ReplaceOutcome)
      returns (r: Result<CasResult>)
      requires rules.Valid()
      modifies this
      ensures rules.Valid()
      ensures old(State()).Writes(comm, expected, desired, io) ==>
                && rules == old(rules).Next(comm, desired)
                && file == rules.AsDocument()
                && uncertain == (old(uncertain) || io.RenamedButUnsynced?)
      ensures !old(State()).Writes(comm, expected, desired, io) ==> State() == old(State())
      ensures r.Ok? <==> && comm !in rules.base
                         && (StateAt(old(rules.learned), comm) == expected != desired ==>
                               io.Durable? && old(State()).Writes(comm, expected, desired, io))
      ensures r.Ok? ==> && r.value.previous == StateAt(old(rules.learned), comm)
                        && r.value.current == r.value.effective == StateAt(rules.learned, comm)
                        && r.value.revision == rules.revision
                        && (r.value.status.Conflict? <==> r.value.previous != expected)
                        && (r.value.status.Noop? <==> r.value.previous == expected == desired)
    {
      if comm in rules.base {
        return Err;
      }
      var previous := StateAt(rules.learned, comm);
      if previous != expected {
        r := Report(Conflict, comm, previous, previous);
        return;
      }
      if previous == desired {
        r := Report(Noop, comm, previous, desired);
        return;
      }
      var durable := Replace(rules.Next(comm, desired), io);
      if !durable {
        return Err;
      }
      r := Report(Applied, comm, previous, desired);
    }

    /** Replaces the file and then the memory, unless the new rules are not valid or the file cannot be replaced. */
    method Replace(next: RuleSet, io: ReplaceOutcome) returns (durable: bool)
      modifies this
      ensures durable <==> next.Valid() && io.Durable?
      ensures State() == if next.Valid() && !io.NotReplaced?
                         then StoreState(next, next.AsDocument(), old(uncertain) || io.RenamedButUnsynced?)
                         else old(State())
    {
      if !next.Valid() || io.NotReplaced? {
        return false;
      }
      rules, file := next, next.AsDocument();
      if io.RenamedButUnsynced? {
        uncertain := true;
      }
      return io.Durable?;
    }

    method Report(status: CasStatus, comm: Comm, previous: RuleState, current: RuleState) returns (r: Result<CasResult>)
      requires comm !in rules.base && current == StateAt(rules.learned, comm)
      ensures r == Ok(CasResult(status, previous, current, current, rules.revision))
    {
      var effective := StateAt(Effective(rules.base, rules.learned), comm);
      return Ok(CasResult(status, previous, current, effective, rules.revision));
    }
  }

  // ---- Names as map keys ---------------------------------------------------------------------

  const KEY_BYTES := 16

  /** A name as a key of the BPF map, filled up with zero bytes. */
  function BpfKey(comm: Comm): (key: seq<byte>)
    requires |comm| <= KEY_BYTES
    ensures |key| == KEY_BYTES && key[..|comm|] == comm && forall i :: |comm| <= i < KEY_BYTES ==> key[i] == 0
  {
    comm + seq(KEY_BYTES - |comm|, i => 0)
  }

  /** How many bytes come before the first zero byte. */
  function Visible(key: seq<byte>): (n: nat)
    ensures n <= |key| && (forall i :: 0 <= i < n ==> key[i] != 0) && (n < |key| ==> key[n] == 0)
  {
    if key == [] || key[0] == 0 then 0 else 1 + Visible(key[1..])
  }

  function CommFromKey(key: seq<byte>): Result<Comm> {
    if |key| != KEY_BYTES then Err
    else
      var comm := key[..Visible(key)];
      if ValidComm(comm) then Ok(comm) else Err
  }

  /** A valid name comes back from its key, a key gives a name only if it is valid and ends before the last byte,
  and different valid names have different keys. */
  lemma KeyRoundTrip(comm: Comm, other: Comm, key: seq<byte>)
    requires ValidComm(comm) && ValidComm(other)
    ensures CommFromKey(BpfKey(comm)) == Ok(comm)
    ensures BpfKey(comm) == BpfKey(other) <==> comm == other
    ensures CommFromKey(key) == Ok(comm) <==> |key| == KEY_BYTES && comm < key && key[|comm|] == 0
  {
    VisibleIs(BpfKey(comm), |comm|);
    VisibleIs(BpfKey(other), |other|);
    if |key| == KEY_BYTES && comm < key && key[|comm|] == 0 {
      VisibleIs(key, |comm|);
      assert key[..|comm|] == comm;
    }
  }

  lemma VisibleIs(key: seq<byte>, n: nat)
    requires n < |key| && key[n] == 0 && forall i :: 0 <= i < n ==> key[i] != 0
    ensures Visible(key) == n
  {
  }
}

/** The provider's journal of operations: one record for each operation id, written before the rule is
touched and marked completed after the rule has been read back. Saving replaces the file by a rename,
and only the sync of the directory after it makes the rename last through a crash of the host. */
module Journal {
  import opened Rules

  const MAX_JOURNAL_BYTES := 8_388_608

  type Id = string
  datatype Kind = Apply | Restore | Finalize
  datatype Phase = Started | Completed

  /** What an operation is reported as. */
  datatype Verdict = AsApplied | AsRestored | AsFinalized | AsNotApplied | AsUnknown

  /** A prepared mutation. `envelope` stands for the identifiers, pins and digests that travel with
  it, and `envelopeOk` for the outcome of checking them. */
  datatype Prepared =
    Prepared(comm: Comm, baseline: RuleState, desired: RuleState, envelope: string, envelopeOk: bool)
  {
    predicate Valid() {
      ValidComm(comm) && desired.Present? && baseline != desired && envelopeOk
    }

    /** The rule state an operation of this kind starts from. */
    function From(kind: Kind): RuleState {
      if kind == Apply then baseline else desired
    }

    /** The rule state an operation of this kind leaves. */
    function To(kind: Kind): RuleState {
      if kind == Restore then baseline else desired
    }
  }

  datatype Record = Record(
    kind: Kind, phase: Phase, result: Option<Verdict>,
    comm: Comm, baseline: RuleState, desired: RuleState, prepared: Prepared)
  {
    predicate Consistent() {
      && prepared.Valid()
      && comm == prepared.comm && baseline == prepared.baseline && desired == prepared.desired
    }

    predicate CompletedAs(verdict: Verdict) {
      phase == Completed && result == Some(verdict)
    }

    /** What the observed rule says about this operation. */
    function InferState(observed: RuleState, integrity: bool): Verdict {
      if !integrity then AsUnknown
      else match kind
        case Apply => if observed == desired then AsApplied else if observed == baseline then AsNotApplied else AsUnknown
        case Restore => if observed == baseline then AsRestored else if observed == desired then AsApplied else AsUnknown
        case Finalize => if observed == desired then AsFinalized else AsUnknown
    }
  }

  type Operations = map<Id, Record>

  function NewRecord(kind: Kind, p: Prepared): Record {
    Record(kind, Started, None, p.comm, p.baseline, p.desired, p)
  }

  /** The verdict that completes an operation of this kind. */
  function Completion(kind: Kind): Verdict {
    match kind case Apply => AsApplied case Restore => AsRestored case Finalize => AsFinalized
  }

  /** Equal in everything but progress. */
  predicate SameInput(a: Record, b: Record) {
    a == b.(phase := a.phase, result := a.result)
  }

  /** The length of an encoded journal, without the newline that ends the file. */
  type Size = Operations -> nat

  /** A record is started with no result, or completed as its kind completes. */
  predicate Proper(r: Record) {
    r.Consistent() && (if r.phase == Started then r.result == None else r.result == Some(Completion(r.kind)))
  }

  ghost predicate AllProper(ops: Operations) {
    forall id :: id in ops ==> Proper(ops[id])
  }

  /** Inputs stay, and completion is for good. */
  ghost predicate Extends(before: Operations, after: Operations) {
    forall id :: id in before ==>
      && id in after
      && SameInput(after[id], before[id])
      && (before[id].phase == Completed ==> after[id] == before[id])
  }

  // ---- The file ------------------------------------------------------------------------------

  /** The contents that are sure to last, and those renamed into place since. A process sees the last one;
  a host that comes back from a crash may see any. */
  datatype Disk = Disk(durable: Operations, renamed: seq<Operations>) {
    function Visible(): Operations {
      Version(|renamed|)
    }

    function Version(n: nat): Operations
      requires n <= |renamed|
    {
      if n == 0 then durable else renamed[n - 1]
    }

    function AfterCrash(n: nat): Disk
      requires n <= |renamed|
    {
      Disk(Version(n), [])
    }
  }

  /** How the system calls of saving end: all done, renamed with the directory sync failing, or not renamed. */
  datatype Save = Saved | SavedUnsynced | NotSaved

  /** How saving ends: a journal that is too long is not written. */
  function Outcome(size: Size, next: Operations, save: Save): Save {
    if size(next) > MAX_JOURNAL_BYTES then NotSaved else save
  }

  function Written(disk: Disk, next: Operations, outcome: Save): Disk {
    match outcome
    case Saved => Disk(next, [])
    case SavedUnsynced => disk.(renamed := disk.renamed + [next])
    case NotSaved => disk
  }

  /** Loading refuses a file that is too long, and one in which any record contradicts its own prepared
  input. The file has one byte more than the encoded journal; there is no file before the first record. */
  predicate Loads(size: Size, ops: Operations) {
    ops == map[] || (size(ops) + 1 <= MAX_JOURNAL_BYTES && forall id :: id in ops ==> ops[id].Consistent())
  }

  /** Saving and loading disagree by that one byte: what was saved loads again exactly when it is shorter
  than the limit. */
  lemma SavedLoadsIff(size: Size, disk: Disk, next: Operations, save: Save)
    requires AllProper(next) && next != map[] && Outcome(size, next, save) != NotSaved
    ensures Written(disk, next, Outcome(size, next, save)).Visible() == next && size(next) <= MAX_JOURNAL_BYTES
    ensures Loads(size, next) <==> size(next) < MAX_JOURNAL_BYTES
  {
    var after := Written(disk, next, save);
    assert after.Visible() == next;
  }

  // ---- Operations ----------------------------------------------------------------------------

  function Starting(ops: Operations, id: Id, record: Record): Operations {
    ops[id := record]
  }

  function AfterBegin(size: Size, disk: Disk, id: Id, record: Record, save: Save): Disk {
    var ops := disk.Visible();
    if id in ops then disk else Written(disk, Starting(ops, id, record), Outcome(size, Starting(ops, id, record), save))
  }

  /** An operation that is on record is handed back without saving anything. */
  function BeginResult(size: Size, ops: Operations, id: Id, record: Record, save: Save): Result<Record> {
    if id in ops then (if SameInput(ops[id], record) then Ok(ops[id]) else Err)
    else if Outcome(size, Starting(ops, id, record), save) == Saved then Ok(record) else Err
  }

  function Completing(ops: Operations, id: Id, verdict: Verdict): Operations
    requires id in ops
  {
    ops[id := ops[id].(phase := Completed, result := Some(verdict))]
  }

  function AfterComplete(size: Size, disk: Disk, id: Id, verdict: Verdict, save: Save): Disk {
    var ops := disk.Visible();
    if id !in ops || ops[id].phase == Completed then disk
    else Written(disk, Completing(ops, id, verdict), Outcome(size, Completing(ops, id, verdict), save))
  }

  predicate CompleteOk(size: Size, ops: Operations, id: Id, verdict: Verdict, save: Save) {
    && id in ops
    && (if ops[id].phase == Completed then ops[id].result == Some(verdict)
        else Outcome(size, Completing(ops, id, verdict), save) == Saved)
  }

  class Journal {
    const size: Size
    var disk: Disk

    constructor (size: Size)
      ensures this.size == size && disk == Disk(map[], [])
    {
      this.size := size;
      disk := Disk(map[], []);
    }

    method Get(id: Id, readable: bool) returns (r: Result<Option<Record>>)
      ensures r.Ok? <==> readable && Loads(size, disk.Visible())
      ensures r.Ok? ==> (r.value == None <==> id !in disk.Visible())
      ensures r.Ok? && id in disk.Visible() ==> r.value == Some(disk.Visible()[id])
    {
      var operations := disk.Visible();
      if !readable || !Loads(size, operations) {
        return Err;
      }
      return Ok(if id in operations then Some(operations[id]) else None);
    }

    /** Adds a started record under a new id, and then returns only when it is durable. Under a known id it
    only hands back the record, durable or not, and only to a caller with the same kind and prepared input. */
    method Begin(id: Id, record: Record, readable: bool, save: Save) returns (r: Result<Record>)
      modifies this
      ensures readable && Loads(size, old(disk).Visible()) ==>
                && disk == AfterBegin(size, old(disk), id, record, save)
                && r == BeginResult(size, old(disk).Visible(), id, record, save)
      ensures !(readable && Loads(size, old(disk).Visible())) ==> r.Err? && disk == old(disk)
      ensures r.Ok? && id !in old(disk).Visible() ==> disk == Disk(old(disk).Visible()[id := record], [])
      ensures r.Ok? && id in old(disk).Visible() ==> disk == old(disk)
      ensures r.Ok? ==> id in disk.Visible() && r.value == disk.Visible()[id] && SameInput(r.value, record)
    {
      var operations := disk.Visible();
      if !readable || !Loads(size, operations) {
        return Err;
      }
      if id in operations {
        var existing := operations[id];
        var expected := record.(phase := existing.phase, result := existing.result);
        if existing != expected {
          return Err;
        }
        return Ok(existing);
      }
      var ended := Replace(operations[id := record], save);
      return if ended == Saved then Ok(record) else Err;
    }

    /** Completes a started record; a completed one is only confirmed, and only with its own result. */
    method Complete(id: Id, verdict: Verdict, readable: bool, save: Save) returns (ok: bool)
      modifies this
      ensures readable && Loads(size, old(disk).Visible()) ==>
                && disk == AfterComplete(size, old(disk), id, verdict, save)
                && ok == CompleteOk(size, old(disk).Visible(), id, verdict, save)
      ensures !(readable && Loads(size, old(disk).Visible())) ==> !ok && disk == old(disk)
      ensures ok ==> id in disk.Visible() && disk.Visible()[id].CompletedAs(verdict)
      ensures ok && old(disk).Visible()[id].phase == Started ==> disk.renamed == []
    {
      var operations := disk.Visible();
      if !readable || !Loads(size, operations) || id !in operations {
        return false;
      }
      var record := operations[id];
      if record.phase == Completed {
        return record.result == Some(verdict);
      }
      var ended := Replace(operations[id := record.(phase := Completed, result := Some(verdict))], save);
      return ended == Saved;
    }

    method Replace(next: Operations, save: Save) returns (ended: Save)
      modifies this
      ensures ended == Outcome(size, next, save) && disk == Written(old(disk), next, ended)
    {
      ended := if size(next) > MAX_JOURNAL_BYTES then NotSaved else save;
      match ended
      case Saved => disk := Disk(next, []);
      case SavedUnsynced => disk := disk.(renamed := disk.renamed + [next]);
      case NotSaved =>
    }
  }
}

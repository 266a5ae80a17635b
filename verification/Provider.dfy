/** The provider's mutation protocol, step by step. One provider process journals an operation, reads the
rule, asks the scheduler for a compare-and-set, reads back and completes the record. Readings and
compare-and-sets are connections to one socket, which the scheduler accepts and handles one after the other,
in the order they were made. The provider may fail or die between any two steps and be asked again; a
connection it has abandoned is still handled when its turn comes, or dropped. The host may crash. Other
writers change rules whenever they like. */
module Provider {
  import opened Rules
  import opened Runs
  import opened Journal
  import Scheduler

  /** A connection in the socket; tickets number them in the order they were made. */
  datatype Request =
    | Cas(id: Id, comm: Comm, from: RuleState, to: RuleState, ticket: nat)
    | Look(comm: Comm, ticket: nat)

  /** Where the provider stands in handling one call. */
  datatype Handler =
    | Idle
    | Called(id: Id, kind: Kind, prepared: Prepared)
    | Replay(id: Id, kind: Kind, prepared: Prepared)
    | Preflight(id: Id, kind: Kind, prepared: Prepared)
    | Sending(id: Id, kind: Kind, prepared: Prepared)
    | Waiting(id: Id, kind: Kind, prepared: Prepared, ticket: nat)
    | Readback(id: Id, kind: Kind, prepared: Prepared)
    | Checking(id: Id, record: Record)
    | Finishing(id: Id, verdict: Verdict)
  {
    /** Needs to know the rule before it can go on. */
    predicate Reading() {
      Replay? || Preflight? || Readback? || Checking?
    }

    function Comm(): Comm
      requires Reading()
    {
      if Checking? then record.comm else prepared.comm
    }
  }

  /** History: who changed a rule, and from what to what. */
  datatype Change = Change(author: Option<Id>, comm: Comm, before: RuleState, after: RuleState)

  /** History: what a caller was told. */
  datatype Receipt = Receipt(id: Id, verdict: Verdict)

  /** `asked` is the ticket of the reading the provider waits for. `unsynced` is history: the operations whose
  record has changed since the last save that was synced. */
  datatype Sys = Sys(
    size: Size, disk: Disk, unsynced: set<Id>, rules: RuleTable, readOnly: set<Comm>, socket: seq<Request>, tickets: nat,
    handler: Handler, asked: Option<nat>, changes: seq<Change>, receipts: seq<Receipt>)
  {
    const journal: Operations := disk.Visible()
  }

  /** How a served request is answered; `Lost` when nobody hears the answer. */
  datatype Reply = Told(status: Scheduler.Status) | Lost

  datatype Event =
    | Accept(id: Id, kind: Kind, prepared: Prepared)
    | AskStatus(id: Id)
    | Begin(readable: bool, save: Save)
    | Ask
    | Answer(ok: bool, integrity: bool, heard: bool)
    | Send
    | Serve(took: bool, reply: Reply)
    | Drop
    | GiveUp
    | Complete(readable: bool, save: Save)
    | Outside(comm: Comm, state: RuleState)
    | HostCrash(version: nat)

  /** What the scheduler may do with a request: it takes effect only on the expected rule, and an
  answer other than failure says truthfully whether it did. */
  predicate MayServe(current: RuleState, readOnly: bool, from: RuleState, to: RuleState, took: bool, reply: Reply) {
    && (took ==> !readOnly && current == from)
    && (reply.Told? ==>
          && reply.status != Scheduler.Found
          && (reply.status == Scheduler.WasApplied ==> took)
          && (reply.status == Scheduler.WasNoop ==> current == from == to)
          && (reply.status == Scheduler.WasConflict ==> current != from))
  }

  predicate Enabled(s: Sys, e: Event) {
    match e
    case Accept(_, _, _) => s.handler.Idle?
    case AskStatus(_) => s.handler.Idle?
    case Begin(_, _) => s.handler.Called?
    case Ask => s.handler.Reading() && s.asked.None?
    case Answer(_, _, _) => s.socket != [] && s.socket[0].Look?
    case Send => s.handler.Sending?
    case Serve(took, reply) =>
      && s.socket != [] && s.socket[0].Cas?
      && var c := s.socket[0]; MayServe(StateAt(s.rules, c.comm), c.comm in s.readOnly, c.from, c.to, took, reply)
    case Drop => s.socket != []
    case GiveUp => true
    case Complete(_, _) => s.handler.Finishing?
    case Outside(_, _) => true
    case HostCrash(n) => n <= |s.disk.renamed|
  }

  function Reported(s: Sys, id: Id, verdict: Verdict): Sys {
    s.(handler := Idle, receipts := s.receipts + [Receipt(id, verdict)])
  }

  /** The operations with unsynced records after a save for `id`. */
  function Unsynced(unsynced: set<Id>, id: Id, outcome: Save): set<Id> {
    match outcome
    case Saved => {}
    case SavedUnsynced => unsynced + {id}
    case NotSaved => unsynced
  }

  /** A record is replaced in the journal, as far as saving works. */
  function Stored(s: Sys, id: Id, next: Operations, save: Save): Sys {
    var outcome := Outcome(s.size, next, save);
    s.(disk := Written(s.disk, next, outcome), unsynced := Unsynced(s.unsynced, id, outcome))
  }

  /** Journaling the start of an operation, and choosing between a replay and a fresh attempt. */
  function DoBegin(s: Sys, readable: bool, save: Save): Sys
    requires s.handler.Called?
  {
    var Called(id, kind, p) := s.handler;
    if !readable || !Loads(s.size, s.journal) then s.(handler := Idle)
    else
      var record := NewRecord(kind, p);
      var next := if id in s.journal then s else Stored(s, id, Starting(s.journal, id, record), save);
      match BeginResult(s.size, s.journal, id, record, save)
      case Err => next.(handler := Idle)
      case Ok(existing) =>
        if existing.CompletedAs(Completion(kind)) then next.(handler := Replay(id, kind, p))
        else next.(handler := Preflight(id, kind, p))
  }

  /** Acting on what was read. `integrity` says whether map, file and store agreed with it. */
  function DoRead(s: Sys, integrity: bool): Sys
    requires s.handler.Reading()
  {
    match s.handler
    case Replay(id, kind, p) =>
      var atTarget := StateAt(s.rules, p.comm) == p.To(kind) && integrity;
      Reported(s, id, if atTarget then Completion(kind) else AsUnknown)
    case Preflight(id, kind, p) =>
      var seen := StateAt(s.rules, p.comm);
      if seen == p.To(kind) && integrity then s.(handler := Finishing(id, Completion(kind)))
      else if kind == Finalize || seen != p.From(kind) then s.(handler := Idle)
      else s.(handler := Sending(id, kind, p))
    case Readback(id, kind, p) =>
      if StateAt(s.rules, p.comm) == p.To(kind) && integrity then s.(handler := Finishing(id, Completion(kind)))
      else s.(handler := Idle)
    case Checking(id, record) =>
      var verdict := record.InferState(StateAt(s.rules, record.comm), integrity);
      if verdict == Completion(record.kind) then s.(handler := Finishing(id, verdict))
      else Reported(s, id, verdict)
  }

  function Connected(s: Sys, r: Request): Sys {
    s.(socket := s.socket + [r], tickets := s.tickets + 1)
  }

  function DoAsk(s: Sys): Sys
    requires s.handler.Reading()
  {
    Connected(s, Look(s.handler.Comm(), s.tickets)).(asked := Some(s.tickets))
  }

  /** A reading is answered in its turn, and counts if it is the one the provider waits for. */
  function DoAnswer(s: Sys, ok: bool, integrity: bool, heard: bool): Sys
    requires s.socket != []
  {
    var next := s.(socket := s.socket[1..]);
    if heard && s.asked == Some(s.socket[0].ticket) && s.handler.Reading() then
      var told := next.(asked := None);
      if ok then DoRead(told, integrity) else told.(handler := Idle)
    else next
  }

  function DoSend(s: Sys): Sys
    requires s.handler.Sending?
  {
    var Sending(id, kind, p) := s.handler;
    Connected(s, Cas(id, p.comm, p.From(kind), p.To(kind), s.tickets)).(handler := Waiting(id, kind, p, s.tickets))
  }

  /** A request takes effect on its rule. */
  function Moved(s: Sys, id: Id, comm: Comm, to: RuleState): Sys {
    s.(rules := WithState(s.rules, comm, to), changes := s.changes + [Change(Some(id), comm, StateAt(s.rules, comm), to)])
  }

  /** A compare-and-set leaves the socket, and its sender may still be there to hear the answer. */
  function Replied(s: Sys, ticket: nat, reply: Reply): Sys
    requires s.socket != []
  {
    var next := s.(socket := s.socket[1..]);
    if s.handler.Waiting? && s.handler.ticket == ticket && reply.Told? then
      if reply.status in {Scheduler.WasApplied, Scheduler.WasNoop}
      then next.(handler := Readback(s.handler.id, s.handler.kind, s.handler.prepared))
      else next.(handler := Idle)
    else next
  }

  function DoServe(s: Sys, took: bool, reply: Reply): Sys
    requires s.socket != [] && s.socket[0].Cas?
  {
    var c := s.socket[0];
    Replied(if took then Moved(s, c.id, c.comm, c.to) else s, c.ticket, reply)
  }

  function DoComplete(s: Sys, readable: bool, save: Save): Sys
    requires s.handler.Finishing?
  {
    var Finishing(id, verdict) := s.handler;
    if !readable || !Loads(s.size, s.journal) then s.(handler := Idle)
    else
      var next := if id !in s.journal || s.journal[id].phase == Completed then s
                  else Stored(s, id, Completing(s.journal, id, verdict), save);
      if CompleteOk(s.size, s.journal, id, verdict, save) then Reported(next, id, verdict) else next.(handler := Idle)
  }

  /** The file falls back to any version since the last sync; provider and scheduler start again, so the
  socket is new. The rules are those of the scheduler's own file. */
  function DoCrash(s: Sys, n: nat): Sys
    requires n <= |s.disk.renamed|
  {
    s.(disk := s.disk.AfterCrash(n), unsynced := {}, socket := [], handler := Idle, asked := None)
  }

  function Do(s: Sys, e: Event): Sys
    requires Enabled(s, e)
  {
    match e
    case Accept(id, kind, p) => if p.Valid() then s.(handler := Called(id, kind, p)) else s
    case AskStatus(id) =>
      if !Loads(s.size, s.journal) then s
      else if id in s.journal then s.(handler := Checking(id, s.journal[id]))
      else Reported(s, id, AsUnknown)
    case Begin(readable, save) => DoBegin(s, readable, save)
    case Ask => DoAsk(s)
    case Answer(ok, integrity, heard) => DoAnswer(s, ok, integrity, heard)
    case Send => DoSend(s)
    case Serve(took, reply) => DoServe(s, took, reply)
    case Drop => s.(socket := s.socket[1..])
    case GiveUp => s.(handler := Idle, asked := None)
    case Complete(readable, save) => DoComplete(s, readable, save)
    case Outside(comm, state) =>
      s.(rules := WithState(s.rules, comm, state),
         changes := s.changes + [Change(None, comm, StateAt(s.rules, comm), state)])
    case HostCrash(n) => DoCrash(s, n)
  }

  ghost predicate Next(b: Sys, a: Sys) {
    exists e :: Enabled(b, e) && a == Do(b, e)
  }

  /** A provider without a journal file, any rules, and any encoding. */
  function Fresh(size: Size, rules: RuleTable, readOnly: set<Comm>): Sys {
    Sys(size, Disk(map[], []), {}, rules, readOnly, [], 0, Idle, None, [], [])
  }

  // ---- The invariant -------------------------------------------------------------------------

  /** The journal holds this very input under this id. */
  predicate Journaled(ops: Operations, id: Id, kind: Kind, p: Prepared) {
    id in ops && SameInput(ops[id], NewRecord(kind, p))
  }

  /** The rule move belongs to the operation journaled under the id. */
  predicate OwnMove(ops: Operations, id: Id, comm: Comm, before: RuleState, after: RuleState) {
    && id in ops && ops[id].kind != Finalize
    && comm == ops[id].prepared.comm
    && before == ops[id].prepared.From(ops[id].kind)
    && after == ops[id].prepared.To(ops[id].kind)
  }

  /** Versions of the file only ever grew, and a record differs from its synced form exactly when it was
  changed since. */
  ghost predicate DiskOk(disk: Disk, unsynced: set<Id>) {
    && (forall n :: 0 <= n <= |disk.renamed| ==>
          && AllProper(disk.Version(n))
          && Extends(disk.durable, disk.Version(n)) && Extends(disk.Version(n), disk.Visible()))
    && (forall id :: id in unsynced <==>
          id in disk.Visible() && (id !in disk.durable || disk.durable[id] != disk.Visible()[id]))
  }

  predicate HandlerOk(handler: Handler, journal: Operations) {
    match handler
    case Idle => true
    case Called(_, _, p) => p.Valid()
    case Replay(id, kind, p) => Journaled(journal, id, kind, p) && journal[id].phase == Completed
    case Preflight(id, kind, p) => Journaled(journal, id, kind, p) && journal[id].phase == Started
    case Sending(id, kind, p) => Journaled(journal, id, kind, p) && journal[id].phase == Started && kind != Finalize
    case Waiting(id, kind, p, _) => Journaled(journal, id, kind, p) && journal[id].phase == Started && kind != Finalize
    case Readback(id, kind, p) => Journaled(journal, id, kind, p) && journal[id].phase == Started && kind != Finalize
    case Checking(id, record) => id in journal && record == journal[id]
    case Finishing(id, verdict) => id in journal && verdict == Completion(journal[id].kind)
  }

  /** Tickets rise along the socket. */
  ghost predicate Numbered(socket: seq<Request>, tickets: nat) {
    && (forall i, j :: 0 <= i < j < |socket| ==> socket[i].ticket < socket[j].ticket)
    && (forall i :: 0 <= i < |socket| ==> socket[i].ticket < tickets)
  }

  /** The request is the move of an operation that is journaled and not completed. */
  predicate Backed(journal: Operations, r: Request)
    requires r.Cas?
  {
    OwnMove(journal, r.id, r.comm, r.from, r.to) && journal[r.id].phase == Started
  }

  /** Only the oldest connection may be a compare-and-set. */
  ghost predicate OneMove(socket: seq<Request>, journal: Operations) {
    && (forall i :: 0 < i < |socket| ==> socket[i].Look?)
    && (socket != [] && socket[0].Cas? ==> Backed(journal, socket[0]))
  }

  /** The request a waiting provider has sent. */
  function SentBy(handler: Handler): Request
    requires handler.Waiting?
  {
    var p := handler.prepared;
    Cas(handler.id, p.comm, p.From(handler.kind), p.To(handler.kind), handler.ticket)
  }

  /** The provider waits for its newest connection, and has heard of every earlier one's end before it sends,
  before it reads back and before it completes. */
  predicate Turn(handler: Handler, asked: Option<nat>, socket: seq<Request>, tickets: nat) {
    && (asked.Some? ==> handler.Reading() && asked.value + 1 == tickets)
    && (handler.Waiting? ==>
          && handler.ticket + 1 == tickets
          && (socket != [] && socket[|socket| - 1].ticket == handler.ticket ==> socket[|socket| - 1] == SentBy(handler)))
    && (handler.Sending? || handler.Finishing? || (handler.Readback? && asked.None?) ==> socket == [])
  }

  ghost predicate Inv(s: Sys) {
    && DiskOk(s.disk, s.unsynced)
    && HandlerOk(s.handler, s.journal)
    && Numbered(s.socket, s.tickets)
    && OneMove(s.socket, s.journal)
    && Turn(s.handler, s.asked, s.socket, s.tickets)
  }

  /** The newest connection is alone when its turn comes. */
  lemma NewestIsLast(socket: seq<Request>, tickets: nat)
    requires Numbered(socket, tickets) && socket != [] && socket[0].ticket + 1 == tickets
    ensures socket[1..] == []
  {
    assert socket[|socket| - 1].ticket < tickets;
  }

  lemma Popped(socket: seq<Request>, tickets: nat, journal: Operations)
    requires Numbered(socket, tickets) && OneMove(socket, journal) && socket != []
    ensures Numbered(socket[1..], tickets) && OneMove(socket[1..], journal)
  {
  }

  lemma Pushed(socket: seq<Request>, tickets: nat, journal: Operations, r: Request)
    requires Numbered(socket, tickets) && OneMove(socket, journal) && r.ticket == tickets
    requires r.Look? || (socket == [] && Backed(journal, r))
    ensures Numbered(socket + [r], tickets + 1) && OneMove(socket + [r], journal)
  {
  }

  lemma ExtendsIsTransitive(a: Operations, b: Operations, c: Operations)
    requires Extends(a, b) && Extends(b, c)
    ensures Extends(a, c)
  {
  }

  /** A record is added, or a started one completed. */
  ghost predicate Progress(ops: Operations, id: Id, next: Operations) {
    && id in next && Proper(next[id]) && next == ops[id := next[id]]
    && (id in ops ==> ops[id].phase == Started && next[id].phase == Completed && SameInput(next[id], ops[id]))
  }

  lemma ProgressExtends(ops: Operations, id: Id, next: Operations)
    requires AllProper(ops) && Progress(ops, id, next)
    ensures Extends(ops, next) && AllProper(next)
  {
  }

  lemma VersionsAfterRename(disk: Disk, next: Operations, n: nat)
    requires n <= |disk.renamed| + 1
    ensures var after := Written(disk, next, SavedUnsynced);
            && after.durable == disk.durable && after.Visible() == next
            && after.Version(n) == (if n <= |disk.renamed| then disk.Version(n) else next)
  {
  }

  lemma RenameKeepsDisk(disk: Disk, unsynced: set<Id>, id: Id, next: Operations)
    requires DiskOk(disk, unsynced) && Progress(disk.Visible(), id, next)
    ensures DiskOk(Written(disk, next, SavedUnsynced), unsynced + {id})
  {
    var ops, after := disk.Visible(), Written(disk, next, SavedUnsynced);
    assert ops == disk.Version(|disk.renamed|) && disk.durable == disk.Version(0);
    ProgressExtends(ops, id, next);
    forall n | 0 <= n <= |after.renamed|
      ensures AllProper(after.Version(n)) && Extends(after.durable, after.Version(n)) && Extends(after.Version(n), after.Visible())
    {
      VersionsAfterRename(disk, next, n);
      if n <= |disk.renamed| {
        ExtendsIsTransitive(disk.Version(n), ops, next);
      } else {
        ExtendsIsTransitive(disk.durable, ops, next);
      }
    }
  }

  /** Saving keeps the file in order, however it ends. */
  lemma StoreKeepsDisk(disk: Disk, unsynced: set<Id>, id: Id, next: Operations, outcome: Save)
    requires DiskOk(disk, unsynced) && Progress(disk.Visible(), id, next)
    ensures DiskOk(Written(disk, next, outcome), Unsynced(unsynced, id, outcome))
    ensures Written(disk, next, outcome).Visible() in {disk.Visible(), next}
  {
    assert disk.Visible() == disk.Version(|disk.renamed|);
    match outcome
    case Saved => ProgressExtends(disk.Visible(), id, next);
    case SavedUnsynced => RenameKeepsDisk(disk, unsynced, id, next);
    case NotSaved =>
  }

  lemma CrashKeepsDisk(disk: Disk, unsynced: set<Id>, n: nat)
    requires DiskOk(disk, unsynced) && n <= |disk.renamed|
    ensures DiskOk(disk.AfterCrash(n), {})
  {
  }

  lemma VisibleIsProper(disk: Disk, unsynced: set<Id>)
    requires DiskOk(disk, unsynced)
    ensures AllProper(disk.Visible()) && Extends(disk.Visible(), disk.Visible())
  {
    assert disk.Visible() == disk.Version(|disk.renamed|);
  }

  /** Only journaling and crashes touch the file. */
  lemma DiskFrame(s: Sys, e: Event)
    requires Enabled(s, e) && !e.Begin? && !e.Complete? && !e.HostCrash?
    ensures Do(s, e).disk == s.disk && Do(s, e).unsynced == s.unsynced
  {
  }

  /** Only served requests and other writers change rules. */
  lemma RulesFrame(s: Sys, e: Event)
    requires Enabled(s, e) && !e.Serve? && !e.Outside?
    ensures Do(s, e).rules == s.rules && Do(s, e).changes == s.changes
  {
  }

  lemma ReadOnlyFrame(s: Sys, e: Event)
    requires Enabled(s, e)
    ensures Do(s, e).readOnly == s.readOnly && Do(s, e).size == s.size
  {
  }

  /** A save for one record, however it ends, keeps the file in order and every record in place. */
  lemma StoredKeepsDisk(s: Sys, id: Id, next: Operations, save: Save)
    requires DiskOk(s.disk, s.unsynced) && Progress(s.journal, id, next)
    ensures var a := Stored(s, id, next, save);
            DiskOk(a.disk, a.unsynced) && Extends(s.journal, a.journal)
  {
    VisibleIsProper(s.disk, s.unsynced);
    ProgressExtends(s.journal, id, next);
    StoreKeepsDisk(s.disk, s.unsynced, id, next, Outcome(s.size, next, save));
  }

  lemma BeginFrame(s: Sys, readable: bool, save: Save)
    requires s.handler.Called?
    ensures var Called(id, kind, p) := s.handler;
            var a, stored := DoBegin(s, readable, save), Stored(s, id, Starting(s.journal, id, NewRecord(kind, p)), save);
            || (a.disk == s.disk && a.unsynced == s.unsynced)
            || (id !in s.journal && a.disk == stored.disk && a.unsynced == stored.unsynced)
  {
  }

  lemma BeginKeepsDisk(s: Sys, readable: bool, save: Save)
    requires DiskOk(s.disk, s.unsynced) && s.handler.Called? && s.handler.prepared.Valid()
    ensures var a := DoBegin(s, readable, save);
            && DiskOk(a.disk, a.unsynced) && Extends(s.journal, a.journal)
  {
    var Called(id, kind, p) := s.handler;
    VisibleIsProper(s.disk, s.unsynced);
    BeginFrame(s, readable, save);
    if id !in s.journal {
      assert Proper(NewRecord(kind, p));
      StoredKeepsDisk(s, id, Starting(s.journal, id, NewRecord(kind, p)), save);
    }
  }

  lemma CompleteFrame(s: Sys, readable: bool, save: Save)
    requires s.handler.Finishing? && s.handler.id in s.journal
    ensures var Finishing(id, verdict) := s.handler;
            var a, stored := DoComplete(s, readable, save), Stored(s, id, Completing(s.journal, id, verdict), save);
            || (a.disk == s.disk && a.unsynced == s.unsynced)
            || (s.journal[id].phase == Started && a.disk == stored.disk && a.unsynced == stored.unsynced)
  {
  }

  lemma CompleteKeepsDisk(s: Sys, readable: bool, save: Save)
    requires DiskOk(s.disk, s.unsynced) && s.handler.Finishing? && HandlerOk(s.handler, s.journal)
    ensures var a := DoComplete(s, readable, save);
            && DiskOk(a.disk, a.unsynced) && Extends(s.journal, a.journal)
  {
    var Finishing(id, verdict) := s.handler;
    VisibleIsProper(s.disk, s.unsynced);
    assert Proper(s.journal[id]);
    CompleteFrame(s, readable, save);
    if s.journal[id].phase == Started {
      StoredKeepsDisk(s, id, Completing(s.journal, id, verdict), save);
    }
  }

  /** Every step but a crash of the host keeps every journaled input and every completion. */
  lemma StepKeepsDisk(s: Sys, e: Event)
    requires DiskOk(s.disk, s.unsynced) && HandlerOk(s.handler, s.journal) && Enabled(s, e)
    ensures DiskOk(Do(s, e).disk, Do(s, e).unsynced)
    ensures !e.HostCrash? ==> Extends(s.journal, Do(s, e).journal)
  {
    VisibleIsProper(s.disk, s.unsynced);
    if e.Begin? {
      BeginKeepsDisk(s, e.readable, e.save);
    } else if e.Complete? {
      CompleteKeepsDisk(s, e.readable, e.save);
    } else if e.HostCrash? {
      CrashKeepsDisk(s.disk, s.unsynced, e.version);
    } else {
      DiskFrame(s, e);
    }
  }

  /** Journaling hands over a record that suits the handler. */
  lemma BeginKeepsHandler(s: Sys, readable: bool, save: Save)
    requires AllProper(s.journal) && s.handler.Called? && s.handler.prepared.Valid()
    ensures var a := DoBegin(s, readable, save); HandlerOk(a.handler, a.journal)
  {
    var Called(id, kind, p) := s.handler;
    if id in s.journal {
      assert Proper(s.journal[id]);
    }
  }

  lemma ReadKeepsHandler(s: Sys, integrity: bool)
    requires HandlerOk(s.handler, s.journal) && s.handler.Reading()
    ensures HandlerOk(DoRead(s, integrity).handler, s.journal) && DoRead(s, integrity).disk == s.disk
  {
  }

  lemma StepKeepsHandler(s: Sys, e: Event)
    requires AllProper(s.journal) && HandlerOk(s.handler, s.journal) && Enabled(s, e)
    ensures HandlerOk(Do(s, e).handler, Do(s, e).journal)
  {
    if e.Begin? {
      BeginKeepsHandler(s, e.readable, e.save);
    } else if e.Answer? {
      if s.handler.Reading() {
        ReadKeepsHandler(s.(socket := s.socket[1..], asked := None), e.integrity);
      }
    }
  }

  lemma AnswerKeepsTurn(s: Sys, ok: bool, integrity: bool, heard: bool)
    requires Numbered(s.socket, s.tickets) && Turn(s.handler, s.asked, s.socket, s.tickets) && s.socket != []
    ensures var a := DoAnswer(s, ok, integrity, heard); Turn(a.handler, a.asked, a.socket, a.tickets)
  {
    if s.asked == Some(s.socket[0].ticket) {
      NewestIsLast(s.socket, s.tickets);
    }
  }

  lemma ServeKeepsTurn(s: Sys, took: bool, reply: Reply)
    requires Numbered(s.socket, s.tickets) && Turn(s.handler, s.asked, s.socket, s.tickets)
    requires s.socket != [] && s.socket[0].Cas?
    ensures var a := DoServe(s, took, reply); Turn(a.handler, a.asked, a.socket, a.tickets)
  {
    if s.handler.Waiting? && s.handler.ticket == s.socket[0].ticket {
      NewestIsLast(s.socket, s.tickets);
    }
  }

  lemma StepKeepsTurn(s: Sys, e: Event)
    requires Numbered(s.socket, s.tickets) && Turn(s.handler, s.asked, s.socket, s.tickets) && Enabled(s, e)
    ensures var a := Do(s, e); Turn(a.handler, a.asked, a.socket, a.tickets)
  {
    if e.Answer? {
      AnswerKeepsTurn(s, e.ok, e.integrity, e.heard);
    } else if e.Serve? {
      ServeKeepsTurn(s, e.took, e.reply);
    }
  }

  /** What a step does to the socket: nothing, a connection at the end, the first one gone, or all gone. */
  lemma SocketFrame(s: Sys, e: Event)
    requires Enabled(s, e)
    ensures
      var a := Do(s, e);
      || (e.Ask? && a == DoAsk(s))
      || (e.Send? && a == DoSend(s))
      || ((e.Answer? || e.Serve? || e.Drop?) && s.socket != [] && a.socket == s.socket[1..] && a.tickets == s.tickets)
      || (e.HostCrash? && a.socket == [] && a.tickets == s.tickets)
      || (!e.Ask? && !e.Send? && !e.HostCrash? && a.socket == s.socket && a.tickets == s.tickets)
  {
  }

  /** Only completing changes a record that is there. */
  lemma RecordsStay(s: Sys, e: Event, id: Id)
    requires Enabled(s, e) && !e.Complete? && !e.HostCrash? && id in s.journal
    ensures id in Do(s, e).journal && Do(s, e).journal[id] == s.journal[id]
  {
    if !e.Begin? {
      DiskFrame(s, e);
    }
  }

  lemma SendKeepsSocket(s: Sys)
    requires Numbered(s.socket, s.tickets) && Turn(s.handler, s.asked, s.socket, s.tickets)
    requires s.handler.Sending? && HandlerOk(s.handler, s.journal)
    ensures var a := DoSend(s); Numbered(a.socket, a.tickets) && OneMove(a.socket, a.journal)
  {
    var Sending(id, kind, p) := s.handler;
    Pushed(s.socket, s.tickets, s.journal, Cas(id, p.comm, p.From(kind), p.To(kind), s.tickets));
  }

  lemma StepKeepsSocket(s: Sys, e: Event)
    requires Numbered(s.socket, s.tickets) && OneMove(s.socket, s.journal) && Turn(s.handler, s.asked, s.socket, s.tickets)
    requires HandlerOk(s.handler, s.journal) && Enabled(s, e)
    ensures Numbered(Do(s, e).socket, Do(s, e).tickets) && OneMove(Do(s, e).socket, Do(s, e).journal)
  {
    SocketFrame(s, e);
    if e.Ask? {
      Pushed(s.socket, s.tickets, s.journal, Look(s.handler.Comm(), s.tickets));
    } else if e.Send? {
      SendKeepsSocket(s);
    } else if e.Answer? || e.Serve? || e.Drop? {
      Popped(s.socket, s.tickets, s.journal);
      DiskFrame(s, e);
    } else if !e.HostCrash? && !e.Complete? && s.socket != [] && s.socket[0].Cas? {
      RecordsStay(s, e, s.socket[0].id);
    }
  }

  lemma StepKeepsInv(s: Sys, e: Event)
    requires Inv(s) && Enabled(s, e)
    ensures Inv(Do(s, e))
    ensures !e.HostCrash? ==> Extends(s.journal, Do(s, e).journal)
  {
    VisibleIsProper(s.disk, s.unsynced);
    StepKeepsDisk(s, e);
    StepKeepsHandler(s, e);
    StepKeepsSocket(s, e);
    StepKeepsTurn(s, e);
  }

  lemma RunsKeepInv(states: seq<Sys>, k: nat)
    requires IsRun(Next, states) && Inv(states[0]) && k < |states|
    ensures Inv(states[k])
  {
    forall b, a | Inv(b) && Next(b, a) ensures Inv(a) {
      var e :| Enabled(b, e) && a == Do(b, e);
      StepKeepsInv(b, e);
    }
    Always(Next, Inv, states, k);
  }
}

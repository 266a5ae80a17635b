/** Retrying one apply or restore until it completes, with no other writer of its rule. Attempts may fail at
any step, replies may be lost, requests of abandoned attempts may be served late, and the host may crash. */
module ProviderRetry {
  import opened Rules
  import opened Runs
  import opened Journal
  import opened Provider
  import Scheduler

  /** The one operation that is retried. */
  datatype Op = Op(id: Id, kind: Kind, prepared: Prepared) {
    predicate Valid() { prepared.Valid() && kind != Finalize }
    function Comm(): Comm { prepared.comm }
    function From(): RuleState { prepared.From(kind) }
    function To(): RuleState { prepared.To(kind) }
    function Record(): Record { NewRecord(kind, prepared) }
  }

  /** No other writer touches the rule, and the id is not reused for anything else. */
  predicate Alone(op: Op, e: Event) {
    && (e.Outside? ==> e.comm != op.Comm())
    && (e.Accept? && (e.id == op.id || e.prepared.comm == op.Comm()) ==>
          e.id == op.id && e.kind == op.kind && e.prepared == op.prepared)
  }

  ghost predicate SoloNext(op: Op, b: Sys, a: Sys) {
    exists e :: Enabled(b, e) && Alone(op, e) && a == Do(b, e)
  }

  /** How often the rule of `comm` has changed. */
  function ChangesOf(changes: seq<Change>, comm: Comm): nat {
    if changes == [] then 0
    else ChangesOf(changes[..|changes| - 1], comm) + if changes[|changes| - 1].comm == comm then 1 else 0
  }

  lemma OneMoreChange(changes: seq<Change>, c: Change, comm: Comm)
    ensures ChangesOf(changes + [c], comm) == ChangesOf(changes, comm) + if c.comm == comm then 1 else 0
  {
    assert (changes + [c])[..|changes|] == changes;
  }

  /** Before the first attempt: the rule is where the operation starts from, and nothing about the
  operation is journaled or under way. */
  ghost predicate Ready(op: Op, s: Sys) {
    && op.Valid() && Inv(s) && s.handler.Idle?
    && op.id !in s.journal && op.Comm() !in s.readOnly
    && StateAt(s.rules, op.Comm()) == op.From()
    && (forall i :: 0 <= i < |s.socket| && s.socket[i].Cas? ==> s.socket[i].comm != op.Comm() && s.socket[i].id != op.id)
  }

  // ---- What stays true while the operation is alone ------------------------------------------

  /** The rule has moved at most once, and only from `From` to `To`. */
  ghost predicate MovedAtMostOnce(op: Op, moves: nat, rules: RuleTable, changes: seq<Change>) {
    var at := StateAt(rules, op.Comm());
    && (at == op.From() || at == op.To())
    && ChangesOf(changes, op.Comm()) == moves + (if at == op.To() then 1 else 0)
  }

  /** The rule has moved before anything says that the operation is complete. */
  predicate JournalSolo(op: Op, journal: Operations, at: RuleState) {
    op.id in journal ==>
      Journaled(journal, op.id, op.kind, op.prepared) && (journal[op.id].phase == Completed ==> at == op.To())
  }

  predicate RequestSolo(op: Op, r: Request) {
    r.Cas? && (r.comm == op.Comm() || r.id == op.id) ==>
      r.comm == op.Comm() && r.id == op.id && r.from == op.From() && r.to == op.To()
  }

  /** The handler works on this operation, or on one that has neither its id nor its rule. */
  predicate HandlerSolo(op: Op, handler: Handler, at: RuleState) {
    match handler
    case Idle => true
    case Checking(id, record) => id == op.id ==> SameInput(record, op.Record())
    case Finishing(id, verdict) => id == op.id ==> at == op.To()
    case _ =>
      handler.id == op.id || handler.prepared.comm == op.Comm() ==>
        handler.id == op.id && handler.kind == op.kind && handler.prepared == op.prepared
  }

  ghost predicate Solo(op: Op, moves: nat, s: Sys) {
    var at := StateAt(s.rules, op.Comm());
    && op.Valid() && op.Comm() !in s.readOnly
    && MovedAtMostOnce(op, moves, s.rules, s.changes)
    && JournalSolo(op, s.journal, at)
    && (forall i :: 0 <= i < |s.socket| ==> RequestSolo(op, s.socket[i]))
    && HandlerSolo(op, s.handler, at)
  }

  lemma OtherRuleStays(table: RuleTable, comm: Comm, state: RuleState, other: Comm)
    requires comm != other
    ensures StateAt(WithState(table, comm, state), other) == StateAt(table, other)
  {
  }

  /** A change of another rule, or the operation's own move. */
  lemma CountMove(op: Op, moves: nat, rules: RuleTable, changes: seq<Change>, c: Change)
    requires op.From() != op.To() && MovedAtMostOnce(op, moves, rules, changes)
    requires c.comm == op.Comm() ==> StateAt(rules, c.comm) == op.From() && c.after == op.To()
    ensures MovedAtMostOnce(op, moves, WithState(rules, c.comm, c.after), changes + [c])
    ensures StateAt(rules, op.Comm()) == op.To() ==> StateAt(WithState(rules, c.comm, c.after), op.Comm()) == op.To()
  {
    OneMoreChange(changes, c, op.Comm());
    if c.comm != op.Comm() {
      OtherRuleStays(rules, c.comm, c.after, op.Comm());
    }
  }

  lemma ServeFrame(s: Sys, took: bool, reply: Reply)
    requires s.socket != [] && s.socket[0].Cas?
    ensures var a, c := DoServe(s, took, reply), s.socket[0];
            && a.rules == (if took then WithState(s.rules, c.comm, c.to) else s.rules)
            && a.changes == s.changes + if took then [Change(Some(c.id), c.comm, StateAt(s.rules, c.comm), c.to)] else []
  {
  }

  /** Only a served request of the operation itself moves the rule, and then to `To`. */
  lemma StepMovesAtMostOnce(op: Op, moves: nat, s: Sys, e: Event)
    requires op.Valid() && MovedAtMostOnce(op, moves, s.rules, s.changes) && Enabled(s, e) && Alone(op, e)
    requires forall i :: 0 <= i < |s.socket| ==> RequestSolo(op, s.socket[i])
    ensures MovedAtMostOnce(op, moves, Do(s, e).rules, Do(s, e).changes)
    ensures StateAt(s.rules, op.Comm()) == op.To() ==> StateAt(Do(s, e).rules, op.Comm()) == op.To()
  {
    if e.Outside? {
      CountMove(op, moves, s.rules, s.changes, Change(None, e.comm, StateAt(s.rules, e.comm), e.state));
    } else if e.Serve? {
      var c := s.socket[0];
      assert RequestSolo(op, c);
      ServeFrame(s, e.took, e.reply);
      if e.took {
        CountMove(op, moves, s.rules, s.changes, Change(Some(c.id), c.comm, StateAt(s.rules, c.comm), c.to));
      }
    } else {
      RulesFrame(s, e);
    }
  }

  lemma BeginKeepsJournalSolo(op: Op, s: Sys, readable: bool, save: Save, at: RuleState)
    requires s.handler.Called? && JournalSolo(op, s.journal, at) && HandlerSolo(op, s.handler, at)
    ensures JournalSolo(op, DoBegin(s, readable, save).journal, at)
  {
  }

  lemma CompleteKeepsJournalSolo(op: Op, s: Sys, readable: bool, save: Save, at: RuleState)
    requires s.handler.Finishing? && JournalSolo(op, s.journal, at) && HandlerSolo(op, s.handler, at)
    ensures JournalSolo(op, DoComplete(s, readable, save).journal, at)
  {
  }

  lemma VersionIsSolo(op: Op, version: Operations, journal: Operations, at: RuleState)
    requires Extends(version, journal) && JournalSolo(op, journal, at)
    ensures JournalSolo(op, version, at)
  {
  }

  lemma StepKeepsJournalSolo(op: Op, s: Sys, e: Event, at: RuleState)
    requires DiskOk(s.disk, s.unsynced) && Enabled(s, e)
    requires JournalSolo(op, s.journal, at) && HandlerSolo(op, s.handler, at)
    ensures JournalSolo(op, Do(s, e).journal, at)
  {
    if e.HostCrash? {
      VersionIsSolo(op, s.disk.Version(e.version), s.journal, at);
    } else if e.Begin? {
      BeginKeepsJournalSolo(op, s, e.readable, e.save, at);
    } else if e.Complete? {
      CompleteKeepsJournalSolo(op, s, e.readable, e.save, at);
    } else {
      DiskFrame(s, e);
    }
  }

  lemma StepKeepsRequests(op: Op, s: Sys, e: Event)
    requires Enabled(s, e) && HandlerSolo(op, s.handler, StateAt(s.rules, op.Comm()))
    requires forall i :: 0 <= i < |s.socket| ==> RequestSolo(op, s.socket[i])
    ensures forall i :: 0 <= i < |Do(s, e).socket| ==> RequestSolo(op, Do(s, e).socket[i])
  {
    SocketFrame(s, e);
  }

  lemma ReadKeepsSolo(op: Op, s: Sys, integrity: bool)
    requires s.handler.Reading() && HandlerOk(s.handler, s.journal) && op.Valid()
    requires HandlerSolo(op, s.handler, StateAt(s.rules, op.Comm()))
    ensures HandlerSolo(op, DoRead(s, integrity).handler, StateAt(s.rules, op.Comm()))
  {
  }

  /** Nothing but an answer or a call gives the handler new work. */
  lemma StepKeepsHandlerSolo(op: Op, s: Sys, e: Event, at: RuleState)
    requires Enabled(s, e) && Alone(op, e) && op.Valid() && HandlerOk(s.handler, s.journal)
    requires JournalSolo(op, s.journal, at) && HandlerSolo(op, s.handler, at) && at == StateAt(s.rules, op.Comm())
    ensures HandlerSolo(op, Do(s, e).handler, at)
  {
    if e.Answer? && s.handler.Reading() {
      ReadKeepsSolo(op, s.(socket := s.socket[1..], asked := None), e.integrity);
    }
  }

  /** What was said about a moved rule stays true when it moves. */
  lemma LaterStateSuits(op: Op, handler: Handler, journal: Operations, at: RuleState, later: RuleState)
    requires HandlerSolo(op, handler, at) && JournalSolo(op, journal, at) && (at == op.To() ==> later == op.To())
    ensures HandlerSolo(op, handler, later) && JournalSolo(op, journal, later)
  {
  }

  lemma SoloStep(op: Op, moves: nat, s: Sys, e: Event)
    requires Inv(s) && Solo(op, moves, s) && Enabled(s, e) && Alone(op, e)
    ensures Inv(Do(s, e)) && Solo(op, moves, Do(s, e))
  {
    StepKeepsInv(s, e);
    StepMovesAtMostOnce(op, moves, s, e);
    var at := StateAt(s.rules, op.Comm());
    StepKeepsJournalSolo(op, s, e, at);
    StepKeepsRequests(op, s, e);
    StepKeepsHandlerSolo(op, s, e, at);
    ReadOnlyFrame(s, e);
    LaterStateSuits(op, Do(s, e).handler, Do(s, e).journal, at, StateAt(Do(s, e).rules, op.Comm()));
  }

  lemma SoloRun(op: Op, states: seq<Sys>, k: nat)
    requires IsRun((b, a) => SoloNext(op, b, a), states) && Ready(op, states[0]) && k < |states|
    ensures Inv(states[k]) && Solo(op, ChangesOf(states[0].changes, op.Comm()), states[k])
  {
    var moves := ChangesOf(states[0].changes, op.Comm());
    var inv := (s: Sys) => Inv(s) && Solo(op, moves, s);
    var next := (b: Sys, a: Sys) => SoloNext(op, b, a);
    forall b, a | inv(b) && next(b, a) ensures inv(a) {
      var e :| Enabled(b, e) && Alone(op, e) && a == Do(b, e);
      SoloStep(op, moves, b, e);
    }
    assert Solo(op, moves, states[0]);
    Always(next, inv, states, k);
  }

  // ---- An attempt that is not cut short ------------------------------------------------------

  ghost predicate SoloReaches(op: Op, s: Sys, t: Sys) {
    Reaches((b, a) => SoloNext(op, b, a), s, t)
  }

  lemma Then(op: Op, s: Sys, t: Sys, e: Event)
    requires SoloReaches(op, s, t) && Enabled(t, e) && Alone(op, e)
    ensures SoloReaches(op, s, Do(t, e))
  {
    ReachesOneMore((b, a) => SoloNext(op, b, a), s, t, Do(t, e));
  }

  /** The operation is done: completed in the journal, the rule in place, and the caller told. */
  ghost predicate Done(op: Op, moves: nat, s: Sys) {
    && op.id in s.journal && s.journal[op.id].CompletedAs(Completion(op.kind))
    && StateAt(s.rules, op.Comm()) == op.To()
    && ChangesOf(s.changes, op.Comm()) == moves + 1
    && s.receipts != [] && s.receipts[|s.receipts| - 1] == Receipt(op.id, Completion(op.kind))
    && s.handler.Idle?
  }

  /** The journal with the operation on record. */
  function Begun(op: Op, journal: Operations): Operations {
    if op.id in journal then journal else Starting(journal, op.id, op.Record())
  }

  /** The journal can be loaded now, and can be saved and loaded again with what the attempt adds. */
  ghost predicate Fits(op: Op, size: Size, journal: Operations) {
    && Loads(size, journal) && Loads(size, Begun(op, journal))
    && (Begun(op, journal)[op.id].phase == Started ==>
          size(Completing(Begun(op, journal), op.id, Completion(op.kind))) <= MAX_JOURNAL_BYTES)
  }

  /** The scheduler deals with everything that earlier attempts left in the socket. */
  lemma {:induction false} Drain(op: Op, moves: nat, start: Sys, s: Sys) returns (t: Sys)
    requires SoloReaches(op, start, s) && Inv(s) && Solo(op, moves, s) && s.handler.Idle?
    ensures SoloReaches(op, start, t) && Inv(t) && Solo(op, moves, t) && t.handler.Idle?
    ensures t.socket == [] && t.disk == s.disk && t.size == s.size
    ensures StateAt(s.rules, op.Comm()) == op.To() ==> StateAt(t.rules, op.Comm()) == op.To()
    decreases |s.socket|
  {
    if s.socket == [] {
      t := s;
    } else {
      var r := s.socket[0];
      var e := if r.Look? then Answer(true, true, false)
               else Serve(StateAt(s.rules, r.comm) == r.from && r.comm !in s.readOnly, Lost);
      Then(op, start, s, e);
      SoloStep(op, moves, s, e);
      StepMovesAtMostOnce(op, moves, s, e);
      DiskFrame(s, e);
      SocketFrame(s, e);
      ReadOnlyFrame(s, e);
      t := Drain(op, moves, start, Do(s, e));
    }
  }

  /** With the socket empty, a reading is answered at once. */
  lemma AskAndHear(op: Op, start: Sys, s: Sys) returns (t: Sys)
    requires SoloReaches(op, start, s) && s.handler.Reading() && s.asked.None? && s.socket == []
    ensures t == DoRead(s.(tickets := s.tickets + 1), true) && SoloReaches(op, start, t)
  {
    Then(op, start, s, Ask);
    var asked := DoAsk(s);
    assert asked.socket == [Look(s.handler.Comm(), s.tickets)];
    Then(op, start, asked, Answer(true, true, true));
    t := DoAnswer(asked, true, true, true);
    assert asked.socket[1..] == [];
    assert asked.(socket := [], asked := None) == s.(tickets := s.tickets + 1);
  }

  /** The operation is on record, the rule where it should be, and only the completion is missing. */
  ghost predicate NearlyDone(op: Op, moves: nat, s: Sys) {
    && s.handler == Finishing(op.id, Completion(op.kind))
    && op.id in s.journal && s.journal[op.id] == op.Record() && Loads(s.size, s.journal)
    && s.size(Completing(s.journal, op.id, Completion(op.kind))) <= MAX_JOURNAL_BYTES
    && StateAt(s.rules, op.Comm()) == op.To()
    && ChangesOf(s.changes, op.Comm()) == moves + 1
  }

  lemma CompletionFinishes(op: Op, moves: nat, start: Sys, s: Sys)
    requires SoloReaches(op, start, s) && NearlyDone(op, moves, s)
    ensures Done(op, moves, DoComplete(s, true, Saved)) && SoloReaches(op, start, DoComplete(s, true, Saved))
  {
    Then(op, start, s, Complete(true, Saved));
    assert DoComplete(s, true, Saved).journal == Completing(s.journal, op.id, Completion(op.kind));
  }

  lemma BeginKnown(op: Op, s: Sys)
    requires op.id in s.journal && Proper(s.journal[op.id]) && SameInput(s.journal[op.id], op.Record()) && Loads(s.size, s.journal)
    ensures DoBegin(s.(handler := Called(op.id, op.kind, op.prepared)), true, Saved) ==
            s.(handler := if s.journal[op.id].phase == Completed then Replay(op.id, op.kind, op.prepared)
                          else Preflight(op.id, op.kind, op.prepared))
  {
  }

  lemma BeginNew(op: Op, s: Sys)
    requires op.Valid() && op.id !in s.journal && Loads(s.size, s.journal) && Loads(s.size, Begun(op, s.journal))
    ensures DoBegin(s.(handler := Called(op.id, op.kind, op.prepared)), true, Saved) ==
            s.(disk := Disk(Begun(op, s.journal), []), unsynced := {}, handler := Preflight(op.id, op.kind, op.prepared))
    ensures Begun(op, s.journal)[op.id] == op.Record() && Proper(op.Record())
  {
    assert Begun(op, s.journal) != map[];
  }

  /** A call that begins from a free provider and a quiet socket gets the operation on record. */
  lemma BeginSucceeds(op: Op, moves: nat, start: Sys, s: Sys) returns (t: Sys)
    requires SoloReaches(op, start, s) && Inv(s) && Solo(op, moves, s) && s.handler.Idle? && s.socket == []
    requires Fits(op, s.size, s.journal)
    ensures SoloReaches(op, start, t)
    ensures t.journal == Begun(op, s.journal) && Proper(t.journal[op.id]) && SameInput(t.journal[op.id], op.Record())
    ensures t == s.(disk := t.disk, unsynced := t.unsynced, handler := t.handler)
    ensures t.handler == if t.journal[op.id].phase == Completed then Replay(op.id, op.kind, op.prepared)
                         else Preflight(op.id, op.kind, op.prepared)
  {
    VisibleIsProper(s.disk, s.unsynced);
    var called := s.(handler := Called(op.id, op.kind, op.prepared));
    Then(op, start, s, Accept(op.id, op.kind, op.prepared));
    Then(op, start, called, Begin(true, Saved));
    t := DoBegin(called, true, Saved);
    if op.id in s.journal {
      assert Proper(s.journal[op.id]);
      BeginKnown(op, s);
    } else {
      BeginNew(op, s);
    }
  }

  /** What sending, being served and hearing of it comes to, with the socket empty. */
  lemma SendAndServe(op: Op, s: Sys)
    requires s.handler == Sending(op.id, op.kind, op.prepared) && s.socket == []
    requires StateAt(s.rules, op.Comm()) == op.From()
    ensures var sent := DoSend(s);
            && sent.socket == [Cas(op.id, op.Comm(), op.From(), op.To(), s.tickets)] && sent.rules == s.rules && sent.readOnly == s.readOnly
            && DoServe(sent, true, Provider.Told(Scheduler.WasApplied)) ==
               Moved(s, op.id, op.Comm(), op.To()).(tickets := s.tickets + 1, handler := Readback(op.id, op.kind, op.prepared))
  {
    assert DoSend(s).socket[1..] == [];
  }

  lemma MovedCounts(op: Op, moves: nat, s: Sys)
    requires StateAt(s.rules, op.Comm()) == op.From() && ChangesOf(s.changes, op.Comm()) == moves
    ensures var a := Moved(s, op.id, op.Comm(), op.To());
            StateAt(a.rules, op.Comm()) == op.To() && ChangesOf(a.changes, op.Comm()) == moves + 1
  {
    OneMoreChange(s.changes, Change(Some(op.id), op.Comm(), op.From(), op.To()), op.Comm());
  }

  lemma ServeIsEnabled(op: Op, s: Sys)
    requires op.Comm() !in s.readOnly && StateAt(s.rules, op.Comm()) == op.From()
    requires s.tickets > 0 && s.socket == [Cas(op.id, op.Comm(), op.From(), op.To(), s.tickets - 1)]
    ensures Enabled(s, Serve(true, Provider.Told(Scheduler.WasApplied)))
  {
  }

  /** The request is sent, served at once, and read back. */
  lemma SendSucceeds(op: Op, moves: nat, start: Sys, s: Sys) returns (t: Sys)
    requires SoloReaches(op, start, s) && s.handler == Sending(op.id, op.kind, op.prepared) && s.socket == [] && s.asked.None?
    requires op.Comm() !in s.readOnly
    requires StateAt(s.rules, op.Comm()) == op.From() && ChangesOf(s.changes, op.Comm()) == moves
    ensures SoloReaches(op, start, t) && t.handler == Finishing(op.id, Completion(op.kind))
    ensures t.disk == s.disk && t.size == s.size
    ensures StateAt(t.rules, op.Comm()) == op.To() && ChangesOf(t.changes, op.Comm()) == moves + 1
  {
    SendAndServe(op, s);
    MovedCounts(op, moves, s);
    Then(op, start, s, Send);
    ServeIsEnabled(op, DoSend(s));
    Then(op, start, DoSend(s), Serve(true, Provider.Told(Scheduler.WasApplied)));
    var served := DoServe(DoSend(s), true, Provider.Told(Scheduler.WasApplied));
    t := AskAndHear(op, start, served);
  }

  lemma AttemptCompletes(op: Op, moves: nat, start: Sys, s: Sys) returns (t: Sys)
    requires SoloReaches(op, start, s) && Inv(s) && Solo(op, moves, s) && s.handler.Idle? && Fits(op, s.size, s.journal)
    ensures SoloReaches(op, start, t) && Done(op, moves, t)
  {
    var quiet := Drain(op, moves, start, s);
    var begun := BeginSucceeds(op, moves, start, quiet);
    t := AskAndHear(op, start, begun);
    if begun.handler.Preflight? {
      assert begun.journal[op.id] == op.Record();
      if t.handler.Sending? {
        t := SendSucceeds(op, moves, start, t);
      }
      CompletionFinishes(op, moves, start, t);
      t := DoComplete(t, true, Saved);
    }
  }

  /** Retrying converges. Through any run of failed, crashed or abandoned attempts, with requests lost or
  served late and the host crashing, the rule moves at most once. Whenever the provider is free, and the
  journal has room for the operation, there is a run on, with nothing failing, that ends with the operation
  completed, the rule in place after exactly one move in all, and the caller told. */
  lemma RetryConverges(op: Op, states: seq<Sys>, k: nat)
    requires IsRun((b, a) => SoloNext(op, b, a), states) && Ready(op, states[0]) && k < |states|
    ensures var moves := ChangesOf(states[0].changes, op.Comm());
            && moves <= ChangesOf(states[k].changes, op.Comm()) <= moves + 1
            && (states[k].handler.Idle? && Fits(op, states[k].size, states[k].journal) ==>
                  exists t :: SoloReaches(op, states[k], t) && Done(op, moves, t))
  {
    var moves := ChangesOf(states[0].changes, op.Comm());
    SoloRun(op, states, k);
    if states[k].handler.Idle? && Fits(op, states[k].size, states[k].journal) {
      ReachesSelf((b, a) => SoloNext(op, b, a), states[k]);
      assert SoloReaches(op, states[k], states[k]);
      var t := AttemptCompletes(op, moves, states[k], states[k]);
    }
  }

  // ---- Asking for the status -----------------------------------------------------------------

  lemma StatusFinds(op: Op, start: Sys, s: Sys) returns (t: Sys)
    requires SoloReaches(op, start, s) && s.handler.Idle? && s.asked.None? && s.socket == [] && Loads(s.size, s.journal)
    requires op.id in s.journal && Proper(s.journal[op.id]) && SameInput(s.journal[op.id], op.Record())
    requires StateAt(s.rules, op.Comm()) == op.To() && op.Valid()
    ensures SoloReaches(op, start, t)
    ensures t == s.(tickets := s.tickets + 1, handler := Finishing(op.id, Completion(op.kind)))
  {
    Then(op, start, s, AskStatus(op.id));
    var checking := s.(handler := Checking(op.id, s.journal[op.id]));
    t := AskAndHear(op, start, checking);
  }

  lemma ConfirmationFinishes(op: Op, moves: nat, start: Sys, s: Sys)
    requires SoloReaches(op, start, s) && s.handler == Finishing(op.id, Completion(op.kind)) && Loads(s.size, s.journal)
    requires op.id in s.journal && s.journal[op.id].CompletedAs(Completion(op.kind))
    requires StateAt(s.rules, op.Comm()) == op.To() && ChangesOf(s.changes, op.Comm()) == moves + 1
    ensures Done(op, moves, DoComplete(s, true, Saved)) && SoloReaches(op, start, DoComplete(s, true, Saved))
  {
    Then(op, start, s, Complete(true, Saved));
  }

  /** After any run of failed, crashed and late attempts that has moved the rule, a status call alone leads to the
  completed operation, and the caller is told, whenever the journal has the operation and room to complete it. */
  lemma StatusConverges(op: Op, states: seq<Sys>, k: nat)
    requires IsRun((b, a) => SoloNext(op, b, a), states) && Ready(op, states[0]) && k < |states|
    requires var s := states[k];
             s.handler.Idle? && StateAt(s.rules, op.Comm()) == op.To() && op.id in s.journal && Fits(op, s.size, s.journal)
    ensures var moves := ChangesOf(states[0].changes, op.Comm());
            exists t :: SoloReaches(op, states[k], t) && Done(op, moves, t)
  {
    var moves := ChangesOf(states[0].changes, op.Comm());
    SoloRun(op, states, k);
    var s := states[k];
    ReachesSelf((b, a) => SoloNext(op, b, a), s);
    assert SoloReaches(op, s, s);
    var quiet := Drain(op, moves, s, s);
    VisibleIsProper(quiet.disk, quiet.unsynced);
    assert Proper(quiet.journal[op.id]);
    var t := StatusFinds(op, s, quiet);
    if quiet.journal[op.id].phase == Completed {
      ConfirmationFinishes(op, moves, s, t);
    } else {
      assert quiet.journal[op.id] == op.Record();
      CompletionFinishes(op, moves, s, t);
    }
  }

  // ---- And only then -------------------------------------------------------------------------

  /** Nobody calls for anything but this operation. */
  predicate Only(op: Op, e: Event) {
    && !e.HostCrash? && (e.AskStatus? ==> e.id == op.id)
    && (e.Accept? ==> e.id == op.id && e.kind == op.kind && e.prepared == op.prepared)
  }

  ghost predicate OnlyNext(op: Op, b: Sys, a: Sys) {
    exists e :: Enabled(b, e) && Only(op, e) && a == Do(b, e)
  }

  /** The journal has not got past the start of the operation. */
  ghost predicate NoFurther(op: Op, size: Size, journal: Operations, s: Sys) {
    && s.size == size
    && (s.journal == journal || (s.journal == Begun(op, journal) && Loads(size, journal)))
    && (!s.handler.Idle? ==> s.handler.id == op.id)
    && (s.handler.Called? ==> s.handler.kind == op.kind && s.handler.prepared == op.prepared)
  }

  /** The operation is not completed yet, and there is no room. */
  ghost predicate NoRoom(op: Op, size: Size, journal: Operations) {
    (op.id in journal ==> Proper(journal[op.id]) && journal[op.id] == op.Record()) && !Fits(op, size, journal)
  }

  lemma BeginGetsNoFurther(op: Op, size: Size, journal: Operations, s: Sys, readable: bool, save: Save)
    requires NoFurther(op, size, journal, s) && s.handler.Called?
    ensures NoFurther(op, size, journal, DoBegin(s, readable, save))
  {
  }

  lemma CompleteGetsNoFurther(op: Op, size: Size, journal: Operations, s: Sys, readable: bool, save: Save)
    requires NoRoom(op, size, journal) && NoFurther(op, size, journal, s) && s.handler.Finishing?
    requires op.id in s.journal ==> HandlerOk(s.handler, s.journal)
    ensures NoFurther(op, size, journal, DoComplete(s, readable, save))
  {
  }

  lemma NoFurtherStep(op: Op, size: Size, journal: Operations, s: Sys, e: Event)
    requires NoRoom(op, size, journal) && NoFurther(op, size, journal, s) && HandlerOk(s.handler, s.journal)
    requires Enabled(s, e) && Only(op, e)
    ensures NoFurther(op, size, journal, Do(s, e))
  {
    if e.Begin? {
      BeginGetsNoFurther(op, size, journal, s, e.readable, e.save);
    } else if e.Complete? {
      CompleteGetsNoFurther(op, size, journal, s, e.readable, e.save);
    } else {
      DiskFrame(s, e);
    }
  }

  /** Without that room no retrying helps: as long as nothing else is journaled, the operation is never
  completed. */
  lemma NoRoomNeverDone(op: Op, moves: nat, states: seq<Sys>, k: nat)
    requires IsRun((b, a) => OnlyNext(op, b, a), states) && Inv(states[0]) && states[0].handler.Idle? && k < |states|
    requires NoRoom(op, states[0].size, states[0].journal)
    ensures !Done(op, moves, states[k])
  {
    var size, journal := states[0].size, states[0].journal;
    var next := (b: Sys, a: Sys) => OnlyNext(op, b, a);
    var inv := (s: Sys) => Inv(s) && NoFurther(op, size, journal, s);
    forall b, a | inv(b) && next(b, a) ensures inv(a) {
      var e :| Enabled(b, e) && Only(op, e) && a == Do(b, e);
      StepKeepsInv(b, e);
      NoFurtherStep(op, size, journal, b, e);
    }
    Always(next, inv, states, k);
  }

  // ---- A journal that has grown to the limit -------------------------------------------------

  ghost predicate NoCrashNext(b: Sys, a: Sys) {
    exists e :: Enabled(b, e) && a == Do(b, e) && !e.HostCrash?
  }

  /** The provider can do nothing: no record, no connection, no receipt. */
  ghost predicate Stuck(start: Sys, s: Sys) {
    && s.disk == start.disk && s.size == start.size && s.receipts == start.receipts
    && (s.handler.Idle? || s.handler.Called?)
    && s.tickets == start.tickets
  }

  lemma StuckStep(start: Sys, s: Sys, e: Event)
    requires !Loads(start.size, start.journal) && Stuck(start, s) && Enabled(s, e) && !e.HostCrash?
    ensures Stuck(start, Do(s, e))
  {
    SocketFrame(s, e);
  }

  /** Once the journal does not load, no operation ever gets anywhere, new or old, short of a crash that
  brings back an earlier file. */
  lemma UnloadableIsStuck(states: seq<Sys>, k: nat)
    requires IsRun(NoCrashNext, states) && k < |states|
    requires states[0].handler.Idle? && !Loads(states[0].size, states[0].journal)
    ensures Stuck(states[0], states[k])
  {
    var inv := (s: Sys) => Stuck(states[0], s);
    forall b, a | inv(b) && NoCrashNext(b, a) ensures inv(a) {
      var e :| Enabled(b, e) && a == Do(b, e) && !e.HostCrash?;
      StuckStep(states[0], b, e);
    }
    Always(NoCrashNext, inv, states, k);
  }

  /** And the provider can bring itself there, from any state in which the next record brings the journal to
  exactly the limit: it is saved, and the call goes on. */
  lemma FullJournalIsReached(op: Op, start: Sys, s: Sys) returns (t: Sys)
    requires start == Fresh(start.size, start.rules, start.readOnly) && Reaches(Next, start, s)
    requires op.Valid() && s.handler.Idle? && Loads(s.size, s.journal) && op.id !in s.journal
    requires s.size(Starting(s.journal, op.id, op.Record())) == MAX_JOURNAL_BYTES
    ensures Reaches(Next, start, t)
    ensures t.disk == Disk(Starting(s.journal, op.id, op.Record()), []) && t.handler.Idle? && !Loads(t.size, t.journal)
  {
    var called := Do(s, Accept(op.id, op.kind, op.prepared));
    ReachesOneMore(Next, start, s, called);
    var begun := Do(called, Begin(true, Saved));
    ReachesOneMore(Next, start, called, begun);
    t := Do(begun, GiveUp);
    ReachesOneMore(Next, start, begun, t);
    assert op.id in t.journal;
  }
}

/** Two runs in which a crash of the host takes back what a call relied on. Saving a record returns only when
the record is durable, but a record that is found already there is taken as it is, even if the save that put it
there failed to sync. */
module HostCrashes {
  import opened Rules
  import opened Runs
  import opened Journal
  import opened Provider
  import opened ProviderRetry
  import Scheduler

  /** What the runs start from: the rule at the beginning of an operation that fits the journal. */
  ghost predicate Starts(op: Op, s: Sys) {
    && s == Fresh(s.size, s.rules, s.readOnly) && op.Valid() && op.Comm() !in s.readOnly
    && StateAt(s.rules, op.Comm()) == op.From()
    && s.size(map[op.id := op.Record()]) < MAX_JOURNAL_BYTES
  }

  /** A call whose record is renamed into place but not synced ends in an error. */
  lemma UnsyncedBegin(op: Op, s: Sys) returns (t: Sys)
    requires Starts(op, s)
    ensures t == s.(disk := Disk(map[], [map[op.id := op.Record()]]), unsynced := {op.id}) && SoloReaches(op, s, t)
  {
    ReachesSelf((b, a) => SoloNext(op, b, a), s);
    assert SoloReaches(op, s, s);
    Then(op, s, s, Accept(op.id, op.kind, op.prepared));
    var called := s.(handler := Called(op.id, op.kind, op.prepared));
    Then(op, s, called, Begin(true, SavedUnsynced));
    t := DoBegin(called, true, SavedUnsynced);
    assert map[][op.id := op.Record()] == map[op.id := op.Record()];
  }

  /** A retry of a call that is on record goes straight on to the preflight, and to its request. */
  lemma RetrySends(op: Op, s: Sys, t: Sys) returns (u: Sys)
    requires SoloReaches(op, s, t) && op.Valid() && t.handler.Idle? && t.asked.None? && t.socket == []
    requires t.journal == map[op.id := op.Record()] && Loads(t.size, t.journal) && StateAt(t.rules, op.Comm()) == op.From()
    ensures u == t.(tickets := t.tickets + 1, handler := Sending(op.id, op.kind, op.prepared)) && SoloReaches(op, s, u)
  {
    Then(op, s, t, Accept(op.id, op.kind, op.prepared));
    var called := t.(handler := Called(op.id, op.kind, op.prepared));
    Then(op, s, called, Begin(true, NotSaved));
    var begun := DoBegin(called, true, NotSaved);
    assert begun == t.(handler := Preflight(op.id, op.kind, op.prepared));
    u := AskAndHear(op, s, begun);
  }

  lemma RequestIsServed(op: Op, s: Sys, t: Sys) returns (u: Sys)
    requires SoloReaches(op, s, t) && t.handler == Sending(op.id, op.kind, op.prepared) && t.socket == [] && t.asked.None?
    requires StateAt(t.rules, op.Comm()) == op.From() && op.Comm() !in t.readOnly
    ensures SoloReaches(op, s, u)
    ensures u == Moved(t, op.id, op.Comm(), op.To()).(tickets := t.tickets + 1, handler := Readback(op.id, op.kind, op.prepared))
  {
    SendAndServe(op, t);
    Then(op, s, t, Send);
    ServeIsEnabled(op, DoSend(t));
    var e := Serve(true, Provider.Told(Scheduler.WasApplied));
    Then(op, s, DoSend(t), e);
    u := DoServe(DoSend(t), true, e.reply);
  }

  /** A rule is moved, and after a crash nothing in the journal says by whom. */
  lemma MoveCanLoseItsRecord(op: Op, s: Sys) returns (t: Sys)
    requires Starts(op, s)
    ensures SoloReaches(op, s, t)
    ensures StateAt(t.rules, op.Comm()) == op.To() && t.changes == [Change(Some(op.id), op.Comm(), op.From(), op.To())]
    ensures op.id !in t.journal
  {
    var failed := UnsyncedBegin(op, s);
    assert failed.journal == map[op.id := op.Record()];
    var sending := RetrySends(op, s, failed);
    var served := RequestIsServed(op, s, sending);
    Then(op, s, served, HostCrash(0));
    t := DoCrash(served, 0);
  }

  /** A caller is told that an operation took place, and after a crash the journal has it as merely started. */
  lemma ReceiptCanBeTakenBack(op: Op, s: Sys) returns (t: Sys)
    requires Starts(op, s)
    requires s.size(map[op.id := op.Record().(phase := Completed, result := Some(Completion(op.kind)))]) < MAX_JOURNAL_BYTES
    ensures SoloReaches(op, s, t)
    ensures t.receipts == [Receipt(op.id, Completion(op.kind))]
    ensures t.journal == map[op.id := op.Record()] && t.journal[op.id].phase == Started
  {
    var readback := SyncedMove(op, s);
    var finishing := AskAndHear(op, s, readback);
    var done := op.Record().(phase := Completed, result := Some(Completion(op.kind)));
    assert readback.journal[op.id := done] == map[op.id := done];
    Then(op, s, finishing, Complete(true, SavedUnsynced));
    var idle := DoComplete(finishing, true, SavedUnsynced);
    assert idle.disk == Disk(map[op.id := op.Record()], [map[op.id := done]]) && idle.handler.Idle? && idle.receipts == [];
    var replayed := ReplayIsConfirmed(op, s, idle, done);
    Then(op, s, replayed, HostCrash(0));
    t := DoCrash(replayed, 0);
  }

  lemma SyncedMove(op: Op, s: Sys) returns (t: Sys)
    requires Starts(op, s)
    ensures SoloReaches(op, s, t) && t.handler == Readback(op.id, op.kind, op.prepared) && t.asked.None? && t.socket == []
    ensures t.disk == Disk(map[op.id := op.Record()], []) && t.size == s.size && t.receipts == []
    ensures StateAt(t.rules, op.Comm()) == op.To()
  {
    ReachesSelf((b, a) => SoloNext(op, b, a), s);
    assert SoloReaches(op, s, s);
    Then(op, s, s, Accept(op.id, op.kind, op.prepared));
    var called := s.(handler := Called(op.id, op.kind, op.prepared));
    Then(op, s, called, Begin(true, Saved));
    var begun := DoBegin(called, true, Saved);
    assert map[][op.id := op.Record()] == map[op.id := op.Record()];
    assert begun == s.(disk := Disk(map[op.id := op.Record()], []), handler := Preflight(op.id, op.kind, op.prepared));
    var sending := AskAndHear(op, s, begun);
    t := RequestIsServed(op, s, sending);
  }

  lemma ReplayIsConfirmed(op: Op, s: Sys, t: Sys, done: Record) returns (u: Sys)
    requires SoloReaches(op, s, t) && op.Valid() && t.handler.Idle? && t.asked.None? && t.socket == [] && t.receipts == []
    requires done == op.Record().(phase := Completed, result := Some(Completion(op.kind)))
    requires t.journal == map[op.id := done] && Loads(t.size, t.journal) && StateAt(t.rules, op.Comm()) == op.To()
    ensures SoloReaches(op, s, u) && u.disk == t.disk && u.receipts == [Receipt(op.id, Completion(op.kind))]
  {
    Then(op, s, t, Accept(op.id, op.kind, op.prepared));
    var called := t.(handler := Called(op.id, op.kind, op.prepared));
    Then(op, s, called, Begin(true, NotSaved));
    var begun := DoBegin(called, true, NotSaved);
    assert begun == t.(handler := Replay(op.id, op.kind, op.prepared));
    u := AskAndHear(op, s, begun);
  }
}

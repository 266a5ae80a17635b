/** What the provider does on an answer, and what it tells its callers: nothing is decided without a reading,
and nothing is told that the reading did not show. */
module ProviderAnswers {
  import opened Rules
  import opened Runs
  import opened Journal
  import opened Provider
  import opened ProviderSafety
  import Scheduler

  // ---- What a status call says ---------------------------------------------------------------

  /** What a verdict claims about an operation and its rule. */
  predicate Truth(verdict: Verdict, record: Record, at: RuleState) {
    match verdict
    case AsApplied => record.kind != Finalize && at == record.prepared.desired
    case AsFinalized => record.kind == Finalize && at == record.prepared.desired
    case AsRestored => record.kind == Restore && at == record.prepared.baseline
    case AsNotApplied => record.kind == Apply && at == record.prepared.baseline
    case AsUnknown => true
  }

  /** The inferred state is unknown exactly when the places disagree or the rule is at neither prepared state
  that the operation knows; otherwise it tells which one, and it is the completion exactly at the target. */
  lemma StatusIsTruthful(record: Record, at: RuleState, integrity: bool)
    requires Proper(record)
    ensures var verdict := record.InferState(at, integrity);
            && Truth(verdict, record, at)
            && (verdict == AsUnknown <==>
                  !integrity || (at != record.prepared.desired && (at != record.prepared.baseline || record.kind == Finalize)))
            && (verdict == Completion(record.kind) <==> integrity && at == record.prepared.To(record.kind))
  {
  }

  // ---- What an answer leads to ---------------------------------------------------------------

  /** In this step the provider hears a reading of the rule of the operation it works on. */
  predicate Hears(s: Sys, e: Event, id: Id) {
    && e.Answer? && e.heard && s.socket != [] && s.handler.Reading() && s.handler.id == id
    && s.asked == Some(s.socket[0].ticket)
  }

  /** And the reading shows, with all places in agreement, the rule at the state the operation leaves. */
  predicate HearsTarget(s: Sys, e: Event, id: Id) {
    && Hears(s, e, id) && e.ok && e.integrity
    && id in s.journal && StateAt(s.rules, s.journal[id].prepared.comm) == s.journal[id].prepared.To(s.journal[id].kind)
  }

  lemma HandlerFrame(s: Sys, e: Event)
    requires Enabled(s, e) && !e.Answer?
    ensures Do(s, e).handler.Finishing? || Do(s, e).handler.Sending? ==> Do(s, e).handler == s.handler
  {
  }

  lemma ReadingDecides(s: Sys, integrity: bool)
    requires HandlerOk(s.handler, s.journal) && AllProper(s.journal) && s.handler.Reading()
    ensures var a, h := DoRead(s, integrity), s.handler;
            var record := s.journal[h.id];
            var at := StateAt(s.rules, record.prepared.comm);
            && (a.handler.Finishing? <==> !h.Replay? && integrity && at == record.prepared.To(record.kind))
            && (a.handler.Finishing? ==> a.handler.id == h.id)
            && (a.handler.Sending? <==> h.Preflight? && record.kind != Finalize && at == record.prepared.From(record.kind))
            && (!a.handler.Finishing? && !a.handler.Sending? ==> a.handler.Idle?)
  {
    assert Proper(s.journal[s.handler.id]);
  }

  /** An operation is on its way to completion only because a reading, with all places in agreement, showed its
  rule at the target. */
  lemma FinishingWasSeen(s: Sys, e: Event)
    requires Inv(s) && Enabled(s, e) && Do(s, e).handler.Finishing? && Do(s, e).handler != s.handler
    ensures HearsTarget(s, e, Do(s, e).handler.id)
  {
    VisibleIsProper(s.disk, s.unsynced);
    if e.Answer? {
      ReadingDecides(s.(socket := s.socket[1..], asked := None), e.integrity);
      assert Proper(s.journal[s.handler.id]);
    } else {
      HandlerFrame(s, e);
    }
  }

  /** A request is prepared only because the preflight showed the rule at the state the operation starts from. */
  lemma SendingWasSeen(s: Sys, e: Event)
    requires Inv(s) && Enabled(s, e) && Do(s, e).handler.Sending? && Do(s, e).handler != s.handler
    ensures var h := Do(s, e).handler;
            && Hears(s, e, h.id) && e.ok && s.handler.Preflight? && h.kind != Finalize
            && StateAt(s.rules, h.prepared.comm) == h.prepared.From(h.kind)
  {
    VisibleIsProper(s.disk, s.unsynced);
    if e.Answer? {
      ReadingDecides(s.(socket := s.socket[1..], asked := None), e.integrity);
    } else {
      HandlerFrame(s, e);
    }
  }

  /** The read-back begins only when the scheduler has said that the request took effect, or that nothing was to
  be done, and at that moment the rule is at the target. */
  lemma ReadbackFollowsSuccess(s: Sys, e: Event)
    requires Inv(s) && Enabled(s, e) && Do(s, e).handler.Readback? && !s.handler.Readback?
    ensures var h := Do(s, e).handler;
            && e.Serve? && e.reply in {Provider.Told(Scheduler.WasApplied), Provider.Told(Scheduler.WasNoop)}
            && s.handler.Waiting? && s.socket == [SentBy(s.handler)] && h.id == s.handler.id
            && StateAt(Do(s, e).rules, h.prepared.comm) == h.prepared.To(h.kind)
  {
    OnlyServingReadsBack(s, e);
    NewestIsLast(s.socket, s.tickets);
  }

  lemma OnlyServingReadsBack(s: Sys, e: Event)
    requires Enabled(s, e) && Do(s, e).handler.Readback? && !s.handler.Readback?
    ensures e.Serve? && s.socket != [] && s.handler.Waiting? && s.handler.ticket == s.socket[0].ticket && e.reply.Told?
    ensures Do(s, e).handler == Readback(s.handler.id, s.handler.kind, s.handler.prepared)
    ensures e.reply in {Provider.Told(Scheduler.WasApplied), Provider.Told(Scheduler.WasNoop)}
  {
  }

  /** A failed or refused request ends the call. */
  lemma RefusalEndsCall(s: Sys, e: Event)
    requires Enabled(s, e) && e.Serve? && s.handler.Waiting? && s.handler.ticket == s.socket[0].ticket
    requires e.reply in {Provider.Told(Scheduler.Failed), Provider.Told(Scheduler.WasConflict)}
    ensures Do(s, e).handler.Idle? && Do(s, e).receipts == s.receipts
  {
  }

  /** A reading that shows the target is never passed over: it confirms a completed operation and takes any
  other one on to its completion. */
  lemma TargetIsAccepted(s: Sys, e: Event, id: Id)
    requires Inv(s) && Enabled(s, e) && HearsTarget(s, e, id)
    ensures var a := Do(s, e);
            if s.handler.Replay? then a.handler.Idle? && a.receipts == s.receipts + [Receipt(id, Completion(s.journal[id].kind))]
            else a.handler == Finishing(id, Completion(s.journal[id].kind)) && a.receipts == s.receipts
  {
    VisibleIsProper(s.disk, s.unsynced);
    assert Proper(s.journal[id]);
  }

  // ---- What callers are told -----------------------------------------------------------------

  /** In this step a caller is told the verdict about the operation. */
  predicate Tells(b: Sys, a: Sys, r: Receipt) {
    a.receipts == b.receipts + [r]
  }

  /** A verdict other than unknown is told about a journaled operation, either on a reading that shows it, or when
  the completion it stands for has just been recorded. Unknown is told about an operation that is not journaled,
  or on a reading that shows the rule elsewhere or the places in disagreement. */
  ghost predicate Honest(s: Sys, e: Event, r: Receipt) {
    if r.verdict == AsUnknown then
      || (e == AskStatus(r.id) && r.id !in s.journal)
      || (&& Hears(s, e, r.id) && e.ok && r.id in s.journal
          && (e.integrity ==>
                StateAt(s.rules, s.journal[r.id].prepared.comm) != s.journal[r.id].prepared.To(s.journal[r.id].kind)))
    else
      && r.id in s.journal
      && (|| (&& Hears(s, e, r.id) && e.ok && e.integrity
              && Truth(r.verdict, s.journal[r.id], StateAt(s.rules, s.journal[r.id].prepared.comm)))
          || (e.Complete? && s.handler == Finishing(r.id, r.verdict) && r.verdict == Completion(s.journal[r.id].kind)))
  }

  lemma ReadingTells(s: Sys, integrity: bool, r: Receipt)
    requires HandlerOk(s.handler, s.journal) && AllProper(s.journal) && s.handler.Reading()
    requires Tells(s, DoRead(s, integrity), r)
    ensures r.id == s.handler.id && (s.handler.Replay? || s.handler.Checking?)
    ensures var record := s.journal[r.id];
            var at := StateAt(s.rules, record.prepared.comm);
            && Truth(r.verdict, record, at) && (r.verdict != AsUnknown ==> integrity)
            && (r.verdict == AsUnknown ==> integrity ==> at != record.prepared.To(record.kind))
  {
    var a := DoRead(s, integrity);
    assert a.receipts[|s.receipts|] == r;
    var record := s.journal[s.handler.id];
    assert Proper(record);
    StatusIsTruthful(record, StateAt(s.rules, record.prepared.comm), integrity);
  }

  lemma AnswerIsHonest(s: Sys, e: Event, r: Receipt)
    requires Inv(s) && Enabled(s, e) && e.Answer? && Tells(s, Do(s, e), r)
    ensures Honest(s, e, r)
  {
    VisibleIsProper(s.disk, s.unsynced);
    var told := s.(socket := s.socket[1..], asked := None);
    assert Do(s, e).receipts != s.receipts by {
      assert |Do(s, e).receipts| == |s.receipts| + 1;
    }
    assert Tells(told, DoRead(told, e.integrity), r);
    ReadingTells(told, e.integrity, r);
  }

  lemma CompleteIsHonest(s: Sys, e: Event, r: Receipt)
    requires Inv(s) && Enabled(s, e) && e.Complete? && Tells(s, Do(s, e), r)
    ensures Honest(s, e, r)
  {
    var a := Do(s, e);
    assert |a.receipts| == |s.receipts| + 1 && a.receipts[|s.receipts|] == r;
    assert forall kind :: Completion(kind) != AsUnknown;
  }

  lemma StatusIsHonest(s: Sys, e: Event, r: Receipt)
    requires Enabled(s, e) && e.AskStatus? && Tells(s, Do(s, e), r)
    ensures Honest(s, e, r)
  {
    var a := Do(s, e);
    assert |a.receipts| == |s.receipts| + 1 && a.receipts[|s.receipts|] == r;
  }

  lemma ReceiptsFrame(s: Sys, e: Event)
    requires Enabled(s, e) && !e.Answer? && !e.Complete? && !e.AskStatus?
    ensures Do(s, e).receipts == s.receipts
  {
  }

  /** In every run every step tells callers one thing at most, and what it tells is honest. */
  lemma EveryReceiptIsHonest(states: seq<Sys>, k: nat)
    requires FreshRun(states) && k + 1 < |states|
    ensures exists e ::
              && Enabled(states[k], e) && states[k + 1] == Do(states[k], e)
              && (|| states[k + 1].receipts == states[k].receipts
                  || exists r :: Tells(states[k], states[k + 1], r) && Honest(states[k], e, r))
  {
    FreshRunsKeepInv(states, k);
    var e :| Enabled(states[k], e) && states[k + 1] == Do(states[k], e);
    AtMostOneReceipt(states[k], e);
    if states[k + 1].receipts != states[k].receipts {
      var r :| Tells(states[k], states[k + 1], r);
      if e.Answer? {
        AnswerIsHonest(states[k], e, r);
      } else if e.Complete? {
        CompleteIsHonest(states[k], e, r);
      } else if e.AskStatus? {
        StatusIsHonest(states[k], e, r);
      } else {
        ReceiptsFrame(states[k], e);
      }
    }
  }

  lemma AtMostOneReceipt(s: Sys, e: Event)
    requires Enabled(s, e)
    ensures Do(s, e).receipts == s.receipts || exists r :: Tells(s, Do(s, e), r)
  {
    var a := Do(s, e);
    if a.receipts != s.receipts {
      var r := a.receipts[|a.receipts| - 1];
      if e.Answer? || e.Complete? || e.AskStatus? {
        assert Tells(s, a, r);
      } else {
        ReceiptsFrame(s, e);
      }
    }
  }

  // ---- Confirmations -------------------------------------------------------------------------

  /** A caller was told in this step that the operation took place. */
  ghost predicate Confirmed(b: Sys, a: Sys, id: Id) {
    && id in a.journal && |a.receipts| > |b.receipts|
    && a.receipts == b.receipts + [Receipt(id, Completion(a.journal[id].kind))]
  }

  lemma AnswerIsBacked(s: Sys, ok: bool, integrity: bool, heard: bool, id: Id)
    requires HandlerOk(s.handler, s.journal) && AllProper(s.journal) && s.socket != []
    requires Confirmed(s, DoAnswer(s, ok, integrity, heard), id)
    ensures s.journal[id].CompletedAs(Completion(s.journal[id].kind))
  {
    var a := DoAnswer(s, ok, integrity, heard);
    assert a.receipts[|s.receipts|] == Receipt(id, Completion(s.journal[id].kind));
    assert Proper(s.journal[id]);
  }

  lemma CompleteIsBacked(s: Sys, readable: bool, save: Save, id: Id)
    requires s.handler.Finishing? && HandlerOk(s.handler, s.journal) && AllProper(s.journal)
    requires Confirmed(s, DoComplete(s, readable, save), id)
    ensures var a := DoComplete(s, readable, save); a.journal[id].CompletedAs(Completion(a.journal[id].kind))
  {
    var a := DoComplete(s, readable, save);
    assert a.receipts[|a.receipts| - 1] == Receipt(s.handler.id, s.handler.verdict);
  }

  /** Asking for the status of an unknown operation confirms nothing. */
  lemma StatusConfirmsNothing(s: Sys, asked: Id, id: Id)
    requires s.handler.Idle?
    ensures !Confirmed(s, Do(s, AskStatus(asked)), id)
  {
    var a := Do(s, AskStatus(asked));
    assert a.receipts == s.receipts || a.receipts[|s.receipts|] == Receipt(asked, AsUnknown);
    assert forall kind :: Completion(kind) != AsUnknown;
  }

  lemma ConfirmedIsCompleted(s: Sys, e: Event, id: Id)
    requires Inv(s) && Enabled(s, e) && Confirmed(s, Do(s, e), id)
    ensures Do(s, e).journal[id].CompletedAs(Completion(Do(s, e).journal[id].kind))
  {
    VisibleIsProper(s.disk, s.unsynced);
    if e.Answer? {
      DiskFrame(s, e);
      AnswerIsBacked(s, e.ok, e.integrity, e.heard, id);
    } else if e.Complete? {
      CompleteIsBacked(s, e.readable, e.save, id);
    } else if e.AskStatus? {
      StatusConfirmsNothing(s, e.id, id);
    } else {
      ReceiptsFrame(s, e);
    }
  }

  /** Step `m` of the run is a reading that showed the target. */
  ghost predicate SeenAt(states: seq<Sys>, m: nat, id: Id) {
    m + 1 < |states| && exists e :: Enabled(states[m], e) && states[m + 1] == Do(states[m], e) && HearsTarget(states[m], e, id)
  }

  /** The reading came with step `m`, and since then the provider has kept to what follows from it. */
  ghost predicate SeenSince(states: seq<Sys>, m: nat, k: nat, id: Id) {
    && m <= k < |states| && SeenAt(states, m, id)
    && forall j :: m < j <= k ==> states[j].handler == states[k].handler
  }

  /** Whoever is completing an operation has seen its rule at the target, and has done nothing else since. */
  lemma CompletionWasSeen(states: seq<Sys>, k: nat) returns (m: nat)
    requires FreshRun(states) && k < |states| && states[k].handler.Finishing?
    ensures m < k && SeenSince(states, m, k, states[k].handler.id)
  {
    var of := (s: Sys) => s.handler;
    m := SomeLastChange(of, states, k);
    assert LastChange(of, states, m, k);
    assert states[m + 1].handler == states[k].handler;
    EnteredBySeeing(states, m);
  }

  lemma EnteredBySeeing(states: seq<Sys>, m: nat)
    requires FreshRun(states) && m + 1 < |states|
    requires states[m + 1].handler.Finishing? && states[m].handler != states[m + 1].handler
    ensures SeenAt(states, m, states[m + 1].handler.id)
  {
    FreshRunsKeepInv(states, m);
    var e :| Enabled(states[m], e) && states[m + 1] == Do(states[m], e);
    FinishingWasSeen(states[m], e);
  }

  lemma ConfirmingAnswer(s: Sys, e: Event, id: Id)
    requires Inv(s) && Enabled(s, e) && e.Answer? && Confirmed(s, Do(s, e), id)
    ensures HearsTarget(s, e, id)
  {
    var r := Receipt(id, Completion(Do(s, e).journal[id].kind));
    assert Tells(s, Do(s, e), r);
    AnswerIsHonest(s, e, r);
    DiskFrame(s, e);
    VisibleIsProper(s.disk, s.unsynced);
    assert Proper(s.journal[id]);
  }

  lemma ConfirmingCompletion(s: Sys, e: Event, id: Id)
    requires Enabled(s, e) && e.Complete? && Confirmed(s, Do(s, e), id)
    ensures s.handler.id == id
  {
    assert Do(s, e).receipts[|s.receipts|].id == id;
  }

  /** A caller is told that an operation took place only after a reading, with all places in agreement, showed its
  rule at the target, in this step or since when nothing else was done. The journal then has it completed, and no
  continuation takes that completion back exactly when some save since was synced. */
  lemma ReceiptsAreBacked(states: seq<Sys>, k: nat, id: Id)
    requires FreshRun(states) && k + 1 < |states| && Confirmed(states[k], states[k + 1], id)
    ensures var a := states[k + 1];
            && a.journal[id].CompletedAs(Completion(a.journal[id].kind))
            && (Outlives(a, id) <==> id !in a.unsynced)
    ensures exists m :: 0 <= m <= k && SeenSince(states, m, k, id)
  {
    FreshRunsKeepInv(states, k);
    FreshRunsKeepInv(states, k + 1);
    var e :| Enabled(states[k], e) && states[k + 1] == Do(states[k], e);
    ConfirmedIsCompleted(states[k], e, id);
    OutlivesIff(states[k + 1], id);
    if e.Answer? {
      ConfirmingAnswer(states[k], e, id);
      assert SeenSince(states, k, k, id);
    } else if e.Complete? {
      ConfirmingCompletion(states[k], e, id);
      var m := CompletionWasSeen(states, k);
    } else if e.AskStatus? {
      StatusConfirmsNothing(states[k], e.id, id);
    } else {
      ReceiptsFrame(states[k], e);
    }
  }
}

/** What holds in every run of the provider, whatever fails, crashes, arrives late or is retried, and exactly
what a crash of the host can undo. */
module ProviderSafety {
  import opened Rules
  import opened Runs
  import opened Journal
  import opened Provider
  import Scheduler

  ghost predicate FreshRun(states: seq<Sys>) {
    IsRun(Next, states) && states[0] == Fresh(states[0].size, states[0].rules, states[0].readOnly)
  }

  lemma FreshRunsKeepInv(states: seq<Sys>, k: nat)
    requires FreshRun(states) && k < |states|
    ensures Inv(states[k])
  {
    assert Inv(states[0]);
    RunsKeepInv(states, k);
  }

  // ---- Rules change only as journaled --------------------------------------------------------

  /** The served request that stands behind a rule change. */
  ghost predicate MovedBy(b: Sys, a: Sys, comm: Comm, id: Id) {
    && b.socket != [] && b.socket[0].Cas? && b.socket[0].id == id && b.socket[0].comm == comm && comm !in b.readOnly
    && OwnMove(b.journal, id, comm, StateAt(b.rules, comm), StateAt(a.rules, comm)) && b.journal[id].phase == Started
    && a.disk == b.disk && a.unsynced == b.unsynced
  }

  ghost predicate Explained(b: Sys, a: Sys, comm: Comm) {
    || StateAt(a.rules, comm) == StateAt(b.rules, comm)
    || a == Do(b, Outside(comm, StateAt(a.rules, comm)))
    || exists id :: MovedBy(b, a, comm, id)
  }

  lemma ServeIsExplained(s: Sys, took: bool, reply: Reply, comm: Comm)
    requires OneMove(s.socket, s.journal) && Enabled(s, Serve(took, reply))
    ensures Explained(s, DoServe(s, took, reply), comm)
  {
    var c := s.socket[0];
    if took && c.comm == comm {
      assert MovedBy(s, DoServe(s, true, reply), comm, c.id);
    }
  }

  lemma StepIsExplained(s: Sys, e: Event, comm: Comm)
    requires Inv(s) && Enabled(s, e)
    ensures Explained(s, Do(s, e), comm)
  {
    if e.Serve? {
      ServeIsExplained(s, e.took, e.reply, comm);
    } else if !e.Outside? {
      RulesFrame(s, e);
    }
  }

  /** Whenever a rule changes, either another writer changed it, or the change is the move of an operation
  that the journal already held, uncompleted, with this very input: from exactly the state that operation
  starts from, to the state it leaves. So a value the provider overwrites is always the one it was prepared
  against, never one that another writer put there instead. */
  lemma EveryRuleChangeIsExplained(states: seq<Sys>, k: nat, comm: Comm)
    requires FreshRun(states) && k + 1 < |states|
    ensures Explained(states[k], states[k + 1], comm)
  {
    FreshRunsKeepInv(states, k);
    var e :| Enabled(states[k], e) && states[k + 1] == Do(states[k], e);
    StepIsExplained(states[k], e, comm);
  }

  // ---- What a crash of the host can undo -----------------------------------------------------

  /** Before and after one step that is not a crash, what lasts is what lasted, or all there is. */
  lemma DurableFrame(s: Sys, e: Event)
    requires Enabled(s, e) && !e.HostCrash?
    ensures Do(s, e).disk.durable == s.disk.durable || Do(s, e).disk.durable == Do(s, e).journal
  {
    if !e.Begin? && !e.Complete? {
      DiskFrame(s, e);
    }
  }

  lemma VersionsExtend(disk: Disk, unsynced: set<Id>, n: nat)
    requires DiskOk(disk, unsynced) && n <= |disk.renamed|
    ensures Extends(disk.durable, disk.Version(n)) && Extends(disk.durable, disk.Visible())
  {
    assert disk.Visible() == disk.Version(|disk.renamed|);
  }

  lemma DurableStep(s: Sys, e: Event)
    requires Inv(s) && Enabled(s, e)
    ensures Extends(s.disk.durable, Do(s, e).disk.durable)
  {
    VersionsExtend(s.disk, s.unsynced, 0);
    if e.HostCrash? {
      VersionsExtend(s.disk, s.unsynced, e.version);
    } else {
      DurableFrame(s, e);
      StepKeepsInv(s, e);
      ExtendsIsTransitive(s.disk.durable, s.journal, Do(s, e).journal);
    }
  }

  ghost predicate DurableGrows(b: Sys, a: Sys) {
    Extends(b.disk.durable, a.disk.durable)
  }

  /** Whatever a synced save has recorded, kind, input and completion, is in the journal of every later state,
  through any number of crashes of the host. */
  lemma DurableIsPermanent(states: seq<Sys>, i: nat, k: nat)
    requires IsRun(Next, states) && Inv(states[0]) && i <= k < |states|
    ensures Inv(states[k]) && Extends(states[i].disk.durable, states[k].journal)
  {
    forall b, a | Inv(b) && Next(b, a) ensures Inv(a) && DurableGrows(b, a) {
      var e :| Enabled(b, e) && a == Do(b, e);
      StepKeepsInv(b, e);
      DurableStep(b, e);
    }
    forall a, b, c | DurableGrows(a, b) && DurableGrows(b, c) ensures DurableGrows(a, c) {
      ExtendsIsTransitive(a.disk.durable, b.disk.durable, c.disk.durable);
    }
    forall a | Inv(a) ensures DurableGrows(a, a) {
      VersionsExtend(a.disk, a.unsynced, 0);
    }
    AlwaysBetween(Next, Inv, DurableGrows, states, i, k);
    RunsKeepInv(states, k);
    VersionsExtend(states[k].disk, states[k].unsynced, 0);
    ExtendsIsTransitive(states[i].disk.durable, states[k].disk.durable, states[k].journal);
  }

  lemma DurableIsReached(s: Sys, t: Sys)
    requires Inv(s) && Reaches(Next, s, t)
    ensures Extends(s.disk.durable, t.journal)
  {
    var states :| IsRun(Next, states) && states[0] == s && states[|states| - 1] == t;
    DurableIsPermanent(states, 0, |states| - 1);
  }

  /** A crash can bring back just what lasts. */
  lemma CrashNow(s: Sys)
    ensures Reaches(Next, s, DoCrash(s, 0)) && DoCrash(s, 0).journal == s.disk.durable
  {
    ReachesSelf(Next, s);
    assert Enabled(s, HostCrash(0)) && Do(s, HostCrash(0)) == DoCrash(s, 0);
    ReachesOneMore(Next, s, s, DoCrash(s, 0));
  }

  predicate InputKept(id: Id, before: Operations, after: Operations) {
    id in before ==> id in after && SameInput(after[id], before[id])
  }

  predicate RecordKept(id: Id, before: Operations, after: Operations) {
    InputKept(id, before, after) && (id in before && before[id].phase == Completed ==> after[id] == before[id])
  }

  /** In every continuation, whatever crashes, the operation keeps its kind and its input. */
  ghost predicate InputOutlives(s: Sys, id: Id) {
    forall t :: Reaches(Next, s, t) ==> InputKept(id, s.journal, t.journal)
  }

  /** And, once completed, its whole record. */
  ghost predicate Outlives(s: Sys, id: Id) {
    forall t :: Reaches(Next, s, t) ==> RecordKept(id, s.journal, t.journal)
  }

  /** How the synced form of a record relates to the present one. */
  lemma SyncedForm(disk: Disk, unsynced: set<Id>, id: Id)
    requires DiskOk(disk, unsynced) && id in disk.Visible()
    ensures id in disk.durable ==> SameInput(disk.Visible()[id], disk.durable[id])
    ensures id in unsynced && id in disk.durable ==> disk.durable[id].phase == Started && disk.Visible()[id].phase == Completed
    ensures id !in unsynced ==> id in disk.durable && disk.durable[id] == disk.Visible()[id]
  {
    VersionsExtend(disk, unsynced, 0);
    assert AllProper(disk.Version(0)) && AllProper(disk.Version(|disk.renamed|));
    assert Proper(disk.Visible()[id]) && (id in disk.durable ==> Proper(disk.durable[id]));
  }

  lemma InputOutlivesIff(s: Sys, id: Id)
    requires Inv(s) && id in s.journal
    ensures InputOutlives(s, id) <==> id in s.disk.durable
  {
    SyncedForm(s.disk, s.unsynced, id);
    CrashNow(s);
    if id in s.disk.durable {
      forall t | Reaches(Next, s, t) ensures InputKept(id, s.journal, t.journal) {
        DurableIsReached(s, t);
      }
    } else {
      assert !InputKept(id, s.journal, DoCrash(s, 0).journal);
    }
  }

  lemma OutlivesIff(s: Sys, id: Id)
    requires Inv(s) && id in s.journal
    ensures Outlives(s, id) <==> id !in s.unsynced
  {
    SyncedForm(s.disk, s.unsynced, id);
    CrashNow(s);
    if id !in s.unsynced {
      forall t | Reaches(Next, s, t) ensures RecordKept(id, s.journal, t.journal) {
        DurableIsReached(s, t);
      }
    } else {
      assert !RecordKept(id, s.journal, DoCrash(s, 0).journal);
    }
  }

  /** An operation keeps its kind and input in all continuations exactly when some save since it was journaled
  was synced. */
  lemma InputOutlivesIffDurable(states: seq<Sys>, k: nat, id: Id)
    requires FreshRun(states) && k < |states| && id in states[k].journal
    ensures InputOutlives(states[k], id) <==> id in states[k].disk.durable
  {
    FreshRunsKeepInv(states, k);
    InputOutlivesIff(states[k], id);
  }

  /** A record is kept in all continuations, a completion included, exactly when some save since its last change
  was synced. */
  lemma RecordOutlivesIffSynced(states: seq<Sys>, k: nat, id: Id)
    requires FreshRun(states) && k < |states| && id in states[k].journal
    ensures Outlives(states[k], id) <==> id !in states[k].unsynced
  {
    FreshRunsKeepInv(states, k);
    OutlivesIff(states[k], id);
  }

  /** In every continuation the journal explains the change from `b` to `a`. */
  ghost predicate ExplainedForGood(b: Sys, a: Sys, comm: Comm, id: Id) {
    forall t :: Reaches(Next, a, t) ==> OwnMove(t.journal, id, comm, StateAt(b.rules, comm), StateAt(a.rules, comm))
  }

  /** A rule change the provider made stays explained in all continuations exactly when some save since its
  operation was journaled had been synced. */
  lemma ChangeIsDurableIffSynced(states: seq<Sys>, k: nat, comm: Comm, id: Id)
    requires FreshRun(states) && k + 1 < |states| && MovedBy(states[k], states[k + 1], comm, id)
    ensures ExplainedForGood(states[k], states[k + 1], comm, id) <==> id !in states[k].unsynced
  {
    FreshRunsKeepInv(states, k + 1);
    ExplainedIff(states[k], states[k + 1], comm, id);
  }

  lemma ExplainedIff(b: Sys, a: Sys, comm: Comm, id: Id)
    requires Inv(a) && MovedBy(b, a, comm, id)
    ensures ExplainedForGood(b, a, comm, id) <==> id !in b.unsynced
  {
    SyncedForm(a.disk, a.unsynced, id);
    CrashNow(a);
    if id !in a.unsynced {
      forall t | Reaches(Next, a, t)
        ensures OwnMove(t.journal, id, comm, StateAt(b.rules, comm), StateAt(a.rules, comm))
      {
        DurableIsReached(a, t);
      }
    } else {
      assert !OwnMove(DoCrash(a, 0).journal, id, comm, StateAt(b.rules, comm), StateAt(a.rules, comm));
    }
  }

  /** Steps in which the host crashes only while the operation is durable, if it is journaled. */
  ghost predicate InputSafeNext(id: Id, b: Sys, a: Sys) {
    exists e :: Enabled(b, e) && a == Do(b, e) && (e.HostCrash? && id in b.journal ==> id in b.disk.durable)
  }

  lemma InputSafeStep(id: Id, b: Sys, a: Sys)
    requires Inv(b) && InputSafeNext(id, b, a)
    ensures Inv(a) && InputKept(id, b.journal, a.journal)
  {
    var e :| Enabled(b, e) && a == Do(b, e) && (e.HostCrash? && id in b.journal ==> id in b.disk.durable);
    StepKeepsInv(b, e);
    if e.HostCrash? && id in b.journal {
      VersionsExtend(b.disk, b.unsynced, e.version);
      SyncedForm(b.disk, b.unsynced, id);
    }
  }

  /** Between any two states an operation keeps its kind and its prepared input, provided the host does not
  crash while it is journaled and not durable. */
  lemma InputStays(id: Id, states: seq<Sys>, i: nat, k: nat)
    requires IsRun((b, a) => InputSafeNext(id, b, a), states) && Inv(states[0]) && i <= k < |states|
    ensures InputKept(id, states[i].journal, states[k].journal)
  {
    var next := (b: Sys, a: Sys) => InputSafeNext(id, b, a);
    var kept := (b: Sys, a: Sys) => InputKept(id, b.journal, a.journal);
    forall b, a | Inv(b) && next(b, a) ensures Inv(a) && kept(b, a) {
      InputSafeStep(id, b, a);
    }
    AlwaysBetween(next, Inv, kept, states, i, k);
  }

  /** Steps in which the host crashes only while the record of `id` is synced. */
  ghost predicate RecordSafeNext(id: Id, b: Sys, a: Sys) {
    exists e :: Enabled(b, e) && a == Do(b, e) && (e.HostCrash? ==> id !in b.unsynced)
  }

  lemma RecordSafeStep(id: Id, b: Sys, a: Sys)
    requires Inv(b) && RecordSafeNext(id, b, a)
    ensures Inv(a) && RecordKept(id, b.journal, a.journal)
  {
    var e :| Enabled(b, e) && a == Do(b, e) && (e.HostCrash? ==> id !in b.unsynced);
    StepKeepsInv(b, e);
    if e.HostCrash? && id in b.journal {
      VersionsExtend(b.disk, b.unsynced, e.version);
      SyncedForm(b.disk, b.unsynced, id);
    }
  }

  /** And once it is completed it keeps its whole record, provided the host does not crash while that record is
  unsynced. */
  lemma JournalOnlyGrows(id: Id, states: seq<Sys>, i: nat, k: nat)
    requires IsRun((b, a) => RecordSafeNext(id, b, a), states) && Inv(states[0]) && i <= k < |states|
    ensures RecordKept(id, states[i].journal, states[k].journal)
  {
    var next := (b: Sys, a: Sys) => RecordSafeNext(id, b, a);
    var kept := (b: Sys, a: Sys) => RecordKept(id, b.journal, a.journal);
    forall b, a | Inv(b) && next(b, a) ensures Inv(a) && kept(b, a) {
      RecordSafeStep(id, b, a);
    }
    AlwaysBetween(next, Inv, kept, states, i, k);
  }

  // ---- Completion ----------------------------------------------------------------------------

  /** A completed record holds exactly its kind's verdict, and whoever is about to complete a record brings
  that same verdict: finding it completed otherwise cannot happen. */
  lemma CompletionNeverConflicts(states: seq<Sys>, k: nat)
    requires FreshRun(states) && k < |states|
    ensures forall id :: id in states[k].journal && states[k].journal[id].phase == Completed ==>
              states[k].journal[id].CompletedAs(Completion(states[k].journal[id].kind))
    ensures var s := states[k];
            s.handler.Finishing? && s.handler.id in s.journal && s.journal[s.handler.id].phase == Completed ==>
              CompleteOk(s.size, s.journal, s.handler.id, s.handler.verdict, NotSaved)
  {
    FreshRunsKeepInv(states, k);
    VisibleIsProper(states[k].disk, states[k].unsynced);
    assert forall id :: id in states[k].journal ==> Proper(states[k].journal[id]);
  }

  /** No compare-and-set of a completed operation is ever under way. */
  lemma CompletedNeverSends(states: seq<Sys>, k: nat, i: nat)
    requires FreshRun(states) && k < |states| && i < |states[k].socket| && states[k].socket[i].Cas?
    ensures states[k].socket[i].id in states[k].journal && states[k].journal[states[k].socket[i].id].phase == Started
  {
    FreshRunsKeepInv(states, k);
  }

  // ---- The scheduler behind the socket -------------------------------------------------------

  /** The scheduler's own handling of a request is one of the ways this protocol allows for. */
  lemma SchedulerServesAsAllowed(
      b: Scheduler.Sched, a: Scheduler.Sched, comm: Comm, from: RuleState, to: RuleState,
      status: Scheduler.Status, effect: Scheduler.Effect)
    requires b.Healthy() && Scheduler.CasStep(b, a, comm, from, to, status, effect)
    ensures MayServe(StateAt(b.Learned(), comm), comm in b.store.rules.base, from, to,
                     effect == Scheduler.Changed, Provider.Told(status))
    ensures a.Learned() == if effect == Scheduler.Changed then WithState(b.Learned(), comm, to) else b.Learned()
  {
    Scheduler.CasStepKeepsHealth(b, a, comm, from, to, status, effect);
  }

  /** So is a fatal end: it is answered as a failure, and the rule it leaves to the next scheduler was moved as
  asked or was not. */
  lemma FatalEndServesAsAllowed(b: Scheduler.Sched, a: Scheduler.Sched, comm: Comm, from: RuleState, to: RuleState)
    requires b.Healthy() && Scheduler.FatalStep(b, a, comm, from, to)
    ensures MayServe(StateAt(b.Learned(), comm), comm in b.store.rules.base, from, to,
                     a.Learned() != b.Learned(), Provider.Told(Scheduler.Failed))
    ensures Scheduler.Restarted(a).Healthy()
    ensures Scheduler.Restarted(a).Learned() ==
              if a.Learned() != b.Learned() then WithState(b.Learned(), comm, to) else b.Learned()
  {
    Scheduler.RestartIsHealthy(b, a, comm, from, to);
  }
}

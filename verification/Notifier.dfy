/** The scheduler loop and the notifier's worker thread, joined by a command channel and a completion
channel that hold one message each. The worker takes a command, talks to the tuning agent for as long
as it likes, and hands back a completion; every channel access is a step, in any interleaving. */
module Notifier {
  import opened Rules
  import opened Runs
  import opened Activation

  datatype Worker = Receiving | Exchanging(batch: seq<Comm>) | Completing(batch: seq<Comm>)

  /** What the scheduler loop would stop or complain about. */
  datatype Trouble = NoTrouble | Busy | OrphanCompletion

  datatype System = System(
    batcher: Batcher, commands: Option<seq<Comm>>, worker: Worker, completions: Option<seq<Comm>>, trouble: Trouble)

  datatype Step =
    | ObserveMiss(comm: Comm, now: nat)
    | ClearMiss(comm: Comm)
    | Collect(now: nat)
    | PollCompletion
    | WorkerReceives
    | WorkerAnswers
    | WorkerCompletes

  predicate Enabled(s: System, e: Step) {
    match e
    case WorkerReceives => s.worker.Receiving? && s.commands.Some?
    case WorkerAnswers => s.worker.Exchanging?
    case WorkerCompletes => s.worker.Completing? && s.completions.None?
    case _ => true
  }

  /** Taking a batch and sending it; a full channel is an error for the scheduler. */
  function DoCollect(s: System, now: nat): System {
    var next := s.(batcher := s.batcher.Taken(now));
    if !s.batcher.Ready(now) then next
    else if s.commands.Some? then next.(trouble := Busy)
    else next.(commands := next.batcher.inFlight)
  }

  /** Receiving a completion and finishing the batch it is for. */
  function DoPoll(s: System): System {
    if s.completions.None? then s
    else
      var next := s.(completions := None, batcher := s.batcher.Finished());
      if s.batcher.inFlight.None? then next.(trouble := OrphanCompletion) else next
  }

  function Do(s: System, e: Step): System
    requires Enabled(s, e)
  {
    match e
    case ObserveMiss(comm, now) => s.(batcher := s.batcher.Observed(comm, now))
    case ClearMiss(comm) => s.(batcher := s.batcher.Removed(comm))
    case Collect(now) => DoCollect(s, now)
    case PollCompletion => DoPoll(s)
    case WorkerReceives => s.(commands := None, worker := Exchanging(s.commands.value))
    case WorkerAnswers => s.(worker := Completing(s.worker.batch))
    case WorkerCompletes => s.(completions := Some(s.worker.batch), worker := Receiving)
  }

  ghost predicate Next(b: System, a: System) {
    exists e :: Enabled(b, e) && a == Do(b, e)
  }

  /** The batches on their way, wherever they are. */
  function Outstanding(s: System): seq<seq<Comm>> {
    (if s.commands.Some? then [s.commands.value] else [])
    + (if s.worker.Receiving? then [] else [s.worker.batch])
    + (if s.completions.Some? then [s.completions.value] else [])
  }

  ghost predicate Inv(s: System) {
    && s.batcher.Valid()
    && Outstanding(s) == (if s.batcher.inFlight.Some? then [s.batcher.inFlight.value] else [])
    && s.trouble == NoTrouble
  }

  lemma StepKeepsInv(s: System, e: Step)
    requires Inv(s) && Enabled(s, e)
    ensures Inv(Do(s, e))
  {
    match e {
      case ObserveMiss(comm, now) => ObservedKeepsValid(s.batcher, comm, now);
      case ClearMiss(comm) => RemovedKeepsValid(s.batcher, comm);
      case Collect(now) =>
        if s.batcher.Ready(now) {
          BatchIsTheSmallest(s.batcher, now);
          assert Outstanding(s) == [];
        }
      case PollCompletion =>
        if s.completions.Some? {
          assert Outstanding(s) == [s.completions.value];
        }
      case WorkerReceives => assert Outstanding(s) == [s.commands.value];
      case WorkerAnswers => assert Outstanding(s) == [s.worker.batch];
      case WorkerCompletes => assert Outstanding(s) == [s.worker.batch];
    }
  }

  /** In every interleaving at most one activation is outstanding, it is the batcher's in-flight
  batch, and there is one exactly when the batcher has one. So the command channel is never full
  when the scheduler sends, and no completion ever arrives without a batch to finish. */
  lemma OneActivationAtATime(states: seq<System>, coalesce: nat, maxBatch: nat, k: nat)
    requires IsRun(Next, states) && k < |states| && maxBatch > 0
    requires states[0] == System(New(coalesce, maxBatch), None, Receiving, None, NoTrouble)
    ensures var s := states[k];
            && s.trouble == NoTrouble
            && Outstanding(s) == (if s.batcher.inFlight.Some? then [s.batcher.inFlight.value] else [])
            && (forall now :: s.batcher.Ready(now) ==> s.commands.None?)
            && (s.completions.Some? ==> s.batcher.inFlight == s.completions)
            && (s.worker.Completing? ==> s.completions.None?)
  {
    forall b, a | Inv(b) && Next(b, a) ensures Inv(a) {
      var e :| Enabled(b, e) && a == Do(b, e);
      StepKeepsInv(b, e);
    }
    assert states[0].batcher.Valid();
    Always(Next, Inv, states, k);
    var s := states[k];
    assert s.commands.Some? ==> Outstanding(s) != [];
    assert s.completions.Some? ==> Outstanding(s)[|Outstanding(s)| - 1] == s.completions.value;
  }

  lemma OneStep(s: System, t: System, e: Step)
    requires Reaches(Next, s, t) && Enabled(t, e)
    ensures Reaches(Next, s, Do(t, e))
  {
    assert Next(t, Do(t, e));
    ReachesOneMore(Next, s, t, Do(t, e));
  }

  /** Wherever an activation is, it can be brought to its end, and then the batcher is free again with all that was
  pending still pending. */
  lemma EveryActivationCanFinish(s: System) returns (t: System)
    requires Inv(s)
    ensures Reaches(Next, s, t) && Outstanding(t) == [] && t.batcher == s.batcher.Finished()
  {
    ReachesSelf(Next, s);
    t := s;
    if t.commands.Some? {
      OneStep(s, t, WorkerReceives);
      t := Do(t, WorkerReceives);
    }
    if t.worker.Exchanging? {
      OneStep(s, t, WorkerAnswers);
      t := Do(t, WorkerAnswers);
    }
    if t.worker.Completing? {
      OneStep(s, t, WorkerCompletes);
      t := Do(t, WorkerCompletes);
    }
    if t.completions.Some? {
      OneStep(s, t, PollCompletion);
      t := Do(t, PollCompletion);
    }
  }

  /** A batch that is ready is sent when misses are collected, and nothing is sent otherwise. */
  lemma ReadyBatchIsSent(s: System, now: nat)
    requires Inv(s)
    ensures var a := Do(s, Collect(now));
            if s.batcher.Ready(now) then a.commands.Some? && a.commands == a.batcher.inFlight && |a.commands.value| == s.batcher.Cut()
            else a == s
  {
    if s.batcher.Ready(now) {
      BatchIsTheSmallest(s.batcher, now);
    }
  }
}

/** The executor that runs one benchmark inside a guest: settle, scheduler, treatment, warm-up, measurement,
cool-down, cleanup. What the guest's processes do is a parameter; what the executor makes of it is proved. */
module GuestExecutor {
  import opened Rules

  datatype SchedulerPlan = SchedulerPlan(settle: nat, grace: nat)

  /** Seconds throughout; a command is known by its time limit. */
  datatype Plan = Plan(vmSettle: nat, scheduler: Option<SchedulerPlan>, treatment: Option<nat>, postTreatment: nat,
                       warmup: Option<nat>, postWarmup: nat, measurement: nat, cooldown: nat)

  /** How long the host waits for the guest. */
  function HostTimeout(plan: Plan, extra: nat): nat {
    plan.vmSettle + plan.postWarmup + plan.measurement + plan.cooldown + extra
    + (match plan.scheduler case Some(s) => s.grace + s.settle case None => 0)
    + (match plan.treatment case Some(limit) => limit + plan.postTreatment case None => 0)
    + (match plan.warmup case Some(limit) => limit case None => 0)
  }

  datatype Status =
    | Pass | InternalError | SchedulerFailed
    | TreatmentFailed | TreatmentTimeout | TreatmentStopped | TreatmentUnsafe
    | WarmupFailed | WarmupTimeout | BenchFailed | BenchTimeout

  /** What a command does when it is started: it may not start at all, and may leave processes behind. */
  datatype Behaviour = NotStarted | Exits(returncode: int, seconds: nat, leaks: bool)

  datatype Disposition = Proceed | Stop | Unsafe | Invalid

  /** What the guest does. The scheduler is alive the first `lifetime` times it is looked at, and dead from
  then on; `stopsClean` is none when stopping it raises an error. */
  datatype World = World(prepares: bool, starts: bool, lifetime: nat, treatment: Behaviour, disposition: Disposition,
                         warmup: Behaviour, snapshotsBefore: bool, measurement: Behaviour, snapshotsAfter: bool,
                         stopsClean: Option<bool>, writes: bool)

  datatype PhaseStatus = Skipped | Passed | Failed | TimedOut | Stopped | UnsafeState | Proceeded
  datatype Phase = Phase(status: PhaseStatus, returncode: Option<int>)

  datatype SchedulerStatus = NotUsed | Running | SchedulerPassed | SchedulerDead

  predicate InTime(b: Behaviour, limit: nat) {
    b.NotStarted? || b.seconds <= limit
  }

  /** A command passes when it exits with zero within its limit and leaves nothing behind. */
  predicate Succeeds(b: Behaviour, limit: nat) {
    b.Exits? && b.seconds <= limit && b.returncode == 0 && !b.leaks
  }

  /** The seconds a command takes, cut at its limit. */
  function Spent(b: Behaviour, limit: nat): (r: nat)
    ensures r <= limit
  {
    if b.NotStarted? then 0 else if b.seconds <= limit then b.seconds else limit
  }

  /** How long scheduler, treatment and warm-up take, in a run that gets past them. */
  function BringUpTime(plan: Plan, w: World): nat {
    plan.postWarmup
    + (match plan.scheduler case Some(s) => s.grace + s.settle case None => 0)
    + (match plan.treatment case Some(limit) => Spent(w.treatment, limit) + plan.postTreatment case None => 0)
    + (match plan.warmup case Some(limit) => Spent(w.warmup, limit) case None => 0)
  }

  /** How long a run waits that gets to its end. */
  function Duration(plan: Plan, w: World): nat {
    plan.vmSettle + BringUpTime(plan, w) + Spent(w.measurement, plan.measurement) + plan.cooldown
  }

  // ---- What a run must be to pass ------------------------------------------------------------

  predicate TreatmentOk(plan: Plan, w: World) {
    plan.treatment.None? || (Succeeds(w.treatment, plan.treatment.value) && w.disposition == Proceed)
  }

  predicate WarmupOk(plan: Plan, w: World) {
    plan.warmup.None? || Succeeds(w.warmup, plan.warmup.value)
  }

  /** How often the scheduler is looked at before the measurement, in a run that gets there. */
  function LooksBefore(plan: Plan): nat {
    if plan.treatment.Some? then 6 else 4
  }

  predicate AliveFor(plan: Plan, w: World, looks: nat) {
    plan.scheduler.None? || (w.starts && looks <= w.lifetime)
  }

  /** Everything that was planned happened, and happened well. */
  predicate Successful(plan: Plan, w: World) {
    && w.prepares && w.writes && w.snapshotsBefore && w.snapshotsAfter
    && TreatmentOk(plan, w) && WarmupOk(plan, w) && Succeeds(w.measurement, plan.measurement)
    && AliveFor(plan, w, LooksBefore(plan) + 2)
    && (plan.scheduler.Some? ==> w.stopsClean == Some(true))
  }

  // ---- What a run reports --------------------------------------------------------------------

  function SchedulerVerdict(plan: Plan, w: World, looks: nat): Option<Status> {
    if AliveFor(plan, w, looks) then None else Some(SchedulerFailed)
  }

  function CommandVerdict(b: Behaviour, limit: nat, failed: Status, timedOut: Status): Option<Status> {
    if Succeeds(b, limit) then None else if InTime(b, limit) then Some(failed) else Some(timedOut)
  }

  function OutcomeVerdict(disposition: Disposition): Option<Status> {
    match disposition
    case Proceed => None
    case Stop => Some(TreatmentStopped)
    case Unsafe => Some(TreatmentUnsafe)
    case Invalid => Some(TreatmentFailed)
  }

  /** The earlier verdict counts. */
  function Then(first: Option<Status>, second: Option<Status>): Option<Status> {
    if first.Some? then first else second
  }

  /** After a command the scheduler is looked at first: its death explains whatever the command did. */
  function TreatmentVerdict(plan: Plan, w: World): Option<Status> {
    if plan.treatment.None? then None
    else
      Then(SchedulerVerdict(plan, w, 3),
      Then(CommandVerdict(w.treatment, plan.treatment.value, TreatmentFailed, TreatmentTimeout),
      Then(OutcomeVerdict(w.disposition), SchedulerVerdict(plan, w, 4))))
  }

  function WarmupVerdict(plan: Plan, w: World): Option<Status> {
    var command :=
      if plan.warmup.None? then None else CommandVerdict(w.warmup, plan.warmup.value, WarmupFailed, WarmupTimeout);
    Then(SchedulerVerdict(plan, w, LooksBefore(plan) - 1), Then(command, SchedulerVerdict(plan, w, LooksBefore(plan))))
  }

  function MeasurementVerdict(plan: Plan, w: World): Option<Status> {
    if !w.snapshotsBefore || !w.snapshotsAfter then Some(InternalError)
    else
      Then(SchedulerVerdict(plan, w, LooksBefore(plan) + 1),
           CommandVerdict(w.measurement, plan.measurement, BenchFailed, BenchTimeout))
  }

  function PhasesVerdict(plan: Plan, w: World): Option<Status> {
    if !w.prepares then Some(InternalError)
    else
      Then(SchedulerVerdict(plan, w, 2),
      Then(TreatmentVerdict(plan, w), Then(WarmupVerdict(plan, w), MeasurementVerdict(plan, w))))
  }

  /** A scheduler that does not stop well spoils a pass and no other verdict; a result that cannot be written
  spoils every one. */
  function Verdict(plan: Plan, w: World): Status {
    if !w.prepares || !w.writes then InternalError
    else
      match PhasesVerdict(plan, w)
      case Some(status) => status
      case None =>
        if plan.scheduler.Some? && (w.stopsClean != Some(true) || !AliveFor(plan, w, LooksBefore(plan) + 2))
        then SchedulerFailed else Pass
  }

  /** A pass is reported exactly when everything planned happened well, in whatever order one looks at it. */
  lemma PassIffSuccessful(plan: Plan, w: World)
    ensures Verdict(plan, w) == Pass <==> Successful(plan, w)
  {
    var n := LooksBefore(plan);
    assert AliveFor(plan, w, n + 2) ==> forall k: nat :: k <= n + 2 ==> AliveFor(plan, w, k);
  }

  // ---- What a reported status means ----------------------------------------------------------

  predicate Recorded(w: World) {
    w.prepares && w.writes
  }

  predicate SnapshotsTaken(w: World) {
    w.snapshotsBefore && w.snapshotsAfter
  }

  /** The guest is ready for the measurement. */
  predicate BroughtUp(plan: Plan, w: World) {
    TreatmentOk(plan, w) && WarmupOk(plan, w) && AliveFor(plan, w, LooksBefore(plan))
  }

  /** The treatment was started and ended with the scheduler alive. */
  predicate Treated(plan: Plan, w: World) {
    plan.treatment.Some? && AliveFor(plan, w, 3)
  }

  /** So was the warm-up, after a good treatment. */
  predicate Warmed(plan: Plan, w: World) {
    TreatmentOk(plan, w) && plan.warmup.Some? && AliveFor(plan, w, LooksBefore(plan) - 1)
  }

  /** So was the measurement, in a guest that was brought up. */
  predicate Measured(plan: Plan, w: World) {
    BroughtUp(plan, w) && SnapshotsTaken(w) && AliveFor(plan, w, LooksBefore(plan) + 1)
  }

  /** The scheduler was found dead while everything before that look had gone well, or did not stop well at the end
  of a run that had. A command that ends while the scheduler is dead is not held to account. */
  predicate SchedulerToBlame(plan: Plan, w: World) {
    || !AliveFor(plan, w, 2)
    || (plan.treatment.Some? && !AliveFor(plan, w, 3))
    || (TreatmentOk(plan, w) && !AliveFor(plan, w, LooksBefore(plan) - 1))
    || (TreatmentOk(plan, w) && WarmupOk(plan, w) && !AliveFor(plan, w, LooksBefore(plan)))
    || (BroughtUp(plan, w) && SnapshotsTaken(w) && !AliveFor(plan, w, LooksBefore(plan) + 1))
    || (&& Measured(plan, w) && Succeeds(w.measurement, plan.measurement) && plan.scheduler.Some?
        && (w.stopsClean != Some(true) || !AliveFor(plan, w, LooksBefore(plan) + 2)))
  }

  /** What each status says about the run: which part failed, and that every part before it went well. */
  predicate Explains(status: Status, plan: Plan, w: World) {
    match status
    case Pass => Successful(plan, w)
    case InternalError => !Recorded(w) || (BroughtUp(plan, w) && !SnapshotsTaken(w))
    case SchedulerFailed => Recorded(w) && SchedulerToBlame(plan, w)
    case TreatmentTimeout => Recorded(w) && Treated(plan, w) && !InTime(w.treatment, plan.treatment.value)
    case TreatmentFailed =>
      && Recorded(w) && Treated(plan, w) && InTime(w.treatment, plan.treatment.value)
      && (!Succeeds(w.treatment, plan.treatment.value) || w.disposition == Invalid)
    case TreatmentStopped => Recorded(w) && Treated(plan, w) && Succeeds(w.treatment, plan.treatment.value) && w.disposition == Stop
    case TreatmentUnsafe => Recorded(w) && Treated(plan, w) && Succeeds(w.treatment, plan.treatment.value) && w.disposition == Unsafe
    case WarmupTimeout => Recorded(w) && Warmed(plan, w) && !InTime(w.warmup, plan.warmup.value)
    case WarmupFailed =>
      Recorded(w) && Warmed(plan, w) && InTime(w.warmup, plan.warmup.value) && !Succeeds(w.warmup, plan.warmup.value)
    case BenchTimeout => Recorded(w) && Measured(plan, w) && !InTime(w.measurement, plan.measurement)
    case BenchFailed =>
      Recorded(w) && Measured(plan, w) && InTime(w.measurement, plan.measurement) && !Succeeds(w.measurement, plan.measurement)
  }

  lemma VerdictIsExplained(plan: Plan, w: World)
    ensures Explains(Verdict(plan, w), plan, w)
  {
  }

  /** The explanations exclude one another. */
  lemma ExplanationsExclude(a: Status, b: Status, plan: Plan, w: World)
    requires Explains(a, plan, w) && Explains(b, plan, w)
    ensures a == b
  {
  }

  /** A status is reported exactly when it explains the run. */
  lemma StatusMeans(status: Status, plan: Plan, w: World)
    ensures Verdict(plan, w) == status <==> Explains(status, plan, w)
  {
    VerdictIsExplained(plan, w);
    if Explains(status, plan, w) {
      ExplanationsExclude(status, Verdict(plan, w), plan, w);
    }
  }

  /** The exit code a status and the recorded code of the command it is about lead to. */
  function CodeOf(status: Status, returncode: Option<int>): (code: nat)
    ensures code <= 255 && (code == 0 <==> status == Pass)
    ensures status in {TreatmentTimeout, WarmupTimeout, BenchTimeout} ==> code == 124
    ensures status !in {Pass, TreatmentTimeout, WarmupTimeout, BenchTimeout} ==>
              if returncode.Some? && 1 <= returncode.value <= 255 then Some(code as int) == returncode else code == 125
  {
    if status == Pass then 0
    else if status in {TreatmentTimeout, WarmupTimeout, BenchTimeout} then 124
    else if returncode.Some? && 1 <= returncode.value <= 255 then returncode.value
    else 125
  }

  /** The code recorded for a command that was not cut off. */
  function RecordedCode(b: Behaviour): Option<int> {
    Some(if b.NotStarted? then 127 else b.returncode)
  }

  /** What a failed command makes the executor exit with. */
  function FailedCode(b: Behaviour): nat {
    if b.NotStarted? then 127 else if 1 <= b.returncode <= 255 then b.returncode else 125
  }

  class Executor {
    const plan: Plan
    const world: World
    var outputReady: bool
    var process: bool
    var looks: nat
    var schedulerStatus: SchedulerStatus
    var treatmentResult: Phase
    var warmupResult: Phase
    var measurementResult: Phase
    var status: Status
    /** Seconds spent sleeping and in commands, and whether the measurement was started. */
    ghost var waited: nat
    ghost var measured: bool

    constructor (plan: Plan, world: World)
      ensures this.plan == plan && this.world == world && Initial()
    {
      this.plan := plan;
      this.world := world;
      outputReady, process, looks := false, false, 0;
      schedulerStatus, status := NotUsed, InternalError;
      treatmentResult, warmupResult, measurementResult := Phase(Skipped, None), Phase(Skipped, None), Phase(Skipped, None);
      waited, measured := 0, false;
    }

    ghost predicate Initial()
      reads this
    {
      !outputReady && !process && looks == 0 && schedulerStatus == NotUsed && waited == 0 && !measured && status == InternalError
      && measurementResult == Phase(Skipped, None)
    }

    /** The scheduler runs, as far as the executor has looked. */
    ghost predicate Alive(n: nat)
      reads this
    {
      if plan.scheduler.None? then !process && schedulerStatus == NotUsed
      else process && schedulerStatus == Running && looks == n <= world.lifetime && world.starts
    }

    /** The scheduler, if it was started, is known to be dead or was alive when last looked at. */
    ghost predicate Known()
      reads this
    {
      if plan.scheduler.None? then !process
      else process ==> world.starts && (schedulerStatus == SchedulerDead || (schedulerStatus == Running && looks <= world.lifetime))
    }

    /** The results tell the exit code of the command that failed, and nothing of a measurement that did not run. */
    ghost predicate Reported(status: Status)
      reads this
    {
      && (status == TreatmentFailed ==> treatmentResult.returncode == RecordedCode(world.treatment))
      && (status == WarmupFailed ==> warmupResult.returncode == RecordedCode(world.warmup))
      && (status == BenchFailed ==> measurementResult.returncode == RecordedCode(world.measurement))
      && (!measured ==> measurementResult.returncode == None)
      && (status == TreatmentUnsafe ==> treatmentResult.status == UnsafeState)
      && (status == TreatmentStopped ==> treatmentResult.status == Stopped)
    }

    method Sleep(seconds: nat)
      modifies this`waited
      ensures waited == old(waited) + seconds
    {
      waited := waited + seconds;
    }

    method CheckScheduler(ghost n: nat) returns (failure: Option<Status>)
      requires Alive(n)
      modifies this`looks, this`schedulerStatus
      ensures failure == SchedulerVerdict(plan, world, n + 1)
      ensures if failure.None? then Alive(n + 1) else plan.scheduler.Some? && schedulerStatus == SchedulerDead
    {
      if plan.scheduler.None? {
        return None;
      }
      var alive := process && looks < world.lifetime;
      looks := looks + 1;
      if alive {
        return None;
      }
      schedulerStatus := SchedulerDead;
      return Some(SchedulerFailed);
    }

    method StartScheduler() returns (failure: Option<Status>)
      requires !process && looks == 0 && schedulerStatus == NotUsed
      modifies this`process, this`looks, this`schedulerStatus, this`waited
      ensures failure == SchedulerVerdict(plan, world, 2)
      ensures Known() && (failure.None? ==> Alive(2))
      ensures waited <= old(waited) + (match plan.scheduler case Some(s) => s.grace + s.settle case None => 0)
      ensures failure.None? ==> waited == old(waited) + (match plan.scheduler case Some(s) => s.grace + s.settle case None => 0)
    {
      if plan.scheduler.None? {
        return None;
      }
      if !world.starts {
        schedulerStatus := SchedulerDead;
        return Some(SchedulerFailed);
      }
      process, schedulerStatus := true, Running;
      Sleep(plan.scheduler.value.grace);
      failure := CheckScheduler(0);
      if failure.None? {
        Sleep(plan.scheduler.value.settle);
        failure := CheckScheduler(1);
      }
    }

    /** Runs a command under its limit and says how it went. */
    method RunCommand(b: Behaviour, limit: nat) returns (result: Phase)
      modifies this`waited
      ensures result.status == if Succeeds(b, limit) then Passed else if InTime(b, limit) then Failed else TimedOut
      ensures result.returncode == Some(if b.NotStarted? then 127 else if InTime(b, limit) then b.returncode else 124)
      ensures waited == old(waited) + Spent(b, limit)
    {
      match b
      case NotStarted =>
        result := Phase(Failed, Some(127));
      case Exits(returncode, seconds, leaks) =>
        if seconds > limit {
          waited := waited + limit;
          result := Phase(TimedOut, Some(124));
        } else {
          waited := waited + seconds;
          result := Phase(if returncode != 0 || leaks then Failed else Passed, Some(returncode));
        }
    }

    method RequirePhase(result: Phase, failed: Status, timedOut: Status) returns (failure: Option<Status>)
      ensures failure == match result.status
                         case Passed => None
                         case TimedOut => Some(timedOut)
                         case _ => Some(failed)
    {
      if result.status == Passed {
        return None;
      }
      return Some(if result.status == TimedOut then timedOut else failed);
    }

    method RunTreatment() returns (failure: Option<Status>)
      requires Alive(2)
      modifies this`treatmentResult, this`waited, this`looks, this`schedulerStatus
      ensures failure == TreatmentVerdict(plan, world)
      ensures Known() && (failure.None? ==> TreatmentOk(plan, world) && Alive(LooksBefore(plan) - 2))
      ensures failure == Some(TreatmentFailed) ==> treatmentResult.returncode == RecordedCode(world.treatment)
      ensures plan.treatment.Some? ==>
                treatmentResult.status == if !Succeeds(world.treatment, plan.treatment.value)
                                          then (if InTime(world.treatment, plan.treatment.value) then Failed else TimedOut)
                                          else if !AliveFor(plan, world, 3) then Passed
                                          else match world.disposition
                                               case Invalid => Failed
                                               case Unsafe => UnsafeState
                                               case Stop => Stopped
                                               case Proceed => Proceeded
      ensures waited <= old(waited) + (match plan.treatment case Some(limit) => Spent(world.treatment, limit) + plan.postTreatment case None => 0)
      ensures failure.None? ==>
        waited == old(waited) + (match plan.treatment case Some(limit) => Spent(world.treatment, limit) + plan.postTreatment case None => 0)
    {
      if plan.treatment.None? {
        return None;
      }
      treatmentResult := RunCommand(world.treatment, plan.treatment.value);
      failure := CheckScheduler(2);
      if failure.Some? {
        return;
      }
      failure := RequirePhase(treatmentResult, TreatmentFailed, TreatmentTimeout);
      if failure.Some? {
        return;
      }
      match world.disposition
      case Invalid =>
        treatmentResult := treatmentResult.(status := Failed);
        return Some(TreatmentFailed);
      case Unsafe =>
        treatmentResult := treatmentResult.(status := UnsafeState);
        return Some(TreatmentUnsafe);
      case Stop =>
        treatmentResult := treatmentResult.(status := Stopped);
        return Some(TreatmentStopped);
      case Proceed =>
        treatmentResult := treatmentResult.(status := Proceeded);
        Sleep(plan.postTreatment);
        failure := CheckScheduler(3);
    }

    method RunWarmup() returns (failure: Option<Status>)
      requires Alive(LooksBefore(plan) - 2)
      modifies this`warmupResult, this`waited, this`looks, this`schedulerStatus
      ensures failure == WarmupVerdict(plan, world)
      ensures Known() && (failure.None? ==> WarmupOk(plan, world) && Alive(LooksBefore(plan)))
      ensures failure == Some(WarmupFailed) ==> warmupResult.returncode == RecordedCode(world.warmup)
      ensures waited <= old(waited) + plan.postWarmup + (match plan.warmup case Some(limit) => Spent(world.warmup, limit) case None => 0)
      ensures failure.None? ==>
        waited == old(waited) + plan.postWarmup + (match plan.warmup case Some(limit) => Spent(world.warmup, limit) case None => 0)
    {
      ghost var n := LooksBefore(plan);
      if plan.warmup.Some? {
        warmupResult := RunCommand(world.warmup, plan.warmup.value);
        failure := CheckScheduler(n - 2);
        if failure.Some? {
          return;
        }
        failure := RequirePhase(warmupResult, WarmupFailed, WarmupTimeout);
        if failure.Some? {
          return;
        }
      } else {
        failure := CheckScheduler(n - 2);
        if failure.Some? {
          return;
        }
      }
      Sleep(plan.postWarmup);
      failure := CheckScheduler(n - 1);
    }

    method Measure() returns (failure: Option<Status>)
      requires Alive(LooksBefore(plan)) && !measured
      modifies this`measurementResult, this`waited, this`looks, this`schedulerStatus, this`measured
      ensures failure == MeasurementVerdict(plan, world)
      ensures Known() && (failure.None? ==> Alive(LooksBefore(plan) + 1))
      ensures failure == Some(BenchFailed) ==> measurementResult.returncode == RecordedCode(world.measurement)
      ensures measured == world.snapshotsBefore && (!measured ==> measurementResult == old(measurementResult))
      ensures waited <= old(waited) + Spent(world.measurement, plan.measurement) + plan.cooldown
      ensures failure.None? ==> waited == old(waited) + Spent(world.measurement, plan.measurement) + plan.cooldown
    {
      if !world.snapshotsBefore {
        return Some(InternalError);
      }
      measured := true;
      measurementResult := RunCommand(world.measurement, plan.measurement);
      if !world.snapshotsAfter {
        return Some(InternalError);
      }
      failure := CheckScheduler(LooksBefore(plan));
      if failure.Some? {
        return;
      }
      failure := RequirePhase(measurementResult, BenchFailed, BenchTimeout);
      if failure.None? {
        Sleep(plan.cooldown);
      }
    }

    /** Scheduler, treatment and warm-up. */
    method BringUp() returns (failure: Option<Status>)
      requires !process && looks == 0 && schedulerStatus == NotUsed && measurementResult.returncode == None && !measured
      modifies this`process, this`looks, this`schedulerStatus, this`treatmentResult, this`warmupResult, this`waited
      ensures failure == Then(SchedulerVerdict(plan, world, 2), Then(TreatmentVerdict(plan, world), WarmupVerdict(plan, world)))
      ensures Known() && (failure.None? ==> BroughtUp(plan, world) && Alive(LooksBefore(plan)))
      ensures failure.Some? ==> failure.value != Pass && Reported(failure.value)
      ensures failure.None? && plan.treatment.Some? ==> treatmentResult.status == Proceeded
      ensures waited <= old(waited) + BringUpTime(plan, world) && (failure.None? ==> waited == old(waited) + BringUpTime(plan, world))
    {
      failure := StartScheduler();
      if failure.Some? {
        return;
      }
      failure := RunTreatment();
      if failure.Some? {
        return;
      }
      failure := RunWarmup();
    }

    /** Up to the end of the cool-down. The measurement is started only in a guest whose treatment and warm-up
    went well and whose scheduler was alive at every look before it. */
    method Phases() returns (failure: Option<Status>)
      requires Initial()
      modifies this`outputReady, this`process, this`looks, this`schedulerStatus, this`treatmentResult, this`warmupResult, this`measurementResult,
               this`waited, this`measured
      ensures failure == PhasesVerdict(plan, world)
      ensures failure.None? ==> Alive(LooksBefore(plan) + 1)
      ensures failure.Some? ==> failure.value != Pass && Reported(failure.value)
      ensures !measured ==> measurementResult.returncode == None
      ensures measured ==> BroughtUp(plan, world)
      ensures Known() && outputReady == world.prepares
      ensures measured && plan.treatment.Some? ==> treatmentResult.status == Proceeded
      ensures waited <= Duration(plan, world) && (failure.None? ==> waited == Duration(plan, world))
    {
      if !world.prepares {
        return Some(InternalError);
      }
      outputReady := true;
      Sleep(plan.vmSettle);
      failure := BringUp();
      if failure.None? {
        failure := Measure();
      }
    }

    /** Stops the scheduler; true when that went well. */
    method StopScheduler() returns (ok: bool)
      requires Known()
      modifies this`process, this`looks, this`schedulerStatus
      ensures ok <==> !old(process) || (world.stopsClean == Some(true) && (old(schedulerStatus) == SchedulerDead || old(looks) < world.lifetime))
      ensures world.stopsClean.Some? ==> !process
      ensures old(process) && old(schedulerStatus) == Running && world.stopsClean.Some? ==>
                schedulerStatus == if ok then SchedulerPassed else SchedulerDead
    {
      if !process {
        return true;
      }
      var alive := looks < world.lifetime;
      looks := looks + 1;
      if world.stopsClean.None? {
        return false;
      }
      var clean := world.stopsClean.value;
      ok := clean;
      if alive {
        if !clean {
          schedulerStatus := SchedulerDead;
        } else if schedulerStatus == Running {
          schedulerStatus := SchedulerPassed;
        }
      } else if schedulerStatus == Running {
        schedulerStatus := SchedulerDead;
        ok := false;
      }
      process := false;
    }

    method Finalize()
      requires Known()
      modifies this`process, this`looks, this`schedulerStatus, this`status
      ensures status == Pass <==> old(status) == Pass && outputReady && world.writes && (!old(process) || (world.stopsClean == Some(true) && (old(schedulerStatus) == SchedulerDead || old(looks) < world.lifetime)))
      ensures world.stopsClean.Some? ==> !process
      ensures status == old(status) || status == if outputReady && world.writes then SchedulerFailed else InternalError
      ensures !(outputReady && world.writes) ==> status == InternalError
      ensures old(status) != Pass && outputReady && world.writes ==> status == old(status)
    {
      var stopped := StopScheduler();
      if !stopped && status == Pass {
        status := SchedulerFailed;
      }
      if !(outputReady && world.writes) {
        status := InternalError;
      }
    }

    method ExitCode() returns (code: nat)
      ensures code == CodeOf(status, match status
                                     case TreatmentFailed => treatmentResult.returncode
                                     case WarmupFailed => warmupResult.returncode
                                     case _ => measurementResult.returncode)
    {
      if status == Pass {
        return 0;
      }
      if status in {TreatmentTimeout, WarmupTimeout, BenchTimeout} {
        return 124;
      }
      var phase := if status == TreatmentFailed then treatmentResult
                   else if status == WarmupFailed then warmupResult
                   else measurementResult;
      if phase.returncode.Some? && 1 <= phase.returncode.value <= 255 {
        return phase.returncode.value;
      }
      return 125;
    }

    method RunAndFinalize() returns (code: nat)
      requires Initial()
      modifies this
      ensures status == Verdict(plan, world)
      ensures code == CodeOf(status, match status
                                     case TreatmentFailed => RecordedCode(world.treatment)
                                     case WarmupFailed => RecordedCode(world.warmup)
                                     case BenchFailed => RecordedCode(world.measurement)
                                     case _ => measurementResult.returncode)
      ensures !measured ==> measurementResult.returncode == None
      ensures measured ==> BroughtUp(plan, world) && (plan.treatment.Some? ==> treatmentResult.status == Proceeded)
      ensures status == TreatmentUnsafe ==> treatmentResult.status == UnsafeState
      ensures status == TreatmentStopped ==> treatmentResult.status == Stopped
      ensures world.stopsClean.Some? ==> !process
      ensures waited <= Duration(plan, world) && (Verdict(plan, world) == Pass ==> waited == Duration(plan, world))
    {
      var failure := Phases();
      status := if failure.Some? then failure.value else Pass;
      Finalize();
      code := ExitCode();
    }

    /** The whole run. It reports the one status that explains it, whatever the guest does: which part failed first,
    after every part before it went well. It exits with zero exactly when everything planned succeeded, with the
    code of a failed command, and with 125 where there is none. The measurement never starts in a guest that was
    not brought up properly, the scheduler does not outlive the run, and the waiting stays within the host's
    allowance. */
    method Run() returns (code: nat)
      requires Initial()
      modifies this
      ensures forall other :: status == other <==> Explains(other, plan, world)
      ensures code == 0 <==> Successful(plan, world)
      ensures code <= 255 && (status in {TreatmentTimeout, WarmupTimeout, BenchTimeout} ==> code == 124)
      ensures status == TreatmentFailed ==> code == FailedCode(world.treatment)
      ensures status == WarmupFailed ==> code == FailedCode(world.warmup)
      ensures status == BenchFailed ==> code == FailedCode(world.measurement)
      ensures status in {InternalError, SchedulerFailed, TreatmentStopped, TreatmentUnsafe} && !measured ==> code == 125
      ensures measured ==> BroughtUp(plan, world) && (plan.treatment.Some? ==> treatmentResult.status == Proceeded)
      ensures status == TreatmentUnsafe ==> treatmentResult.status == UnsafeState
      ensures status == TreatmentStopped ==> treatmentResult.status == Stopped
      ensures world.stopsClean.Some? ==> !process
      ensures waited <= Duration(plan, world) <= HostTimeout(plan, 0)
      ensures Successful(plan, world) ==> waited == Duration(plan, world)
    {
      AllowanceIsEnough(plan, world, 0);
      PassIffSuccessful(plan, world);
      forall other ensures Verdict(plan, world) == other <==> Explains(other, plan, world) {
        StatusMeans(other, plan, world);
      }
      code := RunAndFinalize();
    }
  }

  ghost predicate UsesLimit(b: Behaviour, limit: nat) {
    limit == 0 || (b.Exits? && b.seconds >= limit)
  }

  /** No run waits longer than the host allows for, and the allowance has no slack: a run that gets to its end
  uses all of it exactly when every command uses its limit. */
  lemma AllowanceIsEnough(plan: Plan, w: World, extra: nat)
    ensures Duration(plan, w) + extra <= HostTimeout(plan, extra)
    ensures Duration(plan, w) + extra == HostTimeout(plan, extra) <==>
      && UsesLimit(w.measurement, plan.measurement)
      && (plan.treatment.Some? ==> UsesLimit(w.treatment, plan.treatment.value))
      && (plan.warmup.Some? ==> UsesLimit(w.warmup, plan.warmup.value))
  {
    var t := match plan.treatment case Some(limit) => limit - Spent(w.treatment, limit) case None => 0;
    var u := match plan.warmup case Some(limit) => limit - Spent(w.warmup, limit) case None => 0;
    assert HostTimeout(plan, extra) - extra - Duration(plan, w) == plan.measurement - Spent(w.measurement, plan.measurement) + t + u;
  }
}

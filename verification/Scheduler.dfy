/** Rule control in the scheduler: one rule lives in the store, in its file and in the BPF map.
A request changes the store, publishes to the map, and takes the store back when publishing fails. */
module Scheduler {
  import opened Rules
  import opened Runs

  /** Which BPF map calls of one publication succeed. A failed call changes nothing. */
  datatype MapIo = MapIo(lookupOk: bool, writeOk: bool)

  /** Everything the environment decides during one compare-and-set request. */
  datatype CasIo = CasIo(
    replace: ReplaceOutcome, activeOk: bool, publish: MapIo,
    rollback: ReplaceOutcome, republish: MapIo, observeOk: bool)

  datatype Status = Found | WasApplied | WasNoop | WasConflict | Failed

  datatype Observation = Observation(active: Option<RuleClass>, persisted: Option<RuleClass>, consistent: bool) {
    predicate Matches(expected: RuleState) {
      consistent && active == expected.Class() && persisted == expected.Class()
    }
  }

  datatype Response =
    Response(status: Status, current: Option<RuleState>, rule: Option<Observation>, revision: nat, rulesSeq: u64)

  /** The sequence number a publication that started at `s` leaves behind. */
  function Bump(s: u64): (r: u64)
    ensures r % 2 == 0
  {
    WrappingAdd(s - s % 2, 2)
  }

  /** Store, file, BPF map and sequence number as one value. */
  datatype Sched = Sched(store: StoreState, rulesMap: RuleTable, rulesSeq: u64) {
    function Learned(): RuleTable { store.rules.learned }

    /** The classifier sees exactly the effective rules. */
    predicate Agrees() {
      rulesMap == Effective(store.rules.base, store.rules.learned)
    }

    predicate Healthy() {
      && store.rules.Valid() && store.Synced() && Agrees()
      && rulesSeq % 2 == 0
    }

    function Published(comm: Comm, state: RuleState): Sched {
      this.(rulesMap := WithState(rulesMap, comm, state), rulesSeq := Bump(rulesSeq))
    }

    /** Stored, written to the file and published. */
    function Applied(comm: Comm, desired: RuleState): Sched {
      this.(store := Stored(comm, desired)).Published(comm, desired)
    }

    function Stored(comm: Comm, desired: RuleState): StoreState {
      var next := store.rules.Next(comm, desired);
      store.(rules := next, file := next.AsDocument())
    }

    /** Stored, publication failed, and both store and map taken back. */
    function RolledBack(comm: Comm, desired: RuleState): Sched {
      var previous := StateAt(Learned(), comm);
      this.(store := Stored(comm, desired), rulesSeq := Bump(rulesSeq)).Applied(comm, previous)
    }

    function Observe(comm: Comm): Observation {
      var active := ClassAt(rulesMap, comm);
      Observation(active, ClassAt(store.file.learned, comm),
        active == ClassAt(Effective(store.rules.base, Learned()), comm) && store.Synced())
    }
  }

  /** What a compare-and-set request did to the scheduler. */
  datatype Effect = Untouched | Changed | TakenBack | Republished

  function After(b: Sched, comm: Comm, desired: RuleState, effect: Effect): Sched {
    match effect
    case Untouched => b
    case Changed => b.Applied(comm, desired)
    case TakenBack => b.RolledBack(comm, desired)
    case Republished => b.Published(comm, desired)
  }

  /** Which effect may stand behind which answer. `Failed` may hide a change that took effect: the
  final observation of an applied change can fail on its own. */
  predicate MayAnswer(b: Sched, comm: Comm, expected: RuleState, desired: RuleState, status: Status, effect: Effect) {
    var rules := b.store.rules;
    && (status != Failed ==> comm !in rules.base)
    && (status == WasConflict ==> StateAt(rules.learned, comm) != expected && effect == Untouched)
    && (status == WasNoop ==> StateAt(rules.learned, comm) == expected == desired && effect in {Untouched, Republished})
    && (status == WasApplied ==> effect == Changed)
    && (effect != Untouched ==> comm !in rules.base && StateAt(rules.learned, comm) == expected)
    && (effect == Republished <==> effect != Untouched && expected == desired)
    && (effect in {Changed, TakenBack} ==> rules.Next(comm, desired).Valid())
    && (effect == TakenBack ==> status == Failed && rules.revision + 2 < U64)
    && status != Found
  }

  /** Which calls a publication makes, and that they succeed: adding writes, removing looks first and writes only
  when there is something to remove. */
  predicate Publishes(rulesMap: RuleTable, comm: Comm, state: RuleState, io: MapIo) {
    match state
    case Present(_) => io.writeOk
    case Absent => io.lookupOk && (comm in rulesMap ==> io.writeOk)
  }

  /** What a request asks for, given the rule as it is. */
  datatype Ask = Refused | Conflicting | Nothing | Change

  function AskOf(b: Sched, comm: Comm, expected: RuleState, desired: RuleState): Ask {
    if !ValidComm(comm) || comm in b.store.rules.base then Refused
    else if StateAt(b.Learned(), comm) != expected then Conflicting
    else if expected == desired then Nothing
    else Change
  }

  /** The map entry has to be repaired. */
  predicate Differs(b: Sched, comm: Comm, desired: RuleState) {
    ClassAt(b.rulesMap, comm) != desired.Class()
  }

  /** Taking a change back works: there is a revision left for it, the file lasts, and the map can be set back. */
  predicate Restores(b: Sched, comm: Comm, previous: RuleState, io: CasIo) {
    b.store.rules.revision + 2 < U64 && io.rollback.Durable? && Publishes(b.rulesMap, comm, previous, io.republish)
  }

  /** What decides a request: what it asks for, whether the map has to be repaired, whether the new rules are
  valid, and whether publishing and taking back would work. */
  datatype Facts = Facts(ask: Ask, differs: bool, fits: bool, publishes: bool, restores: bool) {
    /** The change gets into the store for sure. */
    predicate Stores(io: CasIo) {
      fits && io.replace.Durable?
    }

    /** The request achieves its end. */
    predicate Achieves(io: CasIo) {
      match ask
      case Refused => false
      case Conflicting => true
      case Nothing => io.activeOk && (differs ==> publishes)
      case Change => Stores(io) && publishes
    }

    /** The scheduler must stop: the file may not last, or the map cannot be brought into line. */
    predicate MustStop(io: CasIo) {
      match ask
      case Refused => false
      case Conflicting => false
      case Nothing => io.activeOk && differs && !publishes
      case Change => fits && (io.replace.RenamedButUnsynced? || (io.replace.Durable? && !publishes && !restores))
    }

    /** What is left behind when it need not stop. */
    function EffectOf(io: CasIo): Effect {
      match ask
      case Refused => Untouched
      case Conflicting => Untouched
      case Nothing => if io.activeOk && differs then Republished else Untouched
      case Change => if !Stores(io) then Untouched else if publishes then Changed else TakenBack
    }

    /** The answer: a failure exactly when the end was not achieved or the final look failed. */
    function StatusOf(io: CasIo): Status {
      if !Achieves(io) || !io.observeOk then Failed
      else match ask
        case Refused => Failed
        case Conflicting => WasConflict
        case Nothing => WasNoop
        case Change => WasApplied
    }
  }

  function FactsOf(b: Sched, comm: Comm, expected: RuleState, desired: RuleState, io: CasIo): Facts {
    Facts(AskOf(b, comm, expected, desired), Differs(b, comm, desired), b.store.rules.Next(comm, desired).Valid(),
          Publishes(b.rulesMap, comm, desired, io.publish), Restores(b, comm, expected, io))
  }

  /** One compare-and-set request that did not end fatally. */
  ghost predicate CasStep(
      b: Sched, a: Sched, comm: Comm, expected: RuleState, desired: RuleState, status: Status, effect: Effect)
  {
    MayAnswer(b, comm, expected, desired, status, effect) && a == After(b, comm, desired, effect)
  }

  /** A fatal end: the map is as it was, the rule was changed in the store or it was not, no other rule was
  touched, and the file still holds what the store holds. */
  predicate FatalStep(b: Sched, a: Sched, comm: Comm, expected: RuleState, desired: RuleState) {
    && StateAt(b.Learned(), comm) == expected && comm !in b.store.rules.base
    && a.rulesMap == b.rulesMap && a.store.rules.base == b.store.rules.base
    && (a.Learned() == b.Learned() || a.Learned() == WithState(b.Learned(), comm, desired))
    && a.store.rules.Valid() && (b.store.Synced() ==> a.store.Synced())
  }

  ghost predicate DiffersOnlyAt(before: RuleTable, after: RuleTable, comm: Comm) {
    after == WithState(before, comm, StateAt(after, comm))
  }

  /** Nothing but the rule of `comm` differs. */
  ghost predicate OnlyTouches(b: Sched, a: Sched, comm: Comm) {
    && a.store.rules.base == b.store.rules.base
    && DiffersOnlyAt(b.Learned(), a.Learned(), comm)
    && DiffersOnlyAt(b.rulesMap, a.rulesMap, comm)
  }

  lemma EffectiveChange(base: RuleTable, learned: RuleTable, comm: Comm, state: RuleState)
    requires comm !in base
    ensures Effective(base, WithState(learned, comm, state)) == WithState(Effective(base, learned), comm, state)
    ensures StateAt(Effective(base, learned), comm) == StateAt(learned, comm)
  {
  }

  lemma UndoChange(table: RuleTable, comm: Comm, state: RuleState)
    ensures WithState(WithState(table, comm, state), comm, StateAt(table, comm)) == table
    ensures DiffersOnlyAt(table, table, comm)
    ensures DiffersOnlyAt(table, WithState(table, comm, state), comm)
    ensures StateAt(WithState(table, comm, state), comm) == state
  {
  }

  lemma AppliedKeepsHealth(s: Sched, comm: Comm, desired: RuleState)
    requires s.Healthy() && comm !in s.store.rules.base && s.store.rules.Next(comm, desired).Valid()
    ensures s.Applied(comm, desired).Healthy()
    ensures OnlyTouches(s, s.Applied(comm, desired), comm)
    ensures StateAt(s.Applied(comm, desired).Learned(), comm) == desired
  {
    EffectiveChange(s.store.rules.base, s.Learned(), comm, desired);
    UndoChange(s.Learned(), comm, desired);
    UndoChange(s.rulesMap, comm, desired);
  }

  /** Taking a failed publication back restores rules and map; only revision and sequence move on. */
  lemma RollbackRestores(s: Sched, comm: Comm, desired: RuleState)
    requires s.Healthy() && comm !in s.store.rules.base && s.store.rules.revision + 2 < U64
    ensures s.RolledBack(comm, desired).Healthy()
    ensures s.RolledBack(comm, desired).Learned() == s.Learned()
    ensures s.RolledBack(comm, desired).rulesMap == s.rulesMap
    ensures s.RolledBack(comm, desired).store.rules.revision == s.store.rules.revision + 2
  {
    UndoChange(s.Learned(), comm, desired);
    EffectiveChange(s.store.rules.base, s.Learned(), comm, StateAt(s.Learned(), comm));
    UndoChange(s.rulesMap, comm, desired);
  }

  /** A request that does not end fatally keeps store, file and map in agreement, whether it was
  applied, refused, failed, or rolled back, and only moves a rule from `expected` to `desired`. */
  lemma CasStepKeepsHealth(
      b: Sched, a: Sched, comm: Comm, expected: RuleState, desired: RuleState, status: Status, effect: Effect)
    requires b.Healthy() && CasStep(b, a, comm, expected, desired, status, effect)
    ensures a.Healthy() && OnlyTouches(b, a, comm)
    ensures effect == Changed ==>
              StateAt(b.Learned(), comm) == expected && StateAt(a.Learned(), comm) == desired != expected
    ensures effect != Changed ==> a.Learned() == b.Learned() && a.rulesMap == b.rulesMap
  {
    UndoChange(b.Learned(), comm, desired);
    UndoChange(b.rulesMap, comm, desired);
    match effect {
      case Untouched =>
      case Changed => AppliedKeepsHealth(b, comm, desired);
      case TakenBack => RollbackRestores(b, comm, desired);
      case Republished => EffectiveChange(b.store.rules.base, b.Learned(), comm, desired);
    }
  }

  /** The scheduler that loads the file another one has left. */
  function Restarted(s: Sched): Sched {
    Sched(StoreState(RuleSet(s.store.rules.base, s.store.file.learned, s.store.file.revision), s.store.file, false),
          Effective(s.store.rules.base, s.store.file.learned), 2)
  }

  /** After a fatal end a restart finds everything in agreement again, with the rule as the store had it. */
  lemma RestartIsHealthy(b: Sched, a: Sched, comm: Comm, expected: RuleState, desired: RuleState)
    requires b.Healthy() && FatalStep(b, a, comm, expected, desired)
    ensures Restarted(a).Healthy() && Restarted(a).Learned() == a.Learned()
    ensures StateAt(a.Learned(), comm) == expected || StateAt(a.Learned(), comm) == desired
  {
    UndoChange(b.Learned(), comm, desired);
  }

  /** When nothing fails a request is answered by the rule alone: a conflict if the rule is not as expected, nothing
  to do if it is and should stay so, and otherwise applied; and the scheduler goes on. */
  lemma AnswersWhenNothingFails(b: Sched, comm: Comm, expected: RuleState, desired: RuleState, io: CasIo)
    requires ValidComm(comm) && comm !in b.store.rules.base && b.store.rules.Next(comm, desired).Valid()
    requires io.replace.Durable? && io.activeOk && io.publish == MapIo(true, true) && io.observeOk
    ensures var f := FactsOf(b, comm, expected, desired, io);
            && !f.MustStop(io)
            && f.StatusOf(io) == (if StateAt(b.Learned(), comm) != expected then WasConflict
                                  else if expected == desired then WasNoop else WasApplied)
  {
    var f := FactsOf(b, comm, expected, desired, io);
    assert f.fits && f.publishes;
    NothingFails(f, io);
  }

  lemma NothingFails(f: Facts, io: CasIo)
    requires f.fits && f.publishes && io.replace.Durable? && io.activeOk && io.observeOk
    ensures !f.MustStop(io) && (f.StatusOf(io) == Failed <==> f.ask == Refused)
    ensures f.StatusOf(io) == WasConflict <==> f.ask == Conflicting
    ensures f.StatusOf(io) == WasNoop <==> f.ask == Nothing
    ensures f.StatusOf(io) == WasApplied <==> f.ask == Change
  {
  }

  /** In an agreeing scheduler nothing but a change ever touches anything: a request that finds nothing to do, a
  conflicting one and a refused one leave all as it is and never stop the scheduler. */
  lemma OnlyChangesTouch(b: Sched, comm: Comm, expected: RuleState, desired: RuleState, io: CasIo)
    requires b.Healthy()
    ensures var f := FactsOf(b, comm, expected, desired, io);
            && (f.ask != Change ==> f.EffectOf(io) == Untouched && !f.MustStop(io))
            && (f.StatusOf(io) == WasApplied ==> f.EffectOf(io) == Changed)
            && (f.EffectOf(io) == Changed ==> f.StatusOf(io) == WasApplied || !io.observeOk)
            && (f.MustStop(io) ==> f.StatusOf(io) == Failed)
  {
    if AskOf(b, comm, expected, desired) == Nothing {
      EffectiveChange(b.store.rules.base, b.Learned(), comm, desired);
      assert !Differs(b, comm, desired);
    }
  }

  /** An observation matches a state exactly when the map and the file hold that state's class for the name, the
  effective rules do too, and the file is the store's. */
  lemma ObservationMatchesIff(s: Sched, comm: Comm, state: RuleState)
    ensures s.Observe(comm).Matches(state) <==>
              && ClassAt(s.rulesMap, comm) == state.Class() && ClassAt(s.store.file.learned, comm) == state.Class()
              && ClassAt(Effective(s.store.rules.base, s.Learned()), comm) == state.Class() && s.store.Synced()
  {
  }

  /** One request of a run of the scheduler. */
  datatype Handled = Handled(comm: Comm, expected: RuleState, desired: RuleState, status: Status, effect: Effect)

  ghost predicate Next(b: Sched, a: Sched) {
    exists r: Handled :: CasStep(b, a, r.comm, r.expected, r.desired, r.status, r.effect)
  }

  /** In every run of requests from a freshly loaded scheduler, as long as none was fatal, every
  state has the BPF map equal to the effective rules and the file equal to the store. */
  lemma EveryStateAgrees(states: seq<Sched>, k: nat)
    requires IsRun(Next, states) && states[0].Healthy() && k < |states|
    ensures states[k].Healthy()
  {
    forall b: Sched, a: Sched | b.Healthy() && Next(b, a) ensures a.Healthy() {
      var r: Handled :| CasStep(b, a, r.comm, r.expected, r.desired, r.status, r.effect);
      CasStepKeepsHealth(b, a, r.comm, r.expected, r.desired, r.status, r.effect);
    }
    Always(Next, (s: Sched) => s.Healthy(), states, k);
  }

  /** In an agreeing state a rule reads back with integrity exactly when no base rule owns it. */
  lemma IntegrityIsOwnership(s: Sched, comm: Comm)
    requires s.Healthy()
    ensures s.Observe(comm).consistent
    ensures s.Observe(comm).Matches(StateAt(s.Learned(), comm)) <==> comm !in s.store.rules.base
  {
    if comm in s.store.rules.base {
      assert comm !in s.Learned();
    }
  }

  /** How a request ends: with the answer, the stop and the effect that its facts determine. */
  ghost predicate Ended(
      b: Sched, a: Sched, stop: bool, status: Status, effect: Effect,
      comm: Comm, expected: RuleState, desired: RuleState, io: CasIo, f: Facts)
  {
    && status == f.StatusOf(io) && stop == f.MustStop(io)
    && if stop then status == Failed && FatalStep(b, a, comm, expected, desired)
       else effect == f.EffectOf(io) && CasStep(b, a, comm, expected, desired, status, effect)
  }

  /** A change of the rule, and the facts that decide it. */
  predicate Changing(b: Sched, comm: Comm, expected: RuleState, desired: RuleState, io: CasIo, f: Facts) {
    && b.store.rules.Valid() && comm !in b.store.rules.base && StateAt(b.Learned(), comm) == expected != desired
    && b.store.rules.Next(comm, desired).Valid()
    && f.ask == Change && f.fits && f.publishes == Publishes(b.rulesMap, comm, desired, io.publish)
    && f.restores == Restores(b, comm, expected, io)
  }

  /** Nothing to change, and the facts that decide it. */
  predicate Idle(b: Sched, comm: Comm, desired: RuleState, io: CasIo, f: Facts) {
    && comm !in b.store.rules.base && StateAt(b.Learned(), comm) == desired
    && f.ask == Nothing && f.differs == Differs(b, comm, desired)
    && f.publishes == Publishes(b.rulesMap, comm, desired, io.publish)
  }

  lemma ChangeFacts(b: Sched, comm: Comm, expected: RuleState, desired: RuleState, io: CasIo)
    requires ValidComm(comm) && comm !in b.store.rules.base && StateAt(b.Learned(), comm) == expected != desired
    requires b.store.rules.Valid() && b.store.rules.Next(comm, desired).Valid()
    ensures Changing(b, comm, expected, desired, io, FactsOf(b, comm, expected, desired, io))
  {
  }

  lemma NoopFacts(b: Sched, comm: Comm, desired: RuleState, io: CasIo)
    requires ValidComm(comm) && comm !in b.store.rules.base && StateAt(b.Learned(), comm) == desired
    ensures Idle(b, comm, desired, io, FactsOf(b, comm, desired, desired, io))
  {
  }

  lemma AppliedEnd(b: Sched, comm: Comm, expected: RuleState, desired: RuleState, io: CasIo, f: Facts)
    requires MayAnswer(b, comm, expected, desired, WasApplied, Changed) && MayAnswer(b, comm, expected, desired, Failed, Changed)
    requires f.ask == Change && f.fits && io.replace.Durable? && f.publishes
    ensures Ended(b, b.Applied(comm, desired), false, if io.observeOk then WasApplied else Failed, Changed,
                  comm, expected, desired, io, f)
  {
  }

  lemma TakenBackEnd(b: Sched, comm: Comm, expected: RuleState, desired: RuleState, io: CasIo, f: Facts)
    requires Changing(b, comm, expected, desired, io, f) && io.replace.Durable? && !f.publishes && f.restores
    ensures Ended(b, b.RolledBack(comm, desired), false, Failed, TakenBack, comm, expected, desired, io, f)
  {
    assert MayAnswer(b, comm, expected, desired, Failed, TakenBack);
    assert After(b, comm, desired, TakenBack) == b.RolledBack(comm, desired);
  }

  lemma NotTakenBackEnd(b: Sched, a: Sched, comm: Comm, expected: RuleState, desired: RuleState, io: CasIo, f: Facts)
    requires f.ask == Change && f.fits && io.replace.Durable? && !f.publishes && !f.restores
    requires FatalStep(b, a, comm, expected, desired)
    ensures Ended(b, a, true, Failed, TakenBack, comm, expected, desired, io, f)
  {
  }

  /** The store refused the change: nothing happened, or the file was replaced without certainty. */
  lemma NotStoredEnd(b: Sched, a: Sched, stop: bool, comm: Comm, expected: RuleState, desired: RuleState, io: CasIo, f: Facts)
    requires f.ask == Change && !f.Stores(io) && stop == (f.fits && io.replace.RenamedButUnsynced?)
    requires comm !in b.store.rules.base && StateAt(b.Learned(), comm) == expected
    requires if stop then FatalStep(b, a, comm, expected, desired) else a == b
    ensures Ended(b, a, stop, Failed, Untouched, comm, expected, desired, io, f)
  {
  }

  lemma NoopEnd(b: Sched, comm: Comm, desired: RuleState, status: Status, effect: Effect, io: CasIo, f: Facts)
    requires Idle(b, comm, desired, io, f) && !f.MustStop(io) && status == f.StatusOf(io) && effect == f.EffectOf(io)
    ensures Ended(b, After(b, comm, desired, effect), false, status, effect, comm, desired, desired, io, f)
  {
  }

  lemma NoopFatalEnd(b: Sched, a: Sched, comm: Comm, desired: RuleState, effect: Effect, io: CasIo, f: Facts)
    requires Idle(b, comm, desired, io, f) && b.store.rules.Valid() && f.MustStop(io)
    requires a.store == b.store && a.rulesMap == b.rulesMap
    ensures Ended(b, a, true, Failed, effect, comm, desired, desired, io, f)
  {
  }

  lemma ConflictEnd(b: Sched, comm: Comm, expected: RuleState, desired: RuleState, io: CasIo, f: Facts)
    requires comm !in b.store.rules.base && StateAt(b.Learned(), comm) != expected && f.ask == Conflicting
    ensures Ended(b, b, false, if io.observeOk then WasConflict else Failed, Untouched, comm, expected, desired, io, f)
  {
  }

  lemma RefusedEnd(b: Sched, comm: Comm, expected: RuleState, desired: RuleState, io: CasIo)
    requires !ValidComm(comm) || comm in b.store.rules.base
    ensures Ended(b, b, false, Failed, Untouched, comm, expected, desired, io, FactsOf(b, comm, expected, desired, io))
  {
  }

  /** What is answered as applied, or as in place already, is in the map. */
  lemma SuccessIsVisible(
      b: Sched, a: Sched, stop: bool, status: Status, effect: Effect, comm: Comm, expected: RuleState, desired: RuleState, io: CasIo)
    requires Ended(b, a, stop, status, effect, comm, expected, desired, io, FactsOf(b, comm, expected, desired, io))
    requires status in {WasApplied, WasNoop}
    ensures ClassAt(a.rulesMap, comm) == desired.Class()
  {
  }

  lemma StoppedInBetween(b: Sched, a: Sched, comm: Comm, desired: RuleState)
    requires comm !in b.store.rules.base && a.rulesMap == b.rulesMap && a.store.rules.base == b.store.rules.base
    requires a.Learned() == b.Learned() || a.Learned() == WithState(b.Learned(), comm, desired)
    requires a.store.rules.Valid() && a.store.Synced()
    ensures FatalStep(b, a, comm, StateAt(b.Learned(), comm), desired)
  {
  }

  class Server {
    const store: RuleStore
    var rulesMap: RuleTable
    var rulesSeq: u64
    var fatal: bool

    function State(): Sched
      reads this, store
    {
      Sched(store.State(), rulesMap, rulesSeq)
    }

    constructor (store: RuleStore, effective: RuleTable)
      ensures this.store == store && rulesMap == effective && rulesSeq == 2 && !fatal
    {
      this.store := store;
      rulesMap := effective;
      rulesSeq := 2;
      fatal := false;
    }

    /** Loads every effective rule into the empty BPF map, unless some update fails. */
    static method LoadMap(effective: RuleTable, updateOk: Comm -> bool) returns (r: Result<RuleTable>)
      ensures r.Ok? ==> r.value == effective
      ensures r.Ok? <==> forall c :: c in effective ==> updateOk(c)
    {
      var loaded: RuleTable := map[];
      var left := effective.Keys;
      while left != {}
        invariant left <= effective.Keys
        invariant loaded == map c | c in effective && c !in left :: effective[c]
        invariant forall c :: c in loaded ==> updateOk(c)
        decreases |left|
      {
        var comm :| comm in left;
        if !updateOk(comm) {
          return Err;
        }
        loaded := loaded[comm := effective[comm]];
        left := left - {comm};
      }
      return Ok(loaded);
    }

    /** A scheduler starts in agreement or does not start. */
    static method Start(base: RuleTable, document: Document, updateOk: Comm -> bool) returns (r: Result<Server>)
      requires document.revision < U64
      ensures r.Ok? ==> fresh(r.value) && fresh(r.value.store) && !r.value.fatal && r.value.State().Healthy()
      ensures r.Ok? ==> r.value.State().Learned() == document.learned && r.value.rulesSeq == 2
      ensures r.Ok? <==> Mergeable(base, document.learned) && forall c :: c in Effective(base, document.learned) ==> updateOk(c)
    {
      var loadedStore := RuleStore.Open(base, document);
      if loadedStore.Err? {
        return Err;
      }
      var loaded := LoadMap(Effective(base, document.learned), updateOk);
      if loaded.Err? {
        return Err;
      }
      var server := new Server(loadedStore.value, loaded.value);
      return Ok(server);
    }

    /** The sequence is odd while the map changes and moves on by two even when the change fails. */
    method PublishRule(comm: Comm, state: RuleState, io: MapIo) returns (ok: bool)
      modifies this`rulesMap, this`rulesSeq
      ensures rulesSeq == Bump(old(rulesSeq))
      ensures rulesMap == if ok then WithState(old(rulesMap), comm, state) else old(rulesMap)
      ensures ok <==> Publishes(old(rulesMap), comm, state, io)
    {
      var stable := rulesSeq - rulesSeq % 2;
      rulesSeq := WrappingAdd(stable, 1);
      match state {
        case Present(cls) =>
          ok := io.writeOk;
          if ok {
            rulesMap := rulesMap[comm := cls];
          }
        case Absent =>
          ok := io.lookupOk && (comm in rulesMap ==> io.writeOk);
          if ok && comm in rulesMap {
            rulesMap := rulesMap - {comm};
          }
      }
      rulesSeq := WrappingAdd(stable, 2);
    }

    /** Reading a rule changes nothing; it reports the learned state and the three places. */
    method GetRule(comm: Comm, observeOk: bool) returns (r: Response)
      ensures r.status == Found || r == Response(Failed, None, None, store.rules.revision, rulesSeq)
      ensures r.status == Found <==> ValidComm(comm) && observeOk
      ensures r.status == Found ==>
                && r.current == Some(StateAt(State().Learned(), comm))
                && r.rule == Some(State().Observe(comm))
    {
      if !ValidComm(comm) || !observeOk {
        return Answer(Failed, None, None);
      }
      return Answer(Found, Some(StateAt(store.rules.learned, comm)), Some(State().Observe(comm)));
    }

    function Answer(status: Status, current: Option<RuleState>, rule: Option<Observation>): (r: Response)
      reads this, store
    {
      Response(status, current, rule, store.rules.revision, rulesSeq)
    }

    /** Takes the store back after a failed publication. */
    method RollBack(ghost before: Sched, comm: Comm, desired: RuleState, previous: RuleState, io: ReplaceOutcome)
      returns (undone: Result<CasResult>)
      requires before.store.rules.Valid() && store.rules.Valid() && comm !in store.rules.base
      requires store.State() == before.Stored(comm, desired) && previous == StateAt(before.Learned(), comm) != desired
      modifies store
      ensures store.rules.Valid() && store.State().Synced() && store.rules.base == before.store.rules.base
      ensures store.rules.learned == before.Learned() || store.rules.learned == WithState(before.Learned(), comm, desired)
      ensures undone.Ok? <==> before.store.rules.revision + 2 < U64 && io.Durable?
      ensures undone.Ok? ==>
                && undone.value.effective == previous
                && store.State() == before.RolledBack(comm, desired).store
    {
      UndoChange(before.Learned(), comm, desired);
      undone := store.CompareAndSet(comm, desired, previous, io);
    }

    /** Takes the store back after a failed publication, then republishes. Either everything is
    back, or the scheduler must stop. */
    method Recover(ghost before: Sched, comm: Comm, desired: RuleState, previous: RuleState, io: CasIo)
      requires before.store.rules.Valid() && store.rules.Valid() && !fatal && comm !in store.rules.base
      requires State() == before.(store := before.Stored(comm, desired), rulesSeq := Bump(before.rulesSeq))
      requires previous == StateAt(before.Learned(), comm) != desired
      modifies this`rulesMap, this`rulesSeq, this`fatal, store
      ensures fatal ==> FatalStep(before, State(), comm, previous, desired)
      ensures !fatal ==> State() == before.RolledBack(comm, desired) && before.store.rules.revision + 2 < U64
      ensures fatal <==> !Restores(before, comm, previous, io)
    {
      var undone := RollBack(before, comm, desired, previous, io.rollback);
      if undone.Err? {
        fatal := true;
        StoppedInBetween(before, State(), comm, desired);
        return;
      }
      SetBack(before, comm, desired, undone.value.effective, io.republish);
      if fatal {
        StoppedInBetween(before, State(), comm, desired);
      }
    }

    /** Republishes the previous rule after the store was taken back. */
    method SetBack(ghost before: Sched, comm: Comm, desired: RuleState, previous: RuleState, io: MapIo)
      requires !fatal && previous == StateAt(before.Learned(), comm) && store.State() == before.RolledBack(comm, desired).store
      requires rulesMap == before.rulesMap && rulesSeq == Bump(before.rulesSeq)
      modifies this`rulesMap, this`rulesSeq, this`fatal
      ensures fatal <==> !Publishes(before.rulesMap, comm, previous, io)
      ensures if fatal then rulesMap == before.rulesMap else State() == before.RolledBack(comm, desired)
    {
      var restored := PublishRule(comm, previous, io);
      fatal := !restored;
    }

    /** A no-op still repairs a map entry that differs from the effective rule. */
    method Reconcile(comm: Comm, effective: RuleState, io: MapIo) returns (ok: bool, ghost touched: bool)
      requires !fatal
      modifies this`rulesMap, this`rulesSeq, this`fatal
      ensures ok == !fatal
      ensures touched <==> Differs(old(State()), comm, effective)
      ensures ok <==> !touched || Publishes(old(rulesMap), comm, effective, io)
      ensures ok ==> ClassAt(rulesMap, comm) == effective.Class()
      ensures ok ==> State() == if touched then old(State()).Published(comm, effective) else old(State())
      ensures !ok ==> rulesMap == old(rulesMap)
    {
      ok, touched := true, false;
      if ClassAt(rulesMap, comm) != effective.Class() {
        touched := true;
        ok := PublishRule(comm, effective, io);
        fatal := !ok;
      }
    }

    /** The store has changed: publish, or take the change back. */
    method FinishApplied(ghost before: Sched, comm: Comm, expected: RuleState, desired: RuleState, io: CasIo, ghost f: Facts)
      returns (r: Response, ghost effect: Effect)
      requires store.rules.Valid() && !fatal && State() == before.(store := before.Stored(comm, desired))
      requires io.replace.Durable? && Changing(before, comm, expected, desired, io, f)
      modifies this`rulesMap, this`rulesSeq, this`fatal, store
      ensures Ended(before, State(), fatal, r.status, effect, comm, expected, desired, io, f)
      ensures r.status != Failed ==> r == Observed(r.status, comm, true)
    {
      var published := PublishRule(comm, desired, io.publish);
      if published {
        effect := Changed;
        r := Observed(WasApplied, comm, io.observeOk);
        AppliedEnd(before, comm, expected, desired, io, f);
      } else {
        effect := TakenBack;
        Recover(before, comm, desired, expected, io);
        r := Answer(Failed, None, None);
        if fatal {
          NotTakenBackEnd(before, State(), comm, expected, desired, io, f);
        } else {
          TakenBackEnd(before, comm, expected, desired, io, f);
        }
      }
    }

    /** The store already holds the rule: make sure the map does too. */
    method FinishNoop(ghost before: Sched, comm: Comm, desired: RuleState, io: CasIo, ghost f: Facts)
      returns (r: Response, ghost effect: Effect)
      requires store.rules.Valid() && !fatal && State() == before && Idle(before, comm, desired, io, f)
      modifies this`rulesMap, this`rulesSeq, this`fatal
      ensures Ended(before, State(), fatal, r.status, effect, comm, desired, desired, io, f)
      ensures r.status != Failed ==> r == Observed(r.status, comm, true)
    {
      effect := Untouched;
      if !io.activeOk {
        r := Answer(Failed, None, None);
        NoopEnd(before, comm, desired, Failed, Untouched, io, f);
        return;
      }
      var reconciled, touched := Reconcile(comm, desired, io.publish);
      if reconciled {
        effect := if touched then Republished else Untouched;
        r := Observed(WasNoop, comm, io.observeOk);
        NoopEnd(before, comm, desired, r.status, effect, io, f);
      } else {
        r := Answer(Failed, None, None);
        NoopFatalEnd(before, State(), comm, desired, effect, io, f);
      }
    }

    /** What the store did and returned, seen from the scheduler as it was before. */
    ghost predicate StoreDid(
        before: Sched, comm: Comm, expected: RuleState, desired: RuleState, io: ReplaceOutcome, result: Result<CasResult>)
      reads this, store
    {
      && before.store.rules.Valid() && store.rules.Valid() && comm !in before.store.rules.base
      && rulesMap == before.rulesMap && rulesSeq == before.rulesSeq
      && match result
         case Err =>
           && StateAt(before.Learned(), comm) == expected != desired
           && !(before.store.rules.Next(comm, desired).Valid() && io.Durable?)
           && store.uncertain == (before.store.rules.Next(comm, desired).Valid() && io.RenamedButUnsynced?)
           && store.State() == if store.uncertain then before.Stored(comm, desired).(uncertain := true) else before.store
         case Ok(cas) =>
           match cas.status
           case Conflict => store.State() == before.store && StateAt(before.Learned(), comm) != expected
           case Noop => store.State() == before.store && StateAt(before.Learned(), comm) == expected == desired
           case Applied =>
             && store.State() == before.Stored(comm, desired) && StateAt(before.Learned(), comm) == expected != desired
             && before.store.rules.Next(comm, desired).Valid() && io.Durable?
    }

    method AskStore(comm: Comm, expected: RuleState, desired: RuleState, io: ReplaceOutcome) returns (result: Result<CasResult>)
      requires store.rules.Valid() && !store.uncertain && comm !in store.rules.base
      modifies store
      ensures StoreDid(old(State()), comm, expected, desired, io, result)
    {
      result := store.CompareAndSet(comm, expected, desired, io);
    }

    /** The store returned an error: nothing has changed, or the file was replaced without certainty. */
    method FinishRefused(ghost before: Sched, comm: Comm, expected: RuleState, desired: RuleState, io: CasIo, ghost f: Facts)
      returns (r: Response)
      requires !fatal && ValidComm(comm) && f == FactsOf(before, comm, expected, desired, io)
      requires StoreDid(before, comm, expected, desired, io.replace, Err)
      modifies this`fatal
      ensures Ended(before, State(), fatal, r.status, Untouched, comm, expected, desired, io, f) && r.status == Failed
    {
      fatal := store.uncertain;
      r := Answer(Failed, None, None);
      assert f.ask == Change;
      NotStoredEnd(before, State(), fatal, comm, expected, desired, io, f);
    }

    /** Publishes what the store did, and answers. */
    method Conclude(
        ghost before: Sched, comm: Comm, expected: RuleState, desired: RuleState, result: Result<CasResult>, io: CasIo, ghost f: Facts)
      returns (r: Response, ghost effect: Effect)
      requires !fatal && StoreDid(before, comm, expected, desired, io.replace, result)
      requires ValidComm(comm) && f == FactsOf(before, comm, expected, desired, io)
      modifies this`rulesMap, this`rulesSeq, this`fatal, store
      ensures Ended(before, State(), fatal, r.status, effect, comm, expected, desired, io, f)
      ensures r.status != Failed ==> r == Observed(r.status, comm, true)
    {
      effect := Untouched;
      if result.Err? {
        r := FinishRefused(before, comm, expected, desired, io, f);
        return;
      }
      match result.value.status {
        case Conflict =>
          r := Observed(WasConflict, comm, io.observeOk);
          assert f.ask == Conflicting;
          ConflictEnd(before, comm, expected, desired, io, f);
        case Noop =>
          NoopFacts(before, comm, desired, io);
          r, effect := FinishNoop(before, comm, desired, io, f);
        case Applied =>
          ChangeFacts(before, comm, expected, desired, io);
          r, effect := FinishApplied(before, comm, expected, desired, io, f);
      }
    }

    /** Handles one compare-and-set request. What it answers, whether the scheduler must stop, and what it leaves
    behind are determined by the rule as it was and by which calls failed. */
    method CompareAndSet(comm: Comm, expected: RuleState, desired: RuleState, io: CasIo)
      returns (r: Response, ghost effect: Effect)
      requires store.rules.Valid() && !fatal && !store.uncertain
      modifies this`rulesMap, this`rulesSeq, this`fatal, store
      ensures Ended(old(State()), State(), fatal, r.status, effect, comm, expected, desired, io,
                    FactsOf(old(State()), comm, expected, desired, io))
      ensures r.status != Failed ==> r == Observed(r.status, comm, true)
      ensures r.status in {WasApplied, WasNoop} ==> ClassAt(rulesMap, comm) == desired.Class()
    {
      ghost var before := State();
      ghost var f := FactsOf(before, comm, expected, desired, io);
      if !ValidComm(comm) || comm in store.rules.base {
        RefusedEnd(before, comm, expected, desired, io);
        return Answer(Failed, None, None), Untouched;
      }
      var result := AskStore(comm, expected, desired, io.replace);
      r, effect := Conclude(before, comm, expected, desired, result, io, f);
      if r.status in {WasApplied, WasNoop} {
        SuccessIsVisible(before, State(), fatal, r.status, effect, comm, expected, desired, io);
      }
    }

    function Observed(status: Status, comm: Comm, observeOk: bool): (r: Response)
      reads this, store
    {
      if observeOk then Answer(status, Some(StateAt(store.rules.learned, comm)), Some(State().Observe(comm)))
      else Answer(Failed, None, None)
    }
  }
}

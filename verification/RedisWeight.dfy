/** The Redis scenario's mutation provider: it moves one cgroup's `cpu.weight` between a baseline and a
desired value, and records every operation in a file before and after. The weight has no compare-and-set:
the provider reads it, then writes it, and another program may write in between. */
module RedisWeight {
  import opened Rules

  const MIN_CPU_WEIGHT := 1
  const MAX_CPU_WEIGHT := 10_000

  datatype Kind = Apply | Restore | Finalize
  datatype Verdict = Applied | Restored | Finalized | NotApplied | Unknown

  function VerdictOf(kind: Kind): Verdict {
    match kind case Apply => Verdict.Applied case Restore => Restored case Finalize => Finalized
  }

  /** A prepared change; `data` is the rest of what the caller must echo. */
  datatype Prepared = Prepared(baseline: nat, desired: nat, data: string)

  predicate Proper(p: Prepared) {
    && MIN_CPU_WEIGHT <= p.baseline <= MAX_CPU_WEIGHT
    && MIN_CPU_WEIGHT <= p.desired <= MAX_CPU_WEIGHT
    && p.baseline != p.desired
  }

  /** Completed exactly when there is a result. */
  datatype Record = Record(kind: Kind, prepared: Prepared, result: Option<Verdict>)

  type Operations = map<string, Record>

  predicate Reused(ops: Operations, id: string, kind: Kind, prepared: Prepared) {
    id in ops && (ops[id].kind != kind || ops[id].prepared != prepared)
  }

  function AfterBegin(ops: Operations, id: string, kind: Kind, prepared: Prepared): Operations {
    if id in ops then ops else ops[id := Record(kind, prepared, None)]
  }

  function AfterComplete(ops: Operations, id: string, verdict: Verdict): Operations {
    if id in ops && ops[id].result.None? then ops[id := ops[id].(result := Some(verdict))] else ops
  }

  /** The file of operations; saving replaces it whole, or fails and leaves it. */
  class OperationStore {
    var ops: Operations

    constructor ()
      ensures ops == map[]
    {
      ops := map[];
    }

    method Begin(id: string, kind: Kind, prepared: Prepared, saves: bool) returns (r: Result<Record>)
      modifies this
      ensures r.Ok? <==> !Reused(old(ops), id, kind, prepared) && (id in old(ops) || saves)
      ensures ops == if r.Ok? then AfterBegin(old(ops), id, kind, prepared) else old(ops)
      ensures r.Ok? ==> id in ops && r.value == ops[id] && r.value.kind == kind && r.value.prepared == prepared
    {
      if id in ops {
        var existing := ops[id];
        if existing.kind != kind || existing.prepared != prepared {
          return Err;
        }
        return Ok(existing);
      }
      if !saves {
        return Err;
      }
      var expected := Record(kind, prepared, None);
      ops := ops[id := expected];
      return Ok(expected);
    }

    method Complete(id: string, verdict: Verdict, saves: bool) returns (r: Result<()>)
      modifies this
      ensures r.Ok? <==> id in old(ops) && (if old(ops)[id].result.Some? then old(ops)[id].result == Some(verdict) else saves)
      ensures ops == if r.Ok? then AfterComplete(old(ops), id, verdict) else old(ops)
      ensures r.Ok? ==> id in ops && ops[id].result == Some(verdict)
    {
      if id !in ops {
        return Err;
      }
      var record := ops[id];
      if record.result.Some? {
        if record.result.value != verdict {
          return Err;
        }
        return Ok(());
      }
      if !saves {
        return Err;
      }
      ops := ops[id := record.(result := Some(verdict))];
      return Ok(());
    }
  }

  // ---- The provider as a machine -------------------------------------------------------------

  /** How far the one call in progress has come. */
  datatype Stage = Begun | MustWrite(observed: nat) | Written | InPlace
  datatype Call = Call(id: string, kind: Kind, prepared: Prepared, stage: Stage) {
    /** The weight the call is after. */
    function Target(): nat {
      TargetOf(kind, prepared)
    }

    /** The weight it may find instead. */
    function Other(): nat {
      if kind == Restore then prepared.desired else prepared.baseline
    }
  }

  /** What a caller was told. */
  datatype Receipt = Receipt(id: string, verdict: Verdict)

  /** `failing` is the scenario's injected failure of every restore; `told` is history. */
  datatype State = State(weight: nat, ops: Operations, call: Option<Call>, failing: bool, told: seq<Receipt>)

  /** One call is served at a time; it may die before any of its steps, and any other program may write the
  weight between any two of them. */
  datatype Event =
    | Request(id: string, kind: Kind, prepared: Prepared)
    | Look
    | Write
    | ReadBack
    | Complete
    | Status(id: string)
    | Crash
    | Outside(weight: nat)

  function Told(s: State, id: string, verdict: Verdict): State {
    s.(call := None, told := s.told + [Receipt(id, verdict)])
  }

  function TargetOf(kind: Kind, p: Prepared): nat {
    if kind == Restore then p.baseline else p.desired
  }

  /** A request that is refused leaves no call in progress. A completed operation is confirmed if the weight is
  still where the operation left it, and is an error otherwise. */
  function DoRequest(s: State, id: string, kind: Kind, prepared: Prepared): State {
    if s.call.Some? || !Proper(prepared) || Reused(s.ops, id, kind, prepared) then s
    else if id in s.ops && s.ops[id].result.Some? then
      if s.weight == TargetOf(kind, prepared) then Told(s, id, s.ops[id].result.value) else s
    else s.(ops := AfterBegin(s.ops, id, kind, prepared), call := Some(Call(id, kind, prepared, Begun)))
  }

  /** What a status call infers from the record and the weight it reads. */
  function InferState(record: Record, observed: nat): Verdict {
    var p := record.prepared;
    if observed != p.baseline && observed != p.desired then Unknown
    else match record.kind
      case Apply => if observed == p.desired then Verdict.Applied else NotApplied
      case Restore => if observed == p.baseline then Restored else Verdict.Applied
      case Finalize =>
        if observed == p.desired && record.result.Some? then Finalized
        else if observed == p.desired then Verdict.Applied else NotApplied
  }

  function DoStatus(s: State, id: string): State {
    if s.call.Some? then s
    else Told(s, id, if id in s.ops then InferState(s.ops[id], s.weight) else Unknown)
  }

  /** The reading, and the errors it can raise. */
  function DoLook(s: State, c: Call): State {
    var stop := s.(call := None);
    match c.kind
    case Finalize => if s.weight != c.prepared.desired then stop else s.(call := Some(c.(stage := InPlace)))
    case _ =>
      if s.weight != c.prepared.baseline && s.weight != c.prepared.desired then stop
      else if c.kind == Restore && s.failing then stop
      else s.(call := Some(c.(stage := if s.weight == c.Target() then InPlace else MustWrite(s.weight))))
  }

  function Next(s: State, e: Event): State {
    match (e, s.call)
    case (Request(id, kind, prepared), _) => DoRequest(s, id, kind, prepared)
    case (Look, Some(c)) => if c.stage == Begun then DoLook(s, c) else s
    case (Write, Some(c)) =>
      if c.stage.MustWrite? then s.(weight := c.Target(), call := Some(c.(stage := Written))) else s
    case (ReadBack, Some(c)) =>
      if c.stage != Written then s
      else s.(call := if s.weight == c.Target() then Some(c.(stage := InPlace)) else None)
    case (Complete, Some(c)) =>
      if c.stage == InPlace then Told(s.(ops := AfterComplete(s.ops, c.id, VerdictOf(c.kind))), c.id, VerdictOf(c.kind)) else s
    case (Status(id), _) => DoStatus(s, id)
    case (Crash, _) => s.(call := None)
    case (Outside(weight), _) => s.(weight := weight)
    case _ => s
  }

  function After(s: State, events: seq<Event>): State {
    if events == [] then s else Next(After(s, events[..|events| - 1]), events[|events| - 1])
  }

  ghost predicate Backed(ops: Operations, c: Call) {
    c.id in ops && ops[c.id] == Record(c.kind, c.prepared, None)
  }

  ghost predicate Inv(s: State) {
    && (forall id :: id in s.ops ==> Proper(s.ops[id].prepared) && s.ops[id].result in {None, Some(VerdictOf(s.ops[id].kind))})
    && (s.call.Some? ==>
        var c := s.call.value;
        && Backed(s.ops, c)
        && (c.stage.MustWrite? ==> c.kind != Finalize && c.stage.observed == c.Other() && !(c.kind == Restore && s.failing))
        && (c.stage.Written? || c.stage.InPlace? ==> !(c.kind == Restore && s.failing)))
  }

  lemma StepKeepsInv(s: State, e: Event)
    requires Inv(s)
    ensures Inv(Next(s, e))
  {
  }

  lemma {:induction false} RunsKeepInv(s: State, events: seq<Event>)
    requires Inv(s)
    ensures Inv(After(s, events))
  {
    if events != [] {
      RunsKeepInv(s, events[..|events| - 1]);
      StepKeepsInv(After(s, events[..|events| - 1]), events[|events| - 1]);
    }
  }

  // ---- What every run keeps ------------------------------------------------------------------

  /** Records are never lost or rewritten, and a result is given once. */
  ghost predicate Extends(before: Operations, after: Operations) {
    forall id :: id in before ==>
      && id in after && after[id].kind == before[id].kind && after[id].prepared == before[id].prepared
      && (before[id].result.Some? ==> after[id].result == before[id].result)
  }

  lemma GrowStep(s: State, e: Event)
    requires Inv(s)
    ensures Extends(s.ops, Next(s, e).ops)
  {
  }

  lemma {:induction false} OperationsOnlyGrow(s: State, events: seq<Event>)
    requires Inv(s)
    ensures Extends(s.ops, After(s, events).ops)
  {
    if events != [] {
      OperationsOnlyGrow(s, events[..|events| - 1]);
      RunsKeepInv(s, events[..|events| - 1]);
      GrowStep(After(s, events[..|events| - 1]), events[|events| - 1]);
    }
  }

  /** The provider itself changes the weight only by writing, for an operation that is on record with the
  same kind and change and is not completed, from a reading of that change's other value to its target.
  A completed operation never writes, a failing restore never writes, and finalizing never writes. */
  lemma EveryWriteIsBacked(s: State, events: seq<Event>, e: Event)
    requires Inv(s)
    ensures
      var b := After(s, events);
      var a := Next(b, e);
      a.weight != b.weight ==>
        || e == Outside(a.weight)
        || (&& e == Write && b.call.Some? && Backed(b.ops, b.call.value) && b.call.value.stage == MustWrite(b.call.value.Other())
            && a.weight == b.call.value.Target() && b.call.value.kind != Finalize && !(b.call.value.kind == Restore && b.failing))
  {
    RunsKeepInv(s, events);
  }

  /** The last weight another program wrote, if any did. */
  function LastOutside(events: seq<Event>, otherwise: nat): nat {
    if events == [] then otherwise
    else
      var n := |events| - 1;
      if events[n].Outside? then events[n].weight else LastOutside(events[..n], otherwise)
  }

  /** What a write replaces: the value that was read, unless another program wrote after the reading. */
  lemma {:induction false} WhatAWriteReplaces(s: State, c: Call, between: seq<Event>)
    requires s.call == Some(c) && c.stage.MustWrite? && c.stage.observed == s.weight
    requires forall i :: 0 <= i < |between| ==> !between[i].Write? && !between[i].Crash?
    ensures After(s, between).call == Some(c)
    ensures After(s, between).weight == LastOutside(between, c.stage.observed)
    ensures After(s, between + [Write]).weight == c.Target()
  {
    assert (between + [Write])[..|between|] == between;
    if between != [] {
      var n := |between| - 1;
      WhatAWriteReplaces(s, c, between[..n]);
    }
  }

  /** An apply or restore is recorded as done only by a call that has found its target in place, at once or when
  it read its own write back. */
  lemma CompletedWasInPlace(s: State, events: seq<Event>, e: Event, id: string)
    requires Inv(s)
    requires var b, a := After(s, events), Next(After(s, events), e);
             id in a.ops && a.ops[id].result.Some? && (id in b.ops ==> b.ops[id].result.None?)
    ensures var b := After(s, events);
            e == Complete && b.call.Some? && b.call.value.id == id && b.call.value.stage == InPlace && Backed(b.ops, b.call.value)
  {
    RunsKeepInv(s, events);
  }

  lemma InPlaceWasSeen(s: State, e: Event)
    requires Inv(s) && Next(s, e).call.Some? && Next(s, e).call.value.stage == InPlace && Next(s, e).call != s.call
    ensures s.weight == Next(s, e).call.value.Target() && (e == Look || e == ReadBack)
  {
  }

  /** A write can still destroy a value nobody prepared: any weight another program puts in place between the
  reading and the write is lost, without an error. */
  lemma OutsideWriteCanBeLost(p: Prepared, id: string, foreign: nat)
    requires Proper(p)
    ensures
      var s := State(p.baseline, map[], None, false, []);
      var events := [Request(id, Apply, p), Look, Outside(foreign)];
      && After(s, events).weight == foreign
      && After(s, events + [Write, ReadBack, Complete]) == State(p.desired, map[id := Record(Apply, p, Some(Verdict.Applied))], None, false, [Receipt(id, Verdict.Applied)])
  {
    var s := State(p.baseline, map[], None, false, []);
    var looked := Next(Next(s, Request(id, Apply, p)), Look);
    assert looked.call == Some(Call(id, Apply, p, MustWrite(p.baseline)));
    var e1 := [Request(id, Apply, p)];
    var e2 := [Request(id, Apply, p), Look];
    var e3 := [Request(id, Apply, p), Look, Outside(foreign)];
    var e4 := [Request(id, Apply, p), Look, Outside(foreign), Write];
    var e5 := [Request(id, Apply, p), Look, Outside(foreign), Write, ReadBack];
    var e6 := [Request(id, Apply, p), Look, Outside(foreign), Write, ReadBack, Complete];
    assert e1[..0] == [] && e2[..1] == e1 && e3[..2] == e2 && e4[..3] == e3 && e5[..4] == e4 && e6[..5] == e5;
    assert After(s, e1) == Next(s, Request(id, Apply, p));
    assert After(s, e2) == looked;
    assert After(s, e3) == looked.(weight := foreign);
    assert After(s, e4) == looked.(weight := p.desired, call := Some(Call(id, Apply, p, Written)));
    assert After(s, e5).call == Some(Call(id, Apply, p, InPlace));
    assert e3 + [Write, ReadBack, Complete] == e6;
  }

  // ---- What callers are told -----------------------------------------------------------------

  /** What a verdict claims about a recorded operation and the weight. */
  predicate Truth(verdict: Verdict, record: Record, weight: nat) {
    match verdict
    case Applied => weight == record.prepared.desired
    case Finalized => record.kind == Finalize && record.result.Some? && weight == record.prepared.desired
    case Restored => record.kind == Restore && weight == record.prepared.baseline
    case NotApplied => record.kind != Restore && weight == record.prepared.baseline
    case Unknown => weight != record.prepared.desired && weight != record.prepared.baseline
  }

  /** Exactly one thing is true of a recorded operation that has been tried, and a status call says it. */
  lemma StatusIsTruthful(record: Record, observed: nat)
    requires Proper(record.prepared)
    ensures Truth(InferState(record, observed), record, observed)
    ensures observed == TargetOf(record.kind, record.prepared) && record.result == Some(VerdictOf(record.kind)) ==>
              InferState(record, observed) == VerdictOf(record.kind)
    ensures record.kind != Finalize && observed == TargetOf(record.kind, record.prepared) ==>
              InferState(record, observed) == VerdictOf(record.kind)
  {
  }

  /** What was told is true of the weight at that moment, or is the completion of a call that had found its target in
  place. Only the status of an operation without a record is told as unknown without looking. */
  ghost predicate Honest(b: State, e: Event, r: Receipt) {
    || (e == Status(r.id) && b.call.None?
        && (if r.id in b.ops then Truth(r.verdict, b.ops[r.id], b.weight) else r.verdict == Unknown))
    || (&& e.Request? && e.id == r.id && r.id in b.ops && b.ops[r.id].result == Some(r.verdict)
        && b.ops[r.id].kind == e.kind && b.ops[r.id].prepared == e.prepared
        && b.weight == TargetOf(e.kind, e.prepared))
    || (&& e == Complete && b.call.Some? && b.call.value.id == r.id && b.call.value.stage == InPlace
        && r.verdict == VerdictOf(b.call.value.kind) && Backed(b.ops, b.call.value))
  }

  lemma StepIsHonest(s: State, e: Event)
    requires Inv(s)
    ensures Next(s, e).told == s.told || exists r :: Next(s, e).told == s.told + [r] && Honest(s, e, r)
  {
    var a := Next(s, e);
    if a.told != s.told {
      var r := a.told[|a.told| - 1];
      assert a.told == s.told + [r];
      if e.Status? && e.id in s.ops {
        StatusIsTruthful(s.ops[e.id], s.weight);
      }
      assert Honest(s, e, r);
    }
  }

  /** In every run, every step tells one thing at most, and what it tells is honest. */
  lemma EveryReceiptIsHonest(s: State, events: seq<Event>, e: Event)
    requires Inv(s)
    ensures var b := After(s, events);
            Next(b, e).told == b.told || exists r :: Next(b, e).told == b.told + [r] && Honest(b, e, r)
  {
    RunsKeepInv(s, events);
    StepIsHonest(After(s, events), e);
  }

  // ---- Trying a change, and undoing it -------------------------------------------------------

  /** The events of a trial of `p`, undisturbed: apply attempts, then restore attempts, with crashes
  anywhere and any number of repetitions. */
  predicate TrialEvent(s: State, e: Event, p: Prepared, applyId: string, restoreId: string) {
    match e
    case Request(id, kind, prepared) =>
      prepared == p && ((id == applyId && kind == Apply && restoreId !in s.ops) || (id == restoreId && kind == Restore))
    case Outside(_) => false
    case _ => true
  }

  ghost predicate IsTrial(s: State, events: seq<Event>, p: Prepared, applyId: string, restoreId: string) {
    forall k :: 0 <= k < |events| ==> TrialEvent(After(s, events[..k]), events[k], p, applyId, restoreId)
  }

  ghost predicate Done(s: State, id: string) {
    id in s.ops && s.ops[id].result.Some?
  }

  ghost predicate OfTrial(s: State, p: Prepared, applyId: string, restoreId: string) {
    && Inv(s)
    && s.weight in {p.baseline, p.desired}
    && (applyId in s.ops ==> s.ops[applyId].kind == Apply && s.ops[applyId].prepared == p)
    && (restoreId in s.ops ==> s.ops[restoreId].kind == Restore && s.ops[restoreId].prepared == p)
    && (s.call.Some? ==>
        var c := s.call.value;
        && c.prepared == p
        && ((c.id == applyId && restoreId !in s.ops) || c.id == restoreId)
        && (c.stage.MustWrite? ==> s.weight == c.Other())
        && (c.stage.Written? || c.stage.InPlace? ==> s.weight == c.Target()))
    && (Done(s, applyId) && restoreId !in s.ops ==> s.weight == p.desired)
    && (Done(s, restoreId) ==> s.weight == p.baseline && !s.failing)
  }

  lemma TrialStep(s: State, e: Event, p: Prepared, applyId: string, restoreId: string)
    requires Proper(p) && applyId != restoreId && OfTrial(s, p, applyId, restoreId)
    requires TrialEvent(s, e, p, applyId, restoreId)
    ensures OfTrial(Next(s, e), p, applyId, restoreId)
  {
    StepKeepsInv(s, e);
  }

  /** In every state of an undisturbed trial the weight is one of the two prepared values; it is the desired
  one once the apply is recorded as done and until a restore begins, and the baseline from the moment the
  restore is recorded as done, for good. A failing restore is never recorded as done. */
  lemma {:induction false} TrialIsTruthful(s: State, events: seq<Event>, p: Prepared, applyId: string, restoreId: string)
    requires Proper(p) && applyId != restoreId && OfTrial(s, p, applyId, restoreId)
    requires IsTrial(s, events, p, applyId, restoreId)
    ensures OfTrial(After(s, events), p, applyId, restoreId)
  {
    if events != [] {
      var before := events[..|events| - 1];
      forall k | 0 <= k < |before| ensures TrialEvent(After(s, before[..k]), before[k], p, applyId, restoreId) {
        assert before[..k] == events[..k];
      }
      TrialIsTruthful(s, before, p, applyId, restoreId);
      TrialStep(After(s, before), events[|events| - 1], p, applyId, restoreId);
    }
  }

  function Attempt(id: string, kind: Kind, p: Prepared): seq<Event> {
    [Crash, Request(id, kind, p), Look, Write, ReadBack, Complete]
  }

  /** The four steps of a call once it has begun. */
  function Worked(s: State): State {
    Next(Next(Next(Next(s, Look), Write), ReadBack), Complete)
  }

  lemma AfterAttempt(s: State, id: string, kind: Kind, p: Prepared)
    ensures After(s, Attempt(id, kind, p)) == Worked(Next(Next(s, Crash), Request(id, kind, p)))
  {
    var events := Attempt(id, kind, p);
    assert events[..5][..4] == events[..4] && events[..4][..3] == events[..3] && events[..3][..2] == events[..2] && events[..2][..1] == events[..1] && events[..1][..0] == [];
    assert After(s, events[..1]) == Next(s, Crash);
    assert After(s, events[..2]) == Next(After(s, events[..1]), Request(id, kind, p));
    assert After(s, events[..3]) == Next(After(s, events[..2]), Look);
    assert After(s, events[..4]) == Next(After(s, events[..3]), Write);
    assert After(s, events[..5]) == Next(After(s, events[..4]), ReadBack);
  }

  /** Whether the weight is such that the operation can go through. */
  predicate CanGo(s: State, kind: Kind, p: Prepared) {
    match kind
    case Finalize => s.weight == p.desired
    case Restore => (s.weight == p.baseline || s.weight == p.desired) && !s.failing
    case Apply => s.weight == p.baseline || s.weight == p.desired
  }

  lemma CallSteps(s: State, c: Call)
    requires s.call == Some(c) && c.stage == Begun && Backed(s.ops, c) && Proper(c.prepared)
    ensures
      var end := Worked(s);
      if !CanGo(s, c.kind, c.prepared) then end == s.(call := None)
      else end == Told(s.(weight := c.Target(), ops := AfterComplete(s.ops, c.id, VerdictOf(c.kind))), c.id, VerdictOf(c.kind))
  {
    var looked := Next(s, Look);
    if CanGo(s, c.kind, c.prepared) {
      if s.weight == c.Target() {
        assert looked == s.(call := Some(c.(stage := InPlace)));
      } else {
        assert looked == s.(call := Some(c.(stage := MustWrite(s.weight))));
        assert Next(looked, Write) == s.(weight := c.Target(), call := Some(c.(stage := Written)));
      }
    } else {
      assert looked == s.(call := None);
    }
  }

  /** What one attempt that is not cut short or disturbed comes to. */
  ghost predicate AttemptEnded(b: State, id: string, kind: Kind, p: Prepared, end: State) {
    if Done(b, id) then
      && end.ops == b.ops && end.weight == b.weight
      && end.told == b.told + if b.weight == TargetOf(kind, p) then [Receipt(id, VerdictOf(kind))] else []
    else if CanGo(b, kind, p) then
      && end.weight == TargetOf(kind, p) && id in end.ops && end.ops[id] == Record(kind, p, Some(VerdictOf(kind)))
      && end.told == b.told + [Receipt(id, VerdictOf(kind))]
    else end.weight == b.weight && id in end.ops && end.ops[id] == Record(kind, p, None) && end.told == b.told
  }

  /** One attempt either completes and confirms its operation with the weight at the target, or leaves the weight
  alone and confirms nothing: the first exactly when the weight is one the operation knows and restores are not set to fail. A completed
  operation is confirmed exactly while its weight is still in place. */
  lemma AttemptEnds(b: State, id: string, kind: Kind, p: Prepared)
    requires Inv(b) && Proper(p) && !Reused(b.ops, id, kind, p)
    ensures AttemptEnded(b, id, kind, p, After(b, Attempt(id, kind, p)))
  {
    AfterAttempt(b, id, kind, p);
    if Done(b, id) {
      ReplayEnds(b, id, kind, p);
    } else {
      RequestBegins(b, id, kind, p);
      FreshEnds(b, id, kind, p);
    }
  }

  lemma RequestBegins(b: State, id: string, kind: Kind, p: Prepared)
    requires Proper(p) && !Reused(b.ops, id, kind, p) && !Done(b, id)
    ensures Next(Next(b, Crash), Request(id, kind, p)) ==
            b.(ops := AfterBegin(b.ops, id, kind, p), call := Some(Call(id, kind, p, Begun)))
  {
  }

  lemma FreshEnds(b: State, id: string, kind: Kind, p: Prepared)
    requires Inv(b) && Proper(p) && !Reused(b.ops, id, kind, p) && !Done(b, id)
    ensures AttemptEnded(b, id, kind, p, Worked(b.(ops := AfterBegin(b.ops, id, kind, p), call := Some(Call(id, kind, p, Begun)))))
  {
    var c := Call(id, kind, p, Begun);
    var begun := b.(ops := AfterBegin(b.ops, id, kind, p), call := Some(c));
    assert Backed(begun.ops, c);
    CallSteps(begun, c);
    assert CanGo(begun, kind, p) == CanGo(b, kind, p);
  }

  lemma ReplayEnds(b: State, id: string, kind: Kind, p: Prepared)
    requires Inv(b) && Proper(p) && !Reused(b.ops, id, kind, p) && Done(b, id)
    ensures AttemptEnded(b, id, kind, p, Worked(Next(Next(b, Crash), Request(id, kind, p))))
  {
    var idle := Next(Next(b, Crash), Request(id, kind, p));
    assert idle.call.None?;
    assert Next(idle, Look) == idle && Next(idle, Write) == idle && Next(idle, ReadBack) == idle && Next(idle, Complete) == idle;
  }

  /** However a trial went so far, one restore attempt that is not cut short ends at the baseline with the
  restore on record as done, exactly when restores are not set to fail. */
  lemma RestoreEndsAtBaseline(s: State, events: seq<Event>, p: Prepared, applyId: string, restoreId: string)
    requires Proper(p) && applyId != restoreId && OfTrial(s, p, applyId, restoreId)
    requires IsTrial(s, events, p, applyId, restoreId)
    ensures var b := After(s, events);
            var end := After(b, Attempt(restoreId, Restore, p));
            && (Done(end, restoreId) <==> !b.failing)
            && (!b.failing ==> end.weight == p.baseline && end.ops[restoreId].result == Some(Restored)
                               && end.told == b.told + [Receipt(restoreId, Restored)])
            && (b.failing ==> end.weight == b.weight && end.told == b.told)
  {
    TrialIsTruthful(s, events, p, applyId, restoreId);
    AttemptEnds(After(s, events), restoreId, Restore, p);
  }

  /** And before any restore has begun, one apply attempt ends at the desired weight, recorded and confirmed. */
  lemma ApplyEndsAtDesired(s: State, events: seq<Event>, p: Prepared, applyId: string, restoreId: string)
    requires Proper(p) && applyId != restoreId && OfTrial(s, p, applyId, restoreId)
    requires IsTrial(s, events, p, applyId, restoreId) && restoreId !in After(s, events).ops
    ensures var b := After(s, events);
            var end := After(b, Attempt(applyId, Apply, p));
            && end.weight == p.desired && Done(end, applyId) && end.ops[applyId].result == Some(Verdict.Applied)
            && end.told == b.told + [Receipt(applyId, Verdict.Applied)]
  {
    TrialIsTruthful(s, events, p, applyId, restoreId);
    AttemptEnds(After(s, events), applyId, Apply, p);
  }
}

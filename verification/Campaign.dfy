/** A group episode: apply a candidate to a set of rules, restore the baseline, apply again.
The benchmark treatment demands 3n revisions and 6n sequence steps for n rules. */
module Campaign {
  import opened Rules
  import opened Runs
  import opened Scheduler

  /** Rule `comms[i]` is moved from `from` to `to` by an applied request. */
  ghost predicate MovedAt(states: seq<Sched>, comms: seq<Comm>, from: map<Comm, RuleState>, to: map<Comm, RuleState>, i: nat)
    requires |states| == |comms| + 1 && i < |comms|
  {
    var comm := comms[i];
    comm in from && comm in to && CasStep(states[i], states[i + 1], comm, from[comm], to[comm], WasApplied, Changed)
  }

  /** One pass over `comms`. */
  ghost predicate Phase(states: seq<Sched>, comms: seq<Comm>, from: map<Comm, RuleState>, to: map<Comm, RuleState>) {
    && |states| == |comms| + 1
    && forall i :: 0 <= i < |comms| ==> MovedAt(states, comms, from, to, i)
  }

  lemma SameTable(a: RuleTable, b: RuleTable)
    requires forall c :: StateAt(a, c) == StateAt(b, c)
    ensures a == b
  {
    assert forall c :: c in a <==> StateAt(a, c) != Absent;
    assert forall c :: c in b <==> StateAt(b, c) != Absent;
    forall c | c in a ensures c in b && a[c] == b[c] {
      assert StateAt(a, c) == StateAt(b, c);
    }
  }

  lemma AppliedCost(b: Sched, a: Sched, comm: Comm, from: RuleState, to: RuleState)
    requires b.Healthy() && CasStep(b, a, comm, from, to, WasApplied, Changed)
    ensures a.Healthy()
    ensures a.store.rules.revision == b.store.rules.revision + 1 && a.rulesSeq == WrappingAdd(b.rulesSeq, 2)
  {
    AppliedKeepsHealth(b, comm, to);
  }

  lemma AppliedState(b: Sched, a: Sched, comm: Comm, from: RuleState, to: RuleState, c: Comm)
    requires CasStep(b, a, comm, from, to, WasApplied, Changed)
    ensures StateAt(b.Learned(), comm) == from
    ensures StateAt(a.Learned(), c) == if c == comm then to else StateAt(b.Learned(), c)
  {
  }

  /** What a number of applied requests does to health and counters. */
  ghost predicate Advanced(b: Sched, a: Sched, n: nat) {
    && a.Healthy()
    && a.store.rules.revision == b.store.rules.revision + n
    && (b.rulesSeq + 2 * n < U64 ==> a.rulesSeq == b.rulesSeq + 2 * n)
  }

  /** Some rule is changed by an applied request. */
  ghost predicate AppliedNext(b: Sched, a: Sched) {
    exists comm, from, to :: CasStep(b, a, comm, from, to, WasApplied, Changed)
  }

  lemma AdvanceOnce(start: Sched, b: Sched, a: Sched, n: nat)
    requires Advanced(start, b, n) && AppliedNext(b, a)
    ensures Advanced(start, a, n + 1)
  {
    var comm, from, to :| CasStep(b, a, comm, from, to, WasApplied, Changed);
    AppliedCost(b, a, comm, from, to);
  }

  lemma PhaseIsRun(states: seq<Sched>, comms: seq<Comm>, from: map<Comm, RuleState>, to: map<Comm, RuleState>)
    requires Phase(states, comms, from, to)
    ensures IsRun(AppliedNext, states)
  {
    forall i, j | 0 <= i && j == i + 1 && j < |states| ensures AppliedNext(states[i], states[j]) {
      assert MovedAt(states, comms, from, to, i);
    }
  }

  /** A pass costs one revision and two sequence steps a rule. */
  lemma PhaseCost(
      states: seq<Sched>, comms: seq<Comm>, from: map<Comm, RuleState>, to: map<Comm, RuleState>, k: nat)
    requires Phase(states, comms, from, to) && states[0].Healthy() && k <= |comms|
    ensures Advanced(states[0], states[k], k)
  {
    PhaseIsRun(states, comms, from, to);
    forall s, b, a, n: nat | Advanced(s, b, n) && AppliedNext(b, a) ensures Advanced(s, a, n + 1) {
      AdvanceOnce(s, b, a, n);
    }
    Counts(AppliedNext, Advanced, states, k);
  }

  /** Where the rule `c` has got to, after the rules of `done` were moved. */
  ghost predicate Moved(start: RuleState, now: RuleState, done: seq<Comm>, from: map<Comm, RuleState>, to: map<Comm, RuleState>, c: Comm) {
    if c in done then c in from && c in to && start == from[c] && now == to[c] else now == start
  }

  lemma MoveOne(b: Sched, a: Sched, start: RuleState, done: seq<Comm>, from: map<Comm, RuleState>, to: map<Comm, RuleState>, c: Comm, comm: Comm)
    requires comm in from && comm in to && CasStep(b, a, comm, from[comm], to[comm], WasApplied, Changed)
    requires Moved(start, StateAt(b.Learned(), c), done, from, to, c)
    ensures Moved(start, StateAt(a.Learned(), c), done + [comm], from, to, c)
  {
    AppliedState(b, a, comm, from[comm], to[comm], c);
  }

  /** A pass finds `from` and leaves `to` on every named rule, and leaves every other rule alone. */
  lemma {:induction false} PhaseEffect(
      states: seq<Sched>, comms: seq<Comm>, from: map<Comm, RuleState>, to: map<Comm, RuleState>, c: Comm, k: nat)
    requires Phase(states, comms, from, to) && k <= |comms|
    ensures Moved(StateAt(states[0].Learned(), c), StateAt(states[k].Learned(), c), comms[..k], from, to, c)
  {
    if k > 0 {
      assert MovedAt(states, comms, from, to, k - 1);
      PhaseEffect(states, comms, from, to, c, k - 1);
      MoveOne(states[k - 1], states[k], StateAt(states[0].Learned(), c), comms[..k - 1], from, to, c, comms[k - 1]);
      assert comms[..k] == comms[..k - 1] + [comms[k - 1]];
    }
  }

  /** A pass and the pass back, over the same rules in any order, restore the table. */
  lemma ThereAndBack(
      there: seq<Sched>, back: seq<Sched>, first: seq<Comm>, second: seq<Comm>,
      from: map<Comm, RuleState>, to: map<Comm, RuleState>)
    requires multiset(first) == multiset(second)
    requires Phase(there, first, from, to) && there[0].Healthy()
    requires Phase(back, second, to, from) && back[0] == there[|first|]
    ensures back[|second|].Learned() == there[0].Learned()
  {
    PhaseCost(there, first, from, to, |first|);
    forall c ensures StateAt(back[|second|].Learned(), c) == StateAt(there[0].Learned(), c) {
      PhaseEffect(there, first, from, to, c, |first|);
      PhaseEffect(back, second, to, from, c, |second|);
      assert first[..|first|] == first && second[..|second|] == second;
      assert c in first <==> c in multiset(first);
      assert c in second <==> c in multiset(second);
    }
    SameTable(back[|second|].Learned(), there[0].Learned());
  }

  /** Apply, restore, apply again, each pass in any order: the restore pass gives back the baseline
  table, the last pass gives back the candidate table, and the counters move by 3n and 6n. */
  lemma GroupEpisode(
      apply: seq<Sched>, restore: seq<Sched>, reapply: seq<Sched>,
      first: seq<Comm>, second: seq<Comm>, third: seq<Comm>,
      baseline: map<Comm, RuleState>, candidate: map<Comm, RuleState>)
    requires multiset(first) == multiset(second) == multiset(third)
    requires Phase(apply, first, baseline, candidate) && apply[0].Healthy()
    requires Phase(restore, second, candidate, baseline) && restore[0] == apply[|first|]
    requires Phase(reapply, third, baseline, candidate) && reapply[0] == restore[|second|]
    ensures restore[|second|].Learned() == apply[0].Learned()
    ensures reapply[|third|].Learned() == apply[|first|].Learned()
    ensures forall c :: c in first ==> c in candidate && StateAt(reapply[|third|].Learned(), c) == candidate[c]
    ensures reapply[|third|].store.rules.revision == apply[0].store.rules.revision + 3 * |first|
    ensures apply[0].rulesSeq + 6 * |first| < U64 ==>
              reapply[|third|].rulesSeq == apply[0].rulesSeq + 6 * |first|
    ensures apply[0].rulesSeq % 2 == 0 && reapply[|third|].rulesSeq % 2 == 0
  {
    assert |first| == |multiset(first)| && |second| == |multiset(second)| && |third| == |multiset(third)|;
    PhaseCost(apply, first, baseline, candidate, |first|);
    PhaseCost(restore, second, candidate, baseline, |second|);
    PhaseCost(reapply, third, baseline, candidate, |third|);
    ThereAndBack(apply, restore, first, second, baseline, candidate);
    ThereAndBack(restore, reapply, second, third, candidate, baseline);
    forall c | c in first ensures c in candidate && StateAt(reapply[|third|].Learned(), c) == candidate[c] {
      PhaseEffect(apply, first, baseline, candidate, c, |first|);
      assert first[..|first|] == first;
    }
  }
}

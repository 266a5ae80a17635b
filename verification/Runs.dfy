/** Runs of a state machine, and the one induction that every safety result here rests on. */
module Runs {
  /** Consecutive states are steps of `next`. */
  ghost predicate IsRun<S>(next: (S, S) -> bool, states: seq<S>) {
    && states != []
    && forall i, j :: 0 <= i && j == i + 1 && j < |states| ==> next(states[i], states[j])
  }

  /** What every step keeps holds in every state of every run. */
  lemma {:induction false} Always<S(!new)>(next: (S, S) -> bool, inv: S -> bool, states: seq<S>, k: nat)
    requires IsRun(next, states) && inv(states[0]) && k < |states|
    requires forall a, b :: inv(a) && next(a, b) ==> inv(b)
    ensures inv(states[k])
  {
    if k > 0 {
      Always(next, inv, states, k - 1);
      assert next(states[k - 1], states[k]);
    }
  }

  /** What every step keeps between its ends holds between any two states of a run. */
  lemma {:induction false} AlwaysBetween<S(!new)>(
      next: (S, S) -> bool, inv: S -> bool, rel: (S, S) -> bool, states: seq<S>, i: nat, k: nat)
    requires IsRun(next, states) && inv(states[0]) && i <= k < |states|
    requires forall a, b :: inv(a) && next(a, b) ==> inv(b) && rel(a, b)
    requires forall a :: inv(a) ==> rel(a, a)
    requires forall a, b, c :: inv(a) && inv(b) && inv(c) && rel(a, b) && rel(b, c) ==> rel(a, c)
    ensures rel(states[i], states[k])
    decreases k
  {
    Always(next, inv, states, i);
    if i < k {
      AlwaysBetween(next, inv, rel, states, i, k - 1);
      Always(next, inv, states, k - 1);
      assert next(states[k - 1], states[k]);
    }
  }

  /** What each step adds to the number of steps so far holds after any number of them. */
  lemma {:induction false} Counts<S(!new)>(next: (S, S) -> bool, rel: (S, S, nat) -> bool, states: seq<S>, k: nat)
    requires IsRun(next, states) && rel(states[0], states[0], 0) && k < |states|
    requires forall s, b, a, n: nat :: rel(s, b, n) && next(b, a) ==> rel(s, a, n + 1)
    ensures rel(states[0], states[k], k)
  {
    if k > 0 {
      Counts(next, rel, states, k - 1);
      assert next(states[k - 1], states[k]);
    }
  }

  /** Some run leads from `s` to `t`. */
  ghost predicate Reaches<S(!new)>(next: (S, S) -> bool, s: S, t: S) {
    exists states :: IsRun(next, states) && states[0] == s && states[|states| - 1] == t
  }

  lemma ReachesSelf<S(!new)>(next: (S, S) -> bool, s: S)
    ensures Reaches(next, s, s)
  {
    assert IsRun(next, [s]);
  }

  lemma ReachesOneMore<S(!new)>(next: (S, S) -> bool, s: S, t: S, u: S)
    requires Reaches(next, s, t) && next(t, u)
    ensures Reaches(next, s, u)
  {
    var states :| IsRun(next, states) && states[0] == s && states[|states| - 1] == t;
    assert IsRun(next, states + [u]);
  }

  /** Step `m` is the last that changed the value `of` has at `k`. */
  ghost predicate LastChange<S(!new), T(!new)>(of: S -> T, states: seq<S>, m: nat, k: nat)
    requires m < k < |states|
  {
    of(states[m]) != of(states[k]) && forall j :: m < j <= k ==> of(states[j]) == of(states[k])
  }

  lemma {:induction false} SomeLastChange<S(!new), T(!new)>(of: S -> T, states: seq<S>, k: nat) returns (m: nat)
    requires k < |states| && of(states[k]) != of(states[0])
    ensures m < k && LastChange(of, states, m, k)
  {
    if of(states[k - 1]) != of(states[k]) {
      m := k - 1;
    } else {
      m := SomeLastChange(of, states, k - 1);
    }
  }
}

/** Batching of comms that have no rule. Observed comms gather in an ordered set; once enough of them,
or for long enough, are waiting, the smallest ones leave as one batch, and the next batch waits until
that one is finished. */
module Activation {
  import opened Ordering
  import opened Pieces
  import opened Rules
  import opened Runs

  /** Ascending and free of repetition: the enumeration of an ordered set. */
  ghost predicate Ascending(s: seq<Comm>) {
    forall i, j :: 0 <= i < j < |s| ==> LexLt(s[i], s[j])
  }

  function Elements(s: seq<Comm>): set<Comm> {
    set c | c in s
  }

  /** Time between two instants; a clock that went backwards counts as none. */
  function Elapsed(from: nat, to: nat): nat {
    if to >= from then to - from else 0
  }

  /** The batcher as a value. Times are nanoseconds since start-up. */
  datatype Batcher = Batcher(
    pending: seq<Comm>, since: Option<nat>, inFlight: Option<seq<Comm>>, coalesce: nat, maxBatch: nat)
  {
    ghost predicate Valid() {
      && maxBatch > 0 && Ascending(pending)
      && (since.Some? <==> pending != [])
      && (inFlight.Some? ==>
            && 0 < |inFlight.value| <= maxBatch && Ascending(inFlight.value)
            && Elements(pending) !! Elements(inFlight.value))
    }

    predicate Ready(now: nat) {
      && inFlight.None? && pending != []
      && (|pending| >= maxBatch || (since.Some? && Elapsed(since.value, now) >= coalesce))
    }

    /** How many comms the next batch takes. */
    function Cut(): nat {
      if |pending| <= maxBatch then |pending| else maxBatch
    }

    function Observed(comm: Comm, now: nat): Batcher {
      if (inFlight.Some? && comm in inFlight.value) || comm in pending then this
      else this.(pending := Add(pending, comm), since := if since.None? then Some(now) else since)
    }

    function Removed(comm: Comm): Batcher {
      var rest := Without(pending, comm);
      this.(pending := rest, since := if rest == [] then None else since)
    }

    function Taken(now: nat): Batcher {
      if !Ready(now) then this
      else
        var rest := pending[Cut()..];
        this.(pending := rest, since := if rest == [] then None else since, inFlight := Some(pending[..Cut()]))
    }

    function Finished(): Batcher {
      this.(inFlight := None)
    }
  }

  function New(coalesce: nat, maxBatch: nat): Batcher {
    Batcher([], None, None, coalesce, maxBatch)
  }

  /** Puts a comm in its place. */
  function Add(s: seq<Comm>, comm: Comm): seq<Comm> {
    if s == [] then [comm]
    else if LexLe(comm, s[0]) then [comm] + s
    else [s[0]] + Add(s[1..], comm)
  }

  lemma ConsAscending(x: Comm, s: seq<Comm>)
    requires Ascending(s) && forall c :: c in s ==> LexLt(x, c)
    ensures Ascending([x] + s) && Elements([x] + s) == {x} + Elements(s)
  {
    var r := [x] + s;
    forall i, j | 0 <= i < j < |r| ensures LexLt(r[i], r[j]) {
      assert r[j] == s[j - 1] && r[j] in s;
    }
  }

  lemma HeadIsLeast(s: seq<Comm>)
    requires Ascending(s) && s != []
    ensures Ascending(s[1..]) && Elements(s) == {s[0]} + Elements(s[1..])
    ensures forall c :: c in s[1..] ==> LexLt(s[0], c)
  {
    assert s == [s[0]] + s[1..];
  }

  lemma {:induction false} WithoutDrops(s: seq<Comm>, comm: Comm)
    requires Ascending(s)
    ensures Ascending(Without(s, comm)) && Elements(Without(s, comm)) == Elements(s) - {comm}
  {
    if s != [] {
      HeadIsLeast(s);
      WithoutDrops(s[1..], comm);
      var rest := Without(s[1..], comm);
      assert forall c :: c in rest <==> c in Elements(rest);
      if s[0] == comm {
        assert comm !in Elements(s[1..]);
        assert Without(s, comm) == rest;
      } else {
        ConsAscending(s[0], rest);
      }
    }
  }

  /** Adding a new comm keeps the set ascending. */
  lemma {:induction false} AddKeepsAscending(s: seq<Comm>, comm: Comm)
    requires Ascending(s) && comm !in s
    ensures Ascending(Add(s, comm))
    ensures Elements(Add(s, comm)) == Elements(s) + {comm}
  {
    if s != [] {
      HeadIsLeast(s);
      if LexLe(comm, s[0]) {
        forall c | c in s ensures LexLt(comm, c) {
          if c != s[0] {
            assert c in Elements(s[1..]);
            LexTransitive(comm, s[0], c);
          }
        }
        ConsAscending(comm, s);
      } else {
        LexTotal(comm, s[0]);
        AddKeepsAscending(s[1..], comm);
        var tail := Add(s[1..], comm);
        forall c | c in tail ensures LexLt(s[0], c) {
          assert c in Elements(tail);
        }
        ConsAscending(s[0], tail);
      }
    }
  }

  lemma ObservedKeepsValid(b: Batcher, comm: Comm, now: nat)
    requires b.Valid()
    ensures b.Observed(comm, now).Valid()
    ensures b.Observed(comm, now) == b || Elements(b.Observed(comm, now).pending) == Elements(b.pending) + {comm}
    ensures comm in b.Observed(comm, now).pending || (b.inFlight.Some? && comm in b.inFlight.value)
  {
    if comm !in b.pending && !(b.inFlight.Some? && comm in b.inFlight.value) {
      AddKeepsAscending(b.pending, comm);
      assert comm in Elements(Add(b.pending, comm));
    }
  }

  lemma RemovedKeepsValid(b: Batcher, comm: Comm)
    requires b.Valid()
    ensures b.Removed(comm).Valid() && Elements(b.Removed(comm).pending) == Elements(b.pending) - {comm}
  {
    WithoutDrops(b.pending, comm);
    if b.Removed(comm).pending != [] {
      assert b.Removed(comm).pending[0] in Elements(b.Removed(comm).pending);
      assert b.pending != [];
    }
  }

  /** A batch is the smallest pending comms, as many as fit, in order; the rest keeps waiting. */
  lemma BatchIsTheSmallest(b: Batcher, now: nat)
    requires b.Valid() && b.Ready(now)
    ensures var a := b.Taken(now);
            && a.Valid() && a.inFlight.Some?
            && Elements(a.inFlight.value) + Elements(a.pending) == Elements(b.pending)
            && (forall x, y :: x in a.inFlight.value && y in a.pending ==> LexLt(x, y))
            && |a.inFlight.value| == b.Cut()
            && (a.pending == [] || |a.inFlight.value| == b.maxBatch)
  {
    assert b.pending == b.pending[..b.Cut()] + b.pending[b.Cut()..];
    forall x, y | x in b.pending[..b.Cut()] && y in b.pending[b.Cut()..] ensures LexLt(x, y) && x != y {
      var i :| 0 <= i < b.Cut() && b.pending[i] == x;
      var j :| b.Cut() <= j < |b.pending| && b.pending[j] == y;
    }
  }

  datatype Event = Observe(comm: Comm, now: nat) | Remove(comm: Comm) | Take(now: nat) | Finish

  /** A batcher with its history: the comms that still await an activation, when each pending comm
  came, the latest time seen, and the time at which the pending set last stopped being empty. */
  datatype Log = Log(b: Batcher, owed: set<Comm>, came: map<Comm, nat>, clock: nat, filled: nat) {
    function Flying(): set<Comm> {
      if b.inFlight.Some? then Elements(b.inFlight.value) else {}
    }
  }

  predicate Timely(l: Log, e: Event) {
    e.Observe? || e.Take? ==> e.now >= l.clock
  }

  /** An observation is owed an activation until the comm is removed while pending, or its batch is
  finished. */
  function Do(l: Log, e: Event): Log {
    match e
    case Observe(c, now) =>
      var next := l.b.Observed(c, now);
      Log(next, l.owed + {c}, if c in l.b.pending then l.came else l.came[c := now], now,
          if l.b.pending == [] && next.pending != [] then now else l.filled)
    case Remove(c) => l.(b := l.b.Removed(c), owed := l.owed - ({c} - l.Flying()))
    case Take(now) => l.(b := l.b.Taken(now), clock := now)
    case Finish => l.(b := l.b.Finished(), owed := l.owed - l.Flying())
  }

  ghost predicate Next(l: Log, a: Log) {
    exists e :: Timely(l, e) && a == Do(l, e)
  }

  ghost predicate Inv(l: Log) {
    && l.b.Valid()
    && l.owed == Elements(l.b.pending) + l.Flying()
    && (forall c :: c in l.b.pending ==> c in l.came && l.b.since.value <= l.came[c] <= l.clock)
    && (l.b.since.Some? ==> l.b.since.value == l.filled <= l.clock)
  }

  lemma ObserveKeepsInv(l: Log, c: Comm, now: nat)
    requires Inv(l) && now >= l.clock
    ensures Inv(Do(l, Observe(c, now)))
  {
    var a := Do(l, Observe(c, now));
    ObservedKeepsValid(l.b, c, now);
    forall d | d in a.b.pending ensures d in a.came && a.b.since.value <= a.came[d] <= a.clock {
      assert d in Elements(a.b.pending);
    }
  }

  lemma RemoveKeepsInv(l: Log, c: Comm)
    requires Inv(l)
    ensures Inv(Do(l, Remove(c)))
  {
    var a := Do(l, Remove(c));
    RemovedKeepsValid(l.b, c);
    forall d | d in a.b.pending ensures d in l.b.pending {
      assert d in Elements(a.b.pending);
    }
  }

  lemma TakeKeepsInv(l: Log, now: nat)
    requires Inv(l) && now >= l.clock
    ensures Inv(Do(l, Take(now)))
  {
    var a := Do(l, Take(now));
    if l.b.Ready(now) {
      BatchIsTheSmallest(l.b, now);
      forall d | d in a.b.pending ensures d in l.b.pending {
        assert d in Elements(a.b.pending);
      }
    }
  }

  lemma StepKeepsInv(l: Log, e: Event)
    requires Inv(l) && Timely(l, e)
    ensures Inv(Do(l, e))
  {
    match e {
      case Observe(c, now) => ObserveKeepsInv(l, c, now);
      case Remove(c) => RemoveKeepsInv(l, c);
      case Take(now) => TakeKeepsInv(l, now);
      case Finish =>
    }
  }

  lemma RunsKeepInv(states: seq<Log>, coalesce: nat, maxBatch: nat, k: nat)
    requires IsRun(Next, states) && k < |states| && maxBatch > 0
    requires states[0] == Log(New(coalesce, maxBatch), {}, map[], 0, 0)
    ensures Inv(states[k]) && states[k].b.coalesce == coalesce && states[k].b.maxBatch == maxBatch
  {
    var inv := (l: Log) => Inv(l) && l.b.coalesce == coalesce && l.b.maxBatch == maxBatch;
    forall l, a | inv(l) && Next(l, a) ensures inv(a) {
      var e :| Timely(l, e) && a == Do(l, e);
      StepKeepsInv(l, e);
    }
    Always(Next, inv, states, k);
  }

  /** In every run with non-decreasing times: pending and in-flight comms are disjoint, and together
  they are exactly the comms still owed an activation, so none is lost and none is repeated; and a
  comm that has waited for the coalescing time, or a full batch of comms, with nothing in flight makes
  the next call return a batch. */
  lemma NothingIsLostOrStarved(states: seq<Log>, coalesce: nat, maxBatch: nat, k: nat, now: nat)
    requires IsRun(Next, states) && k < |states| && maxBatch > 0
    requires states[0] == Log(New(coalesce, maxBatch), {}, map[], 0, 0)
    ensures var l := states[k];
            && l.owed == Elements(l.b.pending) + l.Flying()
            && Elements(l.b.pending) !! l.Flying()
            && (now >= l.clock && l.b.inFlight.None?
                && (|| |l.b.pending| >= maxBatch
                    || exists c :: c in l.b.pending && c in l.came && now >= l.came[c] + coalesce) ==>
                  l.b.Ready(now) && l.b.Taken(now).inFlight.Some?)
  {
    RunsKeepInv(states, coalesce, maxBatch, k);
  }

  /** A batch leaves exactly when it should: nothing is in flight, something is pending, and either it fills a batch
  or the coalescing time has passed since the pending set last stopped being empty. Otherwise all stays. */
  lemma BatchLeavesExactlyWhenDue(states: seq<Log>, coalesce: nat, maxBatch: nat, k: nat, now: nat)
    requires IsRun(Next, states) && k < |states| && maxBatch > 0 && now >= states[k].clock
    requires states[0] == Log(New(coalesce, maxBatch), {}, map[], 0, 0)
    ensures var l := states[k];
            var due := l.b.inFlight.None? && l.b.pending != [] && (|l.b.pending| >= maxBatch || now >= l.filled + coalesce);
            && (due ==> l.b.Taken(now).inFlight.Some?)
            && (!due ==> l.b.Taken(now) == l.b)
  {
    RunsKeepInv(states, coalesce, maxBatch, k);
  }

  class ActivationBatcher {
    var pending: seq<Comm>
    var pendingSince: Option<nat>
    var inFlight: Option<seq<Comm>>
    const coalesce: nat
    const maxBatch: nat

    function State(): Batcher
      reads this
    {
      Batcher(pending, pendingSince, inFlight, coalesce, maxBatch)
    }

    constructor (coalesce: nat, maxBatch: nat)
      requires maxBatch > 0
      ensures State() == New(coalesce, maxBatch) && State().Valid()
    {
      pending, pendingSince, inFlight := [], None, None;
      this.coalesce, this.maxBatch := coalesce, maxBatch;
    }

    method Observe(comm: Comm, now: nat)
      requires State().Valid()
      modifies this`pending, this`pendingSince
      ensures State() == old(State()).Observed(comm, now) && State().Valid()
    {
      ObservedKeepsValid(State(), comm, now);
      if inFlight.Some? && comm in inFlight.value {
        return;
      }
      if comm !in pending {
        pending := Add(pending, comm);
        if pendingSince.None? {
          pendingSince := Some(now);
        }
      }
    }

    method RemovePending(comm: Comm)
      requires State().Valid()
      modifies this`pending, this`pendingSince
      ensures State() == old(State()).Removed(comm) && State().Valid()
    {
      RemovedKeepsValid(State(), comm);
      pending := Without(pending, comm);
      if pending == [] {
        pendingSince := None;
      }
    }

    method TakeReady(now: nat) returns (batch: Option<seq<Comm>>)
      requires State().Valid()
      modifies this`pending, this`pendingSince, this`inFlight
      ensures State() == old(State()).Taken(now) && State().Valid()
      ensures batch.Some? <==> old(State()).Ready(now)
      ensures batch.Some? ==> batch == inFlight
    {
      if !State().Ready(now) {
        return None;
      }
      BatchIsTheSmallest(State(), now);
      var taken: seq<Comm> := [];
      while |taken| < maxBatch && |taken| < |pending|
        invariant |taken| <= State().Cut() && taken == pending[..|taken|]
        decreases |pending| - |taken|
      {
        taken := taken + [pending[|taken|]];
      }
      pending := pending[|taken|..];
      if pending == [] {
        pendingSince := None;
      }
      inFlight := Some(taken);
      return Some(taken);
    }

    method Finish() returns (batch: Option<seq<Comm>>)
      requires State().Valid()
      modifies this`inFlight
      ensures batch == old(inFlight) && State() == old(State()).Finished() && State().Valid()
    {
      batch := inFlight;
      inFlight := None;
    }
  }
}

/** Measuring the Redis scenario: a load generator keeps the last rounds in a ring that is replaced whole
on disk, and the measurement provider serves them to a session, each at most once. */
module RedisMeasurement {
  import opened Ordering
  import opened Rules

  const STATE_RING_SIZE := 32
  const READY_ROUNDS := 3

  datatype Metrics = Metrics(values: seq<real>)

  /** What the load generator saw in one round. `measured` is there when both benchmarks exited with zero and
  printed what could be parsed. */
  datatype Round = Round(started: nat, ended: nat, weightBefore: nat, weightAfter: nat,
                         fingerprintBefore: string, fingerprintAfter: string, measured: Option<Metrics>)

  /** A round counts only if the weight and the workload were the same at both ends. */
  predicate Sound(r: Round) {
    r.fingerprintAfter == r.fingerprintBefore && r.weightAfter == r.weightBefore && r.measured.Some?
  }

  /** No metrics stands for a vector that is not complete. */
  datatype Sample = Sample(sequence: nat, started: nat, ended: nat, valid: bool, clean: bool, fingerprint: string,
                           weightStart: nat, weightEnd: nat, metrics: Option<Metrics>)

  function SampleOf(r: Round, sequence: nat): Sample {
    Sample(sequence, r.started, r.ended, Sound(r), Sound(r), r.fingerprintBefore, r.weightBefore, r.weightAfter,
           if Sound(r) then r.measured else None)
  }

  datatype File = File(next: nat, samples: seq<Sample>)

  function LastOf(samples: seq<Sample>): (r: seq<Sample>)
    ensures |r| == if |samples| <= STATE_RING_SIZE then |samples| else STATE_RING_SIZE
  {
    if |samples| <= STATE_RING_SIZE then samples else samples[|samples| - STATE_RING_SIZE..]
  }

  /** A sample tells the truth about its round. One that is not valid may carry an older round's metrics. */
  ghost predicate Truthful(s: Sample, r: Round, sequence: nat) {
    && s.sequence == sequence && s.started == r.started && s.ended == r.ended
    && s.valid == s.clean == Sound(r) && s.fingerprint == r.fingerprintBefore
    && s.weightStart == r.weightBefore && s.weightEnd == r.weightAfter
    && (s.valid ==> s.metrics == r.measured)
  }

  /** The ring holds the last rounds, without gaps and in order. */
  ghost predicate IsRing(f: File, rounds: seq<Round>) {
    && f.next == |rounds| + 1
    && |f.samples| == (if |rounds| <= STATE_RING_SIZE then |rounds| else STATE_RING_SIZE)
    && forall i :: 0 <= i < |f.samples| ==>
         var k := |rounds| - |f.samples| + i; Truthful(f.samples[i], rounds[k], k + 1)
  }

  /** What the last sound round measured, if there was one. */
  function LastMeasured(rounds: seq<Round>): Option<Metrics> {
    if rounds == [] then None
    else if Sound(rounds[|rounds| - 1]) then rounds[|rounds| - 1].measured
    else LastMeasured(rounds[..|rounds| - 1])
  }

  /** Every sample carries what had been measured last when it was taken: its own round's metrics if that was sound. */
  ghost predicate Carries(samples: seq<Sample>, rounds: seq<Round>) {
    && |samples| <= |rounds|
    && forall i :: 0 <= i < |samples| ==> samples[i].metrics == LastMeasured(rounds[..|rounds| - |samples| + i + 1])
  }

  lemma PushCarries(earlier: seq<Sample>, samples: seq<Sample>, rounds: seq<Round>, r: Round)
    requires Carries(earlier, rounds) && samples != [] && |samples| <= |earlier| + 1
    requires samples[..|samples| - 1] == earlier[|earlier| + 1 - |samples|..]
    requires samples[|samples| - 1].metrics == LastMeasured(rounds + [r])
    ensures Carries(samples, rounds + [r])
  {
    var all, n := rounds + [r], |samples|;
    forall i | 0 <= i < n ensures samples[i].metrics == LastMeasured(all[..|all| - n + i + 1]) {
      if i == n - 1 {
        assert all[..|all| - n + i + 1] == all;
      } else {
        assert samples[i] == samples[..n - 1][i] == earlier[|earlier| + 1 - n + i];
        assert all[..|all| - n + i + 1] == rounds[..|rounds| - |earlier| + (|earlier| + 1 - n + i) + 1];
      }
    }
  }

  /** The last `n` rounds are sound. */
  ghost predicate ValidStreak(rounds: seq<Round>, n: nat) {
    n <= |rounds| && forall i :: |rounds| - n <= i < |rounds| ==> Sound(rounds[i])
  }

  /** And not one more. */
  ghost predicate WholeStreak(rounds: seq<Round>, n: nat) {
    ValidStreak(rounds, n) && (n < |rounds| ==> !Sound(rounds[|rounds| - 1 - n]))
  }

  ghost predicate WasReady(rounds: seq<Round>) {
    exists k :: READY_ROUNDS <= k <= |rounds| && ValidStreak(rounds[..k], READY_ROUNDS)
  }

  lemma StillReady(rounds: seq<Round>, r: Round)
    requires WasReady(rounds)
    ensures WasReady(rounds + [r])
  {
    var k :| READY_ROUNDS <= k <= |rounds| && ValidStreak(rounds[..k], READY_ROUNDS);
    assert (rounds + [r])[..k] == rounds[..k];
  }

  /** A round makes ready exactly when it ends three sound ones. */
  lemma ReadyNow(rounds: seq<Round>, r: Round)
    ensures WasReady(rounds + [r]) <==> WasReady(rounds) || ValidStreak(rounds + [r], READY_ROUNDS)
  {
    var all := rounds + [r];
    assert all[..|all|] == all;
    if WasReady(rounds) {
      StillReady(rounds, r);
    }
    if WasReady(all) {
      var k :| READY_ROUNDS <= k <= |all| && ValidStreak(all[..k], READY_ROUNDS);
      if k < |all| {
        assert all[..k] == rounds[..k];
      }
    }
  }

  /** The streak after one more round. */
  lemma Streak(rounds: seq<Round>, r: Round, n: nat)
    requires WholeStreak(rounds, n)
    ensures WholeStreak(rounds + [r], if Sound(r) then n + 1 else 0)
    ensures ValidStreak(rounds + [r], READY_ROUNDS) <==> (if Sound(r) then n + 1 else 0) >= READY_ROUNDS
  {
    var all, m := rounds + [r], if Sound(r) then n + 1 else 0;
    assert m < |all| ==> !Sound(all[|all| - 1 - m]);
  }

  class LoadGenerator {
    var file: File
    var consecutiveValid: nat
    var lastComplete: Option<Metrics>
    var ready: bool
    ghost var rounds: seq<Round>

    ghost predicate Valid()
      reads this
    {
      && IsRing(file, rounds)
      && WholeStreak(rounds, consecutiveValid)
      && (ready <==> WasReady(rounds))
      && lastComplete == LastMeasured(rounds) && Carries(file.samples, rounds)
    }

    constructor ()
      ensures Valid() && rounds == [] && !ready
    {
      file := File(1, []);
      consecutiveValid := 0;
      lastComplete := None;
      ready := false;
      rounds := [];
    }

    /** Readiness is announced exactly after three sound rounds in a row, and is never withdrawn. */
    method Count(sound: bool, ghost before: seq<Round>, ghost r: Round)
      requires WholeStreak(before, consecutiveValid) && sound == Sound(r) && (ready <==> WasReady(before))
      modifies this`consecutiveValid, this`ready
      ensures WholeStreak(before + [r], consecutiveValid) && (ready <==> WasReady(before + [r])) && (old(ready) ==> ready)
    {
      Streak(before, r, consecutiveValid);
      ReadyNow(before, r);
      if sound {
        consecutiveValid := consecutiveValid + 1;
      } else {
        consecutiveValid := 0;
      }
      if consecutiveValid >= READY_ROUNDS && !ready {
        ready := true;
      }
    }

    /** Runs a round and publishes it; what was published in between is also a ring of the same rounds. */
    method RunRound(r: Round) returns (ghost first: File)
      requires Valid()
      modifies this
      ensures Valid() && rounds == old(rounds) + [r]
      ensures IsRing(first, rounds) && (old(ready) ==> ready)
    {
      var sound: bool;
      file, lastComplete, sound, first := Extend(file, lastComplete, r, rounds);
      Count(sound, rounds, r);
      rounds := rounds + [r];
    }
  }

  lemma OneMoreMeasured(rounds: seq<Round>, r: Round)
    ensures LastMeasured(rounds + [r]) == if Sound(r) then r.measured else LastMeasured(rounds)
  {
    assert (rounds + [r])[..|rounds|] == rounds;
  }

  /** Adds a round to the file. It is written once with what the round measured, and a second time if it measured
  nothing and there is something to borrow. */
  method Extend(file: File, last: Option<Metrics>, r: Round, ghost rounds: seq<Round>)
    returns (file': File, last': Option<Metrics>, sound: bool, ghost first: File)
    requires IsRing(file, rounds) && last == LastMeasured(rounds) && Carries(file.samples, rounds)
    ensures IsRing(file', rounds + [r]) && last' == LastMeasured(rounds + [r]) && Carries(file'.samples, rounds + [r])
    ensures IsRing(first, rounds + [r]) && sound == Sound(r)
  {
    var sample := SampleOf(r, file.next);
    OneMoreMeasured(rounds, r);
    file', last', sound := Push(file, sample), last, sample.valid;
    PushKeepsRing(file, file', r, rounds);
    first := file';
    if sample.valid {
      last' := sample.metrics;
    } else if sample.metrics.None? && last.Some? {
      file' := Borrow(file', last, rounds + [r]);
    }
    PushCarries(file.samples, file'.samples, rounds, r);
  }

  function Push(f: File, sample: Sample): (g: File)
    ensures g.next == f.next + 1 && |g.samples| == if |f.samples| < STATE_RING_SIZE then |f.samples| + 1 else STATE_RING_SIZE
    ensures g.samples[|g.samples| - 1] == sample
    ensures |f.samples| <= STATE_RING_SIZE ==> g.samples[..|g.samples| - 1] == f.samples[|f.samples| + 1 - |g.samples|..]
  {
    File(f.next + 1, LastOf(f.samples + [sample]))
  }

  lemma PushKeepsRing(f: File, g: File, r: Round, rounds: seq<Round>)
    requires IsRing(f, rounds) && g == Push(f, SampleOf(r, f.next))
    ensures IsRing(g, rounds + [r])
  {
    var all, n := rounds + [r], |g.samples|;
    forall i | 0 <= i < n ensures Truthful(g.samples[i], all[|all| - n + i], |all| - n + i + 1) {
      if i < n - 1 {
        var j := |f.samples| + 1 - n + i;
        assert g.samples[i] == g.samples[..n - 1][i] == f.samples[j];
        assert Truthful(f.samples[j], rounds[|rounds| - |f.samples| + j], |rounds| - |f.samples| + j + 1);
      }
    }
  }

  /** An empty sample borrows the last complete metrics; it stays invalid. */
  function Borrow(f: File, metrics: Option<Metrics>, ghost rounds: seq<Round>): (g: File)
    requires IsRing(f, rounds) && f.samples != [] && !f.samples[|f.samples| - 1].valid
    ensures IsRing(g, rounds)
    ensures |g.samples| == |f.samples| && g.samples[..|g.samples| - 1] == f.samples[..|f.samples| - 1]
    ensures g.samples[|g.samples| - 1].metrics == metrics
  {
    var n := |f.samples| - 1;
    f.(samples := f.samples[n := f.samples[n].(metrics := metrics)])
  }

  // ---- Serving a session ---------------------------------------------------------------------

  datatype MetricBatch = MetricBatch(sample: Sample, valid: bool)

  /** The identity of the workload and its weight, as found at the moment of a call. */
  datatype Found = Found(runId: string, fingerprint: string, weight: nat)

  predicate BySequence(a: Sample, b: Sample) {
    a.sequence <= b.sequence
  }

  function NewerThan(samples: seq<Sample>, last: nat): (r: seq<Sample>)
    ensures forall s :: s in r <==> s in samples && s.sequence > last
  {
    if samples == [] then []
    else (if samples[0].sequence > last then [samples[0]] else []) + NewerThan(samples[1..], last)
  }

  method Candidates(f: File, last: nat) returns (r: seq<Sample>)
    ensures forall i, j :: 0 <= i < j < |r| ==> r[i].sequence <= r[j].sequence
    ensures forall s :: s in r <==> s in f.samples && s.sequence > last
  {
    var newer := NewerThan(f.samples, last);
    r := Sort(BySequence, newer);
    SortIsSorted(BySequence, newer);
    forall s ensures s in r <==> s in newer {
      assert s in r <==> s in multiset(r);
      assert s in newer <==> s in multiset(newer);
    }
    forall i, j | 0 <= i < j < |r| ensures r[i].sequence <= r[j].sequence {
      assert BySequence(r[i], r[j]);
    }
  }

  class Session {
    const identity: Found
    const openedAt: nat
    const maxAge: nat
    var lastSequence: nat
    ghost var issued: seq<nat>

    /** Valid batches carry ever larger sequence numbers. */
    ghost predicate Valid()
      reads this
    {
      && (forall i, j :: 0 <= i < j < |issued| ==> issued[i] < issued[j])
      && (forall i :: 0 <= i < |issued| ==> issued[i] <= lastSequence)
    }

    constructor (found: Found, file: File, openedAt: nat, maxAge: nat)
      requires file.next >= 1
      ensures Valid() && issued == [] && lastSequence == file.next - 1
      ensures identity == found && this.openedAt == openedAt && this.maxAge == maxAge
    {
      identity := found;
      this.openedAt := openedAt;
      this.maxAge := maxAge;
      lastSequence := file.next - 1;
      issued := [];
    }

    /** `c` is the oldest sample of `f` that is new since `last` and began after the session was opened. */
    ghost predicate Oldest(f: File, last: nat, c: Sample) {
      && c in f.samples && c.sequence > last && c.started >= openedAt
      && forall s :: s in f.samples && last < s.sequence < c.sequence ==> s.started < openedAt
    }

    /** Goes through the new samples of one poll in order, passing over those that began too early. */
    method Poll(f: File) returns (r: Option<Sample>)
      modifies this`lastSequence
      ensures old(lastSequence) <= lastSequence
      ensures r.Some? ==> Oldest(f, old(lastSequence), r.value) && lastSequence == r.value.sequence
      ensures r.None? ==> forall s :: s in f.samples && s.sequence > old(lastSequence) ==> s.started < openedAt && s.sequence <= lastSequence
      ensures lastSequence == old(lastSequence) || exists s :: s in f.samples && s.sequence == lastSequence
    {
      ghost var last := lastSequence;
      var candidates := Candidates(f, lastSequence);
      for i := 0 to |candidates|
        invariant last <= lastSequence
        invariant lastSequence == last || exists s :: s in f.samples && s.sequence == lastSequence
        invariant forall k :: 0 <= k < i ==> candidates[k].started < openedAt && candidates[k].sequence <= lastSequence
      {
        assert candidates[i] in candidates;
        lastSequence := candidates[i].sequence;
        if candidates[i].started >= openedAt {
          return Some(candidates[i]);
        }
      }
      return None;
    }

    /** Poll `k` offers the sample: it can be read, as can every poll before it, and the sample is new, begun after
    the opening, and later than everything seen in the polls before. */
    ghost predicate Offers(polls: seq<Result<File>>, last: nat, k: nat, s: Sample) {
      && k < |polls| && (forall j :: 0 <= j <= k ==> polls[j].Ok?)
      && s in polls[k].value.samples && s.sequence > last && s.started >= openedAt
      && forall j, x :: 0 <= j < k && x in polls[j].value.samples ==> x.sequence < s.sequence
    }

    /** The first poll that offers anything, and the oldest sample it offers. */
    ghost predicate FirstOffer(polls: seq<Result<File>>, last: nat, k: nat, c: Sample) {
      && Offers(polls, last, k, c)
      && (forall j, s :: 0 <= j < k ==> !Offers(polls, last, j, s))
      && (forall s :: Offers(polls, last, k, s) ==> c.sequence <= s.sequence)
    }

    /** The session's mark is where it was or at a sample it has seen. */
    ghost predicate MarkIsSeen(polls: seq<Result<File>>, n: nat, last: nat, mark: nat)
      requires n <= |polls|
    {
      mark == last || exists j, x :: 0 <= j < n && polls[j].Ok? && x in polls[j].value.samples && x.sequence == mark
    }

    lemma PollOffers(polls: seq<Result<File>>, i: nat, last: nat, mark: nat, s: Sample)
      requires i < |polls| && (forall j :: 0 <= j <= i ==> polls[j].Ok?) && last <= mark && MarkIsSeen(polls, i, last, mark)
      requires forall j, x :: 0 <= j < i && x in polls[j].value.samples ==> x.sequence <= mark
      ensures Offers(polls, last, i, s) <==> s in polls[i].value.samples && s.sequence > mark && s.started >= openedAt
    {
    }

    /** Polls until a sample is found or the deadline passes; each element of `polls` is one reading of the file.
    The first offer is taken; without one, a poll that cannot be read is an error. */
    method Await(polls: seq<Result<File>>) returns (r: Result<Option<Sample>>, ghost at: nat, ghost last: nat)
      modifies this`lastSequence
      ensures old(lastSequence) <= lastSequence
      ensures r.Ok? && r.value.Some? ==>
        && at < |polls| && polls[at].Ok? && old(lastSequence) <= last && Oldest(polls[at].value, last, r.value.value)
        && lastSequence == r.value.value.sequence && FirstOffer(polls, old(lastSequence), at, r.value.value)
      ensures r.Err? || r.value.None? ==> forall k, s :: !Offers(polls, old(lastSequence), k, s)
      ensures r == Ok(None) ==> forall k :: 0 <= k < |polls| ==> polls[k].Ok?
      ensures r.Err? ==> exists k :: 0 <= k < |polls| && polls[k].Err?
      ensures MarkIsSeen(polls, |polls|, old(lastSequence), lastSequence)
    {
      ghost var start := lastSequence;
      last, at := lastSequence, 0;
      for i := 0 to |polls|
        invariant start <= lastSequence && MarkIsSeen(polls, i, start, lastSequence)
        invariant forall j :: 0 <= j < i ==> polls[j].Ok?
        invariant forall j, x :: 0 <= j < i && x in polls[j].value.samples ==> x.sequence <= lastSequence
        invariant forall k, s :: 0 <= k < i ==> !Offers(polls, start, k, s)
      {
        if polls[i].Err? {
          return Err, i, lastSequence;
        }
        at, last := i, lastSequence;
        forall s ensures Offers(polls, start, i, s) <==> s in polls[i].value.samples && s.sequence > last && s.started >= openedAt {
          PollOffers(polls, i, start, last, s);
        }
        var found := Poll(polls[i].value);
        if found.Some? {
          return Ok(found), at, last;
        }
      }
      return Ok(None), at, last;
    }

    /** What makes a served sample count. */
    predicate Counts(c: Sample, now: nat) {
      && c.valid && c.clean
      && c.weightStart == identity.weight && c.weightEnd == identity.weight
      && c.fingerprint == identity.fingerprint
      && now <= c.ended + maxAge
    }

    /** Serves the next sample: the first offer, whenever there is one. A batch is valid exactly when that sample
    counts and is complete; anything else that is answered is an invalid batch, and no sequence number is ever
    served as valid twice. The call fails exactly for a changed session or workload, for a poll that cannot be
    read before any offer, and when there is nothing to fall back on. */
    method TakeSample(echoed: bool, found: Found, polls: seq<Result<File>>, reload: Result<File>, now: nat)
      returns (r: Result<MetricBatch>, ghost chosen: Option<Sample>, ghost at: nat, ghost last: nat)
      requires Valid()
      modifies this
      ensures Valid() && old(lastSequence) <= lastSequence
      ensures chosen.Some? ==>
        && at < |polls| && polls[at].Ok? && old(lastSequence) <= last && Oldest(polls[at].value, last, chosen.value)
        && lastSequence == chosen.value.sequence && FirstOffer(polls, old(lastSequence), at, chosen.value)
      ensures chosen.Some? <==> echoed && found == identity && exists k, s :: Offers(polls, old(lastSequence), k, s)
      ensures r.Err? <==>
        || !echoed || found != identity
        || (chosen.None? && exists k :: 0 <= k < |polls| && polls[k].Err?)
        || ((chosen.None? || chosen.value.metrics.None?) && (reload.Err? || forall s :: s in reload.value.samples ==> !s.valid || s.metrics.None?))
      ensures MarkIsSeen(polls, |polls|, old(lastSequence), lastSequence)
      ensures r.Ok? && r.value.valid <==> chosen.Some? && Counts(chosen.value, now) && chosen.value.metrics.Some?
      ensures chosen.Some? && chosen.value.metrics.Some? ==> r.Ok? && r.value.sample == chosen.value
      ensures r.Ok? && (chosen.None? || chosen.value.metrics.None?) ==>
        reload.Ok? && Newest(reload.value.samples, r.value.sample)
      ensures r.Ok? && r.value.valid ==> issued == old(issued) + [r.value.sample.sequence]
      ensures !(r.Ok? && r.value.valid) ==> issued == old(issued)
    {
      chosen, at, last := None, 0, 0;
      if !echoed || found.runId != identity.runId || found.fingerprint != identity.fingerprint {
        return Err, chosen, at, last;
      }
      if found.weight != identity.weight {
        return Err, chosen, at, last;
      }
      var awaited;
      awaited, at, last := Await(polls);
      if awaited.Err? {
        return Err, chosen, at, last;
      }
      chosen := awaited.value;
      if awaited.value.Some? && awaited.value.value.metrics.Some? {
        var c := awaited.value.value;
        var counts := Counts(c, now);
        if counts {
          issued := issued + [c.sequence];
        }
        return Ok(MetricBatch(c, counts)), chosen, at, last;
      }
      var fallback := Fallback(reload);
      return fallback, chosen, at, last;
    }
  }

  /** The last valid complete sample of the list. */
  ghost predicate Newest(samples: seq<Sample>, c: Sample) {
    exists i :: 0 <= i < |samples| && NewestAt(samples, c, i)
  }

  ghost predicate NewestAt(samples: seq<Sample>, c: Sample, i: nat)
    requires i < |samples|
  {
    && samples[i] == c && c.valid && c.metrics.Some?
    && forall k :: i < k < |samples| ==> !samples[k].valid || samples[k].metrics.None?
  }

  /** The newest valid complete sample, served as a diagnosis only. */
  method Fallback(reload: Result<File>) returns (r: Result<MetricBatch>)
    ensures r.Ok? ==> reload.Ok? && !r.value.valid && Newest(reload.value.samples, r.value.sample)
    ensures r.Err? <==> reload.Err? || forall s :: s in reload.value.samples ==> !s.valid || s.metrics.None?
  {
    if reload.Err? {
      return Err;
    }
    var samples := reload.value.samples;
    for i := |samples| downto 0
      invariant forall k :: i <= k < |samples| ==> !samples[k].valid || samples[k].metrics.None?
    {
      if samples[i].valid && samples[i].metrics.Some? {
        assert NewestAt(samples, samples[i], i);
        return Ok(MetricBatch(samples[i], false));
      }
    }
    return Err;
  }

  // ---- The session against the load generator ------------------------------------------------

  /** A valid batch is a whole round measured under the session's conditions: it began after the session was
  opened, at the session's weight and workload from end to end, and its metrics are the round's own. */
  lemma ValidBatchIsGenuine(s: Session, f: File, rounds: seq<Round>, last: nat, c: Sample, now: nat)
    requires IsRing(f, rounds) && s.Oldest(f, last, c) && s.Counts(c, now)
    ensures last < c.sequence <= |rounds|
    ensures
      var r := rounds[c.sequence - 1];
      && r.started >= s.openedAt && now <= r.ended + s.maxAge
      && Sound(r) && r.measured == c.metrics
      && r.weightBefore == r.weightAfter == s.identity.weight
      && r.fingerprintBefore == r.fingerprintAfter == s.identity.fingerprint
  {
    var i :| 0 <= i < |f.samples| && f.samples[i] == c;
    assert Truthful(f.samples[i], rounds[|rounds| - |f.samples| + i], |rounds| - |f.samples| + i + 1);
  }

  /** A sample of the ring counts exactly when its round was sound, at the session's weight and workload, and is not
  too old. */
  lemma CountsIff(s: Session, f: File, rounds: seq<Round>, c: Sample, now: nat)
    requires IsRing(f, rounds) && c in f.samples
    ensures 1 <= c.sequence <= |rounds|
    ensures var r := rounds[c.sequence - 1];
            s.Counts(c, now) <==>
              && Sound(r) && r.weightBefore == s.identity.weight && r.fingerprintBefore == s.identity.fingerprint
              && now <= r.ended + s.maxAge
  {
    var i :| 0 <= i < |f.samples| && f.samples[i] == c;
    assert Truthful(f.samples[i], rounds[|rounds| - |f.samples| + i], |rounds| - |f.samples| + i + 1);
  }

  /** Rounds follow one another. */
  ghost predicate InOrder(rounds: seq<Round>) {
    forall i, j :: 0 <= i < j < |rounds| ==> rounds[i].ended <= rounds[j].started
  }

  lemma SampleAt(f: File, rounds: seq<Round>, k: nat) returns (s: Sample)
    requires IsRing(f, rounds) && |rounds| - |f.samples| <= k < |rounds|
    ensures s in f.samples && s.sequence == k + 1 && s.started == rounds[k].started
  {
    s := f.samples[k - (|rounds| - |f.samples|)];
    assert Truthful(s, rounds[k], k + 1);
  }

  /** A poll misses no round that is still in the ring: the sample served is the first round after `last` that
  began after the session was opened, exactly when that round has not been pushed out. */
  lemma NextRoundIsServedIffKept(s: Session, f: File, rounds: seq<Round>, last: nat, c: Sample, first: nat)
    requires IsRing(f, rounds) && s.Oldest(f, last, c)
    requires last <= first < |rounds| && rounds[first].started >= s.openedAt
    requires forall k :: last <= k < first ==> rounds[k].started < s.openedAt
    ensures c.sequence == first + 1 <==> |rounds| <= first + STATE_RING_SIZE
    ensures c.sequence >= first + 1
  {
    var i :| 0 <= i < |f.samples| && f.samples[i] == c;
    assert Truthful(f.samples[i], rounds[|rounds| - |f.samples| + i], |rounds| - |f.samples| + i + 1);
    if |rounds| - |f.samples| <= first {
      var served := SampleAt(f, rounds, first);
    }
  }

  lemma RoundOf(f: File, rounds: seq<Round>, c: Sample) returns (k: nat)
    requires IsRing(f, rounds) && c in f.samples
    ensures k < |rounds| && c.sequence == k + 1 && c.started == rounds[k].started
  {
    var i :| 0 <= i < |f.samples| && f.samples[i] == c;
    k := |rounds| - |f.samples| + i;
    assert Truthful(f.samples[i], rounds[k], k + 1);
  }

  /** Once a round has been served, every later one began after the session was opened: rounds are passed
  over only at the start of a session. */
  lemma NoneIsPassedOverLater(s: Session, f: File, rounds: seq<Round>, last: nat, c: Sample, x: Sample)
    requires IsRing(f, rounds) && InOrder(rounds) && s.Oldest(f, last, c)
    requires (forall k :: 0 <= k < |rounds| ==> rounds[k].started <= rounds[k].ended)
    requires x in f.samples && x.sequence >= c.sequence
    ensures x.started >= s.openedAt
  {
    var i := RoundOf(f, rounds, c);
    var j := RoundOf(f, rounds, x);
    assert i < j ==> rounds[i].ended <= rounds[j].started;
  }

  /** Every poll shows the ring at some later time of the same rounds. */
  ghost predicate OneHistory(polls: seq<Result<File>>, rounds: seq<Round>, seen: seq<nat>) {
    && |seen| == |polls|
    && (forall j :: 0 <= j < |polls| ==> seen[j] <= |rounds| && (polls[j].Ok? ==> IsRing(polls[j].value, rounds[..seen[j]])))
    && (forall i, j :: 0 <= i < j < |polls| ==> seen[i] <= seen[j])
  }

  /** The poll can be read, as can all before it, and holds a new sample begun after the opening. */
  ghost predicate Holds(s: Session, polls: seq<Result<File>>, last: nat, k: nat, c: Sample) {
    && k < |polls| && (forall j :: 0 <= j <= k ==> polls[j].Ok?)
    && c in polls[k].value.samples && c.sequence > last && c.started >= s.openedAt
  }

  /** An earlier ring that has got as far as the sample's round held that round too. */
  lemma EarlierRingHeld(s: Session, polls: seq<Result<File>>, rounds: seq<Round>, seen: seq<nat>, last: nat, k: nat, c: Sample, j: nat, x: Sample)
    returns (d: Sample)
    requires OneHistory(polls, rounds, seen) && Holds(s, polls, last, k, c)
    requires j < k && x in polls[j].value.samples && x.sequence >= c.sequence
    ensures Holds(s, polls, last, j, d)
  {
    var a := RoundOf(polls[k].value, rounds[..seen[k]], c);
    var b := RoundOf(polls[j].value, rounds[..seen[j]], x);
    assert seen[j] <= seen[k];
    InRing(polls[k].value, rounds[..seen[k]], c);
    d := SampleAt(polls[j].value, rounds[..seen[j]], a);
  }

  lemma InRing(f: File, rounds: seq<Round>, c: Sample)
    requires IsRing(f, rounds) && c in f.samples
    ensures |rounds| - |f.samples| < c.sequence
  {
    var i :| 0 <= i < |f.samples| && f.samples[i] == c;
    assert Truthful(f.samples[i], rounds[|rounds| - |f.samples| + i], |rounds| - |f.samples| + i + 1);
  }

  /** With one load generator behind all polls, something is offered exactly when some poll, all before it being
  readable, holds a new sample begun after the opening. */
  lemma OfferedIffHeld(s: Session, polls: seq<Result<File>>, rounds: seq<Round>, seen: seq<nat>, last: nat)
    requires OneHistory(polls, rounds, seen)
    ensures (exists k, c :: s.Offers(polls, last, k, c)) <==> (exists k, c :: Holds(s, polls, last, k, c))
  {
    if k, c :| Holds(s, polls, last, k, c) {
      var k', c' := HeldIsOffered(s, polls, rounds, seen, last, k, c);
    }
    if k, c :| s.Offers(polls, last, k, c) {
      assert Holds(s, polls, last, k, c);
    }
  }

  lemma {:induction false} HeldIsOffered(s: Session, polls: seq<Result<File>>, rounds: seq<Round>, seen: seq<nat>, last: nat, k: nat, c: Sample)
    returns (k': nat, c': Sample)
    requires OneHistory(polls, rounds, seen) && Holds(s, polls, last, k, c)
    ensures s.Offers(polls, last, k', c')
    decreases k
  {
    if j: nat, x :| j < k && x in polls[j].value.samples && x.sequence >= c.sequence {
      var d := EarlierRingHeld(s, polls, rounds, seen, last, k, c, j, x);
      k', c' := HeldIsOffered(s, polls, rounds, seen, last, j, d);
    } else {
      k', c' := k, c;
    }
  }
}

/** A request whose sender has given up is still served when its turn comes. What bounds this is the order of
the socket: whoever hears an answer knows that nothing sent before is left. */
module LateRequests {
  import opened Rules
  import opened Runs
  import opened Journal
  import opened Provider
  import opened ProviderSafety

  /** At most one compare-and-set is under way at any time, whatever was abandoned and retried, and it is next. */
  lemma OneMoveUnderWay(states: seq<Sys>, k: nat, i: nat)
    requires FreshRun(states) && k < |states| && i < |states[k].socket| && states[k].socket[i].Cas?
    ensures i == 0
  {
    FreshRunsKeepInv(states, k);
  }

  /** The provider hears an answer in this step, to a reading or to a compare-and-set. */
  predicate Hears(s: Sys, e: Event) {
    && s.socket != []
    && (|| (e.Answer? && e.heard && s.handler.Reading() && s.asked == Some(s.socket[0].ticket))
        || (e.Serve? && e.reply.Told? && s.handler.Waiting? && s.handler.ticket == s.socket[0].ticket))
  }

  /** When the provider hears an answer, no connection made before is left, served or not. */
  lemma HearingEmptiesSocket(s: Sys, e: Event)
    requires Inv(s) && Enabled(s, e) && Hears(s, e)
    ensures Do(s, e).socket == []
  {
    NewestIsLast(s.socket, s.tickets);
    SocketFrame(s, e);
  }

  /** Nobody calls the provider for this rule, and no other writer touches it. */
  predicate Undisturbed(comm: Comm, e: Event) {
    && (e.Outside? ==> e.comm != comm)
    && (e.Accept? ==> e.prepared.comm != comm)
  }

  ghost predicate UndisturbedNext(comm: Comm, b: Sys, a: Sys) {
    exists e :: Enabled(b, e) && Undisturbed(comm, e) && a == Do(b, e)
  }

  /** The provider is not on the way to a request for this rule. */
  predicate NotSending(comm: Comm, handler: Handler) {
    handler.Called? || handler.Preflight? || handler.Sending? ==> handler.prepared.comm != comm
  }

  /** The request would move this rule if it were served now. */
  predicate Moves(comm: Comm, at: RuleState, r: Request) {
    r.Cas? && r.comm == comm && r.from == at
  }

  /** Nothing under way can move the rule. */
  ghost predicate Settled(comm: Comm, at: RuleState, s: Sys) {
    && NotSending(comm, s.handler) && StateAt(s.rules, comm) == at
    && forall i :: 0 <= i < |s.socket| ==> !Moves(comm, at, s.socket[i]) || comm in s.readOnly
  }

  lemma SettledRule(comm: Comm, s: Sys, e: Event)
    requires Enabled(s, e) && Undisturbed(comm, e)
    requires e.Serve? ==> !Moves(comm, StateAt(s.rules, comm), s.socket[0]) || comm in s.readOnly
    ensures StateAt(Do(s, e).rules, comm) == StateAt(s.rules, comm)
  {
    if !e.Serve? && !e.Outside? {
      RulesFrame(s, e);
    }
  }

  lemma SettledHandler(comm: Comm, s: Sys, e: Event)
    requires NotSending(comm, s.handler) && Enabled(s, e) && Undisturbed(comm, e)
    ensures NotSending(comm, Do(s, e).handler)
  {
  }

  lemma SettledStep(comm: Comm, at: RuleState, s: Sys, e: Event)
    requires Settled(comm, at, s) && Enabled(s, e) && Undisturbed(comm, e)
    ensures Settled(comm, at, Do(s, e))
  {
    SettledRule(comm, s, e);
    SettledHandler(comm, s, e);
    SocketFrame(s, e);
    ReadOnlyFrame(s, e);
  }

  lemma SettledStays(comm: Comm, at: RuleState, states: seq<Sys>, k: nat)
    requires IsRun((b, a) => UndisturbedNext(comm, b, a), states) && k < |states| && Settled(comm, at, states[0])
    ensures StateAt(states[k].rules, comm) == at
  {
    var next := (b: Sys, a: Sys) => UndisturbedNext(comm, b, a);
    var inv := (s: Sys) => Settled(comm, at, s);
    forall b, a | inv(b) && next(b, a) ensures inv(a) {
      var e :| Enabled(b, e) && Undisturbed(comm, e) && a == Do(b, e);
      SettledStep(comm, at, b, e);
    }
    Always(next, inv, states, k);
  }

  lemma SettledRuleStays(comm: Comm, states: seq<Sys>, k: nat)
    requires IsRun((b, a) => UndisturbedNext(comm, b, a), states) && k < |states|
    requires states[0].socket == [] && NotSending(comm, states[0].handler)
    ensures StateAt(states[k].rules, comm) == StateAt(states[0].rules, comm)
  {
    SettledStays(comm, StateAt(states[0].rules, comm), states, k);
  }

  /** From the moment an operation is about to be recorded as completed, its rule, and every other, stays as it
  is until the next call for that rule or the next outside write: through retries of other operations, status
  calls, failed saves and crashes, and however many requests were abandoned before. */
  lemma CompletedRuleStays(before: seq<Sys>, after: seq<Sys>, k: nat, comm: Comm)
    requires FreshRun(before) && before[|before| - 1].handler.Finishing? && after != [] && after[0] == before[|before| - 1]
    requires IsRun((b, a) => UndisturbedNext(comm, b, a), after) && k < |after|
    ensures StateAt(after[k].rules, comm) == StateAt(after[0].rules, comm)
  {
    FreshRunsKeepInv(before, |before| - 1);
    SettledRuleStays(comm, after, k);
  }

  /** More generally, any answer the provider hears, to whatever call, settles every rule it is not about to
  send a request for. A caller who is left in doubt by an error need only get one call answered. */
  lemma AnswerSettles(before: seq<Sys>, e: Event, after: seq<Sys>, k: nat, comm: Comm)
    requires FreshRun(before) && Enabled(before[|before| - 1], e) && Hears(before[|before| - 1], e)
    requires after != [] && after[0] == Do(before[|before| - 1], e) && NotSending(comm, after[0].handler)
    requires IsRun((b, a) => UndisturbedNext(comm, b, a), after) && k < |after|
    ensures StateAt(after[k].rules, comm) == StateAt(after[0].rules, comm)
  {
    FreshRunsKeepInv(before, |before| - 1);
    HearingEmptiesSocket(before[|before| - 1], e);
    SettledRuleStays(comm, after, k);
  }

  /** Some run without calls for the rule or outside writes of it ends with the rule moved. */
  ghost predicate CanMove(comm: Comm, s: Sys) {
    exists t :: Reaches((b, a) => UndisturbedNext(comm, b, a), s, t) && StateAt(t.rules, comm) != StateAt(s.rules, comm)
  }

  lemma ServedNextMoves(comm: Comm, s: Sys)
    requires Inv(s) && s.socket != [] && Moves(comm, StateAt(s.rules, comm), s.socket[0]) && comm !in s.readOnly
    ensures CanMove(comm, s)
  {
    VisibleIsProper(s.disk, s.unsynced);
    assert Proper(s.journal[s.socket[0].id]);
    var next := (b: Sys, a: Sys) => UndisturbedNext(comm, b, a);
    var e := Serve(true, Lost);
    var t := Do(s, e);
    assert Undisturbed(comm, e);
    ReachesSelf(next, s);
    ReachesOneMore(next, s, s, t);
    assert StateAt(t.rules, comm) == s.socket[0].to;
  }

  /** While the provider is free, a rule can still move with nobody asking for it exactly when the oldest
  connection is an abandoned compare-and-set for it that expects its present state. */
  lemma MovesByItselfIff(before: seq<Sys>, comm: Comm)
    requires FreshRun(before) && before[|before| - 1].handler.Idle?
    ensures var s := before[|before| - 1];
            CanMove(comm, s) <==> s.socket != [] && Moves(comm, StateAt(s.rules, comm), s.socket[0]) && comm !in s.readOnly
  {
    FreshRunsKeepInv(before, |before| - 1);
    var s := before[|before| - 1];
    if s.socket != [] && Moves(comm, StateAt(s.rules, comm), s.socket[0]) && comm !in s.readOnly {
      ServedNextMoves(comm, s);
    } else {
      assert Settled(comm, StateAt(s.rules, comm), s);
      forall t | Reaches((b, a) => UndisturbedNext(comm, b, a), s, t) ensures StateAt(t.rules, comm) == StateAt(s.rules, comm) {
        StaysUntil(comm, s, t);
      }
    }
  }

  lemma StaysUntil(comm: Comm, s: Sys, t: Sys)
    requires Settled(comm, StateAt(s.rules, comm), s) && Reaches((b, a) => UndisturbedNext(comm, b, a), s, t)
    ensures StateAt(t.rules, comm) == StateAt(s.rules, comm)
  {
    var states :| IsRun((b, a) => UndisturbedNext(comm, b, a), states) && states[0] == s && states[|states| - 1] == t;
    SettledStays(comm, StateAt(s.rules, comm), states, |states| - 1);
  }

  /** So the doubt that giving up leaves is real: the unserved request of an abandoned call is of that kind. */
  lemma GivingUpLeavesDoubt(before: seq<Sys>, comm: Comm)
    requires FreshRun(before)
    requires var s := before[|before| - 1];
             && s.handler.Waiting? && s.socket != [] && s.socket[0].ticket == s.handler.ticket
             && Moves(comm, StateAt(s.rules, comm), s.socket[0]) && comm !in s.readOnly
    ensures CanMove(comm, Do(before[|before| - 1], GiveUp))
  {
    var s := before[|before| - 1];
    FreshRunsKeepInv(before, |before| - 1);
    StepKeepsInv(s, GiveUp);
    ServedNextMoves(comm, Do(s, GiveUp));
  }
}

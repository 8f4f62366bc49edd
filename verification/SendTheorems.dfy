/** What every run of the send engine guarantees. */
module SendTheorems {
  import opened ErrorPolicies
  import opened SendEngine

  // ---------------------------------------------------------------- conservation and order

  lemma {:induction false} LiveMember(messages: map<Id, Message>, ids: seq<Id>, id: Id)
    ensures id in Live(messages, ids) <==> id in ids && !IsDone(messages, id)
  {
    if ids != [] {
      var n := |ids| - 1;
      LiveMember(messages, ids[..n], id);
      assert ids == ids[..n] + [ids[n]];
    }
  }

  /**
    In every run, the messages not yet done are exactly those still held, each once and in queueing
    order, even while a pass is suspended in a transfer; so when nothing is held, all are done.
   */
  lemma NoMessageLost(c: Config, start: int, steps: seq<Step>)
    requires ValidRun(c, start, steps)
    ensures var s := Final(c, start, steps);
            && Live(s.messages, s.queued) == Live(s.messages, Held(s))
            && (forall id :: id in s.queued && !IsDone(s.messages, id) ==> id in Held(s))
            && (Held(s) == [] ==> forall id :: id in s.queued ==> IsDone(s.messages, id))
  {
    EveryRun(c, start, steps);
    var s := Final(c, start, steps);
    forall id | id in s.queued && !IsDone(s.messages, id) ensures id in Held(s) {
      LiveMember(s.messages, s.queued, id);
      LiveMember(s.messages, Held(s), id);
    }
  }

  /** A message leaves the client's hands only once it is done. */
  lemma LeavesOnlyWhenDone(c: Config, start: int, steps: seq<Step>, step: Step, id: Id)
    requires ValidRun(c, start, steps) && Enabled(Final(c, start, steps), step)
    requires id in Held(Final(c, start, steps))
    ensures var s' := Apply(c, Final(c, start, steps), step); id in Held(s') || IsDone(s'.messages, id)
  {
    EveryRun(c, start, steps);
    HeldIsQueued(Final(c, start, steps), id);
    QueuedForever(c, Final(c, start, steps), step);
    Extend(c, start, steps, step);
    NoMessageLost(c, start, steps + [step]);
  }

  lemma HeldIsQueued(s: State, id: Id)
    requires Structure(s) && id in Held(s)
    ensures id in s.queued
  {
    var i :| 0 <= i < |Held(s)| && Held(s)[i] == id;
    assert id in s.messages;
  }

  lemma QueuedForever(c: Config, s: State, step: Step)
    requires Enabled(s, step)
    ensures s.queued <= Apply(c, s, step).queued
  {
  }

  /** A longer run has queued at least as much. */
  lemma {:induction false} QueuedStays(c: Config, start: int, shorter: seq<Step>, longer: seq<Step>)
    requires ValidRun(c, start, longer) && shorter <= longer
    ensures ValidRun(c, start, shorter)
    ensures Final(c, start, shorter).queued <= Final(c, start, longer).queued
    decreases |longer|
  {
    if |shorter| < |longer| {
      var before := longer[..|longer| - 1];
      QueuedStays(c, start, shorter, before);
      QueuedForever(c, Final(c, start, before), longer[|longer| - 1]);
    } else {
      assert shorter == longer;
    }
  }

  /** Whatever was pending at some point of a run is done once the client rests with nothing pending. */
  lemma SnapshotDone(c: Config, start: int, before: seq<Step>, s: State, after: seq<Step>, s': State, id: Id)
    requires Reaches(c, start, before, s) && Reaches(c, start, after, s') && before <= after
    requires s.pass.Resting? && s'.pass.Resting? && id in s.pending
    ensures id in s'.messages
    ensures s'.pending == [] ==> IsDone(s'.messages, id)
  {
    ReachesRun(c, start, before, s);
    ReachesRun(c, start, after, s');
    EveryRun(c, start, before);
    HeldIsQueued(s, id);
    QueuedStays(c, start, before, after);
    EveryRun(c, start, after);
    NoMessageLost(c, start, after);
  }

  /**
    Between passes a message waits for an ack iff exactly one transfer of it is outstanding, and no
    message ever has two.
   */
  lemma OneTransferPerMessage(c: Config, start: int, steps: seq<Step>, id: Id)
    requires ValidRun(c, start, steps)
    ensures var s := Final(c, start, steps);
            && s.outstanding[id] <= 1
            && (InCall(s) == {} ==>
                  (s.outstanding[id] == 1 <==> id in s.messages && s.messages[id].state.WaitingForSendAck?))
  {
    EveryRun(c, start, steps);
    var s := Final(c, start, steps);
    if id !in s.messages {
      assert id !in s.outstanding;
    }
  }

  /** on_send_complete runs at the very step that makes a message done, once, and at no other step. */
  lemma NotifiedWhenDone(c: Config, start: int, steps: seq<Step>, step: Step)
    requires ValidRun(c, start, steps) && Enabled(Final(c, start, steps), step)
    ensures var s := Final(c, start, steps);
            var s' := Apply(c, s, step);
            || (s'.notified == s.notified && forall id :: IsDone(s'.messages, id) <==> IsDone(s.messages, id))
            || (exists done :: && s'.notified == s.notified + [done]
                               && !IsDone(s.messages, done)
                               && forall id :: IsDone(s'.messages, id) <==> IsDone(s.messages, id) || id == done)
  {
    EveryRun(c, start, steps);
    var s := Final(c, start, steps);
    var s' := Apply(c, s, step);
    StepKeeps(c, s, step);
    NotifiedGrows(c, s, step);
    if s'.notified == s.notified {
      forall id ensures IsDone(s'.messages, id) <==> IsDone(s.messages, id) {
        assert multiset(s'.notified)[id] == multiset(s.notified)[id];
      }
    } else {
      NewlyDone(s.messages, s.notified, s'.messages, s'.notified[|s.notified|]);
    }
  }

  lemma NotifiedGrows(c: Config, s: State, step: Step)
    requires Enabled(s, step)
    ensures var s' := Apply(c, s, step);
            || s'.notified == s.notified
            || (|s'.notified| == |s.notified| + 1 && s'.notified == s.notified + [s'.notified[|s.notified|]])
  {
  }

  lemma NewlyDone(before: map<Id, Message>, notified: seq<Id>, after: map<Id, Message>, done: Id)
    requires NotifiedOnce(before, notified) && NotifiedOnce(after, notified + [done])
    ensures !IsDone(before, done)
    ensures forall id :: IsDone(after, id) <==> IsDone(before, id) || id == done
  {
    assert multiset(notified + [done]) == multiset(notified) + multiset{done};
    assert multiset(notified + [done])[done] == multiset(notified)[done] + 1;
    forall id ensures IsDone(after, id) <==> IsDone(before, id) || id == done {
      assert multiset(notified + [done])[id] == multiset(notified)[id] + if id == done then 1 else 0;
    }
  }

  // ---------------------------------------------------------------- what the final states mean

  /** The step in which the sender reports that the message went out, or that it was cancelled. */
  predicate Confirms(step: Step, id: Id) {
    step.Complete? && step.id == id && (step.result.Ok? || step.result.Cancelled?)
  }

  predicate InState(messages: map<Id, Message>, id: Id, state: MessageState) {
    id in messages && messages[id].state == state
  }

  /** What a step does to one message. */
  function MessageAfter(c: Config, s: State, step: Step, id: Id): Message
    requires Enabled(s, step) && id in s.messages
  {
    var m := s.messages[id];
    match step
    case Visit =>
      if s.pending[s.pass.index] != id || !m.state.WaitingToBeSent? then m
      else m.(state := if MsgTimeout(c, s.now, m.idleTime).Expired? then SendFailed else WaitingForSendAck)
    case Refuse => if s.pending[s.pass.index] == id then Settle(c.policy, m, Error(ClientException)).0 else m
    case Complete(done, result) => if done == id then Settle(c.policy, m, result).0 else m
    case _ => m
  }

  lemma StepOnMessage(c: Config, s: State, step: Step, id: Id)
    requires Enabled(s, step)
    ensures var messages' := Apply(c, s, step).messages;
            if id in s.messages then id in messages' && messages'[id] == MessageAfter(c, s, step, id)
            else id in messages' ==> messages'[id].state.WaitingToBeSent?
  {
    if step.Visit? {
      VisitOnMessage(c, s, id);
    }
  }

  lemma VisitOnMessage(c: Config, s: State, id: Id)
    requires Enabled(s, Visit)
    ensures id in VisitMessage(c, s).messages <==> id in s.messages
    ensures id in s.messages ==> VisitMessage(c, s).messages[id] == MessageAfter(c, s, Visit, id)
  {
  }

  /** A message is settled only while it waits for an ack. */
  lemma SettledInFlight(s: State, step: Step)
    requires Consistent(s) && Enabled(s, step) && (step.Complete? || step.Refuse?)
    ensures InState(s.messages, if step.Complete? then step.id else s.pending[s.pass.index], WaitingForSendAck)
  {
    if step.Complete? {
      assert s.outstanding[step.id] > 0;
    }
  }

  lemma CompleteStepIff(c: Config, s: State, step: Step, id: Id)
    requires Enabled(s, step)
    requires step.Complete? || step.Refuse? ==>
               InState(s.messages, if step.Complete? then step.id else s.pending[s.pass.index], WaitingForSendAck)
    ensures InState(Apply(c, s, step).messages, id, SendComplete) <==>
            InState(s.messages, id, SendComplete) || Confirms(step, id)
  {
    StepOnMessage(c, s, step, id);
  }

  predicate Confirmed(steps: seq<Step>, id: Id) {
    exists i :: 0 <= i < |steps| && Confirms(steps[i], id)
  }

  lemma ConfirmedSnoc(steps: seq<Step>, step: Step, id: Id)
    ensures Confirmed(steps + [step], id) <==> Confirmed(steps, id) || Confirms(step, id)
  {
    var longer := steps + [step];
    assert longer[|steps|] == step;
    assert forall i :: 0 <= i < |steps| ==> longer[i] == steps[i];
  }

  lemma CompleteRunStep(c: Config, start: int, steps: seq<Step>, step: Step, id: Id)
    requires ValidRun(c, start, steps) && Enabled(Final(c, start, steps), step)
    ensures var s := Final(c, start, steps);
            InState(Apply(c, s, step).messages, id, SendComplete) <==>
            InState(s.messages, id, SendComplete) || Confirms(step, id)
  {
    if step.Complete? || step.Refuse? {
      EveryRun(c, start, steps);
      SettledInFlight(Final(c, start, steps), step);
    }
    CompleteStepIff(c, Final(c, start, steps), step, id);
  }

  /** In every run a message is SendComplete if and only if the sender confirmed or cancelled a transfer of it. */
  lemma {:induction false} CompleteIffConfirmed(c: Config, start: int, steps: seq<Step>, id: Id)
    requires ValidRun(c, start, steps)
    ensures InState(Final(c, start, steps).messages, id, SendComplete) <==> Confirmed(steps, id)
  {
    if steps != [] {
      var before, step := steps[..|steps| - 1], steps[|steps| - 1];
      CompleteIffConfirmed(c, start, before, id);
      CompleteRunStep(c, start, before, step, id);
      ConfirmedSnoc(before, step, id);
      assert before + [step] == steps;
    }
  }

  /** Why a step fails a message: it is late, its transfer timed out, or an error that is final or has no retry left. */
  predicate Condemns(c: Config, s: State, step: Step, id: Id)
    requires id in s.messages && Enabled(s, step)
  {
    var m := s.messages[id];
    match step
    case Visit =>
      s.pending[s.pass.index] == id && m.state.WaitingToBeSent?
      && c.msgTimeout > 0 && s.now > m.idleTime + c.msgTimeout
    case Refuse => s.pending[s.pass.index] == id && m.retries >= c.policy.maxRetries
    case Complete(done, Timeout) => done == id
    case Complete(done, Error(delivery)) =>
      done == id && (!c.policy.ActionFor(delivery).retry || m.retries >= c.policy.maxRetries)
    case _ => false
  }

  /** Some step of the run condemned the message. */
  ghost predicate CondemnedIn(c: Config, start: int, steps: seq<Step>, id: Id)
    requires ValidRun(c, start, steps)
  {
    steps != [] &&
    var before := steps[..|steps| - 1];
    var s := Final(c, start, before);
    CondemnedIn(c, start, before, id) || (id in s.messages && Condemns(c, s, steps[|steps| - 1], id))
  }

  lemma FailedStepIff(c: Config, s: State, step: Step, id: Id)
    requires Enabled(s, step)
    requires step.Complete? || step.Refuse? ==>
               InState(s.messages, if step.Complete? then step.id else s.pending[s.pass.index], WaitingForSendAck)
    ensures InState(Apply(c, s, step).messages, id, SendFailed) <==>
            InState(s.messages, id, SendFailed) || (id in s.messages && Condemns(c, s, step, id))
  {
    StepOnMessage(c, s, step, id);
  }

  lemma FailedRunStep(c: Config, start: int, steps: seq<Step>, step: Step, id: Id)
    requires ValidRun(c, start, steps) && Enabled(Final(c, start, steps), step)
    ensures var s := Final(c, start, steps);
            InState(Apply(c, s, step).messages, id, SendFailed) <==>
            InState(s.messages, id, SendFailed) || (id in s.messages && Condemns(c, s, step, id))
  {
    if step.Complete? || step.Refuse? {
      EveryRun(c, start, steps);
      SettledInFlight(Final(c, start, steps), step);
    }
    FailedStepIff(c, Final(c, start, steps), step, id);
  }

  /** In every run a message is SendFailed if and only if some step found one of those reasons. */
  lemma {:induction false} FailedIffCondemned(c: Config, start: int, steps: seq<Step>, id: Id)
    requires ValidRun(c, start, steps)
    ensures InState(Final(c, start, steps).messages, id, SendFailed) <==> CondemnedIn(c, start, steps, id)
  {
    if steps != [] {
      FailedIffCondemned(c, start, steps[..|steps| - 1], id);
      FailedRunStep(c, start, steps[..|steps| - 1], steps[|steps| - 1], id);
    }
  }

  // ---------------------------------------------------------------- deadlines

  /** The transfer's timeout ends at the message's deadline; without a timeout configured it is zero. */
  predicate OnDeadline(c: Config, messages: map<Id, Message>, a: Attempt) {
    && a.id in messages
    && if c.msgTimeout > 0
       then a.timeout >= 0 && a.time + a.timeout == messages[a.id].idleTime + c.msgTimeout
       else a.timeout == 0
  }

  lemma IdleTimeKept(c: Config, s: State, step: Step, id: Id)
    requires Enabled(s, step) && id in s.messages
    ensures id in Apply(c, s, step).messages
    ensures Apply(c, s, step).messages[id].idleTime == s.messages[id].idleTime
  {
  }

  /** A step makes at most one attempt, and on the deadline. */
  lemma NewAttempt(c: Config, s: State, step: Step)
    requires Enabled(s, step)
    ensures var s' := Apply(c, s, step);
            || s'.attempts == s.attempts
            || (|s'.attempts| == |s.attempts| + 1 && s'.attempts[..|s.attempts|] == s.attempts
                && OnDeadline(c, s'.messages, s'.attempts[|s.attempts|]))
  {
    if step.Visit? {
      assert s.messages[s.pending[s.pass.index]].state.WaitingToBeSent? || VisitMessage(c, s).attempts == s.attempts;
    }
  }

  /**
    With a positive timeout every transfer, retries included, carries a timeout that ends at the same
    absolute deadline, and it is zero (which the sender takes as no expiry) exactly at the deadline.
   */
  lemma {:induction false} SameDeadline(c: Config, start: int, steps: seq<Step>, i: nat)
    requires ValidRun(c, start, steps) && i < |Final(c, start, steps).attempts|
    ensures var s := Final(c, start, steps);
            var a := s.attempts[i];
            && OnDeadline(c, s.messages, a)
            && (a.timeout == 0 <==> c.msgTimeout <= 0 || a.time == s.messages[a.id].idleTime + c.msgTimeout)
  {
    if steps != [] {
      var before, step := steps[..|steps| - 1], steps[|steps| - 1];
      var s := Final(c, start, before);
      NewAttempt(c, s, step);
      if i < |s.attempts| {
        SameDeadline(c, start, before, i);
        IdleTimeKept(c, s, step, s.attempts[i].id);
        assert Apply(c, s, step).attempts[..|s.attempts|][i] == s.attempts[i];
      }
    }
  }

  /** A message first visited exactly at its deadline is handed over with a timeout of zero. */
  lemma ZeroAtDeadline(c: Config) returns (steps: seq<Step>)
    requires c.msgTimeout > 0
    ensures ValidRun(c, 0, steps) && Final(c, 0, steps).attempts == [Attempt(0, c.msgTimeout, 0)]
  {
    Extend(c, 0, [], Queue(0));
    steps := ExtendTwice(c, 0, [] + [Queue(0)], Tick(c.msgTimeout), BeginPass);
    Extend(c, 0, steps, Visit);
    steps := steps + [Visit];
  }

  // ---------------------------------------------------------------- attempts and retries

  function AttemptsOf(attempts: seq<Attempt>, id: Id): nat {
    if attempts == [] then 0
    else AttemptsOf(attempts[..|attempts| - 1], id) + if attempts[|attempts| - 1].id == id then 1 else 0
  }

  lemma AttemptsSnoc(attempts: seq<Attempt>, a: Attempt, id: Id)
    ensures AttemptsOf(attempts + [a], id) == AttemptsOf(attempts, id) + if a.id == id then 1 else 0
  {
    assert (attempts + [a])[..|attempts|] == attempts;
  }

  /** A policy under which the retry counter bounds the attempts. */
  ghost predicate Charging(c: Config) {
    c.policy.maxRetries <= 0 || c.policy.ChargesRetries()
  }

  /** The retry counter tells exactly how often the message has been handed over, except that a late one fails unsent. */
  predicate Charged(c: Config, messages: map<Id, Message>, attempts: seq<Attempt>, id: Id) {
    var n := AttemptsOf(attempts, id);
    if id !in messages then n == 0
    else
      var m := messages[id];
      && m.retries <= c.policy.Budget()
      && match m.state
         case WaitingToBeSent => n == m.retries
         case WaitingForSendAck => n == m.retries + 1
         case SendComplete => n == m.retries + 1
         case SendFailed => n == m.retries + 1 || (n == m.retries && c.msgTimeout > 0)
  }

  lemma ChargedKept(c: Config, s: State, step: Step, id: Id)
    requires Charging(c) && Consistent(s) && Enabled(s, step)
    requires Charged(c, s.messages, s.attempts, id)
    ensures Charged(c, Apply(c, s, step).messages, Apply(c, s, step).attempts, id)
  {
    match step {
      case Visit => VisitCharged(c, s, id);
      case Complete(done, result) =>
        assert s.outstanding[done] > 0;
        SettleCharged(c, s.messages, s.attempts, done, result, id);
      case Refuse => SettleCharged(c, s.messages, s.attempts, s.pending[s.pass.index], Error(ClientException), id);
      case _ =>
    }
  }

  /** A retry raises the counter by one; any other settlement leaves the message done. */
  lemma SettleCharged(c: Config, messages: map<Id, Message>, attempts: seq<Attempt>, settled: Id, result: SendResult, id: Id)
    requires Charging(c) && Charged(c, messages, attempts, id)
    requires settled in messages && messages[settled].state.WaitingForSendAck?
    ensures Charged(c, messages[settled := Settle(c.policy, messages[settled], result).0], attempts, id)
  {
  }

  lemma VisitCharged(c: Config, s: State, id: Id)
    requires Enabled(s, Visit) && Charged(c, s.messages, s.attempts, id)
    ensures Charged(c, VisitMessage(c, s).messages, VisitMessage(c, s).attempts, id)
  {
    var visited := s.pending[s.pass.index];
    var m := s.messages[visited];
    if m.state.WaitingToBeSent? {
      var deadline := MsgTimeout(c, s.now, m.idleTime);
      if deadline.In? {
        AttemptsSnoc(s.attempts, Attempt(visited, s.now, deadline.timeout), id);
      } else {
        assert VisitMessage(c, s).attempts == s.attempts;
      }
    } else {
      assert VisitMessage(c, s).messages == s.messages && VisitMessage(c, s).attempts == s.attempts;
    }
  }

  lemma {:induction false} ChargedAlways(c: Config, start: int, steps: seq<Step>, id: Id)
    requires ValidRun(c, start, steps) && Charging(c)
    ensures var s := Final(c, start, steps); Charged(c, s.messages, s.attempts, id)
  {
    if steps != [] {
      var before := steps[..|steps| - 1];
      ChargedAlways(c, start, before, id);
      EveryRun(c, start, before);
      ChargedKept(c, Final(c, start, before), steps[|steps| - 1], id);
    }
  }

  /** In every run, no message is handed to the sender more than once plus the retry budget. */
  ghost predicate AttemptsBounded(c: Config) {
    forall start, steps, id :: ValidRun(c, start, steps) ==>
      AttemptsOf(Final(c, start, steps).attempts, id) <= 1 + c.policy.Budget()
  }

  /** A hook that grants a retry without charging it, under a policy that retries at all. */
  predicate RetriesForFree(c: Config, name: string) {
    && c.policy.maxRetries > 0
    && c.policy.onError.Hook?
    && c.policy.onError.judge(name).retry
    && !c.policy.onError.judge(name).incrementRetries
  }

  /** One message waiting to be sent, never charged a retry. */
  predicate Waiting(s: State, start: int) {
    && s.messages == map[0 := Message(WaitingToBeSent, 0, start)]
    && s.pending == [0]
    && s.pass.Resting?
    && s.outstanding == multiset{}
    && s.now == start
  }

  /** The same message, inside the transfer call. */
  predicate Calling(s: State, start: int) {
    && s.messages == map[0 := Message(WaitingForSendAck, 0, start)]
    && s.pending == [0]
    && s.pass == Sending([], 0, false)
    && s.outstanding == multiset{}
    && s.now == start
  }

  lemma CallSender(c: Config, s: State, start: int)
    requires Waiting(s, start)
    ensures Enabled(s, BeginPass) && Enabled(Apply(c, s, BeginPass), Visit)
    ensures var s' := Apply(c, Apply(c, s, BeginPass), Visit);
            Calling(s', start) && AttemptsOf(s'.attempts, 0) == AttemptsOf(s.attempts, 0) + 1
  {
    var s1 := Apply(c, s, BeginPass);
    var timeout := if c.msgTimeout > 0 then c.msgTimeout else 0;
    assert MsgTimeout(c, start, start) == In(timeout);
    var s2 := VisitMessage(c, s1);
    assert s2.pass == Sending([], 0, false) && s2.attempts == s.attempts + [Attempt(0, start, timeout)];
    AttemptsSnoc(s.attempts, Attempt(0, start, timeout), 0);
  }

  lemma FreeRefusal(c: Config, s: State, start: int, name: string)
    requires Calling(s, start) && RetriesForFree(c, name)
    ensures Enabled(s, Accept) && Enabled(Apply(c, s, Accept), Resume)
    ensures var s1 := Apply(c, Apply(c, s, Accept), Resume);
            && Enabled(s1, EndPass)
            && var s2 := Apply(c, s1, EndPass);
               var refusal := Complete(0, Error(Response(Unrecognized(name))));
               && Enabled(s2, refusal)
               && Waiting(Apply(c, s2, refusal), start)
               && Apply(c, s2, refusal).attempts == s.attempts
  {
    var s1 := Apply(c, Apply(c, s, Accept), Resume);
    assert s1.pass == Filtering([0], 1);
    assert s1.outstanding - multiset{0} == multiset{};
  }

  /** An iteration that ends with the message waiting again. */
  function FreeSteps(name: string): seq<Step> {
    [BeginPass, Visit] + [Accept, Resume] + [EndPass, Complete(0, Error(Response(Unrecognized(name))))]
  }

  lemma FreeRound(c: Config, start: int, steps: seq<Step>, name: string) returns (longer: seq<Step>)
    requires ValidRun(c, start, steps) && Waiting(Final(c, start, steps), start) && RetriesForFree(c, name)
    ensures longer == steps + FreeSteps(name)
    ensures ValidRun(c, start, longer) && Waiting(Final(c, start, longer), start)
    ensures AttemptsOf(Final(c, start, longer).attempts, 0) == AttemptsOf(Final(c, start, steps).attempts, 0) + 1
  {
    CallSender(c, Final(c, start, steps), start);
    longer := ExtendTwice(c, start, steps, BeginPass, Visit);
    FreeRefusal(c, Final(c, start, longer), start, name);
    longer := ExtendTwice(c, start, longer, Accept, Resume);
    longer := ExtendTwice(c, start, longer, EndPass, Complete(0, Error(Response(Unrecognized(name)))));
    Regrouped(steps, [BeginPass, Visit], [Accept, Resume], [EndPass, Complete(0, Error(Response(Unrecognized(name))))]);
  }

  lemma Regrouped(a: seq<Step>, b: seq<Step>, c: seq<Step>, d: seq<Step>)
    ensures a + b + c + d == a + (b + c + d)
  {
  }

  lemma ExtendTwice(c: Config, start: int, steps: seq<Step>, first: Step, second: Step) returns (longer: seq<Step>)
    requires ValidRun(c, start, steps) && Enabled(Final(c, start, steps), first)
    requires Enabled(Apply(c, Final(c, start, steps), first), second)
    ensures longer == steps + [first, second]
    ensures ValidRun(c, start, longer)
    ensures Final(c, start, longer) == Apply(c, Apply(c, Final(c, start, steps), first), second)
  {
    Extend(c, start, steps, first);
    Extend(c, start, steps + [first], second);
    longer := steps + [first] + [second];
    assert longer == steps + [first, second];
  }

  lemma {:induction false} FreeRounds(c: Config, start: int, name: string, rounds: nat) returns (steps: seq<Step>)
    requires RetriesForFree(c, name)
    ensures ValidRun(c, start, steps) && Waiting(Final(c, start, steps), start)
    ensures AttemptsOf(Final(c, start, steps).attempts, 0) == rounds
  {
    if rounds == 0 {
      Extend(c, start, [], Queue(0));
      steps := [] + [Queue(0)];
    } else {
      var shorter := FreeRounds(c, start, name, rounds - 1);
      steps := FreeRound(c, start, shorter, name);
    }
  }

  /**
    Each message is attempted at most once plus the retry budget in every run, if and only if the
    policy never retries or charges every retry it grants; the default policy does.
   */
  lemma AttemptsBoundedIffCharging(c: Config)
    ensures AttemptsBounded(c) <==> Charging(c)
    ensures c.policy.onError.NoHook? ==> AttemptsBounded(c)
  {
    if Charging(c) {
      forall start, steps, id | ValidRun(c, start, steps)
        ensures AttemptsOf(Final(c, start, steps).attempts, id) <= 1 + c.policy.Budget()
      {
        ChargedAlways(c, start, steps, id);
      }
    } else {
      var name :| c.policy.onError.judge(name).retry && !c.policy.onError.judge(name).incrementRetries;
      var steps := FreeRounds(c, 0, name, c.policy.Budget() + 2);
      assert AttemptsOf(Final(c, 0, steps).attempts, 0) > 1 + c.policy.Budget();
    }
  }

  // ---------------------------------------------------------------- a potential for the whole run

  /** How many more outcomes a message can still have. */
  function Remaining(c: Config, m: Message): nat {
    if m.state.Done() then 0
    else if m.retries <= c.policy.Budget() then 1 + c.policy.Budget() - m.retries else 1
  }

  function Potential(c: Config, messages: map<Id, Message>, ids: seq<Id>): nat {
    if ids == [] then 0
    else
      var last := ids[|ids| - 1];
      Potential(c, messages, ids[..|ids| - 1]) + if last in messages then Remaining(c, messages[last]) else 0
  }

  lemma {:induction false} PotentialUpdate(c: Config, messages: map<Id, Message>, ids: seq<Id>, id: Id, m: Message)
    requires Distinct(ids)
    ensures Potential(c, messages[id := m], ids) ==
            Potential(c, messages, ids)
            + if id in ids then Remaining(c, m) - (if id in messages then Remaining(c, messages[id]) else 0) else 0
  {
    if ids != [] {
      var n := |ids| - 1;
      PotentialUpdate(c, messages, ids[..n], id, m);
      assert ids == ids[..n] + [ids[n]];
    }
  }

  /** Completions and refused transfers. */
  function Outcomes(steps: seq<Step>): nat {
    if steps == [] then 0
    else
      var last := steps[|steps| - 1];
      Outcomes(steps[..|steps| - 1]) + if last.Complete? || last.Refuse? then 1 else 0
  }

  ghost predicate RetriesInBudget(c: Config, messages: map<Id, Message>) {
    forall id :: id in messages ==> messages[id].retries <= c.policy.Budget()
  }

  /** Every settlement of a message in flight uses up at least one of its outcomes. */
  lemma SettleSpends(c: Config, m: Message, result: SendResult)
    requires Charging(c) && m.state.WaitingForSendAck? && m.retries <= c.policy.Budget()
    ensures Remaining(c, Settle(c.policy, m, result).0) + 1 <= Remaining(c, m)
  {
  }

  lemma SettlePotential(c: Config, messages: map<Id, Message>, queued: seq<Id>, id: Id, result: SendResult)
    requires Charging(c) && QueuedOnce(messages.Keys, queued) && RetriesInBudget(c, messages)
    requires id in messages && messages[id].state.WaitingForSendAck?
    ensures Potential(c, messages[id := Settle(c.policy, messages[id], result).0], queued) + 1 <= Potential(c, messages, queued)
  {
    SettleSpends(c, messages[id], result);
    PotentialUpdate(c, messages, queued, id, Settle(c.policy, messages[id], result).0);
  }

  lemma VisitPotential(c: Config, s: State)
    requires Consistent(s) && Enabled(s, Visit)
    ensures Potential(c, VisitMessage(c, s).messages, s.queued) <= Potential(c, s.messages, s.queued)
  {
    var id := s.pending[s.pass.index];
    var m := s.messages[id];
    if m.state.WaitingToBeSent? {
      if MsgTimeout(c, s.now, m.idleTime).Expired? {
        PotentialUpdate(c, s.messages, s.queued, id, m.(state := SendFailed));
        assert VisitMessage(c, s).messages == s.messages[id := m.(state := SendFailed)];
      } else {
        PotentialUpdate(c, s.messages, s.queued, id, m.(state := WaitingForSendAck));
      }
    }
  }

  lemma QueuePotential(c: Config, messages: map<Id, Message>, queued: seq<Id>, id: Id, now: int)
    requires QueuedOnce(messages.Keys, queued) && id !in messages
    ensures Potential(c, messages[id := Message(WaitingToBeSent, 0, now)], queued + [id])
            == Potential(c, messages, queued) + 1 + c.policy.Budget()
  {
    PotentialUpdate(c, messages, queued, id, Message(WaitingToBeSent, 0, now));
    assert (queued + [id])[..|queued|] == queued;
    assert id !in queued;
  }

  lemma PotentialStep(c: Config, s: State, step: Step)
    requires Charging(c) && Consistent(s) && RetriesInBudget(c, s.messages) && Enabled(s, step)
    ensures var s' := Apply(c, s, step);
            && Potential(c, s'.messages, s'.queued) + (if step.Complete? || step.Refuse? then 1 else 0)
               <= Potential(c, s.messages, s.queued) + (if step.Queue? then 1 + c.policy.Budget() else 0)
            && |s'.queued| == |s.queued| + if step.Queue? then 1 else 0
  {
    match step {
      case Queue(id) => QueuePotential(c, s.messages, s.queued, id, s.now);
      case Complete(id, result) =>
        assert s.outstanding[id] > 0;
        SettlePotential(c, s.messages, s.queued, id, result);
      case Refuse => SettlePotential(c, s.messages, s.queued, s.pending[s.pass.index], Error(ClientException));
      case Visit => VisitPotential(c, s);
      case _ =>
    }
  }

  /**
    Outcomes already seen plus outcomes still possible never exceed the retry budget of the messages
    queued: the potential strictly falls at every completion and at every refused transfer, so a run
    holds boundedly many of them.
   */
  lemma {:induction false} OutcomesBounded(c: Config, start: int, steps: seq<Step>)
    requires ValidRun(c, start, steps) && Charging(c)
    ensures var s := Final(c, start, steps);
            Outcomes(steps) + Potential(c, s.messages, s.queued) <= |s.queued| * (1 + c.policy.Budget())
  {
    if steps != [] {
      var before, step := steps[..|steps| - 1], steps[|steps| - 1];
      var s := Final(c, start, before);
      OutcomesBounded(c, start, before);
      EveryRun(c, start, before);
      forall id | id in s.messages ensures s.messages[id].retries <= c.policy.Budget() {
        ChargedAlways(c, start, before, id);
      }
      PotentialStep(c, s, step);
      BudgetGrows(|s.queued|, 1 + c.policy.Budget());
    }
  }

  lemma BudgetGrows(n: nat, budget: nat)
    ensures (n + 1) * budget == n * budget + budget
  {
  }
}

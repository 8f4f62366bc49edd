/** What the counters of the send engine count, exactly, over every run. */
module SendCounts {
  import opened ErrorPolicies
  import opened SendEngine
  import opened SendTheorems

  // ---------------------------------------------------------------- retries and attempts

  /** The step sends the message back to the queue after a failure that the action charges or not. */
  predicate Grants(c: Config, s: State, step: Step, id: Id, charged: bool)
    requires Enabled(s, step)
  {
    && id in s.messages && s.messages[id].retries < c.policy.maxRetries
    && match step
       case Refuse => s.pending[s.pass.index] == id && charged
       case Complete(done, Error(delivery)) =>
         done == id && c.policy.ActionFor(delivery).retry && c.policy.ActionFor(delivery).incrementRetries == charged
       case _ => false
  }

  /** How many such steps the run holds. */
  ghost function Granted(c: Config, start: int, steps: seq<Step>, id: Id, charged: bool): nat
    requires ValidRun(c, start, steps)
  {
    if steps == [] then 0
    else
      var before := steps[..|steps| - 1];
      Granted(c, start, before, id, charged)
      + if Grants(c, Final(c, start, before), steps[|steps| - 1], id, charged) then 1 else 0
  }

  /** Each charged retry adds one to the counter, and nothing else changes it. */
  lemma RetriesStep(c: Config, s: State, step: Step, id: Id)
    requires Enabled(s, step) && id in s.messages
    ensures MessageAfter(c, s, step, id).retries == s.messages[id].retries + if Grants(c, s, step, id, true) then 1 else 0
  {
  }

  lemma NewMessageUncharged(c: Config, s: State, step: Step, id: Id)
    requires Enabled(s, step) && id !in s.messages && id in Apply(c, s, step).messages
    ensures Apply(c, s, step).messages[id] == Message(WaitingToBeSent, 0, s.now) && step == Queue(id)
  {
    if step.Visit? {
      VisitOnMessage(c, s, id);
    }
  }

  /** In every run, under any policy, the retry counter of a message is the number of retries charged to it. */
  lemma {:induction false} RetriesCounted(c: Config, start: int, steps: seq<Step>, id: Id)
    requires ValidRun(c, start, steps)
    ensures var s := Final(c, start, steps);
            Granted(c, start, steps, id, true) == if id in s.messages then s.messages[id].retries else 0
  {
    if steps != [] {
      var before, step := steps[..|steps| - 1], steps[|steps| - 1];
      var s := Final(c, start, before);
      RetriesCounted(c, start, before, id);
      StepOnMessage(c, s, step, id);
      if id in s.messages {
        RetriesStep(c, s, step, id);
      } else if id in Apply(c, s, step).messages {
        NewMessageUncharged(c, s, step, id);
      }
    }
  }

  /**
    Under a policy that charges its retries, a message that an error fails although the policy would
    retry it has been handed over exactly once plus the retry budget.
   */
  lemma ExhaustedAfterAll(c: Config, start: int, steps: seq<Step>, step: Step, id: Id)
    requires ValidRun(c, start, steps) && Enabled(Final(c, start, steps), step) && Charging(c)
    requires step.Refuse? || (step.Complete? && step.result.Error? && c.policy.ActionFor(step.result.delivery).retry)
    requires id == if step.Refuse? then Final(c, start, steps).pending[Final(c, start, steps).pass.index] else step.id
    ensures var s' := Apply(c, Final(c, start, steps), step);
            && id in s'.messages
            && (s'.messages[id].state.SendFailed? <==> AttemptsOf(s'.attempts, id) == 1 + c.policy.Budget())
            && (s'.messages[id].state.WaitingToBeSent? <==> AttemptsOf(s'.attempts, id) < 1 + c.policy.Budget())
  {
    var s := Final(c, start, steps);
    EveryRun(c, start, steps);
    SettledInFlight(s, step);
    ChargedAlways(c, start, steps, id);
    StepOnMessage(c, s, step, id);
  }

  // ---------------------------------------------------------------- which failures are retried

  /** The conditions that are worth another attempt. */
  const TRANSIENT: set<ErrorCode> := {
    InternalServerError, ResourceLocked, ConnectionCloseForced, LinkDetachForced, LinkTransferLimitExceeded,
    ClientError, UnknownError, VendorError
  }

  /** A failed delivery is worth another attempt, by what is known of it. */
  predicate WorthRetrying(policy: ErrorPolicy, delivery: Delivery) {
    match delivery
    case ClientException => true
    case Missing => true
    case Response(Known(code)) => code in TRANSIENT
    case Response(Unrecognized(name)) => policy.onError.Hook? ==> policy.onError.judge(name).retry
  }

  /**
    In every run, an error takes a message back to the queue if and only if it is worth another attempt
    and the message has retries left; otherwise the message fails.
   */
  lemma RetriedIff(c: Config, start: int, steps: seq<Step>, id: Id, delivery: Delivery)
    requires ValidRun(c, start, steps) && Enabled(Final(c, start, steps), Complete(id, Error(delivery)))
    ensures var s := Final(c, start, steps);
            var s' := Apply(c, s, Complete(id, Error(delivery)));
            if WorthRetrying(c.policy, delivery) && s.messages[id].retries < c.policy.maxRetries
            then InState(s'.messages, id, WaitingToBeSent) else InState(s'.messages, id, SendFailed)
  {
    if delivery.Response? && delivery.condition.Known? {
      TransientIsTheRest(delivery.condition.code);
    }
  }

  lemma TransientIsTheRest(code: ErrorCode)
    ensures code in TRANSIENT <==> code !in NO_RETRY
  {
  }

  // ---------------------------------------------------------------- backoff

  /** The step sets the backoff: a retry to what its action says, the sleep to zero. */
  predicate SetsBackoff(c: Config, s: State, step: Step, backoff: int)
    requires Enabled(s, step)
  {
    match step
    case Backoff => backoff == 0
    case Refuse => s.messages[s.pending[s.pass.index]].retries < c.policy.maxRetries && backoff == 0
    case Complete(id, Error(delivery)) =>
      && s.messages[id].retries < c.policy.maxRetries
      && c.policy.ActionFor(delivery).retry && backoff == c.policy.ActionFor(delivery).backoff
    case _ => false
  }

  lemma BackoffStep(c: Config, s: State, step: Step)
    requires Enabled(s, step)
    ensures SetsBackoff(c, s, step, Apply(c, s, step).backoff) || Apply(c, s, step).backoff == s.backoff
    ensures forall backoff :: SetsBackoff(c, s, step, backoff) ==> Apply(c, s, step).backoff == backoff
  {
  }

  /** The i-th step of the run sets the backoff to this value, and no later step sets it. */
  ghost predicate LastSet(c: Config, start: int, steps: seq<Step>, i: nat, backoff: int)
    requires ValidRun(c, start, steps) && i < |steps|
    decreases |steps|
  {
    var n := |steps| - 1;
    var s := Final(c, start, steps[..n]);
    if i == n then SetsBackoff(c, s, steps[n], backoff)
    else (forall other :: !SetsBackoff(c, s, steps[n], other)) && LastSet(c, start, steps[..n], i, backoff)
  }

  /** In every run the backoff is the one set last, by a retry or by a sleep, and zero if none was set. */
  lemma {:induction false} BackoffIsLastSet(c: Config, start: int, steps: seq<Step>)
    requires ValidRun(c, start, steps)
    ensures var backoff := Final(c, start, steps).backoff;
            backoff == 0 || exists i :: 0 <= i < |steps| && LastSet(c, start, steps, i, backoff)
    ensures forall i, backoff :: 0 <= i < |steps| && LastSet(c, start, steps, i, backoff) ==>
              Final(c, start, steps).backoff == backoff
  {
    if steps != [] {
      var n := |steps| - 1;
      var s := Final(c, start, steps[..n]);
      BackoffIsLastSet(c, start, steps[..n]);
      BackoffStep(c, s, steps[n]);
      var backoff := Final(c, start, steps).backoff;
      if SetsBackoff(c, s, steps[n], backoff) {
        assert LastSet(c, start, steps, n, backoff);
      } else if backoff != 0 {
        var i :| 0 <= i < n && LastSet(c, start, steps[..n], i, backoff);
        assert LastSet(c, start, steps, i, backoff);
      }
    }
  }

  // ---------------------------------------------------------------- waiting messages

  /** The step visits a message that is in flight. */
  predicate MeetsInFlight(s: State, step: Step) {
    && step.Visit? && Enabled(s, step)
    && s.messages[s.pending[s.pass.index]].state.WaitingForSendAck?
  }

  /** The last pass has met a message in flight. */
  ghost predicate Met(c: Config, start: int, steps: seq<Step>)
    requires ValidRun(c, start, steps)
  {
    steps != [] &&
    var before := steps[..|steps| - 1];
    steps[|steps| - 1] != BeginPass &&
    (Met(c, start, before) || MeetsInFlight(Final(c, start, before), steps[|steps| - 1]))
  }

  /** In every run the client is free to sleep off its backoff only if the last pass met no message in flight. */
  lemma {:induction false} WaitingIffMet(c: Config, start: int, steps: seq<Step>)
    requires ValidRun(c, start, steps)
    ensures Final(c, start, steps).waiting > 0 <==> Met(c, start, steps)
  {
    if steps != [] {
      WaitingIffMet(c, start, steps[..|steps| - 1]);
    }
  }

  // ---------------------------------------------------------------- the time a message was queued

  /** The i-th step queues the message, at this time. */
  ghost predicate QueuedAt(c: Config, start: int, steps: seq<Step>, i: nat, id: Id, time: int)
    requires ValidRun(c, start, steps) && i < |steps|
    decreases |steps|
  {
    var n := |steps| - 1;
    if i == n then steps[n] == Queue(id) && Final(c, start, steps[..n]).now == time
    else QueuedAt(c, start, steps[..n], i, id, time)
  }

  /** In every run the deadline of a message counts from the time it was queued. */
  lemma {:induction false} IdleSinceQueued(c: Config, start: int, steps: seq<Step>, id: Id) returns (i: nat)
    requires ValidRun(c, start, steps) && id in Final(c, start, steps).messages
    ensures i < |steps| && QueuedAt(c, start, steps, i, id, Final(c, start, steps).messages[id].idleTime)
  {
    var n := |steps| - 1;
    var s := Final(c, start, steps[..n]);
    if id in s.messages {
      i := IdleSinceQueued(c, start, steps[..n], id);
      IdleTimeKept(c, s, steps[n], id);
    } else {
      i := n;
      NewMessageUncharged(c, s, steps[n], id);
    }
  }
}

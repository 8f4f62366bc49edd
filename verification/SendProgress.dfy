/**
  The send engine makes progress: when the service answers every transfer of an iteration and nothing
  more is queued, the pending list is empty after a number of iterations that depends on the policy
  alone.
 */
module SendProgress {
  import opened SendEngine
  import opened SendTheorems

  /** The part of the list that the pass has yet to visit. */
  function Ahead(s: State): seq<Id> {
    if s.pass.Resting? then []
    else
      var next := if s.pass.Sending? then s.pass.index + 1 else s.pass.index;
      if next <= |s.pending| then s.pending[next..] else []
  }

  /** Since it was `was`, the message has been handed over, or has used up an outcome, or is done. */
  predicate Touched(c: Config, was: Message, m: Message) {
    m.state.Done() || m.state.WaitingForSendAck? || Remaining(c, m) < Remaining(c, was)
  }

  /** No step gives an outcome back, and a message in flight leaves that state only by using one up. */
  lemma OutcomesFall(c: Config, s: State, step: Step, id: Id)
    requires Charging(c) && Enabled(s, step) && id in s.messages && s.messages[id].retries <= c.policy.Budget()
    requires step.Complete? || step.Refuse? ==>
               InState(s.messages, if step.Complete? then step.id else s.pending[s.pass.index], WaitingForSendAck)
    ensures var m, m' := s.messages[id], MessageAfter(c, s, step, id);
            && Remaining(c, m') <= Remaining(c, m)
            && (m.state.Done() ==> m'.state.Done())
            && (m.state.WaitingForSendAck? ==> Touched(c, m, m'))
            && (step.Visit? && s.pending[s.pass.index] == id ==> Touched(c, m, m'))
  {
  }

  /** A pass goes through its list one visit at a time. */
  lemma AheadShrinks(c: Config, s: State, step: Step, id: Id)
    requires Structure(s) && Enabled(s, step) && !step.BeginPass? && id in Ahead(s)
    ensures id in Ahead(Apply(c, s, step)) || (step.Visit? && s.pending[s.pass.index] == id)
  {
    if step.Visit? {
      VisitMoves(c, s);
      HeadOrTail(s.pending, s.pass.index, id);
    } else if step.Queue? {
      QueueAhead(c, s, step.id);
    }
  }

  lemma QueueAhead(c: Config, s: State, id: Id)
    requires Structure(s) && Enabled(s, Queue(id)) && !s.pass.Resting?
    ensures Ahead(Apply(c, s, Queue(id))) == Ahead(s) + [id]
  {
    var next := if s.pass.Sending? then s.pass.index + 1 else s.pass.index;
    assert (s.pending + [id])[next..] == s.pending[next..] + [id];
  }

  lemma HeadOrTail(ids: seq<Id>, i: nat, id: Id)
    requires i < |ids| && id in ids[i..]
    ensures id == ids[i] || id in ids[i + 1..]
  {
    assert ids[i..] == [ids[i]] + ids[i + 1..];
  }

  lemma VisitMoves(c: Config, s: State)
    requires Enabled(s, Visit)
    ensures Ahead(VisitMessage(c, s)) == s.pending[s.pass.index + 1..]
  {
  }

  /** What a message has come to since the start of an iteration. */
  ghost predicate Progressed(c: Config, was: State, s: State, begun: bool, id: Id) {
    && id in was.messages && id in s.messages
    && Remaining(c, s.messages[id]) <= Remaining(c, was.messages[id])
    && (begun ==> Touched(c, was.messages[id], s.messages[id]) || id in Ahead(s))
  }

  lemma ProgressStep(c: Config, was: State, s: State, begun: bool, step: Step, id: Id)
    requires Charging(c) && Structure(s) && Enabled(s, step) && !step.Queue?
    requires Progressed(c, was, s, begun, id) && s.messages[id].retries <= c.policy.Budget()
    requires step.Complete? || step.Refuse? ==>
               InState(s.messages, if step.Complete? then step.id else s.pending[s.pass.index], WaitingForSendAck)
    requires step.BeginPass? ==> IsDone(s.messages, id) || id in s.pending
    ensures Progressed(c, was, Apply(c, s, step), begun || step.BeginPass?, id)
  {
    StepOnMessage(c, s, step, id);
    OutcomesFall(c, s, step, id);
    if step.BeginPass? {
      assert s.pending[0..] == s.pending;
    } else if id in Ahead(s) {
      AheadShrinks(c, s, step, id);
    }
  }

  /** The facts about a state of a run that a step of progress needs. */
  lemma RunFacts(c: Config, start: int, steps: seq<Step>, step: Step, id: Id)
    requires ValidRun(c, start, steps) && Enabled(Final(c, start, steps), step) && Charging(c)
    requires id in Final(c, start, steps).messages
    ensures var s := Final(c, start, steps);
            && Structure(s) && s.messages[id].retries <= c.policy.Budget()
            && (step.Complete? || step.Refuse? ==>
                  InState(s.messages, if step.Complete? then step.id else s.pending[s.pass.index], WaitingForSendAck))
            && (step.BeginPass? ==> IsDone(s.messages, id) || id in s.pending)
  {
    PassFacts(c, start, steps, step, id);
    ChargedAlways(c, start, steps, id);
  }

  lemma ProgressRunStep(c: Config, start: int, was: State, steps: seq<Step>, begun: bool, step: Step, id: Id)
    requires ValidRun(c, start, steps) && Enabled(Final(c, start, steps), step) && Charging(c) && !step.Queue?
    requires Progressed(c, was, Final(c, start, steps), begun, id)
    ensures Progressed(c, was, Apply(c, Final(c, start, steps), step), begun || step.BeginPass?, id)
  {
    RunFacts(c, start, steps, step, id);
    ProgressStep(c, was, Final(c, start, steps), begun, step, id);
  }

  predicate Quiet(steps: seq<Step>) {
    forall i :: 0 <= i < |steps| ==> !steps[i].Queue?
  }

  /** Through an iteration in which nothing is queued. */
  lemma {:induction false} ProgressRun(c: Config, start: int, before: seq<Step>, round: seq<Step>, id: Id)
    requires ValidRun(c, start, before + round) && ValidRun(c, start, before) && Charging(c) && Quiet(round)
    requires id in Final(c, start, before).messages
    ensures Progressed(c, Final(c, start, before), Final(c, start, before + round), BeginPass in round, id)
    decreases |round|
  {
    if round == [] {
      assert before + round == before;
    } else {
      var n := |round| - 1;
      var front := before + round[..n];
      assert (before + round)[..|before + round| - 1] == front && (before + round)[|before + round| - 1] == round[n];
      assert round == round[..n] + [round[n]];
      ProgressRun(c, start, before, round[..n], id);
      ProgressRunStep(c, start, Final(c, start, before), front, BeginPass in round[..n], round[n], id);
    }
  }

  /**
    An iteration in which the service keeps up: it runs a pass, nothing is queued, and at its end every
    transfer has been answered.
   */
  ghost predicate Answered(c: Config, start: int, before: seq<Step>, round: seq<Step>) {
    && ValidRun(c, start, before + round) && Quiet(round) && BeginPass in round
    && var s := Final(c, start, before + round); s.pass.Resting? && s.outstanding == multiset{}
  }

  lemma RoundSpends(c: Config, start: int, before: seq<Step>, round: seq<Step>, id: Id)
    requires ValidRun(c, start, before) && Answered(c, start, before, round) && Charging(c)
    requires id in Final(c, start, before).messages
    ensures var was, s := Final(c, start, before), Final(c, start, before + round);
            && id in s.messages
            && (IsDone(s.messages, id) || Remaining(c, s.messages[id]) < Remaining(c, was.messages[id]))
  {
    ProgressRun(c, start, before, round, id);
    OneTransferPerMessage(c, start, before + round, id);
  }

  // ---------------------------------------------------------------- a pass hands everything over

  /** A message that was waiting to be sent has been handed over since, or is done, or its turn is still to come. */
  ghost predicate Handled(was: State, s: State, begun: bool, id: Id) {
    || IsDone(s.messages, id)
    || AttemptsOf(s.attempts, id) > AttemptsOf(was.attempts, id)
    || (InState(s.messages, id, WaitingToBeSent) && (begun ==> id in Ahead(s)))
  }

  lemma AttemptsGrow(c: Config, s: State, step: Step, id: Id)
    requires Enabled(s, step)
    ensures AttemptsOf(Apply(c, s, step).attempts, id) >= AttemptsOf(s.attempts, id)
    ensures step.Visit? && s.pending[s.pass.index] == id && s.messages[id].state.WaitingToBeSent? ==>
              IsDone(Apply(c, s, step).messages, id) || AttemptsOf(Apply(c, s, step).attempts, id) == AttemptsOf(s.attempts, id) + 1
  {
    if step.Visit? {
      var visited := s.pending[s.pass.index];
      var m := s.messages[visited];
      if m.state.WaitingToBeSent? && MsgTimeout(c, s.now, m.idleTime).In? {
        AttemptsSnoc(s.attempts, Attempt(visited, s.now, MsgTimeout(c, s.now, m.idleTime).timeout), id);
      }
    }
  }

  lemma HandledStep(c: Config, was: State, s: State, begun: bool, step: Step, id: Id)
    requires Structure(s) && Enabled(s, step) && Handled(was, s, begun, id) && id in s.messages
    requires AttemptsOf(s.attempts, id) >= AttemptsOf(was.attempts, id)
    requires step.Complete? || step.Refuse? ==>
               InState(s.messages, if step.Complete? then step.id else s.pending[s.pass.index], WaitingForSendAck)
    requires step.BeginPass? ==> IsDone(s.messages, id) || id in s.pending
    ensures Handled(was, Apply(c, s, step), begun || step.BeginPass?, id)
  {
    AttemptsGrow(c, s, step, id);
    StepOnMessage(c, s, step, id);
    if step.BeginPass? {
      assert s.pending[0..] == s.pending;
    } else if id in Ahead(s) {
      AheadShrinks(c, s, step, id);
    }
  }

  lemma PassFacts(c: Config, start: int, steps: seq<Step>, step: Step, id: Id)
    requires ValidRun(c, start, steps) && Enabled(Final(c, start, steps), step)
    requires id in Final(c, start, steps).messages
    ensures var s := Final(c, start, steps);
            && Structure(s)
            && (step.Complete? || step.Refuse? ==>
                  InState(s.messages, if step.Complete? then step.id else s.pending[s.pass.index], WaitingForSendAck))
            && (step.BeginPass? ==> IsDone(s.messages, id) || id in s.pending)
  {
    var s := Final(c, start, steps);
    EveryRun(c, start, steps);
    NoMessageLost(c, start, steps);
    assert id in s.queued;
    if step.Complete? || step.Refuse? {
      SettledInFlight(s, step);
    }
  }

  lemma HandledRunStep(c: Config, start: int, was: State, steps: seq<Step>, begun: bool, step: Step, id: Id)
    requires ValidRun(c, start, steps) && Enabled(Final(c, start, steps), step)
    requires var s := Final(c, start, steps);
             Handled(was, s, begun, id) && id in s.messages && AttemptsOf(s.attempts, id) >= AttemptsOf(was.attempts, id)
    ensures var s' := Apply(c, Final(c, start, steps), step);
            && Handled(was, s', begun || step.BeginPass?, id) && id in s'.messages
            && AttemptsOf(s'.attempts, id) >= AttemptsOf(was.attempts, id)
  {
    PassFacts(c, start, steps, step, id);
    HandledStep(c, was, Final(c, start, steps), begun, step, id);
    AttemptsGrow(c, Final(c, start, steps), step, id);
    StepOnMessage(c, Final(c, start, steps), step, id);
  }

  lemma {:induction false} HandledRun(c: Config, start: int, before: seq<Step>, round: seq<Step>, id: Id)
    requires ValidRun(c, start, before + round) && ValidRun(c, start, before)
    requires InState(Final(c, start, before).messages, id, WaitingToBeSent)
    ensures var was, s := Final(c, start, before), Final(c, start, before + round);
            && Handled(was, s, BeginPass in round, id) && id in s.messages
            && AttemptsOf(s.attempts, id) >= AttemptsOf(was.attempts, id)
    decreases |round|
  {
    if round == [] {
      assert before + round == before;
    } else {
      var n := |round| - 1;
      var front := before + round[..n];
      assert (before + round)[..|before + round| - 1] == front && (before + round)[|before + round| - 1] == round[n];
      assert round == round[..n] + [round[n]];
      HandledRun(c, start, before, round[..n], id);
      HandledRunStep(c, start, Final(c, start, before), front, BeginPass in round[..n], round[n], id);
    }
  }

  /**
    From any point of any run: once a pass has begun and ended, every message that was waiting to be
    sent has been handed over, or is done, whatever else happened meanwhile.
   */
  lemma PassHandsOver(c: Config, start: int, before: seq<Step>, round: seq<Step>, id: Id)
    requires ValidRun(c, start, before + round) && ValidRun(c, start, before)
    requires InState(Final(c, start, before).messages, id, WaitingToBeSent)
    requires BeginPass in round && Final(c, start, before + round).pass.Resting?
    ensures var was, s := Final(c, start, before), Final(c, start, before + round);
            IsDone(s.messages, id) || AttemptsOf(s.attempts, id) > AttemptsOf(was.attempts, id)
  {
    HandledRun(c, start, before, round, id);
  }

  // ---------------------------------------------------------------- a pass over done messages

  ghost predicate AllDone(s: State) {
    forall id :: id in s.messages ==> IsDone(s.messages, id)
  }

  /** Once a pass has begun over messages that are all done, it keeps none of them. */
  ghost predicate Clearing(s: State, begun: bool) {
    AllDone(s) && (begun ==> if s.pass.Resting? then s.pending == [] else s.pass.Filtering? && s.pass.filtered == [])
  }

  lemma ClearingStep(c: Config, s: State, begun: bool, step: Step)
    requires Consistent(s) && Clearing(s, begun) && Enabled(s, step) && !step.Queue?
    ensures Clearing(Apply(c, s, step), begun || step.BeginPass?)
  {
    if step.Complete? || step.Refuse? {
      SettledInFlight(s, step);
      assert false;
    }
  }

  lemma {:induction false} ClearingRun(c: Config, start: int, before: seq<Step>, round: seq<Step>)
    requires ValidRun(c, start, before + round) && ValidRun(c, start, before) && Quiet(round)
    requires AllDone(Final(c, start, before))
    ensures Clearing(Final(c, start, before + round), BeginPass in round)
    decreases |round|
  {
    if round == [] {
      assert before + round == before;
    } else {
      var n := |round| - 1;
      var front := before + round[..n];
      assert (before + round)[..|before + round| - 1] == front && (before + round)[|before + round| - 1] == round[n];
      assert round == round[..n] + [round[n]];
      ClearingRun(c, start, before, round[..n]);
      EveryRun(c, start, front);
      ClearingStep(c, Final(c, start, front), BeginPass in round[..n], round[n]);
    }
  }

  // ---------------------------------------------------------------- any number of iterations

  function Concat(rounds: seq<seq<Step>>): seq<Step> {
    if rounds == [] then [] else Concat(rounds[..|rounds| - 1]) + rounds[|rounds| - 1]
  }

  ghost predicate AllAnswered(c: Config, start: int, before: seq<Step>, rounds: seq<seq<Step>>) {
    rounds == [] ||
    var n := |rounds| - 1;
    AllAnswered(c, start, before, rounds[..n]) && Answered(c, start, before + Concat(rounds[..n]), rounds[n])
  }

  lemma ConcatSnoc(before: seq<Step>, rounds: seq<seq<Step>>)
    requires rounds != []
    ensures before + Concat(rounds) == before + Concat(rounds[..|rounds| - 1]) + rounds[|rounds| - 1]
  {
    Associates(before, Concat(rounds[..|rounds| - 1]), rounds[|rounds| - 1]);
  }

  lemma OneMore(before: seq<Step>, rounds: seq<seq<Step>>, round: seq<Step>)
    ensures before + Concat(rounds + [round]) == before + Concat(rounds) + round
  {
    assert (rounds + [round])[..|rounds|] == rounds;
    ConcatSnoc(before, rounds + [round]);
  }

  lemma Associates(a: seq<Step>, b: seq<Step>, c: seq<Step>)
    ensures a + (b + c) == a + b + c
  {
  }

  lemma {:induction false} AnsweredValid(c: Config, start: int, before: seq<Step>, rounds: seq<seq<Step>>)
    requires ValidRun(c, start, before) && AllAnswered(c, start, before, rounds)
    ensures ValidRun(c, start, before + Concat(rounds))
  {
    if rounds == [] {
      assert before + Concat(rounds) == before;
    } else {
      ConcatSnoc(before, rounds);
    }
  }

  /** After k iterations each message is done or has used up k of its outcomes. */
  lemma {:induction false} OutcomesSpent(c: Config, start: int, before: seq<Step>, rounds: seq<seq<Step>>, id: Id)
    requires ValidRun(c, start, before) && AllAnswered(c, start, before, rounds) && Charging(c)
    requires id in Final(c, start, before).messages
    ensures ValidRun(c, start, before + Concat(rounds))
    ensures var s := Final(c, start, before + Concat(rounds));
            && id in s.messages
            && (IsDone(s.messages, id) || Remaining(c, s.messages[id]) + |rounds| <= 1 + c.policy.Budget())
    decreases |rounds|
  {
    AnsweredValid(c, start, before, rounds);
    if rounds == [] {
      assert before + Concat(rounds) == before;
      ChargedAlways(c, start, before, id);
    } else {
      var n := |rounds| - 1;
      var front := before + Concat(rounds[..n]);
      ConcatSnoc(before, rounds);
      OutcomesSpent(c, start, before, rounds[..n], id);
      RoundSpends(c, start, front, rounds[n], id);
      DoneThroughout(c, start, front, rounds[n], id);
    }
  }

  lemma DoneThroughout(c: Config, start: int, before: seq<Step>, round: seq<Step>, id: Id)
    requires ValidRun(c, start, before) && Answered(c, start, before, round) && Charging(c)
    requires id in Final(c, start, before).messages
    ensures IsDone(Final(c, start, before).messages, id) ==> IsDone(Final(c, start, before + round).messages, id)
  {
    ProgressRun(c, start, before, round, id);
    OneTransferPerMessage(c, start, before + round, id);
  }

  lemma {:induction false} SameMessages(c: Config, start: int, before: seq<Step>, rounds: seq<seq<Step>>)
    requires ValidRun(c, start, before) && AllAnswered(c, start, before, rounds)
    ensures ValidRun(c, start, before + Concat(rounds))
    ensures Final(c, start, before + Concat(rounds)).messages.Keys <= Final(c, start, before).messages.Keys
    decreases |rounds|
  {
    AnsweredValid(c, start, before, rounds);
    if rounds == [] {
      assert before + Concat(rounds) == before;
    } else {
      var n := |rounds| - 1;
      ConcatSnoc(before, rounds);
      SameMessages(c, start, before, rounds[..n]);
      QuietKeys(c, start, before + Concat(rounds[..n]), rounds[n]);
    }
  }

  lemma {:induction false} QuietKeys(c: Config, start: int, before: seq<Step>, round: seq<Step>)
    requires ValidRun(c, start, before + round) && ValidRun(c, start, before) && Quiet(round)
    ensures Final(c, start, before + round).messages.Keys == Final(c, start, before).messages.Keys
    decreases |round|
  {
    if round == [] {
      assert before + round == before;
    } else {
      var n := |round| - 1;
      var front := before + round[..n];
      assert (before + round)[..|before + round| - 1] == front && (before + round)[|before + round| - 1] == round[n];
      QuietKeys(c, start, before, round[..n]);
      QuietKeysStep(c, Final(c, start, front), round[n]);
    }
  }

  lemma QuietKeysStep(c: Config, s: State, step: Step)
    requires Enabled(s, step) && !step.Queue?
    ensures Apply(c, s, step).messages.Keys == s.messages.Keys
  {
  }

  /**
    Under a policy that charges its retries, from any point of any run: after one iteration more than
    the retry budget every message is done, and after one more nothing is pending.
   */
  lemma EmptiesInBudget(c: Config, start: int, before: seq<Step>, rounds: seq<seq<Step>>)
    requires ValidRun(c, start, before) && AllAnswered(c, start, before, rounds) && Charging(c)
    requires |rounds| > c.policy.Budget()
    ensures ValidRun(c, start, before + Concat(rounds))
    ensures AllDone(Final(c, start, before + Concat(rounds)))
    ensures |rounds| > c.policy.Budget() + 1 ==> Final(c, start, before + Concat(rounds)).pending == []
  {
    EveryMessageDone(c, start, before, rounds);
    if |rounds| > c.policy.Budget() + 1 {
      var n := |rounds| - 1;
      EveryMessageDone(c, start, before, rounds[..n]);
      ConcatSnoc(before, rounds);
      ClearingRun(c, start, before + Concat(rounds[..n]), rounds[n]);
    }
  }

  lemma EveryMessageDone(c: Config, start: int, before: seq<Step>, rounds: seq<seq<Step>>)
    requires ValidRun(c, start, before) && AllAnswered(c, start, before, rounds) && Charging(c)
    requires |rounds| > c.policy.Budget()
    ensures ValidRun(c, start, before + Concat(rounds))
    ensures AllDone(Final(c, start, before + Concat(rounds)))
  {
    SameMessages(c, start, before, rounds);
    forall id | id in Final(c, start, before + Concat(rounds)).messages
      ensures IsDone(Final(c, start, before + Concat(rounds)).messages, id)
    {
      OutcomesSpent(c, start, before, rounds, id);
    }
  }

  /** From any point of any run, that many answered iterations leave nothing pending. */
  ghost predicate AlwaysEmpties(c: Config) {
    forall start, before, rounds ::
      ValidRun(c, start, before) && AllAnswered(c, start, before, rounds) && |rounds| > c.policy.Budget() + 1 ==>
        ValidRun(c, start, before + Concat(rounds)) && Final(c, start, before + Concat(rounds)).pending == []
  }

  lemma OneMoreAnswered(c: Config, start: int, before: seq<Step>, rounds: seq<seq<Step>>, round: seq<Step>)
    requires AllAnswered(c, start, before, rounds) && Answered(c, start, before + Concat(rounds), round)
    ensures AllAnswered(c, start, before, rounds + [round])
    ensures before + Concat(rounds + [round]) == before + Concat(rounds) + round
  {
    assert (rounds + [round])[..|rounds|] == rounds;
    OneMore(before, rounds, round);
  }

  lemma FreeRoundAnswered(c: Config, steps: seq<Step>, name: string)
    requires ValidRun(c, 0, steps) && Waiting(Final(c, 0, steps), 0) && RetriesForFree(c, name)
    ensures Answered(c, 0, steps, FreeSteps(name)) && Waiting(Final(c, 0, steps + FreeSteps(name)), 0)
  {
    var longer := FreeRound(c, 0, steps, name);
    assert FreeSteps(name)[0] == BeginPass;
  }

  lemma OneQueued(c: Config)
    ensures ValidRun(c, 0, [Queue(0)]) && Waiting(Final(c, 0, [Queue(0)]), 0)
  {
    Extend(c, 0, [], Queue(0));
    assert [] + [Queue(0)] == [Queue(0)];
  }

  /** With retries for free, any number of answered iterations may leave the message pending. */
  lemma {:induction false} NeverEmpties(c: Config, name: string, k: nat) returns (rounds: seq<seq<Step>>)
    requires RetriesForFree(c, name)
    ensures |rounds| == k && ValidRun(c, 0, [Queue(0)]) && AllAnswered(c, 0, [Queue(0)], rounds)
    ensures ValidRun(c, 0, [Queue(0)] + Concat(rounds)) && Waiting(Final(c, 0, [Queue(0)] + Concat(rounds)), 0)
  {
    if k == 0 {
      OneQueued(c);
      rounds := [];
      assert [Queue(0)] + Concat(rounds) == [Queue(0)];
    } else {
      var earlier := NeverEmpties(c, name, k - 1);
      var steps := [Queue(0)] + Concat(earlier);
      FreeRoundAnswered(c, steps, name);
      rounds := earlier + [FreeSteps(name)];
      OneMoreAnswered(c, 0, [Queue(0)], earlier, FreeSteps(name));
    }
  }

  /**
    Answered iterations, two more than the retry budget of them, always leave nothing pending, if and
    only if the policy never retries or charges every retry it grants.
   */
  lemma EmptiesIffCharging(c: Config)
    ensures AlwaysEmpties(c) <==> Charging(c)
  {
    if Charging(c) {
      forall start, before, rounds
        | ValidRun(c, start, before) && AllAnswered(c, start, before, rounds) && |rounds| > c.policy.Budget() + 1
        ensures ValidRun(c, start, before + Concat(rounds)) && Final(c, start, before + Concat(rounds)).pending == []
      {
        EmptiesInBudget(c, start, before, rounds);
      }
    } else {
      var name :| c.policy.onError.judge(name).retry && !c.policy.onError.judge(name).incrementRetries;
      var rounds := NeverEmpties(c, name, c.policy.Budget() + 2);
      assert Final(c, 0, [Queue(0)] + Concat(rounds)).pending == [0];
    }
  }
}

/**
  `SendClient` as a class. What the sender, the service, the clock and other coroutines do is chosen
  nondeterministically inside the methods. The ghost `trace` records the steps taken, and `Valid` ties
  the fields to the end of that run of the engine, so every theorem about runs holds of the object.
 */
module SendClients {
  import opened ErrorPolicies
  import opened SendEngine
  import SendTheorems
  import SendProgress

  class SendClient {
    const config: Config
    const start: int
    var messages: map<Id, Message>
    var pending: seq<Id>
    var waiting: nat
    var backoff: int
    var clock: int
    /** Held by the C sender: the transfers it has accepted and not completed. */
    var outstanding: multiset<Id>
    ghost var trace: seq<Step>

    /** The state the run has reached. */
    ghost var now: State

    ghost predicate Valid() reads this {
      && Reaches(config, start, trace, now)
      && messages == now.messages && pending == now.pending
      && waiting == now.waiting && backoff == now.backoff
      && clock == now.now && outstanding == now.outstanding
    }

    ghost method Record(step: Step)
      requires Reaches(config, start, trace, now) && Enabled(now, step)
      modifies this`trace, this`now
      ensures Reaches(config, start, trace, now)
      ensures trace == old(trace) + [step] && now == Apply(config, old(now), step)
    {
      ReachesNext(config, start, trace, now, step);
      trace := trace + [step];
      now := Apply(config, now, step);
    }

    lemma KnownMessages()
      requires Valid()
      ensures AllIn(pending, messages.Keys) && forall id :: id in outstanding ==> id in messages
    {
      ReachesRun(config, start, trace, now);
      EveryRun(config, start, trace);
    }

    lemma HeldInOrder()
      requires Valid()
      ensures Live(messages, now.queued) == Live(messages, Held(now))
    {
      ReachesRun(config, start, trace, now);
      EveryRun(config, start, trace);
    }

    constructor (config: Config, now: int)
      ensures Valid() && this.now.pass.Resting? && pending == []
      ensures this.config == config && start == now
    {
      this.config, start := config, now;
      messages, pending, waiting, backoff, clock, outstanding := map[], [], 0, 0, now, multiset{};
      trace, this.now := [], Start(now);
      assert Follows(config, now, [], [Start(now)]);
    }

    /** Time passes. */
    method ReadClock() returns (time: int)
      requires Valid()
      modifies this`clock, this`trace, this`now
      ensures Valid() && old(trace) <= trace && time == clock >= old(clock)
      ensures now == old(now).(now := clock)
    {
      var elapsed: nat :| true;
      Record(Tick(elapsed));
      clock := clock + elapsed;
      time := clock;
    }

    /** The send callback: it updates the message and the backoff, and says whether on_send_complete runs. */
    method OnMessageSent(id: Id, result: SendResult) returns (notify: bool)
      requires id in messages
      modifies this`messages, this`backoff
      ensures id in messages && (messages[id], notify) == Settle(config.policy, old(messages[id]), result)
      ensures messages == old(messages)[id := messages[id]]
      ensures backoff == if Retries(config.policy, old(messages[id]), result)
                         then config.policy.ActionFor(result.delivery).backoff else old(backoff)
    {
      var m := messages[id];
      match result {
        case Error(delivery) =>
          var action := config.policy.ActionFor(delivery);
          if action.retry && m.retries < config.policy.maxRetries {
            if action.incrementRetries {
              m := m.(retries := m.retries + 1);
            }
            backoff := action.backoff;
            messages := messages[id := m.(state := WaitingToBeSent)];
            return false;
          }
          messages := messages[id := m.(state := SendFailed)];
        case Timeout =>
          messages := messages[id := m.(state := SendFailed)];
        case _ =>
          messages := messages[id := m.(state := SendComplete)];
      }
      return true;
    }

    method QueueMessage(id: Id)
      requires Valid() && id !in messages
      modifies this`messages, this`pending, this`trace, this`now
      ensures Valid() && trace == old(trace) + [Queue(id)]
      ensures now.pass == old(now.pass) && now.queued == old(now.queued) + [id]
      ensures pending == old(pending) + [id]
      ensures messages == old(messages)[id := Message(WaitingToBeSent, 0, clock)]
    {
      messages := messages[id := Message(WaitingToBeSent, 0, clock)];
      pending := pending + [id];
      Record(Queue(id));
    }

    /** The connection does some work: any of the outstanding transfers may complete, with any result. */
    method RunCallbacks()
      requires Valid()
      modifies this`messages, this`backoff, this`outstanding, this`trace, this`now
      ensures Valid() && old(trace) <= trace
      ensures now.pass == old(now.pass) && now.queued == old(now.queued)
    {
      var more: nat :| true;
      while more > 0 && outstanding != multiset{}
        invariant Valid() && old(trace) <= trace
        invariant now.pass == old(now.pass) && now.queued == old(now.queued)
        invariant pending == old(pending) && waiting == old(waiting) && clock == old(clock)
      {
        var id :| id in outstanding;
        var result: SendResult := *;
        KnownMessages();
        ghost var step := Complete(id, result);
        outstanding := outstanding - multiset{id};
        var _ := OnMessageSent(id, result);
        Record(step);
        more := more - 1;
      }
    }

    /** Other coroutines run while a transfer is awaited: they queue up to `room` messages and callbacks fire. */
    method OtherCoroutines(room: nat) returns (left: nat)
      requires Valid()
      modifies this`messages, this`pending, this`backoff, this`outstanding, this`clock, this`trace, this`now
      ensures Valid() && old(trace) <= trace
      ensures now.pass == old(now.pass)
      ensures old(pending) <= pending && |pending| + left == |old(pending)| + room
      ensures old(now.queued) <= now.queued
    {
      left := room;
      var more: nat :| true;
      while more > 0
        invariant Valid() && old(trace) <= trace && waiting == old(waiting)
        invariant now.pass == old(now.pass)
        invariant old(pending) <= pending && |pending| + left == |old(pending)| + room
        invariant old(now.queued) <= now.queued
      {
        var id: Id := *;
        if left > 0 && id !in messages {
          QueueMessage(id);
          left := left - 1;
        }
        RunCallbacks();
        var _ := ReadClock();
        more := more - 1;
      }
    }

    /**
      Hands the i-th pending message to the sender and, once the call returns, says whether the pass
      keeps it. With `shared` set, other coroutines may run while the call is awaited.
     */
    method Transfer(id: Id, ghost filtered: seq<Id>, ghost i: nat, shared: bool, room: nat) returns (keep: bool, left: nat)
      requires Valid() && i < |pending| && pending[i] == id
      requires now.pass == Sending(filtered, i, false)
      modifies this`messages, this`pending, this`backoff, this`outstanding, this`clock, this`trace, this`now
      ensures Valid() && old(trace) <= trace
      ensures now.pass == Filtering(if keep then filtered + [id] else filtered, i + 1)
      ensures old(pending) <= pending && |pending| + left == |old(pending)| + room
      ensures !shared ==> pending == old(pending)
    {
      left := room;
      if shared {
        left := OtherCoroutines(left);
      }
      var accepted: bool := *;
      if accepted {
        left := TransferAccepted(id, filtered, i, shared, left);
        keep := true;
      } else {
        keep := TransferRefused(id, filtered, i);
      }
    }

    /** The sender takes the transfer; callbacks may run before the call returns. */
    method TransferAccepted(id: Id, ghost filtered: seq<Id>, ghost i: nat, shared: bool, room: nat) returns (left: nat)
      requires Valid() && i < |pending| && pending[i] == id
      requires now.pass == Sending(filtered, i, false)
      modifies this`messages, this`pending, this`backoff, this`outstanding, this`clock, this`trace, this`now
      ensures Valid() && old(trace) <= trace
      ensures now.pass == Filtering(filtered + [id], i + 1)
      ensures old(pending) <= pending && |pending| + left == |old(pending)| + room
      ensures !shared ==> pending == old(pending)
    {
      left := room;
      outstanding := outstanding + multiset{id};
      Record(Accept);
      RunCallbacks();
      if shared {
        left := OtherCoroutines(left);
      }
      Record(Resume);
    }

    /** The call raises or returns False, which leaves nothing outstanding. */
    method TransferRefused(id: Id, ghost filtered: seq<Id>, ghost i: nat) returns (keep: bool)
      requires Valid() && i < |pending| && pending[i] == id
      requires now.pass == Sending(filtered, i, false)
      modifies this`messages, this`backoff, this`trace, this`now
      ensures Valid() && old(trace) <= trace
      ensures now.pass == Filtering(if keep then filtered + [id] else filtered, i + 1)
    {
      KnownMessages();
      var _ := OnMessageSent(id, Error(ClientException));
      Record(Refuse);
      keep := messages[id].state.WaitingToBeSent?;
    }

    /** The filter pass: it keeps every message that is not done, and no other coroutine's message is missed. */
    method FilterPending(shared: bool) returns (filtered: seq<Id>)
      requires Valid() && now.pass == Filtering([], 0)
      modifies this
      ensures Valid() && old(trace) <= trace
      ensures now.pass == Filtering(filtered, |pending|)
      ensures old(pending) <= pending && (!shared ==> pending == old(pending))
      ensures Live(messages, filtered) == Live(messages, now.queued)
    {
      filtered := [];
      var room: nat :| true;
      var i := 0;
      while i < |pending|
        invariant Valid() && old(trace) <= trace
        invariant i <= |pending| && now.pass == Filtering(filtered, i)
        invariant old(pending) <= pending && (!shared ==> pending == old(pending))
        decreases |pending| + room - i
      {
        var keep;
        keep, room := VisitOne(filtered, i, shared, room);
        if keep {
          filtered := filtered + [pending[i]];
        }
        i := i + 1;
      }
      HeldInOrder();
      assert filtered + pending[i..] == filtered;
    }

    /** One turn of the loop over the pending messages. */
    method VisitOne(ghost filtered: seq<Id>, i: nat, shared: bool, room: nat) returns (keep: bool, left: nat)
      requires Valid() && i < |pending| && now.pass == Filtering(filtered, i)
      modifies this
      ensures Valid() && old(trace) <= trace
      ensures old(pending) <= pending && |pending| + left == |old(pending)| + room
      ensures !shared ==> pending == old(pending)
      ensures now.pass == Filtering(if keep then filtered + [pending[i]] else filtered, i + 1)
    {
      KnownMessages();
      var id := pending[i];
      left := room;
      match messages[id].state {
        case SendComplete | SendFailed =>
          keep := false;
          Record(Visit);
        case WaitingForSendAck =>
          waiting := waiting + 1;
          keep := true;
          Record(Visit);
        case WaitingToBeSent =>
          keep, left := SendOne(id, filtered, i, shared, room);
      }
    }

    /** A message waiting to be sent is transferred, unless its deadline has passed. */
    method SendOne(id: Id, ghost filtered: seq<Id>, ghost i: nat, shared: bool, room: nat) returns (keep: bool, left: nat)
      requires Valid() && i < |pending| && pending[i] == id && now.pass == Filtering(filtered, i)
      requires id in messages && messages[id].state.WaitingToBeSent?
      modifies this
      ensures Valid() && old(trace) <= trace
      ensures old(pending) <= pending && |pending| + left == |old(pending)| + room
      ensures !shared ==> pending == old(pending)
      ensures now.pass == Filtering(if keep then filtered + [id] else filtered, i + 1)
    {
      var time := ReadClock();
      var m := messages[id];
      messages := messages[id := m.(state := WaitingForSendAck)];
      var deadline := MsgTimeout(config, time, m.idleTime);
      if deadline.Expired? {
        left := room;
        var _ := OnMessageSent(id, Timeout);
        keep := messages[id].state.WaitingToBeSent?;
        Record(Visit);
      } else {
        Record(Visit);
        keep, left := Transfer(id, filtered, i, shared, room);
      }
    }

    /** One whole pass: the pending list becomes what the pass kept. */
    method RunPass(shared: bool)
      requires Valid() && now.pass.Resting?
      modifies this
      ensures Valid() && now.pass.Resting? && old(trace) < trace && trace[|old(trace)|] == BeginPass
    {
      waiting := 0;
      Record(BeginPass);
      var filtered := FilterPending(shared);
      pending := filtered;
      Record(EndPass);
    }

    /** Sleeps off the backoff, unless the last pass met a message in flight. */
    method SleepOff() returns (slept: int)
      requires Valid() && now.pass.Resting?
      modifies this`backoff, this`trace, this`now
      ensures Valid() && now.pass.Resting?
      ensures slept == if waiting == 0 then old(backoff) else 0
      ensures backoff == if waiting == 0 then 0 else old(backoff)
      ensures trace == if slept != 0 then old(trace) + [Backoff] else old(trace)
    {
      slept := 0;
      if backoff != 0 && waiting == 0 {
        slept, backoff := backoff, 0;
        Record(Backoff);
      }
    }

    /**
      One iteration of an open client. Every message that was waiting to be sent has been handed over
      afterwards, or is done; and the client slept for the backoff due after the pass, which was begun at
      `begun` and had ended at `middle`.
     */
    method ClientRun(shared: bool) returns (slept: int, ghost middle: seq<Step>, ghost begun: nat)
      requires Valid() && now.pass.Resting?
      modifies this
      ensures Valid() && now.pass.Resting? && old(trace) <= middle <= trace
      ensures Live(messages, pending) == Live(messages, now.queued)
      ensures |old(trace)| <= begun < |middle| && middle[begun] == BeginPass && SleptFor(middle, slept)
      ensures slept != 0 ==> middle + [Backoff] <= trace
      ensures HandedOver(old(messages), old(now.attempts))
    {
      RunCallbacks();
      begun := |trace|;
      slept, middle := PassThenSleep(shared);
      RunCallbacks();
      HeldInOrder();
      PassedOver(old(trace), old(now), begun);
    }

    /** The client slept for the backoff due at the end of the pass, if that met no message in flight. */
    ghost predicate SleptFor(middle: seq<Step>, slept: int) {
      && ValidRun(config, start, middle)
      && slept == var s := Final(config, start, middle); if s.waiting == 0 then s.backoff else 0
    }

    method PassThenSleep(shared: bool) returns (slept: int, ghost middle: seq<Step>)
      requires Valid() && now.pass.Resting?
      modifies this
      ensures Valid() && now.pass.Resting? && old(trace) < middle && middle[|old(trace)|] == BeginPass
      ensures SleptFor(middle, slept) && trace == if slept != 0 then middle + [Backoff] else middle
    {
      RunPass(shared);
      middle := trace;
      ReachesRun(config, start, trace, now);
      slept := SleepOff();
    }

    /** Every message that was waiting to be sent is done, or has been handed over since. */
    ghost predicate HandedOver(was: map<Id, Message>, attempts: seq<Attempt>) reads this {
      forall id :: SendTheorems.InState(was, id, WaitingToBeSent) ==>
        IsDone(messages, id) || SendTheorems.AttemptsOf(now.attempts, id) > SendTheorems.AttemptsOf(attempts, id)
    }

    lemma PassedOver(before: seq<Step>, was: State, begun: nat)
      requires Valid() && now.pass.Resting? && Reaches(config, start, before, was) && before <= trace
      requires |before| <= begun < |trace| && trace[begun] == BeginPass
      ensures HandedOver(was.messages, was.attempts)
    {
      var round := trace[|before|..];
      assert round[begun - |before|] == BeginPass && trace == before + round;
      ReachesRun(config, start, before, was);
      ReachesRun(config, start, trace, now);
      forall id | SendTheorems.InState(was.messages, id, WaitingToBeSent)
        ensures IsDone(messages, id) || SendTheorems.AttemptsOf(now.attempts, id) > SendTheorems.AttemptsOf(was.attempts, id)
      {
        SendProgress.PassHandsOver(config, start, before, round, id);
      }
    }

    /**
      Runs until nothing is pending or a shutdown is seen, for at most `iterations` iterations. The
      outside decides at which iteration a shutdown is seen and in which ones the link is ready. The
      ghost `rounds` are the iterations: a ready one runs a pass; and if the service answers all the
      transfers of each, and the policy charges its retries, two more than the retry budget are enough.
     */
    method Wait(iterations: nat, shutdownAt: nat, ready: nat -> bool)
      returns (running: bool, finished: bool, ghost rounds: seq<seq<Step>>)
      requires Valid() && now.pass.Resting?
      modifies this
      ensures Valid() && now.pass.Resting? && old(trace) <= trace
      ensures finished <==> !running || pending == []
      ensures !finished ==> |rounds| == iterations
      ensures |rounds| <= shutdownAt && (!running ==> |rounds| == shutdownAt < iterations && old(pending) != [])
      ensures old(pending) == [] ==> rounds == []
      ensures trace == old(trace) + SendProgress.Concat(rounds)
      ensures forall i :: 0 <= i < |rounds| && ready(i) ==> BeginPass in rounds[i]
      ensures iterations > config.policy.Budget() + 1 && KeepsUp(old(trace), rounds) ==> finished
    {
      running, rounds := true, [];
      assert trace + SendProgress.Concat([]) == trace;
      var i := 0;
      while running && pending != [] && i < iterations
        invariant Valid() && now.pass.Resting? && old(trace) <= trace
        invariant trace == old(trace) + SendProgress.Concat(rounds)
        invariant i <= iterations && |rounds| == if running then i else shutdownAt
        invariant |rounds| <= shutdownAt && (!running ==> shutdownAt < iterations)
        invariant i > 0 ==> old(pending) != []
        invariant i == 0 ==> running && pending == old(pending)
        invariant forall k :: 0 <= k < |rounds| && ready(k) ==> BeginPass in rounds[k]
        decreases iterations - i
      {
        if i == shutdownAt {
          running := false;
        } else {
          ghost var round := Iterate(ready(i));
          SendProgress.OneMore(old(trace), rounds, round);
          rounds := rounds + [round];
        }
        i := i + 1;
      }
      finished := !running || pending == [];
      if !finished && iterations > config.policy.Budget() + 1 {
        EnoughRounds(old(trace), old(now), rounds);
      }
    }

    /** One iteration of the client: a pass once the link is open, and until then only connection work. */
    method Iterate(ready: bool) returns (ghost round: seq<Step>)
      requires Valid() && now.pass.Resting?
      modifies this
      ensures Valid() && now.pass.Resting? && trace == old(trace) + round
      ensures ready ==> BeginPass in round && HandedOver(old(messages), old(now.attempts))
    {
      if ready {
        var _, _, begun := ClientRun(false);
        round := trace[|old(trace)|..];
        assert round[begun - |old(trace)|] == BeginPass;
      } else {
        RunCallbacks();
        round := trace[|old(trace)|..];
      }
    }

    lemma EnoughRounds(before: seq<Step>, was: State, rounds: seq<seq<Step>>)
      requires Valid() && Reaches(config, start, before, was) && trace == before + SendProgress.Concat(rounds)
      requires |rounds| > config.policy.Budget() + 1
      ensures KeepsUp(before, rounds) ==> pending == []
    {
      ReachesRun(config, start, before, was);
      ReachesRun(config, start, trace, now);
      if KeepsUp(before, rounds) {
        SendProgress.EmptiesInBudget(config, start, before, rounds);
      }
    }

    /** The policy charges its retries, and the service answers all the transfers of each iteration. */
    ghost predicate KeepsUp(before: seq<Step>, rounds: seq<seq<Step>>) {
      SendTheorems.Charging(config) && SendProgress.AllAnswered(config, start, before, rounds)
    }

    /** What was pending at an earlier point is known, and done if nothing is pending now. */
    lemma SnapshotKnown(before: seq<Step>, was: State, snapshot: seq<Id>)
      requires Valid() && now.pass.Resting? && was.pass.Resting? && snapshot == was.pending
      requires Reaches(config, start, before, was) && before <= trace
      ensures forall i :: 0 <= i < |snapshot| ==> snapshot[i] in messages && (pending == [] ==> IsDone(messages, snapshot[i]))
      ensures pending == [] ==> forall id :: id in now.queued ==> IsDone(messages, id)
    {
      forall i | 0 <= i < |snapshot|
        ensures snapshot[i] in messages && (pending == [] ==> IsDone(messages, snapshot[i]))
      {
        SendTheorems.SnapshotDone(config, start, before, was, trace, now, snapshot[i]);
      }
      ReachesRun(config, start, trace, now);
      SendTheorems.NoMessageLost(config, start, trace);
    }

    /** The states of the messages, in order. */
    method States(snapshot: seq<Id>) returns (results: seq<MessageState>)
      requires forall i :: 0 <= i < |snapshot| ==> snapshot[i] in messages
      ensures |results| == |snapshot|
      ensures forall i :: 0 <= i < |snapshot| ==> results[i] == messages[snapshot[i]].state
    {
      results := [];
      while |results| < |snapshot|
        invariant |results| <= |snapshot|
        invariant forall i :: 0 <= i < |results| ==> results[i] == messages[snapshot[i]].state
      {
        results := results + [messages[snapshot[|results|]].state];
      }
    }

    /**
      Sends what is pending and reports the state of each message of the snapshot, in order. If the
      loop ended without a shutdown, each of them is done; and it ends when the service keeps up.
     */
    method SendAllMessages(iterations: nat, shutdownAt: nat, ready: nat -> bool)
      returns (snapshot: seq<Id>, results: seq<MessageState>, running: bool, finished: bool, ghost rounds: seq<seq<Step>>)
      requires Valid() && now.pass.Resting?
      modifies this
      ensures Valid() && snapshot == old(pending) && |results| == |snapshot|
      ensures forall i :: 0 <= i < |snapshot| ==> snapshot[i] in messages && results[i] == messages[snapshot[i]].state
      ensures finished && running ==> forall i :: 0 <= i < |snapshot| ==> results[i].Done()
      ensures finished && running ==> forall id :: id in now.queued ==> IsDone(messages, id)
      ensures finished <==> !running || pending == []
      ensures !finished ==> |rounds| == iterations
      ensures |rounds| <= shutdownAt && (!running ==> |rounds| == shutdownAt < iterations)
      ensures trace == old(trace) + SendProgress.Concat(rounds)
      ensures forall i :: 0 <= i < |rounds| && ready(i) ==> BeginPass in rounds[i]
      ensures iterations > config.policy.Budget() + 1 && KeepsUp(old(trace), rounds) ==> finished
    {
      snapshot := pending;
      running, finished, rounds := Wait(iterations, shutdownAt, ready);
      SnapshotKnown(old(trace), old(now), snapshot);
      results := States(snapshot);
    }
  }
}

/**
  `ReceiveClient`: messages arrive through a callback into a FIFO queue, and are handed out in batches
  or by a generator. What the service, the clock and the user's code do is chosen nondeterministically
  inside the methods; loops that could wait for ever run for at most `budget` connection iterations.
  The ghost `events` and `consumer` record the run, and `Valid` ties the fields to it, so every theorem
  about receive runs holds of the object.
 */
module ReceiveClients {
  import opened Wrappers
  import opened Settlement
  import opened ReceiveRuns

  lemma Regroup(a: seq<Id>, b: seq<Id>, c: seq<Id>)
    ensures a + b + c == a + (b + c)
  {
  }

  /**
    The clock side of the client. A `lastActivity` of zero means none. `lastArrival` is history: the
    reading of the clock in the last iteration that brought a message.
   */
  datatype Watch = Watch(
    clock: int, lastActivity: int, wasReceived: bool, timeoutReached: bool, shutdown: bool, lastArrival: int)
  {
    /** No message has come since the last activity. */
    predicate Sound() {
      lastArrival <= clock && (lastActivity != 0 ==> lastArrival <= lastActivity <= clock)
    }

    /** Activity has been noted only since `start`, and giving up has taken at least the timeout from then. */
    predicate Since(start: int, timeout: int) {
      && start <= clock && (lastActivity != 0 ==> lastActivity >= start)
      && (timeoutReached ==> timeout > 0 && clock - start >= timeout)
    }

    /** Why a client that began to wait at `start` stops: it is shut down, idle for the timeout, or past a deadline. */
    predicate Stopped(start: int, timeout: int, deadline: int) {
      || shutdown
      || (timeoutReached && timeout > 0 && clock - start >= timeout)
      || (deadline != 0 && clock > deadline)
    }
  }

  datatype BatchResult = Batch(messages: seq<Id>) | SizeAboveCredit | StillWaiting

  class ReceiveClient {
    const prefetch: int
    const mode: Mode
    /** Idle time, in milliseconds, after which to stop; zero for never. */
    const timeout: int
    const shutdownAfterTimeout: bool
    var link: Link
    var queue: seq<Id>
    var autoComplete: bool
    var watch: Watch
    /** History: every message put in the queue, and every message handed out, in order. */
    ghost var arrived: seq<Id>
    ghost var handedOut: seq<Id>
    /** History: the run so far, from the auto_complete the client was made with, and the plan it has reached. */
    ghost const initialAuto: bool
    ghost var events: seq<Event>
    ghost var consumer: seq<Calls>
    ghost var plan: Plan

    /** Nothing is lost, repeated or reordered, and the fields are where the run has led. */
    ghost predicate Valid() reads this {
      && Reaches(mode, initialAuto, events, consumer, plan, link)
      && queue == plan.queue && autoComplete == plan.auto
      && arrived == handedOut + queue
      && watch.Sound()
    }

    lemma Facts()
      requires Valid()
      ensures Sound(mode, plan, link) && HandedOutOnce(plan)
    {
      ReachesRun(mode, initialAuto, events, consumer, plan, link);
      EveryRunSound(mode, initialAuto, events, consumer);
      EveryRunHandsOutOnce(initialAuto, events);
    }

    ghost method Record(event: Event, calls: Calls, was: Link)
      requires Reaches(mode, initialAuto, events, consumer, plan, was) && link == NextLink(was, plan, event, calls)
      modifies this`events, this`consumer, this`plan
      ensures Reaches(mode, initialAuto, events, consumer, plan, link) && events == old(events) + [event] && plan == Next(old(plan), event)
    {
      ReachesNext(mode, initialAuto, events, consumer, plan, was, event, calls);
      events, consumer, plan := events + [event], consumer + [calls], Next(plan, event);
    }

    constructor (mode: Mode, prefetch: int, autoComplete: bool, timeout: int, shutdownAfterTimeout: bool, now: int)
      ensures Valid() && arrived == [] && link.mode == this.mode == mode
    {
      this.mode, this.prefetch, this.autoComplete := mode, prefetch, autoComplete;
      this.timeout, this.shutdownAfterTimeout := timeout, shutdownAfterTimeout;
      link, queue, watch := Link(mode, map[], [], []), [], Watch(now, 0, false, false, false, now);
      arrived, handedOut := [], [];
      initialAuto, events, consumer, plan := autoComplete, [], [], StartPlan(autoComplete);
      ReachesStart(mode, autoComplete);
    }

    /** accept, reject, release or modify. */
    method Settle(id: Id, response: Response) returns (settled: bool)
      requires id in link.deliveries && !response.AlreadySettled?
      modifies this`link
      ensures (link, settled) == Settled(old(link), id, response) && link == Respond(old(link), id, response)
    {
      link := link.(calls := link.calls + [(id, response)]);
      var delivery := link.deliveries[id];
      if delivery.Settled() {
        return false;
      }
      link := link.(deliveries := link.deliveries[id := delivery.(response := Some(response))]);
      if !response.AlreadySettled? {
        link := link.(sent := link.sent + [(id, response)]);
      }
      return true;
    }

    method CompleteMessage(id: Id, auto: bool)
      requires id in link.deliveries
      modifies this`link
      ensures link == AcceptIf(old(link), if auto then Some(id) else None)
    {
      if auto {
        var _ := Settle(id, Accepted);
      }
    }

    /** The user's code: it makes any settle calls on known messages. */
    method UserCode() returns (ghost calls: Calls)
      modifies this`link
      ensures link == RespondAll(old(link), calls) && link.deliveries.Keys == old(link.deliveries.Keys)
    {
      calls := [];
      var more: nat :| true;
      while more > 0
        invariant link == RespondAll(old(link), calls) && link.deliveries.Keys == old(link.deliveries.Keys)
      {
        var id: Id, response: Response := *, *;
        if id in link.deliveries && !response.AlreadySettled? {
          var _ := Settle(id, response);
          assert (calls + [(id, response)])[..|calls|] == calls;
          calls := calls + [(id, response)];
        }
        more := more - 1;
      }
    }

    /** The consumer's code between two calls of the client: it may settle any message it has been given. */
    method ConsumerCode()
      requires Valid()
      modifies this`link, this`events, this`consumer, this`plan
      ensures Valid() && plan == old(plan) && events == old(events) + [Pause] && SettledStays(old(link), link)
    {
      Facts();
      ghost var was := link;
      ghost var calls := UserCode();
      StepSound(mode, plan, was, Pause, calls);
      Record(Pause, calls, was);
    }

    /** The callback run on receipt of a message. */
    method MessageReceived(id: Id)
      requires Valid() && id !in link.deliveries
      modifies this`link, this`queue, this`arrived, this`watch, this`events, this`consumer, this`plan
      ensures Valid() && queue == old(queue) + [id] && arrived == old(arrived) + [id]
      ensures watch == old(watch).(wasReceived := true)
      ensures events == old(events) + [Arrival(id)] && plan == Next(old(plan), Arrival(id))
      ensures autoComplete ==> IsSettled(link, id)
      ensures SettledStays(old(link), link)
    {
      Facts();
      ghost var was := link;
      watch := watch.(wasReceived := true);
      link := link.(deliveries := link.deliveries[id := Received(link.mode)]);
      ghost var calls := UserCode();
      CompleteMessage(id, autoComplete);
      queue := queue + [id];
      arrived := arrived + [id];
      ArrivalSound(mode, plan, was, id, calls);
      Record(Arrival(id), calls, was);
    }

    /** Since the run and the plan given, messages have only arrived and been taken by a batch. */
    ghost predicate OnlyArrivals(events0: seq<Event>, plan0: Plan) reads this {
      && events0 <= events && (forall i :: |events0| <= i < |events| ==> InBatch(events[i]))
      && plan.yielded == plan0.yielded && plan.generators == plan0.generators && plan.auto == plan0.auto
    }

    /** Any number of messages arrive. */
    method Arrivals()
      requires Valid()
      modifies this`link, this`queue, this`arrived, this`watch, this`events, this`consumer, this`plan
      ensures Valid() && old(queue) <= queue && old(arrived) <= arrived && SettledStays(old(link), link)
      ensures OnlyArrivals(old(events), old(plan)) && plan.taken == old(plan.taken)
      ensures watch == old(watch).(wasReceived := old(watch.wasReceived) || queue != old(queue))
    {
      var more: nat :| true;
      while more > 0
        invariant Valid() && old(queue) <= queue && old(arrived) <= arrived && SettledStays(old(link), link)
        invariant OnlyArrivals(old(events), old(plan)) && plan.taken == old(plan.taken)
        invariant watch == old(watch).(wasReceived := old(watch.wasReceived) || queue != old(queue))
      {
        var id: Id := *;
        if id !in link.deliveries {
          MessageReceived(id);
        }
        more := more - 1;
      }
    }

    /** Time passes. */
    method ReadClock() returns (time: int)
      modifies this`watch
      ensures watch == old(watch).(clock := time) && time >= old(watch.clock)
    {
      var elapsed: nat :| true;
      time := watch.clock + elapsed;
      watch := watch.(clock := time);
    }

    /**
      The end of an iteration: a client that has been idle for the timeout gives up, and shuts down or
      forgets its last activity; one that has not been idle notes the time.
     */
    method CheckIdle()
      requires watch.Sound()
      modifies this`watch
      ensures watch.Sound() && !watch.wasReceived && watch.clock >= old(watch.clock)
      ensures var idle := old(watch.lastActivity) != 0 && !old(watch.wasReceived);
              var gaveUp := idle && timeout > 0 && watch.clock - old(watch.lastActivity) >= timeout;
              && (watch.timeoutReached <==> old(watch.timeoutReached) || gaveUp)
              && (watch.shutdown <==> old(watch.shutdown) || (gaveUp && shutdownAfterTimeout))
              && (gaveUp ==> watch.clock - old(watch.lastArrival) >= timeout)
              && watch.lastActivity == (if !idle then watch.clock
                                        else if gaveUp && !shutdownAfterTimeout then 0 else old(watch.lastActivity))
      ensures watch.lastArrival == if old(watch.wasReceived) then watch.clock else old(watch.lastArrival)
    {
      var now := ReadClock();
      if watch.wasReceived {
        watch := watch.(lastArrival := now);
      }
      if watch.lastActivity != 0 && !watch.wasReceived {
        if timeout > 0 {
          var timespan := now - watch.lastActivity;
          if timespan >= timeout {
            watch := watch.(timeoutReached := true);
            if shutdownAfterTimeout {
              watch := watch.(shutdown := true);
            } else {
              watch := watch.(lastActivity := 0);
            }
          }
        }
      } else {
        watch := watch.(lastActivity := now);
      }
      watch := watch.(wasReceived := false);
    }

    /**
      One connection iteration: nothing on a client that is shut down; until the link is open only time
      passes; then any number of messages arrive, and the client may find that it has been idle too long.
     */
    method DoWork(ready: bool, opening: bool) returns (receiving: bool)
      requires Valid()
      modifies this`link, this`queue, this`arrived, this`watch, this`events, this`consumer, this`plan
      ensures Valid() && old(queue) <= queue && old(arrived) <= arrived && SettledStays(old(link), link)
      ensures OnlyArrivals(old(events), old(plan)) && plan.taken == old(plan.taken)
      ensures receiving <==> !old(watch.shutdown)
      ensures !receiving ==> unchanged(this)
      ensures watch.clock >= old(watch.clock) && (old(watch.timeoutReached) ==> watch.timeoutReached)
      ensures watch.timeoutReached && !old(watch.timeoutReached) ==>
                timeout > 0 && queue == old(queue) && watch.clock - old(watch.lastArrival) >= timeout
      ensures receiving && ready && queue == old(queue) && !old(watch.wasReceived) && old(watch.lastActivity) != 0 ==>
                (watch.timeoutReached <==>
                 old(watch.timeoutReached) || (timeout > 0 && watch.clock - old(watch.lastActivity) >= timeout))
      ensures forall start :: old(watch).Since(start, timeout) ==> watch.Since(start, timeout)
      ensures receiving && ready && (queue != old(queue) || old(watch.lastActivity) == 0) ==> watch.lastActivity == watch.clock
    {
      if watch.shutdown {
        return false;
      }
      if ready {
        Arrivals();
        CheckIdle();
      } else {
        var now := ReadClock();
        if opening {
          watch := watch.(lastActivity := now);
        }
      }
      receiving := true;
    }

    /** Takes the message at the front of the queue. */
    method TakeOne() returns (id: Id)
      requires Valid() && queue != []
      modifies this`queue, this`handedOut, this`events, this`consumer, this`plan
      ensures Valid() && id == old(queue)[0] && queue == old(queue)[1..] && handedOut == old(handedOut) + [id]
      ensures OnlyArrivals(old(events), old(plan)) && plan.taken == old(plan.taken) + [id]
    {
      id := queue[0];
      queue, handedOut := queue[1..], handedOut + [id];
      Record(Take, [], link);
    }

    /** Moves messages from the front of the queue to the batch until one is empty or the other full. */
    method Drain(batch: seq<Id>, limit: int) returns (filled: seq<Id>, ghost taken: seq<Id>)
      requires Valid()
      modifies this`queue, this`handedOut, this`events, this`consumer, this`plan
      ensures Valid() && old(queue) == taken + queue
      ensures filled == batch + taken && handedOut == old(handedOut) + taken && plan.taken == old(plan.taken) + taken
      ensures OnlyArrivals(old(events), old(plan))
      ensures queue == [] || |filled| >= limit
      ensures taken != [] ==> |filled| <= limit
    {
      filled, taken := batch, [];
      while queue != [] && |filled| < limit
        invariant Valid() && old(queue) == taken + queue
        invariant filled == batch + taken && handedOut == old(handedOut) + taken && plan.taken == old(plan.taken) + taken
        invariant OnlyArrivals(old(events), old(plan))
        invariant taken != [] ==> |filled| <= limit
        decreases |queue|
      {
        var id := TakeOne();
        filled, taken := filled + [id], taken + [id];
      }
    }

    /**
      One turn of the wait: past the deadline it expires without working the connection; otherwise it
      works it once, and expires if messages are waiting and none came.
     */
    method WaitOnce(deadline: int) returns (receiving: bool, expired: bool)
      requires Valid()
      modifies this`link, this`queue, this`arrived, this`watch, this`events, this`consumer, this`plan
      ensures Valid() && old(queue) <= queue && SettledStays(old(link), link)
      ensures OnlyArrivals(old(events), old(plan)) && plan.taken == old(plan.taken)
      ensures !receiving ==> watch.shutdown
      ensures expired ==> queue == old(queue) && (queue != [] || (deadline != 0 && watch.clock > deadline))
      ensures queue == old(queue) != [] ==> expired
      ensures deadline != 0 && old(watch.clock) > deadline ==> expired
      ensures forall start :: old(watch).Since(start, timeout) ==> watch.Since(start, timeout)
    {
      if deadline != 0 {
        var now := ReadClock();
        if now > deadline {
          return true, true;
        }
      }
      var before := |queue|;
      var ready: bool, opening: bool := *, *;
      receiving := DoWork(ready, opening);
      expired := |queue| > 0 && |queue| == before;
    }

    /**
      Works the connection until there are `limit` messages, or none came although some are waiting, or
      time is up, or the client stops. `waited` is false when it would still be working.
     */
    method FillQueue(limit: int, deadline: int, budget: nat) returns (receiving: bool, expired: bool, waited: bool)
      requires Valid()
      modifies this`link, this`queue, this`arrived, this`watch, this`events, this`consumer, this`plan
      ensures Valid() && old(queue) <= queue && SettledStays(old(link), link)
      ensures OnlyArrivals(old(events), old(plan)) && plan.taken == old(plan.taken)
      ensures waited ==> !receiving || expired || |queue| >= limit || watch.timeoutReached
      ensures !receiving ==> watch.shutdown
      ensures expired ==> queue != [] || (deadline != 0 && watch.clock > deadline)
      ensures !waited ==> |queue| < limit && !watch.timeoutReached && receiving && !expired
      ensures forall start :: old(watch).Since(start, timeout) ==> watch.Since(start, timeout)
    {
      receiving, expired := true, false;
      var left := budget;
      while receiving && |queue| < limit && !watch.timeoutReached && !expired
        invariant Valid() && old(queue) <= queue && SettledStays(old(link), link)
        invariant OnlyArrivals(old(events), old(plan)) && plan.taken == old(plan.taken)
        invariant !receiving ==> watch.shutdown
        invariant expired ==> queue != [] || (deadline != 0 && watch.clock > deadline)
        invariant forall start :: old(watch).Since(start, timeout) ==> watch.Since(start, timeout)
        decreases left
      {
        if left == 0 {
          return receiving, expired, false;
        }
        left := left - 1;
        receiving, expired := WaitOnce(deadline);
      }
      waited := true;
    }

    /**
      Receives a batch. A size of zero stands for none given. On return the batch continues, in order,
      what was handed out before; it holds at most the size asked for, itself at most the link credit;
      and the outer loop ran at most once (`rounds`). It is settled for every consumer if and only if
      each message it takes was queued and had arrived with auto_complete on, or arrives with it on;
      when auto_complete is on, that is decided by the front of the queue at the call. A short batch
      has a message that arrived during the call, or else the client is shut down, has been idle for its
      timeout since the call, or is past the timeout given.
     */
    method ReceiveMessageBatch(maxBatchSize: int, timeoutMs: int, budget: nat) returns (result: BatchResult, ghost rounds: nat)
      requires Valid()
      modifies this
      ensures Valid() && rounds <= 1 && autoComplete == old(autoComplete)
      ensures var limit := if maxBatchSize != 0 then maxBatchSize else prefetch;
              && (result.SizeAboveCredit? <==> limit > prefetch)
              && (result.SizeAboveCredit? ==> unchanged(this))
              && (result.Batch? ==>
                    && handedOut == old(handedOut) + result.messages
                    && |result.messages| <= (if limit > 0 then limit else 0) && limit <= prefetch
                    && (|result.messages| < limit ==> queue == []))
      ensures result.Batch? && |result.messages| < (if maxBatchSize != 0 then maxBatchSize else prefetch) ==>
                || |result.messages| > |old(queue)|
                || watch.Stopped(old(watch.clock), timeout, if timeoutMs != 0 then old(watch.clock) + timeoutMs else 0)
      ensures result.StillWaiting? ==> !watch.timeoutReached
      ensures OnlyArrivals(old(events), old(plan))
      ensures result.Batch? ==> IsBatch(old(plan), plan, result.messages) && SettledAsTaken(old(plan), result.messages)
      ensures result.Batch? && autoComplete ==>
                var limit := if maxBatchSize != 0 then maxBatchSize else prefetch;
                (AllSettledForEveryConsumer(mode, initialAuto, events, result.messages) <==>
                 mode.ReceiveAndDelete? || forall i :: 0 <= i < |old(queue)| && i < limit ==> old(queue)[i] !in old(plan.off))
    {
      rounds := 0;
      var limit := if maxBatchSize != 0 then maxBatchSize else prefetch;
      if limit > prefetch {
        return SizeAboveCredit, rounds;
      }
      var deadline := if timeoutMs != 0 then watch.clock + timeoutMs else 0;
      var batch, waited;
      batch, waited, rounds := ReceiveUpTo(limit, deadline, budget);
      if !waited {
        return StillWaiting, rounds;
      }
      BatchSettled(old(events), old(consumer), old(plan), old(link), batch);
      if autoComplete {
        FrontDecides(old(plan), |batch|, limit);
      }
      return Batch(batch), rounds;
    }

    /** Takes what is in the queue and, if that is not enough, waits for more. */
    method ReceiveUpTo(limit: int, deadline: int, budget: nat) returns (batch: seq<Id>, waited: bool, ghost rounds: nat)
      requires Valid()
      modifies this`link, this`queue, this`handedOut, this`arrived, this`watch, this`events, this`consumer, this`plan
      ensures Valid() && rounds <= 1 && OnlyArrivals(old(events), old(plan))
      ensures waited ==> |batch| <= (if limit > 0 then limit else 0) && (|batch| < limit ==> queue == [])
      ensures waited ==> |batch| >= limit || |batch| >= |old(queue)|
      ensures waited && |batch| < limit ==> |batch| > |old(queue)| || watch.Stopped(old(watch.clock), timeout, deadline)
      ensures !waited ==> !watch.timeoutReached
      ensures waited ==> handedOut == old(handedOut) + batch && plan.taken == old(plan.taken) + batch
    {
      rounds, waited := 0, true;
      ghost var taken, more;
      batch, taken := Drain([], limit);
      if |batch| < limit {
        watch := watch.(timeoutReached := false, lastActivity := 0);
        batch, waited, rounds, more := FillBatch(batch, limit, deadline, budget);
        Regroup(old(handedOut), taken, more);
        Regroup(old(plan.taken), taken, more);
      }
    }

    /** The outer receive loop, which ends after one round. */
    method FillBatch(batch: seq<Id>, limit: int, deadline: int, budget: nat)
      returns (filled: seq<Id>, waited: bool, ghost rounds: nat, ghost taken: seq<Id>)
      requires Valid() && |batch| < limit && queue == [] && !watch.timeoutReached && watch.lastActivity == 0
      modifies this`link, this`queue, this`handedOut, this`arrived, this`watch, this`events, this`consumer, this`plan
      ensures Valid() && rounds <= 1 && OnlyArrivals(old(events), old(plan))
      ensures waited ==> |filled| <= limit && (|filled| < limit ==> queue == [])
      ensures waited && |filled| < limit ==> taken != [] || watch.Stopped(old(watch.clock), timeout, deadline)
      ensures !waited ==> !watch.timeoutReached
      ensures filled == batch + taken && handedOut == old(handedOut) + taken && plan.taken == old(plan.taken) + taken
    {
      filled, rounds, taken := batch, 0, [];
      var receiving, expired := true, false;
      while receiving && !expired && |filled| < limit && !watch.timeoutReached
        invariant Valid() && rounds <= 1 && |filled| <= limit
        invariant filled == batch + taken && handedOut == old(handedOut) + taken && plan.taken == old(plan.taken) + taken
        invariant OnlyArrivals(old(events), old(plan))
        invariant queue == [] || |filled| >= limit
        invariant rounds == 0 ==> taken == [] && receiving && !expired && !watch.timeoutReached && filled == batch
        invariant rounds == 1 ==> !receiving || expired || |filled| >= limit || watch.timeoutReached
        invariant watch.Since(old(watch.clock), timeout)
        invariant rounds == 1 && |filled| < limit ==> taken != [] || watch.Stopped(old(watch.clock), timeout, deadline)
        decreases 1 - rounds
      {
        rounds := rounds + 1;
        receiving, expired, waited := FillQueue(limit, deadline, budget);
        if !waited {
          return filled, false, rounds, taken;
        }
        filled, taken := Drain(filled, limit);
      }
      waited := true;
    }

    /**
      The messages of a batch that did not arrive with auto_complete off are settled; and the whole
      batch is settled for every consumer if and only if the plan at the call says so.
     */
    ghost predicate SettledAsTaken(plan0: Plan, batch: seq<Id>) reads this {
      && (forall i :: 0 <= i < |batch| && batch[i] !in plan.off ==> IsSettled(link, batch[i]))
      && (AllSettledForEveryConsumer(mode, initialAuto, events, batch) <==>
          mode.ReceiveAndDelete? || OnAtCall(plan0, |batch|))
    }

    /** The run of this batch call is one that the theorems on batches speak of. */
    lemma BatchSettled(events0: seq<Event>, consumer0: seq<Calls>, plan0: Plan, link0: Link, batch: seq<Id>)
      requires Valid() && Reaches(mode, initialAuto, events0, consumer0, plan0, link0) && OnlyArrivals(events0, plan0)
      requires IsBatch(plan0, plan, batch)
      ensures SettledAsTaken(plan0, batch)
    {
      ReachesRun(mode, initialAuto, events0, consumer0, plan0, link0);
      ReachesRun(mode, initialAuto, events, consumer, plan, link);
      var during := events[|events0|..];
      assert events == events0 + during && BatchEvents(during);
      BatchSettledAtCall(mode, initialAuto, events0, during, batch);
      Facts();
      forall i | 0 <= i < |batch| && batch[i] !in plan.off ensures IsSettled(link, batch[i]) {
        BatchKnown(initialAuto, events, plan0, batch, i);
      }
    }

    /** The generator `name` is open: it will restore `auto`, and these are the messages it has yielded. */
    ghost predicate Open(name: Name, auto: bool, yielded: seq<Id>, running: bool) reads this {
      && name in plan.generators
      && plan.generators[name] == Generator(auto, if yielded == [] then None else Some(yielded[|yielded| - 1]),
                                            if running then Running else Suspended)
      && YieldedBy(yielded, name)
    }

    ghost predicate YieldedBy(yielded: seq<Id>, name: Name) reads this {
      forall i :: 0 <= i < |yielded| ==> yielded[i] in plan.yielded && plan.yielded[yielded[i]] == name
    }

    /** Yields what is in the queue; the consumer may close the generator at any yield. */
    method YieldQueue(yielded: seq<Id>, auto: bool, ghost name: Name) returns (all: seq<Id>, closed: bool)
      requires Valid() && YieldedSettled(yielded, auto, false) && Open(name, auto, yielded, true)
      modifies this`link, this`queue, this`handedOut, this`events, this`consumer, this`plan
      ensures Valid() && YieldedSettled(all, auto, closed) && Open(name, auto, all, !closed)
      ensures yielded <= all && handedOut == old(handedOut) + all[|yielded|..]
      ensures closed ==> all != []
      ensures closed || queue == []
      ensures old(queue) != [] ==> all != []
    {
      all, closed := yielded, false;
      while queue != [] && !closed
        invariant Valid() && YieldedSettled(all, auto, closed) && Open(name, auto, all, !closed)
        invariant yielded <= all && handedOut == old(handedOut) + all[|yielded|..]
        invariant closed ==> all != []
        invariant queue == old(queue) || all != []
        decreases |queue|
      {
        all := YieldOne(all, auto, name);
        closed := *;
        if !closed {
          ResumeAfter(all, auto, name);
        }
      }
    }

    /** Hands one message to the consumer, whose code runs. */
    method YieldOne(yielded: seq<Id>, auto: bool, ghost name: Name) returns (all: seq<Id>)
      requires Valid() && YieldedSettled(yielded, auto, false) && Open(name, auto, yielded, true) && queue != []
      modifies this`link, this`queue, this`handedOut, this`events, this`consumer, this`plan
      ensures Valid() && all == yielded + [old(queue)[0]] && Open(name, auto, all, false)
      ensures YieldedSettled(all, auto, true)
      ensures handedOut == old(handedOut) + [old(queue)[0]] && queue == old(queue)[1..]
    {
      Facts();
      var message := queue[0];
      assert (plan.taken + plan.queue)[|plan.taken|] == message;
      ghost var was := link;
      all, handedOut, queue := yielded + [message], handedOut + [message], queue[1..];
      ghost var calls := UserCode();
      StepSound(mode, plan, was, Yield(name), calls);
      Record(Yield(name), calls, was);
    }

    /** The consumer asks for more: the message it was given is completed. */
    method ResumeAfter(yielded: seq<Id>, auto: bool, ghost name: Name)
      requires Valid() && yielded != [] && YieldedSettled(yielded, auto, true) && Open(name, auto, yielded, false)
      modifies this`link, this`events, this`consumer, this`plan
      ensures Valid() && YieldedSettled(yielded, auto, false) && Open(name, auto, yielded, true)
    {
      Facts();
      ghost var was := link;
      CompleteLast(yielded, auto, true);
      Record(Resume(name), [], was);
    }

    /** Completes the message yielded last, if there is one. */
    method CompleteLast(yielded: seq<Id>, auto: bool, held: bool)
      requires FirstCallWins(link) && YieldedSettled(yielded, auto, held)
      modifies this`link
      ensures YieldedSettled(yielded, auto, false)
      ensures link == AcceptIf(old(link), if auto && yielded != [] then Some(yielded[|yielded| - 1]) else None)
    {
      if yielded != [] {
        AcceptIfKeeps(link, Some(yielded[|yielded| - 1]));
        CompleteMessage(yielded[|yielded| - 1], auto);
      }
    }

    /** Works the connection until a message is in the queue or the client stops. */
    method AwaitMessage(budget: nat) returns (receiving: bool, left: nat)
      requires Valid()
      modifies this`link, this`queue, this`arrived, this`watch, this`events, this`consumer, this`plan
      ensures Valid() && SettledStays(old(link), link)
      ensures plan.generators == old(plan.generators) && plan.yielded == old(plan.yielded)
      ensures old(arrived) <= arrived && handedOut == old(handedOut)
      ensures left < budget || (left == budget && receiving && unchanged(this))
      ensures left == 0 || !receiving || queue != [] || watch.timeoutReached
      ensures !receiving ==> watch.shutdown
      ensures old(queue) != [] ==> left == budget
      ensures forall start :: old(watch).Since(start, timeout) ==> watch.Since(start, timeout)
    {
      receiving, left := true, budget;
      while left > 0 && receiving && queue == [] && !watch.timeoutReached
        invariant Valid() && SettledStays(old(link), link)
        invariant plan.generators == old(plan.generators) && plan.yielded == old(plan.yielded)
        invariant old(arrived) <= arrived
        invariant left < budget || (left == budget && receiving && unchanged(this))
        invariant !receiving ==> watch.shutdown
        invariant old(queue) != [] ==> left == budget
        invariant forall start :: old(watch).Since(start, timeout) ==> watch.Since(start, timeout)
      {
        left := left - 1;
        var ready: bool, opening: bool := *, *;
        receiving := DoWork(ready, opening);
      }
    }

    /**
      The message generator, run to its end: until the client stops receiving, times out, or the
      consumer closes it. `finished` is false when it would still be waiting for messages. What was
      queued is yielded first, and all of it unless the consumer closes the generator.
     */
    method MessageGenerator(budget: nat, ghost name: Name) returns (yielded: seq<Id>, closed: bool, finished: bool)
      requires Valid() && name !in plan.generators
      modifies this
      ensures Valid() && handedOut == old(handedOut) + yielded
      ensures !closed ==> queue == [] && old(queue) <= yielded
      ensures old(queue) != [] ==> yielded != [] && yielded[0] == old(queue)[0]
      ensures finished ==> closed || watch.Stopped(old(watch.clock), timeout, 0)
      ensures !finished ==> !closed && !watch.timeoutReached
      ensures finished ==> autoComplete == old(autoComplete)
      ensures finished && autoComplete ==> forall i :: 0 <= i < |yielded| ==>
                IsSettled(link, yielded[i]) && |For(link.sent, yielded[i])| == if mode.PeekLock? then 1 else 0
      ensures finished ==>
                (AllSettledForEveryConsumer(mode, initialAuto, events, yielded) <==>
                 mode.ReceiveAndDelete? || autoComplete || forall i :: 0 <= i < |yielded| ==> yielded[i] !in plan.off)
    {
      var auto := OpenGenerator(name);
      watch := watch.(timeoutReached := false, lastActivity := 0);
      yielded, closed, finished := RunGenerator(auto, budget, name);
      InOrder(old(handedOut), old(queue), yielded);
      if finished {
        CloseGenerator(yielded, auto, closed, name);
        if auto {
          OneDispositionEach(yielded);
        }
        GeneratorSettled(yielded, name);
      }
    }

    /** What was queued comes first in what has been handed out since. */
    lemma InOrder(handedOut0: seq<Id>, queue0: seq<Id>, since: seq<Id>)
      requires arrived == handedOut + queue && handedOut0 + queue0 <= arrived && handedOut == handedOut0 + since
      ensures queue == [] ==> queue0 <= since
      ensures queue0 != [] && since != [] ==> since[0] == queue0[0]
    {
      var k := |handedOut0|;
      assert forall i :: 0 <= i < |queue0| ==> queue0[i] == (handedOut0 + queue0)[k + i] == arrived[k + i];
      assert forall i :: 0 <= i < |since| ==> since[i] == handedOut[k + i] == arrived[k + i];
    }

    /** The loop of the generator. */
    method RunGenerator(auto: bool, budget: nat, ghost name: Name) returns (yielded: seq<Id>, closed: bool, finished: bool)
      requires Valid() && Open(name, auto, [], true) && !watch.timeoutReached && watch.lastActivity == 0
      modifies this`link, this`queue, this`handedOut, this`arrived, this`watch, this`events, this`consumer, this`plan
      ensures Valid() && handedOut == old(handedOut) + yielded && old(arrived) <= arrived
      ensures YieldedSettled(yielded, auto, closed) && Open(name, auto, yielded, !closed)
      ensures !closed ==> queue == []
      ensures old(queue) != [] ==> yielded != []
      ensures finished ==> closed || watch.Stopped(old(watch.clock), timeout, 0)
      ensures !finished ==> !closed && !watch.timeoutReached
    {
      var receiving, left := true, budget;
      yielded, closed := [], false;
      ghost var turns := 0;
      while receiving && !watch.timeoutReached && !closed
        invariant Valid() && handedOut == old(handedOut) + yielded && old(arrived) <= arrived
        invariant YieldedSettled(yielded, auto, closed) && (closed ==> yielded != [])
        invariant Open(name, auto, yielded, !closed)
        invariant watch.Since(old(watch.clock), timeout)
        invariant !receiving ==> watch.shutdown
        invariant turns == 0 ==> receiving && !watch.timeoutReached && !closed && queue == old(queue)
        invariant turns > 0 ==> (!closed ==> queue == []) && (old(queue) != [] ==> yielded != [])
        decreases left, if closed then 0 else 1 + |queue|
      {
        receiving, left := AwaitMessage(left);
        if left == 0 && receiving && queue == [] && !watch.timeoutReached {
          return yielded, closed, false;
        }
        yielded, closed := YieldQueue(yielded, auto, name);
        turns := turns + 1;
      }
      finished := true;
    }

    /** The run of this generator is one that the theorem on closed generators speaks of. */
    lemma GeneratorSettled(yielded: seq<Id>, name: Name)
      requires Valid() && name in plan.generators && plan.generators[name].phase.Closed? && YieldedBy(yielded, name)
      ensures AllSettledForEveryConsumer(mode, initialAuto, events, yielded) <==>
              || mode.ReceiveAndDelete? || plan.generators[name].saved
              || forall i :: 0 <= i < |yielded| ==> yielded[i] !in plan.off
    {
      ReachesRun(mode, initialAuto, events, consumer, plan, link);
      forall i | 0 <= i < |yielded|
        ensures SettledForEveryConsumer(mode, initialAuto, events, yielded[i]) <==>
                mode.ReceiveAndDelete? || plan.generators[name].saved || yielded[i] !in plan.off
      {
        YieldedSettledIff(mode, initialAuto, events, name, yielded[i]);
      }
    }

    lemma OneDispositionEach(ids: seq<Id>)
      requires Valid() && YieldedSettled(ids, true, false)
      ensures forall i :: 0 <= i < |ids| ==>
                IsSettled(link, ids[i]) && |For(link.sent, ids[i])| == if mode.PeekLock? then 1 else 0
    {
      Facts();
      forall i | 0 <= i < |ids| ensures |For(link.sent, ids[i])| == if mode.PeekLock? then 1 else 0 {
        ExactlyOneWhenSettled(link, ids[i]);
      }
    }

    /** auto_complete is off for as long as the generator is open. */
    method OpenGenerator(ghost name: Name) returns (auto: bool)
      requires Valid() && name !in plan.generators
      modifies this`autoComplete, this`events, this`consumer, this`plan
      ensures Valid() && auto == old(autoComplete) && !autoComplete && Open(name, auto, [], true)
    {
      auto := autoComplete;
      autoComplete := false;
      Record(Begin(name), [], link);
    }

    /** The `finally` of the generator. */
    method CloseGenerator(yielded: seq<Id>, auto: bool, closed: bool, ghost name: Name)
      requires Valid() && YieldedSettled(yielded, auto, closed) && Open(name, auto, yielded, !closed)
      modifies this`link, this`autoComplete, this`events, this`consumer, this`plan
      ensures Valid() && autoComplete == auto && YieldedSettled(yielded, auto, false)
      ensures name in plan.generators && plan.generators[name].phase.Closed? && plan.generators[name].saved == auto
      ensures YieldedBy(yielded, name)
    {
      Facts();
      ghost var was := link;
      CompleteLast(yielded, auto, closed);
      autoComplete := auto;
      Record(Close(name), [], was);
    }

    /** All that was yielded is settled, except the last message when the consumer still has it. */
    predicate YieldedSettled(yielded: seq<Id>, auto: bool, held: bool)
      reads this
    {
      && (forall i :: 0 <= i < |yielded| ==> yielded[i] in link.deliveries)
      && (auto ==> forall i :: 0 <= i < |yielded| - (if held then 1 else 0) ==> IsSettled(link, yielded[i]))
    }
  }
}

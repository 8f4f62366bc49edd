/**
  Whole runs of a receive client: messages arrive, generators are begun, yield and are closed, batches
  take from the queue, and the consumer makes any settle calls it likes along the way. The plan is what
  happens whatever the consumer calls; the link is what the calls make of it.
 */
module ReceiveRuns {
  import opened Wrappers
  import opened Settlement

  type Name = nat

  /** Running its own code, suspended at a yield, or finished. */
  datatype Phase = Running | Suspended | Closed

  /** A generator: the auto_complete it found and will restore, and the message it yielded last. */
  datatype Generator = Generator(saved: bool, current: Option<Id>, phase: Phase)

  datatype Plan = Plan(
    known: set<Id>,
    queue: seq<Id>,
    taken: seq<Id>,          // handed out in batches, in order
    yielded: map<Id, Name>,  // handed out by generators, and by which
    auto: bool,              // the client's auto_complete
    generators: map<Name, Generator>,
    off: set<Id>)            // history: arrived while auto_complete was off

  datatype Event =
    | Arrival(id: Id)
    | Begin(name: Name)
    | Yield(name: Name)
    | Resume(name: Name)
    | Close(name: Name)
    | Take
    | Pause

  /** The settle calls the consumer makes at one event. */
  type Calls = seq<(Id, Response)>

  function StartPlan(auto: bool): Plan {
    Plan({}, [], [], map[], auto, map[], {})
  }

  predicate Possible(p: Plan, event: Event) {
    match event
    case Arrival(id) => id !in p.known
    case Begin(name) => name !in p.generators
    case Yield(name) => name in p.generators && p.generators[name].phase.Running? && p.queue != []
    case Resume(name) => name in p.generators && p.generators[name].phase.Suspended?
    case Close(name) => name in p.generators && !p.generators[name].phase.Closed?
    case Take => p.queue != []
    case Pause => true
  }

  /** The next plan; an event that cannot happen changes nothing. */
  function Next(p: Plan, event: Event): Plan {
    if !Possible(p, event) then p
    else
      match event
      case Arrival(id) =>
        p.(known := p.known + {id}, queue := p.queue + [id], off := if p.auto then p.off else p.off + {id})
      case Begin(name) =>
        p.(auto := false, generators := p.generators[name := Generator(p.auto, None, Running)])
      case Yield(name) =>
        p.(queue := p.queue[1..], yielded := p.yielded[p.queue[0] := name],
           generators := p.generators[name := Generator(p.generators[name].saved, Some(p.queue[0]), Suspended)])
      case Resume(name) => p.(generators := p.generators[name := p.generators[name].(phase := Running)])
      case Close(name) =>
        p.(auto := p.generators[name].saved, generators := p.generators[name := p.generators[name].(phase := Closed)])
      case Take => p.(queue := p.queue[1..], taken := p.taken + [p.queue[0]])
      case Pause => p
  }

  /** The message that the client itself accepts at an event. */
  function Accepts(p: Plan, event: Event): Option<Id> {
    if !Possible(p, event) then None
    else
      match event
      case Arrival(id) => if p.auto then Some(id) else None
      case Resume(name) => if p.generators[name].saved then p.generators[name].current else None
      case Close(name) => if p.generators[name].saved then p.generators[name].current else None
      case _ => None
  }

  function Respond(link: Link, id: Id, response: Response): Link {
    if id in link.deliveries && !response.AlreadySettled? then Settled(link, id, response).0 else link
  }

  function RespondAll(link: Link, calls: Calls): Link {
    if calls == [] then link
    else
      var last := calls[|calls| - 1];
      Respond(RespondAll(link, calls[..|calls| - 1]), last.0, last.1)
  }

  function AcceptIf(link: Link, id: Option<Id>): Link {
    if id.Some? then Respond(link, id.value, Accepted) else link
  }

  /** On arrival the consumer's callback runs before the accept, elsewhere the consumer runs after it. */
  function NextLink(link: Link, p: Plan, event: Event, calls: Calls): Link {
    if event.Arrival? && Possible(p, event) then AcceptIf(RespondAll(Arrived(link, event.id), calls), Accepts(p, event))
    else RespondAll(AcceptIf(link, Accepts(p, event)), calls)
  }

  function PlanAfter(auto: bool, events: seq<Event>): Plan {
    if events == [] then StartPlan(auto)
    else Next(PlanAfter(auto, events[..|events| - 1]), events[|events| - 1])
  }

  function LinkAfter(mode: Mode, auto: bool, events: seq<Event>, consumer: seq<Calls>): Link
    requires |consumer| == |events|
  {
    if events == [] then Link(mode, map[], [], [])
    else
      var n := |events| - 1;
      NextLink(LinkAfter(mode, auto, events[..n], consumer[..n]), PlanAfter(auto, events[..n]), events[n], consumer[n])
  }

  lemma PlanSnoc(auto: bool, events: seq<Event>, event: Event)
    ensures PlanAfter(auto, events + [event]) == Next(PlanAfter(auto, events), event)
  {
    assert (events + [event])[..|events|] == events;
  }

  /** The plans and the links a run goes through, from the first to the last. */
  ghost predicate Follows(mode: Mode, auto: bool, events: seq<Event>, consumer: seq<Calls>, plans: seq<Plan>, links: seq<Link>) {
    && |consumer| == |events| && |plans| == |links| == |events| + 1
    && plans[0] == StartPlan(auto) && links[0] == Link(mode, map[], [], [])
    && forall i {:trigger events[i]} :: 0 <= i < |events| ==>
         plans[i + 1] == Next(plans[i], events[i]) && links[i + 1] == NextLink(links[i], plans[i], events[i], consumer[i])
  }

  ghost predicate Reaches(mode: Mode, auto: bool, events: seq<Event>, consumer: seq<Calls>, p: Plan, link: Link) {
    exists plans, links :: Follows(mode, auto, events, consumer, plans, links) && plans[|events|] == p && links[|events|] == link
  }

  lemma ReachesStart(mode: Mode, auto: bool)
    ensures Reaches(mode, auto, [], [], StartPlan(auto), Link(mode, map[], [], []))
  {
    assert Follows(mode, auto, [], [], [StartPlan(auto)], [Link(mode, map[], [], [])]);
  }

  lemma ReachesNext(mode: Mode, auto: bool, events: seq<Event>, consumer: seq<Calls>, p: Plan, link: Link, event: Event, calls: Calls)
    requires Reaches(mode, auto, events, consumer, p, link)
    ensures Reaches(mode, auto, events + [event], consumer + [calls], Next(p, event), NextLink(link, p, event, calls))
  {
    var plans, links :| Follows(mode, auto, events, consumer, plans, links) && plans[|events|] == p && links[|events|] == link;
    assert Follows(mode, auto, events + [event], consumer + [calls],
                   plans + [Next(p, event)], links + [NextLink(link, p, event, calls)]);
  }

  lemma {:induction false} FollowsRun(mode: Mode, auto: bool, events: seq<Event>, consumer: seq<Calls>, plans: seq<Plan>, links: seq<Link>)
    requires Follows(mode, auto, events, consumer, plans, links)
    ensures plans[|events|] == PlanAfter(auto, events) && links[|events|] == LinkAfter(mode, auto, events, consumer)
    decreases |events|
  {
    if events != [] {
      var n := |events| - 1;
      assert Follows(mode, auto, events[..n], consumer[..n], plans[..n + 1], links[..n + 1]);
      FollowsRun(mode, auto, events[..n], consumer[..n], plans[..n + 1], links[..n + 1]);
      assert events[n] == events[|events| - 1];
    }
  }

  lemma ReachesRun(mode: Mode, auto: bool, events: seq<Event>, consumer: seq<Calls>, p: Plan, link: Link)
    requires Reaches(mode, auto, events, consumer, p, link)
    ensures |consumer| == |events| && p == PlanAfter(auto, events) && link == LinkAfter(mode, auto, events, consumer)
  {
    var plans, links :| Follows(mode, auto, events, consumer, plans, links) && plans[|events|] == p && links[|events|] == link;
    FollowsRun(mode, auto, events, consumer, plans, links);
  }

  // ---------------------------------------------------------------- what every run keeps

  predicate IsSettled(link: Link, id: Id) {
    id in link.deliveries && link.deliveries[id].Settled()
  }

  /** Settled messages stay settled, and no message is forgotten. */
  ghost predicate SettledStays(before: Link, after: Link) {
    && before.deliveries.Keys <= after.deliveries.Keys && before.mode == after.mode
    && forall id :: IsSettled(before, id) ==> IsSettled(after, id)
  }

  lemma RespondKeeps(link: Link, id: Id, response: Response)
    requires FirstCallWins(link)
    ensures FirstCallWins(Respond(link, id, response)) && SettledStays(link, Respond(link, id, response))
    ensures Respond(link, id, response).deliveries.Keys == link.deliveries.Keys
    ensures id in link.deliveries && !response.AlreadySettled? ==> IsSettled(Respond(link, id, response), id)
  {
    if id in link.deliveries && !response.AlreadySettled? {
      SettledKeeps(link, id, response);
    }
  }

  lemma {:induction false} RespondAllKeeps(link: Link, calls: Calls)
    requires FirstCallWins(link)
    ensures FirstCallWins(RespondAll(link, calls)) && SettledStays(link, RespondAll(link, calls))
    ensures RespondAll(link, calls).deliveries.Keys == link.deliveries.Keys
  {
    if calls != [] {
      var n := |calls| - 1;
      RespondAllKeeps(link, calls[..n]);
      RespondKeeps(RespondAll(link, calls[..n]), calls[n].0, calls[n].1);
    }
  }

  lemma AcceptIfKeeps(link: Link, id: Option<Id>)
    requires FirstCallWins(link)
    ensures FirstCallWins(AcceptIf(link, id)) && SettledStays(link, AcceptIf(link, id))
    ensures AcceptIf(link, id).deliveries.Keys == link.deliveries.Keys
    ensures id.Some? && id.value in link.deliveries ==> IsSettled(AcceptIf(link, id), id.value)
  {
    if id.Some? {
      RespondKeeps(link, id.value, Accepted);
    }
  }

  /** The link knows the messages of the plan, settles by the first call, and holds what arrived with auto_complete on as settled. */
  ghost predicate Sound(mode: Mode, p: Plan, link: Link) {
    && link.mode == mode && link.deliveries.Keys == p.known && FirstCallWins(link)
    && forall id :: id in p.known && id !in p.off ==> IsSettled(link, id)
  }

  lemma ArrivalSound(mode: Mode, p: Plan, link: Link, id: Id, calls: Calls)
    requires Sound(mode, p, link) && id !in p.known
    ensures Sound(mode, Next(p, Arrival(id)), NextLink(link, p, Arrival(id), calls))
    ensures SettledStays(link, NextLink(link, p, Arrival(id), calls))
  {
    ArrivedKeeps(link, id);
    var arrived := Arrived(link, id);
    assert arrived.deliveries.Keys == p.known + {id} && SettledStays(link, arrived);
    RespondAllKeeps(arrived, calls);
    AcceptIfKeeps(RespondAll(arrived, calls), Accepts(p, Arrival(id)));
  }

  lemma StepSound(mode: Mode, p: Plan, link: Link, event: Event, calls: Calls)
    requires Sound(mode, p, link)
    ensures Sound(mode, Next(p, event), NextLink(link, p, event, calls))
    ensures SettledStays(link, NextLink(link, p, event, calls))
  {
    if event.Arrival? && Possible(p, event) {
      ArrivalSound(mode, p, link, event.id, calls);
    } else {
      AcceptIfKeeps(link, Accepts(p, event));
      RespondAllKeeps(AcceptIf(link, Accepts(p, event)), calls);
      assert Next(p, event).known == p.known && Next(p, event).off == p.off;
    }
  }

  /** Whatever the consumer calls, a message that arrived with auto_complete on is settled. */
  lemma {:induction false} EveryRunSound(mode: Mode, auto: bool, events: seq<Event>, consumer: seq<Calls>)
    requires |consumer| == |events|
    ensures Sound(mode, PlanAfter(auto, events), LinkAfter(mode, auto, events, consumer))
  {
    if events != [] {
      var n := |events| - 1;
      EveryRunSound(mode, auto, events[..n], consumer[..n]);
      StepSound(mode, PlanAfter(auto, events[..n]), LinkAfter(mode, auto, events[..n], consumer[..n]), events[n], consumer[n]);
    }
  }

  // ---------------------------------------------------------------- handed out once

  predicate Distinct(ids: seq<Id>) {
    forall i, j :: 0 <= i < j < |ids| ==> ids[i] != ids[j]
  }

  /** A message is in the queue, taken by a batch or yielded by a generator, and in one of them only. */
  ghost predicate HandedOutOnce(p: Plan) {
    && Distinct(p.taken + p.queue)
    && (forall id :: id in p.taken + p.queue ==> id in p.known && id !in p.yielded)
    && (forall id :: id in p.known ==> id in p.taken + p.queue || id in p.yielded)
    && p.yielded.Keys <= p.known && p.off <= p.known
    && GeneratorsMatch(p)
  }

  /** Every yielded message has its generator, and a generator's last message is one it yielded. */
  ghost predicate GeneratorsMatch(p: Plan) {
    && (forall id :: id in p.yielded ==> p.yielded[id] in p.generators)
    && forall name :: name in p.generators && p.generators[name].current.Some? ==>
         var id := p.generators[name].current.value; id in p.yielded && p.yielded[id] == name
  }

  lemma TakeHeadKeeps(p: Plan)
    requires HandedOutOnce(p) && p.queue != []
    ensures p.taken + [p.queue[0]] + p.queue[1..] == p.taken + p.queue
    ensures var rest := p.taken + p.queue[1..];
            && Distinct(rest) && p.queue[0] !in rest
            && forall id :: id in p.taken + p.queue <==> id in rest || id == p.queue[0]
  {
    var head, all, rest, k := p.queue[0], p.taken + p.queue, p.taken + p.queue[1..], |p.taken|;
    assert p.queue == [head] + p.queue[1..];
    assert all[k] == head;
    assert forall i :: 0 <= i < |rest| ==> rest[i] == all[if i < k then i else i + 1];
    forall id | id in all && id != head ensures id in rest {
      var i :| 0 <= i < |all| && all[i] == id;
      assert rest[if i < k then i else i - 1] == id;
    }
  }

  lemma HandedOutStep(p: Plan, event: Event)
    requires HandedOutOnce(p)
    ensures HandedOutOnce(Next(p, event))
  {
    if Possible(p, event) {
      match event {
        case Arrival(id) => assert p.taken + (p.queue + [id]) == p.taken + p.queue + [id];
        case Yield(_) => TakeHeadKeeps(p);
        case Take => TakeHeadKeeps(p);
        case _ =>
      }
    }
  }

  lemma {:induction false} EveryRunHandsOutOnce(auto: bool, events: seq<Event>)
    ensures HandedOutOnce(PlanAfter(auto, events))
  {
    if events != [] {
      EveryRunHandsOutOnce(auto, events[..|events| - 1]);
      HandedOutStep(PlanAfter(auto, events[..|events| - 1]), events[|events| - 1]);
    }
  }

  // ---------------------------------------------------------------- what generators settle

  /** Yielded by a generator that found auto_complete on, and that has come back from the yield. */
  predicate Completed(p: Plan, id: Id) {
    && id in p.yielded && p.yielded[id] in p.generators
    && var generator := p.generators[p.yielded[id]];
       generator.saved && !(generator.phase.Suspended? && generator.current == Some(id))
  }

  ghost predicate CompletedSettled(p: Plan, link: Link) {
    forall id :: Completed(p, id) ==> IsSettled(link, id)
  }

  /** A message becomes completed only at the event that accepts it. */
  lemma CompletedStep(p: Plan, event: Event, id: Id)
    requires HandedOutOnce(p)
    ensures Completed(Next(p, event), id) <==> Completed(p, id) || (Accepts(p, event) == Some(id) && !event.Arrival?)
  {
    if event.Yield? && Possible(p, event) {
      assert p.queue[0] !in p.yielded by {
        assert (p.taken + p.queue)[|p.taken|] == p.queue[0];
      }
    }
  }

  lemma CompletedSettledStep(mode: Mode, p: Plan, link: Link, event: Event, calls: Calls)
    requires HandedOutOnce(p) && Sound(mode, p, link) && CompletedSettled(p, link)
    ensures CompletedSettled(Next(p, event), NextLink(link, p, event, calls))
  {
    StepSound(mode, p, link, event, calls);
    forall id | Completed(Next(p, event), id) ensures IsSettled(NextLink(link, p, event, calls), id) {
      CompletedStep(p, event, id);
      if !Completed(p, id) {
        AcceptIfKeeps(link, Accepts(p, event));
        RespondAllKeeps(AcceptIf(link, Accepts(p, event)), calls);
      }
    }
  }

  /** Whatever the consumer calls, what a generator that found auto_complete on has come back from is settled. */
  lemma {:induction false} EveryRunCompletes(mode: Mode, auto: bool, events: seq<Event>, consumer: seq<Calls>)
    requires |consumer| == |events|
    ensures CompletedSettled(PlanAfter(auto, events), LinkAfter(mode, auto, events, consumer))
  {
    if events != [] {
      var n := |events| - 1;
      EveryRunCompletes(mode, auto, events[..n], consumer[..n]);
      EveryRunHandsOutOnce(auto, events[..n]);
      EveryRunSound(mode, auto, events[..n], consumer[..n]);
      CompletedSettledStep(mode, PlanAfter(auto, events[..n]), LinkAfter(mode, auto, events[..n], consumer[..n]), events[n], consumer[n]);
    }
  }

  // ---------------------------------------------------------------- a consumer that settles nothing

  function Silent(n: nat): (consumer: seq<Calls>)
    ensures |consumer| == n && forall i :: 0 <= i < n ==> consumer[i] == []
  {
    seq(n, _ => [])
  }

  /** Without calls of the consumer, what arrived with auto_complete off is settled by a generator or not at all. */
  ghost predicate Untouched(p: Plan, link: Link) {
    forall id :: id in p.off && !Completed(p, id) ==> id in link.deliveries && !IsSettled(link, id)
  }

  lemma SilentStep(p: Plan, link: Link, event: Event)
    requires HandedOutOnce(p) && link.mode.PeekLock? && link.deliveries.Keys == p.known && Untouched(p, link)
    ensures Untouched(Next(p, event), NextLink(link, p, event, []))
  {
    assert RespondAll(link, []) == link;
    forall id | id in Next(p, event).off && !Completed(Next(p, event), id)
      ensures id in NextLink(link, p, event, []).deliveries && !IsSettled(NextLink(link, p, event, []), id)
    {
      CompletedStep(p, event, id);
    }
  }

  lemma {:induction false} SilentRun(auto: bool, events: seq<Event>)
    ensures Untouched(PlanAfter(auto, events), LinkAfter(PeekLock, auto, events, Silent(|events|)))
  {
    if events != [] {
      var n := |events| - 1;
      assert Silent(|events|)[..n] == Silent(n);
      SilentRun(auto, events[..n]);
      EveryRunHandsOutOnce(auto, events[..n]);
      EveryRunSound(PeekLock, auto, events[..n], Silent(n));
      SilentStep(PlanAfter(auto, events[..n]), LinkAfter(PeekLock, auto, events[..n], Silent(n)), events[n]);
    }
  }

  // ---------------------------------------------------------------- settled for every consumer

  ghost predicate SettledForEveryConsumer(mode: Mode, auto: bool, events: seq<Event>, id: Id) {
    forall consumer :: |consumer| == |events| ==> IsSettled(LinkAfter(mode, auto, events, consumer), id)
  }

  ghost predicate AllSettledForEveryConsumer(mode: Mode, auto: bool, events: seq<Event>, ids: seq<Id>) {
    forall i :: 0 <= i < |ids| ==> SettledForEveryConsumer(mode, auto, events, ids[i])
  }

  /**
    In every run a message is settled, whatever the consumer does, if and only if it arrived with
    auto_complete on, or a generator that found auto_complete on has yielded it and come back, or the
    mode is ReceiveAndDelete.
   */
  lemma MessageSettledIff(mode: Mode, auto: bool, events: seq<Event>, id: Id)
    requires id in PlanAfter(auto, events).known
    ensures var p := PlanAfter(auto, events);
            SettledForEveryConsumer(mode, auto, events, id) <==> mode.ReceiveAndDelete? || id !in p.off || Completed(p, id)
  {
    var p := PlanAfter(auto, events);
    if mode.ReceiveAndDelete? || id !in p.off || Completed(p, id) {
      forall consumer | |consumer| == |events| ensures IsSettled(LinkAfter(mode, auto, events, consumer), id) {
        EveryRunSound(mode, auto, events, consumer);
        EveryRunCompletes(mode, auto, events, consumer);
        assert FirstCallWinsFor(LinkAfter(mode, auto, events, consumer), id);
      }
    } else {
      UnsettledUnsent(auto, events, id);
      assert !IsSettled(LinkAfter(mode, auto, events, Silent(|events|)), id);
    }
  }

  /** Otherwise the consumer that settles nothing leaves it without a disposition. */
  lemma UnsettledUnsent(auto: bool, events: seq<Event>, id: Id)
    requires var p := PlanAfter(auto, events); id in p.off && !Completed(p, id)
    ensures var link := LinkAfter(PeekLock, auto, events, Silent(|events|)); !IsSettled(link, id) && For(link.sent, id) == []
  {
    SilentRun(auto, events);
    EveryRunSound(PeekLock, auto, events, Silent(|events|));
    assert FirstCallWinsFor(LinkAfter(PeekLock, auto, events, Silent(|events|)), id);
  }

  /**
    What a closed generator yielded is settled for every consumer if and only if that generator found
    auto_complete on, or the message arrived with it on, or the mode is ReceiveAndDelete.
   */
  lemma YieldedSettledIff(mode: Mode, auto: bool, events: seq<Event>, name: Name, id: Id)
    requires var p := PlanAfter(auto, events);
             && name in p.generators && p.generators[name].phase.Closed?
             && id in p.yielded && p.yielded[id] == name
    ensures var p := PlanAfter(auto, events);
            SettledForEveryConsumer(mode, auto, events, id) <==>
            mode.ReceiveAndDelete? || p.generators[name].saved || id !in p.off
  {
    EveryRunHandsOutOnce(auto, events);
    MessageSettledIff(mode, auto, events, id);
  }

  // ---------------------------------------------------------------- batches

  /** What can happen during a batch call: arrivals, takes and the consumer's own code. */
  predicate InBatch(event: Event) {
    event.Arrival? || event.Take? || event.Pause?
  }

  predicate BatchEvents(events: seq<Event>) {
    forall i :: 0 <= i < |events| ==> InBatch(events[i])
  }

  /** During a batch call messages only move from the arrivals to the queue and from its front to the batch. */
  ghost predicate Moves(p: Plan, p': Plan, arrivals: seq<Id>) {
    && p'.auto == p.auto && p.taken <= p'.taken && p'.yielded == p.yielded && p.known <= p'.known
    && p'.taken + p'.queue == p.taken + p.queue + arrivals
    && (forall i :: 0 <= i < |arrivals| ==> arrivals[i] !in p.known && arrivals[i] in p'.known)
    && forall id :: id in p'.off <==> id in p.off || (!p.auto && id in arrivals)
  }

  lemma MovesStep(p: Plan, p': Plan, arrivals: seq<Id>, event: Event) returns (more: seq<Id>)
    requires Moves(p, p', arrivals) && InBatch(event)
    ensures Moves(p, Next(p', event), more)
  {
    more := arrivals;
    if Possible(p', event) {
      if event.Arrival? {
        more := arrivals + [event.id];
        assert p'.taken + (p'.queue + [event.id]) == p'.taken + p'.queue + [event.id];
        assert p.taken + p.queue + more == p.taken + p.queue + arrivals + [event.id];
      } else if event.Take? {
        assert p'.taken + [p'.queue[0]] + p'.queue[1..] == p'.taken + p'.queue;
      }
    }
  }

  lemma {:induction false} BatchMoves(auto: bool, before: seq<Event>, during: seq<Event>) returns (arrivals: seq<Id>)
    requires BatchEvents(during)
    ensures Moves(PlanAfter(auto, before), PlanAfter(auto, before + during), arrivals)
  {
    if during == [] {
      assert before + during == before;
      arrivals := [];
    } else {
      var n := |during| - 1;
      arrivals := BatchMoves(auto, before, during[..n]);
      assert (before + during)[..|before| + n] == before + during[..n];
      arrivals := MovesStep(PlanAfter(auto, before), PlanAfter(auto, before + during[..n]), arrivals, during[n]);
    }
  }

  /** The messages that a batch call has taken since it was made. */
  predicate IsBatch(p: Plan, p': Plan, batch: seq<Id>) {
    p'.taken == p.taken + batch
  }

  lemma BatchKnown(auto: bool, events: seq<Event>, p: Plan, batch: seq<Id>, i: nat)
    requires IsBatch(p, PlanAfter(auto, events), batch) && i < |batch|
    ensures batch[i] in PlanAfter(auto, events).known && !Completed(PlanAfter(auto, events), batch[i])
  {
    var p' := PlanAfter(auto, events);
    EveryRunHandsOutOnce(auto, events);
    assert (p'.taken + p'.queue)[|p.taken| + i] == batch[i];
  }

  /**
    A batch is settled, whatever the consumer does, if and only if it takes no message that arrived
    with auto_complete off (in ReceiveAndDelete nothing needs settling).
   */
  lemma BatchSettledIff(mode: Mode, auto: bool, before: seq<Event>, during: seq<Event>, batch: seq<Id>)
    requires BatchEvents(during) && IsBatch(PlanAfter(auto, before), PlanAfter(auto, before + during), batch)
    ensures AllSettledForEveryConsumer(mode, auto, before + during, batch) <==>
            mode.ReceiveAndDelete? || forall i :: 0 <= i < |batch| ==> batch[i] !in PlanAfter(auto, before + during).off
  {
    forall i | 0 <= i < |batch|
      ensures SettledForEveryConsumer(mode, auto, before + during, batch[i]) <==>
              mode.ReceiveAndDelete? || batch[i] !in PlanAfter(auto, before + during).off
    {
      BatchKnown(auto, before + during, PlanAfter(auto, before), batch, i);
      MessageSettledIff(mode, auto, before + during, batch[i]);
    }
  }

  /** The i-th message to be taken is queued and arrived with auto_complete on, or would now arrive with it on. */
  predicate OnAt(p: Plan, i: nat) {
    if i < |p.queue| then p.queue[i] !in p.off else p.auto
  }

  predicate OnAtCall(p: Plan, n: nat) {
    forall i :: 0 <= i < n ==> OnAt(p, i)
  }

  /** With auto_complete on at the call, the front of the queue decides. */
  lemma FrontDecides(p: Plan, n: nat, limit: int)
    requires p.auto && (n == 0 || n <= limit) && (n >= limit || n >= |p.queue|)
    ensures OnAtCall(p, n) <==> forall i :: 0 <= i < |p.queue| && i < limit ==> p.queue[i] !in p.off
  {
    if OnAtCall(p, n) {
      forall i | 0 <= i < |p.queue| && i < limit ensures p.queue[i] !in p.off {
        assert OnAt(p, i);
      }
    }
  }

  lemma BatchIsFront(p: Plan, p': Plan, arrivals: seq<Id>, batch: seq<Id>, i: nat)
    requires HandedOutOnce(p) && Moves(p, p', arrivals) && IsBatch(p, p', batch) && i < |batch|
    ensures i < |p.queue| ==> batch[i] == p.queue[i]
    ensures batch[i] !in p'.off <==> OnAt(p, i)
  {
    var all := p.taken + p.queue + arrivals;
    var k := |p.taken| + i;
    assert all[k] == (p'.taken + p'.queue)[k] == batch[i];
    if i < |p.queue| {
      assert all[k] == p.queue[i];
      assert (p.taken + p.queue)[k] == p.queue[i];
    } else {
      assert all[k] == arrivals[i - |p.queue|];
    }
  }

  /**
    The same, by what the caller can check before the call: a batch of n messages is settled for every
    consumer if and only if none of the first n queued messages arrived with auto_complete off, and
    auto_complete is on if the batch needs more than is queued.
   */
  lemma BatchSettledAtCall(mode: Mode, auto: bool, before: seq<Event>, during: seq<Event>, batch: seq<Id>)
    requires BatchEvents(during) && IsBatch(PlanAfter(auto, before), PlanAfter(auto, before + during), batch)
    ensures AllSettledForEveryConsumer(mode, auto, before + during, batch) <==>
            mode.ReceiveAndDelete? || OnAtCall(PlanAfter(auto, before), |batch|)
  {
    var p, p' := PlanAfter(auto, before), PlanAfter(auto, before + during);
    var arrivals := BatchMoves(auto, before, during);
    EveryRunHandsOutOnce(auto, before);
    BatchSettledIff(mode, auto, before, during, batch);
    forall i | 0 <= i < |batch| ensures batch[i] !in p'.off <==> OnAt(p, i) {
      BatchIsFront(p, p', arrivals, batch, i);
    }
  }

  /** Without generators auto_complete stays on, so no message arrives with it off. */
  lemma {:induction false} NoGeneratorNoneOff(auto: bool, events: seq<Event>)
    requires auto && forall i :: 0 <= i < |events| ==> !events[i].Begin?
    ensures var p := PlanAfter(auto, events); p.off == {} && p.auto && p.generators == map[]
  {
    if events != [] {
      NoGeneratorNoneOff(auto, events[..|events| - 1]);
    }
  }

  // ---------------------------------------------------------------- when auto_complete is restored

  /**
    How generators nest, whatever the flag: the open outer one, begun while no outer one was open, and
    whether some other generator has been closed while no outer one was open.
   */
  datatype Nesting = Nesting(outer: Option<Name>, outlived: bool)

  function Nested(p: Plan, nesting: Nesting, event: Event): Nesting {
    if !Possible(p, event) then nesting
    else
      match event
      case Begin(name) => if nesting.outer.None? then nesting.(outer := Some(name)) else nesting
      case Close(name) =>
        if nesting.outer == Some(name) then nesting.(outer := None)
        else if nesting.outer.None? then nesting.(outlived := true)
        else nesting
      case _ => nesting
  }

  function NestingAfter(auto: bool, events: seq<Event>): Nesting {
    if events == [] then Nesting(None, false)
    else
      var before := events[..|events| - 1];
      Nested(PlanAfter(auto, before), NestingAfter(auto, before), events[|events| - 1])
  }

  predicate NoneOpen(p: Plan) {
    forall name :: name in p.generators ==> p.generators[name].phase.Closed?
  }

  /** Until a generator outlives its outer one, the flag is off exactly while an outer one is open; afterwards for good. */
  ghost predicate FlagFollows(p: Plan, nesting: Nesting) {
    && (nesting.outer.Some? ==> nesting.outer.value in p.generators && !p.generators[nesting.outer.value].phase.Closed?)
    && (p.auto <==> !nesting.outlived && nesting.outer.None?)
    && forall name :: name in p.generators && !p.generators[name].phase.Closed? ==>
         (p.generators[name].saved <==> !nesting.outlived && nesting.outer == Some(name))
  }

  lemma {:induction false} FlagRun(events: seq<Event>)
    ensures FlagFollows(PlanAfter(true, events), NestingAfter(true, events))
  {
    if events != [] {
      var before, event := events[..|events| - 1], events[|events| - 1];
      FlagRun(before);
      FlagStep(PlanAfter(true, before), NestingAfter(true, before), event);
    }
  }

  lemma FlagStep(p: Plan, nesting: Nesting, event: Event)
    requires FlagFollows(p, nesting)
    ensures FlagFollows(Next(p, event), Nested(p, nesting, event))
  {
    if event.Begin? || event.Close? {
      FlagTurn(p, nesting, event);
    }
  }

  lemma FlagTurn(p: Plan, nesting: Nesting, event: Event)
    requires FlagFollows(p, nesting) && (event.Begin? || event.Close?)
    ensures FlagFollows(Next(p, event), Nested(p, nesting, event))
  {
  }

  lemma {:induction false} FlagStaysOff(events: seq<Event>)
    ensures var p := PlanAfter(false, events);
            !p.auto && forall name :: name in p.generators ==> !p.generators[name].saved
  {
    if events != [] {
      FlagStaysOff(events[..|events| - 1]);
    }
  }

  /**
    Once no generator is open, auto_complete is what the client was made with if and only if that is
    off, or no generator begun inside an outer one was ever closed while no outer one was open.
   */
  lemma FlagRestoredIff(auto: bool, events: seq<Event>)
    requires NoneOpen(PlanAfter(auto, events))
    ensures PlanAfter(auto, events).auto == auto <==> !auto || !NestingAfter(auto, events).outlived
  {
    if auto {
      FlagRun(events);
    } else {
      FlagStaysOff(events);
    }
  }

  // ---------------------------------------------------------------- runs that leave messages unsettled

  lemma BrokenPlan(before: seq<Event>)
    requires before == [Begin(0), Arrival(0), Arrival(1), Yield(0), Close(0)]
    ensures var p := PlanAfter(true, before);
            p.auto && p.queue == [1] && p.off == {0, 1} && p.taken == [] && p.yielded == map[0 := 0]
  {
    var b1 := [] + [Begin(0)];
    var b2 := b1 + [Arrival(0)];
    var b3 := b2 + [Arrival(1)];
    var b4 := b3 + [Yield(0)];
    assert before == b4 + [Close(0)];
    PlanSnoc(true, [], Begin(0));
    PlanSnoc(true, b1, Arrival(0));
    PlanSnoc(true, b2, Arrival(1));
    PlanSnoc(true, b3, Yield(0));
    PlanSnoc(true, b4, Close(0));
    assert PlanAfter(true, b3).queue == [0, 1];
  }

  /**
    An unsettled batch with auto_complete on: two messages arrive while a generator is open, the
    consumer breaks out of it after the first, and the next batch returns the second, for which no
    disposition was sent.
   */
  lemma BrokenGenerator()
    ensures var before := [Begin(0), Arrival(0), Arrival(1), Yield(0), Close(0)];
            var link := LinkAfter(PeekLock, true, before + [Take], Silent(6));
            && PlanAfter(true, before).auto
            && IsBatch(PlanAfter(true, before), PlanAfter(true, before + [Take]), [1])
            && !IsSettled(link, 1) && For(link.sent, 1) == []
  {
    var before := [Begin(0), Arrival(0), Arrival(1), Yield(0), Close(0)];
    BrokenPlan(before);
    PlanSnoc(true, before, Take);
    UnsettledUnsent(true, before + [Take], 1);
  }

  lemma LostPlan(before: seq<Event>)
    requires before == [Begin(0), Begin(1), Close(0), Close(1)]
    ensures var p := PlanAfter(true, before);
            && !p.auto && NoneOpen(p) && p.known == {} && p.off == {}
            && p.queue == [] && p.taken == [] && p.yielded == map[]
  {
    var b1 := [] + [Begin(0)];
    var b2 := b1 + [Begin(1)];
    var b3 := b2 + [Close(0)];
    assert before == b3 + [Close(1)];
    PlanSnoc(true, [], Begin(0));
    PlanSnoc(true, b1, Begin(1));
    PlanSnoc(true, b2, Close(0));
    PlanSnoc(true, b3, Close(1));
  }

  /**
    auto_complete lost for good: of two generators the one begun last is closed last, and restores the
    off it had found. No generator is open, no queued message arrived with the flag off, and the next
    batch is unsettled.
   */
  lemma LostFlag()
    ensures var before := [Begin(0), Begin(1), Close(0), Close(1)];
            var during := [Arrival(0)] + [Take];
            var p := PlanAfter(true, before);
            var link := LinkAfter(PeekLock, true, before + during, Silent(6));
            && NoneOpen(p) && !p.auto && p.off == {}
            && IsBatch(p, PlanAfter(true, before + during), [0])
            && !IsSettled(link, 0) && For(link.sent, 0) == []
  {
    var before := [Begin(0), Begin(1), Close(0), Close(1)];
    LostPlan(before);
    PlanSnoc(true, before, Arrival(0));
    PlanSnoc(true, before + [Arrival(0)], Take);
    assert before + [Arrival(0)] + [Take] == before + ([Arrival(0)] + [Take]);
    UnsettledUnsent(true, before + ([Arrival(0)] + [Take]), 0);
  }

  lemma InnerPlan(events: seq<Event>)
    requires events == [Begin(0), Begin(1), Arrival(0), Yield(1), Resume(1), Close(1), Close(0)]
    ensures var p := PlanAfter(true, events);
            && p.auto && NoneOpen(p) && p.off == {0} && p.yielded == map[0 := 1]
            && 1 in p.generators && !p.generators[1].saved
  {
    var b1 := [] + [Begin(0)];
    var b2 := b1 + [Begin(1)];
    var b3 := b2 + [Arrival(0)];
    var b4 := b3 + [Yield(1)];
    var b5 := b4 + [Resume(1)];
    var b6 := b5 + [Close(1)];
    assert events == b6 + [Close(0)];
    PlanSnoc(true, [], Begin(0));
    PlanSnoc(true, b1, Begin(1));
    PlanSnoc(true, b2, Arrival(0));
    PlanSnoc(true, b3, Yield(1));
    PlanSnoc(true, b4, Resume(1));
    PlanSnoc(true, b5, Close(1));
    PlanSnoc(true, b6, Close(0));
    assert PlanAfter(true, b3).queue == [0];
  }

  /**
    A message yielded and never settled, though both generators finish, properly nested, and
    auto_complete is on again: the inner generator found it off.
   */
  lemma InnerGenerator()
    ensures var events := [Begin(0), Begin(1), Arrival(0), Yield(1), Resume(1), Close(1), Close(0)];
            var p := PlanAfter(true, events);
            var link := LinkAfter(PeekLock, true, events, Silent(7));
            && p.auto && NoneOpen(p) && 0 in p.yielded
            && !IsSettled(link, 0) && For(link.sent, 0) == []
  {
    var events := [Begin(0), Begin(1), Arrival(0), Yield(1), Resume(1), Close(1), Close(0)];
    InnerPlan(events);
    UnsettledUnsent(true, events, 0);
  }
}

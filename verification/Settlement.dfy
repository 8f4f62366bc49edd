/**
  Settlement of received messages: accept, reject, release and modify go through one gate, and the
  receiver turns the response into a disposition. Section 3.4 of OASIS AMQP 1.0 names the outcomes.
 */
module Settlement {
  import opened Wrappers

  type Id = nat

  datatype Mode = PeekLock | ReceiveAndDelete

  datatype Response =
    | Accepted
    | Rejected(condition: string)
    | Released
    | Modified(failed: bool, undeliverable: bool)
    | AlreadySettled

  /** A received message: the response, once there is one. */
  datatype Delivery = Delivery(response: Option<Response>)
  {
    predicate Settled() { response.Some? }
  }

  /** Deliveries by number, the dispositions sent, and (as history) every settle call made. */
  datatype Link = Link(
    mode: Mode,
    deliveries: map<Id, Delivery>,
    sent: seq<(Id, Response)>,
    calls: seq<(Id, Response)>)

  datatype Action = Arrive(id: Id) | Call(id: Id, response: Response)

  /** The receiver wraps a message: without a settler it counts as already settled. */
  function Received(mode: Mode): Delivery {
    if mode.ReceiveAndDelete? then Delivery(Some(AlreadySettled)) else Delivery(None)
  }

  /** The dispositions `_settle_message` sends for a response. */
  function Dispositions(id: Id, response: Response): seq<(Id, Response)> {
    if response.AlreadySettled? then [] else [(id, response)]
  }

  function Arrived(link: Link, id: Id): Link {
    link.(deliveries := link.deliveries[id := Received(link.mode)])
  }

  /** One settle call: it takes effect, and returns True, only on a message not settled yet. */
  function Settled(link: Link, id: Id, response: Response): (Link, bool)
    requires id in link.deliveries
  {
    var called := link.(calls := link.calls + [(id, response)]);
    var delivery := link.deliveries[id];
    if delivery.Settled() then (called, false)
    else
      (called.(deliveries := link.deliveries[id := delivery.(response := Some(response))],
               sent := link.sent + Dispositions(id, response)), true)
  }

  /** The responses given for one delivery, in order. */
  function For(log: seq<(Id, Response)>, id: Id): seq<Response> {
    if log == [] then []
    else
      var last := log[|log| - 1];
      For(log[..|log| - 1], id) + if last.0 == id then [last.1] else []
  }

  lemma ForSnoc(log: seq<(Id, Response)>, entry: (Id, Response), id: Id)
    ensures For(log + [entry], id) == For(log, id) + if entry.0 == id then [entry.1] else []
  {
    assert (log + [entry])[..|log|] == log;
  }

  function First(responses: seq<Response>): seq<Response> {
    if responses == [] then [] else [responses[0]]
  }

  /** No disposition in ReceiveAndDelete; in PeekLock the first call's, and the message is settled by it. */
  predicate FirstCallWinsFor(link: Link, id: Id) {
    var calls := For(link.calls, id);
    if id !in link.deliveries then For(link.sent, id) == [] && calls == []
    else if link.mode.ReceiveAndDelete? then For(link.sent, id) == [] && link.deliveries[id] == Received(link.mode)
    else
      && For(link.sent, id) == First(calls)
      && link.deliveries[id] == Delivery(if calls == [] then None else Some(calls[0]))
  }

  ghost predicate FirstCallWins(link: Link) {
    forall id :: FirstCallWinsFor(link, id)
  }

  lemma ExactlyOneWhenSettled(link: Link, id: Id)
    requires FirstCallWins(link) && id in link.deliveries && link.deliveries[id].Settled()
    ensures |For(link.sent, id)| == if link.mode.PeekLock? then 1 else 0
  {
    assert FirstCallWinsFor(link, id);
  }

  lemma SettledKeepsFor(link: Link, id: Id, response: Response, other: Id)
    requires FirstCallWinsFor(link, id) && FirstCallWinsFor(link, other)
    requires id in link.deliveries && !response.AlreadySettled?
    ensures FirstCallWinsFor(Settled(link, id, response).0, other)
  {
    ForSnoc(link.calls, (id, response), other);
    ForSnoc(link.sent, (id, response), other);
  }

  lemma SettledKeeps(link: Link, id: Id, response: Response)
    requires FirstCallWins(link) && id in link.deliveries && !response.AlreadySettled?
    ensures FirstCallWins(Settled(link, id, response).0)
    ensures Settled(link, id, response).1 <==> link.mode.PeekLock? && For(link.calls, id) == []
  {
    assert FirstCallWinsFor(link, id);
    forall other ensures FirstCallWinsFor(Settled(link, id, response).0, other) {
      SettledKeepsFor(link, id, response, other);
    }
  }

  lemma ArrivedKeeps(link: Link, id: Id)
    requires FirstCallWins(link) && id !in link.deliveries
    ensures FirstCallWins(Arrived(link, id))
  {
    forall other ensures FirstCallWinsFor(Arrived(link, id), other) {
      assert FirstCallWinsFor(link, other);
    }
  }

  // ---------------------------------------------------------------- every sequence of calls

  predicate Allowed(link: Link, action: Action) {
    match action
    case Arrive(id) => id !in link.deliveries
    case Call(id, response) => id in link.deliveries && !response.AlreadySettled?
  }

  function Acted(link: Link, action: Action): Link
    requires Allowed(link, action)
  {
    match action
    case Arrive(id) => Arrived(link, id)
    case Call(id, response) => Settled(link, id, response).0
  }

  predicate AllAllowed(link: Link, actions: seq<Action>)
    decreases |actions|
  {
    actions == [] || (Allowed(link, actions[0]) && AllAllowed(Acted(link, actions[0]), actions[1..]))
  }

  function After(link: Link, actions: seq<Action>): Link
    requires AllAllowed(link, actions)
    decreases |actions|
  {
    if actions == [] then link else After(Acted(link, actions[0]), actions[1..])
  }

  /** The calls an action sequence makes on one delivery. */
  function CallsOn(actions: seq<Action>, id: Id): seq<Response> {
    if actions == [] then []
    else (if actions[0].Call? && actions[0].id == id then [actions[0].response] else []) + CallsOn(actions[1..], id)
  }

  lemma ActedKeeps(link: Link, action: Action)
    requires FirstCallWins(link) && Allowed(link, action)
    ensures FirstCallWins(Acted(link, action)) && Acted(link, action).mode == link.mode
  {
    if action.Arrive? {
      ArrivedKeeps(link, action.id);
    } else {
      SettledKeeps(link, action.id, action.response);
    }
  }

  lemma {:induction false} AfterKeeps(link: Link, actions: seq<Action>)
    requires FirstCallWins(link) && AllAllowed(link, actions)
    ensures FirstCallWins(After(link, actions)) && After(link, actions).mode == link.mode
    decreases |actions|
  {
    if actions != [] {
      ActedKeeps(link, actions[0]);
      AfterKeeps(Acted(link, actions[0]), actions[1..]);
    }
  }

  lemma {:induction false} AfterCalls(link: Link, actions: seq<Action>, id: Id)
    requires AllAllowed(link, actions)
    ensures For(After(link, actions).calls, id) == For(link.calls, id) + CallsOn(actions, id)
    decreases |actions|
  {
    if actions != [] {
      var action := actions[0];
      if action.Call? {
        ForSnoc(link.calls, (action.id, action.response), id);
      }
      AfterCalls(Acted(link, action), actions[1..], id);
    }
  }

  /**
    Whatever arrives and whatever is called, in whatever order: a delivery gets no disposition in
    ReceiveAndDelete and at most one in PeekLock, the one of the first call made on it.
   */
  lemma AtMostOneDisposition(mode: Mode, actions: seq<Action>, id: Id)
    requires AllAllowed(Link(mode, map[], [], []), actions)
    requires id in After(Link(mode, map[], [], []), actions).deliveries
    ensures For(After(Link(mode, map[], [], []), actions).sent, id) ==
            if mode.ReceiveAndDelete? then [] else First(CallsOn(actions, id))
  {
    AfterKeeps(Link(mode, map[], [], []), actions);
    AfterCalls(Link(mode, map[], [], []), actions, id);
    assert FirstCallWinsFor(After(Link(mode, map[], [], []), actions), id);
    assert [] + CallsOn(actions, id) == CallsOn(actions, id);
  }
}

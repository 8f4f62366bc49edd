/**
  The send engine as a transition system. The state is what `SendClient` keeps (the message objects by
  identity, the pending list, the backoff), the C sender's outstanding transfers, the position of the
  filter pass that may be in progress, and the history that the theorems speak of.

  A filter pass is broken at its one suspension point, the transfer, so runs include every
  interleaving of the asynchronous client; the synchronous client has the runs in which nothing
  happens there.
 */
module SendEngine {
  import opened ErrorPolicies

  type Id = nat

  datatype MessageState = WaitingToBeSent | WaitingForSendAck | SendComplete | SendFailed
  {
    predicate Done() { SendComplete? || SendFailed? }
  }

  datatype Message = Message(state: MessageState, retries: nat, idleTime: int)

  datatype SendResult = Ok | Cancelled | Timeout | Error(delivery: Delivery)

  /** The filter pass: not running, between two messages, or suspended in the transfer of `pending[index]`. */
  datatype Pass =
    | Resting
    | Filtering(filtered: seq<Id>, index: nat)
    | Sending(filtered: seq<Id>, index: nat, accepted: bool)

  /** A transfer handed to the sender: when, and with which timeout. */
  datatype Attempt = Attempt(id: Id, time: int, timeout: int)

  datatype Config = Config(policy: ErrorPolicy, msgTimeout: int)

  datatype State = State(
    messages: map<Id, Message>,
    pending: seq<Id>,
    pass: Pass,
    waiting: nat,
    backoff: int,
    now: int,
    outstanding: multiset<Id>,  // transfers the sender has accepted and not completed
    queued: seq<Id>,            // history: every message queued, in order
    attempts: seq<Attempt>,     // history: every transfer handed to the sender
    notified: seq<Id>           // history: every run of on_send_complete
  )

  datatype Step =
    | Tick(elapsed: nat)
    | Queue(id: Id)
    | BeginPass
    | Visit
    | Accept
    | Refuse
    | Resume
    | EndPass
    | Complete(id: Id, result: SendResult)
    | Backoff

  function Start(now: int): State {
    State(map[], [], Resting, 0, 0, now, multiset{}, [], [], [])
  }

  // ---------------------------------------------------------------- the code

  /** Whether a failed message goes back to the queue. */
  predicate Retries(policy: ErrorPolicy, m: Message, result: SendResult) {
    result.Error? && policy.ActionFor(result.delivery).retry && m.retries < policy.maxRetries
  }

  /** `_on_message_sent`: the new message, and whether on_send_complete runs. */
  function Settle(policy: ErrorPolicy, m: Message, result: SendResult): (Message, bool) {
    if Retries(policy, m, result) then
      var charged := policy.ActionFor(result.delivery).incrementRetries;
      (Message(WaitingToBeSent, if charged then m.retries + 1 else m.retries, m.idleTime), false)
    else if result.Error? || result.Timeout? then
      (m.(state := SendFailed), true)
    else
      (m.(state := SendComplete), true)
  }

  function OnMessageSent(c: Config, s: State, id: Id, result: SendResult): State
    requires id in s.messages
  {
    var (m, notify) := Settle(c.policy, s.messages[id], result);
    s.(messages := s.messages[id := m],
       backoff := if Retries(c.policy, s.messages[id], result)
                  then c.policy.ActionFor(result.delivery).backoff else s.backoff,
       notified := if notify then s.notified + [id] else s.notified)
  }

  datatype Deadline = Expired | In(timeout: int)

  /** `_get_msg_timeout`. */
  function MsgTimeout(c: Config, now: int, idleTime: int): Deadline {
    var elapsed := now - idleTime;
    if c.msgTimeout > 0 && elapsed > c.msgTimeout then Expired
    else if c.msgTimeout > 0 then In(c.msgTimeout - elapsed)
    else In(0)
  }

  predicate Enabled(s: State, step: Step) {
    match step
    case Tick(_) => true
    case Queue(id) => id !in s.messages
    case BeginPass => s.pass.Resting?
    case Visit => s.pass.Filtering? && s.pass.index < |s.pending| && s.pending[s.pass.index] in s.messages
    case Accept => s.pass.Sending? && !s.pass.accepted && s.pass.index < |s.pending|
    case Refuse => s.pass.Sending? && !s.pass.accepted && s.pass.index < |s.pending| && s.pending[s.pass.index] in s.messages
    case Resume => s.pass.Sending? && s.pass.accepted && s.pass.index < |s.pending|
    case EndPass => s.pass.Filtering? && s.pass.index >= |s.pending|
    case Complete(id, _) => id in s.outstanding && id in s.messages
    case Backoff => s.pass.Resting? && s.backoff != 0 && s.waiting == 0
  }

  function Apply(c: Config, s: State, step: Step): State
    requires Enabled(s, step)
  {
    match step
    case Tick(elapsed) => s.(now := s.now + elapsed)
    case Queue(id) =>
      s.(messages := s.messages[id := Message(WaitingToBeSent, 0, s.now)],
         pending := s.pending + [id],
         queued := s.queued + [id])
    case BeginPass => s.(pass := Filtering([], 0), waiting := 0)
    case Visit => VisitMessage(c, s)
    case Accept =>
      s.(pass := s.pass.(accepted := true), outstanding := s.outstanding + multiset{s.pending[s.pass.index]})
    case Refuse =>
      var id := s.pending[s.pass.index];
      var s' := OnMessageSent(c, s, id, Error(ClientException));
      s'.(pass := Advance(s.pass, id, s'.messages[id].state.WaitingToBeSent?))
    case Resume => s.(pass := Advance(s.pass, s.pending[s.pass.index], true))
    case EndPass => s.(pending := s.pass.filtered, pass := Resting)
    case Complete(id, result) =>
      OnMessageSent(c, s.(outstanding := s.outstanding - multiset{id}), id, result)
    case Backoff => s.(backoff := 0)
  }

  /** Moves on to the next message of the list, keeping this one or not. */
  function Advance(pass: Pass, id: Id, keep: bool): Pass
    requires !pass.Resting?
  {
    Filtering(if keep then pass.filtered + [id] else pass.filtered, pass.index + 1)
  }

  /** One turn of the filter loop, up to the transfer. */
  function VisitMessage(c: Config, s: State): State
    requires Enabled(s, Visit)
  {
    var id := s.pending[s.pass.index];
    var m := s.messages[id];
    match m.state
    case SendComplete => s.(pass := Advance(s.pass, id, false))
    case SendFailed => s.(pass := Advance(s.pass, id, false))
    case WaitingForSendAck => s.(pass := Advance(s.pass, id, true), waiting := s.waiting + 1)
    case WaitingToBeSent =>
      var s' := s.(messages := s.messages[id := m.(state := WaitingForSendAck)]);
      match MsgTimeout(c, s.now, m.idleTime)
      case Expired =>
        var s'' := OnMessageSent(c, s', id, Timeout);
        s''.(pass := Advance(s.pass, id, s''.messages[id].state.WaitingToBeSent?))
      case In(timeout) =>
        s'.(pass := Sending(s.pass.filtered, s.pass.index, false),
            attempts := s.attempts + [Attempt(id, s.now, timeout)])
  }

  // ---------------------------------------------------------------- runs

  ghost predicate ValidRun(c: Config, start: int, steps: seq<Step>)
    decreases |steps|, 0
  {
    steps == [] ||
    (ValidRun(c, start, steps[..|steps| - 1]) && Enabled(Final(c, start, steps[..|steps| - 1]), steps[|steps| - 1]))
  }

  ghost function Final(c: Config, start: int, steps: seq<Step>): State
    requires ValidRun(c, start, steps)
    decreases |steps|, 1
  {
    if steps == [] then Start(start)
    else Apply(c, Final(c, start, steps[..|steps| - 1]), steps[|steps| - 1])
  }

  /** The states a run goes through, from the first to the last. */
  ghost predicate Follows(c: Config, start: int, steps: seq<Step>, states: seq<State>) {
    && |states| == |steps| + 1
    && states[0] == Start(start)
    && forall i {:trigger steps[i]} :: 0 <= i < |steps| ==>
         Enabled(states[i], steps[i]) && states[i + 1] == Apply(c, states[i], steps[i])
  }

  ghost predicate Reaches(c: Config, start: int, steps: seq<Step>, s: State) {
    exists states :: Follows(c, start, steps, states) && states[|steps|] == s
  }

  lemma ReachesNext(c: Config, start: int, steps: seq<Step>, s: State, step: Step)
    requires Reaches(c, start, steps, s) && Enabled(s, step)
    ensures Reaches(c, start, steps + [step], Apply(c, s, step))
  {
    var states :| Follows(c, start, steps, states) && states[|steps|] == s;
    assert Follows(c, start, steps + [step], states + [Apply(c, s, step)]);
  }

  lemma {:induction false} FollowsRun(c: Config, start: int, steps: seq<Step>, states: seq<State>)
    requires Follows(c, start, steps, states)
    ensures ValidRun(c, start, steps) && Final(c, start, steps) == states[|steps|]
  {
    if steps != [] {
      var n := |steps| - 1;
      assert Follows(c, start, steps[..n], states[..n + 1]);
      FollowsRun(c, start, steps[..n], states[..n + 1]);
      assert steps[n] == steps[|steps| - 1];
    }
  }

  lemma ReachesRun(c: Config, start: int, steps: seq<Step>, s: State)
    requires Reaches(c, start, steps, s)
    ensures ValidRun(c, start, steps) && Final(c, start, steps) == s
  {
    var states :| Follows(c, start, steps, states) && states[|steps|] == s;
    FollowsRun(c, start, steps, states);
  }

  lemma Extend(c: Config, start: int, steps: seq<Step>, step: Step)
    requires ValidRun(c, start, steps) && Enabled(Final(c, start, steps), step)
    ensures ValidRun(c, start, steps + [step])
    ensures Final(c, start, steps + [step]) == Apply(c, Final(c, start, steps), step)
  {
    assert (steps + [step])[..|steps|] == steps;
  }

  // ---------------------------------------------------------------- no message lost, order kept

  predicate IsDone(messages: map<Id, Message>, id: Id) {
    id in messages && messages[id].state.Done()
  }

  /** The messages of a list that are not done, in order. */
  function Live(messages: map<Id, Message>, ids: seq<Id>): seq<Id> {
    if ids == [] then []
    else Live(messages, ids[..|ids| - 1]) + (if IsDone(messages, ids[|ids| - 1]) then [] else [ids[|ids| - 1]])
  }

  /** What the client still holds: what the pass has kept, then what it has not passed yet. */
  function Held(s: State): seq<Id> {
    if s.pass.Resting? then s.pending
    else s.pass.filtered + if s.pass.index <= |s.pending| then s.pending[s.pass.index..] else []
  }

  lemma {:induction false} LiveConcat(messages: map<Id, Message>, a: seq<Id>, b: seq<Id>)
    ensures Live(messages, a + b) == Live(messages, a) + Live(messages, b)
  {
    if b == [] {
      assert a + b == a;
    } else {
      assert (a + b)[..|a + b| - 1] == a + b[..|b| - 1];
      LiveConcat(messages, a, b[..|b| - 1]);
    }
  }

  ghost predicate DoneStays(before: map<Id, Message>, after: map<Id, Message>) {
    forall id :: IsDone(before, id) ==> IsDone(after, id)
  }

  /** As more messages become done, the live part of any list is a filter of its old live part. */
  lemma {:induction false} LiveShrinks(before: map<Id, Message>, after: map<Id, Message>, ids: seq<Id>)
    requires DoneStays(before, after)
    ensures Live(after, ids) == Live(after, Live(before, ids))
  {
    if ids != [] {
      var n := |ids| - 1;
      LiveShrinks(before, after, ids[..n]);
      LiveConcat(after, Live(before, ids[..n]), if IsDone(before, ids[n]) then [] else [ids[n]]);
      LiveOne(after, ids[n]);
    }
  }

  lemma LiveOne(messages: map<Id, Message>, id: Id)
    ensures Live(messages, [id]) == if IsDone(messages, id) then [] else [id]
  {
    assert [id][..0] == [];
  }

  lemma DropDone(messages: map<Id, Message>, a: seq<Id>, id: Id, b: seq<Id>)
    requires IsDone(messages, id)
    ensures Live(messages, a + ([id] + b)) == Live(messages, a + b)
  {
    LiveOne(messages, id);
    LiveConcat(messages, [id], b);
    LiveConcat(messages, a, [id] + b);
    LiveConcat(messages, a, b);
  }

  predicate Distinct(ids: seq<Id>) {
    forall i, j :: 0 <= i < j < |ids| ==> ids[i] != ids[j]
  }

  predicate AllIn(ids: seq<Id>, known: set<Id>) {
    forall i :: 0 <= i < |ids| ==> ids[i] in known
  }

  /** Lists hold known messages, the pass is inside the list, and each message is queued once. */
  ghost predicate Structure(s: State) {
    && AllIn(s.pending, s.messages.Keys)
    && (s.pass.Filtering? ==> s.pass.index <= |s.pending|)
    && (s.pass.Sending? ==> s.pass.index < |s.pending|)
    && (!s.pass.Resting? ==> AllIn(s.pass.filtered, s.messages.Keys))
    && QueuedOnce(s.messages.Keys, s.queued)
  }

  ghost predicate QueuedOnce(known: set<Id>, queued: seq<Id>) {
    Distinct(queued) && AllIn(queued, known) && forall id :: id in known ==> id in queued
  }

  /** Every message not done is held exactly once, in queueing order. */
  predicate Ordered(s: State) {
    Live(s.messages, s.queued) == Live(s.messages, Held(s))
  }

  /** The message, if any, inside a transfer call that has not been accepted yet. */
  function InCall(s: State): set<Id> {
    if s.pass.Sending? && !s.pass.accepted && s.pass.index < |s.pending| then {s.pending[s.pass.index]} else {}
  }

  /** A message waits for an ack iff exactly one transfer of it is outstanding, or it is being handed over. */
  ghost predicate InFlight(messages: map<Id, Message>, outstanding: multiset<Id>, handing: set<Id>) {
    && (forall id :: id in outstanding || id in handing ==> id in messages)
    && (forall id :: id in handing ==> messages[id].state.WaitingForSendAck?)
    && (forall id :: id in messages ==>
          outstanding[id] == if messages[id].state.WaitingForSendAck? && id !in handing then 1 else 0)
  }

  /** on_send_complete has run once for each message that is done, and never for another. */
  ghost predicate NotifiedOnce(messages: map<Id, Message>, notified: seq<Id>) {
    forall id :: multiset(notified)[id] == if IsDone(messages, id) then 1 else 0
  }

  ghost predicate Invariant(s: State) {
    Consistent(s) && Ordered(s)
  }

  // The four moves a message makes, each on the parts of the state it concerns.

  /** Settling the message being handed over, or just completed. */
  lemma SettleKeeps(c: Config, s: State, id: Id, result: SendResult, handing: set<Id>)
    requires InFlight(s.messages, s.outstanding, handing) && id in handing
    requires NotifiedOnce(s.messages, s.notified)
    ensures var s' := OnMessageSent(c, s, id, result);
            && InFlight(s'.messages, s'.outstanding, handing - {id})
            && NotifiedOnce(s'.messages, s'.notified)
            && DoneStays(s.messages, s'.messages)
            && s'.messages.Keys == s.messages.Keys
  {
    var (m, notify) := Settle(c.policy, s.messages[id], result);
    SettleFlight(s.messages, s.outstanding, handing, id, m);
    SettleNotifies(s.messages, s.notified, id, m);
  }

  lemma SettleFlight(messages: map<Id, Message>, outstanding: multiset<Id>, handing: set<Id>, id: Id, m: Message)
    requires InFlight(messages, outstanding, handing) && id in handing && !m.state.WaitingForSendAck?
    ensures InFlight(messages[id := m], outstanding, handing - {id})
  {
  }

  lemma SettleNotifies(messages: map<Id, Message>, notified: seq<Id>, id: Id, m: Message)
    requires NotifiedOnce(messages, notified) && id in messages && !messages[id].state.Done()
    ensures NotifiedOnce(messages[id := m], if m.state.Done() then notified + [id] else notified)
    ensures DoneStays(messages, messages[id := m])
  {
  }

  lemma MarkKeeps(messages: map<Id, Message>, outstanding: multiset<Id>, notified: seq<Id>, id: Id)
    requires InFlight(messages, outstanding, {}) && NotifiedOnce(messages, notified)
    requires id in messages && messages[id].state.WaitingToBeSent?
    ensures var messages' := messages[id := messages[id].(state := WaitingForSendAck)];
            && InFlight(messages', outstanding, {id})
            && NotifiedOnce(messages', notified)
            && DoneStays(messages, messages')
            && messages'.Keys == messages.Keys
  {
  }

  lemma CompleteKeeps(messages: map<Id, Message>, outstanding: multiset<Id>, handing: set<Id>, id: Id)
    requires InFlight(messages, outstanding, handing) && id in outstanding
    ensures id !in handing && InFlight(messages, outstanding - multiset{id}, handing + {id})
  {
    assert outstanding[id] == 1;
  }

  lemma AcceptKeeps(messages: map<Id, Message>, outstanding: multiset<Id>, id: Id)
    requires InFlight(messages, outstanding, {id})
    ensures InFlight(messages, outstanding + multiset{id}, {})
  {
  }

  lemma QueueKeeps(known: set<Id>, queued: seq<Id>, id: Id)
    requires QueuedOnce(known, queued) && id !in known
    ensures QueuedOnce(known + {id}, queued + [id])
  {
    assert forall x :: x in queued + [id] <==> x in queued || x == id;
  }

  lemma FreshKeeps(messages: map<Id, Message>, outstanding: multiset<Id>, handing: set<Id>, notified: seq<Id>, id: Id, m: Message)
    requires InFlight(messages, outstanding, handing) && NotifiedOnce(messages, notified)
    requires id !in messages && m.state.WaitingToBeSent?
    ensures InFlight(messages[id := m], outstanding, handing) && NotifiedOnce(messages[id := m], notified)
    ensures DoneStays(messages, messages[id := m])
  {
    assert id !in outstanding;
  }

  /** The invariant, except for the order of what is held. */
  ghost predicate Consistent(s: State) {
    && Structure(s)
    && InFlight(s.messages, s.outstanding, InCall(s))
    && NotifiedOnce(s.messages, s.notified)
  }

  lemma VisitKeeps(c: Config, s: State)
    requires Consistent(s) && Enabled(s, Visit)
    ensures Consistent(VisitMessage(c, s)) && DoneStays(s.messages, VisitMessage(c, s).messages)
  {
    var m := s.messages[s.pending[s.pass.index]];
    if m.state.WaitingToBeSent? {
      if MsgTimeout(c, s.now, m.idleTime).Expired? {
        VisitExpires(c, s);
      } else {
        MarkKeeps(s.messages, s.outstanding, s.notified, s.pending[s.pass.index]);
      }
    }
  }

  lemma VisitExpires(c: Config, s: State)
    requires Consistent(s) && Enabled(s, Visit)
    requires var m := s.messages[s.pending[s.pass.index]];
             m.state.WaitingToBeSent? && MsgTimeout(c, s.now, m.idleTime).Expired?
    ensures Consistent(VisitMessage(c, s)) && DoneStays(s.messages, VisitMessage(c, s).messages)
  {
    var id := s.pending[s.pass.index];
    MarkKeeps(s.messages, s.outstanding, s.notified, id);
    var marked := s.(messages := s.messages[id := s.messages[id].(state := WaitingForSendAck)]);
    SettleKeeps(c, marked, id, Timeout, {id});
    assert {id} - {id} == {};
  }

  lemma RefuseKeeps(c: Config, s: State)
    requires Consistent(s) && Enabled(s, Refuse)
    ensures Consistent(Apply(c, s, Refuse)) && DoneStays(s.messages, Apply(c, s, Refuse).messages)
  {
    var id := s.pending[s.pass.index];
    SettleKeeps(c, s, id, Error(ClientException), {id});
    assert {id} - {id} == {};
  }

  lemma CompleteStepKeeps(c: Config, s: State, id: Id, result: SendResult)
    requires Consistent(s) && Enabled(s, Complete(id, result))
    ensures var s' := Apply(c, s, Complete(id, result)); Consistent(s') && DoneStays(s.messages, s'.messages)
  {
    CompleteKeeps(s.messages, s.outstanding, InCall(s), id);
    SettleKeeps(c, s.(outstanding := s.outstanding - multiset{id}), id, result, InCall(s) + {id});
    assert InCall(s) + {id} - {id} == InCall(s);
  }

  lemma QueueStepKeeps(c: Config, s: State, id: Id)
    requires Consistent(s) && Enabled(s, Queue(id))
    ensures Consistent(Apply(c, s, Queue(id))) && DoneStays(s.messages, Apply(c, s, Queue(id)).messages)
  {
    var m := Message(WaitingToBeSent, 0, s.now);
    QueueKeeps(s.messages.Keys, s.queued, id);
    assert s.messages[id := m].Keys == s.messages.Keys + {id};
    FreshKeeps(s.messages, s.outstanding, InCall(s), s.notified, id, m);
    assert AllIn(s.pending + [id], s.messages.Keys + {id});
    assert InCall(Apply(c, s, Queue(id))) == InCall(s);
  }

  lemma StepKeeps(c: Config, s: State, step: Step)
    requires Consistent(s) && Enabled(s, step)
    ensures Consistent(Apply(c, s, step)) && DoneStays(s.messages, Apply(c, s, step).messages)
  {
    match step {
      case Visit => VisitKeeps(c, s);
      case Refuse => RefuseKeeps(c, s);
      case Complete(id, result) => CompleteStepKeeps(c, s, id, result);
      case Queue(id) => QueueStepKeeps(c, s, id);
      case Accept => AcceptKeeps(s.messages, s.outstanding, s.pending[s.pass.index]);
      case _ =>
    }
  }

  /** The pass moves on, and it leaves a message behind only when that message is done. */
  lemma AdvanceHolds(messages: map<Id, Message>, pass: Pass, pending: seq<Id>, keep: bool)
    requires !pass.Resting? && pass.index < |pending|
    requires keep || IsDone(messages, pending[pass.index])
    ensures var pass' := Advance(pass, pending[pass.index], keep);
            Live(messages, pass'.filtered + pending[pass'.index..]) == Live(messages, pass.filtered + pending[pass.index..])
  {
    var f, i := pass.filtered, pass.index;
    var id, later := pending[i], pending[i + 1..];
    assert pending[i..] == [id] + later;
    assert f + [id] + later == f + ([id] + later);
    if !keep {
      DropDone(messages, f, id, later);
    }
  }

  /** A step adds the queued message at the end, or drops one message that is done, or holds the same. */
  lemma HeldChanges(c: Config, s: State, step: Step)
    requires Structure(s) && Enabled(s, step)
    ensures var s' := Apply(c, s, step);
            if step.Queue? then Held(s') == Held(s) + [step.id]
            else Live(s'.messages, Held(s')) == Live(s'.messages, Held(s))
  {
    match step {
      case Visit => VisitHolds(c, s);
      case Refuse =>
        var id := s.pending[s.pass.index];
        var messages' := Apply(c, s, step).messages;
        AdvanceHolds(messages', s.pass, s.pending, messages'[id].state.WaitingToBeSent?);
      case Resume => AdvanceHolds(s.messages, s.pass, s.pending, true);
      case Queue(id) => assert !s.pass.Resting? ==> (s.pending + [id])[s.pass.index..] == s.pending[s.pass.index..] + [id];
      case BeginPass => assert [] + s.pending[0..] == s.pending;
      case EndPass => assert s.pass.filtered + s.pending[s.pass.index..] == s.pass.filtered;
      case _ => assert Held(Apply(c, s, step)) == Held(s);
    }
  }

  lemma VisitHolds(c: Config, s: State)
    requires Structure(s) && Enabled(s, Visit)
    ensures var s' := VisitMessage(c, s); Live(s'.messages, Held(s')) == Live(s'.messages, Held(s))
  {
    var s' := VisitMessage(c, s);
    if s'.pass.Filtering? {
      AdvanceHolds(s'.messages, s.pass, s.pending, s.messages[s.pending[s.pass.index]].state.WaitingForSendAck?);
    }
  }

  lemma OrderCarries(before: map<Id, Message>, after: map<Id, Message>, queued: seq<Id>, held: seq<Id>)
    requires DoneStays(before, after) && Live(before, queued) == Live(before, held)
    ensures Live(after, queued) == Live(after, held)
  {
    LiveShrinks(before, after, queued);
    LiveShrinks(before, after, held);
  }

  lemma OrderedKept(c: Config, s: State, step: Step)
    requires Structure(s) && Ordered(s) && Enabled(s, step)
    requires DoneStays(s.messages, Apply(c, s, step).messages)
    ensures Ordered(Apply(c, s, step))
  {
    var s' := Apply(c, s, step);
    OrderCarries(s.messages, s'.messages, s.queued, Held(s));
    HeldChanges(c, s, step);
    if step.Queue? {
      LiveConcat(s'.messages, s.queued, [step.id]);
      LiveConcat(s'.messages, Held(s), [step.id]);
    } else {
      assert s'.queued == s.queued;
    }
  }

  /** The invariant holds at the end of every run, whatever the interleaving. */
  lemma {:induction false} EveryRun(c: Config, start: int, steps: seq<Step>)
    requires ValidRun(c, start, steps)
    ensures Invariant(Final(c, start, steps))
  {
    if steps != [] {
      var before := steps[..|steps| - 1];
      EveryRun(c, start, before);
      StepKeeps(c, Final(c, start, before), steps[|steps| - 1]);
      OrderedKept(c, Final(c, start, before), steps[|steps| - 1]);
    }
  }
}

/**
  Token negotiation over CBS: the status machine of `CBSTokenAuth`, polled by `handle_token`, with a
  clock that never goes back and put-token completions that arrive later, in callbacks.
 */
module CbsToken {
  import opened Wrappers

  datatype Status = Idle | InProgress | Ok | RefreshRequired | Expired | Error | Failure | Timeout

  datatype Token = Token(name: string, expiresAt: int)

  /** `window` is kept for life; `authTimeout` of zero means no timeout. */
  datatype Config = Config(window: nat, authTimeout: nat, policyRetries: int)

  /** A reading of the status: when, what, and the expiry in force. */
  datatype Sample = Sample(time: int, status: Status, expiresAt: int)

  /** What the theorems need to remember about the past. */
  datatype Ledger = Ledger(
    outstanding: nat,        // put-token requests accepted and not completed
    lastPut: Option<Token>,  // the token of the last accepted request
    lastPutAt: int,          // and when it was accepted
    accepted: nat,           // every request the C library has accepted
    firstPuts: nat,          // the same, by the branch of the poll that made them
    retryPuts: nat,
    refreshPuts: nat,
    samples: seq<Sample>)

  datatype State = State(
    status: Status, token: Token, expiresAt: int, putTime: int, retries: nat, now: int, ledger: Ledger)

  /** What the environment decides during one poll. */
  datatype Env = Env(
    locks: bool,         // the connection lock is acquired in time
    closing: bool,       // the connection is closing or in error
    sampleDelay: nat,    // time before the status is read
    updates: bool,       // update_token succeeds, giving `renewed`
    renewed: Token,
    refreshDelay: nat,   // time before refresh reads the status again
    putDelay: nat,       // time before authenticate reads the clock, backoff included
    accepts: bool)       // the C library accepts the put-token request

  datatype Outcome =
    | NoLock
    | Answer(timedOut: bool, inProgress: bool)
    | RaisedTokenAuthFailure
    | RaisedAuthentication
    | RaisedTokenExpired

  datatype Step = Tick(elapsed: nat) | OpenComplete(failed: bool) | PutComplete(ok: bool) | Poll(env: Env)

  // ---------------------------------------------------------------- the code

  /** The refresh window of a new authenticator: a tenth of the lifetime; a long expired token overflows. */
  function RefreshWindow(expiresAt: int, now: int): Option<nat> {
    var remaining := expiresAt - now;
    if remaining >= 0 then Some(remaining / 10)
    else if remaining > -10 then Some(0)
    else None
  }

  function Start(token: Token, now: int): State {
    State(Idle, token, token.expiresAt, 0, 0, now, Ledger(0, None, 0, 0, 0, 0, 0, []))
  }

  /** `_update_status` at the current time. */
  function UpdatedStatus(c: Config, status: Status, now: int, expiresAt: int, putTime: int): Status {
    if status.Ok? || status.RefreshRequired? then
      if now >= expiresAt then Expired
      else if expiresAt - now <= c.window then RefreshRequired
      else status
    else if status.InProgress? then
      if c.authTimeout > 0 && now - putTime >= c.authTimeout then Timeout else status
    else status
  }

  function Sampled(c: Config, s: State, delay: nat): State {
    var now := s.now + delay;
    var status := UpdatedStatus(c, s.status, now, s.expiresAt, s.putTime);
    s.(now := now, status := status,
       ledger := s.ledger.(samples := s.ledger.samples + [Sample(now, status, s.expiresAt)]))
  }

  /** How a call of `authenticate` ends: nothing to do, a request accepted, or an exception. */
  datatype PutResult = Skipped | Accepted | Raised

  function Authenticated(s: State, delay: nat, accepts: bool): (State, PutResult) {
    if s.status.InProgress? then (s, Skipped)
    else
      var s1 := s.(now := s.now + delay);
      if s1.now >= s1.expiresAt then (s1, Raised)
      else
        var s2 := s1.(putTime := s1.now);
        if accepts then
          (s2.(status := InProgress,
               ledger := s2.ledger.(
                 outstanding := s2.ledger.outstanding + 1,
                 lastPut := Some(s2.token),
                 lastPutAt := s2.now,
                 accepted := s2.ledger.accepted + 1)), Accepted)
        else (s2, Raised)
  }

  function Count(put: PutResult): nat {
    if put.Accepted? then 1 else 0
  }

  /** `refresh`: the token is replaced first, its expiry only after the request was accepted. */
  function Refreshed(c: Config, s: State, env: Env): (State, Outcome) {
    var s1 := Sampled(c, s, env.refreshDelay);
    if s1.status.RefreshRequired? then
      var (s2, put) := Authenticated(s1.(token := env.renewed), env.putDelay, env.accepts);
      if put.Raised? then (s2, RaisedAuthentication)
      else (s2.(expiresAt := env.renewed.expiresAt,
                ledger := s2.ledger.(refreshPuts := s2.ledger.refreshPuts + Count(put))), Answer(false, false))
    else (s1, Answer(false, false))
  }

  /** Another put after a failed one, charged to the retries. */
  function Retried(s: State, env: Env): (State, Outcome) {
    var (s', put) := Authenticated(s.(retries := s.retries + 1), env.putDelay, env.accepts);
    if put.Raised? then (s', RaisedAuthentication)
    else (s'.(ledger := s'.ledger.(retryPuts := s'.ledger.retryPuts + Count(put))), Answer(false, true))
  }

  /** The put of a new authenticator. */
  function FirstPut(s: State, env: Env): (State, Outcome) {
    var (s', put) := Authenticated(s, env.putDelay, env.accepts);
    if put.Raised? then (s', RaisedAuthentication)
    else (s'.(ledger := s'.ledger.(firstPuts := s'.ledger.firstPuts + Count(put))), Answer(false, true))
  }

  /** What `handle_token` does with the status it has read. */
  function Judged(c: Config, s: State, env: Env): (State, Outcome) {
    match s.status
    case Error => if s.retries >= c.policyRetries then (s, RaisedTokenAuthFailure) else Retried(s, env)
    case Failure => (s, RaisedAuthentication)
    case Expired => (s, RaisedTokenExpired)
    case Timeout => (s, Answer(true, false))
    case InProgress => (s, Answer(false, true))
    case RefreshRequired => if env.updates then Refreshed(c, s, env) else (s, RaisedTokenExpired)
    case Idle => FirstPut(s, env)
    case Ok => (s, Answer(false, false))
  }

  /** `handle_token`. */
  function HandleToken(c: Config, s: State, env: Env): (State, Outcome) {
    if !env.locks then (s, NoLock)
    else if env.closing then (s, Answer(false, false))
    else Judged(c, Sampled(c, s, env.sampleDelay), env)
  }

  predicate Enabled(s: State, step: Step) {
    step.PutComplete? ==> s.ledger.outstanding > 0
  }

  function Apply(c: Config, s: State, step: Step): State
    requires Enabled(s, step)
  {
    match step
    case Tick(elapsed) => s.(now := s.now + elapsed)
    case OpenComplete(failed) => if failed then s.(status := Failure) else s
    case PutComplete(ok) =>
      s.(status := if ok then Ok else Error, ledger := s.ledger.(outstanding := s.ledger.outstanding - 1))
    case Poll(env) => HandleToken(c, s, env).0
  }

  // ---------------------------------------------------------------- runs

  ghost predicate ValidRun(c: Config, first: State, steps: seq<Step>)
    decreases |steps|, 0
  {
    steps == [] ||
    (ValidRun(c, first, steps[..|steps| - 1]) && Enabled(Final(c, first, steps[..|steps| - 1]), steps[|steps| - 1]))
  }

  ghost function Final(c: Config, first: State, steps: seq<Step>): State
    requires ValidRun(c, first, steps)
    decreases |steps|, 1
  {
    if steps == [] then first else Apply(c, Final(c, first, steps[..|steps| - 1]), steps[|steps| - 1])
  }

  lemma Extend(c: Config, first: State, steps: seq<Step>, step: Step)
    requires ValidRun(c, first, steps) && Enabled(Final(c, first, steps), step)
    ensures ValidRun(c, first, steps + [step])
    ensures Final(c, first, steps + [step]) == Apply(c, Final(c, first, steps), step)
  {
    assert (steps + [step])[..|steps|] == steps;
  }

  // ---------------------------------------------------------------- what every step keeps

  function Budget(c: Config): nat {
    if c.policyRetries > 0 then c.policyRetries else 0
  }

  /** At most one request is outstanding, and only in the states that say so. */
  predicate OneRequest(s: State) {
    && s.ledger.outstanding <= 1
    && (s.status in {Idle, Ok, RefreshRequired, Expired, Error} ==> s.ledger.outstanding == 0)
    && (s.status in {InProgress, Timeout} ==> s.ledger.outstanding == 1)
    && (s.ledger.outstanding == 1 ==> s.putTime == s.ledger.lastPutAt)
  }

  /** Each request accepted so far is charged to the first attempt, to a retry or to a refresh. */
  predicate Accounted(c: Config, s: State) {
    && s.ledger.accepted == s.ledger.firstPuts + s.ledger.retryPuts + s.ledger.refreshPuts
    && s.ledger.firstPuts <= 1
    && (s.status.Idle? ==> s.ledger.firstPuts == 0)
    && s.ledger.retryPuts <= s.retries <= Budget(c)
  }

  /** The expiry in force is that of the token last put, or of the first token before any put. */
  predicate ExpiryMatches(s: State) {
    && (s.status.Idle? ==> s.ledger.lastPut.None?)
    && (s.ledger.lastPut.None? ==> s.expiresAt == s.token.expiresAt && s.status in {Idle, Failure})
    && (s.ledger.lastPut.Some? ==> s.expiresAt == s.ledger.lastPut.value.expiresAt)
    && (s.status.Error? || s.ledger.outstanding > 0 ==> s.ledger.lastPut == Some(s.token))
  }

  /** After an Ok reading nothing but time and a failing link can have happened. */
  predicate SinceOk(c: Config, s: State) {
    var samples := s.ledger.samples;
    samples != [] ==>
      var last := samples[|samples| - 1];
      && last.time <= s.now
      && (last.status.Ok? ==>
            && last.expiresAt - last.time > c.window
            && s.expiresAt == last.expiresAt
            && s.status in {Ok, Failure}
            && s.ledger.outstanding == 0)
  }

  /** An Ok reading is followed by an Expired one only across a gap longer than the window. */
  predicate NoEarlyJump(window: nat, samples: seq<Sample>) {
    forall i {:trigger samples[i]} :: 0 <= i < |samples| - 1 && samples[i].status.Ok? && samples[i + 1].status.Expired? ==>
      samples[i + 1].time - samples[i].time > window
  }

  predicate Invariant(c: Config, s: State) {
    && OneRequest(s) && Accounted(c, s) && ExpiryMatches(s) && SinceOk(c, s)
    && NoEarlyJump(c.window, s.ledger.samples)
  }

  lemma SampledKeeps(c: Config, s: State, delay: nat)
    requires Invariant(c, s)
    ensures Invariant(c, Sampled(c, s, delay))
  {
  }

  /** The three places that put a token: the branch taken counts the request when it is accepted. */
  lemma RetryKeeps(c: Config, s: State, env: Env)
    requires Invariant(c, s) && s.status.Error? && s.retries < c.policyRetries
    ensures Invariant(c, Retried(s, env).0)
  {
  }

  lemma FirstPutKeeps(c: Config, s: State, env: Env)
    requires Invariant(c, s) && s.status.Idle?
    ensures Invariant(c, FirstPut(s, env).0)
  {
  }

  lemma RefreshKeeps(c: Config, s: State, env: Env)
    requires Invariant(c, s) && s.status.RefreshRequired?
    ensures Invariant(c, Refreshed(c, s, env).0)
  {
    SampledKeeps(c, s, env.refreshDelay);
  }

  lemma JudgedKeeps(c: Config, s: State, env: Env)
    requires Invariant(c, s)
    ensures Invariant(c, Judged(c, s, env).0)
  {
    if s.status.Error? && s.retries < c.policyRetries {
      RetryKeeps(c, s, env);
      assert Judged(c, s, env) == Retried(s, env);
    } else if s.status.Idle? {
      FirstPutKeeps(c, s, env);
      assert Judged(c, s, env) == FirstPut(s, env);
    } else if s.status.RefreshRequired? && env.updates {
      RefreshKeeps(c, s, env);
      assert Judged(c, s, env) == Refreshed(c, s, env);
    } else {
      assert Judged(c, s, env).0 == s;
    }
  }

  lemma PollKeeps(c: Config, s: State, env: Env)
    requires Invariant(c, s)
    ensures Invariant(c, HandleToken(c, s, env).0)
  {
    if env.locks && !env.closing {
      SampledKeeps(c, s, env.sampleDelay);
      JudgedKeeps(c, Sampled(c, s, env.sampleDelay), env);
    }
  }

  lemma StepKeeps(c: Config, s: State, step: Step)
    requires Invariant(c, s) && Enabled(s, step)
    ensures Invariant(c, Apply(c, s, step))
  {
    if step.Poll? {
      PollKeeps(c, s, step.env);
    }
  }

  lemma {:induction false} EveryRun(c: Config, token: Token, now: int, steps: seq<Step>)
    requires ValidRun(c, Start(token, now), steps)
    ensures Invariant(c, Final(c, Start(token, now), steps))
  {
    if steps != [] {
      var before := steps[..|steps| - 1];
      EveryRun(c, token, now, before);
      StepKeeps(c, Final(c, Start(token, now), before), steps[|steps| - 1]);
    }
  }

  // ---------------------------------------------------------------- the theorems

  /**
    In every run of polls and callbacks at most one put-token request is outstanding, and none in the
    states Idle, Ok, RefreshRequired, Expired and Error; over the whole life the accepted requests
    number at most one, plus the policy's retries, plus the refreshes.
   */
  lemma RequestsBounded(c: Config, token: Token, now: int, steps: seq<Step>)
    requires ValidRun(c, Start(token, now), steps)
    ensures var s := Final(c, Start(token, now), steps);
            && s.ledger.outstanding <= 1
            && (s.status in {Idle, Ok, RefreshRequired, Expired, Error} ==> s.ledger.outstanding == 0)
            && (s.status in {InProgress, Timeout} ==> s.ledger.outstanding == 1)
            && s.ledger.accepted == s.ledger.firstPuts + s.ledger.retryPuts + s.ledger.refreshPuts
            && s.ledger.accepted <= 1 + Budget(c) + s.ledger.refreshPuts
  {
    EveryRun(c, token, now, steps);
  }

  /**
    On a connection that is neither closing nor in error, a poll answers (False, False) only if the
    token last put was unexpired when the status was read.
   */
  lemma AuthorizedMeansUnexpired(c: Config, token: Token, now: int, steps: seq<Step>, env: Env)
    requires ValidRun(c, Start(token, now), steps) && !env.closing
    requires HandleToken(c, Final(c, Start(token, now), steps), env).1 == Answer(false, false)
    ensures var s := Final(c, Start(token, now), steps);
            && s.ledger.lastPut.Some?
            && s.now + env.sampleDelay < s.ledger.lastPut.value.expiresAt
            && s.status in {Ok, RefreshRequired}
  {
    EveryRun(c, token, now, steps);
  }

  // ---------------------------------------------------------------- what a poll does

  /** A request was accepted: it is the only one outstanding, with this token, made at this time. */
  predicate Requested(s: State, s': State, token: Token, time: int) {
    && s'.status.InProgress? && s'.token == token && s'.now == time
    && s'.ledger.outstanding == s.ledger.outstanding + 1
    && s'.ledger.lastPut == Some(token) && s'.ledger.lastPutAt == time && s'.putTime == time
    && s'.ledger.accepted == s.ledger.accepted + 1
  }

  /** No request was made; the token in force and its expiry are the old ones. */
  predicate NotRequested(s: State, s': State) {
    && s'.expiresAt == s.expiresAt && s'.ledger.outstanding == s.ledger.outstanding
    && s'.ledger.lastPut == s.ledger.lastPut && s'.ledger.accepted == s.ledger.accepted
  }

  /** The poll with a token that is still good when the status is read. */
  predicate PollsGood(c: Config, s: State, env: Env, s': State, outcome: Outcome) {
    var read := s.now + env.sampleDelay;
    var again := read + env.refreshDelay;
    var put := again + env.putDelay;
    if s.status.Ok? && s.expiresAt - read > c.window then
      outcome == Answer(false, false) && s'.status.Ok? && NotRequested(s, s') && s'.token == s.token
    else if !env.updates then outcome == RaisedTokenExpired && s'.status.RefreshRequired? && NotRequested(s, s')
    else if again >= s.expiresAt then outcome == Answer(false, false) && s'.status.Expired? && NotRequested(s, s')
    else if put >= s.expiresAt || !env.accepts then outcome == RaisedAuthentication && NotRequested(s, s')
    else
      && outcome == Answer(false, false) && Requested(s, s', env.renewed, put)
      && s'.expiresAt == env.renewed.expiresAt && s'.retries == s.retries
      && s'.ledger.refreshPuts == s.ledger.refreshPuts + 1
  }

  /** The poll that has to put the token it has, for the first time or again. */
  predicate PollsPut(s: State, env: Env, s': State, outcome: Outcome) {
    var put := s.now + env.sampleDelay + env.putDelay;
    if put >= s.expiresAt || !env.accepts then outcome == RaisedAuthentication && NotRequested(s, s')
    else outcome == Answer(false, true) && Requested(s, s', s.token, put) && s'.expiresAt == s.expiresAt
  }

  /** What a poll of a live connection owes, by the fields before it. */
  predicate Owes(c: Config, s: State, env: Env, s': State, outcome: Outcome) {
    var read := s.now + env.sampleDelay;
    match s.status
    case Idle => PollsPut(s, env, s', outcome) && s'.retries == s.retries
    case Error =>
      if s.retries >= c.policyRetries
      then outcome == RaisedTokenAuthFailure && NotRequested(s, s') && s'.retries == s.retries
      else PollsPut(s, env, s', outcome) && s'.retries == s.retries + 1
    case InProgress =>
      var late := c.authTimeout > 0 && read - s.putTime >= c.authTimeout;
      && outcome == Answer(late, !late) && s'.status == (if late then Timeout else InProgress) && NotRequested(s, s')
    case Timeout => outcome == Answer(true, false) && s'.status.Timeout? && NotRequested(s, s')
    case Failure => outcome == RaisedAuthentication && s'.status.Failure? && NotRequested(s, s')
    case Expired => outcome == RaisedTokenExpired && s'.status.Expired? && NotRequested(s, s')
    case _ =>
      if read >= s.expiresAt then outcome == RaisedTokenExpired && s'.status.Expired? && NotRequested(s, s')
      else PollsGood(c, s, env, s', outcome)
  }

  lemma PollOfIdle(c: Config, s: State, env: Env)
    requires env.locks && !env.closing && s.status.Idle?
    ensures Owes(c, s, env, HandleToken(c, s, env).0, HandleToken(c, s, env).1)
  {
    assert HandleToken(c, s, env) == FirstPut(Sampled(c, s, env.sampleDelay), env);
  }

  lemma PollOfError(c: Config, s: State, env: Env)
    requires env.locks && !env.closing && s.status.Error?
    ensures Owes(c, s, env, HandleToken(c, s, env).0, HandleToken(c, s, env).1)
  {
    if s.retries < c.policyRetries {
      assert HandleToken(c, s, env) == Retried(Sampled(c, s, env.sampleDelay), env);
    } else {
      assert HandleToken(c, s, env) == (Sampled(c, s, env.sampleDelay), RaisedTokenAuthFailure);
    }
  }

  lemma PollOfGood(c: Config, s: State, env: Env)
    requires env.locks && !env.closing && (s.status.Ok? || s.status.RefreshRequired?)
    ensures Owes(c, s, env, HandleToken(c, s, env).0, HandleToken(c, s, env).1)
  {
    var s1 := Sampled(c, s, env.sampleDelay);
    if s1.status.RefreshRequired? && env.updates {
      assert HandleToken(c, s, env) == Refreshed(c, s1, env);
      RefreshDoes(c, s1, env);
    } else if s1.status.RefreshRequired? {
      assert HandleToken(c, s, env) == (s1, RaisedTokenExpired);
    } else {
      assert HandleToken(c, s, env) == (s1, if s1.status.Ok? then Answer(false, false) else RaisedTokenExpired);
    }
  }

  lemma RefreshDoes(c: Config, s: State, env: Env)
    requires s.status.RefreshRequired? && s.expiresAt > s.now
    ensures var (s', outcome) := Refreshed(c, s, env);
            var again := s.now + env.refreshDelay;
            var put := again + env.putDelay;
            if again >= s.expiresAt then outcome == Answer(false, false) && s'.status.Expired? && NotRequested(s, s')
            else if put >= s.expiresAt || !env.accepts then outcome == RaisedAuthentication && NotRequested(s, s')
            else
              && outcome == Answer(false, false) && Requested(s, s', env.renewed, put)
              && s'.expiresAt == env.renewed.expiresAt && s'.retries == s.retries
              && s'.ledger.refreshPuts == s.ledger.refreshPuts + 1
  {
  }

  /**
    What a poll does, by the fields before it and what the outside decides: nothing without the lock or
    on a closing connection; otherwise it puts, puts again, refreshes, waits, times out or raises.
   */
  lemma PollDoes(c: Config, s: State, env: Env)
    ensures var (s', outcome) := HandleToken(c, s, env);
            if !env.locks then s' == s && outcome == NoLock
            else if env.closing then s' == s && outcome == Answer(false, false)
            else Owes(c, s, env, s', outcome)
  {
    if env.locks && !env.closing {
      match s.status {
        case Idle => PollOfIdle(c, s, env);
        case Error => PollOfError(c, s, env);
        case Ok => PollOfGood(c, s, env);
        case RefreshRequired => PollOfGood(c, s, env);
        case _ => assert HandleToken(c, s, env).0 == Sampled(c, s, env.sampleDelay);
      }
    }
  }

  /**
    In every run, a poll of a live connection that finds a request in progress reports a timeout if and
    only if there is a limit and the request was accepted at least that long ago.
   */
  lemma TimesOutIff(c: Config, token: Token, now: int, steps: seq<Step>, env: Env)
    requires ValidRun(c, Start(token, now), steps) && env.locks && !env.closing
    requires Final(c, Start(token, now), steps).status.InProgress?
    ensures var s := Final(c, Start(token, now), steps);
            var late := c.authTimeout > 0 && s.now + env.sampleDelay - s.ledger.lastPutAt >= c.authTimeout;
            HandleToken(c, s, env).1 == Answer(late, !late)
  {
    EveryRun(c, token, now, steps);
    PollDoes(c, Final(c, Start(token, now), steps), env);
  }

  // ---------------------------------------------------------------- how often to poll

  predicate Gaps(samples: seq<Sample>, gap: int) {
    forall i {:trigger samples[i]} :: 0 <= i < |samples| - 1 ==> samples[i + 1].time - samples[i].time <= gap
  }

  predicate Jumps(samples: seq<Sample>, i: int) {
    0 <= i < |samples| - 1 && samples[i].status.Ok? && samples[i + 1].status.Expired?
  }

  /** Whatever happens, polling at least every `gap` seconds never finds Expired right after Ok. */
  ghost predicate NeverJumps(c: Config, token: Token, now: int, gap: int) {
    forall steps, i :: ValidRun(c, Start(token, now), steps) ==>
      var samples := Final(c, Start(token, now), steps).ledger.samples;
      Gaps(samples, gap) ==> !Jumps(samples, i)
  }

  /** A poll after `delay` seconds on an open connection, with nothing going wrong. */
  function QuietPoll(delay: nat): Step {
    Poll(Env(true, false, delay, false, Token("", 0), 0, 0, true))
  }

  /** The token is accepted and has been read as Ok, lately at the current time. */
  ghost predicate ReadOk(c: Config, token: Token, s: State) {
    && s.status.Ok? && s.expiresAt == token.expiresAt
    && s.ledger.samples != []
    && s.ledger.samples[|s.ledger.samples| - 1] == Sample(s.now, Ok, token.expiresAt)
    && Gaps(s.ledger.samples, 1)
  }

  lemma FirstOk(c: Config, token: Token, now: int) returns (steps: seq<Step>)
    requires token.expiresAt - now > c.window
    ensures ValidRun(c, Start(token, now), steps)
    ensures var s := Final(c, Start(token, now), steps); s.now == now && ReadOk(c, token, s)
  {
    var first := Start(token, now);
    Extend(c, first, [], QuietPoll(0));
    steps := [] + [QuietPoll(0)];
    assert Final(c, first, steps).status.InProgress?;
    Extend(c, first, steps, PutComplete(true));
    steps := steps + [PutComplete(true)];
    Extend(c, first, steps, QuietPoll(0));
    steps := steps + [QuietPoll(0)];
    assert Final(c, first, steps).ledger.samples == [Sample(now, Idle, token.expiresAt), Sample(now, Ok, token.expiresAt)];
  }

  lemma {:induction false} OkFor(c: Config, token: Token, now: int, seconds: nat) returns (steps: seq<Step>)
    requires token.expiresAt - (now + seconds) > c.window
    ensures ValidRun(c, Start(token, now), steps)
    ensures var s := Final(c, Start(token, now), steps); s.now == now + seconds && ReadOk(c, token, s)
  {
    if seconds == 0 {
      steps := FirstOk(c, token, now);
    } else {
      steps := OkFor(c, token, now, seconds - 1);
      Extend(c, Start(token, now), steps, QuietPoll(1));
      steps := steps + [QuietPoll(1)];
    }
  }

  lemma LatePoll(c: Config, token: Token, now: int, gap: int) returns (steps: seq<Step>, i: int)
    requires token.expiresAt - now > c.window && gap > c.window
    ensures ValidRun(c, Start(token, now), steps)
    ensures var samples := Final(c, Start(token, now), steps).ledger.samples; Gaps(samples, gap) && Jumps(samples, i)
  {
    steps := OkFor(c, token, now, token.expiresAt - c.window - 1 - now);
    var s := Final(c, Start(token, now), steps);
    Extend(c, Start(token, now), steps, QuietPoll(c.window + 1));
    steps := steps + [QuietPoll(c.window + 1)];
    i := |s.ledger.samples| - 1;
  }

  /**
    With the window the constructor computes, a tenth of the first token's lifetime, polling every
    `gap` seconds rules out going from Ok straight to Expired if and only if the gap is at most the
    window (or the first token was already expired, so that it is never put).
   */
  lemma PollGapIsTheWindow(c: Config, token: Token, now: int, gap: int)
    requires RefreshWindow(token.expiresAt, now) == Some(c.window)
    ensures NeverJumps(c, token, now, gap) <==> gap <= c.window || token.expiresAt <= now
  {
    if gap <= c.window {
      forall steps, i | ValidRun(c, Start(token, now), steps) && Gaps(Final(c, Start(token, now), steps).ledger.samples, gap)
        ensures !Jumps(Final(c, Start(token, now), steps).ledger.samples, i)
      {
        EveryRun(c, token, now, steps);
      }
    } else if token.expiresAt <= now {
      forall steps, i | ValidRun(c, Start(token, now), steps)
        ensures !Jumps(Final(c, Start(token, now), steps).ledger.samples, i)
      {
        ExpiredIsNeverPut(c, token, now, steps);
      }
    } else {
      var steps, i := LatePoll(c, token, now, gap);
      assert Jumps(Final(c, Start(token, now), steps).ledger.samples, i);
    }
  }

  /** An expired first token is never accepted, so no reading is ever Ok. */
  lemma {:induction false} ExpiredIsNeverPut(c: Config, token: Token, now: int, steps: seq<Step>)
    requires ValidRun(c, Start(token, now), steps) && token.expiresAt <= now
    ensures var s := Final(c, Start(token, now), steps);
            && s.status in {Idle, Failure} && s.ledger.outstanding == 0 && s.expiresAt <= s.now
            && forall i :: 0 <= i < |s.ledger.samples| ==> s.ledger.samples[i].status in {Idle, Failure}
  {
    if steps != [] {
      ExpiredIsNeverPut(c, token, now, steps[..|steps| - 1]);
    }
  }

  // ---------------------------------------------------------------- a token kept alive

  /**
    The outside does its part: the connection is live, polls take at most `delay` seconds between the
    reading and the request, new tokens are had and accepted, and each is confirmed while it has more
    than `gap` plus `delay` seconds left.
   */
  predicate Cooperates(gap: int, delay: int, s: State, step: Step) {
    match step
    case Tick(_) => true
    case OpenComplete(failed) => !failed
    case PutComplete(ok) => ok && s.expiresAt - s.now > gap + delay
    case Poll(env) => env.locks && !env.closing && env.updates && env.accepts && env.refreshDelay + env.putDelay <= delay
  }

  ghost predicate Cooperative(c: Config, gap: int, delay: int, first: State, steps: seq<Step>)
    requires ValidRun(c, first, steps)
  {
    steps == [] ||
    var before := steps[..|steps| - 1];
    Cooperative(c, gap, delay, first, before) && Cooperates(gap, delay, Final(c, first, before), steps[|steps| - 1])
  }

  /** The status is one of a token that is in force or on its way, and a good one outlasts the next poll. */
  predicate Alive(gap: int, delay: int, s: State) {
    && s.status in {Idle, InProgress, Timeout, Ok}
    && (!s.status.Idle? ==> s.ledger.samples != [])
    && (s.ledger.samples != [] ==> s.ledger.samples[|s.ledger.samples| - 1].time <= s.now)
    && (s.status.Ok? ==> s.expiresAt - s.ledger.samples[|s.ledger.samples| - 1].time > gap + delay)
    && forall i :: 0 <= i < |s.ledger.samples| ==> !s.ledger.samples[i].status.Expired?
  }

  lemma SamplesGrow(c: Config, s: State, step: Step)
    requires Enabled(s, step)
    ensures s.ledger.samples <= Apply(c, s, step).ledger.samples
  {
  }

  lemma AliveStep(c: Config, gap: int, delay: int, s: State, step: Step)
    requires Enabled(s, step) && Cooperates(gap, delay, s, step) && Alive(gap, delay, s)
    requires gap + delay <= c.window && OneRequest(s)
    requires Gaps(Apply(c, s, step).ledger.samples, gap)
    ensures Alive(gap, delay, Apply(c, s, step))
  {
    if step.Poll? {
      AlivePoll(c, gap, delay, s, step.env);
    }
  }

  lemma AlivePoll(c: Config, gap: int, delay: int, s: State, env: Env)
    requires Cooperates(gap, delay, s, Poll(env)) && Alive(gap, delay, s)
    requires gap + delay <= c.window
    requires Gaps(HandleToken(c, s, env).0.ledger.samples, gap)
    ensures Alive(gap, delay, HandleToken(c, s, env).0)
  {
    if s.status.Ok? {
      AliveGood(c, gap, delay, s, env);
    } else if s.status.Idle? {
      assert HandleToken(c, s, env) == FirstPut(Sampled(c, s, env.sampleDelay), env);
    } else {
      assert HandleToken(c, s, env).0 == Sampled(c, s, env.sampleDelay);
    }
  }

  lemma AliveGood(c: Config, gap: int, delay: int, s: State, env: Env)
    requires Cooperates(gap, delay, s, Poll(env)) && Alive(gap, delay, s) && s.status.Ok?
    requires gap + delay <= c.window
    requires Gaps(HandleToken(c, s, env).0.ledger.samples, gap)
    ensures Alive(gap, delay, HandleToken(c, s, env).0)
  {
    var s1 := Sampled(c, s, env.sampleDelay);
    var samples, n := HandleToken(c, s, env).0.ledger.samples, |s.ledger.samples|;
    SampledFirst(c, s, env);
    assert samples[n].time - samples[n - 1].time <= gap;
    assert samples[n - 1] == s.ledger.samples[n - 1] && samples[n].time == s1.now;
    if s1.status.RefreshRequired? {
      assert HandleToken(c, s, env) == Refreshed(c, s1, env);
      RefreshDoes(c, s1, env);
      assert samples == s1.ledger.samples + [Sample(s1.now + env.refreshDelay, RefreshRequired, s1.expiresAt)];
    } else {
      assert HandleToken(c, s, env).0 == s1;
    }
  }

  lemma SampledFirst(c: Config, s: State, env: Env)
    requires env.locks && !env.closing
    ensures Sampled(c, s, env.sampleDelay).ledger.samples <= HandleToken(c, s, env).0.ledger.samples
  {
  }

  /**
    In every run in which the outside does its part and the status is read at least every `gap` seconds,
    the token never expires: every refresh is made, and in time.
   */
  lemma {:induction false} StaysAuthorized(c: Config, token: Token, now: int, steps: seq<Step>, gap: int, delay: int)
    requires ValidRun(c, Start(token, now), steps) && Cooperative(c, gap, delay, Start(token, now), steps)
    requires gap + delay <= c.window && Gaps(Final(c, Start(token, now), steps).ledger.samples, gap)
    ensures Alive(gap, delay, Final(c, Start(token, now), steps))
  {
    if steps != [] {
      var before, step := steps[..|steps| - 1], steps[|steps| - 1];
      var s := Final(c, Start(token, now), before);
      SamplesGrow(c, s, step);
      assert forall i :: 0 <= i < |s.ledger.samples| ==> s.ledger.samples[i] == Apply(c, s, step).ledger.samples[i];
      StaysAuthorized(c, token, now, before, gap, delay);
      EveryRun(c, token, now, before);
      AliveStep(c, gap, delay, s, step);
    }
  }

  // ---------------------------------------------------------------- the authenticator

  /** The authenticator and the mixin that polls it. What the outside decides comes in as `env`. */
  class TokenAuth {
    const config: Config
    var status: Status
    var token: Token
    var expiresAt: int
    var putTime: int
    var retries: nat
    var clock: int
    ghost var ledger: Ledger
    /** The run so far, from the first token and the time of creation. */
    ghost const first: Token
    ghost const created: int
    ghost var steps: seq<Step>

    ghost predicate Valid() reads this {
      ValidRun(config, Start(first, created), steps) && Final(config, Start(first, created), steps) == Abs()
    }

    ghost method Record(step: Step, was: State)
      requires ValidRun(config, Start(first, created), steps) && Final(config, Start(first, created), steps) == was
      requires Enabled(was, step) && Abs() == Apply(config, was, step)
      modifies this`steps
      ensures Valid() && Abs() == old(Abs()) && steps == old(steps) + [step]
    {
      Extend(config, Start(first, created), steps, step);
      steps := steps + [step];
    }

    ghost function Abs(): State reads this {
      State(status, token, expiresAt, putTime, retries, clock, ledger)
    }

    /** Fails, with an overflow, for a token that expired ten seconds ago or more. */
    static method Create(token: Token, authTimeout: nat, policyRetries: int, now: int) returns (r: Option<TokenAuth>)
      ensures r.None? <==> token.expiresAt <= now - 10
      ensures r.Some? ==> fresh(r.value) && r.value.Valid() && r.value.Abs() == Start(token, now)
      ensures r.Some? ==> r.value.config.authTimeout == authTimeout && r.value.config.policyRetries == policyRetries
      ensures r.Some? && token.expiresAt >= now ==> 10 * r.value.config.window <= token.expiresAt - now < 10 * r.value.config.window + 10
      ensures r.Some? ==> RefreshWindow(token.expiresAt, now) == Some(r.value.config.window)
    {
      var window := RefreshWindow(token.expiresAt, now);
      if window.None? {
        return None;
      }
      var auth := new TokenAuth(Config(window.value, authTimeout, policyRetries), token, now);
      return Some(auth);
    }

    constructor (config: Config, token: Token, now: int)
      ensures this.config == config && Valid() && Abs() == Start(token, now)
    {
      this.config, status, this.token, expiresAt := config, Idle, token, token.expiresAt;
      putTime, retries, clock, ledger := 0, 0, now, Ledger(0, None, 0, 0, 0, 0, 0, []);
      first, created, steps := token, now, [];
    }

    /** `get_status`. */
    method GetStatus(delay: nat) returns (result: Status)
      modifies this`status, this`clock, this`ledger
      ensures Abs() == Sampled(config, old(Abs()), delay) && result == status
    {
      clock := clock + delay;
      if status.Ok? || status.RefreshRequired? {
        var isExpired := clock >= expiresAt;
        var isRefreshRequired := expiresAt - clock <= config.window;
        if isExpired {
          status := Expired;
        } else if isRefreshRequired {
          status := RefreshRequired;
        }
      } else if status.InProgress? {
        if config.authTimeout > 0 && clock - putTime >= config.authTimeout {
          status := Timeout;
        }
      }
      ledger := ledger.(samples := ledger.samples + [Sample(clock, status, expiresAt)]);
      result := status;
    }

    /** `authenticate`. */
    method Authenticate(delay: nat, accepts: bool) returns (put: PutResult)
      modifies this`status, this`clock, this`putTime, this`ledger
      ensures (Abs(), put) == Authenticated(old(Abs()), delay, accepts)
    {
      if status.InProgress? {
        return Skipped;
      }
      clock := clock + delay;
      if clock >= expiresAt {
        return Raised;
      }
      putTime := clock;
      if !accepts {
        return Raised;
      }
      status := InProgress;
      ledger := ledger.(
        outstanding := ledger.outstanding + 1, lastPut := Some(token), lastPutAt := clock, accepted := ledger.accepted + 1);
      return Accepted;
    }

    method Refresh(env: Env) returns (outcome: Outcome)
      modifies this`status, this`token, this`expiresAt, this`putTime, this`clock, this`ledger
      ensures (Abs(), outcome) == Refreshed(config, old(Abs()), env)
    {
      var current := GetStatus(env.refreshDelay);
      if current.RefreshRequired? {
        token := env.renewed;
        var put := Authenticate(env.putDelay, env.accepts);
        if put.Raised? {
          return RaisedAuthentication;
        }
        expiresAt := env.renewed.expiresAt;
        ledger := ledger.(refreshPuts := ledger.refreshPuts + Count(put));
      }
      return Answer(false, false);
    }

    /**
      One poll, as a step of the run. At most one request is outstanding afterwards, the accepted ones
      are within the policy, and on a live connection (False, False) means that the token last put was
      unexpired when the status was read.
     */
    method Handle(env: Env) returns (outcome: Outcome)
      requires Valid()
      modifies this
      ensures Valid() && steps == old(steps) + [Poll(env)]
      ensures (Abs(), outcome) == HandleToken(config, old(Abs()), env)
      ensures if !env.locks then Abs() == old(Abs()) && outcome == NoLock
              else if env.closing then Abs() == old(Abs()) && outcome == Answer(false, false)
              else Owes(config, old(Abs()), env, Abs(), outcome)
      ensures ledger.outstanding <= 1 && ledger.accepted <= 1 + Budget(config) + ledger.refreshPuts
      ensures env.locks && !env.closing && outcome == Answer(false, false) ==>
                old(ledger.lastPut).Some? && old(clock) + env.sampleDelay < old(ledger.lastPut).value.expiresAt
    {
      ghost var was := Abs();
      outcome := PollOnce(env);
      PollDoes(config, was, env);
      Record(Poll(env), was);
      RequestsBounded(config, first, created, steps);
      if env.locks && !env.closing && outcome == Answer(false, false) {
        AuthorizedMeansUnexpired(config, first, created, old(steps), env);
      }
    }

    /** What a poll does, branch by branch. */
    method PollOnce(env: Env) returns (outcome: Outcome)
      modifies this`status, this`token, this`expiresAt, this`putTime, this`retries, this`clock, this`ledger
      ensures (Abs(), outcome) == HandleToken(config, old(Abs()), env)
    {
      if !env.locks {
        return NoLock;
      }
      if env.closing {
        return Answer(false, false);
      }
      var current := GetStatus(env.sampleDelay);
      match current {
        case Error =>
          if retries >= config.policyRetries {
            return RaisedTokenAuthFailure;
          }
          retries := retries + 1;
          var put := Authenticate(env.putDelay, env.accepts);
          if put.Raised? {
            return RaisedAuthentication;
          }
          ledger := ledger.(retryPuts := ledger.retryPuts + Count(put));
          return Answer(false, true);
        case Failure => return RaisedAuthentication;
        case Expired => return RaisedTokenExpired;
        case Timeout => return Answer(true, false);
        case InProgress => return Answer(false, true);
        case RefreshRequired =>
          if !env.updates {
            return RaisedTokenExpired;
          }
          outcome := Refresh(env);
        case Idle =>
          var put := Authenticate(env.putDelay, env.accepts);
          if put.Raised? {
            return RaisedAuthentication;
          }
          ledger := ledger.(firstPuts := ledger.firstPuts + Count(put));
          return Answer(false, true);
        case Ok => return Answer(false, false);
      }
    }

    /** Time passes between polls. */
    method Elapse(elapsed: nat)
      requires Valid()
      modifies this`clock, this`steps
      ensures Valid() && steps == old(steps) + [Tick(elapsed)]
      ensures Abs() == old(Abs()).(now := old(clock) + elapsed)
    {
      ghost var was := Abs();
      clock := clock + elapsed;
      Record(Tick(elapsed), was);
    }

    method OnOpenComplete(failed: bool)
      requires Valid()
      modifies this`status, this`steps
      ensures Valid() && steps == old(steps) + [OpenComplete(failed)]
      ensures Abs() == old(Abs()).(status := if failed then Failure else old(status))
    {
      ghost var was := Abs();
      if failed {
        status := Failure;
      }
      Record(OpenComplete(failed), was);
    }

    /** A completion leaves no request outstanding. */
    method OnPutTokenComplete(ok: bool)
      requires Valid() && ledger.outstanding > 0
      modifies this`status, this`ledger, this`steps
      ensures Valid() && steps == old(steps) + [PutComplete(ok)] && ledger.outstanding == 0
      ensures Abs() == old(Abs()).(status := if ok then Ok else Error, ledger := ledger)
    {
      ghost var was := Abs();
      status := if ok then Ok else Error;
      ledger := ledger.(outstanding := ledger.outstanding - 1);
      Record(PutComplete(ok), was);
      RequestsBounded(config, first, created, steps);
    }
  }
}

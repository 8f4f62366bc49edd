/**
  The connection lock, for any number of threads. Every user of the connection (work, sleep, destroy,
  handle_token, send) follows one pattern: `lock` with a timeout, the guarded work, and `release` in a
  `finally`. The lock is a plain one: any thread may release it, and releasing a free lock is swallowed.
 */
module ConnectionLock {
  type Thread = nat

  /** Where threads are; a thread in none of the sets is outside the pattern. */
  datatype State = State(
    locked: bool,
    waiting: set<Thread>,  // inside acquire
    inside: set<Thread>,   // between a successful lock and release
    stale: set<Thread>)    // the acquire timed out, and the `finally` has yet to release

  datatype Step =
    | Enter(thread: Thread)
    | Acquire(thread: Thread)
    | Expire(thread: Thread)
    | Release(thread: Thread)
    | StaleRelease(thread: Thread)

  const START := State(false, {}, {}, {})

  predicate Enabled(s: State, step: Step) {
    match step
    case Enter(t) => t !in s.waiting + s.inside + s.stale
    case Acquire(t) => t in s.waiting && !s.locked
    case Expire(t) => t in s.waiting && s.locked
    case Release(t) => t in s.inside
    case StaleRelease(t) => t in s.stale
  }

  function Apply(s: State, step: Step): State {
    match step
    case Enter(t) => s.(waiting := s.waiting + {t})
    case Acquire(t) => s.(locked := true, waiting := s.waiting - {t}, inside := s.inside + {t})
    case Expire(t) => s.(waiting := s.waiting - {t}, stale := s.stale + {t})
    case Release(t) => s.(locked := false, inside := s.inside - {t})
    case StaleRelease(t) => s.(locked := false, stale := s.stale - {t})
  }

  predicate ValidFrom(s: State, steps: seq<Step>)
    decreases |steps|
  {
    steps == [] || (Enabled(s, steps[0]) && ValidFrom(Apply(s, steps[0]), steps[1..]))
  }

  function Run(s: State, steps: seq<Step>): State
    decreases |steps|
  {
    if steps == [] then s else Run(Apply(s, steps[0]), steps[1..])
  }

  // ---------------------------------------------------------------- mutual exclusion

  /** At most one thread is inside, and the lock is free exactly when none is. */
  predicate Exclusive(s: State) {
    |s.inside| <= 1 && (s.locked <==> s.inside != {})
  }

  predicate AlwaysExclusive(s: State, steps: seq<Step>)
    decreases |steps|
  {
    Exclusive(s) && (steps == [] || AlwaysExclusive(Apply(s, steps[0]), steps[1..]))
  }

  /** A release after a timed-out acquire runs while some thread is inside. */
  predicate FreesHolder(s: State, step: Step) {
    step.StaleRelease? && s.inside != {}
  }

  predicate NeverFreesHolder(s: State, steps: seq<Step>)
    decreases |steps|
  {
    steps == [] || (!FreesHolder(s, steps[0]) && NeverFreesHolder(Apply(s, steps[0]), steps[1..]))
  }

  lemma ExclusiveStep(s: State, step: Step)
    requires Exclusive(s) && Enabled(s, step)
    ensures Exclusive(Apply(s, step)) <==> !FreesHolder(s, step)
  {
    if step.Release? {
      var t := step.thread;
      assert s.inside == {t} by {
        if u :| u in s.inside && u != t {
          assert |{t, u}| == 2;
          SubsetSize({t, u}, s.inside);
        }
      }
    }
  }

  lemma {:induction false} SubsetSize(a: set<Thread>, b: set<Thread>)
    requires a <= b
    ensures |a| <= |b|
  {
    if a != {} {
      var x :| x in a;
      SubsetSize(a - {x}, b - {x});
    }
  }

  /**
    For any number of threads and any interleaving: mutual exclusion holds throughout a run if and
    only if no thread whose acquire timed out runs its release while another thread is inside.
   */
  lemma {:induction false} ExclusionIff(s: State, steps: seq<Step>)
    requires Exclusive(s) && ValidFrom(s, steps)
    ensures AlwaysExclusive(s, steps) <==> NeverFreesHolder(s, steps)
    decreases |steps|
  {
    if steps != [] {
      ExclusiveStep(s, steps[0]);
      if !FreesHolder(s, steps[0]) {
        ExclusionIff(Apply(s, steps[0]), steps[1..]);
      }
    }
  }

  /** When no timed acquire expires, mutual exclusion holds throughout. */
  lemma {:induction false} ExclusionWithoutExpiry(s: State, steps: seq<Step>)
    requires Exclusive(s) && s.stale == {} && ValidFrom(s, steps)
    requires forall i :: 0 <= i < |steps| ==> !steps[i].Expire?
    ensures AlwaysExclusive(s, steps)
    decreases |steps|
  {
    if steps != [] {
      ExclusiveStep(s, steps[0]);
      assert Apply(s, steps[0]).stale == {};
      ExclusionWithoutExpiry(Apply(s, steps[0]), steps[1..]);
    }
  }

  // ---------------------------------------------------------------- at most one thread inside

  predicate AlwaysAtMostOne(s: State, steps: seq<Step>)
    decreases |steps|
  {
    |s.inside| <= 1 && (steps == [] || AlwaysAtMostOne(Apply(s, steps[0]), steps[1..]))
  }

  /** The threads inside whose lock a stale release has freed and that have not released it yet. */
  function FreedAfter(s: State, freed: set<Thread>, step: Step): set<Thread> {
    match step
    case StaleRelease(_) => s.inside
    case Release(t) => freed - {t}
    case _ => freed
  }

  /** No thread acquires between a stale release that freed a holder and that holder's own release. */
  predicate NeverSlipsIn(s: State, freed: set<Thread>, steps: seq<Step>)
    decreases |steps|
  {
    steps == [] ||
    ((steps[0].Acquire? ==> freed == {}) && NeverSlipsIn(Apply(s, steps[0]), FreedAfter(s, freed, steps[0]), steps[1..]))
  }

  /** While at most one thread is inside: it holds the lock, or has been freed of it. */
  predicate Tracked(s: State, freed: set<Thread>) {
    && |s.inside| <= 1 && s.waiting !! s.inside
    && (s.locked ==> s.inside != {})
    && freed == if s.locked then {} else s.inside
  }

  lemma Only(inside: set<Thread>, t: Thread)
    requires |inside| <= 1 && t in inside
    ensures inside == {t}
  {
    if u :| u in inside && u != t {
      SubsetSize({t, u}, inside);
    }
  }

  lemma TrackedStep(s: State, freed: set<Thread>, step: Step)
    requires Tracked(s, freed) && Enabled(s, step)
    ensures if step.Acquire? && freed != {} then |Apply(s, step).inside| == 2
            else Tracked(Apply(s, step), FreedAfter(s, freed, step))
  {
    match step {
      case Release(t) => Only(s.inside, t);
      case Acquire(t) =>
        if freed != {} {
          var u :| u in s.inside;
          Only(s.inside, u);
          assert Apply(s, step).inside == {t, u};
        } else {
          assert Apply(s, step).inside == {t};
        }
      case _ =>
    }
  }

  /**
    For any number of threads and any interleaving: at most one thread is ever inside if and only if
    no thread acquires between a stale release that freed a holder and that holder's own release.
   */
  lemma {:induction false} AtMostOneIff(s: State, freed: set<Thread>, steps: seq<Step>)
    requires Tracked(s, freed) && ValidFrom(s, steps)
    ensures AlwaysAtMostOne(s, steps) <==> NeverSlipsIn(s, freed, steps)
    decreases |steps|
  {
    if steps != [] {
      TrackedStep(s, freed, steps[0]);
      if !(steps[0].Acquire? && freed != {}) {
        AtMostOneIff(Apply(s, steps[0]), FreedAfter(s, freed, steps[0]), steps[1..]);
      }
    }
  }

  // ---------------------------------------------------------------- what expiry breaks

  lemma {:induction false} RunConcat(s: State, a: seq<Step>, b: seq<Step>)
    requires ValidFrom(s, a) && ValidFrom(Run(s, a), b)
    ensures ValidFrom(s, a + b) && Run(s, a + b) == Run(Run(s, a), b)
    decreases |a|
  {
    if a == [] {
      assert a + b == b;
    } else {
      assert (a + b)[1..] == a[1..] + b;
      RunConcat(Apply(s, a[0]), a[1..], b);
    }
  }

  function Below(n: nat): (threads: set<Thread>)
    ensures forall t: Thread {:trigger t in threads} :: t in threads <==> t < n
  {
    if n == 0 then {} else Below(n - 1) + {n - 1}
  }

  /** A thread that times out while the lock is held, releases the holder's lock, and comes back for it. */
  function BreakIn(t: Thread): seq<Step> {
    [Enter(t)] + ([Expire(t)] + ([StaleRelease(t)] + ([Enter(t)] + ([Acquire(t)] + []))))
  }

  lemma BreaksIn(n: nat)
    requires n > 0
    ensures var s := State(true, {}, Below(n), {});
            ValidFrom(s, BreakIn(n)) && Run(s, BreakIn(n)) == State(true, {}, Below(n + 1), {})
  {
    var s0 := State(true, {}, Below(n), {});
    var s1 := Apply(s0, Enter(n));
    var s2 := Apply(s1, Expire(n));
    var s3 := Apply(s2, StaleRelease(n));
    assert s3 == State(false, {}, Below(n), {});
    var s4 := Apply(s3, Enter(n));
    var s5 := Apply(s4, Acquire(n));
    assert Below(n) + {n} == Below(n + 1);
    assert s5 == State(true, {}, Below(n + 1), {});
    Unroll(s4, Acquire(n), []);
    Unroll(s3, Enter(n), [Acquire(n)] + []);
    Unroll(s2, StaleRelease(n), [Enter(n)] + ([Acquire(n)] + []));
    Unroll(s1, Expire(n), [StaleRelease(n)] + ([Enter(n)] + ([Acquire(n)] + [])));
    Unroll(s0, Enter(n), [Expire(n)] + ([StaleRelease(n)] + ([Enter(n)] + ([Acquire(n)] + []))));
  }

  lemma Unroll(s: State, step: Step, rest: seq<Step>)
    requires Enabled(s, step) && ValidFrom(Apply(s, step), rest)
    ensures ValidFrom(s, [step] + rest) && Run(s, [step] + rest) == Run(Apply(s, step), rest)
  {
    assert ([step] + rest)[1..] == rest;
  }

  /** With expiry, any number of threads can be inside at the same time. */
  lemma {:induction false} AnyNumberInside(n: nat) returns (steps: seq<Step>)
    ensures ValidFrom(START, steps)
    ensures Run(START, steps) == State(n > 0, {}, Below(n), {})
  {
    if n == 0 {
      steps := [];
      assert Below(0) == {};
    } else if n == 1 {
      var s := Apply(START, Enter(0));
      assert Below(1) == {0};
      Unroll(s, Acquire(0), []);
      Unroll(START, Enter(0), [Acquire(0)] + []);
      steps := [Enter(0)] + ([Acquire(0)] + []);
    } else {
      var earlier := AnyNumberInside(n - 1);
      BreaksIn(n - 1);
      RunConcat(START, earlier, BreakIn(n - 1));
      steps := earlier + BreakIn(n - 1);
    }
  }

  // ---------------------------------------------------------------- the connection

  lemma {:induction false} PrefixRun(s: State, steps: seq<Step>, n: nat)
    requires ValidFrom(s, steps) && n <= |steps|
    ensures ValidFrom(s, steps[..n]) && ValidFrom(Run(s, steps[..n]), steps[n..])
    ensures Run(s, steps) == Run(Run(s, steps[..n]), steps[n..])
    ensures NeverFreesHolder(s, steps) ==> NeverFreesHolder(s, steps[..n])
    decreases n
  {
    if n > 0 {
      PrefixRun(Apply(s, steps[0]), steps[1..], n - 1);
      assert steps[..n][1..] == steps[1..][..n - 1] && steps[1..][n - 1..] == steps[n..];
    } else {
      assert steps[0..] == steps;
    }
  }

  /** Other threads' steps do not move a thread out of its guarded work. */
  lemma {:induction false} StaysInside(s: State, steps: seq<Step>, t: Thread)
    requires t in s.inside && forall i :: 0 <= i < |steps| ==> steps[i].thread != t
    ensures t in Run(s, steps).inside
    decreases |steps|
  {
    if steps != [] {
      StaysInside(Apply(s, steps[0]), steps[1..], t);
    }
  }

  lemma {:induction false} ExclusiveAtEnd(s: State, steps: seq<Step>)
    requires AlwaysExclusive(s, steps)
    ensures Exclusive(Run(s, steps))
    decreases |steps|
  {
    if steps != [] {
      ExclusiveAtEnd(Apply(s, steps[0]), steps[1..]);
    }
  }

  /** From its acquire to its release, a thread is the only one inside, unless a stale release freed its lock. */
  lemma AloneInside(trace: seq<Step>, from: nat, n: nat, t: Thread)
    requires ValidFrom(START, trace) && NeverFreesHolder(START, trace)
    requires from <= n <= |trace| && t in Run(START, trace[..from]).inside
    requires forall i :: from <= i < n ==> trace[i].thread != t
    ensures Run(START, trace[..n]).inside == {t}
  {
    PrefixRun(START, trace, n);
    var front := trace[..n];
    ExclusionIff(START, front);
    ExclusiveAtEnd(START, front);
    PrefixRun(START, front, from);
    assert front[..from] == trace[..from];
    StaysInside(Run(START, front[..from]), front[from..], t);
    var inside := Run(START, front).inside;
    if u :| u in inside && u != t {
      assert |{t, u}| == 2;
      SubsetSize({t, u}, inside);
    }
  }

  datatype Worked = RaisedError | TimedOut | DidWork

  /** The lock of one connection and the threads around it; the ghost `trace` is the run so far. */
  class Connection {
    var error: bool
    var locked: bool
    var waiting: set<Thread>
    var inside: set<Thread>
    var stale: set<Thread>
    ghost var trace: seq<Step>

    function Threads(): State reads this {
      State(locked, waiting, inside, stale)
    }

    ghost predicate Valid() reads this {
      ValidFrom(START, trace) && Run(START, trace) == Threads()
    }

    predicate Outside(t: Thread) reads this {
      t !in waiting && t !in inside && t !in stale
    }

    constructor ()
      ensures Valid() && Threads() == START && !error
    {
      error, locked, waiting, inside, stale, trace := false, false, {}, {}, {}, [];
    }

    /** One atomic step of some thread. */
    method Take(step: Step)
      requires Valid() && Enabled(Threads(), step)
      modifies this`locked, this`waiting, this`inside, this`stale, this`trace
      ensures Valid() && trace == old(trace) + [step] && Threads() == Apply(old(Threads()), step)
    {
      Unroll(Threads(), step, []);
      RunConcat(START, trace, [step] + []);
      assert [step] + [] == [step];
      trace := trace + [step];
      match step {
        case Enter(t) => waiting := waiting + {t};
        case Acquire(t) => locked, waiting, inside := true, waiting - {t}, inside + {t};
        case Expire(t) => waiting, stale := waiting - {t}, stale + {t};
        case Release(t) => locked, inside := false, inside - {t};
        case StaleRelease(t) => locked, stale := false, stale - {t};
      }
    }

    /** Any number of steps of threads other than `t`. */
    method OtherThreads(t: Thread)
      requires Valid()
      modifies this`locked, this`waiting, this`inside, this`stale, this`trace
      ensures Valid() && old(trace) <= trace
      ensures forall i :: |old(trace)| <= i < |trace| ==> trace[i].thread != t
      ensures (t in waiting <==> old(t in waiting)) && (t in inside <==> old(t in inside)) && (t in stale <==> old(t in stale))
    {
      var more: nat :| true;
      while more > 0
        invariant Valid() && old(trace) <= trace
        invariant forall i :: |old(trace)| <= i < |trace| ==> trace[i].thread != t
        invariant (t in waiting <==> old(t in waiting)) && (t in inside <==> old(t in inside)) && (t in stale <==> old(t in stale))
      {
        var step: Step := *;
        if step.thread != t && Enabled(Threads(), step) {
          Take(step);
        }
        more := more - 1;
      }
    }

    /** `lock`: false when the lock is still held as the time runs out. */
    method Lock(t: Thread) returns (acquired: bool)
      requires Valid() && Outside(t)
      modifies this`locked, this`waiting, this`inside, this`stale, this`trace
      ensures Valid() && old(trace) < trace && trace[|trace| - 1] == if acquired then Acquire(t) else Expire(t)
      ensures t !in waiting && (t in inside <==> acquired) && (t in stale <==> !acquired)
    {
      Take(Enter(t));
      OtherThreads(t);
      acquired := !locked;
      Take(if acquired then Acquire(t) else Expire(t));
    }

    /** `release`, run whether or not the lock was acquired. */
    method ReleaseLock(t: Thread)
      requires Valid() && t !in waiting && (t in inside <==> t !in stale)
      modifies this`locked, this`waiting, this`inside, this`stale, this`trace
      ensures Valid() && Outside(t) && !locked
      ensures trace == old(trace) + [if old(t in inside) then Release(t) else StaleRelease(t)]
    {
      Take(if t in inside then Release(t) else StaleRelease(t));
    }

    /**
      `work`, by thread `t`, while other threads run. The guarded work spans the moments `from` to
      `until` of the run; at each of them `t` is the only thread inside, in every run in which no
      release after a timed-out acquire frees a holder's lock.
     */
    method Work(t: Thread) returns (r: Worked, ghost from: nat, ghost until: nat)
      requires Valid() && Outside(t)
      modifies this`locked, this`waiting, this`inside, this`stale, this`trace
      ensures Valid() && Outside(t) && old(trace) <= trace
      ensures r.RaisedError? <==> error
      ensures r.RaisedError? ==> unchanged(this)
      ensures !r.RaisedError? ==> !locked
      ensures r.TimedOut? ==> old(trace) < trace && trace[|trace| - 1] == StaleRelease(t)
      ensures r.DidWork? ==> |old(trace)| < from <= until == |trace| - 1
                             && trace[from - 1] == Acquire(t) && trace[until] == Release(t)
      ensures r.DidWork? && NeverFreesHolder(START, trace) ==>
                forall n :: from <= n <= until ==> Run(START, trace[..n]).inside == {t}
    {
      from, until := 0, 0;
      if error {
        return RaisedError, from, until;
      }
      var acquired := Lock(t);
      ghost var held := trace;
      OtherThreads(t);
      ReleaseLock(t);
      if !acquired {
        return TimedOut, from, until;
      }
      from, until := |held|, |trace| - 1;
      assert trace[..from] == held;
      if NeverFreesHolder(START, trace) {
        forall n | from <= n <= until ensures Run(START, trace[..n]).inside == {t} {
          AloneInside(trace, from, n, t);
        }
      }
      return DidWork, from, until;
    }
  }
}

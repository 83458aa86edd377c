/** `start_bot_with_retry`: the start-up delay and webhook clearing, then up to five polling
    attempts with a recovery action after each failure. How each attempt's polling ends is an
    input; the supervisor's effects are recorded as a trace of actions. */
module Supervisor {
  import opened Strings

  /** How `bot.infinity_polling` ends: it returns, the user interrupts it, a connection error,
      an error whose text has both "409" and "Conflict", or any other exception. */
  datatype PollEnd = Returned | Interrupted | NetworkError | Conflict | OtherError

  /** What the supervisor does: wait some seconds, call `clear_webhook`, poll (attempt a),
      call `check_network_connectivity`, call `force_cleanup_all_instances`. */
  datatype Action = Sleep(seconds: nat) | ClearWebhook | Poll(attempt: nat) | CheckConnectivity | ForceCleanup

  const MaxRestartAttempts: nat := 5
  const RestartDelay: nat := 30

  /** The start-up: 30 s to let an older instance go, a webhook clear, 10 s more. */
  const Startup: seq<Action> := [Sleep(30), ClearWebhook, Sleep(10)]

  /** The wait after an instance conflict in attempt a: `min(30 * 2 ** min(a, 4), 300)`. */
  function ConflictDelay(a: nat): nat
  {
    Min(RestartDelay * Pow2(if a < 4 then a else 4), 300)
  }

  /** Whether the loop has exited with `break`, and what has been done so far. */
  datatype Progress = Progress(stopped: bool, trace: seq<Action>)

  /** The actions of attempt a up to and including the poll: attempts after the first clear
      the webhook and wait 10 s first. */
  function Prelude(a: nat): seq<Action>
  {
    (if a > 0 then [ClearWebhook, Sleep(10)] else []) + [Poll(a)]
  }

  /** Whether attempt a breaks out of the loop: on an interrupt, or on a failure of the last
      attempt. */
  predicate Breaks(end: PollEnd, a: nat)
  {
    end == Interrupted || (end != Returned && a >= MaxRestartAttempts - 1)
  }

  /** What attempt a does after its poll: after a connection error 30 s and a connectivity
      check; after an instance conflict the growing wait and a forced clean-up; after another
      error 30 s; nothing when the polling returned or the loop breaks. */
  function Recovery(end: PollEnd, a: nat): seq<Action>
  {
    if Breaks(end, a) then []
    else match end
      case NetworkError => [Sleep(RestartDelay), CheckConnectivity]
      case Conflict => [Sleep(ConflictDelay(a)), ForceCleanup]
      case OtherError => [Sleep(RestartDelay)]
      case _ => []
  }

  /** Attempt a, its polling having ended as `end`. */
  function Attempt(st: Progress, end: PollEnd, a: nat): Progress
  {
    if st.stopped then st
    else Progress(Breaks(end, a), st.trace + Prelude(a) + Recovery(end, a))
  }

  /** The state after the first n attempts. */
  function Supervise(env: nat -> PollEnd, n: nat): Progress
  {
    if n == 0 then Progress(false, Startup) else Attempt(Supervise(env, n - 1), env(n - 1), n - 1)
  }

  /** `start_bot_with_retry()`, `env(a)` being how the polling of attempt a ends. */
  method StartBotWithRetry(env: nat -> PollEnd) returns (trace: seq<Action>)
    ensures trace == Supervise(env, MaxRestartAttempts).trace
  {
    trace := [Sleep(30)];
    trace := trace + [ClearWebhook];
    trace := trace + [Sleep(10)];
    var attempt := 0;
    while attempt < MaxRestartAttempts
      invariant 0 <= attempt <= MaxRestartAttempts
      invariant Supervise(env, attempt) == Progress(false, trace)
    {
      ghost var before := trace;
      if attempt > 0 {
        trace := trace + [ClearWebhook, Sleep(10)];
      }
      trace := trace + [Poll(attempt)];
      assert trace == before + Prelude(attempt);
      var recovery, stop := AfterPoll(env(attempt), attempt);
      trace := trace + recovery;
      assert Supervise(env, attempt + 1) == Progress(stop, trace);
      if stop {
        StoppedStays(env, attempt + 1, MaxRestartAttempts);
        break;
      }
      attempt := attempt + 1;
    }
  }

  /** The except clauses after the poll of attempt a: the recovery actions, and whether the
      loop breaks. The last `except Exception` clause is unreachable, as the first one already
      catches every exception, and has no counterpart here. */
  method AfterPoll(end: PollEnd, attempt: nat) returns (recovery: seq<Action>, stop: bool)
    ensures recovery == Recovery(end, attempt) && stop == Breaks(end, attempt)
  {
    recovery := [];
    stop := false;
    match end {
      case Returned =>
      case Interrupted =>
        stop := true;
      case NetworkError =>
        if attempt < MaxRestartAttempts - 1 {
          recovery := [Sleep(RestartDelay), CheckConnectivity];
        } else {
          stop := true;
        }
      case Conflict =>
        if attempt < MaxRestartAttempts - 1 {
          recovery := [Sleep(ConflictDelay(attempt)), ForceCleanup];
        } else {
          stop := true;
        }
      case OtherError =>
        if attempt < MaxRestartAttempts - 1 {
          recovery := [Sleep(RestartDelay)];
        } else {
          stop := true;
        }
    }
  }

  /** After a `break`, later attempts change nothing. */
  lemma {:induction false} StoppedStays(env: nat -> PollEnd, m: nat, n: nat)
    requires m <= n && Supervise(env, m).stopped
    ensures Supervise(env, n) == Supervise(env, m)
  {
    if m < n {
      StoppedStays(env, m, n - 1);
    }
  }

  // ---------------------------------------------------------------------------------------
  // Properties

  /** The polls in a trace, in order. */
  function Polls(trace: seq<Action>): (r: seq<nat>)
    ensures |r| <= |trace|
  {
    if trace == [] then []
    else Polls(trace[..|trace| - 1]) + (if trace[|trace| - 1].Poll? then [trace[|trace| - 1].attempt] else [])
  }

  lemma {:induction false} PollsConcat(a: seq<Action>, b: seq<Action>)
    ensures Polls(a + b) == Polls(a) + Polls(b)
    decreases |b|
  {
    if b == [] {
      assert a + b == a;
    } else {
      assert (a + b)[..|a + b| - 1] == a + b[..|b| - 1];
      PollsConcat(a, b[..|b| - 1]);
    }
  }

  /** What holds after n attempts: at most n polls, numbered 0, 1, 2, ... in order, exactly n
      while the loop has not broken out; once it has, the trace ends with the poll of the
      attempt that broke out, so no wait follows the last failure. */
  ghost predicate Shaped(st: Progress, n: nat)
  {
    var ps := Polls(st.trace);
    && |ps| <= n
    && (forall i :: 0 <= i < |ps| ==> ps[i] == i)
    && (!st.stopped ==> |ps| == n)
    && (st.stopped ==> 0 < |ps| && st.trace != [] && st.trace[|st.trace| - 1] == Poll(|ps| - 1))
  }

  lemma AttemptShaped(st: Progress, end: PollEnd, a: nat)
    requires Shaped(st, a)
    ensures Shaped(Attempt(st, end, a), a + 1)
  {
    if !st.stopped {
      var ps := Polls(st.trace);
      var t := st.trace + Prelude(a) + Recovery(end, a);
      AttemptPolls(st.trace, end, a);
      var ps' := Polls(t);
      assert ps' == ps + [a];
      forall i | 0 <= i < |ps'| ensures ps'[i] == i {
        if i < |ps| {
          assert ps'[i] == ps[i];
        }
      }
      if Breaks(end, a) {
        assert t == st.trace + Prelude(a);
      }
    }
  }

  /** The shape of the first n attempts. */
  lemma {:induction false} SuperviseShaped(env: nat -> PollEnd, n: nat)
    ensures Shaped(Supervise(env, n), n)
  {
    if n == 0 {
      StartupPolls();
    } else {
      SuperviseShaped(env, n - 1);
      AttemptShaped(Supervise(env, n - 1), env(n - 1), n - 1);
    }
  }

  lemma StartupPolls()
    ensures Polls(Startup) == []
  {
    PollsConcat([Sleep(30)], [ClearWebhook, Sleep(10)]);
    PollsConcat([ClearWebhook], [Sleep(10)]);
  }

  /** An attempt adds exactly its own poll. */
  lemma AttemptPolls(trace: seq<Action>, end: PollEnd, a: nat)
    ensures Polls(trace + Prelude(a) + Recovery(end, a)) == Polls(trace) + [a]
  {
    PollsConcat(trace + Prelude(a), Recovery(end, a));
    PollsConcat(trace, Prelude(a));
    PreludePolls(a);
    RecoveryPolls(end, a);
  }

  lemma PreludePolls(a: nat)
    ensures Polls(Prelude(a)) == [a]
  {
    if a > 0 {
      PollsConcat([ClearWebhook, Sleep(10)], [Poll(a)]);
      PollsConcat([ClearWebhook], [Sleep(10)]);
    } else {
      assert Prelude(a) == [Poll(a)];
    }
  }

  /** The recovery after a failure polls nothing. */
  lemma RecoveryPolls(end: PollEnd, a: nat)
    ensures Polls(Recovery(end, a)) == []
    ensures forall i :: 0 <= i < |Recovery(end, a)| ==> !Recovery(end, a)[i].Poll?
  {
    var r := Recovery(end, a);
    if |r| == 2 {
      assert r == [r[0]] + [r[1]];
      PollsConcat([r[0]], [r[1]]);
    }
  }

  /** The whole run polls one to five times, attempts 0, 1, 2, ... in order, and never waits
      after its last poll. */
  lemma StartBotShape(env: nat -> PollEnd)
    ensures var t := Supervise(env, MaxRestartAttempts).trace;
      var ps := Polls(t);
      && 1 <= |ps| <= MaxRestartAttempts
      && (forall i :: 0 <= i < |ps| ==> ps[i] == i)
      && t[..3] == Startup
      && t[|t| - 1] == Poll(|ps| - 1)
  {
    SuperviseShaped(env, MaxRestartAttempts);
    StartupPrefix(env, MaxRestartAttempts);
    var st := Supervise(env, MaxRestartAttempts);
    if !st.stopped {
      LastAttemptEndsWithPoll(env);
    }
  }

  /** Every attempt only appends to the trace, so it always starts with the start-up actions. */
  lemma {:induction false} StartupPrefix(env: nat -> PollEnd, n: nat)
    ensures |Supervise(env, n).trace| >= 3 && Supervise(env, n).trace[..3] == Startup
  {
    if n > 0 {
      StartupPrefix(env, n - 1);
      var st := Supervise(env, n - 1);
      var next := Supervise(env, n);
      assert next.trace[..|st.trace|] == st.trace;
      assert next.trace[..3] == st.trace[..3];
    }
  }

  /** If the last attempt is reached, it ends the trace with its poll. */
  lemma LastAttemptEndsWithPoll(env: nat -> PollEnd)
    requires !Supervise(env, MaxRestartAttempts).stopped
    ensures var t := Supervise(env, MaxRestartAttempts).trace;
      t != [] && t[|t| - 1] == Poll(MaxRestartAttempts - 1)
  {
    var st := Supervise(env, MaxRestartAttempts - 1);
    assert !st.stopped;
    assert Supervise(env, MaxRestartAttempts).trace == st.trace + Prelude(MaxRestartAttempts - 1);
  }

  /** The conflict waits: 30, 60, 120, 240 s in attempts 0 to 3, growing, never above 300. */
  lemma ConflictDelays()
    ensures ConflictDelay(0) == 30 && ConflictDelay(1) == 60
    ensures ConflictDelay(2) == 120 && ConflictDelay(3) == 240
    ensures forall a: nat :: ConflictDelay(a) <= 300
    ensures forall a: nat, b: nat :: a < b < MaxRestartAttempts - 1 ==> ConflictDelay(a) < ConflictDelay(b)
  {
    assert Pow2(1) == 2 && Pow2(2) == 4 && Pow2(3) == 8;
  }

  /** The conflict wait depends on the attempt, not on how many conflicts came before: a first
      conflict in attempt 1, after a polling that returned, still waits 60 s. */
  lemma ConflictDelayNotReset(env: nat -> PollEnd)
    requires env(0) == Returned && env(1) == Conflict
    ensures Supervise(env, 2).trace == Startup + [Poll(0), ClearWebhook, Sleep(10), Poll(1), Sleep(60), ForceCleanup]
  {
    assert Pow2(1) == 2;
  }

  /** An interrupt ends the supervisor at once: nothing is done after that attempt's poll. */
  lemma {:induction false} InterruptStops(env: nat -> PollEnd, a: nat, n: nat)
    requires a < n && !Supervise(env, a).stopped && env(a) == Interrupted
    ensures Supervise(env, n).stopped
    ensures Supervise(env, n).trace == Supervise(env, a).trace + Prelude(a)
  {
    StoppedStays(env, a + 1, n);
  }

  /** An attempt keeps every poll right after a webhook clear and a 10 s wait. */
  lemma AttemptClears(st: Progress, end: PollEnd, a: nat)
    requires ClearedBeforePolls(st.trace)
    requires a == 0 ==> st.trace == Startup
    ensures ClearedBeforePolls(Attempt(st, end, a).trace)
  {
    if !st.stopped {
      var t := st.trace + Prelude(a);
      var r := Recovery(end, a);
      var next := t + r;
      RecoveryPolls(end, a);
      forall i | 0 <= i < |next|
        ensures next[i].Poll? ==> ClearedBefore(next, i)
      {
        if i < |st.trace| {
          assert next[i] == st.trace[i];
          if st.trace[i].Poll? {
            assert ClearedBefore(st.trace, i);
            assert next[i - 2] == st.trace[i - 2] && next[i - 1] == st.trace[i - 1];
          }
        } else if i < |t| {
          var j := i - |st.trace|;
          assert next[i] == Prelude(a)[j];
          if a == 0 {
            assert Prelude(0) == [Poll(0)] && |st.trace| == 3;
            assert i == 3;
            assert next[1] == Startup[1] && next[2] == Startup[2];
          } else {
            assert Prelude(a) == [ClearWebhook, Sleep(10), Poll(a)];
            if j == 2 {
              assert next[i - 2] == Prelude(a)[0] && next[i - 1] == Prelude(a)[1];
            }
          }
        } else {
          assert next[i] == r[i - |t|];
          assert !next[i].Poll?;
        }
      }
    }
  }

  /** Every poll comes right after a webhook clear and a 10 s wait. */
  lemma {:induction false} PollAfterClear(env: nat -> PollEnd, n: nat)
    ensures ClearedBeforePolls(Supervise(env, n).trace)
  {
    if n > 0 {
      PollAfterClear(env, n - 1);
      AttemptClears(Supervise(env, n - 1), env(n - 1), n - 1);
    }
  }

  ghost predicate ClearedBeforePolls(trace: seq<Action>)
  {
    forall i :: 0 <= i < |trace| && trace[i].Poll? ==> ClearedBefore(trace, i)
  }

  /** The two actions before position `i` are a webhook clear and a 10 s wait. */
  ghost predicate ClearedBefore(trace: seq<Action>, i: int)
  {
    2 <= i <= |trace| && trace[i - 2] == ClearWebhook && trace[i - 1] == Sleep(10)
  }
}

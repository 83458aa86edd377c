/** Sending with retries: `safe_send_message` and `safe_reply_to` (one loop, two Telegram calls),
    and `clear_webhook`. What the network answers is an input: `env(k)` is how the k-th call
    ends. Sleeps are recorded as the list of delays, in seconds. */
module Transport {
  import opened Strings
  import opened Sanitize

  /** How one send ends, as the except clauses classify it: parse errors ("can't parse
      entities" or "Bad Request"), the connection errors, or any other exception. */
  datatype Outcome = Delivered | ParseRejected | NetworkFailure | OtherFailure

  /** `bot.send_message(chat_id, ...)` for `safe_send_message`, `bot.reply_to(message, ...)` for
      `safe_reply_to`. */
  datatype Channel = Chat(chatId: int) | ReplyTo(messageId: int)

  /** One call to Telegram: where, what text, which parse mode (None is plain text). */
  datatype Call = Call(via: Channel, text: string, mode: Option<string>)

  /** The arguments of `safe_send_message` / `safe_reply_to`. */
  datatype Request = Request(via: Channel, text: string, mode: Option<string>, maxRetries: int)

  const Markdown: Option<string> := Some("Markdown")

  /** The default of `max_retries`. */
  const DefaultRetries := 5

  /** The wait after a network failure in iteration `attempt`: `min(2 ** attempt, 30)`. */
  function SendBackoff(attempt: nat): nat
  {
    Min(Pow2(attempt), 30)
  }

  /** One iteration of the loop: whether it delivered, the outcome it ended with, its calls. */
  datatype Step = Step(delivered: bool, outcome: Outcome, calls: seq<Call>)

  /** One iteration, its calls numbered from k: the send in the requested mode and, in Markdown
      mode after a parse error, the plain-text send of the cleaned text, with no wait between
      them. A failure of the fallback is what the iteration ends with. */
  function TryOnce(req: Request, env: nat -> Outcome, k: nat): (s: Step)
    ensures 1 <= |s.calls| <= 2
    ensures s.calls[0] == Call(req.via, req.text, req.mode)
    ensures |s.calls| == 2 <==> req.mode == Markdown && env(k) == ParseRejected
    ensures |s.calls| == 2 ==> s.calls[1] == Call(req.via, CleanTextForTelegram(req.text), None)
    ensures s.outcome == env(k + |s.calls| - 1) && (s.delivered <==> s.outcome == Delivered)
  {
    var o := env(k);
    var first := Call(req.via, req.text, req.mode);
    if o == Delivered then Step(true, o, [first])
    else if req.mode == Markdown && o == ParseRejected then
      var o2 := env(k + 1);
      Step(o2 == Delivered, o2, [first, Call(req.via, CleanTextForTelegram(req.text), None)])
    else Step(false, o, [first])
  }

  /** Where the loop stands: whether it has returned and with what, the calls and waits so far,
      and how many iterations ran. */
  datatype SendState = SendState(done: bool, ok: bool, calls: seq<Call>, delays: seq<nat>, rounds: nat)

  const Start := SendState(false, false, [], [], 0)

  /** Iteration `attempt` of the loop: a delivery returns True; a network failure waits and goes
      on unless it was the last iteration; any other failure returns False. */
  function Advance(st: SendState, req: Request, env: nat -> Outcome, attempt: nat): SendState
  {
    if st.done then st
    else
      var s := TryOnce(req, env, |st.calls|);
      var calls := st.calls + s.calls;
      if s.delivered then SendState(true, true, calls, st.delays, st.rounds + 1)
      else if s.outcome == NetworkFailure && attempt < req.maxRetries - 1 then
        SendState(false, false, calls, st.delays + [SendBackoff(attempt)], st.rounds + 1)
      else SendState(true, false, calls, st.delays, st.rounds + 1)
  }

  /** The state after the first n iterations of `for attempt in range(max_retries)`. */
  function SendIterate(req: Request, env: nat -> Outcome, n: nat): SendState
  {
    if n == 0 then Start else Advance(SendIterate(req, env, n - 1), req, env, n - 1)
  }

  /** How many times `range(max_retries)` runs. */
  function Rounds(maxRetries: int): nat
  {
    if maxRetries <= 0 then 0 else maxRetries
  }

  /** What a call of `safe_send_message` / `safe_reply_to` does in the end. */
  function SendDelivery(req: Request, env: nat -> Outcome): SendState
  {
    SendIterate(req, env, Rounds(req.maxRetries))
  }

  /** One iteration of the loop body: the send, and in Markdown mode the plain-text fallback
      after a parse error. */
  method TrySend(req: Request, env: nat -> Outcome, k: nat) returns (delivered: bool, failure: Outcome, sent: seq<Call>)
    ensures Step(delivered, failure, sent) == TryOnce(req, env, k)
  {
    var o := env(k);
    sent := [Call(req.via, req.text, req.mode)];
    if o == Delivered {
      return true, o, sent;
    }
    if req.mode == Markdown && o == ParseRejected {
      var o2 := env(k + 1);
      sent := sent + [Call(req.via, CleanTextForTelegram(req.text), None)];
      return o2 == Delivered, o2, sent;
    }
    return false, o, sent;
  }

  /** `safe_send_message(chat_id, text, parse_mode, max_retries)` and `safe_reply_to`, which
      differ only in `req.via`: the result, every call made and every wait. */
  method SafeDeliver(req: Request, env: nat -> Outcome) returns (ok: bool, calls: seq<Call>, delays: seq<nat>)
    ensures var r := SendDelivery(req, env);
      ok == r.ok && calls == r.calls && delays == r.delays
  {
    calls := [];
    delays := [];
    var attempt := 0;
    while attempt < req.maxRetries
      invariant 0 <= attempt && (attempt <= req.maxRetries || attempt == 0)
      invariant SendIterate(req, env, attempt) == SendState(false, false, calls, delays, attempt)
      decreases req.maxRetries - attempt
    {
      var delivered, failure, sent := TrySend(req, env, |calls|);
      calls := calls + sent;
      if delivered {
        assert SendIterate(req, env, attempt + 1) == SendState(true, true, calls, delays, attempt + 1);
        DoneStays(req, env, attempt + 1, Rounds(req.maxRetries));
        return true, calls, delays;
      }
      if failure == NetworkFailure && attempt < req.maxRetries - 1 {
        delays := delays + [SendBackoff(attempt)];
        assert SendIterate(req, env, attempt + 1) == SendState(false, false, calls, delays, attempt + 1);
      } else {
        assert SendIterate(req, env, attempt + 1) == SendState(true, false, calls, delays, attempt + 1);
        DoneStays(req, env, attempt + 1, Rounds(req.maxRetries));
        return false, calls, delays;
      }
      attempt := attempt + 1;
    }
    assert Rounds(req.maxRetries) == attempt;
    ok := false;
  }

  /** Once the loop has returned, later iterations change nothing. */
  lemma {:induction false} DoneStays(req: Request, env: nat -> Outcome, m: nat, n: nat)
    requires m <= n && SendIterate(req, env, m).done
    ensures SendIterate(req, env, n) == SendIterate(req, env, m)
  {
    if m < n {
      DoneStays(req, env, m, n - 1);
    }
  }

  // ---------------------------------------------------------------------------------------
  // Properties of the send loop

  /** With `max_retries` 0 or less the loop does not run: no call, no wait, False. */
  lemma SendNoRetries(req: Request, env: nat -> Outcome)
    requires req.maxRetries <= 0
    ensures SendDelivery(req, env) == Start
  {
  }

  /** The shape of the first n iterations: iteration j waits `min(2 ** j, 30)` after a network
      failure, so no wait exceeds 30; the loop is still running only while every iteration so
      far waited; once it has returned, exactly its last iteration did not wait; each iteration
      makes one or two calls. */
  lemma {:induction false} SendShape(req: Request, env: nat -> Outcome, n: nat)
    ensures var st := SendIterate(req, env, n);
      && st.rounds <= n
      && (!st.done ==> st.rounds == n && |st.delays| == n && (n == 0 || n < req.maxRetries))
      && (st.done ==> 1 <= st.rounds && |st.delays| == st.rounds - 1)
      && (forall j :: 0 <= j < |st.delays| ==> st.delays[j] == SendBackoff(j) <= 30)
      && st.rounds <= |st.calls| <= 2 * st.rounds
  {
    if n > 0 {
      SendShape(req, env, n - 1);
      var st := SendIterate(req, env, n - 1);
      if !st.done {
        var next := SendIterate(req, env, n);
        assert next.delays == st.delays || next.delays == st.delays + [SendBackoff(n - 1)];
      }
    }
  }

  lemma {:induction false} SendBackoffMonotone(i: nat, j: nat)
    requires i <= j
    ensures SendBackoff(i) <= SendBackoff(j)
  {
    Pow2Monotone(i, j);
  }

  /** The waits of a whole call: 1, 2, 4, 8, 16, 30, 30, ..., none above 30, never shrinking,
      one fewer than the iterations that ran: no wait follows the last failure. At most
      `max_retries` iterations run; the loop always returns within them. */
  lemma SendDelays(req: Request, env: nat -> Outcome)
    ensures var r := SendDelivery(req, env);
      && r.rounds <= Rounds(req.maxRetries)
      && (req.maxRetries > 0 ==> r.done && |r.delays| == r.rounds - 1)
      && (forall j :: 0 <= j < |r.delays| ==> r.delays[j] == Min(Pow2(j), 30) <= 30)
      && (forall i, j :: 0 <= i <= j < |r.delays| ==> r.delays[i] <= r.delays[j])
  {
    SendShape(req, env, Rounds(req.maxRetries));
    var r := SendDelivery(req, env);
    forall i, j | 0 <= i <= j < |r.delays| ensures r.delays[i] <= r.delays[j] {
      SendBackoffMonotone(i, j);
    }
  }

  /** Call j was followed by another one in the same request: it failed on the network, or it
      was the Markdown send that met a parse error. */
  predicate Retried(env: nat -> Outcome, calls: seq<Call>, j: nat)
    requires j < |calls|
  {
    env(j) == NetworkFailure || (env(j) == ParseRejected && calls[j].mode == Markdown)
  }

  /** The calls before position m all led to another call. */
  ghost predicate RetriedUpTo(env: nat -> Outcome, calls: seq<Call>, m: int)
  {
    forall j :: 0 <= j < m && j < |calls| ==> Retried(env, calls, j)
  }

  /** What `SendOutcomes` states of one state. */
  ghost predicate Settled(req: Request, env: nat -> Outcome, st: SendState)
  {
    && (st.ok ==> st.done)
    && (st.done ==> st.calls != [] && (st.ok <==> env(|st.calls| - 1) == Delivered))
    && RetriedUpTo(env, st.calls, if st.done then |st.calls| - 1 else |st.calls|)
  }

  /** One iteration keeps `Settled`. */
  lemma AdvanceSettled(st: SendState, req: Request, env: nat -> Outcome, attempt: nat)
    requires Settled(req, env, st)
    ensures Settled(req, env, Advance(st, req, env, attempt))
  {
    if !st.done {
      var k := |st.calls|;
      var s := TryOnce(req, env, k);
      var next := Advance(st, req, env, attempt);
      assert next.calls == st.calls + s.calls;
      var m := if next.done then |next.calls| - 1 else |next.calls|;
      forall j | 0 <= j < m && j < |next.calls| ensures Retried(env, next.calls, j) {
        if j < k {
          assert Retried(env, st.calls, j);
          assert next.calls[j] == st.calls[j];
        } else if j == k && |s.calls| == 2 {
          assert next.calls[j] == s.calls[0];
          assert env(k) == ParseRejected && req.mode == Markdown;
        } else {
          assert !next.done && env(k + |s.calls| - 1) == NetworkFailure;
          assert j == k + |s.calls| - 1;
        }
      }
    }
  }

  lemma {:induction false} IterateSettled(req: Request, env: nat -> Outcome, n: nat)
    ensures Settled(req, env, SendIterate(req, env, n))
  {
    if n > 0 {
      IterateSettled(req, env, n - 1);
      AdvanceSettled(SendIterate(req, env, n - 1), req, env, n - 1);
    }
  }

  /** The loop succeeds exactly when its last call was delivered, and only on returning; every
      earlier call was either a network failure or the Markdown send whose parse error led to
      the plain fallback, so any other failure ends the loop on the spot. */
  lemma SendOutcomes(req: Request, env: nat -> Outcome, n: nat)
    ensures var st := SendIterate(req, env, n);
      && (st.ok ==> st.done)
      && (st.done ==> st.calls != [] && (st.ok <==> env(|st.calls| - 1) == Delivered))
      && (forall j :: 0 <= j < |st.calls| - 1 ==> Retried(env, st.calls, j))
      && (!st.done ==> forall j :: 0 <= j < |st.calls| ==> Retried(env, st.calls, j))
  {
    IterateSettled(req, env, n);
    var st := SendIterate(req, env, n);
    forall j | 0 <= j < |st.calls| - 1 ensures Retried(env, st.calls, j) {
      assert j < |st.calls|;
    }
  }

  /** Call j is the text in the requested mode, or the plain fallback right after it. */
  predicate Sent(req: Request, env: nat -> Outcome, calls: seq<Call>, j: nat)
    requires j < |calls|
  {
    || calls[j] == Call(req.via, req.text, req.mode)
    || (&& req.mode == Markdown && 0 < j
        && calls[j] == Call(req.via, CleanTextForTelegram(req.text), None)
        && calls[j - 1] == Call(req.via, req.text, req.mode) && env(j - 1) == ParseRejected)
  }

  predicate AllSent(req: Request, env: nat -> Outcome, calls: seq<Call>)
  {
    forall j :: 0 <= j < |calls| ==> Sent(req, env, calls, j)
  }

  /** Every call sends the text in the requested mode, except the fallback: the text from
      `clean_text_for_telegram` with no parse mode, right after a Markdown send that met a
      parse error. */
  lemma {:induction false} SendCalls(req: Request, env: nat -> Outcome, n: nat)
    ensures AllSent(req, env, SendIterate(req, env, n).calls)
  {
    if n > 0 {
      SendCalls(req, env, n - 1);
      var st := SendIterate(req, env, n - 1);
      if !st.done {
        var k := |st.calls|;
        var s := TryOnce(req, env, k);
        var next := SendIterate(req, env, n);
        assert next.calls == st.calls + s.calls;
        forall j | 0 <= j < |next.calls| ensures Sent(req, env, next.calls, j) {
          if j < k {
            assert Sent(req, env, st.calls, j);
            assert next.calls[j] == st.calls[j];
            assert j > 0 ==> next.calls[j - 1] == st.calls[j - 1];
          } else if j == k {
            assert next.calls[j] == s.calls[0];
          } else {
            assert next.calls[j] == s.calls[1] && next.calls[j - 1] == s.calls[0];
          }
        }
      }
    }
  }

  /** When every call fails on the network the loop runs `max_retries` times, one call each,
      and returns False. */
  lemma {:induction false} SendAllNetwork(req: Request, env: nat -> Outcome, n: nat)
    requires forall i :: env(i) == NetworkFailure
    requires 0 < n <= req.maxRetries
    ensures var st := SendIterate(req, env, n);
      !st.ok && st.rounds == n && |st.calls| == n && (st.done <==> n == req.maxRetries)
  {
    if n > 1 {
      SendAllNetwork(req, env, n - 1);
    }
  }

  /** The fallback happens once per iteration, not once per request: a parse error, a network
      failure of the plain send, then a parse error again and a delivered plain send makes four
      calls, two of them fallbacks, and one wait of a second. */
  lemma FallbackEachIteration(via: Channel, text: string, env: nat -> Outcome)
    requires env(0) == ParseRejected && env(1) == NetworkFailure
    requires env(2) == ParseRejected && env(3) == Delivered
    ensures var r := SendDelivery(Request(via, text, Markdown, DefaultRetries), env);
      var md := Call(via, text, Markdown);
      var plain := Call(via, CleanTextForTelegram(text), None);
      r.ok && r.calls == [md, plain, md, plain] && r.delays == [1]
  {
    var req := Request(via, text, Markdown, DefaultRetries);
    var md := Call(via, text, Markdown);
    var plain := Call(via, CleanTextForTelegram(text), None);
    assert SendIterate(req, env, 1) == SendState(false, false, [md, plain], [1], 1);
    assert SendIterate(req, env, 2) == SendState(true, true, [md, plain, md, plain], [1], 2);
    DoneStays(req, env, 2, 5);
  }

  /** The first n iterations make at most two calls each. */
  lemma {:induction false} SendCallCount(req: Request, env: nat -> Outcome, n: nat)
    ensures |SendIterate(req, env, n).calls| <= 2 * n
  {
    if n > 0 {
      SendCallCount(req, env, n - 1);
    }
  }

  /** The first n iterations read only the outcomes of the calls they make, at most two each. */
  lemma {:induction false} SendReadsOwnCalls(req: Request, env1: nat -> Outcome, env2: nat -> Outcome, n: nat)
    requires forall i :: 0 <= i < 2 * n ==> env1(i) == env2(i)
    ensures SendIterate(req, env1, n) == SendIterate(req, env2, n)
  {
    if n > 0 {
      SendReadsOwnCalls(req, env1, env2, n - 1);
      SendCallCount(req, env1, n - 1);
      var st := SendIterate(req, env1, n - 1);
      var k := |st.calls|;
      assert env1(k) == env2(k) && env1(k + 1) == env2(k + 1);
      assert TryOnce(req, env1, k) == TryOnce(req, env2, k);
    }
  }

  // ---------------------------------------------------------------------------------------
  // clear_webhook

  /** How one attempt of `clear_webhook` ends: the status of `deleteWebhook`, a connection
      error (of either request), or any other exception. */
  datatype Answer = Status(code: int) | ConnectionFailed | Unexpected

  const WebhookAttempts: nat := 5

  /** The wait after a connection error in attempt a: `min(2 ** a, 10)`. */
  function WebhookBackoff(a: nat): nat
  {
    Min(Pow2(a), 10)
  }

  /** Whether the webhook is cleared yet, and the waits so far. */
  datatype Cleared = Cleared(ok: bool, delays: seq<nat>)

  /** Attempt a: status 200 waits 2 s for the change to spread and returns True. A 409 waits
      5 s even on the last attempt; another status goes straight on; errors wait unless it was
      the last attempt. */
  function ClearAttempt(st: Cleared, answer: Answer, a: nat): Cleared
  {
    if st.ok then st
    else match answer
      case Status(code) =>
        if code == 200 then Cleared(true, st.delays + [2])
        else if code == 409 then Cleared(false, st.delays + [5])
        else st
      case ConnectionFailed =>
        if a < WebhookAttempts - 1 then Cleared(false, st.delays + [WebhookBackoff(a)]) else st
      case Unexpected =>
        if a < WebhookAttempts - 1 then Cleared(false, st.delays + [3]) else st
  }

  /** The state after the first n attempts. */
  function ClearIterate(env: nat -> Answer, n: nat): Cleared
  {
    if n == 0 then Cleared(false, []) else ClearAttempt(ClearIterate(env, n - 1), env(n - 1), n - 1)
  }

  /** The work of one attempt that did not succeed: the wait it ends with, if any. */
  method AttemptWait(answer: Answer, attempt: nat) returns (wait: seq<nat>)
    requires answer != Status(200)
    ensures ClearAttempt(Cleared(false, []), answer, attempt) == Cleared(false, wait)
  {
    wait := [];
    match answer {
      case Status(code) =>
        if code == 409 {
          wait := [5];
        }
      case ConnectionFailed =>
        if attempt < WebhookAttempts - 1 {
          wait := [WebhookBackoff(attempt)];
        }
      case Unexpected =>
        if attempt < WebhookAttempts - 1 {
          wait := [3];
        }
    }
  }

  /** `clear_webhook()`: the result and every wait, `env(a)` being how attempt a ends. */
  method ClearWebhook(env: nat -> Answer) returns (ok: bool, delays: seq<nat>)
    ensures Cleared(ok, delays) == ClearIterate(env, WebhookAttempts)
  {
    delays := [];
    var attempt := 0;
    while attempt < WebhookAttempts
      invariant 0 <= attempt <= WebhookAttempts
      invariant ClearIterate(env, attempt) == Cleared(false, delays)
    {
      var answer := env(attempt);
      if answer == Status(200) {
        delays := delays + [2];
        ClearedStays(env, attempt + 1, WebhookAttempts);
        return true, delays;
      }
      var wait := AttemptWait(answer, attempt);
      ClearAttemptAppends(delays, answer, attempt);
      delays := delays + wait;
      attempt := attempt + 1;
    }
    ok := false;
  }

  /** A failed attempt only appends its own wait to the ones before it. */
  lemma ClearAttemptAppends(delays: seq<nat>, answer: Answer, a: nat)
    ensures ClearAttempt(Cleared(false, delays), answer, a).delays ==
            delays + ClearAttempt(Cleared(false, []), answer, a).delays
  {
  }

  lemma {:induction false} ClearedStays(env: nat -> Answer, m: nat, n: nat)
    requires m <= n && ClearIterate(env, m).ok
    ensures ClearIterate(env, n) == ClearIterate(env, m)
  {
    if m < n {
      ClearedStays(env, m, n - 1);
    }
  }

  /** After n attempts the webhook is cleared exactly when one of them answered 200. */
  lemma {:induction false} ClearOkIff(env: nat -> Answer, n: nat)
    ensures ClearIterate(env, n).ok <==> exists i :: 0 <= i < n && env(i) == Status(200)
  {
    if n > 0 {
      ClearOkIff(env, n - 1);
    }
  }

  /** At most one wait per attempt, each between 1 and 10 s; a success ends with the 2 s wait. */
  lemma {:induction false} ClearWaits(env: nat -> Answer, n: nat)
    ensures var st := ClearIterate(env, n);
      && |st.delays| <= n
      && (forall j :: 0 <= j < |st.delays| ==> 1 <= st.delays[j] <= 10)
      && (st.ok ==> st.delays != [] && st.delays[|st.delays| - 1] == 2)
  {
    if n > 0 {
      ClearWaits(env, n - 1);
      var st := ClearIterate(env, n - 1);
      if !st.ok && env(n - 1) != Status(200) {
        var w := ClearAttempt(Cleared(false, []), env(n - 1), n - 1).delays;
        ClearAttemptAppends(st.delays, env(n - 1), n - 1);
        WaitBounds(env(n - 1), n - 1);
        var d := ClearIterate(env, n).delays;
        assert d == st.delays + w;
        forall j | 0 <= j < |d| ensures 1 <= d[j] <= 10 {
          if j >= |st.delays| {
            assert d[j] == w[j - |st.delays|];
          }
        }
      }
    }
  }

  /** A failed attempt waits at most once, between 1 and 10 s. */
  lemma WaitBounds(answer: Answer, a: nat)
    requires answer != Status(200)
    ensures var w := ClearAttempt(Cleared(false, []), answer, a).delays;
      |w| <= 1 && forall j :: 0 <= j < |w| ==> 1 <= w[j] <= 10
  {
    if a < WebhookAttempts - 1 {
      Pow2Monotone(0, a);
    }
  }

  /** `clear_webhook` returns True exactly when one of its five `deleteWebhook` calls answered
      200. */
  lemma ClearWebhookSpec(env: nat -> Answer)
    ensures var r := ClearIterate(env, WebhookAttempts);
      && (r.ok <==> exists i :: 0 <= i < WebhookAttempts && env(i) == Status(200))
      && |r.delays| <= WebhookAttempts
      && (forall j :: 0 <= j < |r.delays| ==> 1 <= r.delays[j] <= 10)
      && (r.ok ==> r.delays[|r.delays| - 1] == 2)
  {
    ClearOkIff(env, WebhookAttempts);
    ClearWaits(env, WebhookAttempts);
  }

  /** A 409 on the last attempt still waits 5 s before `clear_webhook` gives up. */
  lemma ClearConflictLast(env: nat -> Answer)
    requires forall i :: 0 <= i < WebhookAttempts ==> env(i) != Status(200)
    requires env(WebhookAttempts - 1) == Status(409)
    ensures var r := ClearIterate(env, WebhookAttempts);
      !r.ok && r.delays != [] && r.delays[|r.delays| - 1] == 5
  {
    ClearOkIff(env, WebhookAttempts - 1);
    ClearAttemptAppends(ClearIterate(env, WebhookAttempts - 1).delays, env(WebhookAttempts - 1), WebhookAttempts - 1);
  }

  /** The exact wait of a failed attempt a, given the attempts before it did not succeed: a
      409 waits 5 s, a connection error `min(2 ** a, 10)` s and any other exception 3 s, the
      last two only when another attempt follows; another status goes on with no wait. */
  lemma ClearFailureWait(env: nat -> Answer, a: nat)
    requires a < WebhookAttempts && !ClearIterate(env, a).ok
    ensures var before := ClearIterate(env, a).delays;
      var after := ClearIterate(env, a + 1);
      && (env(a) == Status(409) ==> after == Cleared(false, before + [5]))
      && (env(a).Status? && env(a).code != 200 && env(a).code != 409 ==>
            after == Cleared(false, before))
      && (env(a) == ConnectionFailed ==>
            after == Cleared(false, before + if a < WebhookAttempts - 1 then [Min(Pow2(a), 10)] else []))
      && (env(a) == Unexpected ==>
            after == Cleared(false, before + if a < WebhookAttempts - 1 then [3] else []))
  {
  }

  /** The first n attempts read only their own n answers. */
  lemma {:induction false} ClearReadsOwnAnswers(env1: nat -> Answer, env2: nat -> Answer, n: nat)
    requires forall i :: 0 <= i < n ==> env1(i) == env2(i)
    ensures ClearIterate(env1, n) == ClearIterate(env2, n)
  {
    if n > 0 {
      ClearReadsOwnAnswers(env1, env2, n - 1);
    }
  }
}

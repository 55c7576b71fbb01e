/**
 The platform submit-and-poll exchange of a webhook backend, driven by an injected clock and
 an injected transport. Times are nanoseconds since the exchange started.
 */
module PollMachine {
  import opened Wrappers
  import ApprovalGraph
  import opened ApprovalEval

  const ONE_SECOND: nat := 1_000_000_000

  datatype Step = Submit(body: string) | Poll(requestId: string)

  datatype HttpReply = HttpReply(status: nat, body: string)

  datatype PlatformStatus = PlatformStatus(state: string, reason: Option<string>)

  /** One round trip: what came back, and how long it took. */
  datatype Hop = Hop(reply: Result<HttpReply, string>, took: nat)

  /** Arbitrary surroundings. Before clock reading or sleep number `k`, `lag(k)` more time than
      asked for may pass; `send(k, step, remaining)` is the k-th round trip; `httpDenial` words
      a non-2xx status seen after so many whole seconds. */
  datatype Env = Env(
    lag: nat -> nat,
    send: (nat, Step, nat) -> Hop,
    parse: string -> Option<PlatformStatus>,
    httpDenial: (nat, nat) -> string)

  datatype Webhook = Webhook(name: string, timeout: nat, backoff: nat)

  /** A hop as it happened: the clock reading it was sent on, the round trip, the reading after its
      reply (none is taken after a transport error), and the pause before going on. */
  datatype Sent = Sent(step: Step, at: nat, reply: Result<HttpReply, string>, took: nat, after: nat, pause: nat)

  predicate Success(status: nat) {
    200 <= status < 300
  }

  ghost predicate Pending(env: Env, reply: Result<HttpReply, string>) {
    reply.Ok? && Success(reply.value.status)
    && env.parse(reply.value.body).Some? && env.parse(reply.value.body).value.state == "pending"
  }

  /** The answer a final reply read at `after` calls for. */
  ghost predicate Calls(h: Webhook, env: Env, reply: Result<HttpReply, string>, after: nat, r: Answer) {
    match reply
    case Err(e) => r == Err(e)
    case Ok(http) =>
      if !Success(http.status) then r == Ok(Denied(env.httpDenial(http.status, after / ONE_SECOND)))
      else match env.parse(http.body)
        case None => r.Err?
        case Some(s) =>
          && s.state != "pending"
          && (s.state == "granted" <==> r == Ok(Granted))
          && (s.state == "denied" ==> r == Ok(Denied(
                if s.reason.Some? then s.reason.value else "approval webhook '" + h.name + "' denied request")))
          && (s.state == "timeout" <==> r == Ok(Timeout))
          && (s.state !in {"granted", "denied", "timeout"} <==> r.Err?)
  }

  /** One Submit of the body, then only Polls of the one request id, each a real round trip sent
      on a reading below the timeout with what remained of it; every reply but the last was an
      in-time "pending", followed by a pause. */
  ghost predicate Exchange(h: Webhook, env: Env, id: string, body: string, log: seq<Sent>) {
    && (forall k :: 0 <= k < |log| ==> RoundTrip(h, env, id, body, k, log[k]))
    && (forall k :: 0 <= k < |log| - 1 ==> Paused(h, env, log[k]) && log[k].after + log[k].pause <= log[k + 1].at)
  }

  /** The k-th request: what it must be, and that its reply is the transport's. */
  ghost predicate RoundTrip(h: Webhook, env: Env, id: string, body: string, k: nat, sent: Sent) {
    && sent.step == (if k == 0 then Submit(body) else Poll(id))
    && sent.at < h.timeout && sent.at + sent.took <= sent.after
    && env.send(k, sent.step, h.timeout - sent.at) == Hop(sent.reply, sent.took)
  }

  /** An in-time "pending" reply, and the pause that follows it. */
  ghost predicate Paused(h: Webhook, env: Env, sent: Sent) {
    && sent.at < h.timeout && sent.after < h.timeout && Pending(env, sent.reply)
    && sent.pause == Min(h.backoff, h.timeout - sent.at)
  }

  /** The time spent on round trips and pauses. */
  function Busy(log: seq<Sent>): nat {
    if log == [] then 0 else Busy(log[..|log| - 1]) + log[|log| - 1].took + log[|log| - 1].pause
  }

  /** The lag of the first `n` clock readings and sleeps. */
  function Lag(env: Env, n: nat): nat {
    if n == 0 then 0 else Lag(env, n - 1) + env.lag(n - 1)
  }

  /** The lag of the last two of the first `n` clock readings and sleeps. */
  function RecentLag(env: Env, n: nat): nat {
    (if n > 0 then env.lag(n - 1) else 0) + (if n > 1 then env.lag(n - 2) else 0)
  }

  function Min(a: int, b: int): int {
    if a < b then a else b
  }

  function Max(a: int, b: int): int {
    if a < b then b else a
  }

  /** Each hop keeps to the timeout it is given: what remains, but at least a second. */
  ghost predicate HopsKeepTimeout(env: Env) {
    forall k, step, remaining: nat :: env.send(k, step, remaining).took <= Max(remaining, ONE_SECOND)
  }

  /** Either the client sleeps between polls, or every round trip takes time. Without both the
      source would spin for as long as the clock stood still. */
  ghost predicate TimePasses(h: Webhook, env: Env) {
    h.backoff > 0 || forall k, step, remaining: nat :: env.send(k, step, remaining).took > 0
  }

  /** Sends are at least a backoff apart, so the k-th is no earlier than k backoffs. */
  lemma {:induction false} SendsAreSpaced(h: Webhook, env: Env, id: string, body: string, log: seq<Sent>, k: nat)
    requires Exchange(h, env, id, body, log) && k < |log|
    ensures k * h.backoff <= log[k].at
  {
    if k > 0 {
      SendsAreSpaced(h, env, id, body, log, k - 1);
      assert Paused(h, env, log[k - 1]) && log[k - 1].after + log[k - 1].pause <= log[k].at;
      assert k * h.backoff == (k - 1) * h.backoff + h.backoff;
    }
  }

  /** At most ceil(timeout / backoff) requests are ever sent. */
  lemma RequestsAreBounded(h: Webhook, env: Env, id: string, body: string, log: seq<Sent>)
    requires Exchange(h, env, id, body, log)
    ensures h.backoff > 0 ==> |log| <= (h.timeout + h.backoff - 1) / h.backoff
  {
    if log != [] && h.backoff > 0 {
      var n := |log| - 1;
      SendsAreSpaced(h, env, id, body, log, n);
      assert n * h.backoff + h.backoff <= h.timeout + h.backoff - 1;
      assert (n + 1) * h.backoff == n * h.backoff + h.backoff;
      DivisionBound(n + 1, h.timeout + h.backoff - 1, h.backoff);
    }
  }

  lemma DivisionBound(q: nat, total: nat, unit: nat)
    requires unit > 0 && q * unit <= total
    ensures q <= total / unit
  {
    var d := total / unit;
    assert total < d * unit + unit == (d + 1) * unit;
    if d < q {
      ProductGrows(d + 1, q, unit);
    }
  }

  lemma ProductGrows(a: nat, b: nat, unit: nat)
    requires a <= b
    ensures a * unit <= b * unit
  {
  }

  /** What one in-time reply means: nothing yet, or the final answer. */
  method Interpret(h: Webhook, env: Env, http: HttpReply, after: nat) returns (a: Option<Answer>)
    ensures a.None? <==> Pending(env, Ok(http))
    ensures a.Some? ==> Calls(h, env, Ok(http), after, a.value)
    // The reply table, written out.
    ensures http.status < 200 || http.status >= 300 ==>
              a == Some(Ok(Denied(env.httpDenial(http.status, after / 1_000_000_000))))
    ensures 200 <= http.status < 300 && env.parse(http.body).None? ==> a.Some? && a.value.Err?
    ensures 200 <= http.status < 300 && env.parse(http.body).Some? ==>
              var s := env.parse(http.body).value;
              match s.state
              case "pending" => a == None
              case "granted" => a == Some(Ok(Granted))
              case "timeout" => a == Some(Ok(Timeout))
              case "denied" =>
                a == Some(Ok(Denied(if s.reason.Some? then s.reason.value
                                    else "approval webhook '" + h.name + "' denied request")))
              case _ => a.Some? && a.value.Err?
  {
    if !Success(http.status) {
      return Some(Ok(Denied(env.httpDenial(http.status, after / ONE_SECOND))));
    }
    var parsed := env.parse(http.body);
    if parsed.None? {
      return Some(Err("approval webhook '" + h.name + "' returned invalid JSON"));
    }
    match parsed.value.state {
      case "pending" => return None;
      case "granted" => return Some(Ok(Granted));
      case "denied" =>
        return Some(Ok(Denied(if parsed.value.reason.Some? then parsed.value.reason.value
                              else "approval webhook '" + h.name + "' denied request")));
      case "timeout" => return Some(Ok(Timeout));
      case other => return Some(Err("approval webhook '" + h.name + "' returned unknown state '" + other + "'"));
    }
  }

  /** The exchange may go on: the last reply was a "pending" and the pause after it is over. */
  ghost predicate Resumable(h: Webhook, env: Env, log: seq<Sent>, now: nat) {
    log != [] ==> Paused(h, env, log[|log| - 1]) && log[|log| - 1].after + log[|log| - 1].pause <= now
  }

  lemma {:induction false} ExchangeGrows(h: Webhook, env: Env, id: string, body: string, log: seq<Sent>, next: Sent)
    requires Exchange(h, env, id, body, log) && Resumable(h, env, log, next.at)
    requires RoundTrip(h, env, id, body, |log|, next)
    ensures Exchange(h, env, id, body, log + [next])
    ensures Busy(log + [next]) == Busy(log) + next.took + next.pause
  {
    hide Paused, RoundTrip;
    var more := log + [next];
    assert more[..|log|] == log;
    assert forall k :: 0 <= k < |log| ==> more[k] == log[k];
  }

  /** Nothing comes between the last round trip, the one reading after its reply (none after a
      transport error) and the end. */
  ghost predicate EndsOnReply(env: Env, last: Sent, end: nat, ticks: nat) {
    && last.pause == 0 && ticks > 0
    && last.after == end == last.at + last.took + if last.reply.Ok? then env.lag(ticks - 1) else 0
  }

  ghost predicate EndsOnPause(h: Webhook, env: Env, last: Sent, end: nat, ticks: nat) {
    && last.reply.Ok? && Pending(env, last.reply) && last.after < h.timeout
    && last.pause == Min(h.backoff, h.timeout - last.at)
    && h.timeout <= end <= last.after + last.pause + RecentLag(env, ticks)
  }

  /** drive_platform_approval_with_elapsed. Returns the answer, the exchange as it happened, when
      it returned, and how many clock readings and sleeps it took. */
  method DrivePlatformApproval(h: Webhook, id: string, body: string, env: Env)
    returns (r: Answer, log: seq<Sent>, end: nat, ticks: nat)
    requires TimePasses(h, env)
    ensures Exchange(h, env, id, body, log)
    ensures h.backoff > 0 ==> |log| <= (h.timeout + h.backoff - 1) / h.backoff
    // All time is accounted for: round trips, pauses, and the lag of each reading and sleep.
    ensures end == Busy(log) + Lag(env, ticks) && ticks <= 3 * |log| + 1
    // An answer other than Timeout was decided by the last reply, read below the timeout unless it
    // was a transport error; Timeout is either such a verdict or a reading at or past the timeout.
    ensures r != Ok(Timeout) || end < h.timeout ==>
              && log != [] && Calls(h, env, log[|log| - 1].reply, log[|log| - 1].after, r)
              && (log[|log| - 1].reply.Ok? ==> log[|log| - 1].after == end < h.timeout)
    ensures log == [] ==> env.lag(0) >= h.timeout
    // It goes on for as long as there is time, and no longer: it ends either on the reading right
    // after the last reply, or on an in-time "pending" whose pause, with the lag since, reached the
    // timeout.
    ensures log != [] ==>
              EndsOnReply(env, log[|log| - 1], end, ticks) || EndsOnPause(h, env, log[|log| - 1], end, ticks)
    ensures log != [] && !EndsOnReply(env, log[|log| - 1], end, ticks) ==> r == Ok(Timeout)
    // However long the exchange, only the last two lags can carry it past its bound.
    ensures HopsKeepTimeout(env) ==> end < h.timeout + Max(ONE_SECOND, h.backoff) + RecentLag(env, ticks)
  {
    hide Exchange, Pending, Calls, Busy, Lag, HopsKeepTimeout, RecentLag, RoundTrip, Paused, Max, Resumed, Slept,
         EndsOnPause;
    var now, submitted := 0, false;
    log, ticks := [], 0;
    NoExchangeYet(h, env, id, body);
    while true
      invariant submitted <==> log != []
      invariant Exchange(h, env, id, body, log) && Resumable(h, env, log, now)
      invariant now == Busy(log) + Lag(env, ticks) && ticks <= 3 * |log|
      invariant if log == [] then now == ticks == 0
                else ticks > 1 && now == Resumed(h, env, log[|log| - 1], ticks)
                     && now < h.timeout + Slept(h, env, ticks)
      decreases h.timeout - now
    {
      LagStep(env, ticks);
      ghost var before := now;
      now, ticks := now + env.lag(ticks), ticks + 1;
      if now >= h.timeout {
        RequestsAreBounded(h, env, id, body, log);
        EndsAfterPause(h, env, before, ticks, log);
        if log != [] {
          EndedOnPause(h, env, log[|log| - 1], now, ticks);
        }
        return Ok(Timeout), log, now, ticks;
      }
      LagStep(env, ticks);
      var sent, final;
      sent, final, ticks := SendAndRead(h, env, |log|, if submitted then Poll(id) else Submit(body), now, ticks);
      now := sent.after;
      ExchangeGrows(h, env, id, body, log, sent);
      log := log + [sent];
      RequestsAreBounded(h, env, id, body, log);
      if final.Some? {
        return final.value, log, now, ticks;
      }
      TimePassed(h, env, id, body, |log| - 1, sent);
      submitted := true;
      if h.backoff > 0 {
        LagStep(env, ticks);
        now, ticks := now + sent.pause + env.lag(ticks), ticks + 1;
      }
      PauseIsOver(h, env, sent, now, ticks);
    }
  }

  /** When the exchange goes on after the pause that follows `sent`. */
  function Resumed(h: Webhook, env: Env, sent: Sent, ticks: nat): nat
    requires ticks > 0
  {
    sent.after + sent.pause + if h.backoff > 0 then env.lag(ticks - 1) else 0
  }

  /** How long a pause may take. */
  function Slept(h: Webhook, env: Env, ticks: nat): nat
    requires ticks > 0
  {
    h.backoff + if h.backoff > 0 then env.lag(ticks - 1) else 0
  }

  lemma PauseIsOver(h: Webhook, env: Env, sent: Sent, now: nat, ticks: nat)
    requires Paused(h, env, sent) && ticks > 0
    requires now == sent.after + if h.backoff > 0 then sent.pause + env.lag(ticks - 1) else 0
    ensures now == Resumed(h, env, sent, ticks) && now < h.timeout + Slept(h, env, ticks)
    ensures sent.after + sent.pause <= now
  {
    hide Pending;
  }

  lemma EndedOnPause(h: Webhook, env: Env, last: Sent, end: nat, ticks: nat)
    requires Paused(h, env, last) && h.timeout <= end <= last.after + last.pause + RecentLag(env, ticks)
    ensures EndsOnPause(h, env, last, end, ticks) && last.after < h.timeout
  {
  }

  lemma TimePassed(h: Webhook, env: Env, id: string, body: string, k: nat, sent: Sent)
    requires TimePasses(h, env) && RoundTrip(h, env, id, body, k, sent) && Paused(h, env, sent)
    ensures sent.at < sent.after + sent.pause && sent.after < h.timeout && sent.pause <= h.backoff
  {
  }

  /** One round trip sent on the reading `at`, and what its reply calls for. */
  method SendAndRead(h: Webhook, env: Env, k: nat, step: Step, at: nat, ticks: nat)
    returns (sent: Sent, final: Option<Answer>, ticks': nat)
    requires at < h.timeout
    ensures forall id, body :: step == (if k == 0 then Submit(body) else Poll(id)) ==>
              RoundTrip(h, env, id, body, k, sent)
    ensures sent.at == at && ticks' == ticks + if sent.reply.Ok? then 1 else 0
    ensures sent.after == at + sent.took + if sent.reply.Ok? then env.lag(ticks) else 0
    ensures final.None? ==> sent.reply.Ok? && Paused(h, env, sent)
    ensures final.Some? ==>
              && sent.pause == 0
              && (Calls(h, env, sent.reply, sent.after, final.value)
                  || (final.value == Ok(Timeout) && sent.after >= h.timeout))
              && (sent.reply.Ok? && final.value != Ok(Timeout) ==> sent.after < h.timeout)
    ensures HopsKeepTimeout(env) ==> sent.after < h.timeout + Max(ONE_SECOND, h.backoff) + RecentLag(env, ticks')
  {
    hide Pending, Calls, HopsKeepTimeout, RecentLag, Max;
    var remaining := h.timeout - at;
    var hop := env.send(k, step, remaining);
    if HopsKeepTimeout(env) {
      EndsAfterHop(h, env, k, step, at, ticks);
    }
    if hop.reply.Err? {
      TransportError(h, env, hop.reply.error, at + hop.took);
      return Sent(step, at, hop.reply, hop.took, at + hop.took, 0), Some(Err(hop.reply.error)), ticks;
    }
    var after := at + hop.took + env.lag(ticks);
    final := ReadReply(h, env, hop.reply.value, after);
    var pause := if final.Some? then 0 else Min(h.backoff, remaining);
    return Sent(step, at, hop.reply, hop.took, after, pause), final, ticks + 1;
  }

  lemma TransportError(h: Webhook, env: Env, e: string, after: nat)
    ensures Calls(h, env, Err(e), after, Err(e))
  {
  }

  /** The bounds on a reading that ends the exchange at the top of the loop. */
  lemma EndsAfterPause(h: Webhook, env: Env, before: nat, ticks: nat, log: seq<Sent>)
    requires ticks > 0
    requires if log == [] then before == 0
             else ticks > 2 && before == Resumed(h, env, log[|log| - 1], ticks - 1)
                  && before < h.timeout + Slept(h, env, ticks - 1)
    ensures before + env.lag(ticks - 1) < h.timeout + Max(ONE_SECOND, h.backoff) + RecentLag(env, ticks)
    ensures log != [] ==>
              before + env.lag(ticks - 1) <= log[|log| - 1].after + log[|log| - 1].pause + RecentLag(env, ticks)
  {
  }

  /** The bounds on an end right after a round trip, and on the reading that follows it. */
  lemma EndsAfterHop(h: Webhook, env: Env, k: nat, step: Step, at: nat, ticks: nat)
    requires at < h.timeout && HopsKeepTimeout(env)
    ensures var end := at + env.send(k, step, h.timeout - at).took;
            && end < h.timeout + Max(ONE_SECOND, h.backoff) + RecentLag(env, ticks)
            && end + env.lag(ticks) < h.timeout + Max(ONE_SECOND, h.backoff) + RecentLag(env, ticks + 1)
  {
  }

  /** What a reply leads to: a deadline that has passed meanwhile, or the reply's own meaning. */
  method ReadReply(h: Webhook, env: Env, http: HttpReply, after: nat) returns (a: Option<Answer>)
    ensures a.None? <==> after < h.timeout && Pending(env, Ok(http))
    ensures a.Some? && after < h.timeout ==> Calls(h, env, Ok(http), after, a.value)
    ensures after >= h.timeout ==> a == Some(Ok(Timeout))
  {
    if after >= h.timeout {
      return Some(Ok(Timeout));
    }
    a := Interpret(h, env, http, after);
  }

  /** How far a platform webhook may run beyond its timeout, if no reading or sleep lags by more
      than `slack`. */
  function HookOverrun(h: Webhook, slack: nat): nat {
    Max(ONE_SECOND, h.backoff) + 2 * slack
  }

  /** The exchange as the reply of a leaf of an approval tree: the answer is the one its last reply
      called for, or a Timeout, and with its overrun the leaf is punctual. */
  method AnswerLeaf(leaf: ApprovalGraph.Backend, h: Webhook, id: string, body: string, env: Env, ghost slack: nat)
    returns (reply: LeafReply, log: seq<Sent>)
    requires leaf.Hook? && leaf.name == h.name && leaf.timeout == h.timeout && TimePasses(h, env)
    ensures Exchange(h, env, id, body, log)
    ensures reply.answer != Ok(Timeout) || reply.took < leaf.timeout ==>
              && log != [] && Calls(h, env, log[|log| - 1].reply, log[|log| - 1].after, reply.answer)
              && (log[|log| - 1].reply.Ok? ==> reply.took < leaf.timeout)
    ensures HopsKeepTimeout(env) && (forall k: nat :: env.lag(k) <= slack) ==>
              reply.took <= leaf.timeout + HookOverrun(h, slack)
  {
    hide Exchange, Calls, Busy, Lag;
    var r, end, ticks;
    r, log, end, ticks := DrivePlatformApproval(h, id, body, env);
    return LeafReply(r, end), log;
  }

  lemma NoExchangeYet(h: Webhook, env: Env, id: string, body: string)
    ensures Exchange(h, env, id, body, []) && Busy([]) == 0 && Lag(env, 0) == 0
  {
  }

  lemma LagStep(env: Env, n: nat)
    ensures Lag(env, n + 1) == Lag(env, n) + env.lag(n)
  {
  }
}

/** The two ways a client reaches the wire: Do and Download. Both check the
    breaker, hold one slot for the whole call, and give it back however they end. */
module Calls {
  import opened Prelude
  import opened Pacing
  import opened Backoff
  import opened PaceObjects
  import opened Retry

  datatype DoResult =
    | CircuitOpen
    | BadUrl
    | NotAcquired
    | Finished(outcome: Outcome)

  datatype DownloadResult =
    | NotSent(why: DoResult)
    | NotReady
    | Streaming(code: int)
    | Unauthorized(code: int)
    | Failed

  /** What the single reply to a download means. */
  function DownloadVerdict(r: Reply): DownloadResult {
    match r
    case NetworkError => Failed
    case Status(code, _) =>
      if code == 202 || code == 204 then NotReady
      else if AuthRejected(code) then Unauthorized(code)
      else if Success(code) then Streaming(code)
      else Failed
  }

  /** The result a download's reply calls for, code by code. */
  predicate Judged(r: Reply, result: DownloadResult) {
    match r
    case NetworkError => result == Failed
    case Status(code, _) =>
      && (result == NotReady <==> code == 202 || code == 204)
      && (result == Unauthorized(code) <==> code == 401 || code == 403)
      && (result == Streaming(code) <==> 200 <= code <= 299 && code != 202 && code != 204)
      && (result == Failed <==> !(200 <= code <= 299 || code == 401 || code == 403))
  }

  class Client {
    const limiter: Limiter
    const breaker: Breaker
    const wire: Transport

    constructor (limiter: Limiter, breaker: Breaker, wire: Transport)
      ensures this.limiter == limiter && this.breaker == breaker && this.wire == wire
    {
      this.limiter, this.breaker, this.wire := limiter, breaker, wire;
    }

    /** From the admission on: acquire, loop, release. */
    method DoAdmitted(cls: Class, p: Policy, kind: BodyKind, body: Stream?, w: World,
                      clock: Clock, ended: bool, extra: nat, cancelled: bool)
      returns (outcome: Option<Outcome>)
      requires limiter.Valid() && BodyFits(kind, body)
      modifies limiter`next, clock, limiter.GateFor(cls), limiter.GateFor(cls).wake, wire, body, breaker
      ensures limiter.Valid()
      ensures limiter.GateFor(cls).active == old(limiter.GateFor(cls).active)
      ensures limiter.GateFor(cls).limit == old(limiter.GateFor(cls).limit)
      ensures outcome.Some? <==> old(limiter.Admits(cls, clock.t, ended, cancelled))
      ensures limiter.BucketView() == if outcome.Some? then old(limiter.BucketView()).Take(clock.t) else old(limiter.BucketView())
      ensures var t := CallTrace(p, kind, w);
              if outcome.None? then
                wire.sent == old(wire.sent) && wire.events == old(wire.events) && breaker.failures == old(breaker.failures)
              else
                && outcome.value == t.outcome
                && wire.events == old(wire.events) + t.events
                && wire.sent == old(wire.sent) + Copies(t.sends, old(Payload(body)))
                && breaker.failures == old(breaker.failures) + (if t.outcome.AuthFailed? then 1 else 0)
    {
      var permit := limiter.Acquire(cls, clock, ended, extra, cancelled);
      if permit == null {
        return None;
      }
      var last := LoopAndRelease(cls, permit, p, kind, body, w);
      return Some(last);
    }

    /** The loop, and the deferred release behind it. */
    method LoopAndRelease(cls: Class, permit: Permit, p: Policy, kind: BodyKind, body: Stream?, w: World)
      returns (outcome: Outcome)
      requires limiter.Valid() && BodyFits(kind, body) && permit.gate == limiter.GateFor(cls) && !permit.spent
      modifies permit, limiter.GateFor(cls), limiter.GateFor(cls).wake, wire, body, breaker
      ensures limiter.Valid() && limiter.BucketView() == old(limiter.BucketView())
      ensures limiter.GateFor(cls).View() == old(limiter.GateFor(cls).View()).Release()
      ensures var t := CallTrace(p, kind, w);
              && outcome == t.outcome
              && wire.events == old(wire.events) + t.events
              && wire.sent == old(wire.sent) + Copies(t.sends, old(Payload(body)))
              && breaker.failures == old(breaker.failures) + (if t.outcome.AuthFailed? then 1 else 0)
    {
      outcome := RetryLoop(wire, breaker, p, kind, body, w, permit);
      limiter.GiveBack(cls, permit);
    }

    /** An open circuit means no network activity at all; otherwise the call takes
        the retry trace, every send carries the same bytes, and whatever happens
        the slot is returned: the gate counts as many holders as before. */
    method Do(cls: Class, p: Policy, kind: BodyKind, body: Stream?, w: World,
              clock: Clock, urlOk: bool, ended: bool, extra: nat, cancelled: bool)
      returns (result: DoResult)
      requires limiter.Valid() && BodyFits(kind, body)
      modifies limiter`next, clock, limiter.GateFor(cls), limiter.GateFor(cls).wake, wire, body, breaker
      ensures limiter.Valid()
      ensures limiter.GateFor(cls).active == old(limiter.GateFor(cls).active)
      ensures limiter.GateFor(cls).limit == old(limiter.GateFor(cls).limit)
      ensures result.CircuitOpen? <==> old(breaker.failures) >= BREAKER_THRESHOLD
      ensures result.BadUrl? <==> old(breaker.failures) < BREAKER_THRESHOLD && !urlOk
      ensures result.Finished? <==>
                old(breaker.failures) < BREAKER_THRESHOLD && urlOk && old(limiter.Admits(cls, clock.t, ended, cancelled))
      ensures limiter.BucketView() == if result.Finished? then old(limiter.BucketView()).Take(clock.t) else old(limiter.BucketView())
      ensures var t := CallTrace(p, kind, w);
              if result.Finished? then
                && result.outcome == t.outcome
                && wire.events == old(wire.events) + t.events
                && wire.sent == old(wire.sent) + Copies(t.sends, old(Payload(body)))
                && breaker.failures == old(breaker.failures) + (if t.outcome.AuthFailed? then 1 else 0)
              else
                wire.sent == old(wire.sent) && wire.events == old(wire.events) && breaker.failures == old(breaker.failures)
    {
      var open := breaker.Allow();
      if open {
        return CircuitOpen;
      }
      if !urlOk {
        return BadUrl;
      }
      var outcome := DoAdmitted(cls, p, kind, body, w, clock, ended, extra, cancelled);
      return if outcome.None? then NotAcquired else Finished(outcome.value);
    }

    /** A download is sent exactly once, whatever the reply, under the same breaker and gate. */
    method Download(reply: Reply, clock: Clock, urlOk: bool, ended: bool, extra: nat, cancelled: bool)
      returns (result: DownloadResult)
      requires limiter.Valid()
      modifies limiter`next, clock, limiter.GateFor(Read), limiter.GateFor(Read).wake, wire, breaker
      ensures limiter.Valid()
      ensures limiter.GateFor(Read).active == old(limiter.GateFor(Read).active)
      ensures limiter.GateFor(Read).limit == old(limiter.GateFor(Read).limit)
      ensures result == NotSent(CircuitOpen) <==> old(breaker.failures) >= BREAKER_THRESHOLD
      ensures !result.NotSent? <==>
                old(breaker.failures) < BREAKER_THRESHOLD && urlOk && old(limiter.Admits(Read, clock.t, ended, cancelled))
      ensures limiter.BucketView() == if result.NotSent? then old(limiter.BucketView()) else old(limiter.BucketView()).Take(clock.t)
      ensures if result.NotSent? then
                wire.sent == old(wire.sent) && wire.events == old(wire.events) && breaker.failures == old(breaker.failures)
              else
                && wire.sent == old(wire.sent) + [[]] && wire.events == old(wire.events) + [Request(1)]
                && Judged(reply, result)
                && breaker.failures == old(breaker.failures) + (if reply.Status? && (reply.code == 401 || reply.code == 403) then 1 else 0)
    {
      var open := breaker.Allow();
      if open {
        return NotSent(CircuitOpen);
      }
      if !urlOk {
        return NotSent(BadUrl);
      }
      var permit := limiter.Acquire(Read, clock, ended, extra, cancelled);
      if permit == null {
        return NotSent(NotAcquired);
      }
      result := SendDownload(reply, permit);
      limiter.GiveBack(Read, permit);
    }

    method SendDownload(reply: Reply, ghost permit: Permit) returns (result: DownloadResult)
      requires !permit.spent
      modifies wire, breaker
      ensures wire.sent == old(wire.sent) + [[]] && wire.events == old(wire.events) + [Request(1)]
      ensures Judged(reply, result)
      ensures breaker.failures == old(breaker.failures) + (if reply.Status? && (reply.code == 401 || reply.code == 403) then 1 else 0)
    {
      wire.events := wire.events + [Request(1)];
      wire.Transmit(null, 0, permit);
      result := DownloadVerdict(reply);
      if result.Unauthorized? {
        breaker.RecordAuthFailure();
      }
    }
  }
}

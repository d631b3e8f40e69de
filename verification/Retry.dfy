/** One Do: the retry loop against an adversarial server, a body that may be
    one-shot, and a context that may end anywhere. */
module Retry {
  import opened Prelude
  import opened Backoff
  import opened PaceObjects

  datatype Reply =
    | NetworkError
    | Status(code: int, retryAfter: int) // retryAfter: the parsed hint, 0 when absent

  datatype BodyKind = NoBody | OneShot | Seekable

  /** Everything the call does not decide itself, by attempt number. */
  datatype World = World(
    reply: nat -> Reply,
    consumed: nat -> nat,        // how much of the body a send reads
    seekOk: nat -> bool,         // index 0: reading the starting offset
    buildOk: nat -> bool,
    ended: nat -> bool,          // the context has ended when the send fails
    sleepCut: nat -> bool,       // the context ends during the pause after this attempt
    jitter: nat -> real
  )

  predicate Success(code: int) {
    200 <= code < 300
  }

  predicate AuthRejected(code: int) {
    code == 401 || code == 403
  }

  datatype Outcome =
    | Delivered(code: int)
    | AuthFailed(code: int)
    | ApiFailed(code: int)
    | NetFailed
    | Cancelled
    | RewindFailed
    | BuildFailed

  /** How one attempt is judged: the call ends, or goes on after a pause. */
  datatype Verdict = Stop(outcome: Outcome) | Pause(wait: int, retryAfter: int)

  function Priced(p: Policy, resendable: bool, attempt: nat, retryAfter: int, u: real, failure: Outcome): Verdict {
    if !resendable || attempt >= p.maxAttempts then Stop(failure)
    else match Wait(p, attempt, retryAfter, u)
      case Ok(wait) => Pause(wait, retryAfter)
      case Err(_) => Stop(failure)
  }

  function Judge(p: Policy, resendable: bool, w: World, attempt: nat): Verdict {
    match w.reply(attempt)
    case NetworkError =>
      if w.ended(attempt) then Stop(Cancelled)
      else Priced(p, resendable, attempt, 0, w.jitter(attempt), NetFailed)
    case Status(code, retryAfter) =>
      if Success(code) then Stop(Delivered(code))
      else if AuthRejected(code) then Stop(AuthFailed(code))
      else if code == 429 || code >= 500 then
        Priced(p, resendable, attempt, retryAfter, w.jitter(attempt), ApiFailed(code))
      else Stop(ApiFailed(code))
  }

  datatype Event =
    | Request(attempt: nat)
    | Throttled(attempt: nat, wait: int, retryAfter: int)

  /** What one call does: its events, its pauses, how often it sent, how it ended. */
  datatype Trace = Trace(events: seq<Event>, waits: seq<int>, sends: nat, outcome: Outcome)

  /** The call from this attempt on. */
  function Attempts(p: Policy, kind: BodyKind, w: World, attempt: nat): Trace
    requires attempt >= 1
    decreases Max(0, p.maxAttempts - attempt)
  {
    if attempt > 1 && kind == Seekable && !w.seekOk(attempt) then Trace([], [], 0, RewindFailed)
    else if !w.buildOk(attempt) then Trace([], [], 0, BuildFailed)
    else match Judge(p, kind != OneShot, w, attempt)
      case Stop(outcome) => Trace([Request(attempt)], [], 1, outcome)
      case Pause(wait, retryAfter) =>
        var here := [Request(attempt), Throttled(attempt, wait, retryAfter)];
        if w.sleepCut(attempt) then Trace(here, [wait], 1, Cancelled)
        else
          var rest := Attempts(p, kind, w, attempt + 1);
          Trace(here + rest.events, [wait] + rest.waits, 1 + rest.sends, rest.outcome)
  }

  function CallTrace(p: Policy, kind: BodyKind, w: World): Trace {
    if kind == Seekable && !w.seekOk(0) then Trace([], [], 0, RewindFailed)
    else Attempts(p, kind, w, 1)
  }

  // ------------------------------------------------------------- properties

  lemma {:induction false} SendsFrom(p: Policy, kind: BodyKind, w: World, attempt: nat)
    requires attempt >= 1
    ensures Attempts(p, kind, w, attempt).sends <= if kind == OneShot then 1 else Max(1, p.maxAttempts - attempt + 1)
    decreases Max(0, p.maxAttempts - attempt)
  {
    if Judge(p, kind != OneShot, w, attempt).Pause? {
      SendsFrom(p, kind, w, attempt + 1);
    }
  }

  /** For every server, policy and cancellation: at most max(1, MaxAttempts)
      requests reach the wire, and exactly at most one when the body cannot seek. */
  lemma SendBound(p: Policy, kind: BodyKind, w: World)
    ensures CallTrace(p, kind, w).sends <= if kind == OneShot then 1 else Max(1, p.maxAttempts)
  {
    SendsFrom(p, kind, w, 1);
  }

  /** The events are Request(first) Throttled(first) Request(first + 1) ...: one
      Request per send and, between sends, one Throttled that reports the very pause taken. */
  predicate Alternating(t: Trace, first: nat) {
    && |t.events| == t.sends + |t.waits|
    && |t.waits| <= t.sends <= |t.waits| + 1
    && (forall k | 0 <= k < t.sends :: t.events[2 * k] == Request(first + k))
    && (forall k | 0 <= k < |t.waits| :: Reports(t.events[2 * k + 1], first + k, t.waits[k]))
  }

  predicate Reports(e: Event, attempt: nat, wait: int) {
    e.Throttled? && e.attempt == attempt && e.wait == wait
  }

  lemma Prepend(t: Trace, rest: Trace, first: nat, wait: int, retryAfter: int)
    requires Alternating(rest, first + 1)
    requires t.events == [Request(first), Throttled(first, wait, retryAfter)] + rest.events
    requires t.waits == [wait] + rest.waits && t.sends == 1 + rest.sends
    ensures Alternating(t, first)
  {
    forall k | 0 <= k < t.sends ensures t.events[2 * k] == Request(first + k) {
      if k > 0 {
        assert t.events[2 * k] == rest.events[2 * (k - 1)];
      }
    }
    forall k | 0 <= k < |t.waits| ensures Reports(t.events[2 * k + 1], first + k, t.waits[k]) {
      if k > 0 {
        assert t.events[2 * k + 1] == rest.events[2 * (k - 1) + 1];
        assert Reports(rest.events[2 * (k - 1) + 1], first + 1 + (k - 1), rest.waits[k - 1]);
      }
    }
  }

  lemma {:induction false} EventShapeFrom(p: Policy, kind: BodyKind, w: World, attempt: nat)
    requires attempt >= 1
    ensures Alternating(Attempts(p, kind, w, attempt), attempt)
    decreases Max(0, p.maxAttempts - attempt)
  {
    var t := Attempts(p, kind, w, attempt);
    if t.events != [] {
      var v := Judge(p, kind != OneShot, w, attempt);
      if v.Pause? && !w.sleepCut(attempt) {
        EventShapeFrom(p, kind, w, attempt + 1);
        Prepend(t, Attempts(p, kind, w, attempt + 1), attempt, v.wait, v.retryAfter);
      }
    }
  }

  /** Attempt numbers are consecutive from 1 in every call. */
  lemma EventShape(p: Policy, kind: BodyKind, w: World)
    ensures Alternating(CallTrace(p, kind, w), 1)
  {
    EventShapeFrom(p, kind, w, 1);
  }

  // ------------------------------------------- what the loop does, from outside

  /** Attempt k can be sent: the starting offset is read or the body rewinds, and the request builds. */
  predicate Sendable(kind: BodyKind, w: World, k: nat) {
    (kind == Seekable ==> w.seekOk(if k == 1 then 0 else k)) && w.buildOk(k)
  }

  /** The reply to attempt k leads to a pause: it is one to retry, the context has
      not ended, the body can be sent again, and the policy has an attempt and a pause left. */
  predicate Pauses(p: Policy, kind: BodyKind, w: World, k: nat) {
    && kind != OneShot && k < p.maxAttempts
    && match w.reply(k)
       case NetworkError => !w.ended(k)
       case Status(code, retryAfter) => (code == 429 || code >= 500) && retryAfter <= Max(0, p.retryAfterCeiling)
  }

  /** What a reply without a pause means. */
  predicate Answered(r: Reply, ended: bool, outcome: Outcome) {
    match r
    case NetworkError => outcome == if ended then Cancelled else NetFailed
    case Status(code, _) =>
      && (outcome == Delivered(code) <==> 200 <= code <= 299)
      && (outcome == AuthFailed(code) <==> code == 401 || code == 403)
      && (outcome == ApiFailed(code) <==> !(200 <= code <= 299 || code == 401 || code == 403))
  }

  /** How a call ends whose last send was number n, or that sent nothing (n == 0):
      on the answer, in the pause, or before the next send. */
  predicate EndsAt(p: Policy, kind: BodyKind, w: World, n: nat, outcome: Outcome) {
    if n > 0 && !Pauses(p, kind, w, n) then Answered(w.reply(n), w.ended(n), outcome)
    else if n > 0 && w.sleepCut(n) then outcome == Cancelled
    else
      && !Sendable(kind, w, n + 1)
      && outcome == if kind == Seekable && !w.seekOk(if n == 0 then 0 else n + 1) then RewindFailed else BuildFailed
  }

  lemma {:induction false} LoopFrom(p: Policy, kind: BodyKind, w: World, attempt: nat)
    requires attempt >= 1 && (attempt == 1 && kind == Seekable ==> w.seekOk(0))
    requires attempt > 1 ==> Pauses(p, kind, w, attempt - 1) && !w.sleepCut(attempt - 1)
    ensures var t := Attempts(p, kind, w, attempt);
            var n := attempt + t.sends - 1;
            && (forall k | attempt <= k < n :: Pauses(p, kind, w, k) && !w.sleepCut(k))
            && (forall k | attempt <= k <= n :: Sendable(kind, w, k))
            && EndsAt(p, kind, w, n, t.outcome)
            && |t.waits| == (if t.sends > 0 && !Pauses(p, kind, w, n) then t.sends - 1 else t.sends)
    decreases Max(0, p.maxAttempts - attempt)
  {
    PausesExactly(p, kind, w, attempt);
    if Sendable(kind, w, attempt) && Pauses(p, kind, w, attempt) && !w.sleepCut(attempt) {
      LoopFrom(p, kind, w, attempt + 1);
    }
  }

  lemma PausesExactly(p: Policy, kind: BodyKind, w: World, k: nat)
    ensures Judge(p, kind != OneShot, w, k).Pause? <==> Pauses(p, kind, w, k)
    ensures var v := Judge(p, kind != OneShot, w, k);
            v.Stop? ==> Answered(w.reply(k), w.ended(k), v.outcome)
  {
    WaitRefuses(p, k, Hint(w.reply(k)), w.jitter(k));
  }

  /** The loop, exactly, in terms of its inputs alone: it goes on from send k to
      send k + 1 when the reply leads to a pause, the context lasts through it, and
      the next send can be made; it ends at the first k where one of these fails,
      the way that failure calls for. The conditions determine the number of sends,
      the number of pauses and the outcome. */
  lemma LastReplyDecides(p: Policy, kind: BodyKind, w: World)
    ensures var t := CallTrace(p, kind, w);
            && (forall k | 1 <= k < t.sends :: Pauses(p, kind, w, k) && !w.sleepCut(k))
            && (forall k | 1 <= k <= t.sends :: Sendable(kind, w, k))
            && EndsAt(p, kind, w, t.sends, t.outcome)
            && |t.waits| == (if t.sends > 0 && !Pauses(p, kind, w, t.sends) then t.sends - 1 else t.sends)
  {
    if kind != Seekable || w.seekOk(0) {
      LoopFrom(p, kind, w, 1);
    }
  }

  /** The hint a retryable reply carries; a network failure carries none. */
  function Hint(r: Reply): int {
    if r.NetworkError? then 0 else r.retryAfter
  }

  /** Is `wait` the pause called for after this attempt, and e the event that reports it? */
  predicate PricedPause(p: Policy, w: World, attempt: nat, wait: int, e: Event) {
    && attempt < p.maxAttempts
    && e == Throttled(attempt, wait, Hint(w.reply(attempt)))
    && if Hint(w.reply(attempt)) > 0 then wait == Hint(w.reply(attempt)) <= p.retryAfterCeiling
       else FullJitter(p, attempt, w.jitter(attempt), wait)
  }

  ghost predicate DrawsInRange(w: World) {
    forall k: nat {:trigger w.jitter(k)} :: 0.0 <= w.jitter(k) < 1.0
  }

  lemma PauseIsPriced(p: Policy, resendable: bool, w: World, attempt: nat)
    requires Judge(p, resendable, w, attempt).Pause?
    ensures var v := Judge(p, resendable, w, attempt);
            PricedPause(p, w, attempt, v.wait, Throttled(attempt, v.wait, v.retryAfter))
  {
    var hint, u := Hint(w.reply(attempt)), w.jitter(attempt);
    WaitRefuses(p, attempt, hint, u);
    if hint <= 0 && attempt < p.maxAttempts {
      WaitExact(p, attempt, hint, u);
    }
  }

  /** The pause priced after one attempt. */
  lemma OnePause(p: Policy, resendable: bool, w: World, attempt: nat)
    requires Sensible(p) && DrawsInRange(w)
    requires Judge(p, resendable, w, attempt).Pause?
    ensures 0 <= Judge(p, resendable, w, attempt).wait <= Max(p.cap, p.retryAfterCeiling)
    ensures attempt < p.maxAttempts
  {
    var v := Judge(p, resendable, w, attempt);
    assert 0.0 <= w.jitter(attempt) < 1.0;
    WaitWithin(p, attempt, v.retryAfter, w.jitter(attempt));
    PauseIsPriced(p, resendable, w, attempt);
  }

  lemma {:induction false} PausesPricedFrom(p: Policy, kind: BodyKind, w: World, attempt: nat, k: nat)
    requires attempt >= 1 && k < |Attempts(p, kind, w, attempt).waits|
    ensures var t := Attempts(p, kind, w, attempt);
            |t.events| > 2 * k + 1 && PricedPause(p, w, attempt + k, t.waits[k], t.events[2 * k + 1])
    decreases k
  {
    PauseIsPriced(p, kind != OneShot, w, attempt);
    if k > 0 {
      var rest := Attempts(p, kind, w, attempt + 1);
      PausesPricedFrom(p, kind, w, attempt + 1, k - 1);
      assert Attempts(p, kind, w, attempt).events[2 * k + 1] == rest.events[2 * (k - 1) + 1];
    }
  }

  /** Every pause of every call, and the event that announces it: the server's own
      hint, exactly, when the reply carried one, and otherwise the full jitter of
      that very attempt, exactly. */
  lemma PausesPriced(p: Policy, kind: BodyKind, w: World, k: nat)
    requires k < |CallTrace(p, kind, w).waits|
    ensures var t := CallTrace(p, kind, w);
            |t.events| > 2 * k + 1 && PricedPause(p, w, 1 + k, t.waits[k], t.events[2 * k + 1])
  {
    PausesPricedFrom(p, kind, w, 1, k);
  }

  function Sum(xs: seq<int>): int {
    if xs == [] then 0 else xs[0] + Sum(xs[1..])
  }

  lemma SumStep(xs: seq<int>, bound: nat)
    requires xs != [] && 0 <= xs[0] <= bound
    requires 0 <= Sum(xs[1..]) <= |xs[1..]| * bound
    ensures 0 <= Sum(xs) <= |xs| * bound
  {
    assert |xs| * bound == bound + |xs[1..]| * bound;
  }

  lemma {:induction false} PausesFrom(p: Policy, kind: BodyKind, w: World, attempt: nat)
    requires attempt >= 1 && Sensible(p) && DrawsInRange(w)
    ensures var t := Attempts(p, kind, w, attempt);
            && |t.waits| <= Max(0, p.maxAttempts - attempt)
            && 0 <= Sum(t.waits) <= |t.waits| * Max(p.cap, p.retryAfterCeiling)
    decreases Max(0, p.maxAttempts - attempt)
  {
    var t := Attempts(p, kind, w, attempt);
    if |t.waits| > 0 {
      OnePause(p, kind != OneShot, w, attempt);
      if w.sleepCut(attempt) {
        assert t.waits[1..] == [];
      } else {
        PausesFrom(p, kind, w, attempt + 1);
        assert t.waits[1..] == Attempts(p, kind, w, attempt + 1).waits;
      }
      SumStep(t.waits, Max(p.cap, p.retryAfterCeiling));
    }
  }

  /** All pauses of one call together stay within (MaxAttempts - 1) times the
      larger of the cap and the Retry-After ceiling. */
  lemma TotalPause(p: Policy, kind: BodyKind, w: World)
    requires Sensible(p) && DrawsInRange(w)
    ensures Sum(CallTrace(p, kind, w).waits) <= Max(0, p.maxAttempts - 1) * Max(p.cap, p.retryAfterCeiling)
  {
    PausesFrom(p, kind, w, 1);
    var n, bound := |CallTrace(p, kind, w).waits|, Max(p.cap, p.retryAfterCeiling);
    MulMonotone(n, Max(0, p.maxAttempts - 1), bound);
  }

  // ------------------------------------------------------------ the objects

  /** A request body with a cursor. */
  class Stream {
    const data: seq<byte>
    var pos: nat

    constructor (data: seq<byte>, pos: nat)
      requires pos <= |data|
      ensures this.data == data && this.pos == pos
    {
      this.data, this.pos := data, pos;
    }
  }

  /** The transport as the server sees it, and the observer's event list. */
  class Transport {
    var sent: seq<seq<byte>>
    var events: seq<Event>

    constructor ()
      ensures sent == [] && events == []
    {
      sent, events := [], [];
    }

    /** Sends what lies beyond the cursor; the send may stop reading anywhere.
        Nothing is ever sent without a slot: the sender shows an unspent permit. */
    method Transmit(body: Stream?, consumed: nat, ghost permit: Permit)
      requires !permit.spent
      requires body != null ==> body.pos <= |body.data|
      modifies this`sent, body
      ensures sent == old(sent) + [if body == null then [] else body.data[old(body.pos)..]]
      ensures body != null ==> body.pos == Min(old(body.pos) + consumed, |body.data|)
    {
      if body == null {
        sent := sent + [[]];
      } else {
        sent := sent + [body.data[body.pos..]];
        body.pos := Min(body.pos + consumed, |body.data|);
      }
    }
  }

  /** The bytes a call means to send: the body from the offset it came with. */
  ghost function Payload(body: Stream?): seq<byte>
    requires body != null ==> body.pos <= |body.data|
    reads body
  {
    if body == null then [] else body.data[body.pos..]
  }

  predicate BodyFits(kind: BodyKind, body: Stream?)
    reads body
  {
    (kind == NoBody <==> body == null) && (body != null ==> body.pos <= |body.data|)
  }

  /** n sends of the same bytes. */
  function Copies(n: nat, payload: seq<byte>): seq<seq<byte>> {
    seq(n, _ => payload)
  }

  lemma RegroupSends(whole: seq<seq<byte>>, done: seq<seq<byte>>, n: nat, payload: seq<byte>)
    requires whole == done + Copies(1 + n, payload)
    ensures whole == done + Copies(1, payload) + Copies(n, payload)
  {
    assert Copies(1 + n, payload) == Copies(1, payload) + Copies(n, payload);
    Assoc(done, Copies(1, payload), Copies(n, payload));
  }

  /** What one pass of the loop does: its events, its sends, and the outcome if it is the last. */
  datatype Pass = Pass(events: seq<Event>, sends: nat, stop: Option<Outcome>)

  function PassAt(p: Policy, kind: BodyKind, w: World, attempt: nat): Pass
    requires attempt >= 1
  {
    if attempt > 1 && kind == Seekable && !w.seekOk(attempt) then Pass([], 0, Some(RewindFailed))
    else if !w.buildOk(attempt) then Pass([], 0, Some(BuildFailed))
    else match Judge(p, kind != OneShot, w, attempt)
      case Stop(outcome) => Pass([Request(attempt)], 1, Some(outcome))
      case Pause(wait, retryAfter) =>
        Pass([Request(attempt), Throttled(attempt, wait, retryAfter)], 1, if w.sleepCut(attempt) then Some(Cancelled) else None)
  }

  lemma PassUnfolds(p: Policy, kind: BodyKind, w: World, attempt: nat)
    requires attempt >= 1
    ensures var pass, t := PassAt(p, kind, w, attempt), Attempts(p, kind, w, attempt);
            if pass.stop.Some? then
              t.events == pass.events && t.sends == pass.sends && t.outcome == pass.stop.value
            else
              && kind != OneShot && attempt < p.maxAttempts
              && var rest := Attempts(p, kind, w, attempt + 1);
              t.events == pass.events + rest.events && t.sends == 1 + rest.sends && t.outcome == rest.outcome
              && pass.sends == 1
  {
  }

  /** One pass of the retry loop: rewind, build, send, judge, pause. */
  method OneAttempt(wire: Transport, p: Policy, kind: BodyKind, body: Stream?, start: nat, w: World, attempt: nat,
                    ghost permit: Permit)
    returns (stop: Option<Outcome>)
    requires attempt >= 1 && !permit.spent
    requires body != null ==> body.pos <= |body.data| && start <= |body.data|
    requires kind == NoBody <==> body == null
    requires attempt == 1 && body != null ==> body.pos == start
    requires attempt > 1 ==> kind != OneShot
    modifies wire, body
    ensures body != null ==> body.pos <= |body.data|
    ensures var pass := PassAt(p, kind, w, attempt);
            && stop == pass.stop
            && wire.events == old(wire.events) + pass.events
            && wire.sent == old(wire.sent) + Copies(pass.sends, if body == null then [] else body.data[start..])
  {
    if attempt > 1 && kind == Seekable {
      if !w.seekOk(attempt) {
        return Some(RewindFailed);
      }
      body.pos := start;
    }
    if !w.buildOk(attempt) {
      return Some(BuildFailed);
    }
    wire.events := wire.events + [Request(attempt)];
    wire.Transmit(body, w.consumed(attempt), permit);
    var verdict := Judge(p, kind != OneShot, w, attempt);
    if verdict.Stop? {
      return Some(verdict.outcome);
    }
    wire.events := wire.events + [Throttled(attempt, verdict.wait, verdict.retryAfter)];
    return if w.sleepCut(attempt) then Some(Cancelled) else None;
  }

  /** The whole call, seen before this attempt: what it has done so far, followed by the rest. */
  ghost predicate Ahead(p: Policy, kind: BodyKind, w: World, attempt: nat, payload: seq<byte>,
                        events: seq<Event>, sent: seq<seq<byte>>, whole: Whole)
    requires attempt >= 1
  {
    var rest := Attempts(p, kind, w, attempt);
    && whole.events == events + rest.events
    && whole.sent == sent + Copies(rest.sends, payload)
    && whole.outcome == rest.outcome
  }

  datatype Whole = Whole(events: seq<Event>, sent: seq<seq<byte>>, outcome: Outcome)

  lemma OnePass(p: Policy, kind: BodyKind, w: World, attempt: nat, payload: seq<byte>,
                events: seq<Event>, sent: seq<seq<byte>>, whole: Whole)
    requires attempt >= 1 && Ahead(p, kind, w, attempt, payload, events, sent, whole)
    ensures var pass := PassAt(p, kind, w, attempt);
            var events', sent' := events + pass.events, sent + Copies(pass.sends, payload);
            if pass.stop.Some? then whole == Whole(events', sent', pass.stop.value)
            else kind != OneShot && attempt < p.maxAttempts && Ahead(p, kind, w, attempt + 1, payload, events', sent', whole)
  {
    PassUnfolds(p, kind, w, attempt);
    var pass := PassAt(p, kind, w, attempt);
    if pass.stop.None? {
      var rest := Attempts(p, kind, w, attempt + 1);
      Assoc(events, pass.events, rest.events);
      RegroupSends(whole.sent, sent, rest.sends, payload);
    }
  }

  /** The loop: attempt after attempt until one ends the call. */
  method SendAll(wire: Transport, p: Policy, kind: BodyKind, body: Stream?, w: World, ghost permit: Permit)
    returns (outcome: Outcome)
    requires BodyFits(kind, body) && !permit.spent
    modifies wire, body
    ensures var t := Attempts(p, kind, w, 1);
            && outcome == t.outcome
            && wire.events == old(wire.events) + t.events
            && wire.sent == old(wire.sent) + Copies(t.sends, old(Payload(body)))
  {
    var start := if body != null then body.pos else 0;
    ghost var payload := Payload(body);
    ghost var whole := var t := Attempts(p, kind, w, 1); Whole(wire.events + t.events, wire.sent + Copies(t.sends, payload), t.outcome);
    var attempt := 1;
    var stop := None;
    while stop.None?
      invariant attempt >= 1
      invariant body != null ==> body.pos <= |body.data| && start <= |body.data|
      invariant stop.None? ==>
                  && (attempt > 1 ==> kind != OneShot)
                  && (attempt == 1 && body != null ==> body.pos == start)
                  && Ahead(p, kind, w, attempt, payload, wire.events, wire.sent, whole)
      invariant stop.Some? ==> whole == Whole(wire.events, wire.sent, stop.value)
      decreases stop.None?, Max(0, p.maxAttempts - attempt)
    {
      OnePass(p, kind, w, attempt, payload, wire.events, wire.sent, whole);
      stop := OneAttempt(wire, p, kind, body, start, w, attempt, permit);
      if stop.None? {
        attempt := attempt + 1;
      }
    }
    outcome := stop.value;
  }

  /** Everything a call does while it holds its slot: find the starting offset,
      then loop. It takes exactly the trace of the specification, every send
      carries the identical bytes, and the breaker moves once, on rejection. */
  method RetryLoop(wire: Transport, breaker: Breaker, p: Policy, kind: BodyKind, body: Stream?, w: World,
                   ghost permit: Permit)
    returns (outcome: Outcome)
    requires BodyFits(kind, body) && !permit.spent
    modifies wire, body, breaker
    ensures var t := CallTrace(p, kind, w);
            && outcome == t.outcome
            && wire.events == old(wire.events) + t.events
            && wire.sent == old(wire.sent) + Copies(t.sends, old(Payload(body)))
            && breaker.failures == old(breaker.failures) + (if t.outcome.AuthFailed? then 1 else 0)
  {
    if kind == Seekable && !w.seekOk(0) {
      return RewindFailed;
    }
    outcome := SendAll(wire, p, kind, body, w, permit);
    if outcome.AuthFailed? {
      breaker.RecordAuthFailure();
    }
  }
}

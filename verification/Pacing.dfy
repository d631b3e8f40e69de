/** The request-pacing protocol of one account as a transition system.

    Every mutex section of the limiter, every atomic access to the breaker and
    every outside event (time passing, a reply, a cancellation) is one action. A
    run is any sequence of actions, so it interleaves any number of callers in
    any order; an action that is not enabled leaves the state as it is. */
module Pacing {
  /** Nanoseconds in a second: the unit of every duration and instant below. */
  const SECOND := 1_000_000_000

  const DEFAULT_RPS := 8.0
  const MAX_RPS := 10.0
  const DEFAULT_READS := 4
  const BREAKER_THRESHOLD := 2

  /** One past the largest representable duration. */
  const DURATION_LIMIT := 0x8000_0000_0000_0000

  type CallerId = nat
  type ClientId = nat

  datatype Class = Read | Write

  // ---------------------------------------------------------------- the gate

  /** A counting semaphore. `gen` numbers the wake channel: a release closes
      channel `gen` and replaces it by `gen + 1`, so channel g is still open
      exactly when g == gen. */
  datatype Gate = Gate(active: int, limit: int, isSet: bool, gen: nat) {
    predicate Full() {
      active >= limit
    }

    function Enter(): Gate {
      this.(active := active + 1)
    }

    function Release(): Gate {
      this.(active := active - 1, gen := gen + 1)
    }

    /** The first explicit limit wins; a later one only tightens. */
    function Tighten(n: int): Gate {
      if !isSet || n < limit then this.(limit := n, isSet := true) else this
    }
  }

  function NewGate(limit: int): Gate {
    Gate(0, limit, false, 0)
  }

  // -------------------------------------------------------------- the bucket

  /** The token bucket with burst 1: `next` is the earliest instant of the next grant. */
  datatype Bucket = Bucket(next: int, interval: int, rpsSet: bool) {
    predicate Ready(t: int) {
      t >= next
    }

    function Take(t: int): Bucket {
      this.(next := t + interval)
    }

    /** The first explicit interval wins; a later one only lengthens. */
    function Configure(iv: int): Bucket {
      if !rpsSet || iv > interval then this.(interval := iv, rpsSet := true) else this
    }
  }

  /** The spacing that a rate asks for, truncated to whole nanoseconds. */
  function IntervalOf(rps: real): int
    requires rps > 0.0
  {
    (SECOND as real / rps).Floor
  }

  /** Does the spacing of this rate fit a duration at all? */
  predicate Representable(rps: real)
    requires rps > 0.0
  {
    SECOND as real / rps < DURATION_LIMIT as real
  }

  function NewBucket(): Bucket {
    Bucket(0, IntervalOf(DEFAULT_RPS), false)
  }

  // ------------------------------------------------------------- the callers

  /** Where one caller stands. */
  datatype Pc =
    | Refused                      // the circuit was open: nothing else happens
    | Admitted                     // the circuit was closed; no slot yet
    | Blocked(gen: nat, seen: int) // in select on wake channel gen, having read limit seen
    | InBucket                     // holds a slot, about to lock the bucket
    | Asleep                       // holds a slot, timer running
    | Granted                      // Acquire returned; nothing sent yet
    | Sending                      // a request is on the wire
    | Backoff                      // between two sends, still holding the slot
    | Closing                      // outcome known; the deferred release is due
    | Done

  /** Direct callers use the limiter alone; the others go through a client. */
  datatype Origin = Direct | Via(client: ClientId)

  /** One Do, Download or direct Acquire. `budget` is the number of sends it may
      make: max(1, MaxAttempts) for Do, 1 for Download and for a one-shot body. */
  datatype Caller = Caller(origin: Origin, cls: Class, budget: nat, sends: nat, rejections: nat, pc: Pc)

  datatype Grant = Grant(at: int, interval: int)

  datatype State = State(
    clock: int,
    bucket: Bucket,
    readGate: Gate,
    writeGate: Gate,
    failures: nat,
    rated: set<ClientId>,     // clients past the rate half of their attachPace
    attached: set<ClientId>,  // clients whose attachPace has completed
    callers: map<CallerId, Caller>,
    grants: seq<Grant>
  ) {
    function GateOf(cls: Class): Gate {
      if cls == Read then readGate else writeGate
    }

    function WithGate(cls: Class, g: Gate): State {
      if cls == Read then this.(readGate := g) else this.(writeGate := g)
    }

    function WithPc(id: CallerId, pc: Pc): State
      requires id in callers
    {
      this.(callers := callers[id := callers[id].(pc := pc)])
    }
  }

  function Init(): State {
    State(0, NewBucket(), NewGate(DEFAULT_READS), NewGate(1), 0, {}, {}, map[], [])
  }

  // ------------------------------------------------------------- the actions

  datatype Ruling =
    | Final      // success, or a failure that is never retried
    | Rejected   // 401 or 403
    | Retryable  // 429, 5xx or a network failure

  datatype Action =
    | Tick(d: nat)                                  // time passes
    | SetRate(src: Origin, rps: real, iv: int)       // the rate half of Configure
    | SkipRate(client: ClientId)                    // the rate half, when the rate is not a number
    | SetReads(src: Origin, n: int)                 // the concurrency half of Configure
    | Begin(id: CallerId, origin: Origin, cls: Class, budget: nat)
    | TryGate(id: CallerId)                         // one critical section of gate.acquire
    | CancelWait(id: CallerId)                      // the context ends before a slot is held
    | TryBucket(id: CallerId)                       // one critical section of waitTurn
    | Wake(id: CallerId)                            // the timer fires, at any time
    | CancelSleep(id: CallerId)                     // the context ends in the bucket
    | Send(id: CallerId)
    | Answer(id: CallerId, reply: Ruling)
    | GiveUp(id: CallerId)                          // rewind, build or backoff fails
    | Release(id: CallerId)                         // release, possibly not for the first time

  predicate At(s: State, id: CallerId, pc: Pc) {
    id in s.callers && s.callers[id].pc == pc
  }

  predicate Enabled(s: State, a: Action) {
    match a
    case Tick(d) => true
    case SetRate(src, rps, iv) =>
      && rps > 0.0
      && (Representable(rps) ==> iv == IntervalOf(rps))
      && (src.Via? ==> rps <= MAX_RPS && src.client !in s.rated)
    case SkipRate(client) => client !in s.rated
    case SetReads(src, n) =>
      && n > 0
      && (src.Via? ==> src.client in s.rated && src.client !in s.attached)
    case Begin(id, origin, cls, budget) =>
      && id !in s.callers
      && budget >= 1
      && (origin.Via? ==> origin.client in s.attached)
    case TryGate(id) =>
      && id in s.callers
      && var c := s.callers[id];
      && (c.pc.Admitted? || (c.pc.Blocked? && c.pc.gen != s.GateOf(c.cls).gen))
    case CancelWait(id) => id in s.callers && (s.callers[id].pc.Admitted? || s.callers[id].pc.Blocked?)
    case TryBucket(id) => At(s, id, InBucket)
    case Wake(id) => At(s, id, Asleep)
    case CancelSleep(id) => At(s, id, Asleep)
    case Send(id) =>
      && id in s.callers
      && s.callers[id].origin.Via?
      && (s.callers[id].pc.Granted? || s.callers[id].pc.Backoff?)
    case Answer(id, reply) => At(s, id, Sending)
    case GiveUp(id) => At(s, id, Granted) || At(s, id, Backoff)
    case Release(id) => At(s, id, Closing) || At(s, id, Done)
  }

  /** Releases the caller's slot and moves the caller to Done. */
  function Free(s: State, id: CallerId): State
    requires id in s.callers
  {
    var cls := s.callers[id].cls;
    s.WithGate(cls, s.GateOf(cls).Release()).WithPc(id, Done)
  }

  function AfterTryGate(s: State, id: CallerId): State
    requires id in s.callers
  {
    var cls := s.callers[id].cls;
    var g := s.GateOf(cls);
    if g.Full() then s.WithPc(id, Blocked(g.gen, g.limit))
    else s.WithGate(cls, g.Enter()).WithPc(id, InBucket)
  }

  function AfterTryBucket(s: State, id: CallerId): State
    requires id in s.callers
  {
    if s.bucket.Ready(s.clock) then
      s.(bucket := s.bucket.Take(s.clock), grants := s.grants + [Grant(s.clock, s.bucket.interval)])
       .WithPc(id, Granted)
    else s.WithPc(id, Asleep)
  }

  function AfterAnswer(s: State, id: CallerId, reply: Ruling): State
    requires id in s.callers
  {
    var c := s.callers[id];
    match reply
    case Final => s.WithPc(id, Closing)
    case Rejected =>
      s.(failures := s.failures + 1,
         callers := s.callers[id := c.(pc := Closing, rejections := c.rejections + 1)])
    case Retryable => s.WithPc(id, if c.sends < c.budget then Backoff else Closing)
  }

  function Next(s: State, a: Action): State
    requires Enabled(s, a)
  {
    match a
    case Tick(d) => s.(clock := s.clock + d)
    case SetRate(src, rps, iv) =>
      s.(bucket := s.bucket.Configure(iv),
         rated := if src.Via? then s.rated + {src.client} else s.rated)
    case SkipRate(client) => s.(rated := s.rated + {client})
    case SetReads(src, n) =>
      s.(readGate := s.readGate.Tighten(n),
         attached := if src.Via? then s.attached + {src.client} else s.attached)
    case Begin(id, origin, cls, budget) =>
      var pc := if origin.Via? && s.failures >= BREAKER_THRESHOLD then Refused else Admitted;
      s.(callers := s.callers[id := Caller(origin, cls, budget, 0, 0, pc)])
    case TryGate(id) => AfterTryGate(s, id)
    case CancelWait(id) => s.WithPc(id, Done)
    case TryBucket(id) => AfterTryBucket(s, id)
    case Wake(id) => s.WithPc(id, InBucket)
    case CancelSleep(id) => Free(s, id)
    case Send(id) =>
      var c := s.callers[id];
      s.(callers := s.callers[id := c.(pc := Sending, sends := c.sends + 1)])
    case Answer(id, reply) => AfterAnswer(s, id, reply)
    case GiveUp(id) => s.WithPc(id, Closing)
    case Release(id) => if s.callers[id].pc.Done? then s else Free(s, id)
  }

  function Step(s: State, a: Action): State {
    if Enabled(s, a) then Next(s, a) else s
  }

  /** The state after a run. */
  function Exec(s: State, run: seq<Action>): State {
    if run == [] then s
    else Step(Exec(s, run[..|run| - 1]), run[|run| - 1])
  }

  lemma {:induction false} ExecConcat(s: State, a: seq<Action>, b: seq<Action>)
    ensures Exec(s, a + b) == Exec(Exec(s, a), b)
  {
    if b == [] {
      assert a + b == a;
    } else {
      var front := b[..|b| - 1];
      ExecConcat(s, a, front);
      assert (a + b)[..|a + b| - 1] == a + front;
    }
  }

  /** The state of a run before its action k. */
  function Before(run: seq<Action>, k: nat): State
    requires k <= |run|
  {
    Exec(Init(), run[..k])
  }

  lemma BeforeNext(run: seq<Action>, k: nat)
    requires k < |run|
    ensures Before(run, k + 1) == Step(Before(run, k), run[k])
  {
    assert run[..k + 1][..k] == run[..k];
  }

  lemma BeforeEnd(run: seq<Action>)
    ensures Before(run, |run|) == Exec(Init(), run)
  {
    assert run[..|run|] == run;
  }

  lemma ExecSnoc(s: State, run: seq<Action>, a: Action)
    ensures Exec(s, run + [a]) == Step(Exec(s, run), a)
  {
    assert (run + [a])[..|run + [a]| - 1] == run;
  }

  // --------------------------------------------------- what callers may hold

  /** Does a caller at this point hold a slot of its gate? */
  predicate Holds(pc: Pc) {
    pc.InBucket? || pc.Asleep? || pc.Granted? || pc.Sending? || pc.Backoff? || pc.Closing?
  }

  /** The callers of a class between a successful acquire and its release. */
  function Holders(s: State, cls: Class): set<CallerId> {
    set id | id in s.callers && s.callers[id].cls == cls && Holds(s.callers[id].pc)
  }

  /** May a caller at this point still record an auth rejection? */
  predicate Live(pc: Pc) {
    !pc.Refused? && !pc.Closing? && !pc.Done?
  }

  /** The client calls that are admitted and unfinished. */
  function InFlight(s: State): set<CallerId> {
    set id | id in s.callers && s.callers[id].origin.Via? && Live(s.callers[id].pc)
  }
}

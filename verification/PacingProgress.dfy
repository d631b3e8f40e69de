/** Freedom from deadlock: who holds a slot can always finish, and who waits can always be granted. */
module PacingProgress {
  import opened Pacing
  import opened PacingSafety
  import opened PacingRuns

  ghost predicate Sound(s: State) {
    SlotsCounted(s) && LimitsSound(s) && WaitersSound(s) && BreakerSound(s)
  }

  lemma SoundStep(s: State, a: Action)
    requires Sound(s)
    ensures Sound(Step(s, a))
  {
    SlotsStep(s, a, Read);
    SlotsStep(s, a, Write);
    LimitsStep(s, a);
    WaitersStep(s, a);
    BreakerStep(s, a);
  }

  lemma {:induction false} SoundExec(s: State, run: seq<Action>)
    requires Sound(s)
    ensures Sound(Exec(s, run))
  {
    if run != [] {
      SoundExec(s, run[..|run| - 1]);
      SoundStep(Exec(s, run[..|run| - 1]), run[|run| - 1]);
    }
  }

  lemma SoundReached(run: seq<Action>)
    ensures Sound(Exec(Init(), run))
  {
    SlotConservation(run);
    WaitersAlways(run);
    BreakerReached(run);
  }

  // ------------------------------------------------ undisturbed continuations

  /** Nobody is cancelled, nobody new comes, and no client call gives up: what is
      left is time, grants, sends, replies and releases. (A direct caller that has
      its grant sends nothing, and hands the slot back.) */
  predicate Calm(s: State, a: Action) {
    && !a.CancelWait? && !a.CancelSleep? && !a.Begin?
    && (a.GiveUp? ==> a.id in s.callers && s.callers[a.id].origin.Direct?)
  }

  predicate Undisturbed(s: State, run: seq<Action>) {
    forall a | a in run :: Calm(s, a)
  }

  predicate SameCallers(s: State, s': State) {
    && s'.callers.Keys == s.callers.Keys
    && forall id | id in s.callers :: s'.callers[id].origin == s.callers[id].origin
  }

  lemma {:induction false} CalmKeepsCallers(s: State, run: seq<Action>)
    requires Undisturbed(s, run)
    ensures SameCallers(s, Exec(s, run))
  {
    if run != [] {
      var s1, a := Exec(s, run[..|run| - 1]), run[|run| - 1];
      CalmKeepsCallers(s, run[..|run| - 1]);
      StepFrame(s1, a);
      assert Calm(s, a);
      assert Step(s1, a).callers.Keys == s1.callers.Keys;
    }
  }

  lemma CalmConcat(s: State, a: seq<Action>, b: seq<Action>)
    requires Undisturbed(s, a) && Undisturbed(Exec(s, a), b)
    ensures Undisturbed(s, a + b)
    ensures Exec(s, a + b) == Exec(Exec(s, a), b)
  {
    ExecConcat(s, a, b);
    CalmKeepsCallers(s, a);
    forall x | x in a + b ensures Calm(s, x) {
      if x in b {
        assert Calm(Exec(s, a), x);
      }
    }
  }

  lemma CalmOne(s: State, a: Action)
    requires Calm(s, a)
    ensures Undisturbed(s, [a]) && Exec(s, [a]) == Step(s, a)
  {
    assert [a][..0] == [];
  }

  // ------------------------------------------------------ holders can finish

  /** A client call that is admitted and unfinished. */
  predicate Flying(c: Caller) {
    c.origin.Via? && Live(c.pc)
  }

  /** The next action of a caller that holds a slot; `reply` is what the server answers. */
  function NextMove(s: State, id: CallerId, reply: Ruling): Action
    requires id in s.callers
  {
    var c := s.callers[id];
    match c.pc
    case Asleep => Wake(id)
    case InBucket => if s.bucket.Ready(s.clock) then TryBucket(id) else Tick(s.bucket.next - s.clock)
    case Sending => Answer(id, reply)
    case Closing => Release(id)
    case _ => if c.origin.Via? then Send(id) else GiveUp(id)
  }

  /** How many more moves that takes at most. */
  function Remaining(s: State, id: CallerId): nat
    requires id in s.callers && CallerSound(s.callers[id])
  {
    var c := s.callers[id];
    match c.pc
    case Asleep => 2 * (c.budget - c.sends) + 4
    case InBucket => 2 * (c.budget - c.sends) + if s.bucket.Ready(s.clock) then 2 else 3
    case Sending => 2 * (c.budget - c.sends) + 2
    case Closing => 1
    case _ => 2 * (c.budget - c.sends) + 1
  }

  /** c' is c at its end, having been answered `reply` throughout if it was in
      flight: with retryable replies it has spent its whole budget. */
  predicate Ended(c: Caller, c': Caller, reply: Ruling) {
    && c'.pc == Done && c'.cls == c.cls && c'.origin == c.origin && c'.budget == c.budget
    && (!Flying(c) ==> c'.sends == c.sends)
    && (Flying(c) && reply == Retryable ==> c'.sends == c.budget)
  }

  /** s' is s after `id` alone has moved on to its end, releasing its slot. */
  predicate Drained(s: State, s': State, id: CallerId, reply: Ruling) {
    && id in s.callers && id in s'.callers
    && s'.callers == s.callers[id := s'.callers[id]]
    && Ended(s.callers[id], s'.callers[id], reply)
    && s'.GateOf(s.callers[id].cls) == s.GateOf(s.callers[id].cls).Release()
    && s'.failures == s.failures + if Flying(s.callers[id]) && reply == Rejected then 1 else 0
  }

  /** One move of a holder that is not yet closing. */
  predicate Moved(s: State, s1: State, id: CallerId, reply: Ruling)
    requires id in s.callers
  {
    && id in s1.callers && s1.callers == s.callers[id := s1.callers[id]]
    && var c, c1 := s.callers[id], s1.callers[id];
    && c1.cls == c.cls && c1.origin == c.origin && c1.budget == c.budget
    && Holds(c1.pc) && CallerSound(c1)
    && s1.readGate == s.readGate && s1.writeGate == s.writeGate
    && (!Flying(c) ==> !Flying(c1) && c1.sends == c.sends)
    && (Flying(c) && !Flying(c1) && reply == Retryable ==> c1.sends == c.budget)
    && s1.failures == s.failures + if Flying(c) && !Flying(c1) && reply == Rejected then 1 else 0
  }

  lemma MoveOn(s: State, id: CallerId, reply: Ruling)
    requires id in s.callers && CallerSound(s.callers[id]) && Holds(s.callers[id].pc) && !s.callers[id].pc.Closing?
    ensures var a := NextMove(s, id, reply);
            && Enabled(s, a) && Calm(s, a)
            && Moved(s, Step(s, a), id, reply)
            && Remaining(Step(s, a), id) < Remaining(s, id)
  {
  }

  lemma CloseUp(s: State, id: CallerId, reply: Ruling)
    requires id in s.callers && s.callers[id].pc.Closing?
    ensures Calm(s, Release(id)) && Drained(s, Step(s, Release(id)), id, reply)
  {
  }

  /** Any holder can run to its end on its own, undisturbed, whatever it is answered. */
  lemma {:induction false} FinishHolder(s: State, id: CallerId, reply: Ruling) returns (more: seq<Action>)
    requires id in s.callers && CallerSound(s.callers[id]) && Holds(s.callers[id].pc)
    ensures Undisturbed(s, more) && Drained(s, Exec(s, more), id, reply)
    decreases Remaining(s, id)
  {
    var a := NextMove(s, id, reply);
    if s.callers[id].pc.Closing? {
      more := [a];
      CloseUp(s, id, reply);
      CalmOne(s, a);
    } else {
      MoveOn(s, id, reply);
      CalmOne(s, a);
      var rest := FinishHolder(Step(s, a), id, reply);
      more := [a] + rest;
      CalmConcat(s, [a], rest);
    }
  }

  /** Everybody outside `ids` (and `moved`) is as before; those in `ids` have ended, unrejected. */
  ghost predicate OnlyEnded(s: State, s': State, ids: set<CallerId>, moved: set<CallerId>) {
    && s'.callers.Keys == s.callers.Keys && s'.failures == s.failures
    && (forall id | id in s.callers && id !in ids + moved :: s'.callers[id] == s.callers[id])
    && (forall id | id in s.callers && id in ids :: Ended(s.callers[id], s'.callers[id], Final))
  }

  lemma OneMoreEnded(s: State, s1: State, s2: State, id: CallerId, ids: set<CallerId>)
    requires id in ids && Drained(s, s1, id, Final) && OnlyEnded(s1, s2, ids - {id}, {})
    ensures OnlyEnded(s, s2, ids, {})
  {
    assert s1.callers.Keys == s.callers.Keys;
  }

  lemma OneFewerHolder(s: State, s1: State, id: CallerId, cls: Class)
    requires id in Holders(s, cls) && Drained(s, s1, id, Final)
    ensures Holders(s1, cls) == Holders(s, cls) - {id}
    ensures s1.GateOf(cls).gen == s.GateOf(cls).gen + 1
  {
    MoveHolder(s, s1, id, cls);
  }

  /** All holders of a gate can finish; everybody else stays where they are. */
  lemma {:induction false} DrainGate(s: State, cls: Class) returns (more: seq<Action>)
    requires Sound(s)
    ensures Undisturbed(s, more) && Sound(Exec(s, more))
    ensures var s' := Exec(s, more);
            && Holders(s', cls) == {}
            && s'.GateOf(cls).gen == s.GateOf(cls).gen + |Holders(s, cls)|
            && OnlyEnded(s, s', Holders(s, cls), {})
    decreases |Holders(s, cls)|
  {
    if Holders(s, cls) == {} {
      more := [];
    } else {
      var id :| id in Holders(s, cls);
      var first := FinishHolder(s, id, Final);
      var s1 := Exec(s, first);
      SoundExec(s, first);
      OneFewerHolder(s, s1, id, cls);
      var rest := DrainGate(s1, cls);
      more := first + rest;
      CalmConcat(s, first, rest);
      OneMoreEnded(s, s1, Exec(s1, rest), id, Holders(s, cls));
    }
  }

  // --------------------------------------------------- waiters can be granted

  /** Is this caller still waiting for its slot? */
  predicate AtGate(s: State, id: CallerId) {
    id in s.callers && (s.callers[id].pc.Admitted? || s.callers[id].pc.Blocked?)
  }

  /** A caller at a gate without holders takes a slot, if its channel was closed since. */
  lemma TakeSlot(s: State, id: CallerId)
    requires Sound(s) && AtGate(s, id) && Holders(s, s.callers[id].cls) == {}
    ensures var s' := Step(s, TryGate(id));
            Calm(s, TryGate(id)) && s'.callers == s.callers[id := s.callers[id].(pc := InBucket)] && s'.failures == s.failures
  {
    assert WaiterSound(s, id);
  }

  lemma Entered(s: State, s1: State, s2: State, id: CallerId, ids: set<CallerId>)
    requires id in s1.callers && id !in ids && OnlyEnded(s, s1, ids, {})
    requires s2.callers == s1.callers[id := s1.callers[id].(pc := InBucket)] && s2.failures == s1.failures
    ensures OnlyEnded(s, s2, ids, {id}) && s2.callers[id] == s.callers[id].(pc := InBucket)
  {
    assert s2.callers.Keys == s1.callers.Keys;
  }

  /** Every caller at a gate can get its slot: the holders finish, and it is woken. */
  lemma EnterGate(s: State, id: CallerId) returns (more: seq<Action>)
    requires Sound(s) && AtGate(s, id)
    ensures Undisturbed(s, more) && Sound(Exec(s, more))
    ensures var s' := Exec(s, more);
            && OnlyEnded(s, s', Holders(s, s.callers[id].cls), {id})
            && s'.callers[id] == s.callers[id].(pc := InBucket)
  {
    var cls := s.callers[id].cls;
    var drain := DrainGate(s, cls);
    var s1 := Exec(s, drain);
    assert id !in Holders(s, cls);
    TakeSlot(s1, id);
    SoundStep(s1, TryGate(id));
    Entered(s, s1, Step(s1, TryGate(id)), id, Holders(s, cls));
    CalmOne(s1, TryGate(id));
    more := drain + [TryGate(id)];
    CalmConcat(s, drain, [TryGate(id)]);
  }

  /** A caller that holds a slot but no grant yet can obtain one. */
  lemma {:induction false} ReachGrant(s: State, id: CallerId) returns (more: seq<Action>)
    requires id in s.callers && CallerSound(s.callers[id]) && (s.callers[id].pc.InBucket? || s.callers[id].pc.Asleep?)
    ensures Undisturbed(s, more)
    ensures At(Exec(s, more), id, Granted)
    decreases Remaining(s, id)
  {
    var a := NextMove(s, id, Final);
    MoveOn(s, id, Final);
    CalmOne(s, a);
    if a.TryBucket? {
      more := [a];
    } else {
      var rest := ReachGrant(Step(s, a), id);
      more := [a] + rest;
      CalmConcat(s, [a], rest);
    }
  }

  /** The protocol never deadlocks: from every reachable state, every caller still
      waiting for its slot or its turn has an undisturbed continuation, with nobody
      cancelled and no client call given up, in which it is granted. */
  lemma EveryWaiterCanBeGranted(run: seq<Action>, id: CallerId) returns (more: seq<Action>)
    requires id in Exec(Init(), run).callers
    requires var pc := Exec(Init(), run).callers[id].pc;
             pc.Admitted? || pc.Blocked? || pc.InBucket? || pc.Asleep?
    ensures Undisturbed(Exec(Init(), run), more)
    ensures At(Exec(Init(), run + more), id, Granted)
  {
    var s := Exec(Init(), run);
    SoundReached(run);
    if AtGate(s, id) {
      var enter := EnterGate(s, id);
      var rest := ReachGrant(Exec(s, enter), id);
      more := enter + rest;
      CalmConcat(s, enter, rest);
    } else {
      more := ReachGrant(s, id);
    }
    ExecConcat(Init(), run, more);
  }
}

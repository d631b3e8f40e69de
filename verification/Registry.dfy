/** The process-wide registries: one limiter and one breaker per normalised key. */
module Registry {
  import opened Pacing
  import opened PacingSafety
  import opened PacingRuns

  datatype Key = Key(host: string, accountId: string, overrideAccount: string)

  function LowerChar(c: char): char {
    if 'A' <= c <= 'Z' then c - 'A' + 'a' else c
  }

  function Lower(s: string): string {
    seq(|s|, i requires 0 <= i < |s| => LowerChar(s[i]))
  }

  function Normalize(k: Key): Key {
    k.(host := Lower(k.host))
  }

  /** The same letter of the ASCII alphabet in either case, or the same character. */
  predicate SameLetter(a: char, b: char) {
    || a == b
    || ('A' <= a <= 'Z' && a as int + 32 == b as int)
    || ('A' <= b <= 'Z' && b as int + 32 == a as int)
  }

  /** Normalisation is idempotent and forgets exactly the case of the host. */
  lemma NormalForm(a: Key, b: Key)
    ensures Normalize(Normalize(a)) == Normalize(a)
    ensures Normalize(a) == Normalize(b) <==>
              && a.accountId == b.accountId && a.overrideAccount == b.overrideAccount
              && |a.host| == |b.host|
              && forall i | 0 <= i < |a.host| :: SameLetter(a.host[i], b.host[i])
    ensures forall c | c in Normalize(a).host :: !('A' <= c <= 'Z')
  {
    assert Lower(Lower(a.host)) == Lower(a.host);
    if |a.host| == |b.host| {
      forall i | 0 <= i < |a.host|
        ensures Lower(a.host)[i] == Lower(b.host)[i] <==> SameLetter(a.host[i], b.host[i])
      {
        SameLowered(a.host[i], b.host[i]);
      }
    }
    assert |Lower(a.host)| == |a.host| && |Lower(b.host)| == |b.host|;
  }

  lemma SameLowered(a: char, b: char)
    ensures LowerChar(a) == LowerChar(b) <==> SameLetter(a, b)
  {
  }

  /** Entries are created on first use and never removed. */
  type World = map<Key, State>

  function Account(w: World, k: Key): State {
    if Normalize(k) in w then w[Normalize(k)] else Init()
  }

  datatype Event = Event(key: Key, action: Action)

  function Happen(w: World, e: Event): World {
    w[Normalize(e.key) := Step(Account(w, e.key), e.action)]
  }

  /** The registries after a run of the whole process. */
  function History(w: World, run: seq<Event>): World {
    if run == [] then w else Happen(History(w, run[..|run| - 1]), run[|run| - 1])
  }

  /** The actions of the run whose key names the same account as k. */
  function Project(run: seq<Event>, k: Key): seq<Action> {
    if run == [] then []
    else
      var front := Project(run[..|run| - 1], k);
      if Normalize(run[|run| - 1].key) == Normalize(k) then front + [run[|run| - 1].action] else front
  }

  /** The state of an account is the outcome of exactly the actions taken under its
      key in any spelling, in order: other accounts never touch it, and a fresh
      client never resets it. */
  lemma {:induction false} AccountHistory(run: seq<Event>, k: Key)
    ensures Account(History(map[], run), k) == Exec(Init(), Project(run, k))
  {
    if run != [] {
      var front, e := run[..|run| - 1], run[|run| - 1];
      AccountHistory(front, k);
      if Normalize(e.key) == Normalize(k) {
        ExecSnoc(Init(), Project(front, k), e.action);
      }
    }
  }

  /** All configuration of the process comes from validated client configs. */
  predicate AllByNew(run: seq<Event>) {
    forall e | e in run :: e.action.SetRate? ==>
      e.action.src.Via? && (e.action.rps > 0.0 ==> Representable(e.action.rps))
  }

  lemma {:induction false} ProjectByNew(run: seq<Event>, k: Key)
    requires AllByNew(run)
    ensures ConfiguredByNew(Project(run, k))
  {
    if run != [] {
      ProjectByNew(run[..|run| - 1], k);
      assert run[|run| - 1] in run;
    }
  }

  /** However many clients of however many accounts run at once, no account ever
      receives more than ten grants in a half-open second. */
  lemma EveryAccountTenPerSecond(run: seq<Event>, k: Key, from: int)
    requires AllByNew(run)
    ensures |InWindow(Account(History(map[], run), k).grants, from, SECOND)| <= 10
  {
    AccountHistory(run, k);
    ProjectByNew(run, k);
    TenPerSecond(Project(run, k), from);
  }

  /** Slot conservation, account by account: other accounts and fresh clients never
      touch the counters, and each account sees at most one write at a time. */
  lemma EveryAccountConservesSlots(run: seq<Event>, k: Key)
    ensures var s := Account(History(map[], run), k);
            SlotsCounted(s) && LimitsSound(s) && |Holders(s, Write)| <= 1
  {
    AccountHistory(run, k);
    SlotConservation(Project(run, k));
  }

  /** In no account a waiter is stranded: a holder of the same account is due to wake it. */
  lemma NoAccountStrandsWaiters(run: seq<Event>, k: Key, id: CallerId)
    requires Waiting(Account(History(map[], run), k), id)
    ensures var s := Account(History(map[], run), k);
            var c := s.callers[id];
            && s.GateOf(c.cls).active >= c.pc.seen >= 1
            && exists d :: d in Holders(s, c.cls) && d != id
  {
    AccountHistory(run, k);
    NoWaiterStranded(Project(run, k), id);
  }

  lemma {:induction false} ProjectConcat(a: seq<Event>, b: seq<Event>, k: Key)
    ensures Project(a + b, k) == Project(a, k) + Project(b, k)
  {
    if b == [] {
      assert a + b == a;
    } else {
      var front := b[..|b| - 1];
      ProjectConcat(a, front, k);
      assert (a + b)[..|a + b| - 1] == a + front;
    }
  }

  /** Once an account's circuit is open it stays open for the process: no call that
      starts later under its key, in any spelling and through any client, ever sends. */
  lemma AccountOpenForever(before: seq<Event>, after: seq<Event>, k: Key, id: CallerId)
    requires Account(History(map[], before), k).failures >= 2
    requires id !in Account(History(map[], before), k).callers
    ensures var s := Account(History(map[], before + after), k);
            && s.failures >= 2
            && (id in s.callers && s.callers[id].origin.Via? ==> s.callers[id].sends == 0)
  {
    AccountHistory(before, k);
    AccountHistory(before + after, k);
    ProjectConcat(before, after, k);
    OpenForever(Project(before, k), Project(after, k), id);
  }
}

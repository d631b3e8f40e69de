/** The limiter, the gate and the registry as the objects the program mutates.
    Each mutex section is one method, tied to the transition it takes in Pacing. */
module PaceObjects {
  import opened Prelude
  import opened Pacing
  import opened Registry

  /** A channel that carries nothing: it is only ever closed. The ghost tag names
      the gate it was made for, so the channels of two gates are never the same. */
  class Channel {
    var closed: bool
    ghost const cls: Class

    constructor (ghost cls: Class)
      ensures !closed && this.cls == cls
    {
      this.closed, this.cls := false, cls;
    }
  }

  class GateObject {
    var active: int
    var limit: int
    var isSet: bool
    var wake: Channel
    ghost const cls: Class
    ghost var issued: seq<Channel> // every wake channel there has been; the last one is current

    ghost predicate Valid()
      reads this, issued
    {
      && issued != [] && wake == issued[|issued| - 1] && !wake.closed
      && (forall i | 0 <= i < |issued| - 1 :: issued[i] != wake && issued[i].closed)
      && forall i | 0 <= i < |issued| :: issued[i].cls == cls
    }

    ghost function View(): Gate
      reads this, issued
      requires Valid()
    {
      Gate(active, limit, isSet, |issued| - 1)
    }

    constructor (ghost cls: Class, limit: int)
      ensures Valid() && View() == NewGate(limit) && fresh(issued) && this.cls == cls
    {
      this.active, this.limit, this.isSet, this.cls := 0, limit, false, cls;
      var ch := new Channel(cls);
      this.wake := ch;
      this.issued := [ch];
    }

    /** A wake channel is open exactly when it is the current generation: what a
        blocked caller waits for is precisely the next release. */
    lemma OpenExactlyCurrent(g: nat)
      requires Valid() && g < |issued|
      ensures !issued[g].closed <==> g == View().gen
    {
    }

    /** One pass through the loop of acquire: take a slot, or learn which channel to wait on. */
    method TryAcquire() returns (entered: bool, channel: Channel)
      requires Valid()
      modifies this`active
      ensures Valid() && issued == old(issued)
      ensures entered <==> !old(View()).Full()
      ensures View() == if entered then old(View()).Enter() else old(View())
      ensures channel == issued[View().gen]
    {
      channel := wake;
      entered := active < limit;
      if entered {
        active := active + 1;
      }
    }

    method Release()
      requires Valid()
      modifies this, wake
      ensures Valid() && View() == old(View()).Release()
      ensures fresh(wake) && issued == old(issued) + [wake]
    {
      active := active - 1;
      wake.closed := true;
      wake := new Channel(cls);
      issued := issued + [wake];
    }

    method TightenTo(n: int)
      requires Valid()
      modifies this`limit, this`isSet
      ensures Valid() && issued == old(issued)
      ensures isSet && limit == if old(isSet) then Min(old(limit), n) else n
      ensures View() == old(View()).Tighten(n)
    {
      if !isSet || n < limit {
        limit := n;
        isSet := true;
      }
    }
  }

  class Clock {
    var t: int

    constructor ()
      ensures t == 0
    {
      t := 0;
    }

    /** A timer that never fires early. */
    method Sleep(d: int, extra: nat)
      modifies this
      ensures t == old(t) + Max(d, 0) + extra
    {
      t := t + Max(d, 0) + extra;
    }
  }

  /** The release function handed to a caller; it runs its effect once. */
  class Permit {
    const gate: GateObject
    var spent: bool

    constructor (gate: GateObject)
      ensures this.gate == gate && !spent
    {
      this.gate := gate;
      spent := false;
    }

    method Release()
      requires gate.Valid()
      modifies this, gate, gate.wake
      ensures gate.Valid() && spent
      ensures gate.View() == if old(spent) then old(gate.View()) else old(gate.View()).Release()
      ensures gate.issued == old(gate.issued) || (fresh(gate.wake) && gate.issued == old(gate.issued) + [gate.wake])
    {
      if !spent {
        spent := true;
        gate.Release();
      }
    }
  }

  class Limiter {
    var interval: int
    var rpsSet: bool
    var next: int
    const writes: GateObject
    const reads_: GateObject

    ghost predicate Valid()
      reads this, writes, reads_, writes.issued, reads_.issued
    {
      && writes.cls == Write && reads_.cls == Read && writes.Valid() && reads_.Valid()
    }

    function BucketView(): Bucket
      reads this
    {
      Bucket(next, interval, rpsSet)
    }

    function GateFor(cls: Class): GateObject {
      if cls == Write then writes else reads_
    }

    /** A fresh limiter stands exactly where every run of the protocol starts. */
    constructor ()
      ensures Valid() && BucketView() == Init().bucket
      ensures writes.View() == Init().writeGate && reads_.View() == Init().readGate
    {
      interval, rpsSet, next := IntervalOf(DEFAULT_RPS), false, 0;
      var w := new GateObject(Write, 1);
      var r := new GateObject(Read, DEFAULT_READS);
      writes, reads_ := w, r;
    }

    /** `converted` is what the conversion of the spacing to a duration yields. */
    method Configure(rps: real, converted: int, readConcurrency: int)
      requires Valid()
      requires rps > 0.0 && Representable(rps) ==> converted == IntervalOf(rps)
      modifies this, reads_`limit, reads_`isSet
      ensures Valid()
      ensures next == old(next)
      ensures rps > 0.0 ==> rpsSet && interval == if old(rpsSet) then Max(old(interval), converted) else converted
      ensures rps <= 0.0 ==> rpsSet == old(rpsSet) && interval == old(interval)
      ensures readConcurrency > 0 ==>
                reads_.isSet && reads_.limit == if old(reads_.isSet) then Min(old(reads_.limit), readConcurrency) else readConcurrency
      ensures BucketView() == if rps > 0.0 then old(BucketView()).Configure(converted) else old(BucketView())
      ensures reads_.View() == if readConcurrency > 0 then old(reads_.View()).Tighten(readConcurrency) else old(reads_.View())
      ensures writes.View() == old(writes.View())
    {
      if rps > 0.0 {
        if !rpsSet || converted > interval {
          interval := converted;
          rpsSet := true;
        }
      }
      if readConcurrency > 0 {
        reads_.TightenTo(readConcurrency);
      }
    }

    /** One critical section of waitTurn: a grant, or how long to sleep. */
    method TryTurn(t: int) returns (granted: bool, d: int)
      modifies this`next
      ensures granted <==> old(BucketView()).Ready(t)
      ensures BucketView() == if granted then old(BucketView()).Take(t) else old(BucketView())
      ensures !granted ==> d > 0 && d == next - t
    {
      granted, d := t >= next, 0;
      if granted {
        next := t + interval;
      } else {
        d := next - t;
      }
    }

    /** The whole wait of a caller with no competitor: it is granted no earlier than
        the bucket allows, after at most one sleep, and a cancelled sleep takes nothing. */
    method WaitTurn(clock: Clock, extra: nat, cancelled: bool) returns (ok: bool)
      modifies this`next, clock
      ensures ok <==> old(BucketView()).Ready(old(clock.t)) || !cancelled
      ensures ok ==>
                && clock.t >= Max(old(clock.t), old(next))
                && BucketView() == old(BucketView()).Take(clock.t)
                && (old(BucketView()).Ready(old(clock.t)) ==> clock.t == old(clock.t))
      ensures !ok ==> BucketView() == old(BucketView())
    {
      while true
        invariant BucketView() == old(BucketView())
        invariant clock.t == old(clock.t)
                  || (!old(BucketView()).Ready(old(clock.t)) && !cancelled && clock.t >= next)
        decreases if clock.t < next then 1 else 0
      {
        var granted, d := TryTurn(clock.t);
        if granted {
          return true;
        }
        if cancelled {
          clock.Sleep(0, extra);
          return false;
        }
        clock.Sleep(d, extra);
      }
    }

    /** Does a caller with no competitor get its slot and its turn? */
    ghost predicate Admits(cls: Class, t: int, ended: bool, cancelled: bool)
      reads this, writes, reads_, writes.issued, reads_.issued
      requires Valid()
    {
      !ended && !GateFor(cls).View().Full() && (BucketView().Ready(t) || !cancelled)
    }

    /** Acquire of a caller with no competitor. On any failure nothing is held; on
        success the permit is for exactly the slot that was taken. */
    method Acquire(cls: Class, clock: Clock, ended: bool, extra: nat, cancelled: bool) returns (permit: Permit?)
      requires Valid()
      modifies this`next, clock, GateFor(cls), GateFor(cls).wake
      ensures Valid()
      ensures permit != null <==> old(Admits(cls, clock.t, ended, cancelled))
      ensures permit != null ==>
                && fresh(permit) && !permit.spent && permit.gate == GateFor(cls) && permit.gate.cls == cls
                && GateFor(cls).View() == old(GateFor(cls).View()).Enter()
                && GateFor(cls).issued == old(GateFor(cls).issued)
                && BucketView() == old(BucketView()).Take(clock.t)
      ensures permit == null ==>
                && (GateFor(cls).View() == if ended || old(GateFor(cls).View()).Full()
                                           then old(GateFor(cls).View())
                                           else old(GateFor(cls).View()).Enter().Release())
                && BucketView() == old(BucketView())
    {
      if ended {
        return null;
      }
      var gate := GateFor(cls);
      var entered, _ := gate.TryAcquire();
      if !entered {
        return null; // nobody else runs, so only the end of the context leaves the select
      }
      var turn := WaitTurn(clock, extra, cancelled);
      if !turn {
        gate.Release();
        return null;
      }
      permit := new Permit(gate);
    }

    /** Giving back a permit of this limiter leaves the other gate and the bucket alone. */
    method GiveBack(cls: Class, permit: Permit)
      requires Valid() && permit.gate == GateFor(cls) && !permit.spent
      modifies permit, GateFor(cls), GateFor(cls).wake
      ensures Valid() && permit.spent
      ensures GateFor(cls).View() == old(GateFor(cls).View()).Release()
      ensures BucketView() == old(BucketView())
    {
      permit.Release();
    }
  }

  class Breaker {
    var failures: nat

    constructor ()
      ensures failures == Init().failures
    {
      failures := 0;
    }

    method Allow() returns (open: bool)
      ensures open <==> failures >= 2
    {
      open := failures >= BREAKER_THRESHOLD;
    }

    method RecordAuthFailure()
      modifies this
      ensures failures == old(failures) + 1
    {
      failures := failures + 1;
    }
  }

  /** The registry of limiters: get or create, never replace, never remove. */
  class Limiters {
    var entries: map<Key, Limiter>

    constructor ()
      ensures entries == map[]
    {
      entries := map[];
    }

    method ForAccount(k: Key) returns (l: Limiter)
      modifies this
      ensures Normalize(k) in entries && l == entries[Normalize(k)]
      ensures Normalize(k) in old(entries) ==> entries == old(entries)
      ensures Normalize(k) !in old(entries) ==>
                && entries == old(entries)[Normalize(k) := l]
                && fresh(l) && l.Valid() && l.BucketView() == Init().bucket
                && l.reads_.View() == Init().readGate && l.writes.View() == Init().writeGate
    {
      var key := Normalize(k);
      if key in entries {
        return entries[key];
      }
      l := new Limiter();
      entries := entries[key := l];
    }
  }
}

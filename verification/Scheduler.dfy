/** The scheduler object (internal/sched/sched.go): each method is one critical section. */
module Scheduler {
  import opened Line
  import opened SchedSpec

  datatype Arrival = Ended | Granted | Queued

  class Scheduler {
    const limit: int
    var inUse: int
    var ring: seq<Job>
    var waiters: map<Job, seq<Caller>>
    var waiting: int
    // The waiters whose channel holds a token.
    var tokens: set<Caller>
    // The calls holding a slot whose release has not run: each release runs once.
    var held: set<Caller>
    // Every grant so far.
    ghost var log: seq<Grant>

    ghost function Abs(): State
      reads this
    {
      State(limit, inUse, Line(ring, waiters, waiting), tokens, held, log)
    }

    ghost predicate Valid()
      reads this
    {
      Inv(Abs())
    }

    constructor (n: int)
      ensures Valid() && Abs() == Initial(n)
    {
      limit := if n < 1 then 1 else n;
      inUse, ring, waiters, waiting := 0, [], map[], 0;
      tokens, held, log := {}, {}, [];
    }

    /** Acquire up to its select. A caller that is queued then collects its token or gives up. */
    method Acquire(job: Job, c: Caller, ended: bool) returns (r: Arrival)
      requires Valid() && Enabled(Abs(), Arrive(job, c, ended))
      modifies this
      ensures Valid() && Abs() == Next(old(Abs()), Arrive(job, c, ended))
      ensures r.Ended? <==> ended
      ensures r.Granted? <==> !ended && old(inUse) < limit && old(ring) == []
      ensures r.Granted? <==> c in held
      ensures r.Queued? <==> Waits(Abs().line, job, c)
    {
      StepKeeps(Abs(), Arrive(job, c, ended));
      ArriveOutcome(Abs(), job, c, ended);
      WaitingSome(Abs().line);
      if ended {
        return Ended;
      }
      if inUse < limit && waiting == 0 {
        inUse := inUse + 1;
        held, log := held + {c}, log + [Idle(c)];
        return Granted;
      }
      EnqueueLocked(job, c);
      return Queued;
    }

    method EnqueueLocked(job: Job, c: Caller)
      modifies this
      ensures Abs() == old(Abs()).(line := Enqueue(old(Abs()).line, job, c))
    {
      var q := if job in waiters then waiters[job] else [];
      if |q| == 0 {
        ring := ring + [job];
      }
      waiters := waiters[job := q + [c]];
      waiting := waiting + 1;
    }

    /** The select took the token: the caller holds its slot until it releases it. */
    method Collect(c: Caller)
      requires Valid() && c in tokens
      modifies this
      ensures Valid() && Abs() == Next(old(Abs()), Step.Collect(c))
      ensures c in held
    {
      StepKeeps(Abs(), Step.Collect(c));
      tokens := tokens - {c};
      held := held + {c};
    }

    /** The select saw ctx end: under the lock the caller is either granted or still queued. */
    method GiveUp(job: Job, c: Caller)
      requires Valid() && Enabled(Abs(), Step.GiveUp(job, c))
      modifies this
      ensures Valid() && Abs() == Next(old(Abs()), Step.GiveUp(job, c))
      ensures !Busy(Abs(), c)
    {
      StepKeeps(Abs(), Step.GiveUp(job, c));
      GiveUpOnce(Abs(), job, c);
      if c in tokens {
        tokens := tokens - {c};
        FreeLocked();
      } else {
        DequeueLocked(job, c);
      }
    }

    /** A hedge's slot: one that is free while nobody waits, or none. */
    method TryAcquireIdle(c: Caller) returns (ok: bool)
      requires Valid() && Enabled(Abs(), TryIdle(c))
      modifies this
      ensures Valid() && Abs() == Next(old(Abs()), TryIdle(c))
      ensures ok <==> old(inUse) < limit && old(ring) == []
      ensures ok ==> inUse == old(inUse) + 1 && held == old(held) + {c} && c !in old(held)
      ensures !ok ==> inUse == old(inUse) && held == old(held)
      ensures ring == old(ring) && waiters == old(waiters) && waiting == old(waiting) && tokens == old(tokens)
    {
      WaitingSome(Abs().line);
      StepKeeps(Abs(), TryIdle(c));
      if inUse >= limit || waiting > 0 {
        return false;
      }
      inUse := inUse + 1;
      held, log := held + {c}, log + [Idle(c)];
      return true;
    }

    /** One granted slot's release, which may run again without effect. */
    method Release(c: Caller)
      requires Valid()
      modifies this
      ensures Valid() && Abs() == Next(old(Abs()), Step.Release(c))
      ensures held == old(held) - {c}
      ensures c !in old(held) ==> inUse == old(inUse) && tokens == old(tokens) && ring == old(ring)
      ensures c in old(held) && old(ring) == [] ==> inUse == old(inUse) - 1 && tokens == old(tokens)
      ensures c in old(held) && old(ring) != [] ==>
                && inUse == old(inUse) && old(ring)[0] in old(waiters) && old(waiters)[old(ring)[0]] != []
                && tokens == old(tokens) + {old(waiters)[old(ring)[0]][0]}
    {
      StepKeeps(Abs(), Step.Release(c));
      ReleaseHands(Abs(), c);
      if c in held {
        held := held - {c};
        FreeLocked();
      }
    }

    method FreeLocked()
      requires Ok(Abs().line)
      modifies this
      ensures Abs() == Free(old(Abs()))
    {
      if inUse > 0 {
        inUse := inUse - 1;
      }
      GrantLocked();
    }

    /** Hands free slots to waiting callers, one per job in turn. */
    method GrantLocked()
      requires Ok(Abs().line)
      modifies this
      ensures Abs() == GrantAll(old(Abs()))
    {
      while inUse < limit && |ring| > 0
        invariant Ok(Abs().line)
        invariant GrantAll(Abs()) == GrantAll(old(Abs()))
        decreases waiting
      {
        GrantStep(Abs());
        GrantTurn();
      }
    }

    /** One round of the grant loop: the waiter leaves, its token is buffered, the slot is counted. */
    method GrantTurn()
      requires ring != [] && ring[0] in waiters && waiters[ring[0]] != []
      modifies this
      ensures Abs() == GrantOne(old(Abs()))
    {
      var job := ring[0];
      var q := waiters[job];
      var w := q[0];
      q := q[1..];
      waiting := waiting - 1;
      tokens := tokens + {w};
      inUse := inUse + 1;
      log := log + [Turn(job, w)];
      if |q| == 0 {
        waiters := waiters - {job};
        ring := ring[1..];
      } else {
        waiters := waiters[job := q];
        ring := ring[1..] + [job];
      }
    }

    method DequeueLocked(job: Job, c: Caller)
      modifies this
      ensures Abs() == old(Abs()).(line := Dequeue(old(Abs()).line, job, c))
    {
      var q := if job in waiters then waiters[job] else [];
      var i := IndexOf(q, c);
      if i < 0 {
        return;
      }
      waiting := waiting - 1;
      if |q| == 1 {
        waiters := waiters - {job};
        ring := Without(ring, job);
        return;
      }
      waiters := waiters[job := Drop(q, i)];
    }
  }
}

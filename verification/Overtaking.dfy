/** Bounded overtaking (sched.go:36-42): how many turns other jobs get while a caller waits. */
module Overtaking {
  import opened Lists
  import opened Line
  import opened SchedSpec

  /** How often job was granted a turn in log. */
  function Turns(log: seq<Grant>, job: Job): nat {
    if log == [] then 0
    else Turns(log[..|log| - 1], job) + if log[|log| - 1].Turn? && log[|log| - 1].job == job then 1 else 0
  }

  ghost predicate AheadInRing(ring: seq<Job>, k: Job, job: Job) {
    exists i, j :: 0 <= i < j < |ring| && ring[i] == k && ring[j] == job
  }

  /** The turns job k can still get before c, which waits in job's queue, gets its own. */
  ghost function Credit(l: Line, job: Job, c: Caller, k: Job): int
  {
    IndexOf(Queue(l, job), c) + if k != job && AheadInRing(l.ring, k, job) then 1 else 0
  }

  /** c waits in job's queue in every state of the run. */
  ghost predicate WaitsThrough(s: State, steps: seq<Step>, job: Job, c: Caller)
    requires Inv(s) && Legal(s, steps)
    decreases |steps|
  {
    && Waits(s.line, job, c)
    && (steps == [] || (StepKeeps(s, steps[0]); WaitsThrough(Next(s, steps[0]), steps[1..], job, c)))
  }

  lemma RingIndex(ring: seq<Job>, job: Job) returns (j: nat)
    requires job in ring
    ensures j < |ring| && ring[j] == job
  {
    j :| 0 <= j < |ring| && ring[j] == job;
  }

  /** The next turn goes to k while c keeps waiting: k's credit pays for it. */
  lemma PopPays(l: Line, job: Job, c: Caller, k: Job)
    requires Ok(l) && l.ring != [] && Queue(l, l.ring[0]) != [] && Waits(l, job, c) && Waits(Pop(l), job, c)
    ensures Credit(Pop(l), job, c, k) + (if l.ring[0] == k then 1 else 0) <= Credit(l, job, c, k)
  {
    assert job in l.ring;
    if l.ring[0] == job {
      var q := Queue(l, job);
      assert Queue(Pop(l), job) == q[1..];
      HeadGone(q, c);
    } else {
      assert Queue(Pop(l), job) == Queue(l, job);
      TurnPassed(l.ring, Pop(l).ring, job, k);
    }
  }

  /** When another job's turn passes, k is no longer ahead of job if it was k's, nor newly ahead. */
  lemma TurnPassed(r: seq<Job>, t: seq<Job>, job: Job, k: Job)
    requires Distinct(r) && job in r && r[0] != job
    requires t == r[1..] || t == r[1..] + [r[0]]
    ensures r[0] == k ==> AheadInRing(r, k, job) && !AheadInRing(t, k, job)
    ensures AheadInRing(t, k, job) ==> AheadInRing(r, k, job)
  {
    var j := RingIndex(r, job);
    if AheadInRing(t, k, job) {
      var a, b :| 0 <= a < b < |t| && t[a] == k && t[b] == job;
      assert r[a + 1] == k && r[b + 1] == job;
    }
  }

  lemma HeadGone(q: seq<Caller>, c: Caller)
    requires Distinct(q) && q != [] && c in q[1..]
    ensures IndexOf(q, c) == IndexOf(q[1..], c) + 1
  {}

  lemma EnqueuePays(l: Line, job: Job, c: Caller, k: Job, other: Job, d: Caller)
    requires Ok(l) && Waits(l, job, c)
    ensures Credit(Enqueue(l, other, d), job, c, k) <= Credit(l, job, c, k)
  {
    var t := Enqueue(l, other, d);
    var q := Queue(l, job);
    assert Queue(t, job) == if other == job then q + [d] else q;
    IndexPrefix(q, c, [d]);
    assert job in l.ring;
    assert q != [];
    if AheadInRing(t.ring, k, job) && k != job {
      var a, b :| 0 <= a < b < |t.ring| && t.ring[a] == k && t.ring[b] == job;
      var j := RingIndex(l.ring, job);
      assert b < |l.ring| by {
        if b == |l.ring| { assert other == job; }
      }
      assert l.ring[a] == k && l.ring[b] == job;
    }
  }

  lemma {:induction false} IndexPrefix(q: seq<Caller>, c: Caller, more: seq<Caller>)
    requires c in q
    ensures IndexOf(q + more, c) == IndexOf(q, c)
  {
    if q[0] != c {
      assert (q + more)[1..] == q[1..] + more;
      IndexPrefix(q[1..], c, more);
    }
  }

  lemma {:induction false} IndexDropped(q: seq<Caller>, c: Caller, i: nat)
    requires Distinct(q) && c in q && i < |q| && q[i] != c
    ensures c in Drop(q, i)
    ensures IndexOf(Drop(q, i), c) == IndexOf(q, c) - (if i < IndexOf(q, c) then 1 else 0)
  {
    DropMembers(q, i);
    var r := Drop(q, i);
    if i == 0 {
      assert r == q[1..];
    } else if q[0] == c {
      assert r[0] == c;
    } else {
      assert r == [q[0]] + Drop(q[1..], i - 1);
      IndexDropped(q[1..], c, i - 1);
      assert r[1..] == Drop(q[1..], i - 1);
    }
  }

  lemma DequeuePays(l: Line, job: Job, c: Caller, k: Job, other: Job, d: Caller)
    requires Ok(l) && Waits(l, job, c) && Waits(l, other, d) && d != c
    ensures Credit(Dequeue(l, other, d), job, c, k) <= Credit(l, job, c, k)
  {
    var t := Dequeue(l, other, d);
    var q := Queue(l, other);
    var i := IndexOf(q, d);
    if other == job {
      IndexDropped(q, c, i);
      assert |q| > 1;
    }
    if |q| == 1 {
      var r := RingIndex(l.ring, other);
      WithoutDrops(l.ring, other, r);
      RingDropped(l.ring, r, job, k);
    }
  }

  lemma RingDropped(ring: seq<Job>, r: nat, job: Job, k: Job)
    requires r < |ring|
    ensures AheadInRing(Drop(ring, r), k, job) ==> AheadInRing(ring, k, job)
  {
    var t := Drop(ring, r);
    if AheadInRing(t, k, job) {
      var a, b :| 0 <= a < b < |t| && t[a] == k && t[b] == job;
      assert ring[if a < r then a else a + 1] == k;
      assert ring[if b < r then b else b + 1] == job;
    }
  }

  lemma StepPays(s: State, step: Step, job: Job, c: Caller, k: Job)
    requires Inv(s) && Enabled(s, step) && Inv(Next(s, step))
    requires Waits(s.line, job, c) && Waits(Next(s, step).line, job, c)
    ensures var t := Next(s, step);
            && s.log <= t.log
            && (forall g :: g in t.log[|s.log|..] ==> g.Turn?)
            && Turns(t.log, k) + Credit(t.line, job, c, k) <= Turns(s.log, k) + Credit(s.line, job, c, k)
  {
    var t := Next(s, step);
    StepGrants(s, step);
    WaitingSome(s.line);
    assert job in s.line.ring;
    if t.log != s.log {
      assert t.log[..|t.log| - 1] == s.log;
      PopPays(s.line, job, c, k);
    } else if t.line != s.line {
      if step.Arrive? {
        EnqueuePays(s.line, job, c, k, step.job, step.caller);
      } else {
        DequeueKeeps(s.line, step.job, step.caller);
        DequeuePays(s.line, job, c, k, step.job, step.caller);
      }
    }
  }

  lemma LogsJoin(a: seq<Grant>, b: seq<Grant>, c: seq<Grant>)
    requires a <= b <= c
    ensures a <= c && c[|a|..] == b[|a|..] + c[|b|..]
  {}

  /** Over any run through which c waits, turns and remaining credit never grow together. */
  lemma {:induction false} RunPays(s: State, steps: seq<Step>, job: Job, c: Caller, k: Job)
    requires Inv(s) && Legal(s, steps) && WaitsThrough(s, steps, job, c)
    ensures var t := Run(s, steps);
            && s.log <= t.log
            && Waits(t.line, job, c)
            && (forall g :: g in t.log[|s.log|..] ==> g.Turn?)
            && Turns(t.log, k) + Credit(t.line, job, c, k) <= Turns(s.log, k) + Credit(s.line, job, c, k)
    decreases |steps|
  {
    if steps != [] {
      StepKeeps(s, steps[0]);
      var u := Next(s, steps[0]);
      StepPays(s, steps[0], job, c, k);
      RunPays(u, steps[1..], job, c, k);
      LogsJoin(s.log, u.log, Run(u, steps[1..]).log);
    }
  }

  /**
   * A caller that starts waiting with q callers of its job ahead of it sees each other job granted
   * at most q + 1 slots, and its own at most q, for as long as it waits, whatever else happens.
   * No newcomer and no hedge gets a slot in that time.
   */
  lemma BoundedOvertaking(s: State, job: Job, c: Caller, steps: seq<Step>, k: Job)
    requires Inv(s) && Enabled(s, Arrive(job, c, false)) && !Open(s)
    requires Inv(Next(s, Arrive(job, c, false)))
    requires Legal(Next(s, Arrive(job, c, false)), steps)
    requires WaitsThrough(Next(s, Arrive(job, c, false)), steps, job, c)
    ensures var q := |Queue(s.line, job)|;
            var t := Run(Next(s, Arrive(job, c, false)), steps);
            && s.log <= t.log
            && Turns(t.log, k) - Turns(s.log, k) <= (if k == job then q else q + 1)
            && forall g :: g in t.log[|s.log|..] ==> g.Turn?
  {
    var u := Next(s, Arrive(job, c, false));
    RunPays(u, steps, job, c, k);
    assert !Waits(s.line, job, c);
    LastIndex(Queue(s.line, job), c);
  }

  lemma {:induction false} LastIndex(q: seq<Caller>, c: Caller)
    requires c !in q
    ensures IndexOf(q + [c], c) == |q|
  {
    if q != [] {
      assert (q + [c])[1..] == q[1..] + [c];
      LastIndex(q[1..], c);
    }
  }

  function Others(log: seq<Grant>, k: Job): seq<Grant> {
    if log == [] then []
    else
      var g := log[|log| - 1];
      Others(log[..|log| - 1], k) + if g.Turn? && g.job == k then [] else [g]
  }

  lemma {:induction false} OthersCount(log: seq<Grant>, k: Job)
    ensures |Others(log, k)| == |log| - Turns(log, k)
    ensures forall j :: j != k ==> Turns(Others(log, k), j) == Turns(log, j)
    ensures forall g :: g in Others(log, k) ==> g in log && !(g.Turn? && g.job == k)
  {
    if log != [] {
      var n := |log| - 1;
      OthersCount(log[..n], k);
      var r := Others(log[..n], k);
      assert (r + [log[n]])[..|r|] == r;
      forall j | j != k ensures Turns(Others(log, k), j) == Turns(log, j) {
        assert Others(log, k) == if log[n].Turn? && log[n].job == k then r else r + [log[n]];
      }
    }
  }

  /** Turns of a set of jobs, each at most b of them, are at most b for each job. */
  lemma {:induction false} TurnsBound(log: seq<Grant>, jobs: set<Job>, b: nat)
    requires forall g :: g in log ==> g.Turn? && g.job in jobs
    requires forall k :: k in jobs ==> Turns(log, k) <= b
    ensures |log| <= |jobs| * b
    decreases jobs
  {
    assert log != [] ==> log[0].job in jobs;
    if jobs != {} {
      var k :| k in jobs;
      var rest := Others(log, k);
      OthersCount(log, k);
      forall j | j in jobs - {k} ensures Turns(rest, j) <= b { assert Turns(log, j) <= b; }
      TurnsBound(rest, jobs - {k}, b);
      OneMore(|jobs - {k}|, b);
    }
  }

  lemma OneMore(n: nat, b: nat)
    ensures (n + 1) * b == n * b + b
  {}

  lemma {:induction false} TurnsSplit(a: seq<Grant>, b: seq<Grant>, k: Job)
    ensures Turns(a + b, k) == Turns(a, k) + Turns(b, k)
  {
    if b == [] {
      assert a + b == a;
    } else {
      var n := |b| - 1;
      TurnsSplit(a, b[..n], k);
      assert (a + b)[..|a + b| - 1] == a + b[..n];
    }
  }

  /**
   * No caller starves: while it waits behind q callers of its own job, and the other jobs granted
   * slots are n in all, at most (q + 1) * (n + 1) slots are granted, so it has one after that many.
   */
  lemma NoStarvation(s: State, job: Job, c: Caller, steps: seq<Step>, jobs: set<Job>)
    requires Inv(s) && Enabled(s, Arrive(job, c, false)) && !Open(s)
    requires Inv(Next(s, Arrive(job, c, false)))
    requires Legal(Next(s, Arrive(job, c, false)), steps)
    requires WaitsThrough(Next(s, Arrive(job, c, false)), steps, job, c)
    requires var t := Run(Next(s, Arrive(job, c, false)), steps);
             forall i :: |s.log| <= i < |t.log| && t.log[i].Turn? ==> t.log[i].job == job || t.log[i].job in jobs
    ensures var t := Run(Next(s, Arrive(job, c, false)), steps);
            |t.log| - |s.log| <= (|Queue(s.line, job)| + 1) * (|jobs| + 1)
  {
    var t := Run(Next(s, Arrive(job, c, false)), steps);
    BoundedOvertaking(s, job, c, steps, job);
    forall k ensures Turns(t.log, k) - Turns(s.log, k) <= |Queue(s.line, job)| + 1 {
      BoundedOvertaking(s, job, c, steps, k);
    }
    forall g | g in t.log[|s.log|..] ensures g.Turn? && g.job in jobs + {job} {
      var i :| 0 <= i < |t.log[|s.log|..]| && t.log[|s.log|..][i] == g;
      assert t.log[|s.log| + i] == g;
    }
    GrantsBound(s.log, t.log, job, jobs, |Queue(s.line, job)| + 1);
  }

  lemma GrantsBound(a: seq<Grant>, b: seq<Grant>, job: Job, jobs: set<Job>, bound: nat)
    requires a <= b
    requires forall g :: g in b[|a|..] ==> g.Turn? && g.job in jobs + {job}
    requires forall k :: Turns(b, k) - Turns(a, k) <= bound
    ensures |b| - |a| <= bound * (|jobs| + 1)
  {
    var more := b[|a|..];
    assert a + more == b;
    forall k ensures Turns(more, k) <= bound {
      TurnsSplit(a, more, k);
    }
    TurnsBound(more, jobs + {job}, bound);
    AtMost(|jobs + {job}|, |jobs| + 1, bound);
  }

  lemma AtMost(a: nat, b: nat, c: nat)
    requires a <= b
    ensures a * c <= b * c == c * b
  {}
}

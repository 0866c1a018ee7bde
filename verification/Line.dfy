/** The scheduler's line of waiting callers: per-job queues and the ring of turns (sched.go). */
module Line {
  import opened Lists

  type Job = string

  /** One Acquire or TryAcquireIdle call. */
  type Caller = nat

  /** ring[0] has the next turn; waiters holds each ring job's callers in arrival order. */
  datatype Line = Line(ring: seq<Job>, waiters: map<Job, seq<Caller>>, waiting: int)

  const EMPTY := Line([], map[], 0)

  function Queue(l: Line, job: Job): seq<Caller> {
    if job in l.waiters then l.waiters[job] else []
  }

  ghost predicate Waits(l: Line, job: Job, c: Caller) { c in Queue(l, job) }

  function Total(ring: seq<Job>, waiters: map<Job, seq<Caller>>): nat {
    if ring == [] then 0
    else (if ring[0] in waiters then |waiters[ring[0]]| else 0) + Total(ring[1..], waiters)
  }

  ghost predicate RingOk(l: Line) {
    && Distinct(l.ring)
    && (forall job :: job in l.ring <==> job in l.waiters)
  }

  ghost predicate QueueOk(l: Line) {
    && (forall job :: job in l.waiters ==> l.waiters[job] != [] && Distinct(l.waiters[job]))
    && OnePlace(l)
  }

  ghost predicate OnePlace(l: Line) {
    forall a, b, c :: Waits(l, a, c) && Waits(l, b, c) ==> a == b
  }

  /** The ring lists each waiting job once, each caller waits in one place, and all are counted. */
  ghost predicate Ok(l: Line) {
    RingOk(l) && QueueOk(l) && l.waiting == Total(l.ring, l.waiters)
  }

  function Head(l: Line): Caller
    requires l.ring != [] && Queue(l, l.ring[0]) != []
  {
    Queue(l, l.ring[0])[0]
  }

  /** The caller whose turn it is leaves; its job goes to the back, or leaves with its last caller. */
  function Pop(l: Line): Line
    requires l.ring != [] && Queue(l, l.ring[0]) != []
  {
    var job := l.ring[0];
    var rest := Queue(l, job)[1..];
    if rest == [] then Line(l.ring[1..], l.waiters - {job}, l.waiting - 1)
    else Line(l.ring[1..] + [job], l.waiters[job := rest], l.waiting - 1)
  }

  function Enqueue(l: Line, job: Job, c: Caller): Line {
    Line(if Queue(l, job) == [] then l.ring + [job] else l.ring,
         l.waiters[job := Queue(l, job) + [c]],
         l.waiting + 1)
  }

  function Without<T(==)>(s: seq<T>, x: T): seq<T> {
    if s == [] then [] else if s[0] == x then Without(s[1..], x) else [s[0]] + Without(s[1..], x)
  }

  function IndexOf<T(==)>(q: seq<T>, c: T): (i: int)
    ensures -1 <= i < |q|
    ensures i >= 0 ==> q[i] == c && c !in q[..i]
    ensures i < 0 ==> c !in q
  {
    if q == [] then -1
    else if q[0] == c then 0
    else
      var i := IndexOf(q[1..], c);
      assert q == [q[0]] + q[1..];
      if i < 0 then -1 else
      assert q[..i + 1] == [q[0]] + q[1..][..i];
      i + 1
  }

  function Drop<T>(q: seq<T>, i: nat): seq<T>
    requires i < |q|
  {
    q[..i] + q[i + 1..]
  }

  /** A caller that gave up leaves; its job keeps its place unless that was its last caller. */
  function Dequeue(l: Line, job: Job, c: Caller): Line {
    var q := Queue(l, job);
    var i := IndexOf(q, c);
    if i < 0 then l
    else if |q| == 1 then Line(Without(l.ring, job), l.waiters - {job}, l.waiting - 1)
    else Line(l.ring, l.waiters[job := Drop(q, i)], l.waiting - 1)
  }

  lemma {:induction false} TotalFrame(ring: seq<Job>, a: map<Job, seq<Caller>>, b: map<Job, seq<Caller>>)
    requires forall job :: job in ring ==> (job in a <==> job in b) && (job in a ==> |a[job]| == |b[job]|)
    ensures Total(ring, a) == Total(ring, b)
  {
    if ring != [] { TotalFrame(ring[1..], a, b); }
  }

  lemma {:induction false} TotalConcat(x: seq<Job>, y: seq<Job>, w: map<Job, seq<Caller>>)
    ensures Total(x + y, w) == Total(x, w) + Total(y, w)
  {
    if x == [] {
      assert x + y == y;
    } else {
      TotalConcat(x[1..], y, w);
      assert (x + y)[1..] == x[1..] + y;
    }
  }

  /** One job's queue changes length: so does the total. */
  lemma TotalChange(ring: seq<Job>, i: nat, a: map<Job, seq<Caller>>, b: map<Job, seq<Caller>>)
    requires Distinct(ring) && i < |ring| && ring[i] in a && ring[i] in b
    requires forall job :: job in ring && job != ring[i] ==>
             (job in a <==> job in b) && (job in a ==> |a[job]| == |b[job]|)
    ensures Total(ring, b) - |b[ring[i]]| == Total(ring, a) - |a[ring[i]]|
    ensures Total(Drop(ring, i), b) == Total(ring, b) - |b[ring[i]]|
  {
    var x, y := ring[..i], ring[i + 1..];
    assert ring == x + ([ring[i]] + y);
    TotalConcat(x, [ring[i]] + y, a);
    TotalConcat([ring[i]], y, a);
    TotalConcat(x, [ring[i]] + y, b);
    TotalConcat([ring[i]], y, b);
    TotalConcat(x, y, b);
    assert ring[i] !in x && ring[i] !in y;
    TotalFrame(x, a, b);
    TotalFrame(y, a, b);
  }

  lemma {:induction false} TotalSize(ring: seq<Job>, w: map<Job, seq<Caller>>)
    requires forall job :: job in ring ==> job in w && w[job] != []
    ensures |ring| <= Total(ring, w)
  {
    if ring != [] { TotalSize(ring[1..], w); }
  }

  lemma {:induction false} WithoutDrops<T>(s: seq<T>, x: T, i: nat)
    requires Distinct(s) && i < |s| && s[i] == x
    ensures Without(s, x) == Drop(s, i)
  {
    assert s == [s[0]] + s[1..];
    if i == 0 {
      WithoutAbsent(s[1..], x);
    } else {
      WithoutDrops(s[1..], x, i - 1);
      assert Drop(s, i) == [s[0]] + Drop(s[1..], i - 1);
    }
  }

  lemma {:induction false} WithoutAbsent<T>(s: seq<T>, x: T)
    requires x !in s
    ensures Without(s, x) == s
  {
    if s != [] {
      WithoutAbsent(s[1..], x);
      assert s == [s[0]] + s[1..];
    }
  }

  lemma DropMembers<T>(q: seq<T>, i: nat)
    requires Distinct(q) && i < |q|
    ensures Distinct(Drop(q, i))
    ensures forall x :: x in Drop(q, i) <==> x in q && x != q[i]
  {
    forall x | x in q && x != q[i] ensures x in Drop(q, i) {
      var j :| 0 <= j < |q| && q[j] == x;
      if j < i { assert Drop(q, i)[j] == x; } else { assert Drop(q, i)[j - 1] == x; }
    }
  }

  /** Nobody waits exactly when the ring is empty. */
  lemma WaitingSome(l: Line)
    requires Ok(l)
    ensures l.waiting >= 0
    ensures l.waiting > 0 <==> l.ring != []
    ensures l.ring != [] ==> Queue(l, l.ring[0]) != []
  {
    TotalSize(l.ring, l.waiters);
  }

  lemma PopKeeps(l: Line)
    requires Ok(l) && l.ring != []
    ensures Queue(l, l.ring[0]) != [] && Ok(Pop(l)) && Pop(l).waiting == l.waiting - 1
    ensures forall a, c :: Waits(Pop(l), a, c) <==> Waits(l, a, c) && c != Head(l)
    ensures Waits(l, l.ring[0], Head(l))
  {
    PopMembers(l);
    PopRing(l);
    PopCount(l);
    var t := Pop(l);
    forall a, b, c | Waits(t, a, c) && Waits(t, b, c) ensures a == b {
      assert Waits(l, a, c) && Waits(l, b, c);
    }
  }

  lemma PopRing(l: Line)
    requires RingOk(l) && l.ring != [] && Queue(l, l.ring[0]) != []
    ensures RingOk(Pop(l))
  {
    hide *;
    var job, others, rest := l.ring[0], l.ring[1..], Queue(l, l.ring[0])[1..];
    RingParts(l);
    PopIs(l);
    if rest == [] {
      RingLeft(others, job, l.waiters, l.waiting - 1);
    } else {
      Rotated(others, job);
      RingTurned(others, job, l.waiters, rest, l.waiting - 1);
    }
  }

  /** The job whose turn it is, and the others. */
  lemma RingParts(l: Line)
    requires RingOk(l) && l.ring != []
    ensures var job, others := l.ring[0], l.ring[1..];
            && Distinct(others) && job !in others && job in l.waiters
            && forall a :: a in l.waiters <==> a == job || a in others
  {
    var job, others := l.ring[0], l.ring[1..];
    DropMembers(l.ring, 0);
    assert Drop(l.ring, 0) == others;
    assert l.ring == [job] + others;
    assert job in l.ring;
  }

  lemma PopIs(l: Line)
    requires l.ring != [] && Queue(l, l.ring[0]) != []
    ensures var job, rest := l.ring[0], Queue(l, l.ring[0])[1..];
            Pop(l) == if rest == [] then Line(l.ring[1..], l.waiters - {job}, l.waiting - 1)
                      else Line(l.ring[1..] + [job], l.waiters[job := rest], l.waiting - 1)
  {}

  lemma RingLeft(others: seq<Job>, job: Job, w: map<Job, seq<Caller>>, waiting: int)
    requires Distinct(others) && job !in others && forall a :: a in w <==> a == job || a in others
    ensures RingOk(Line(others, w - {job}, waiting))
  {}

  lemma RingTurned(others: seq<Job>, job: Job, w: map<Job, seq<Caller>>, rest: seq<Caller>, waiting: int)
    requires Distinct(others + [job]) && forall a :: a in w <==> a == job || a in others
    ensures RingOk(Line(others + [job], w[job := rest], waiting))
  {
    forall a ensures a in others + [job] <==> a in w[job := rest] {
      assert a in others + [job] <==> a in others || a == job;
    }
  }

  lemma Rotated<T>(s: seq<T>, x: T)
    requires Distinct(s) && x !in s
    ensures Distinct(s + [x])
  {}

  lemma PopCount(l: Line)
    requires RingOk(l) && l.ring != [] && Queue(l, l.ring[0]) != []
    ensures Total(Pop(l).ring, Pop(l).waiters) == Total(l.ring, l.waiters) - 1
  {
    var job := l.ring[0];
    assert l.ring == [job] + l.ring[1..];
    PopTotal(job, l.ring[1..], l.waiters, Queue(l, job));
  }

  lemma PopTotal(job: Job, others: seq<Job>, w: map<Job, seq<Caller>>, q: seq<Caller>)
    requires job in w && w[job] == q && q != [] && job !in others
    ensures Total([job] + others, w) == Total(others, w) + |q|
    ensures Total(others, w - {job}) == Total(others, w)
    ensures Total(others + [job], w[job := q[1..]]) == Total(others, w) + |q| - 1
  {
    TotalConcat([job], others, w);
    TotalFrame(others, w, w - {job});
    var v := w[job := q[1..]];
    TotalFrame(others, w, v);
    TotalConcat(others, [job], v);
  }

  lemma PopMembers(l: Line)
    requires RingOk(l) && QueueOk(l) && l.ring != []
    ensures Queue(l, l.ring[0]) != [] && Waits(l, l.ring[0], Head(l))
    ensures forall a, c :: Waits(Pop(l), a, c) <==> Waits(l, a, c) && c != Head(l)
    ensures forall job :: job in Pop(l).waiters ==> Pop(l).waiters[job] != [] && Distinct(Pop(l).waiters[job])
  {
    var job := l.ring[0];
    assert job in l.waiters;
    var q, t := Queue(l, job), Pop(l);
    DropMembers(q, 0);
    assert Drop(q, 0) == q[1..];
    assert Waits(l, job, q[0]);
    forall a, c ensures Waits(t, a, c) <==> Waits(l, a, c) && c != q[0] {
      if a != job { assert Queue(t, a) == Queue(l, a); }
    }
  }

  lemma EnqueueKeeps(l: Line, job: Job, c: Caller)
    requires Ok(l) && forall a :: !Waits(l, a, c)
    ensures Ok(Enqueue(l, job, c))
    ensures forall a, d :: Waits(Enqueue(l, job, c), a, d) <==> Waits(l, a, d) || (a == job && d == c)
  {
    EnqueueMembers(l, job, c);
    EnqueueCount(l, job, c);
    var t := Enqueue(l, job, c);
    forall a, b, d | Waits(t, a, d) && Waits(t, b, d) ensures a == b {
      assert Waits(l, a, d) || (a == job && d == c);
      assert Waits(l, b, d) || (b == job && d == c);
    }
  }

  lemma EnqueueMembers(l: Line, job: Job, c: Caller)
    requires QueueOk(l) && !Waits(l, job, c)
    ensures forall a, d :: Waits(Enqueue(l, job, c), a, d) <==> Waits(l, a, d) || (a == job && d == c)
    ensures forall a :: a in Enqueue(l, job, c).waiters
              ==> Enqueue(l, job, c).waiters[a] != [] && Distinct(Enqueue(l, job, c).waiters[a])
  {
    var t := Enqueue(l, job, c);
    forall a, d ensures Waits(t, a, d) <==> Waits(l, a, d) || (a == job && d == c) {
      if a != job { assert Queue(t, a) == Queue(l, a); }
    }
  }

  lemma EnqueueCount(l: Line, job: Job, c: Caller)
    requires RingOk(l) && forall a :: a in l.waiters ==> l.waiters[a] != []
    ensures RingOk(Enqueue(l, job, c))
    ensures Total(Enqueue(l, job, c).ring, Enqueue(l, job, c).waiters) == Total(l.ring, l.waiters) + 1
  {
    var t := Enqueue(l, job, c);
    if Queue(l, job) == [] {
      assert job !in l.ring;
      TotalFrame(l.ring, l.waiters, t.waiters);
      TotalConcat(l.ring, [job], t.waiters);
    } else {
      var i :| 0 <= i < |l.ring| && l.ring[i] == job;
      TotalChange(l.ring, i, l.waiters, t.waiters);
    }
  }

  lemma DequeueKeeps(l: Line, job: Job, c: Caller)
    requires Ok(l) && Waits(l, job, c)
    ensures Ok(Dequeue(l, job, c)) && Dequeue(l, job, c).waiting == l.waiting - 1
    ensures forall a, d :: Waits(Dequeue(l, job, c), a, d) <==> Waits(l, a, d) && d != c
  {
    DequeueMembers(l, job, c);
    DequeueCount(l, job, c);
    var t := Dequeue(l, job, c);
    forall a, b, d | Waits(t, a, d) && Waits(t, b, d) ensures a == b {
      assert Waits(l, a, d) && Waits(l, b, d);
    }
  }

  lemma DequeueMembers(l: Line, job: Job, c: Caller)
    requires QueueOk(l) && Waits(l, job, c)
    ensures forall a, d :: Waits(Dequeue(l, job, c), a, d) <==> Waits(l, a, d) && d != c
    ensures forall a :: a in Dequeue(l, job, c).waiters
              ==> Dequeue(l, job, c).waiters[a] != [] && Distinct(Dequeue(l, job, c).waiters[a])
  {
    var q, t := Queue(l, job), Dequeue(l, job, c);
    var i := IndexOf(q, c);
    DropMembers(q, i);
    forall a, d ensures Waits(t, a, d) <==> Waits(l, a, d) && d != c {
      if a != job {
        assert Queue(t, a) == Queue(l, a);
        assert d == c && Waits(l, a, c) ==> a == job;
      } else if |q| == 1 {
        assert q == [c] && Queue(t, job) == [];
      } else {
        assert Queue(t, job) == Drop(q, i);
      }
    }
  }

  lemma DequeueCount(l: Line, job: Job, c: Caller)
    requires RingOk(l) && Waits(l, job, c)
    ensures RingOk(Dequeue(l, job, c))
    ensures Total(Dequeue(l, job, c).ring, Dequeue(l, job, c).waiters) == Total(l.ring, l.waiters) - 1
  {
    var q, t := Queue(l, job), Dequeue(l, job, c);
    var r :| 0 <= r < |l.ring| && l.ring[r] == job;
    if |q| == 1 {
      WithoutDrops(l.ring, job, r);
      DropMembers(l.ring, r);
      TotalChange(l.ring, r, l.waiters, l.waiters);
      TotalFrame(Drop(l.ring, r), l.waiters, t.waiters);
    } else {
      TotalChange(l.ring, r, l.waiters, t.waiters);
    }
  }
}

/**
 * The fair scheduler's protocol (internal/sched/sched.go) as a step system: every critical section
 * is one atomic step, and which step comes next is the callers' choice.
 */
module SchedSpec {
  import opened Lists
  import opened Line

  /** A slot changing hands: to a waiting caller, whose turn it was, or to one that found it free. */
  datatype Grant = Turn(job: Job, caller: Caller) | Idle(caller: Caller)

  /**
   * tokens are the callers granted but not yet told (a token sits in their channel), held those
   * whose release has not run, and log every grant so far.
   */
  datatype State = State(
    limit: int, inUse: int, line: Line, tokens: set<Caller>, held: set<Caller>, log: seq<Grant>)

  datatype Step =
    | Arrive(job: Job, caller: Caller, ended: bool) // Acquire up to its select
    | Collect(caller: Caller)                       // the select takes the token
    | GiveUp(job: Job, caller: Caller)              // the select sees the end of ctx
    | Release(caller: Caller)
    | TryIdle(caller: Caller)

  function Initial(limit: int): (s: State)
    ensures Inv(s)
  {
    State(if limit < 1 then 1 else limit, 0, EMPTY, {}, {}, [])
  }

  /** One turn of the grant loop. */
  function GrantOne(s: State): State
    requires s.line.ring != [] && Queue(s.line, s.line.ring[0]) != []
  {
    s.(line := Pop(s.line), inUse := s.inUse + 1, tokens := s.tokens + {Head(s.line)},
       log := s.log + [Turn(s.line.ring[0], Head(s.line))])
  }

  /** Free slots handed out until there are none, or nobody waits. */
  function GrantAll(s: State): State
    requires Ok(s.line)
    decreases s.line.waiting
  {
    if s.inUse < s.limit && s.line.ring != [] then
      WaitingSome(s.line);
      PopKeeps(s.line);
      GrantAll(GrantOne(s))
    else s
  }

  function Free(s: State): State
    requires Ok(s.line)
  {
    GrantAll(if s.inUse > 0 then s.(inUse := s.inUse - 1) else s)
  }

  /** A slot is free and nobody waits for one. */
  predicate Open(s: State) { s.inUse < s.limit && s.line.waiting == 0 }

  function TakeIdle(s: State, c: Caller): State {
    s.(inUse := s.inUse + 1, held := s.held + {c}, log := s.log + [Idle(c)])
  }

  function Next(s: State, step: Step): State
    requires Inv(s)
  {
    match step
    case Arrive(job, c, ended) =>
      if ended then s else if Open(s) then TakeIdle(s, c) else s.(line := Enqueue(s.line, job, c))
    case Collect(c) => s.(tokens := s.tokens - {c}, held := s.held + {c})
    case GiveUp(job, c) =>
      if c in s.tokens then Free(s.(tokens := s.tokens - {c})) else s.(line := Dequeue(s.line, job, c))
    case Release(c) => if c in s.held then Free(s.(held := s.held - {c})) else s
    case TryIdle(c) => if Open(s) then TakeIdle(s, c) else s
  }

  /** c is queued, granted or holding a slot. */
  ghost predicate Busy(s: State, c: Caller) {
    c in s.tokens || c in s.held || exists job :: Waits(s.line, job, c)
  }

  /** What may happen next. A release may be called at any time and any number of times. */
  ghost predicate Enabled(s: State, step: Step) {
    match step
    case Arrive(_, c, _) => !Busy(s, c)
    case Collect(c) => c in s.tokens
    case GiveUp(job, c) => c in s.tokens || Waits(s.line, job, c)
    case Release(_) => true
    case TryIdle(c) => !Busy(s, c)
  }

  /**
   * Slots in use are the grants not yet released: told to their caller, or waiting in its channel.
   * They never pass the limit, and no queued caller has one.
   */
  ghost predicate Slots(s: State) {
    && 1 <= s.limit
    && s.inUse == |s.tokens| + |s.held| <= s.limit
    && s.tokens !! s.held
    && forall job, c :: Waits(s.line, job, c) ==> c !in s.tokens && c !in s.held
  }

  ghost predicate Inv(s: State) {
    && Ok(s.line)
    && Slots(s)
    && (s.line.waiting > 0 ==> s.inUse == s.limit)
  }

  lemma GrantOneKeeps(s: State)
    requires Ok(s.line) && Slots(s) && s.line.ring != [] && s.inUse < s.limit
    ensures Queue(s.line, s.line.ring[0]) != [] && Ok(GrantOne(s).line) && Slots(GrantOne(s))
  {
    PopKeeps(s.line);
    assert Head(s.line) !in s.tokens;
  }

  lemma {:induction false} GrantAllKeeps(s: State)
    requires Ok(s.line) && Slots(s)
    ensures Inv(GrantAll(s))
    decreases s.line.waiting
  {
    WaitingSome(s.line);
    if s.inUse < s.limit && s.line.ring != [] {
      GrantOneKeeps(s);
      PopKeeps(s.line);
      GrantAllKeeps(GrantOne(s));
    }
  }

  /** Freeing a slot while every slot is in use grants it to the next waiter, and to nobody else. */
  lemma FreePasses(s: State)
    requires Ok(s.line) && s.inUse > 0 && s.inUse <= s.limit
    requires s.line.waiting > 0 ==> s.inUse == s.limit
    ensures s.line.ring == [] ==> Free(s) == s.(inUse := s.inUse - 1)
    ensures s.line.ring != [] ==> Queue(s.line, s.line.ring[0]) != [] && Free(s) == GrantOne(s.(inUse := s.inUse - 1))
  {
    WaitingSome(s.line);
    if s.line.ring != [] {
      PopKeeps(s.line);
      var t := GrantOne(s.(inUse := s.inUse - 1));
      assert GrantAll(t) == t;
    }
  }

  /** Every step keeps the invariant. */
  lemma StepKeeps(s: State, step: Step)
    requires Inv(s) && Enabled(s, step)
    ensures Inv(Next(s, step))
  {
    match step
    case Arrive(job, c, ended) => ArriveKeeps(s, job, c, ended);
    case Collect(c) => CollectKeeps(s, c);
    case GiveUp(job, c) => GiveUpKeeps(s, job, c);
    case Release(c) => ReleaseKeeps(s, c);
    case TryIdle(c) => TryIdleKeeps(s, c);
  }

  lemma ArriveKeeps(s: State, job: Job, c: Caller, ended: bool)
    requires Inv(s) && Enabled(s, Arrive(job, c, ended))
    ensures Inv(Next(s, Arrive(job, c, ended)))
  {
    if !ended && !Open(s) {
      WaitingSome(s.line);
      EnqueueKeeps(s.line, job, c);
    }
  }

  lemma CollectKeeps(s: State, c: Caller)
    requires Inv(s) && Enabled(s, Collect(c))
    ensures Inv(Next(s, Collect(c)))
  {}

  lemma GiveUpKeeps(s: State, job: Job, c: Caller)
    requires Inv(s) && Enabled(s, GiveUp(job, c))
    ensures Inv(Next(s, GiveUp(job, c)))
  {
    if c in s.tokens {
      FreedKeeps(s, s.(tokens := s.tokens - {c}));
    } else {
      DequeueKeeps(s.line, job, c);
    }
  }

  lemma ReleaseKeeps(s: State, c: Caller)
    requires Inv(s) && Enabled(s, Release(c))
    ensures Inv(Next(s, Release(c)))
  {
    if c in s.held { FreedKeeps(s, s.(held := s.held - {c})); }
  }

  lemma TryIdleKeeps(s: State, c: Caller)
    requires Inv(s) && Enabled(s, TryIdle(c))
    ensures Inv(Next(s, TryIdle(c)))
  {}

  lemma FreedKeeps(s: State, t: State)
    requires Inv(s) && t == s.(tokens := t.tokens, held := t.held)
    requires t.tokens <= s.tokens && t.held <= s.held && |t.tokens| + |t.held| + 1 == s.inUse
    ensures Inv(Free(t))
  {
    GrantAllKeeps(t.(inUse := t.inUse - 1));
  }

  ghost predicate Legal(s: State, steps: seq<Step>)
    requires Inv(s)
    decreases |steps|
  {
    steps == [] || (Enabled(s, steps[0]) && (StepKeeps(s, steps[0]); Legal(Next(s, steps[0]), steps[1..])))
  }

  ghost function Run(s: State, steps: seq<Step>): (t: State)
    requires Inv(s) && Legal(s, steps)
    ensures Inv(t)
    decreases |steps|
  {
    if steps == [] then s else
    StepKeeps(s, steps[0]);
    Run(Next(s, steps[0]), steps[1..])
  }

  /**
   * No slot is lost, duplicated or idle: in every state a run reaches, slots in use are the live
   * grants and the grants not yet picked up, within the limit; nobody waits while one is free.
   */
  lemma Reachable(limit: int, steps: seq<Step>)
    requires Legal(Initial(limit), steps)
    ensures var t := Run(Initial(limit), steps);
            && t.inUse == |t.tokens + t.held| && t.tokens !! t.held
            && t.inUse <= (if limit < 1 then 1 else limit)
            && Distinct(t.line.ring)
            && (forall job :: job in t.line.ring <==> Queue(t.line, job) != [])
            && (t.line.ring != [] ==> t.inUse == t.limit)
  {
    var t := Run(Initial(limit), steps);
    LimitFixed(Initial(limit), steps);
    WaitingSome(t.line);
    forall job ensures job in t.line.ring <==> Queue(t.line, job) != [] {}
  }

  lemma {:induction false} RunOn(s: State, steps: seq<Step>, e: Step)
    requires Inv(s) && Legal(s, steps) && Enabled(Run(s, steps), e)
    ensures Legal(s, steps + [e]) && Run(s, steps + [e]) == Next(Run(s, steps), e)
    decreases |steps|
  {
    hide Next, Enabled, Inv;
    var all := steps + [e];
    if steps == [] {
      assert all[0] == e && all[1..] == [];
      StepKeeps(s, e);
    } else {
      assert all[0] == steps[0] && all[1..] == steps[1..] + [e];
      StepKeeps(s, steps[0]);
      RunOn(Next(s, steps[0]), steps[1..], e);
    }
  }

  /**
   * In every reachable state a caller that holds no slot, was granted none and is not queued can come, as can a hedge;
   * a granted one can fetch its slot, and that one and any queued one can give up. While anyone waits, some slot is
   * held or to be fetched, so that its release can come. And a run goes on by any such step.
   */
  lemma CallersGoOn(limit: int, steps: seq<Step>, job: Job, c: Caller, ended: bool)
    requires Legal(Initial(limit), steps)
    ensures var s := Run(Initial(limit), steps);
            var away := c !in s.held && c !in s.tokens && forall other :: c !in Queue(s.line, other);
            && (Enabled(s, Arrive(job, c, ended)) <==> away) && (Enabled(s, TryIdle(c)) <==> away)
            && (Enabled(s, Collect(c)) <==> c in s.tokens) && Enabled(s, Release(c))
            && (Enabled(s, GiveUp(job, c)) <==> c in s.tokens || c in Queue(s.line, job))
            && (s.line.ring != [] ==> exists d :: d in s.held || (d in s.tokens && Enabled(s, Collect(d))))
            && forall e :: Enabled(s, e) ==>
              Legal(Initial(limit), steps + [e]) && Run(Initial(limit), steps + [e]) == Next(s, e)
  {
    hide *;
    var s := Run(Initial(limit), steps);
    StepsAre(s, job, c, ended);
    SomeoneHolds(s);
    forall e | Enabled(s, e)
      ensures Legal(Initial(limit), steps + [e]) && Run(Initial(limit), steps + [e]) == Next(s, e)
    {
      RunOn(Initial(limit), steps, e);
    }
  }

  lemma StepsAre(s: State, job: Job, c: Caller, ended: bool)
    ensures var away := c !in s.held && c !in s.tokens && forall other :: c !in Queue(s.line, other);
            && (Enabled(s, Arrive(job, c, ended)) <==> away) && (Enabled(s, TryIdle(c)) <==> away)
    ensures (Enabled(s, Collect(c)) <==> c in s.tokens) && Enabled(s, Release(c))
    ensures Enabled(s, GiveUp(job, c)) <==> c in s.tokens || c in Queue(s.line, job)
  {
    hide Queue;
    assert forall other :: Waits(s.line, other, c) <==> c in Queue(s.line, other);
  }

  lemma SomeoneHolds(s: State)
    requires Inv(s)
    ensures s.line.ring != [] ==> exists d :: d in s.held || (d in s.tokens && Enabled(s, Collect(d)))
  {
    WaitingSome(s.line);
    hide Ok;
    if s.line.ring != [] {
      assert |s.tokens| + |s.held| >= 1;
      if |s.held| > 0 {
        var d :| d in s.held;
      } else {
        var d :| d in s.tokens;
        assert Enabled(s, Collect(d));
      }
    }
  }

  lemma {:induction false} LimitFixed(s: State, steps: seq<Step>)
    requires Inv(s) && Legal(s, steps)
    ensures Run(s, steps).limit == s.limit
    decreases |steps|
  {
    if steps != [] {
      StepKeeps(s, steps[0]);
      StepGrants(s, steps[0]);
      LimitFixed(Next(s, steps[0]), steps[1..]);
    }
  }

  /** What a step adds to the log of grants: at most one, and while anyone waits only the next turn. */
  lemma StepGrants(s: State, step: Step)
    requires Inv(s) && Enabled(s, step)
    ensures var t := Next(s, step);
            && t.limit == s.limit
            && (t.log == s.log
                || (exists c :: t.log == s.log + [Idle(c)] && s.line.waiting == 0)
                || (s.line.ring != [] && Queue(s.line, s.line.ring[0]) != []
                    && t.log == s.log + [Turn(s.line.ring[0], Head(s.line))] && t.line == Pop(s.line)))
            && (t.log == s.log && t.line != s.line ==>
                  (step.Arrive? && t.line == Enqueue(s.line, step.job, step.caller))
                  || (step.GiveUp? && t.line == Dequeue(s.line, step.job, step.caller)))
  {
    match step
    case Arrive(job, c, ended) =>
    case Collect(c) =>
    case GiveUp(job, c) =>
      if c in s.tokens { FreePasses(s.(tokens := s.tokens - {c})); }
    case Release(c) =>
      if c in s.held { FreePasses(s.(held := s.held - {c})); }
    case TryIdle(c) =>
  }

  /** An arriving caller is granted a free slot at once or queued, and which one can be seen. */
  lemma ArriveOutcome(s: State, job: Job, c: Caller, ended: bool)
    requires Inv(s) && Enabled(s, Arrive(job, c, ended))
    ensures var t := Next(s, Arrive(job, c, ended));
            && (c in t.held <==> !ended && Open(s))
            && (Waits(t.line, job, c) <==> !ended && !Open(s))
            && (ended ==> t == s)
  {
    assert !Waits(s.line, job, c);
    if !ended && !Open(s) { EnqueueKeeps(s.line, job, c); }
  }

  /** One turn of the grant loop leaves the rest of the loop to do. */
  lemma GrantStep(s: State)
    requires Ok(s.line) && s.inUse < s.limit && s.line.ring != []
    ensures s.line.ring[0] in s.line.waiters && Queue(s.line, s.line.ring[0]) != []
    ensures Ok(GrantOne(s).line) && GrantOne(s).line.waiting == s.line.waiting - 1 >= 0
    ensures GrantAll(s) == GrantAll(GrantOne(s))
  {
    WaitingSome(s.line);
    PopKeeps(s.line);
  }

  /** A caller that gives up hands its slot on, if it had one, and is gone either way. */
  lemma GiveUpOnce(s: State, job: Job, c: Caller)
    requires Inv(s) && Enabled(s, GiveUp(job, c))
    ensures var t := Next(s, GiveUp(job, c));
            && !Busy(t, c)
            && (c !in s.tokens ==> t.log == s.log && t.inUse == s.inUse)
            && (c in s.tokens && s.line.ring == [] ==> t.log == s.log && t.inUse == s.inUse - 1)
            && (c in s.tokens && s.line.ring != [] ==>
                  |t.log| == |s.log| + 1 && t.log[|s.log|].Turn? && t.inUse == s.inUse
                  && Waits(s.line, t.log[|s.log|].job, t.log[|s.log|].caller)
                  && t.tokens == s.tokens - {c} + {t.log[|s.log|].caller})
  {
    if c in s.tokens {
      FreePasses(s.(tokens := s.tokens - {c}));
      if s.line.ring != [] { PopKeeps(s.line); }
    } else {
      DequeueKeeps(s.line, job, c);
    }
  }

  /** A release gives its slot back once: a second one changes nothing. */
  lemma ReleaseOnce(s: State, c: Caller)
    requires Inv(s)
    ensures Inv(Next(s, Release(c)))
    ensures Next(Next(s, Release(c)), Release(c)) == Next(s, Release(c))
    ensures c in s.held ==> Next(s, Release(c)).held == s.held - {c}
  {
    StepKeeps(s, Release(c));
    if c in s.held { FreePasses(s.(held := s.held - {c})); }
  }

  /** A released slot goes to the caller whose turn it is, if one waits, and is free otherwise. */
  lemma ReleaseHands(s: State, c: Caller)
    requires Inv(s)
    ensures var t := Next(s, Release(c));
            && t.held == s.held - {c}
            && (c !in s.held ==> t == s)
            && (c in s.held && s.line.ring == [] ==> t == s.(held := s.held - {c}, inUse := s.inUse - 1))
            && (c in s.held && s.line.ring != [] ==>
                  && s.line.ring[0] in s.line.waiters && s.line.waiters[s.line.ring[0]] != []
                  && t.inUse == s.inUse && t.tokens == s.tokens + {s.line.waiters[s.line.ring[0]][0]})
  {
    WaitingSome(s.line);
    if c in s.held { FreePasses(s.(held := s.held - {c})); }
  }

  /**
   * A hedge, in any state a run reaches: it has a slot exactly when one is free and no caller is queued, and then
   * nothing changes but that one slot more is in use; else nothing changes at all.
   */
  lemma IdleExactly(limit: int, steps: seq<Step>, c: Caller)
    requires Legal(Initial(limit), steps)
    requires Enabled(Run(Initial(limit), steps), TryIdle(c))
    ensures var s := Run(Initial(limit), steps);
            var t := Next(s, TryIdle(c));
            var slots := if limit < 1 then 1 else limit;
            && (c in t.held <==> s.inUse < slots && forall job :: Queue(s.line, job) == [])
            && t.line == s.line && t.tokens == s.tokens
            && (if c in t.held then t.inUse == s.inUse + 1 && t.held == s.held + {c} && c !in s.held else t == s)
  {
    var s := Run(Initial(limit), steps);
    LimitFixed(Initial(limit), steps);
    WaitingSome(s.line);
    QueuesAndRing(s.line);
  }

  lemma QueuesAndRing(l: Line)
    requires Ok(l)
    ensures l.ring == [] <==> forall job :: Queue(l, job) == []
  {
    WaitingSome(l);
    if l.ring == [] {
      forall job ensures Queue(l, job) == [] {}
    }
  }

  /**
   * A caller, in any state a run reaches: it is granted at once exactly when a slot is free and no caller is queued,
   * and else queued behind those of its job; no other queue changes.
   */
  lemma ArriveExactly(limit: int, steps: seq<Step>, job: Job, c: Caller)
    requires Legal(Initial(limit), steps)
    requires Enabled(Run(Initial(limit), steps), Arrive(job, c, false))
    ensures var s := Run(Initial(limit), steps);
            var t := Next(s, Arrive(job, c, false));
            var slots := if limit < 1 then 1 else limit;
            && t.tokens == s.tokens
            && (if s.inUse < slots && (forall other :: Queue(s.line, other) == []) then
                  t.line == s.line && t.inUse == s.inUse + 1 && t.held == s.held + {c}
                else
                  && t.inUse == s.inUse && t.held == s.held && Queue(t.line, job) == Queue(s.line, job) + [c]
                  && forall other :: other != job ==> Queue(t.line, other) == Queue(s.line, other))
  {
    var s := Run(Initial(limit), steps);
    LimitFixed(Initial(limit), steps);
    WaitingSome(s.line);
    QueuesAndRing(s.line);
  }

  /** A queued caller that gives up leaves a gap, and everyone else's place as it was. */
  lemma LeavesLine(s: State, job: Job, c: Caller) returns (i: nat, r: nat)
    requires Inv(s) && Waits(s.line, job, c)
    ensures var t, q := Next(s, GiveUp(job, c)), Queue(s.line, job);
            && t.inUse == s.inUse && t.tokens == s.tokens && t.held == s.held
            && i < |q| && q[i] == c && Queue(t.line, job) == q[..i] + q[i + 1..]
            && (forall other :: other != job ==> Queue(t.line, other) == Queue(s.line, other))
            && r < |s.line.ring| && s.line.ring[r] == job
            && t.line.ring == if q == [c] then s.line.ring[..r] + s.line.ring[r + 1..] else s.line.ring
  {
    assert c !in s.tokens;
    var q := Queue(s.line, job);
    i := IndexOf(q, c);
    r :| r < |s.line.ring| && s.line.ring[r] == job;
    WithoutDrops(s.line.ring, job, r);
    if |q| == 1 { assert q == [c] && q[..i] + q[i + 1..] == []; }
  }
}

/**
 * What a part's answers make of it (internal/engine/parts.go:142-260, whole.go:41-78), over every run of its job:
 * when it is tried again, cut, re-checked, done or failed.
 */
module FanFates {
  import S = Sections
  import opened Planning
  import opened FanSpec
  import opened FanRuns
  import opened Fanout

  predicate AllAgain(answers: seq<Outcome>) { forall k :: 0 <= k < |answers| ==> Again(answers[k]) }

  /**
   * Where the part at i is after the steps, and what its calls answered on the way; nothing once it was cut or gave
   * up. A part cut in two before it moves it on by one place.
   */
  function Followed(steps: seq<Step>, i: nat): S.Option<(nat, seq<Outcome>)>
    decreases |steps|
  {
    if steps == [] then S.Some((i, []))
    else
      match steps[0]
      case Attempt(j, outcome) =>
        var r := Followed(steps[1..], i);
        if j == i && r.Some? then S.Some((r.value.0, [outcome] + r.value.1)) else r
      case Cut(j, made) =>
        if j == i then S.None else Followed(steps[1..], if j < i && made == 2 then i + 1 else i)
      case GiveUp(j) => if j == i then S.None else Followed(steps[1..], i)
  }

  /** Its first m calls sent a part to a re-check: three in vain at one page, or one the service refused for good. */
  predicate Rechecks(answers: seq<Outcome>, size: nat, m: nat) {
    && 1 <= m <= |answers| && m <= 3
    && (|| (m == 3 && size == 1 && AllAgain(answers[..3]))
        || (AllAgain(answers[..m - 1]) && (answers[m - 1] == AnalysisFailed || answers[m - 1] == Terminal)))
  }

  /** A re-check goes on: no call of it but in vain, fewer than five, and fewer than two of the RetryOnce class. */
  predicate Goes(answers: seq<Outcome>, m: nat)
    requires m <= |answers|
  {
    AllAgain(answers[m..]) && |answers| - m < 5 && Once(answers[m..]) < 2
  }

  /** It is over: refused for good, or five calls in vain, or two of the RetryOnce class. */
  predicate Spent(answers: seq<Outcome>, m: nat)
    requires m <= |answers|
  {
    && m < |answers|
    && (var last := answers[|answers| - 1];
        || last == AnalysisFailed || last == Terminal
        || (AllAgain(answers[m..]) && (|answers| - m == 5 || Once(answers[m..]) == 2)))
  }

  /** A part of `size` pages whose calls answered so is at this phase. */
  ghost predicate Explained(phase: Phase, size: nat, answers: seq<Outcome>) {
    var n := |answers|;
    && (phase.Trying? <==> n < 3 && AllAgain(answers))
    && (phase == Cutting <==> n == 3 && AllAgain(answers) && size >= 2)
    && (phase.Checking? <==> exists m :: Rechecks(answers, size, m) && Goes(answers, m))
    && (phase == Done <==> n > 0 && answers[n - 1] == Success)
    && (phase == Failed <==>
          && n > 0
          && (|| answers[n - 1] == Cancelled || answers[n - 1] == RouteMissing
              || exists m :: Rechecks(answers, size, m) && Spent(answers, m)))
  }

  /** The phase the answers lead to, one call after another. */
  function Led(phase: Phase, size: nat, answers: seq<Outcome>): Phase
    decreases |answers|
  {
    if answers == [] || !Waits(phase) then phase else Led(Tried(phase, size, answers[0]), size, answers[1..])
  }

  /** No call is made after the part has stopped waiting. */
  predicate Called(phase: Phase, size: nat, answers: seq<Outcome>)
    decreases |answers|
  {
    answers == [] || (Waits(phase) && Called(Tried(phase, size, answers[0]), size, answers[1..]))
  }

  lemma NextAt(f: Fan, e: Step, i: nat)
    requires Enabled(f, e) && i < |f.line|
    requires !(e.Cut? && e.i == i) && !(e.GiveUp? && e.i == i)
    ensures var g, j := Next(f, e), if e.Cut? && e.i < i && e.made == 2 then i + 1 else i;
            && j < |g.line| && g.line[j].pages == f.line[i].pages
            && (e.Attempt? && e.i == i ==>
                  Waits(f.line[i].phase) && g.line[j].phase == Tried(f.line[i].phase, |f.line[i].pages|, e.outcome))
            && (!(e.Attempt? && e.i == i) ==> g.line[j].phase == f.line[i].phase)
  {
    hide Halve, Tried, NameOf;
  }

  lemma LedStep(phase: Phase, size: nat, o: Outcome, answers: seq<Outcome>)
    requires Waits(phase)
    ensures Led(phase, size, [o] + answers) == Led(Tried(phase, size, o), size, answers)
    ensures Called(phase, size, [o] + answers) <==> Called(Tried(phase, size, o), size, answers)
  {
    hide Tried;
    assert ([o] + answers)[1..] == answers;
  }

  /** Over a run, a part that is neither cut nor gives up is where its own answers lead it. */
  lemma {:induction false} FollowedLed(f: Fan, steps: seq<Step>, g: Fan, i: nat)
    requires Reaches(f, steps, g) && i < |f.line| && Followed(steps, i).Some?
    ensures var (j, answers) := Followed(steps, i).value;
            && j < |g.line| && g.line[j].pages == f.line[i].pages
            && Called(f.line[i].phase, |f.line[i].pages|, answers)
            && g.line[j].phase == Led(f.line[i].phase, |f.line[i].pages|, answers)
    decreases |steps|
  {
    if steps != [] {
      var e := steps[0];
      hide Next, Tried, Waits, Enabled;
      NextAt(f, e, i);
      var k := if e.Cut? && e.i < i && e.made == 2 then i + 1 else i;
      FollowedLed(Next(f, e), steps[1..], g, k);
      if e.Attempt? && e.i == i {
        LedStep(f.line[i].phase, |f.line[i].pages|, e.outcome, Followed(steps[1..], k).value.1);
      }
    }
  }

  // What the answers say.

  lemma RechecksOnce(answers: seq<Outcome>, size: nat, m: nat, n: nat)
    requires Rechecks(answers, size, m) && Rechecks(answers, size, n)
    ensures m == n
  {}

  /** No call has sent the part to a re-check. */
  lemma NoneRechecks(answers: seq<Outcome>, size: nat)
    requires var n := |answers|;
             || (n <= 3 && AllAgain(answers) && (n == 3 ==> size != 1))
             || (1 <= n <= 3 && AllAgain(answers[..n - 1])
                 && !Again(answers[n - 1]) && answers[n - 1] != AnalysisFailed && answers[n - 1] != Terminal)
    ensures forall m: nat :: !Rechecks(answers, size, m)
  {}

  lemma ExplainedTrying(size: nat, answers: seq<Outcome>)
    requires |answers| < 3 && AllAgain(answers)
    ensures Explained(Trying(|answers|), size, answers)
  {
    NoneRechecks(answers, size);
  }

  lemma ExplainedCutting(size: nat, answers: seq<Outcome>)
    requires |answers| == 3 && AllAgain(answers) && size >= 2
    ensures Explained(Cutting, size, answers)
  {
    NoneRechecks(answers, size);
  }

  /** A part's own last call answered, or ended it. */
  lemma ExplainedLast(size: nat, answers: seq<Outcome>)
    requires 1 <= |answers| <= 3 && AllAgain(answers[..|answers| - 1])
    requires answers[|answers| - 1] in {Success, Cancelled, RouteMissing}
    ensures Explained(if answers[|answers| - 1] == Success then Done else Failed, size, answers)
  {
    NoneRechecks(answers, size);
    assert !Again(answers[|answers| - 1]);
  }

  /** Answers after the ones that sent the part to a re-check. */
  lemma ExplainedCheck(size: nat, answers: seq<Outcome>, m: nat, once: nat)
    requires Rechecks(answers, size, m) && Goes(answers, m)
    ensures Explained(Checking(|answers| - m, once), size, answers)
  {
    NotOwn(answers, size, m);
    var n := |answers|;
    assert n > m ==> answers[n - 1] == answers[m..][n - 1 - m];
    forall k | Rechecks(answers, size, k) ensures !Spent(answers, k) { RechecksOnce(answers, size, m, k); }
  }

  lemma NotOwn(answers: seq<Outcome>, size: nat, m: nat)
    requires Rechecks(answers, size, m)
    ensures !(|answers| < 3 && AllAgain(answers)) && !(|answers| == 3 && AllAgain(answers) && size >= 2)
    ensures |answers| == m ==> !(answers[m - 1] in {Success, Cancelled, RouteMissing})
  {
    if |answers| == m && m == 3 && size == 1 && AllAgain(answers[..3]) {
      assert Again(answers[..3][2]);
    }
  }

  lemma ExplainedEnd(size: nat, answers: seq<Outcome>, m: nat)
    requires Rechecks(answers, size, m) && m < |answers| && Goes(answers[..|answers| - 1], m)
    requires !Again(answers[|answers| - 1]) || |answers| - m == 5 || Once(answers[m..]) == 2
    ensures Explained(if answers[|answers| - 1] == Success then Done else Failed, size, answers)
  {
    NotOwn(answers, size, m);
    var n := |answers|;
    var last := answers[n - 1];
    assert answers[m..][..n - 1 - m] == answers[..n - 1][m..];
    assert answers[m..][n - 1 - m] == last;
    assert AllAgain(answers[m..]) <==> Again(last) by {
      if Again(last) {
        forall k | 0 <= k < n - m ensures Again(answers[m..][k]) {
          if k < n - 1 - m { assert answers[m..][k] == answers[..n - 1][m..][k]; }
        }
      }
    }
    forall k | Rechecks(answers, size, k)
      ensures k == m && !Goes(answers, k) && (Spent(answers, k) <==> !(last in {Success, Cancelled, RouteMissing}))
    {
      RechecksOnce(answers, size, m, k);
    }
  }

  lemma GoesNext(b: seq<Outcome>, o: Outcome, m: nat)
    requires m <= |b| && Goes(b, m)
    ensures var c := b + [o];
            && c[..|c| - 1] == b && |b| - m < 5 && Once(b[m..]) < 2
            && Once(c[m..]) == Once(b[m..]) + (if o == RetryOnce then 1 else 0)
            && (Goes(c, m) <==> Again(o) && |c| - m != 5 && Once(c[m..]) != 2)
  {
    var c := b + [o];
    assert c[m..] == b[m..] + [o];
    assert c[m..][..|c[m..]| - 1] == b[m..];
    assert AllAgain(c[m..]) <==> Again(o) by { if !Again(o) { assert !Again(c[m..][|b| - m]); } }
  }

  /** From the re-check on: b has been answered, a is still to be. */
  lemma {:induction false} CheckLed(size: nat, b: seq<Outcome>, a: seq<Outcome>, m: nat)
    requires Rechecks(b, size, m) && Goes(b, m)
    requires Called(Checking(|b| - m, Once(b[m..])), size, a)
    ensures Explained(Led(Checking(|b| - m, Once(b[m..])), size, a), size, b + a)
    decreases |a|
  {
    assert m <= |b|;
    hide Explained, Rechecks, Goes, Once, AllAgain, Tried;
    if a == [] {
      assert b + a == b;
      ExplainedCheck(size, b, m, Once(b[m..]));
    } else {
      var o, c := a[0], b + [a[0]];
      assert b + a == c + a[1..];
      GoesNext(b, o, m);
      RechecksMore(b, o, size, m);
      CheckTried(|b| - m, Once(b[m..]), size, o);
      if Goes(c, m) {
        CheckLed(size, c, a[1..], m);
      } else {
        assert a[1..] == [] && b + a == c;
        ExplainedEnd(size, c, m);
      }
    }
  }

  lemma RechecksMore(b: seq<Outcome>, o: Outcome, size: nat, m: nat)
    requires Rechecks(b, size, m)
    ensures Rechecks(b + [o], size, m)
  {
    var c := b + [o];
    assert c[..m] == b[..m] && c[..m - 1] == b[..m - 1];
  }

  lemma OneMoreAgain(b: seq<Outcome>, o: Outcome)
    requires AllAgain(b)
    ensures (b + [o])[..|b|] == b && (AllAgain(b + [o]) <==> Again(o))
  {
    assert (b + [o])[|b|] == o;
  }

  lemma SentToCheck(size: nat, b: seq<Outcome>, o: Outcome)
    requires |b| < 3 && AllAgain(b) && size >= 1
    requires (Again(o) && |b| == 2 && size < 2) || o == AnalysisFailed || o == Terminal
    ensures var c := b + [o]; Rechecks(c, size, |c|) && Goes(c, |c|) && Once(c[|c|..]) == 0
  {
    var c := b + [o];
    OneMoreAgain(b, o);
    assert c[..|c|] == c && c[|c|..] == [] && c[|b|] == o && c[..|c| - 1] == b;
    assert size == 1 && |c| == 3 ==> c[..3] == c;
  }

  /** From the start: b has been answered, a is still to be. */
  lemma {:induction false} TryLed(size: nat, b: seq<Outcome>, a: seq<Outcome>)
    requires size >= 1 && |b| < 3 && AllAgain(b) && Called(Trying(|b|), size, a)
    ensures Explained(Led(Trying(|b|), size, a), size, b + a)
    decreases |a|
  {
    hide Explained, Rechecks, Goes, Once, AllAgain, Tried, Again;
    if a == [] {
      assert b + a == b;
      ExplainedTrying(size, b);
    } else {
      var o, c := a[0], b + [a[0]];
      assert b + a == c + a[1..];
      TryTried(|b|, size, o);
      OneMoreAgain(b, o);
      if Again(o) && |c| < 3 {
        TryLed(size, c, a[1..]);
      } else if Again(o) && size >= 2 {
        assert a[1..] == [] && b + a == c;
        ExplainedCutting(size, c);
      } else if Again(o) || o == AnalysisFailed || o == Terminal {
        SentToCheck(size, b, o);
        CheckLed(size, c, a[1..], |c|);
      } else {
        assert a[1..] == [] && b + a == c && c[|b|] == o;
        ExplainedLast(size, c);
      }
    }
  }

  /**
   * Over every run of a job: a part that starts afresh and has been neither cut nor given up is at the phase its own
   * answers explain. It is tried again while fewer than three calls came back, all in vain; after three it is cut,
   * if it has two pages or more, and nothing else can happen to it but that it gives up; it is re-checked after
   * three at one page, or after a call the service refused for good.
   */
  lemma AnswersDecide(f: Fan, steps: seq<Step>, g: Fan, i: nat)
    requires Reaches(f, steps, g) && i < |f.line| && f.line[i].phase == Trying(0) && f.line[i].pages != []
    requires Followed(steps, i).Some?
    ensures var (j, answers) := Followed(steps, i).value;
            && j < |g.line| && g.line[j].pages == f.line[i].pages
            && Explained(g.line[j].phase, |f.line[i].pages|, answers)
            && (g.line[j].phase == Cutting ==> forall e :: Enabled(g, e) && e.i == j ==> e.Cut? || e.GiveUp?)
  {
    var (j, answers) := Followed(steps, i).value;
    FollowedLed(f, steps, g, i);
    hide Explained, Led, Called, Reaches, Followed;
    TryLed(|f.line[i].pages|, [], answers);
    assert [] + answers == answers;
  }

  /** What a cut makes of a part: two fresh ones in its place, the first with the larger half of its pages. */
  lemma CutHalves(f: Fan, i: nat)
    requires i < |f.line| && f.line[i].phase == Cutting && |f.line[i].pages| >= 2
    ensures Enabled(f, Cut(i, 2))
    ensures var g, p := Next(f, Cut(i, 2)), f.line[i].pages;
            && |g.line| == |f.line| + 1 && g.line[..i] == f.line[..i] && g.line[i + 2..] == f.line[i + 1..]
            && g.line[i].phase == g.line[i + 1].phase == Trying(0)
            && g.line[i].pages + g.line[i + 1].pages == p
            && |g.line[i].pages| - |g.line[i + 1].pages| == |p| % 2
            && g.failed == f.failed && g.attempts == f.attempts && g.results == f.results
  {
    hide NameOf;
    var halves := Halve(f.line[i].pages);
    assert |f.line[i].pages| == |halves.0| + |halves.1|;
  }

  // Jobs that only small parts can fail.

  /** A step of a job nothing goes wrong with for good. */
  predicate Gentle(e: Step) {
    match e
    case Attempt(_, o) => o == Success || o == Retry || o == RetryOnce
    case Cut(_, made) => made == 2
    case GiveUp(_) => false
  }

  /** A part of two pages or more is tried, cut or done. */
  predicate Sound(s: Slot) {
    s.pages != [] && (|s.pages| >= 2 ==> s.phase.Trying? || s.phase.Cutting? || s.phase.Done?)
  }

  ghost predicate Mild(f: Fan) {
    && (forall i :: 0 <= i < |f.line| ==> Sound(f.line[i]))
    && (f.failed ==> exists i :: 0 <= i < |f.line| && f.line[i].phase == Failed)
  }

  lemma GentleKeeps(f: Fan, e: Step)
    requires Mild(f) && Enabled(f, e) && Gentle(e)
    ensures Mild(Next(f, e))
  {
    hide NameOf, Halve;
    var g := Next(f, e);
    if f.failed {
      var i :| 0 <= i < |f.line| && f.line[i].phase == Failed;
      assert e.i != i;
      if e.Cut? {
        assert g.line[if e.i < i then i + 1 else i] == f.line[i];
      } else {
        assert g.line[i] == f.line[i];
      }
    } else if g.failed {
      assert g.line[e.i].phase == Failed;
    }
    forall i | 0 <= i < |g.line| ensures Sound(g.line[i]) {
      if e.Cut? && i > e.i + 1 { assert g.line[i] == f.line[i - 1]; }
      if e.Cut? && i == e.i + 1 { assert g.line[i].phase == Trying(0); }
      if e.Attempt? && i == e.i { assert Sound(f.line[i]); }
    }
  }

  lemma {:induction false} GentleRun(f: Fan, steps: seq<Step>, g: Fan)
    requires Mild(f) && Reaches(f, steps, g) && forall k :: 0 <= k < |steps| ==> Gentle(steps[k])
    ensures Mild(g)
    decreases |steps|
  {
    if steps != [] {
      hide Mild, Next, Enabled;
      GentleKeeps(f, steps[0]);
      GentleRun(Next(f, steps[0]), steps[1..], g);
    }
  }

  /**
   * A job none of whose calls is cancelled, refused for good or sent nowhere, whose parts neither give up nor fail
   * to be cut: only a part of one page can fail it. Larger ones are tried, cut or done at any time.
   */
  lemma OnlyOnePageFails(parts: seq<Pages>, steps: seq<Step>, g: Fan)
    requires AllPages(parts) && Reaches(Initial(parts), steps, g)
    requires forall k :: 0 <= k < |steps| ==> Gentle(steps[k])
    ensures g.failed ==> exists i :: 0 <= i < |g.line| && g.line[i].phase == Failed && |g.line[i].pages| == 1
    ensures forall i :: 0 <= i < |g.line| && |g.line[i].pages| >= 2 ==>
              g.line[i].phase.Trying? || g.line[i].phase.Cutting? || g.line[i].phase.Done?
  {
    GentleRun(Initial(parts), steps, g);
    if g.failed {
      var i :| 0 <= i < |g.line| && g.line[i].phase == Failed;
      assert Sound(g.line[i]);
    }
    forall i | 0 <= i < |g.line| && |g.line[i].pages| >= 2
      ensures g.line[i].phase.Trying? || g.line[i].phase.Cutting? || g.line[i].phase.Done?
    {
      assert Sound(g.line[i]);
    }
  }

  // Nothing stands still.

  lemma {:induction false} RunOn(f: Fan, steps: seq<Step>, g: Fan, e: Step)
    requires Reaches(f, steps, g) && Enabled(g, e)
    ensures Reaches(f, steps + [e], Next(g, e))
    decreases |steps|
  {
    hide Next, Enabled;
    var all := steps + [e];
    if steps == [] {
      assert all[0] == e && all[1..] == [];
    } else {
      assert all[0] == steps[0] && all[1..] == steps[1..] + [e];
      RunOn(Next(f, steps[0]), steps[1..], g, e);
    }
  }

  /**
   * In every state of a job each part that is not done or failed has a step: a call that comes back with any answer
   * while it is tried or re-checked, the cut of all, one or none of its halves, or that it gives up. And a run goes
   * on by any such step.
   */
  lemma PartsGoOn(parts: seq<Pages>, pages: Pages, steps: seq<Step>, g: Fan, i: nat)
    requires AllPages(parts) && Concat(parts) == pages && Ascending(pages) && Reaches(Initial(parts), steps, g)
    requires i < |g.line|
    ensures forall o :: Enabled(g, Attempt(i, o)) <==> g.line[i].phase.Trying? || g.line[i].phase.Checking?
    ensures forall made :: Enabled(g, Cut(i, made)) <==> g.line[i].phase == Cutting && made <= 2
    ensures Enabled(g, GiveUp(i)) <==> g.line[i].phase != Done && g.line[i].phase != Failed
    ensures forall e :: Enabled(g, e) ==> Reaches(Initial(parts), steps + [e], Next(g, e))
  {
    hide Concat, Ascending, Reaches, Covers, Accounted, Next;
    InitialHolds(parts, pages);
    RunKeeps(Initial(parts), steps, g, pages);
    forall e | Enabled(g, e) ensures Reaches(Initial(parts), steps + [e], Next(g, e)) {
      RunOn(Initial(parts), steps, g, e);
    }
  }
}

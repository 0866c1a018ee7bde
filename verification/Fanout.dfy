/** A job's parts at work (internal/engine/parts.go, whole.go). Each method is what one part does between two waits. */
module Fanout {
  import opened Planning
  import opened FanSpec
  import opened FanNames
  import opened FanRuns

  predicate Again(o: Outcome) { o == Retry || o == RetryOnce }

  function Once(answers: seq<Outcome>): nat
    decreases |answers|
  {
    if answers == [] then 0
    else Once(answers[..|answers| - 1]) + if answers[|answers| - 1] == RetryOnce then 1 else 0
  }

  /** A re-check as the steps have it: the phase it ends in, and the attempts it took. */
  function Checked(phase: Phase, answers: seq<Outcome>): (Phase, nat)
    requires phase.Checking? ==> |answers| >= WHOLE_ATTEMPTS - phase.n > 0
    decreases |answers|
  {
    if !phase.Checking? || answers == [] then (phase, 0)
    else
      var next := Tried(phase, 1, answers[0]);
      var rest := Checked(next, answers[1..]);
      (rest.0, rest.1 + 1)
  }

  lemma OnceMore(answers: seq<Outcome>, n: nat)
    requires n < |answers|
    ensures Once(answers[..n + 1]) == Once(answers[..n]) + if answers[n] == RetryOnce then 1 else 0
  {
    assert answers[..n + 1][..n] == answers[..n];
  }

  /**
   * The whole document asked for, until it is answered, or an answer no retry changes, or the attempts are used
   * up, or two of them ended in the RetryOnce class. `answers` is what each attempt would get.
   */
  method Whole(answers: seq<Outcome>) returns (ok: bool, used: nat)
    requires |answers| >= WHOLE_ATTEMPTS
    ensures 1 <= used <= WHOLE_ATTEMPTS && (ok <==> answers[used - 1] == Success)
    ensures forall k :: 0 <= k < used - 1 ==> Again(answers[k])
    ensures Once(answers[..used - 1]) < RETRY_ONCE_LIMIT
    ensures Again(answers[used - 1]) ==> used == WHOLE_ATTEMPTS || Once(answers[..used]) == RETRY_ONCE_LIMIT
    ensures Checked(Checking(0, 0), answers) == (if ok then Done else Failed, used)
  {
    var retryOnce := 0;
    used := 0;
    assert answers[0..] == answers && answers[..0] == [];
    while true
      invariant used < WHOLE_ATTEMPTS && retryOnce == Once(answers[..used]) < RETRY_ONCE_LIMIT
      invariant forall k :: 0 <= k < used ==> Again(answers[k])
      invariant Checked(Checking(0, 0), answers).0 == Checked(Checking(used, retryOnce), answers[used..]).0
      invariant Checked(Checking(0, 0), answers).1 == Checked(Checking(used, retryOnce), answers[used..]).1 + used
      decreases WHOLE_ATTEMPTS - used
    {
      var outcome := answers[used];
      OnceMore(answers, used);
      assert answers[used..][1..] == answers[used + 1..];
      used := used + 1;
      match outcome {
        case Success => return true, used;
        case RetryOnce => retryOnce := retryOnce + 1;
        case Retry =>
        case _ => return false, used;
      }
      if used >= WHOLE_ATTEMPTS || retryOnce >= RETRY_ONCE_LIMIT {
        return false, used;
      }
    }
  }

  lemma AttemptIs(f: Fan, i: nat, outcome: Outcome, pages: Pages)
    requires Inv(f, pages) && NamesInv(f) && Ascending(pages) && i < |f.line| && Waits(f.line[i].phase)
    ensures Enabled(f, Attempt(i, outcome)) && Active(f.line[i].phase)
    ensures var g := Next(f, Attempt(i, outcome));
            && g == Moved(f.(attempts := f.attempts + 1), i, Tried(f.line[i].phase, |f.line[i].pages|, outcome))
            && Inv(g, pages) && NamesInv(g)
  {
    NextKeeps(f, Attempt(i, outcome), pages);
    NextNames(f, Attempt(i, outcome), pages);
  }

  /** What an attempt makes of a part that has been tried n times, in its answer. */
  lemma TryTried(n: nat, size: nat, o: Outcome)
    requires n < 3 && size >= 1
    ensures var r := Tried(Trying(n), size, o);
            if Again(o) && n < 2 then r == Trying(n + 1)
            else if Again(o) && size >= 2 then r == Cutting
            else if Again(o) || o == AnalysisFailed || o == Terminal then r == Checking(0, 0)
            else o in {Success, Cancelled, RouteMissing} && r == if o == Success then Done else Failed
  {}

  /** And of a re-check, after n attempts of which `once` were of the RetryOnce class. */
  lemma CheckTried(n: nat, once: nat, size: nat, o: Outcome)
    requires n < 5 && once < 2
    ensures var next, r := once + (if o == RetryOnce then 1 else 0), Tried(Checking(n, once), size, o);
            if Again(o) && n + 1 != 5 && next != 2 then r == Checking(n + 1, next)
            else r == if o == Success then Done else Failed
  {}

  lemma MovedPlain(f: Fan, i: nat, phase: Phase)
    requires i < |f.line|
    ensures var g := Moved(f, i, phase);
            && g.line == f.line[i := Slot(f.line[i].pages, phase)] && g.attempts == f.attempts && g.files == f.files
            && g.results == (if phase == Done then f.results + [f.line[i].pages] else f.results)
            && g.failed == (f.failed || phase == Failed)
  {}

  lemma TryOnce(f: Fan, i: nat, outcome: Outcome, pages: Pages)
    requires Inv(f, pages) && i < |f.line| && f.line[i].phase.Trying?
    ensures f.line[i].phase.n < 3 && |f.line[i].pages| >= 1
    ensures var phase := Tried(f.line[i].phase, |f.line[i].pages|, outcome);
            var g := Moved(f.(attempts := f.attempts + 1), i, phase);
            && g.line == f.line[i := Slot(f.line[i].pages, phase)] && g.attempts == f.attempts + 1
            && g.files == f.files && g.failed == (f.failed || phase == Failed)
            && g.results == (if phase == Done then f.results + [f.line[i].pages] else f.results)
  {
    assert SlotOk(f.line[i], f.failed) by { InvParts(f, pages); }
    hide Inv, Moved;
    var phase := Tried(f.line[i].phase, |f.line[i].pages|, outcome);
    MovedPlain(f.(attempts := f.attempts + 1), i, phase);
    TryTried(f.line[i].phase.n, |f.line[i].pages|, outcome);
  }

  lemma CheckOnce(f: Fan, i: nat, outcome: Outcome, pages: Pages)
    requires Inv(f, pages) && i < |f.line| && f.line[i].phase.Checking?
    ensures f.line[i].phase.n < 5 && f.line[i].phase.once < 2
    ensures var phase := Tried(f.line[i].phase, |f.line[i].pages|, outcome);
            var g := Moved(f.(attempts := f.attempts + 1), i, phase);
            && g.line == f.line[i := Slot(f.line[i].pages, phase)] && g.attempts == f.attempts + 1
            && g.files == f.files && g.failed == (f.failed || phase == Failed)
            && g.results == (if phase == Done then f.results + [f.line[i].pages] else f.results)
  {
    assert SlotOk(f.line[i], f.failed) by { InvParts(f, pages); }
    hide Inv, Moved;
    var phase := Tried(f.line[i].phase, |f.line[i].pages|, outcome);
    MovedPlain(f.(attempts := f.attempts + 1), i, phase);
    CheckTried(f.line[i].phase.n, f.line[i].phase.once, |f.line[i].pages|, outcome);
  }

  class Fanout {
    /** The parts and where each is, in the order of their pages. */
    var line: seq<Slot>
    var results: seq<Pages>
    var failed: bool
    var attempts: nat
    var files: seq<Name>

    ghost function Abs(): Fan
      reads this
    {
      Fan(line, results, failed, attempts, files)
    }

    ghost predicate Valid(pages: Pages)
      reads this
    {
      Ascending(pages) && Inv(Abs(), pages) && NamesInv(Abs())
    }

    /** Every planned part started, each cut to its own file before. */
    constructor (parts: seq<Pages>, ghost pages: Pages)
      requires AllPages(parts) && Concat(parts) == pages && Ascending(pages)
      ensures Abs() == Initial(parts) && Valid(pages)
    {
      results, failed, attempts := [], false, 0;
      line, files := [], [];
      new;
      for n := 0 to |parts|
        invariant |line| == n && |files| == n && results == [] && !failed && attempts == 0
        invariant forall i :: 0 <= i < n ==> line[i] == Slot(parts[i], Trying(0)) && files[i] == NameOf(parts[i])
      {
        files := files + [NameOf(parts[n])];
        line := line + [Slot(parts[n], Trying(0))];
      }
      assert line == Initial(parts).line && files == Initial(parts).files;
      InitialHolds(parts, pages);
    }

    method Fail(i: nat)
      requires i < |line|
      modifies this
      ensures Abs() == Moved(old(Abs()), i, Failed)
    {
      assert results + [] == results;
      line := line[i := line[i].(phase := Failed)];
      failed := true;
    }

    method Add(i: nat)
      requires i < |line|
      modifies this
      ensures Abs() == Moved(old(Abs()), i, Done)
    {
      results := results + [line[i].pages];
      line := line[i := line[i].(phase := Done)];
    }

    method Go(i: nat, phase: Phase)
      requires i < |line| && !phase.Done? && !phase.Failed?
      modifies this
      ensures Abs() == Moved(old(Abs()), i, phase)
    {
      assert results + [] == results;
      line := line[i := line[i].(phase := phase)];
    }

    /** An attempt at a part came back. */
    method PartAttempt(i: nat, outcome: Outcome, ghost pages: Pages)
      requires Valid(pages) && i < |line| && line[i].phase.Trying?
      modifies this
      ensures Valid(pages) && Abs() == Next(old(Abs()), Attempt(i, outcome))
      ensures |line| == |old(line)| && line == old(line)[i := Slot(old(line[i].pages), line[i].phase)]
      ensures attempts == old(attempts) + 1 && files == old(files)
      ensures results == if outcome == Success then old(results) + [old(line[i].pages)] else old(results)
      ensures var n, size, phase := old(line[i].phase.n), |old(line[i].pages)|, line[i].phase;
              if outcome == Retry || outcome == RetryOnce then
                phase == if n < 2 then Trying(n + 1) else if size >= 2 then Cutting else Checking(0, 0)
              else if outcome == AnalysisFailed || outcome == Terminal then phase == Checking(0, 0)
              else phase == (if outcome == Success then Done else Failed) && (outcome != Success ==> failed)
    {
      hide Inv, NamesInv, Moved, Ascending, Next, Enabled, Active;
      AttemptIs(Abs(), i, outcome, pages);
      TryOnce(Abs(), i, outcome, pages);
      attempts := attempts + 1;
      var n := line[i].phase.n + 1;
      match outcome {
        case Success => Add(i);
        case Cancelled => Fail(i);
        case RouteMissing => Fail(i);
        case AnalysisFailed => Go(i, Checking(0, 0));
        case Terminal => Go(i, Checking(0, 0));
        case _ =>
          if n < PART_ATTEMPTS {
            Go(i, Trying(n));
          } else if |line[i].pages| < 2 {
            Go(i, Checking(0, 0));
          } else {
            Go(i, Cutting);
          }
      }
    }

    /** An attempt at the whole document, for a part's pages, came back. */
    method RecheckAttempt(i: nat, outcome: Outcome, ghost pages: Pages)
      requires Valid(pages) && i < |line| && line[i].phase.Checking?
      modifies this
      ensures Valid(pages) && Abs() == Next(old(Abs()), Attempt(i, outcome))
      ensures |line| == |old(line)| && line == old(line)[i := Slot(old(line[i].pages), line[i].phase)]
      ensures attempts == old(attempts) + 1 && files == old(files)
      ensures results == if outcome == Success then old(results) + [old(line[i].pages)] else old(results)
      ensures var n, once := old(line[i].phase.n), old(line[i].phase.once) + if outcome == RetryOnce then 1 else 0;
              if (outcome == Retry || outcome == RetryOnce) && n + 1 < 5 && once < 2 then
                line[i].phase == Checking(n + 1, once)
              else line[i].phase == (if outcome == Success then Done else Failed) && (outcome != Success ==> failed)
    {
      hide Inv, NamesInv, Moved, Ascending, Next, Enabled, Active;
      AttemptIs(Abs(), i, outcome, pages);
      CheckOnce(Abs(), i, outcome, pages);
      attempts := attempts + 1;
      var n, retryOnce := line[i].phase.n + 1, line[i].phase.once;
      match outcome {
        case Success => Add(i); return;
        case RetryOnce => retryOnce := retryOnce + 1;
        case Retry =>
        case _ => Fail(i); return;
      }
      if n >= WHOLE_ATTEMPTS || retryOnce >= RETRY_ONCE_LIMIT {
        Fail(i);
      } else {
        Go(i, Checking(n, retryOnce));
      }
    }

    /** A part gave up while it waited. */
    method Abandon(i: nat, ghost pages: Pages)
      requires Valid(pages) && i < |line| && Active(line[i].phase)
      modifies this
      ensures Valid(pages) && Abs() == Next(old(Abs()), GiveUp(i))
    {
      NextKeeps(Abs(), GiveUp(i), pages);
      NextNames(Abs(), GiveUp(i), pages);
      hide Inv, NamesInv, Moved, Ascending;
      Fail(i);
    }

    /** A part cut in two, both started; `writable` says how many halves the cutter manages to write. */
    method CutInTwo(i: nat, writable: nat, ghost pages: Pages)
      requires Valid(pages) && i < |line| && line[i].phase == Cutting && |line[i].pages| >= 2 && writable <= 2
      modifies this
      ensures Valid(pages) && Abs() == Next(old(Abs()), Cut(i, writable))
    {
      hide Inv, NamesInv, Moved, Ascending, Halve, Next, Enabled, NameOf;
      CutSteps(Abs(), i, writable, pages);
      var (first, second) := Halve(line[i].pages);
      var halves := [first, second];
      var k := 0;
      while k < 2
        invariant 0 <= k <= 2 && k <= writable
        invariant Abs() == Written(old(Abs()), [NameOf(first), NameOf(second)], k)
      {
        if k == writable {
          Fail(i);
          return;
        }
        files := files + [NameOf(halves[k])];
        k := k + 1;
        WrittenMore(old(Abs()), NameOf(first), NameOf(second), k);
      }
      line := line[..i] + [Slot(first, Trying(0)), Slot(second, Trying(0))] + line[i + 1..];
    }
  }

  /** f with the first k of the names written. */
  function Written(f: Fan, names: seq<Name>, k: nat): Fan
    requires k <= |names|
  {
    f.(files := f.files + names[..k])
  }

  lemma WrittenMore(f: Fan, first: Name, second: Name, k: nat)
    requires 0 < k <= 2
    ensures var names := [first, second];
            Written(f, names, k) == Written(f, names, k - 1).(files := Written(f, names, k - 1).files + [names[k - 1]])
    ensures Written(f, [first, second], 0) == f
  {
    var names := [first, second];
    assert names[..k] == names[..k - 1] + [names[k - 1]];
    assert f.files + names[..k] == (f.files + names[..k - 1]) + [names[k - 1]];
    assert f.files + names[..0] == f.files;
  }

  /** What cutting a part comes to, as far as its halves can be written. */
  lemma CutSteps(f: Fan, i: nat, made: nat, pages: Pages)
    requires Inv(f, pages) && NamesInv(f) && Ascending(pages) && i < |f.line|
    requires f.line[i].phase == Cutting && |f.line[i].pages| >= 2 && made <= 2
    ensures Enabled(f, Cut(i, made)) && Inv(Next(f, Cut(i, made)), pages) && NamesInv(Next(f, Cut(i, made)))
    ensures var halves := Halve(f.line[i].pages);
            var names := [NameOf(halves.0), NameOf(halves.1)];
            && Written(f, names, 0) == f
            && (made < 2 ==> Next(f, Cut(i, made)) == Moved(Written(f, names, made), i, Failed))
            && (made == 2 ==> Next(f, Cut(i, made)) == Written(f, names, 2).(
                  line := f.line[..i] + [Slot(halves.0, Trying(0)), Slot(halves.1, Trying(0))] + f.line[i + 1..]))
  {
    NextKeeps(f, Cut(i, made), pages);
    NextNames(f, Cut(i, made), pages);
    hide Inv, NamesInv, Moved, Ascending, Halve, NameOf;
    assert f.files + [] == f.files;
  }

  /** The check before the merge: the pages of the sorted results, one after another, are those selected. */
  method Covered(sorted: seq<Pages>, selected: Pages) returns (ok: bool)
    ensures ok <==> Concat(sorted) == selected
  {
    var covered: Pages := [];
    assert sorted[..0] == [];
    for i := 0 to |sorted|
      invariant covered == Concat(sorted[..i])
    {
      assert sorted[..i + 1] == sorted[..i] + [sorted[i]];
      ConcatLast(sorted[..i], sorted[i]);
      covered := covered + sorted[i];
    }
    assert sorted[..|sorted|] == sorted;
    ok := covered == selected;
  }
}

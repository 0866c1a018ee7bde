/**
 * A job's parts in flight (internal/engine/parts.go, whole.go): every part is tried, halved and re-checked on
 * its own, and what each upstream call answers is anybody's choice. A step is what one part does between two
 * waits.
 */
module FanSpec {
  import opened Planning

  const PART_ATTEMPTS := 3
  const WHOLE_ATTEMPTS := 5
  const RETRY_ONCE_LIMIT := 2

  /** How an attempt ended. */
  datatype Outcome = Success | Cancelled | AnalysisFailed | RouteMissing | RetryOnce | Retry | Terminal

  /**
   * What a part is at: Trying after n attempts at its size; Cutting once those are used up; Checking the
   * original document for its pages, after n attempts of which `once` were of the RetryOnce class.
   */
  datatype Phase = Trying(n: nat) | Cutting | Checking(n: nat, once: nat) | Done | Failed

  datatype Slot = Slot(pages: Pages, phase: Phase)

  /** A part file's name: its first and last page. */
  type Name = (int, int)

  /**
   * The job: its parts in the order of their pages, the pages of the results in the order they came in, whether
   * a part has failed the job, the attempts counted so far, and the names of the part files written.
   */
  datatype Fan = Fan(line: seq<Slot>, results: seq<Pages>, failed: bool, attempts: nat, files: seq<Name>)

  /**
   * A step of part i: an attempt came back; the part file was cut, `made` of its halves written; or the part
   * gave up while it waited for a slot or between two attempts.
   */
  datatype Step = Attempt(i: nat, outcome: Outcome) | Cut(i: nat, made: nat) | GiveUp(i: nat)

  predicate Active(p: Phase) { p.Trying? || p.Cutting? || p.Checking? }

  predicate Waits(p: Phase) { p.Trying? || p.Checking? }

  function NameOf(pages: Pages): Name
    requires pages != []
  {
    (pages[0], pages[|pages| - 1])
  }

  predicate Enabled(f: Fan, e: Step) {
    match e
    case Attempt(i, _) => i < |f.line| && Waits(f.line[i].phase)
    case Cut(i, made) => i < |f.line| && f.line[i].phase == Cutting && |f.line[i].pages| >= 2 && made <= 2
    case GiveUp(i) => i < |f.line| && Active(f.line[i].phase)
  }

  /** Where an attempt leaves a part of `size` pages. */
  function Tried(phase: Phase, size: nat, outcome: Outcome): Phase
    requires Waits(phase)
  {
    match outcome
    case Success => Done
    case Cancelled => Failed
    case RouteMissing => Failed
    case AnalysisFailed => if phase.Trying? then Checking(0, 0) else Failed
    case Terminal => if phase.Trying? then Checking(0, 0) else Failed
    case _ =>
      if phase.Trying? then
        if phase.n + 1 < PART_ATTEMPTS then Trying(phase.n + 1) else if size < 2 then Checking(0, 0) else Cutting
      else
        var once := phase.once + if outcome == RetryOnce then 1 else 0;
        if phase.n + 1 >= WHOLE_ATTEMPTS || once >= RETRY_ONCE_LIMIT then Failed else Checking(phase.n + 1, once)
  }

  /** Part i moved on; a result is kept, a failure fails the job. */
  function Moved(f: Fan, i: nat, phase: Phase): Fan
    requires i < |f.line|
  {
    f.(line := f.line[i := f.line[i].(phase := phase)],
       results := f.results + if phase == Done then [f.line[i].pages] else [],
       failed := f.failed || phase == Failed)
  }

  function Next(f: Fan, e: Step): Fan
    requires Enabled(f, e)
  {
    match e
    case Attempt(i, outcome) =>
      Moved(f.(attempts := f.attempts + 1), i, Tried(f.line[i].phase, |f.line[i].pages|, outcome))
    case GiveUp(i) => Moved(f, i, Failed)
    case Cut(i, made) =>
      var halves := Halve(f.line[i].pages);
      var named := f.(files := f.files + [NameOf(halves.0), NameOf(halves.1)][..made]);
      if made < 2 then Moved(named, i, Failed)
      else named.(line := f.line[..i] + [Slot(halves.0, Trying(0)), Slot(halves.1, Trying(0))] + f.line[i + 1..])
  }

  /** A job as it starts, each planned part in its own file. */
  function Initial(parts: seq<Pages>): Fan
    requires forall i :: 0 <= i < |parts| ==> parts[i] != []
  {
    Fan(seq(|parts|, i requires 0 <= i < |parts| => Slot(parts[i], Trying(0))), [], false, 0,
        seq(|parts|, i requires 0 <= i < |parts| => NameOf(parts[i])))
  }

  /** f after all the steps, if each could happen. */
  ghost predicate Reaches(f: Fan, steps: seq<Step>, g: Fan)
    decreases |steps|
  {
    if steps == [] then f == g
    else Enabled(f, steps[0]) && Reaches(Next(f, steps[0]), steps[1..], g)
  }

  function PagesOf(line: seq<Slot>): seq<Pages> { seq(|line|, i requires 0 <= i < |line| => line[i].pages) }

  // What every step keeps.

  /** The parts are the selected pages, in order, and each has some. */
  predicate Covers(line: seq<Slot>, pages: Pages) {
    Concat(PagesOf(line)) == pages && forall i :: 0 <= i < |line| ==> line[i].pages != []
  }

  /** A part of one page is never to be cut. */
  predicate Phased(line: seq<Slot>) {
    forall i :: 0 <= i < |line| ==>
      && (line[i].phase.Trying? ==> line[i].phase.n < PART_ATTEMPTS)
      && (line[i].phase.Cutting? ==> |line[i].pages| >= 2)
      && (line[i].phase.Checking? ==> line[i].phase.n < WHOLE_ATTEMPTS && line[i].phase.once < RETRY_ONCE_LIMIT)
  }

  /** The pages of the parts that are done. */
  function DonePages(line: seq<Slot>): multiset<Pages>
    decreases |line|
  {
    if line == [] then multiset{}
    else DonePages(line[..|line| - 1])
         + if line[|line| - 1].phase == Done then multiset{line[|line| - 1].pages} else multiset{}
  }

  lemma PagesJoin(a: seq<Slot>, b: seq<Slot>)
    ensures PagesOf(a + b) == PagesOf(a) + PagesOf(b)
  {}

  lemma DoneLast(line: seq<Slot>, s: Slot)
    ensures DonePages(line + [s]) == DonePages(line) + if s.phase == Done then multiset{s.pages} else multiset{}
  {
    assert (line + [s])[..|line|] == line;
  }

  lemma {:induction false} DoneJoin(a: seq<Slot>, b: seq<Slot>)
    ensures DonePages(a + b) == DonePages(a) + DonePages(b)
    decreases |b|
  {
    if b == [] {
      assert a + b == a;
    } else {
      hide DonePages;
      var most, last := b[..|b| - 1], b[|b| - 1];
      assert b == most + [last] && a + b == (a + most) + [last];
      DoneJoin(a, most);
      DoneLast(a + most, last);
      DoneLast(most, last);
    }
  }

  /** A line around its part i. */
  lemma Around(line: seq<Slot>, i: nat)
    requires i < |line|
    ensures line == line[..i] + ([line[i]] + line[i + 1..])
  {}

  lemma One(s: Slot)
    ensures PagesOf([s]) == [s.pages] && Concat([s.pages]) == s.pages
    ensures DonePages([s]) == if s.phase == Done then multiset{s.pages} else multiset{}
  {
    assert [s][..0] == [] && [s.pages][..0] == [] && [] + s.pages == s.pages;
  }

  lemma LineParts(a: seq<Slot>, mid: seq<Slot>, b: seq<Slot>)
    ensures Concat(PagesOf(a + (mid + b))) == Concat(PagesOf(a)) + (Concat(PagesOf(mid)) + Concat(PagesOf(b)))
    ensures DonePages(a + (mid + b)) == DonePages(a) + (DonePages(mid) + DonePages(b))
  {
    PagesJoin(mid, b);
    PagesJoin(a, mid + b);
    ConcatJoin(PagesOf(mid), PagesOf(b));
    ConcatJoin(PagesOf(a), PagesOf(mid) + PagesOf(b));
    DoneJoin(mid, b);
    DoneJoin(a, mid + b);
  }

  /** Part i replaced by others with its pages, none of them done if it was not. */
  lemma Replaced(line: seq<Slot>, i: nat, mid: seq<Slot>)
    requires i < |line| && Concat(PagesOf(mid)) == line[i].pages && line[i].phase != Done
    ensures var next := line[..i] + (mid + line[i + 1..]);
            && Concat(PagesOf(next)) == Concat(PagesOf(line))
            && DonePages(next) == DonePages(line) + DonePages(mid)
  {
    Around(line, i);
    One(line[i]);
    LineParts(line[..i], [line[i]], line[i + 1..]);
    LineParts(line[..i], mid, line[i + 1..]);
  }

  lemma Updated(line: seq<Slot>, i: nat, s: Slot)
    requires i < |line|
    ensures line[i := s] == line[..i] + ([s] + line[i + 1..])
  {}

  /** The results are those of the parts that are done; and unless the job failed no part has. */
  ghost predicate Accounted(f: Fan) {
    && multiset(f.results) == DonePages(f.line)
    && (!f.failed ==> forall i :: 0 <= i < |f.line| ==> f.line[i].phase != Failed)
  }

  ghost predicate Inv(f: Fan, pages: Pages) {
    Covers(f.line, pages) && Phased(f.line) && Accounted(f)
  }

  /** Every part of the line is as the invariant has it, taken alone. */
  predicate SlotOk(s: Slot, failed: bool) {
    && s.pages != []
    && (s.phase.Trying? ==> s.phase.n < PART_ATTEMPTS)
    && (s.phase.Cutting? ==> |s.pages| >= 2)
    && (s.phase.Checking? ==> s.phase.n < WHOLE_ATTEMPTS && s.phase.once < RETRY_ONCE_LIMIT)
    && (!failed ==> s.phase != Failed)
  }

  predicate AllOk(line: seq<Slot>, failed: bool) { forall i :: 0 <= i < |line| ==> SlotOk(line[i], failed) }

  lemma InvParts(f: Fan, pages: Pages)
    ensures Inv(f, pages) <==>
      && Concat(PagesOf(f.line)) == pages && AllOk(f.line, f.failed) && multiset(f.results) == DonePages(f.line)
  {
    if Inv(f, pages) {
      forall i | 0 <= i < |f.line| ensures SlotOk(f.line[i], f.failed) {}
    }
    if AllOk(f.line, f.failed) {
      forall i | 0 <= i < |f.line| ensures SlotOk(f.line[i], f.failed) {}
    }
  }

  lemma OkReplaced(line: seq<Slot>, i: nat, mid: seq<Slot>, was: bool, failed: bool)
    requires i < |line| && AllOk(line, was) && AllOk(mid, failed) && (was ==> failed)
    ensures AllOk(line[..i] + (mid + line[i + 1..]), failed)
  {}

  lemma OneOk(s: Slot, failed: bool)
    requires SlotOk(s, failed)
    ensures AllOk([s], failed)
  {}

  lemma MovedIs(f: Fan, i: nat, phase: Phase)
    requires i < |f.line|
    ensures var g, s := Moved(f, i, phase), f.line[i].(phase := phase);
            && g.line == f.line[..i] + ([s] + f.line[i + 1..])
            && g.failed == (f.failed || phase == Failed)
            && multiset(g.results) == multiset(f.results) + if phase == Done then multiset{s.pages} else multiset{}
  {
    var s := f.line[i].(phase := phase);
    Updated(f.line, i, s);
    assert multiset(f.results + [s.pages]) == multiset(f.results) + multiset{s.pages};
    assert f.results + [] == f.results;
  }

  lemma MovedKeeps(f: Fan, i: nat, phase: Phase, pages: Pages)
    requires Inv(f, pages) && i < |f.line| && Active(f.line[i].phase)
    requires SlotOk(f.line[i].(phase := phase), f.failed || phase == Failed)
    ensures Inv(Moved(f, i, phase), pages)
  {
    var s := f.line[i].(phase := phase);
    hide Concat, DonePages, PagesOf, Moved, Inv, AllOk, SlotOk;
    InvParts(f, pages);
    InvParts(Moved(f, i, phase), pages);
    MovedIs(f, i, phase);
    One(s);
    Replaced(f.line, i, [s]);
    OneOk(s, f.failed || phase == Failed);
    OkReplaced(f.line, i, [s], f.failed, f.failed || phase == Failed);
  }

  /** The fresh halves of a part have its pages, and none is done. */
  lemma HalvesAre(p: Pages)
    requires |p| >= 2
    ensures var halves := Halve(p);
            var mid := [Slot(halves.0, Trying(0)), Slot(halves.1, Trying(0))];
            Concat(PagesOf(mid)) == p && DonePages(mid) == multiset{} && AllOk(mid, false) && AllOk(mid, true)
  {
    var halves := Halve(p);
    var a, b := Slot(halves.0, Trying(0)), Slot(halves.1, Trying(0));
    One(a);
    One(b);
    PagesJoin([a], [b]);
    ConcatJoin([a.pages], [b.pages]);
    DoneJoin([a], [b]);
    assert [a] + [b] == [a, b];
  }

  lemma CutIs(f: Fan, i: nat)
    requires Enabled(f, Cut(i, 2))
    ensures i < |f.line|
    ensures var halves, g := Halve(f.line[i].pages), Next(f, Cut(i, 2));
            && g.line == f.line[..i] + ([Slot(halves.0, Trying(0)), Slot(halves.1, Trying(0))] + f.line[i + 1..])
            && g.failed == f.failed && g.results == f.results && |f.line[i].pages| >= 2 && f.line[i].phase == Cutting
            && g.attempts == f.attempts && g.files == f.files + [NameOf(halves.0), NameOf(halves.1)]
  {
    var halves := Halve(f.line[i].pages);
    assert [NameOf(halves.0), NameOf(halves.1)][..2] == [NameOf(halves.0), NameOf(halves.1)];
  }

  lemma CutKeeps(f: Fan, i: nat, pages: Pages)
    requires Inv(f, pages) && Enabled(f, Cut(i, 2))
    ensures Inv(Next(f, Cut(i, 2)), pages)
  {
    hide *;
    CutIs(f, i);
    var halves := Halve(f.line[i].pages);
    InvParts(f, pages);
    InvParts(Next(f, Cut(i, 2)), pages);
    HalvesAre(f.line[i].pages);
    var mid := [Slot(halves.0, Trying(0)), Slot(halves.1, Trying(0))];
    Replaced(f.line, i, mid);
    OkReplaced(f.line, i, mid, f.failed, f.failed);
  }

  lemma NextKeeps(f: Fan, e: Step, pages: Pages)
    requires Inv(f, pages) && Enabled(f, e)
    ensures Inv(Next(f, e), pages)
  {
    hide Accounted, Moved, Concat;
    match e
    case Attempt(i, outcome) =>
      assert Inv(f.(attempts := f.attempts + 1), pages) by { InvIgnores(f, f.attempts + 1, f.files, pages); }
      MovedKeeps(f.(attempts := f.attempts + 1), i, Tried(f.line[i].phase, |f.line[i].pages|, outcome), pages);
    case GiveUp(i) => MovedKeeps(f, i, Failed, pages);
    case Cut(i, made) =>
      if made < 2 {
        var halves := Halve(f.line[i].pages);
        var files := f.files + [NameOf(halves.0), NameOf(halves.1)][..made];
        InvIgnores(f, f.attempts, files, pages);
        MovedKeeps(f.(files := files), i, Failed, pages);
      } else {
        CutKeeps(f, i, pages);
      }
  }

  lemma InvIgnores(f: Fan, attempts: nat, files: seq<Name>, pages: Pages)
    requires Inv(f, pages)
    ensures Inv(f.(attempts := attempts), pages) && Inv(f.(files := files), pages)
  {}

  // Enough attempts, and an end.

  /** The most attempts a part of m pages can still cost: its halving tree tries 2m - 1 sizes, and re-checks m parts. */
  function Fresh(m: nat): int { PART_ATTEMPTS * (2 * m - 1) + WHOLE_ATTEMPTS * m }

  function Left(s: Slot): int {
    var m := |s.pages|;
    match s.phase
    case Trying(n) => Fresh(m) - n
    case Cutting => Fresh(m) - PART_ATTEMPTS
    case Checking(n, _) => WHOLE_ATTEMPTS - n
    case _ => 0
  }

  /** Steps a part can still take: its attempts, its cuts, and its end. */
  function StepsLeft(s: Slot): int {
    Left(s) + (if s.phase.Trying? || s.phase.Cutting? then 2 * (|s.pages| - 1) else 0)
    + if Active(s.phase) then 1 else 0
  }

  function AllLeft(line: seq<Slot>): int
    decreases |line|
  {
    if line == [] then 0 else AllLeft(line[..|line| - 1]) + Left(line[|line| - 1])
  }

  function AllSteps(line: seq<Slot>): int
    decreases |line|
  {
    if line == [] then 0 else AllSteps(line[..|line| - 1]) + StepsLeft(line[|line| - 1])
  }

  lemma {:induction false} SumJoin(a: seq<Slot>, b: seq<Slot>)
    ensures AllLeft(a + b) == AllLeft(a) + AllLeft(b) && AllSteps(a + b) == AllSteps(a) + AllSteps(b)
    decreases |b|
  {
    if b == [] {
      assert a + b == a;
    } else {
      SumJoin(a, b[..|b| - 1]);
      assert (a + b)[..|a + b| - 1] == a + b[..|b| - 1];
    }
  }

  lemma SumOne(s: Slot)
    ensures AllLeft([s]) == Left(s) && AllSteps([s]) == StepsLeft(s)
  {
    assert [s][..0] == [];
  }

  lemma SumReplaced(line: seq<Slot>, i: nat, mid: seq<Slot>)
    requires i < |line|
    ensures var next := line[..i] + (mid + line[i + 1..]);
            && AllLeft(next) == AllLeft(line) - Left(line[i]) + AllLeft(mid)
            && AllSteps(next) == AllSteps(line) - StepsLeft(line[i]) + AllSteps(mid)
  {
    hide *;
    Around(line, i);
    SumOne(line[i]);
    SumJoin([line[i]], line[i + 1..]);
    SumJoin(line[..i], [line[i]] + line[i + 1..]);
    SumJoin(mid, line[i + 1..]);
    SumJoin(line[..i], mid + line[i + 1..]);
  }

  lemma SumHalves(p: Pages)
    requires |p| >= 2
    ensures var halves := Halve(p);
            var a, b := Slot(halves.0, Trying(0)), Slot(halves.1, Trying(0));
            && AllLeft([a, b]) == Left(Slot(p, Cutting)) && AllSteps([a, b]) == StepsLeft(Slot(p, Cutting)) - 1
  {
    var halves := Halve(p);
    var a, b := Slot(halves.0, Trying(0)), Slot(halves.1, Trying(0));
    SumOne(a);
    SumOne(b);
    SumJoin([a], [b]);
    assert [a] + [b] == [a, b];
    assert |p| == |halves.0| + |halves.1|;
  }

  lemma MovedSpends(f: Fan, i: nat, phase: Phase)
    requires i < |f.line|
    ensures var s := f.line[i].(phase := phase);
            && AllLeft(Moved(f, i, phase).line) == AllLeft(f.line) - Left(f.line[i]) + Left(s)
            && AllSteps(Moved(f, i, phase).line) == AllSteps(f.line) - StepsLeft(f.line[i]) + StepsLeft(s)
  {
    var s := f.line[i].(phase := phase);
    hide AllLeft, AllSteps, Left, StepsLeft;
    Updated(f.line, i, s);
    SumReplaced(f.line, i, [s]);
    SumOne(s);
  }

  /** An attempt spends one of those left; nothing adds to them, and every step brings the end nearer. */
  lemma NextSpends(f: Fan, e: Step, pages: Pages)
    requires Inv(f, pages) && Enabled(f, e)
    ensures Next(f, e).attempts + AllLeft(Next(f, e).line) <= f.attempts + AllLeft(f.line)
    ensures AllSteps(Next(f, e).line) < AllSteps(f.line)
  {
    hide Accounted, Concat, AllLeft, AllSteps, DonePages;
    var i := e.i;
    match e
    case Attempt(_, outcome) =>
      MovedSpends(f.(attempts := f.attempts + 1), i, Tried(f.line[i].phase, |f.line[i].pages|, outcome));
    case GiveUp(_) => MovedSpends(f, i, Failed);
    case Cut(_, made) =>
      if made < 2 {
        var halves := Halve(f.line[i].pages);
        MovedSpends(f.(files := f.files + [NameOf(halves.0), NameOf(halves.1)][..made]), i, Failed);
      } else {
        CutIs(f, i);
        var halves := Halve(f.line[i].pages);
        SumHalves(f.line[i].pages);
        SumReplaced(f.line, i, [Slot(halves.0, Trying(0)), Slot(halves.1, Trying(0))]);
      }
  }
}

/**
 * The merge of the parts' sections as the program runs it (continue.go, sections.go, check.go:357-374,
 * di.go:213-257): plan every part, then shift every part, then write the merged array once.
 */
module Merger {
  import opened Sections
  import opened Forest
  import opened Lead
  import opened Renumber
  import opened Fold
  import opened Incremental
  import opened LeftOpen
  import opened Document
  import opened Deferred
  import opened Leading

  /** How many of a part's sections and root elements are left out, or whether all its root's are. */
  datatype Mark = Mark(secDrop: nat, rootDrop: nat, moved: bool)

  function MarkOf(s: Shape): Mark { Mark(SecDrop(s), RootDrop(s), s.Moved?) }

  function MarksOf(shapes: seq<Shape>): (r: seq<Mark>)
    ensures |r| == |shapes|
    ensures forall k :: 0 <= k < |shapes| ==> r[k] == MarkOf(shapes[k])
  {
    seq(|shapes|, k requires 0 <= k < |shapes| => MarkOf(shapes[k]))
  }

  /** The first shapes, and no continuation after them. */
  function Padded(shapes: seq<Shape>, n: nat): (r: seq<Shape>)
    requires |shapes| <= n
    ensures |r| == n
    ensures forall k :: 0 <= k < n ==> r[k] == if k < |shapes| then shapes[k] else Apart
  {
    seq(n, k requires 0 <= k < n => if k < |shapes| then shapes[k] else Apart)
  }

  /** The continuations so far depend on the parts so far alone. */
  lemma {:induction false} FoldsSame(parts: seq<Part>, a: seq<Shape>, b: seq<Shape>, j: nat)
    requires j <= |parts| == |a| == |b| && PlanTo(parts, j).Ok? && forall k :: 0 <= k < j ==> a[k] == b[k]
    ensures FoldsTo(parts, a, j) == FoldsTo(parts, b, j)
    decreases j
  {
    hide ShapeOf, NextOpen, FoldIn, OpenPath;
    if j > 0 { FoldsSame(parts, a, b, j - 1); }
  }

  lemma PaddedNext(parts: seq<Part>, j: nat)
    requires j < |parts| && PlanTo(parts, j + 1).Ok?
    ensures PlanTo(parts, j).Ok?
    ensures var a := Padded(PlanTo(parts, j).value.shapes, |parts|);
            var b := Padded(PlanTo(parts, j + 1).value.shapes, |parts|);
            FoldsTo(parts, a, j) == FoldsTo(parts, b, j) && b == a[j := b[j]]
  {
    hide ShapeOf, NextOpen, FoldsTo, OpenPath;
    FoldsSame(parts, Padded(PlanTo(parts, j).value.shapes, |parts|),
              Padded(PlanTo(parts, j + 1).value.shapes, |parts|), j);
  }

  /** Content of a root that goes to the deepest open section, and its spans to those above. */
  lemma LeaderIs(p: Part, k: nat, s: Shape, depth: nat, conts: seq<Option<Continuation>>, c: Continuation)
    requires (s.Moved? || (s.Run? && s.n <= |RootElems(p)|)) && |conts| == depth > 0
    requires c == Continuation(k, Some(if s.Run? then RootElems(p)[..s.n] else RootElems(p)),
                               if s.Run? then s.spans else RootSpans(p))
    requires forall d :: 0 <= d < |conts| - 1 ==> conts[d] == Some(Continuation(c.k, None, c.spans))
    requires conts[|conts| - 1] == Some(c)
    ensures LeaderOf(p, k, s, depth) == Some(Leader(conts, []))
  {
    forall d | 0 <= d < depth ensures conts[d] == Gives(p, k, s, depth, d + 1) {
      if d == depth - 1 { assert d == |conts| - 1; }
    }
    assert Into(s, depth) == [];
    hide Gives;
    assert LeaderOf(p, k, s, depth).value.conts == conts;
  }

  /** Where the content after part k starts. */
  lemma ShiftNext(parts: seq<Part>, shapes: seq<Shape>, sep: nat, k: nat)
    requires k < |parts| == |shapes|
    ensures var p, ptr := parts[k], BasesTo(parts, k);
            && CharTo(parts, sep, k + 1) == CharTo(parts, sep, k) + p.length + sep
            && BasesTo(parts, k + 1) == Bases(ptr.paragraphs + |p.paragraphs|, ptr.tables + |p.tables|,
                                              ptr.figures + |p.figures|, ptr.pairs + |p.pairs|)
            && SecsTo(parts, shapes, k + 1) == SecsTo(parts, shapes, k) + Kept(p, shapes[k])
            && MarkOf(shapes[k]).secDrop == SecDrop(shapes[k])
  {
    hide SecDrop, Kept;
  }

  lemma KeptIs(p: Part, s: Shape)
    ensures Kept(p, s) == if |p.sections| < 1 + SecDrop(s) then 0 else |p.sections| - 1 - SecDrop(s)
    ensures p.sections == [] ==> Kept(p, s) == 0
  {}

  lemma ShiftIs(parts: seq<Part>, shapes: seq<Shape>, sep: nat, k: nat)
    requires k < |parts| == |shapes|
    ensures ShiftOf(parts, shapes, sep, k)
      == Shift(k, CharTo(parts, sep, k), if k == 0 then 0 else CharTo(parts, sep, k - 1) + parts[k - 1].length,
               BasesTo(parts, k), SecsTo(parts, shapes, k), SecDrop(shapes[k]))
  {}

  lemma ShiftsAre(parts: seq<Part>, shapes: seq<Shape>, sep: nat, shifts: seq<Shift>)
    requires |shifts| == |parts| == |shapes| && forall i :: 0 <= i < |shifts| ==>
             shifts[i] == ShiftOf(parts, shapes, sep, i)
    ensures shifts == Shifts(parts, shapes, sep)
  {
    hide ShiftOf;
  }

  lemma FirstShift(parts: seq<Part>, shapes: seq<Shape>, sep: nat)
    ensures CharTo(parts, sep, 0) == 0 && BasesTo(parts, 0) == Bases(0, 0, 0, 0) && SecsTo(parts, shapes, 0) == 1
  {}

  class Merger {
    const parts: seq<Part>
    const sep: nat
    var marks: seq<Mark>
    var folds: Folds
    var shifts: seq<Shift>

    constructor (parts: seq<Part>, sep: nat)
      ensures this.parts == parts && this.sep == sep
      ensures marks == MarksOf(Padded([], |parts|)) && folds == map[] && shifts == []
    {
      this.parts, this.sep := parts, sep;
      marks, folds, shifts := seq(|parts|, _ => Mark(0, 0, false)), map[], [];
    }

    /** Whether part k's leading content continues the depth open sections, and how. */
    method LeadingContinuation(k: nat, depth: nat) returns (r: Outcome<Option<Leader>>)
      requires k < |parts| == |marks| && parts[k].sections != [] && marks[k] == MarkOf(Apart)
      modifies this`marks
      ensures r.Refused? <==> ShapeOf(parts[k], k, depth).Refused?
      ensures r.Ok? ==>
                var s := ShapeOf(parts[k], k, depth).value;
                r.value == LeaderOf(parts[k], k, s, depth) && marks == old(marks)[k := MarkOf(s)]
    {
      var p := parts[k];
      var elems := RootElems(p);
      if depth == 0 || k == 0 || elems == [] || IsHeading(p, elems[0]) { return Ok(None); }
      if |p.sections| == 1 {
        var j := 0;
        while j < |elems| && elems[j].Leaf?
          invariant j <= |elems| && forall n :: 0 <= n < j ==> elems[n].Leaf?
        {
          j := j + 1;
        }
        if j < |elems| { return Ok(None); }
        marks := marks[k := Mark(0, 0, true)];
        var conts := Content(seq(depth, _ => None), Continuation(k, Some(elems), RootSpans(p)), 0);
        LeaderIs(p, k, Moved, depth, conts, Continuation(k, Some(elems), RootSpans(p)));
        return Ok(Some(Leader(conts, [])));
      }
      if elems[0].Leaf? {
        var run := FindRun(p);
        if run.Refused? { return Refused; }
        if run.value.Apart? { return Ok(None); }
        var n := run.value.n;
        marks := marks[k := Mark(0, n, false)];
        var conts := Content(seq(depth, _ => None), Continuation(k, Some(elems[..n]), run.value.spans), 0);
        LeaderIs(p, k, run.value, depth, conts, Continuation(k, Some(elems[..n]), run.value.spans));
        return Ok(Some(Leader(conts, [])));
      }
      if elems[0].i != 1 { return Ok(None); }
      var chain := FindChain(p, depth);
      if chain.Refused? { return Refused; }
      if chain.value == [] { return Ok(None); }
      var links := chain.value;
      var l := FoldChain(p, k, depth, links, !links[|links| - 1].wrapper);
      marks := marks[k := Mark(|links|, 1, false)];
      return Ok(Some(l));
    }

    /** Gives each open section what part k continues it with. */
    method FoldLead(k: nat, open: seq<At>, l: Leader, ghost s: Shape)
      requires k < |parts| && Some(l) == LeaderOf(parts[k], k, s, |open|)
      modifies this`folds
      ensures folds == FoldIn(old(folds), open, parts[k], k, s, |open|)
    {
      for d := 0 to |open|
        invariant folds == FoldIn(old(folds), open, parts[k], k, s, d)
      {
        var c := l.conts[d];
        if c.Some? { folds := folds[open[d] := Collected(folds, open[d]) + [c.value]]; }
      }
    }

    /** Plans part k, and finds the sections left open after it. */
    method PlanPart(k: nat, open: seq<At>) returns (ok: bool, next: seq<At>)
      requires k < |parts| == |marks| && parts[k].sections != [] && marks[k] == MarkOf(Apart)
      modifies this`marks, this`folds
      ensures ok <==> ShapeOf(parts[k], k, |open|).Ok?
      ensures ok ==>
                var s := ShapeOf(parts[k], k, |open|).value;
                && marks == old(marks)[k := MarkOf(s)]
                && folds == FoldIn(old(folds), open, parts[k], k, s, |open|)
                && next == NextOpen(parts[k], k, open, s)
    {
      var p := parts[k];
      var r := LeadingContinuation(k, |open|);
      if r.Refused? { return false, open; }
      ok := true;
      ghost var s := ShapeOf(p, k, |open|).value;
      var into: seq<nat> := [];
      if r.value.Some? {
        FoldLead(k, open, r.value.value, s);
        into := r.value.value.into;
      } else {
        NothingFolded(folds, open, p, k, |open|);
      }
      hide ShapeOf, FoldIn;
      next := open;
      if !marks[k].moved {
        var path := FindOpenPath(p);
        if path != [] {
          assert into == Into(s, |open|);
          next := FindReopened(k, open, into, path);
        } else if |RootElems(p)| > marks[k].rootDrop {
          next := [];
        }
      }
    }

    /** Decides, part by part, what continues what; refused if a part cannot be read as planned. */
    method PlanContinuations() returns (ok: bool)
      requires marks == MarksOf(Padded([], |parts|)) && folds == map[]
      modifies this`marks, this`folds
      ensures ok <==> PlanTo(parts, |parts|).Ok?
      ensures ok ==>
                var shapes := PlanTo(parts, |parts|).value.shapes;
                marks == MarksOf(shapes) && folds == FoldsTo(parts, shapes, |parts|)
    {
      hide *;
      NothingPlanned(parts);
      var open: seq<At> := [];
      for j := 0 to |parts|
        invariant PlanTo(parts, j).Ok? && open == PlanTo(parts, j).value.open
        invariant marks == MarksOf(Padded(PlanTo(parts, j).value.shapes, |parts|))
        invariant folds == FoldsTo(parts, Padded(PlanTo(parts, j).value.shapes, |parts|), j)
      {
        ghost var s := Apart;
        if parts[j].sections != [] {
          PlanRefused(parts, j + 1, |parts|);
          PlanFollows(parts, j);
          FreshMark(parts, j);
          var next;
          ok, next := PlanPart(j, open);
          if !ok { return; }
          s := ShapeOf(parts[j], j, |open|).value;
          open := next;
        }
        PlanNext(parts, j, s);
      }
      AllPadded(PlanTo(parts, |parts|).value.shapes);
      ok := true;
    }

    /** Sets each part's shifts: the content and items of all earlier parts, and where its sections land. */
    method ShiftParts(ghost shapes: seq<Shape>)
      requires |shapes| == |parts| && marks == MarksOf(shapes)
      modifies this`shifts
      ensures shifts == Shifts(parts, shapes, sep)
    {
      hide *;
      var start, prevEnd, sec := 0, 0, 1;
      var ptr := Bases(0, 0, 0, 0);
      FirstShift(parts, shapes, sep);
      shifts := [];
      for k := 0 to |parts|
        invariant |shifts| == k && forall i :: 0 <= i < k ==> shifts[i] == ShiftOf(parts, shapes, sep, i)
        invariant start == CharTo(parts, sep, k) && ptr == BasesTo(parts, k) && sec == SecsTo(parts, shapes, k)
        invariant prevEnd == if k == 0 then 0 else CharTo(parts, sep, k - 1) + parts[k - 1].length
      {
        var p := parts[k];
        ShiftIs(parts, shapes, sep, k);
        ShiftNext(parts, shapes, sep, k);
        KeptIs(p, shapes[k]);
        shifts := shifts + [Shift(k, start, prevEnd, ptr, sec, marks[k].secDrop)];
        prevEnd := start + p.length;
        start := prevEnd + sep;
        ptr := Bases(ptr.paragraphs + |p.paragraphs|, ptr.tables + |p.tables|, ptr.figures + |p.figures|,
                     ptr.pairs + |p.pairs|);
        if |p.sections| > 0 {
          sec := sec + if |p.sections| < 1 + marks[k].secDrop then 0 else |p.sections| - 1 - marks[k].secDrop;
        }
      }
      ShiftsAre(parts, shapes, sep, shifts);
    }

    /** The visitor's pointer rule: an item of the part, and no section folded away. */
    method Pointer(k: nat, e: Elem) returns (r: Outcome<Elem>)
      requires k < |parts| == |shifts|
      ensures r == if Renumbers(parts[k], shifts[k], e) then Ok(RenElem(shifts[k], e)) else Refused
      ensures r.Ok? <==> match e
                         case Leaf(m, n) => n < Count(parts[k], m)
                         case Sec(i) => i < |parts[k].sections| && (i == 0 || i > shifts[k].secDrop)
    {
      match e
      case Leaf(m, n) =>
        r := if n >= Count(parts[k], m) then Refused else Ok(Leaf(m, n + Base(shifts[k].ptr, m)));
      case Sec(i) =>
        if i >= |parts[k].sections| || 0 < i <= shifts[k].secDrop { return Refused; }
        r := Ok(Sec(if i > 0 then shifts[k].secBase + (i - 1 - shifts[k].secDrop) else 0));
    }

    /** Appends one part's pointers, renumbered, to those written. */
    method WriteList(out: seq<Elem>, k: nat, elems: seq<Elem>) returns (r: Outcome<seq<Elem>>)
      requires k < |parts| == |shifts|
      ensures r.Ok? <==> AllRenumber(parts[k], shifts[k], elems)
      ensures r.Ok? ==> r.value == out + RenElems(shifts[k], elems)
    {
      var ren: seq<Elem> := [];
      for j := 0 to |elems|
        invariant forall i :: 0 <= i < j ==> Renumbers(parts[k], shifts[k], elems[i])
        invariant ren == RenElems(shifts[k], elems[..j])
      {
        var e := Pointer(k, elems[j]);
        if e.Refused? { return Refused; }
        RenMore(shifts[k], elems[..j], elems[j]);
        assert elems[..j + 1] == elems[..j] + [elems[j]];
        ren := ren + [e.value];
      }
      assert elems[..|elems|] == elems;
      r := Ok(out + ren);
    }

    method WriteElements(lists: seq<Continuation>) returns (r: Outcome<seq<Elem>>)
      requires |shifts| == |parts| && Apt(shifts, lists)
      ensures r.Ok? <==> ListsRenumber(parts, shifts, lists)
      ensures r.Ok? ==> r.value == ElemsOf(shifts, lists, |lists|)
    {
      r := Ok([]);
      for n := 0 to |lists|
        invariant r.Ok? && r.value == ElemsOf(shifts, lists, n)
        invariant forall i :: 0 <= i < n ==> AllRenumber(parts[lists[i].k], shifts[lists[i].k], Contents(lists[i]))
      {
        hide AllRenumber, RenElems;
        r := WriteList(r.value, lists[n].k, Contents(lists[n]));
        if r.Refused? { return; }
      }
    }

    /** Appends part k's spans to those written, the first joined over the separator where it can be. */
    method AppendSpans(out: seq<Span>, k: nat, spans: seq<Span>, ghost shapes: seq<Shape>) returns (r: seq<Span>)
      requires k < |parts| == |shapes| && shifts == Shifts(parts, shapes, sep)
      ensures r == Append(shifts[k], out, spans)
    {
      hide *;
      ShiftAt(parts, shapes, sep, k);
      ShiftNumber(parts, shapes, sep, k);
      if k > 0 { PreviousEnd(parts, shapes, sep, k); }
      r := out;
      AppendNone(shifts[k], out, spans);
      for n := 0 to |spans|
        invariant r == Append(shifts[k], out, spans[..n])
      {
        AppendNext(shifts[k], out, spans, n);
        var s := Span(spans[n].offset + shifts[k].start, spans[n].length);
        if r != [] && k > 0 && s.offset == shifts[k].start {
          var last := r[|r| - 1];
          if last.offset + last.length == shifts[k - 1].start + parts[k - 1].length {
            r := r[|r| - 1 := Span(last.offset, s.offset + s.length - last.offset)];
            continue;
          }
        }
        r := r + [s];
      }
      assert spans[..|spans|] == spans;
    }

    method WriteSpans(lists: seq<Continuation>, ghost shapes: seq<Shape>) returns (out: seq<Span>)
      requires |parts| == |shapes| && shifts == Shifts(parts, shapes, sep) && Apt(shifts, lists)
      ensures out == SpansOf(shifts, lists, |lists|)
    {
      out := [];
      for n := 0 to |lists|
        invariant out == SpansOf(shifts, lists, n)
      {
        hide Shifts, Append;
        out := AppendSpans(out, lists[n].k, lists[n].spans, shapes);
      }
    }

    /** Writes section i of part k, with what later parts folded into it. */
    method WriteSection(k: nat, i: nat, ghost shapes: seq<Shape>) returns (r: Outcome<Section>)
      requires k < |parts| == |shapes| && i < |parts[k].sections| && shifts == Shifts(parts, shapes, sep)
      requires Apt(shifts, Collected(folds, At(k, i)))
      ensures r.Ok? <==> SectionWrites(parts, shifts, Collected(folds, At(k, i)), k, i)
      ensures r.Ok? ==> r.value == Written(shifts, parts[k].sections[i], k, Collected(folds, At(k, i)))
    {
      hide Shifts, AllRenumber, RenElems, Append, Shifted;
      var sec, cs := parts[k].sections[i], Collected(folds, At(k, i));
      var elements, spans := sec.elements, sec.spans;
      if cs == [] {
        if sec.elements.Some? {
          var es := WriteList([], k, sec.elements.value);
          if es.Refused? { return Refused; }
          NoneBefore(es.value, RenElems(shifts[k], sec.elements.value));
          elements := Some(es.value);
        } else {
          NothingRenumbers(parts[k], shifts[k]);
        }
        if sec.spans.Some? {
          var moved := ShiftSpans(k, sec.spans.value);
          spans := Some(moved);
        }
      } else {
        var all := [Continuation(k, sec.elements, Spans(sec))] + cs;
        if sec.spans.Some? {
          var ok := SpansWithin(sec.spans.value, parts[k].length);
          if !ok { return Refused; }
          var joined := WriteSpans(all, shapes);
          spans := Some(joined);
        }
        if sec.elements.Some? {
          var es := WriteElements(all);
          if es.Refused? { return Refused; }
          elements := Some(es.value);
        }
      }
      r := Ok(Section(elements, spans));
    }

    /** The visitor's offset rule. */
    method ShiftSpans(k: nat, spans: seq<Span>) returns (r: seq<Span>)
      requires k < |parts| == |shifts|
      ensures r == Shifted(shifts[k], spans)
    {
      r := [];
      for n := 0 to |spans|
        invariant r == Shifted(shifts[k], spans[..n])
      {
        assert spans[..n + 1][..n] == spans[..n];
        r := r + [Span(spans[n].offset + shifts[k].start, spans[n].length)];
      }
      assert spans[..|spans|] == spans;
    }

    /** Writes the sections part k keeps. */
    method WriteKept(k: nat, ghost shapes: seq<Shape>) returns (r: Outcome<seq<Section>>)
      requires k < |parts| == |shapes| && marks == MarksOf(shapes) && shifts == Shifts(parts, shapes, sep)
      requires AllApt(shifts, folds)
      ensures r.Ok? <==> PartWrites(parts, shapes, shifts, folds, k)
      ensures r.Ok? ==> |r.value| == Kept(parts[k], shapes[k])
      ensures r.Ok? ==> forall n :: 0 <= n < |r.value| ==> r.value[n] == WrittenAt(parts, shapes, shifts, folds, k, n)
    {
      hide Shifts, Written, SectionWrites;
      r := Ok([]);
      var first := 1 + marks[k].secDrop;
      var i := first;
      while i < |parts[k].sections|
        invariant first <= i && (i <= |parts[k].sections| || i == first)
        invariant r.Ok? && |r.value| == i - first
        invariant forall n :: first <= n < i ==> SectionWrites(parts, shifts, Collected(folds, At(k, n)), k, n)
        invariant forall n :: 0 <= n < |r.value| ==> r.value[n] == WrittenAt(parts, shapes, shifts, folds, k, n)
      {
        var sec := WriteSection(k, i, shapes);
        if sec.Refused? { return Refused; }
        r := Ok(r.value + [sec.value]);
        i := i + 1;
      }
    }

    method WriteRoot(ghost shapes: seq<Shape>) returns (r: Outcome<Section>)
      requires |parts| == |shapes| && marks == MarksOf(shapes) && shifts == Shifts(parts, shapes, sep)
      ensures r.Ok? <==> ListsRenumber(parts, shifts, RootLists(parts, shapes, |parts|))
      ensures r.Ok? ==> r.value == Root(parts, shapes, shifts, |parts|)
    {
      var lists: seq<Continuation> := [];
      var hasElements, hasSpans := false, false;
      for k := 0 to |parts|
        invariant lists == RootLists(parts, shapes, k)
        invariant hasElements == AnyElements(parts, k) && hasSpans == AnySpans(parts, k)
      {
        hide Shifts;
        var p := parts[k];
        if p.sections == [] { continue; }
        var root, elems := p.sections[0], RootElems(p);
        hasElements, hasSpans := hasElements || root.elements.Some?, hasSpans || root.spans.Some?;
        var rest := if root.elements.None? || marks[k].moved then None
                    else Some(elems[Min(marks[k].rootDrop, |elems|)..]);
        lists := lists + [Continuation(k, rest, RootSpans(p))];
      }
      hide Shifts, ListsRenumber, ElemsOf, SpansOf, RootLists;
      var es := WriteElements(lists);
      if es.Refused? { return Refused; }
      var joined := WriteSpans(lists, shapes);
      r := Ok(RootOf(hasElements, hasSpans, es.value, joined));
    }

    /** Writes the merged array: the root, then every part's kept sections. */
    method WriteSections(ghost shapes: seq<Shape>) returns (r: Outcome<seq<Section>>)
      requires |parts| == |shapes| && marks == MarksOf(shapes) && shifts == Shifts(parts, shapes, sep)
      requires AllApt(shifts, folds)
      ensures r.Ok? <==> NoSections(parts) || AllWrite(parts, shapes, shifts, folds)
      ensures r.Ok? ==> r.value == Output(parts, shapes, shifts, folds)
    {
      hide Shifts, Root, ListsRenumber, PartWrites, AllApt;
      var k := 0;
      while k < |parts| && parts[k].sections == []
        invariant k <= |parts| && forall i :: 0 <= i < k ==> parts[i].sections == []
      {
        k := k + 1;
      }
      if k == |parts| { return Ok([]); }
      var root := WriteRoot(shapes);
      if root.Refused? { return Refused; }
      var out: seq<Section> := [];
      for k := 0 to |parts|
        invariant forall i :: 0 <= i < k ==> PartWrites(parts, shapes, shifts, folds, i)
        invariant out == KeptTo(parts, shapes, shifts, folds, k)
      {
        var kept := WriteKept(k, shapes);
        if kept.Refused? { return Refused; }
        KeptMore(parts, shapes, shifts, folds, k, kept.value);
        out := out + kept.value;
      }
      r := Ok([root.value] + out);
    }

    /** Refuses parts whose sections cannot make the document's. */
    method CheckSections() returns (ok: bool)
      ensures ok <==> SectionsAgree(parts)
      ensures ok <==>
                || (forall k :: 0 <= k < |parts| ==> parts[k].sections == [])
                || (forall k :: 0 <= k < |parts| ==>
                      && (RootSpans(parts[k]) == [] ==> parts[k].length == 0)
                      && forall s :: s in RootSpans(parts[k]) ==> s.offset + s.length <= parts[k].length)
    {
      var k := 0;
      while k < |parts| && parts[k].sections == []
        invariant k <= |parts| && forall i :: 0 <= i < k ==> parts[i].sections == []
      {
        k := k + 1;
      }
      if k == |parts| { return true; }
      ok := true;
      for k := 0 to |parts|
        invariant ok && forall i :: 0 <= i < k ==> RootCovers(parts[i])
      {
        var p := parts[k];
        if p.sections == [] || RootSpans(p) == [] {
          if p.length > 0 { return false; }
        } else {
          ok := SpansWithin(RootSpans(p), p.length);
          if !ok { return; }
        }
      }
    }

    /** The merged sections, or a refusal: the parts are then not merged at all. */
    method MergeSections() returns (r: Outcome<seq<Section>>)
      requires sep > 0 && marks == MarksOf(Padded([], |parts|)) && folds == map[]
      modifies this
      ensures r.Ok? <==> Accepts(parts, sep)
      ensures r.Ok? ==>
                r.value == if NoSections(parts) then []
                    else TableTo(parts, PlanTo(parts, |parts|).value.shapes, sep, |parts|)
    {
      hide *;
      AcceptsWhen(parts, sep);
      var ok := CheckSections();
      if !ok { return Refused; }
      ok := PlanContinuations();
      if !ok { return Refused; }
      ghost var shapes := PlanTo(parts, |parts|).value.shapes;
      AllPlanned(parts);
      ShiftParts(shapes);
      FirstApt(parts, shapes, sep, |parts|);
      r := WriteSections(shapes);
      if r.Ok? {
        Comes(parts, sep);
      }
    }
  }

  ghost predicate SectionWrites(parts: seq<Part>, shs: seq<Shift>, cs: seq<Continuation>, k: nat, i: nat)
    requires k < |parts| == |shs| && i < |parts[k].sections| && Apt(shs, cs)
  {
    var sec := parts[k].sections[i];
    if cs == [] then AllRenumber(parts[k], shs[k], Elems(sec))
    else
      && (sec.spans.Some? ==> Within(Spans(sec), parts[k].length))
      && (sec.elements.Some? ==> ListsRenumber(parts, shs, [Continuation(k, sec.elements, Spans(sec))] + cs))
  }

  ghost predicate PartWrites(parts: seq<Part>, shapes: seq<Shape>, shs: seq<Shift>, folds: Folds, k: nat)
    requires k < |parts| == |shs| == |shapes| && AllApt(shs, folds)
  {
    forall i :: 1 + SecDrop(shapes[k]) <= i < |parts[k].sections| ==>
      SectionWrites(parts, shs, Collected(folds, At(k, i)), k, i)
  }

  lemma NoneBefore(a: seq<Elem>, b: seq<Elem>)
    requires a == [] + b
    ensures a == b
  {}

  lemma NothingRenumbers(p: Part, sh: Shift)
    ensures AllRenumber(p, sh, [])
  {}

  lemma PreviousEnd(parts: seq<Part>, shapes: seq<Shape>, sep: nat, k: nat)
    requires 0 < k < |parts| == |shapes|
    ensures Shifts(parts, shapes, sep)[k].k == k
    ensures Shifts(parts, shapes, sep)[k].prevEnd == Shifts(parts, shapes, sep)[k - 1].start + parts[k - 1].length
  {}

  lemma ShiftNumber(parts: seq<Part>, shapes: seq<Shape>, sep: nat, k: nat)
    requires k < |parts| == |shapes|
    ensures Shifts(parts, shapes, sep)[k].k == k
  {}

  lemma AppendNone(sh: Shift, out: seq<Span>, spans: seq<Span>)
    requires sh.prevEnd <= sh.start
    ensures Append(sh, out, spans[..0]) == out
  {}

  /** One span more. */
  lemma AppendNext(sh: Shift, out: seq<Span>, spans: seq<Span>, n: nat)
    requires sh.prevEnd <= sh.start && n < |spans|
    ensures var r, s := Append(sh, out, spans[..n]), Span(spans[n].offset + sh.start, spans[n].length);
            Append(sh, out, spans[..n + 1])
              == if r != [] && sh.k > 0 && s.offset == sh.start
                    && r[|r| - 1].offset + r[|r| - 1].length == sh.prevEnd
                 then r[|r| - 1 := Span(r[|r| - 1].offset, s.offset + s.length - r[|r| - 1].offset)]
                 else r + [s]
  {
    assert spans[..n + 1][..n] == spans[..n];
    var r := Append(sh, out, spans[..n]);
    if r != [] { assert forall x :: r[..|r| - 1] + [x] == r[|r| - 1 := x]; }
  }

  predicate NoSections(parts: seq<Part>) { forall k :: 0 <= k < |parts| ==> parts[k].sections == [] }

  /** A root whose spans lie within its part's content, with one if there is content. */
  predicate RootCovers(p: Part) {
    if p.sections == [] || RootSpans(p) == [] then p.length == 0 else Within(RootSpans(p), p.length)
  }

  predicate SectionsAgree(parts: seq<Part>) {
    NoSections(parts) || forall k :: 0 <= k < |parts| ==> RootCovers(parts[k])
  }

  ghost predicate AllWrite(parts: seq<Part>, shapes: seq<Shape>, shs: seq<Shift>, folds: Folds)
    requires |parts| == |shs| == |shapes| && AllApt(shs, folds)
  {
    && ListsRenumber(parts, shs, RootLists(parts, shapes, |parts|))
    && forall k :: 0 <= k < |parts| ==> PartWrites(parts, shapes, shs, folds, k)
  }

  /** The parts whose sections merge: none of the checks on the way refuses. */
  ghost predicate Accepts(parts: seq<Part>, sep: nat) {
    && SectionsAgree(parts)
    && PlanTo(parts, |parts|).Ok?
    && var shapes := PlanTo(parts, |parts|).value.shapes;
       FirstApt(parts, shapes, sep, |parts|);
       (NoSections(parts)
        || AllWrite(parts, shapes, Shifts(parts, shapes, sep), FoldsTo(parts, shapes, |parts|)))
  }

  lemma AcceptsWhen(parts: seq<Part>, sep: nat)
    ensures Accepts(parts, sep) ==> SectionsAgree(parts) && PlanTo(parts, |parts|).Ok?
    ensures PlanTo(parts, |parts|).Ok? ==>
              var shapes := PlanTo(parts, |parts|).value.shapes;
              && AllApt(Shifts(parts, shapes, sep), FoldsTo(parts, shapes, |parts|))
              && (Accepts(parts, sep)
                  <==> SectionsAgree(parts)
                       && (NoSections(parts)
                           || AllWrite(parts, shapes, Shifts(parts, shapes, sep), FoldsTo(parts, shapes, |parts|))))
  {
    hide ShapeOf, NextOpen, FoldsTo, Shifts, AllWrite, TableTo;
    if PlanTo(parts, |parts|).Ok? {
      FirstApt(parts, PlanTo(parts, |parts|).value.shapes, sep, |parts|);
    }
  }

  lemma AllPlanned(parts: seq<Part>)
    requires PlanTo(parts, |parts|).Ok?
    ensures |PlanTo(parts, |parts|).value.shapes| == |parts|
    ensures Planned(parts, PlanTo(parts, |parts|).value.shapes, |parts|)
  {
    hide ShapeOf, NextOpen;
    var shapes := PlanTo(parts, |parts|).value.shapes;
    assert shapes[..|parts|] == shapes;
  }

  lemma Comes(parts: seq<Part>, sep: nat)
    requires PlanTo(parts, |parts|).Ok? && sep > 0
    requires AllApt(Shifts(parts, PlanTo(parts, |parts|).value.shapes, sep),
                    FoldsTo(parts, PlanTo(parts, |parts|).value.shapes, |parts|))
    ensures Output(parts, PlanTo(parts, |parts|).value.shapes, Shifts(parts, PlanTo(parts, |parts|).value.shapes, sep),
                   FoldsTo(parts, PlanTo(parts, |parts|).value.shapes, |parts|))
         == if NoSections(parts) then [] else TableTo(parts, PlanTo(parts, |parts|).value.shapes, sep, |parts|)
  {
    AllPlanned(parts);
    hide ShapeOf, NextOpen, FoldsTo, Shifts, TableTo, PlanTo, Planned, AllApt;
    if !NoSections(parts) { WritingIsGrowing(parts, PlanTo(parts, |parts|).value.shapes, sep); }
  }

  lemma KeptMore(
      parts: seq<Part>, shapes: seq<Shape>, shs: seq<Shift>, folds: Folds, k: nat, kept: seq<Section>)
    requires k < |parts| == |shapes| == |shs| && AllApt(shs, folds) && |kept| == Kept(parts[k], shapes[k])
    requires forall n :: 0 <= n < |kept| ==> kept[n] == WrittenAt(parts, shapes, shs, folds, k, n)
    ensures KeptTo(parts, shapes, shs, folds, k + 1) == KeptTo(parts, shapes, shs, folds, k) + kept
  {
    hide WrittenAt;
    assert kept == seq(Kept(parts[k], shapes[k]), n requires 0 <= n < Kept(parts[k], shapes[k]) =>
      WrittenAt(parts, shapes, shs, folds, k, n));
  }

  ghost predicate AllRenumber(p: Part, sh: Shift, es: seq<Elem>) {
    forall n :: 0 <= n < |es| ==> Renumbers(p, sh, es[n])
  }

  /** Every pointer of the lists names something its part can point at. */
  ghost predicate ListsRenumber(parts: seq<Part>, shs: seq<Shift>, lists: seq<Continuation>)
    requires |parts| == |shs| && Apt(shs, lists)
  {
    forall n :: 0 <= n < |lists| ==> AllRenumber(parts[lists[n].k], shs[lists[n].k], Contents(lists[n]))
  }

  lemma RenMore(sh: Shift, es: seq<Elem>, e: Elem)
    ensures RenElems(sh, es + [e]) == RenElems(sh, es) + [RenElem(sh, e)]
  {
    RenElemsConcat(sh, es, [e]);
    assert [e][1..] == [];
    assert [RenElem(sh, e)] + [] == [RenElem(sh, e)];
  }

  lemma NothingPlanned(parts: seq<Part>)
    ensures PlanTo(parts, 0) == Ok(Plan([], []))
    ensures FoldsTo(parts, Padded([], |parts|), 0) == map[]
  {}

  lemma AllPadded(shapes: seq<Shape>)
    ensures Padded(shapes, |shapes|) == shapes
  {}

  lemma PlanFollows(parts: seq<Part>, j: nat)
    requires j < |parts| && PlanTo(parts, j).Ok? && parts[j].sections != []
    ensures PlanTo(parts, j + 1).Ok? <==> ShapeOf(parts[j], j, |PlanTo(parts, j).value.open|).Ok?
  {
    hide ShapeOf, NextOpen;
  }

  lemma FreshMark(parts: seq<Part>, j: nat)
    requires j < |parts| && PlanTo(parts, j).Ok?
    ensures |MarksOf(Padded(PlanTo(parts, j).value.shapes, |parts|))| == |parts|
    ensures MarksOf(Padded(PlanTo(parts, j).value.shapes, |parts|))[j] == MarkOf(Apart)
  {
    hide PlanTo;
  }

  /** What is decided after one part more. */
  lemma PlanNext(parts: seq<Part>, j: nat, s: Shape)
    requires j < |parts| && PlanTo(parts, j).Ok?
    requires if parts[j].sections == [] then s.Apart?
             else ShapeOf(parts[j], j, |PlanTo(parts, j).value.open|) == Ok(s)
    ensures PlanTo(parts, j + 1).Ok?
    ensures PlanTo(parts, j + 1).value.open
         == if parts[j].sections == [] then PlanTo(parts, j).value.open
            else NextOpen(parts[j], j, PlanTo(parts, j).value.open, s)
    ensures MarksOf(Padded(PlanTo(parts, j + 1).value.shapes, |parts|))
         == MarksOf(Padded(PlanTo(parts, j).value.shapes, |parts|))[j := MarkOf(s)]
    ensures parts[j].sections == [] ==>
              (MarksOf(Padded(PlanTo(parts, j + 1).value.shapes, |parts|))
               == MarksOf(Padded(PlanTo(parts, j).value.shapes, |parts|)))
    ensures FoldsTo(parts, Padded(PlanTo(parts, j + 1).value.shapes, |parts|), j + 1)
         == if parts[j].sections == [] then FoldsTo(parts, Padded(PlanTo(parts, j).value.shapes, |parts|), j)
            else FoldIn(FoldsTo(parts, Padded(PlanTo(parts, j).value.shapes, |parts|), j), PlanTo(parts, j).value.open,
                        parts[j], j, s, |PlanTo(parts, j).value.open|)
  {
    hide ShapeOf, NextOpen, FoldIn, OpenPath;
    PaddedNext(parts, j);
  }

  lemma {:induction false} NothingFolded(folds: Folds, open: seq<At>, p: Part, k: nat, n: nat)
    requires n <= |open|
    ensures FoldIn(folds, open, p, k, Apart, n) == folds
    decreases n
  {
    if n > 0 { NothingFolded(folds, open, p, k, n - 1); }
  }

  lemma {:induction false} PlanRefused(parts: seq<Part>, i: nat, j: nat)
    requires i <= j <= |parts|
    ensures PlanTo(parts, i).Refused? ==> PlanTo(parts, j).Refused?
    decreases j
  {
    hide ShapeOf, NextOpen, OpenPath;
    if i < j { PlanRefused(parts, i, j - 1); }
  }
}

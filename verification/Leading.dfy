/**
 * The merge's decisions as it makes them (continue.go:97-105, 272-545): each of the functions here
 * steps through a part's sections, and decides what Lead says.
 */
module Leading {
  import opened Sections
  import opened Lead
  import opened Deferred

  /** What a part's leading content gives each open section, and where its folded sections went. */
  datatype Leader = Leader(conts: seq<Option<Continuation>>, into: seq<nat>)

  /** One of the untitled sections a part opens with. */
  datatype Link = Link(elements: seq<Elem>, spans: seq<Span>, wrapper: bool)

  function LeaderOf(p: Part, k: nat, s: Shape, depth: nat): Option<Leader> {
    if s.Apart? then None
    else Some(Leader(seq(depth, d requires 0 <= d < depth => Gives(p, k, s, depth, d + 1)), Into(s, depth)))
  }

  /** Content goes to the deepest open section, its spans to those from depth from + 1 down to it. */
  method Content(conts: seq<Option<Continuation>>, c: Continuation, from: nat) returns (r: seq<Option<Continuation>>)
    requires from < |conts|
    ensures |r| == |conts|
    ensures forall d :: 0 <= d < from ==> r[d] == conts[d]
    ensures forall d :: from <= d < |r| - 1 ==> r[d] == Some(Continuation(c.k, None, c.spans))
    ensures r[|r| - 1] == Some(c)
  {
    r := conts;
    for j := from to |conts| - 1
      invariant |r| == |conts|
      invariant forall d :: 0 <= d < from ==> r[d] == conts[d]
      invariant forall d :: from <= d < j ==> r[d] == Some(Continuation(c.k, None, c.spans))
    {
      r := r[j := Some(Continuation(c.k, None, c.spans))];
    }
    r := r[|conts| - 1 := Some(c)];
  }

  method SpansWithin(spans: seq<Span>, length: nat) returns (ok: bool)
    ensures ok <==> Within(spans, length)
  {
    for n := 0 to |spans|
      invariant Within(spans[..n], length)
    {
      if End(spans[n]) > length { return false; }
    }
    return true;
  }

  /** The untitled sections part p opens with, as far as they can be folded. */
  method FindChain(p: Part, depth: nat) returns (r: Outcome<seq<Link>>)
    ensures ChainFrom(p, 1, depth).Refused? <==> r.Refused?
    ensures r.Ok? && ChainFrom(p, 1, depth).value.Apart? ==> r.value == []
    ensures r.Ok? ==> forall j :: 0 <= j < |r.value| ==> r.value[j].elements != []
    ensures r.Ok? && ChainFrom(p, 1, depth).value.Chain? ==>
              var s := ChainFrom(p, 1, depth).value;
              && |r.value| == s.n < |p.sections|
              && forall j :: 0 <= j < s.n ==>
                   r.value[j] == Link(Elems(p.sections[j + 1]), Spans(p.sections[j + 1]), j < s.n - 1 || !s.content)
  {
    var chain: seq<Link> := [];
    var i := 1;
    while true
      invariant 1 <= i <= depth + 1 && |chain| == i - 1 && ChainFrom(p, 1, depth) == ChainFrom(p, i, depth)
      invariant i > 1 ==> i - 1 < |p.sections|
      invariant forall j :: 0 <= j < |chain| ==> chain[j].elements != []
      invariant forall j :: 0 <= j < |chain| ==>
                  j + 1 < |p.sections| && chain[j] == Link(Elems(p.sections[j + 1]), Spans(p.sections[j + 1]), true)
      decreases |p.sections| - i
    {
      if i >= |p.sections| { return Ok([]); }
      var s := p.sections[i];
      if !Extensible(s) || Elems(s) == [] { return Ok([]); }
      var elems := Elems(s);
      if IsHeading(p, elems[0]) { return Ok(chain); }
      if i > depth { return Ok([]); }
      var ok := SpansWithin(Spans(s), p.length);
      if !ok { return Refused; }
      chain := chain + [Link(elems, Spans(s), elems[0].Sec?)];
      if elems[0].Leaf? { return Ok(chain); }
      if elems[0].i != i + 1 { return Ok([]); }
      i := i + 1;
    }
  }

  /** What the chain gives the open sections it continues. */
  method FoldChain(p: Part, k: nat, depth: nat, chain: seq<Link>, content: bool) returns (l: Leader)
    requires 0 < |chain| <= depth && |chain| < |p.sections|
    requires forall j :: 0 <= j < |chain| ==>
               chain[j] == Link(Elems(p.sections[j + 1]), Spans(p.sections[j + 1]), j < |chain| - 1 || !content)
    requires forall j :: 0 <= j < |chain| ==> chain[j].elements != []
    ensures Some(l) == LeaderOf(p, k, Chain(|chain|, content), depth)
  {
    var n := |chain|;
    ghost var s := Chain(n, content);
    var conts: seq<Option<Continuation>> := seq(depth, _ => None);
    var into: seq<nat> := [];
    for i := 0 to n
      invariant |conts| == depth && |into| == i
      invariant forall j :: 0 <= j < i ==> into[j] == Into(s, depth)[j]
      invariant forall d :: 0 <= d < i ==> conts[d] == Gives(p, k, s, depth, d + 1)
      invariant i < n || !content ==> forall d :: i <= d < depth ==> conts[d] == None
      invariant i == n && content ==> forall d :: 0 <= d < depth ==> conts[d] == Gives(p, k, s, depth, d + 1)
    {
      var c := chain[i];
      var elements := if i < n - 1 then c.elements[1..] else c.elements;
      var cont := Continuation(k, Some(elements), c.spans);
      if c.wrapper {
        conts := conts[i := Some(cont)];
        into := into + [i + 1];
      } else {
        conts := Content(conts, cont, i);
        into := into + [depth];
      }
    }
    l := Leader(conts, into);
    assert l.into == Into(s, depth);
    assert l.conts == seq(depth, d requires 0 <= d < depth => Gives(p, k, s, depth, d + 1));
  }

  /** Where the items the pointers name start and end; refused if one names no item. */
  method FindExtent(p: Part, ptrs: seq<Elem>) returns (r: Outcome<(int, int)>)
    requires forall k :: 0 <= k < |ptrs| ==> ptrs[k].Leaf?
    ensures r.Refused? <==> exists k :: 0 <= k < |ptrs| && ptrs[k].n >= Count(p, ptrs[k].m)
    ensures r.Ok? ==> r.value == Extent(p, ptrs)
  {
    for n := 0 to |ptrs|
      invariant forall k :: 0 <= k < n ==> ptrs[k].n < Count(p, ptrs[k].m)
    {
      if ptrs[n].n >= Count(p, ptrs[n].m) { return Refused; }
    }
    var lo: int, hi: int := -1, -1;
    for n := 0 to |ptrs|
      invariant (lo, hi) == Extent(p, ptrs[..n])
    {
      var spans := Items(p, ptrs[n].m)[ptrs[n].n];
      ghost var was := (lo, hi);
      for j := 0 to |spans|
        invariant (lo, hi) == Widen(was.0, was.1, spans[..j])
      {
        assert spans[..j + 1][..j] == spans[..j];
        var s := spans[j];
        if lo < 0 || s.offset < lo { lo := s.offset; }
        hi := Max(hi, End(s));
      }
      assert spans[..|spans|] == spans && ptrs[..n + 1][..n] == ptrs[..n];
    }
    assert ptrs[..|ptrs|] == ptrs;
    r := Ok((lo, hi));
  }

  method ClipTo(spans: seq<Span>, lo: int, hi: int) returns (r: seq<Span>)
    requires lo >= 0
    ensures r == Clip(spans, lo, hi)
  {
    r := [];
    for n := 0 to |spans|
      invariant r == Clip(spans[..n], lo, hi)
    {
      assert spans[..n + 1][..n] == spans[..n];
      var a, b := Max(spans[n].offset, lo), Min(End(spans[n]), hi);
      if a < b { r := r + [Span(a, b - a)]; }
    }
    assert spans[..|spans|] == spans;
  }

  /** The run of untitled content a root opens with, and its spans. */
  method FindRun(p: Part) returns (r: Outcome<Shape>)
    requires p.sections != []
    ensures r == RunOf(p)
  {
    var elems := RootElems(p);
    var n := 0;
    while n < |elems| && elems[n].Leaf? && !IsHeading(p, elems[n])
      invariant n <= |elems| && RunLength(p, elems, 0) == RunLength(p, elems, n)
      invariant forall k :: 0 <= k < n ==> elems[k].Leaf?
    {
      n := n + 1;
    }
    var j := n;
    while j < |elems| && elems[j].Leaf?
      invariant n <= j <= |elems| && forall k :: n <= k < j ==> elems[k].Leaf?
    {
      j := j + 1;
    }
    if j == |elems| { return Ok(Apart); }
    var e := FindExtent(p, elems[..n]);
    assert forall k :: 0 <= k < n ==> elems[..n][k] == elems[k];
    if e.Refused? { return Refused; }
    if e.value.0 < 0 { return Ok(Apart); }
    var spans := ClipTo(RootSpans(p), e.value.0, e.value.1);
    return Ok(if spans == [] then Apart else Run(n, spans));
  }

  /** The sections a part's tree ends in. */
  method FindOpenPath(p: Part) returns (path: seq<nat>)
    ensures path == OpenPath(p)
  {
    var elems := RootElems(p);
    path := [];
    var steps := |p.sections|;
    while steps > 0
      invariant steps >= 0
      invariant forall x :: x in path ==> 1 <= x < |p.sections|
      invariant OpenPath(p) == Walk(p.sections, elems, path, steps)
      decreases steps
    {
      if elems == [] || elems[|elems| - 1].Leaf? { return; }
      var i := elems[|elems| - 1].i;
      if i < 1 || i >= |p.sections| || i in path { return; }
      if !Extensible(p.sections[i]) { return []; }
      elems, path, steps := Elems(p.sections[i]), path + [i], steps - 1;
    }
  }

  /** The path left open after part k, whose tree ends in path. */
  method FindReopened(k: nat, open: seq<At>, into: seq<nat>, path: seq<nat>) returns (next: seq<At>)
    requires forall j :: 0 <= j < |into| ==> into[j] <= |open|
    requires forall x :: x in path ==> x >= 1
    ensures next == Reopen(k, open, into, path)
  {
    next := [];
    assert path[..0] == [];
    for n := 0 to |path|
      invariant forall x :: x in path[..n] ==> x >= 1
      invariant next == Reopen(k, open, into, path[..n])
    {
      var i := path[n];
      assert i in path && path[..n + 1] == path[..n] + [i] && path[..n + 1][..n] == path[..n];
      next := if i <= |into| then open[..into[i - 1]] else next + [At(k, i)];
    }
    assert path[..|path|] == path;
  }
}

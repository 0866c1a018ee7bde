/**
 * How a part's leading content continues the sections left open before it
 * (internal/merge/continue.go): what is decided for each part, and which sections it leaves open.
 */
module Lead {
  import opened Sections

  /**
   * Apart: the part continues nothing. Moved: it has no section but its root, whose content all
   * moves. Run: its root's first n elements move, over these spans. Chain: its sections 1 to n are
   * untitled, each the first element of the one before it; all are wrappers, but that section n
   * opens with content when content is set.
   */
  datatype Shape = Apart | Moved | Run(n: nat, spans: seq<Span>) | Chain(n: nat, content: bool)

  /** How many of the part's sections are folded away, from section 1 on. */
  function SecDrop(s: Shape): nat { if s.Chain? then s.n else 0 }

  /** How many of its root's elements are left out of the merged root's. */
  function RootDrop(s: Shape): nat { if s.Chain? then 1 else if s.Run? then s.n else 0 }

  /** The depth of the open section the part's section i was folded into is Into[i - 1]. */
  function Into(s: Shape, depth: nat): (r: seq<nat>)
    ensures |r| == SecDrop(s)
  {
    if s.Chain? then seq(s.n, j => if j + 1 == s.n && s.content then depth else j + 1) else []
  }

  /** The untitled sections a part opens with, from section i on, i - 1 of them seen already. */
  function ChainFrom(p: Part, i: nat, depth: nat): (r: Outcome<Shape>)
    requires 1 <= i <= depth + 1
    ensures r.Ok? ==> r.value.Apart? || (r.value.Chain? && 1 <= r.value.n <= depth && i - 1 <= r.value.n)
    decreases |p.sections| - i
  {
    if i >= |p.sections| then Ok(Apart)
    else
      var s := p.sections[i];
      if !Extensible(s) || Elems(s) == [] then Ok(Apart)
      else if IsHeading(p, Elems(s)[0]) then Ok(if i == 1 then Apart else Chain(i - 1, false))
      else if i > depth then Ok(Apart)
      else if !Within(Spans(s), p.length) then Refused
      else match Elems(s)[0]
        case Leaf(_, _) => Ok(Chain(i, true))
        case Sec(next) => if next != i + 1 then Ok(Apart) else ChainFrom(p, i + 1, depth)
  }

  /** How many of the elements, from the n-th on, come before the first section or heading. */
  function RunLength(p: Part, elems: seq<Elem>, n: nat): (r: nat)
    requires n <= |elems|
    ensures n <= r <= |elems|
    ensures forall k :: n <= k < r ==> elems[k].Leaf? && !IsHeading(p, elems[k])
    ensures r < |elems| ==> elems[r].Sec? || IsHeading(p, elems[r])
    decreases |elems| - n
  {
    if n < |elems| && elems[n].Leaf? && !IsHeading(p, elems[n]) then RunLength(p, elems, n + 1) else n
  }

  function Min(a: int, b: int): int { if a < b then a else b }
  function Max(a: int, b: int): int { if a > b then a else b }

  /** The extent of spans joined to [lo, hi), where lo < 0 stands for none. */
  function Widen(lo: int, hi: int, spans: seq<Span>): (int, int)
    decreases |spans|
  {
    if spans == [] then (lo, hi)
    else
      var s := spans[|spans| - 1];
      var e := Widen(lo, hi, spans[..|spans| - 1]);
      (if e.0 < 0 || s.offset < e.0 then s.offset else e.0, Max(e.1, End(s)))
  }

  /** Where the items the leaf pointers name start and end by their own spans, or (-1, -1). */
  function Extent(p: Part, ptrs: seq<Elem>): (int, int)
    requires forall k :: 0 <= k < |ptrs| ==> ptrs[k].Leaf? && ptrs[k].n < Count(p, ptrs[k].m)
    decreases |ptrs|
  {
    if ptrs == [] then (-1, -1)
    else
      var x := ptrs[|ptrs| - 1];
      assert x.Leaf? && x.n < Count(p, x.m);
      var e := Extent(p, ptrs[..|ptrs| - 1]);
      Widen(e.0, e.1, Items(p, x.m)[x.n])
  }

  /** The spans clipped to [lo, hi), less what clips to nothing. */
  function Clip(spans: seq<Span>, lo: int, hi: int): seq<Span>
    decreases |spans|
  {
    if spans == [] then []
    else
      var s := spans[|spans| - 1];
      var a, b := Max(s.offset, lo), Min(End(s), hi);
      Clip(spans[..|spans| - 1], lo, hi) + if a < b then [Span(a, b - a)] else []
  }

  /** A root that opens with untitled content and goes on to a section. */
  function RunOf(p: Part): (r: Outcome<Shape>)
    ensures r.Ok? ==> r.value.Apart? || (r.value.Run? && r.value.n < |RootElems(p)| && r.value.spans != [])
    ensures r.Ok? && r.value.Run? ==>
              forall k :: 0 <= k < r.value.n ==>
                  RootElems(p)[k].Leaf? && RootElems(p)[k].n < Count(p, RootElems(p)[k].m)
  {
    var elems := RootElems(p);
    var n := RunLength(p, elems, 0);
    if forall k :: n <= k < |elems| ==> elems[k].Leaf? then Ok(Apart)
    else if exists k :: 0 <= k < n && elems[k].n >= Count(p, elems[k].m) then Refused
    else
      var e := Extent(p, elems[..n]);
      if e.0 < 0 then Ok(Apart)
      else
        var spans := Clip(RootSpans(p), e.0, e.1);
        if spans == [] then Ok(Apart) else Ok(Run(n, spans))
  }

  /** How part k, which has sections, continues the depth sections left open before it. */
  function ShapeOf(p: Part, k: nat, depth: nat): (r: Outcome<Shape>)
    requires p.sections != []
    ensures r.Ok? && !r.value.Apart? ==> depth > 0 && k > 0
    ensures r.Ok? && r.value.Chain? ==> 1 <= r.value.n <= depth
  {
    var elems := RootElems(p);
    if depth == 0 || k == 0 || elems == [] || IsHeading(p, elems[0]) then Ok(Apart)
    else if |p.sections| == 1 then
      Ok(if exists j :: 0 <= j < |elems| && elems[j].Sec? then Apart else Moved)
    else match elems[0]
      case Leaf(_, _) => RunOf(p)
      case Sec(i) => if i == 1 then ChainFrom(p, 1, depth) else Ok(Apart)
  }

  /** The sections a part's tree ends in, below elems; none if one on the way is not extensible. */
  function Walk(secs: seq<Section>, elems: seq<Elem>, path: seq<nat>, steps: nat): (r: seq<nat>)
    requires forall x :: x in path ==> 1 <= x < |secs|
    ensures forall x :: x in r ==> 1 <= x < |secs|
    decreases steps
  {
    if steps == 0 || elems == [] || elems[|elems| - 1].Leaf? then path
    else
      var i := elems[|elems| - 1].i;
      if i < 1 || i >= |secs| || i in path then path
      else if !Extensible(secs[i]) then []
      else Walk(secs, Elems(secs[i]), path + [i], steps - 1)
  }

  function OpenPath(p: Part): seq<nat> { Walk(p.sections, RootElems(p), [], |p.sections|) }

  /** A section of a part, by its index in the part's own array. */
  datatype At = At(k: nat, i: nat)

  /** The path left open after part k, from the sections its tree ends in. */
  function Reopen(k: nat, open: seq<At>, into: seq<nat>, path: seq<nat>): seq<At>
    requires forall j :: 0 <= j < |into| ==> into[j] <= |open|
    requires forall x :: x in path ==> x >= 1
    decreases |path|
  {
    if path == [] then []
    else
      var i := path[|path| - 1];
      var front := path[..|path| - 1];
      assert i in path && forall j :: 0 <= j < |front| ==> front[j] == path[j] && path[j] in path;
      if i <= |into| then open[..into[i - 1]]
      else Reopen(k, open, into, front) + [At(k, i)]
  }

  function NextOpen(p: Part, k: nat, open: seq<At>, s: Shape): seq<At>
    requires s.Chain? ==> s.n <= |open|
  {
    if s.Moved? then open
    else
      var path := OpenPath(p);
      if path != [] then Reopen(k, open, Into(s, |open|), path)
      else if |RootElems(p)| > RootDrop(s) then []
      else open
  }

  /** What has been decided for the first parts: their shapes, and the sections left open. */
  datatype Plan = Plan(shapes: seq<Shape>, open: seq<At>)

  function PlanTo(parts: seq<Part>, j: nat): (r: Outcome<Plan>)
    requires j <= |parts|
    ensures r.Ok? ==> |r.value.shapes| == j
    decreases j
  {
    if j == 0 then Ok(Plan([], []))
    else
      var before := PlanTo(parts, j - 1);
      if before.Refused? then Refused
      else
        var p, plan := parts[j - 1], before.value;
        if p.sections == [] then Ok(Plan(plan.shapes + [Apart], plan.open))
        else
          var s := ShapeOf(p, j - 1, |plan.open|);
          if s.Refused? then Refused
          else Ok(Plan(plan.shapes + [s.value], NextOpen(p, j - 1, plan.open, s.value)))
  }
}

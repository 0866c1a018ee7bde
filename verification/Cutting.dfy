/**
 * A section tree cut by parts (internal/realcut/cut.go:299-365, 457-509): what each part keeps of it,
 * and how what is kept of two runs of parts fits together again.
 */
module Cutting {
  import opened Lists
  import opened Sections
  import opened Forest
  import opened Fold

  /** The part each item is in, by member; -1 for none. */
  datatype Places = Places(paragraphs: seq<int>, tables: seq<int>, figures: seq<int>, pairs: seq<int>)

  function Row(at: Places, m: Member): seq<int> {
    match m
    case Paragraphs => at.paragraphs
    case Tables => at.tables
    case Figures => at.figures
    case KeyValuePairs => at.pairs
  }

  /** The part of an item, or -1 for an item the arrays do not have. */
  function PartOf(at: Places, m: Member, n: nat): int {
    if n < |Row(at, m)| then Row(at, m)[n] else -1
  }

  function LeafPart(at: Places, e: Elem): int { if e.Leaf? then PartOf(at, e.m, e.n) else -1 }

  /** What parts lo up to hi hold of a forest: their leaves, and the sections around those. */
  function Keep(g: Forest, at: Places, lo: int, hi: int): Forest
    decreases g, 0
  {
    if g == [] then [] else KeepItem(g[0], at, lo, hi) + Keep(g[1..], at, lo, hi)
  }

  function KeepItem(x: Item, at: Places, lo: int, hi: int): (r: Forest)
    ensures |r| <= 1
    decreases x, 1
  {
    match x
    case L(m, n) => if lo <= PartOf(at, m, n) < hi then [x] else []
    case S(i, kids) =>
      var r := Keep(kids, at, lo, hi);
      if r == [] then [] else [S(i, r)]
  }

  /** No leaf is in an earlier part than a leaf before it. */
  ghost predicate InOrder(g: Forest, at: Places) {
    forall i, j :: 0 <= i < j < |Leaves(g)| ==> LeafPart(at, Leaves(g)[i]) <= LeafPart(at, Leaves(g)[j])
  }

  /** How many sections a ends in are those b begins with. */
  function Meet(a: Forest, b: Forest): (n: nat)
    ensures n <= |Path(a)|
    decreases a
  {
    if a == [] || b == [] || a[|a| - 1].L? || b[0].L? || a[|a| - 1].i != b[0].i then 0
    else 1 + Meet(a[|a| - 1].kids, b[0].kids)
  }

  /** a and b with the sections in both joined. */
  function Glue(a: Forest, b: Forest): Forest {
    Extend(a, Peel(b, Meet(a, b)))
  }

  /** The first item's leaves come first. */
  lemma LeafAt(g: Forest)
    requires g != []
    ensures |Leaves(g)| == |ItemLeaves(g[0])| + |Leaves(g[1..])|
    ensures forall i :: 0 <= i < |ItemLeaves(g[0])| ==> Leaves(g)[i] == ItemLeaves(g[0])[i]
    ensures forall j :: 0 <= j < |Leaves(g[1..])| ==> Leaves(g)[|ItemLeaves(g[0])| + j] == Leaves(g[1..])[j]
  {
    hide *;
    LeavesOf(g);
    JoinAt(ItemLeaves(g[0]), Leaves(g[1..]));
  }

  lemma LeavesOf(g: Forest)
    requires g != []
    ensures Leaves(g) == ItemLeaves(g[0]) + Leaves(g[1..])
  {}

  lemma JoinAt<T>(a: seq<T>, b: seq<T>)
    ensures forall i :: 0 <= i < |a| ==> (a + b)[i] == a[i]
    ensures forall j :: 0 <= j < |b| ==> (a + b)[|a| + j] == b[j]
  {}

  lemma OrderParts(g: Forest, at: Places)
    requires g != [] && InOrder(g, at)
    ensures InOrder(g[1..], at)
    ensures g[0].S? ==> InOrder(g[0].kids, at)
    ensures forall i, j :: 0 <= i < |ItemLeaves(g[0])| && 0 <= j < |Leaves(g[1..])| ==>
              LeafPart(at, ItemLeaves(g[0])[i]) <= LeafPart(at, Leaves(g[1..])[j])
  {
    hide Leaves;
    LeafAt(g);
  }

  /** No leaf is in parts lo up to hi. */
  ghost predicate Without(ls: seq<Elem>, at: Places, lo: int, hi: int) {
    forall n :: 0 <= n < |ls| ==> !(lo <= LeafPart(at, ls[n]) < hi)
  }

  /** What is kept is empty exactly when no leaf is. */
  lemma {:induction false} KeptNone(g: Forest, at: Places, lo: int, hi: int)
    ensures Keep(g, at, lo, hi) == [] <==> Without(Leaves(g), at, lo, hi)
    decreases g
  {
    if g != [] {
      hide Leaves;
      LeafAt(g);
      var a, b, all := ItemLeaves(g[0]), Leaves(g[1..]), Leaves(g);
      KeptNone(g[1..], at, lo, hi);
      if g[0].S? {
        KeptNone(g[0].kids, at, lo, hi);
      } else {
        assert a == [Leaf(g[0].m, g[0].n)];
        assert Without(a, at, lo, hi) <==> !(lo <= LeafPart(at, a[0]) < hi);
      }
    }
  }

  /** With nothing between mid and hi, or before mid, less of the range keeps the same. */
  lemma {:induction false} KeepUp(g: Forest, at: Places, lo: int, mid: int, hi: int)
    requires lo <= mid <= hi && Without(Leaves(g), at, lo, mid)
    ensures Keep(g, at, lo, hi) == Keep(g, at, mid, hi)
    decreases g
  {
    if g != [] {
      SplitWithout(g, at, lo, mid);
      KeepUp(g[1..], at, lo, mid, hi);
      if g[0].S? { KeepUp(g[0].kids, at, lo, mid, hi); }
    }
  }

  lemma {:induction false} KeepDown(g: Forest, at: Places, lo: int, mid: int, hi: int)
    requires lo <= mid <= hi && Without(Leaves(g), at, mid, hi)
    ensures Keep(g, at, lo, hi) == Keep(g, at, lo, mid)
    decreases g
  {
    if g != [] {
      SplitWithout(g, at, mid, hi);
      KeepDown(g[1..], at, lo, mid, hi);
      if g[0].S? { KeepDown(g[0].kids, at, lo, mid, hi); }
    }
  }

  lemma SplitWithout(g: Forest, at: Places, lo: int, hi: int)
    requires g != [] && Without(Leaves(g), at, lo, hi)
    ensures Without(Leaves(g[1..]), at, lo, hi)
    ensures g[0].S? ==> Without(Leaves(g[0].kids), at, lo, hi)
    ensures g[0].L? ==> !(lo <= PartOf(at, g[0].m, g[0].n) < hi)
  {
    hide Leaves;
    LeafAt(g);
    if g[0].L? { assert ItemLeaves(g[0])[0] == Leaf(g[0].m, g[0].n); }
  }

  lemma GlueNothing(b: Forest)
    ensures Glue([], b) == b
  {
    assert [] + b == b;
  }

  /** What ends in something else than what b begins with is just followed by it. */
  lemma GlueApart(a: Forest, b: Forest)
    requires Meet(a, b) == 0
    ensures Glue(a, b) == a + b
  {}

  /** Glueing looks at the last item only. */
  lemma GlueFront(x: Item, a: Forest, b: Forest)
    requires a != []
    ensures Glue([x] + a, b) == [x] + Glue(a, b)
  {
    var f := [x] + a;
    assert f[|f| - 1] == a[|a| - 1];
    if Meet(a, b) == 0 {
      assert f + b == [x] + (a + b);
    } else {
      assert f[..|f| - 1] == [x] + a[..|a| - 1];
    }
  }

  /** Kept sections are sections of the forest. */
  lemma {:induction false} KeptWithin(g: Forest, at: Places, lo: int, hi: int, i: nat)
    ensures i in Ids(Keep(g, at, lo, hi)) ==> i in Ids(g)
    decreases g
  {
    if g != [] {
      KeptWithin(g[1..], at, lo, hi, i);
      var x := KeepItem(g[0], at, lo, hi);
      IdsConcat(x, Keep(g[1..], at, lo, hi));
      if g[0].S? {
        KeptWithin(g[0].kids, at, lo, hi, i);
        if x != [] { One(x[0]); }
      }
    }
  }

  /**
   * What two successive runs of parts keep of a tree, joined where the cut between them falls inside
   * sections, is what both keep of it.
   */
  lemma {:induction false} KeepGlue(g: Forest, at: Places, lo: int, mid: int, hi: int)
    requires lo <= mid <= hi && InOrder(g, at) && Distinct(Ids(g))
    ensures Glue(Keep(g, at, lo, mid), Keep(g, at, mid, hi)) == Keep(g, at, lo, hi)
    decreases g
  {
    if g == [] {
      GlueNothing([]);
    } else {
      var x, rest := g[0], g[1..];
      OrderParts(g, at);
      DistinctSplit(g);
      KeepGlue(rest, at, lo, mid, hi);
      if !Without(ItemLeaves(x), at, mid, hi) {
        if x.S? { KeepGlue(x.kids, at, lo, mid, hi); }
        CutWithin(g, at, lo, mid, hi);
      } else {
        CutAfter(g, at, lo, mid, hi);
      }
    }
  }

  lemma DistinctSplit(g: Forest)
    requires g != [] && Distinct(Ids(g))
    ensures Distinct(Ids(g[1..]))
    ensures g[0].S? ==> Distinct(Ids(g[0].kids)) && g[0].i !in Ids(g[1..])
  {
    if g[0].S? {
      Associate([g[0].i], Ids(g[0].kids), Ids(g[1..]));
      assert Ids(g) == [g[0].i] + (Ids(g[0].kids) + Ids(g[1..]));
      DistinctParts([g[0].i], Ids(g[0].kids), Ids(g[1..]));
      assert g[0].i in [g[0].i];
    } else {
      assert Ids(g) == ItemIds(g[0]) + Ids(g[1..]);
      hide *;
      DistinctTail(ItemIds(g[0]), Ids(g[1..]));
    }
  }

  lemma DistinctTail(a: seq<nat>, b: seq<nat>)
    requires Distinct(a + b)
    ensures Distinct(b)
  {
    assert forall k :: 0 <= k < |b| ==> (a + b)[|a| + k] == b[k];
  }

  /** The cut falls before or inside the first item: all that follows it is after the cut. */
  lemma CutWithin(g: Forest, at: Places, lo: int, mid: int, hi: int)
    requires lo <= mid <= hi && g != [] && InOrder(g, at) && Distinct(Ids(g))
    requires !Without(ItemLeaves(g[0]), at, mid, hi)
    requires g[0].S? ==> Glue(Keep(g[0].kids, at, lo, mid), Keep(g[0].kids, at, mid, hi)) == Keep(g[0].kids, at, lo, hi)
    ensures Glue(Keep(g, at, lo, mid), Keep(g, at, mid, hi)) == Keep(g, at, lo, hi)
  {
    var x, rest := g[0], g[1..];
    OrderParts(g, at);
    AllAfter(g, at, lo, mid, hi);
    KeptNone(rest, at, lo, mid);
    KeepUp(rest, at, lo, mid, hi);
    var b := Keep(rest, at, mid, hi);
    if x.L? {
      assert KeepItem(x, at, lo, mid) == [] && Keep(g, at, lo, mid) == [];
      GlueNothing(Keep(g, at, mid, hi));
    } else {
      var ka, kb := Keep(x.kids, at, lo, mid), Keep(x.kids, at, mid, hi);
      KeptNone(x.kids, at, mid, hi);
      KeptNone(x.kids, at, lo, mid);
      if ka == [] {
        KeepUp(x.kids, at, lo, mid, hi);
        assert Keep(g, at, lo, mid) == [];
        GlueNothing(Keep(g, at, mid, hi));
      } else {
        assert Keep(g, at, lo, mid) == [S(x.i, ka)] && Keep(g, at, mid, hi) == [S(x.i, kb)] + b;
        GlueIn(x.i, ka, kb, b);
        KeptWider(x.kids, at, lo, mid, hi);
      }
    }
  }

  lemma KeptWider(g: Forest, at: Places, lo: int, mid: int, hi: int)
    requires lo <= mid <= hi && Keep(g, at, mid, hi) != []
    ensures Keep(g, at, lo, hi) != []
  {
    KeptNone(g, at, mid, hi);
    KeptNone(g, at, lo, hi);
    var n :| 0 <= n < |Leaves(g)| && mid <= LeafPart(at, Leaves(g)[n]) < hi;
  }

  lemma AllAfter(g: Forest, at: Places, lo: int, mid: int, hi: int)
    requires g != [] && InOrder(g, at) && !Without(ItemLeaves(g[0]), at, mid, hi)
    ensures Without(Leaves(g[1..]), at, lo, mid)
  {
    OrderParts(g, at);
    var i :| 0 <= i < |ItemLeaves(g[0])| && mid <= LeafPart(at, ItemLeaves(g[0])[i]) < hi;
  }

  lemma GlueIn(i: nat, a: Forest, b: Forest, rest: Forest)
    ensures Glue([S(i, a)], [S(i, b)] + rest) == [S(i, Glue(a, b))] + rest
  {
    var f, h := [S(i, a)], [S(i, b)] + rest;
    assert f[..0] == [] && h[1..] == rest;
    assert Peel(h, Meet(f, h)) == [rest] + Peel(b, Meet(a, b));
    assert ([rest] + Peel(b, Meet(a, b)))[1..] == Peel(b, Meet(a, b));
  }


  /** The cut falls after the first item. */
  lemma CutAfter(g: Forest, at: Places, lo: int, mid: int, hi: int)
    requires lo <= mid <= hi && g != [] && Distinct(Ids(g)) && Without(ItemLeaves(g[0]), at, mid, hi)
    requires Glue(Keep(g[1..], at, lo, mid), Keep(g[1..], at, mid, hi)) == Keep(g[1..], at, lo, hi)
    ensures Glue(Keep(g, at, lo, mid), Keep(g, at, mid, hi)) == Keep(g, at, lo, hi)
  {
    var x, rest := g[0], g[1..];
    var a, b := Keep(rest, at, lo, mid), Keep(rest, at, mid, hi);
    if x.S? {
      KeptNone(x.kids, at, mid, hi);
      KeepDown(x.kids, at, lo, mid, hi);
    } else {
      assert ItemLeaves(x)[0] == Leaf(x.m, x.n);
    }
    var kx := KeepItem(x, at, lo, mid);
    assert KeepItem(x, at, mid, hi) == [] && KeepItem(x, at, lo, hi) == kx;
    KeepFirst(g, at, lo, mid);
    KeepFirst(g, at, mid, hi);
    KeepFirst(g, at, lo, hi);
    MeetNothing(g, at, lo, mid, hi);
    hide Keep, KeepItem, Meet, Glue;
    if kx != [] {
      if a != [] {
        GlueFront(kx[0], a, b);
      } else {
        GlueApart(kx, b);
        GlueNothing(b);
      }
    }
  }

  lemma KeepFirst(g: Forest, at: Places, lo: int, hi: int)
    requires g != []
    ensures var x, rest := KeepItem(g[0], at, lo, hi), Keep(g[1..], at, lo, hi);
            && (x == [] ==> Keep(g, at, lo, hi) == rest)
            && (x != [] ==> x == [x[0]] && Keep(g, at, lo, hi) == [x[0]] + rest)
            && (x != [] && rest == [] ==> Keep(g, at, lo, hi) == x)
  {}

  lemma MeetNothing(g: Forest, at: Places, lo: int, mid: int, hi: int)
    requires g != [] && Distinct(Ids(g))
    ensures Meet(KeepItem(g[0], at, lo, mid), Keep(g[1..], at, mid, hi)) == 0
  {
    var b := Keep(g[1..], at, mid, hi);
    DistinctSplit(g);
    if b != [] && b[0].S? {
      assert b[0].i == ItemIds(b[0])[0];
      assert b[0].i in Ids(b);
      KeptWithin(g[1..], at, mid, hi, b[0].i);
    }
  }
}

/** One part of a cut tree (realcut/cut.go:230-280, 343-353, 469-509): its numbering, and its tree. */
module CutPart {
  import opened Lists
  import opened Sections
  import opened Forest
  import opened Lead
  import opened Renumber
  import opened Fold
  import opened Incremental
  import opened LeftOpen
  import opened Cutting

  /** How many of the first n items are in part k. */
  function CountOf(row: seq<int>, k: nat, n: nat): nat
    decreases n
  {
    if n == 0 then 0 else CountOf(row, k, n - 1) + if n <= |row| && row[n - 1] == k then 1 else 0
  }

  /** How many items are in parts before k. */
  function CountBelow(row: seq<int>, k: nat, n: nat): nat
    decreases n
  {
    if n == 0 then 0 else CountBelow(row, k, n - 1) + if n <= |row| && row[n - 1] < k then 1 else 0
  }

  /** A pointer as part k numbers it, where ids are the sections that hold something of the part. */
  function LocElem(ids: seq<nat>, at: Places, k: nat, e: Elem): Elem {
    match e
    case Leaf(m, n) => Leaf(m, CountOf(Row(at, m), k, n))
    case Sec(i) => Sec(if i == 0 then 0 else Find(ids, i) + 1)
  }

  predicate InPart(ids: seq<nat>, at: Places, k: nat, e: Elem) {
    match e
    case Leaf(m, n) => PartOf(at, m, n) == k
    case Sec(i) => i in ids
  }

  /** The pointers part k keeps of a section's. */
  function CutElems(ids: seq<nat>, at: Places, k: nat, es: seq<Elem>): seq<Elem>
    decreases |es|
  {
    if es == [] then []
    else (if InPart(ids, at, k, es[0]) then [LocElem(ids, at, k, es[0])] else []) + CutElems(ids, at, k, es[1..])
  }

  function LocForest(ids: seq<nat>, at: Places, k: nat, f: Forest): (r: Forest)
    ensures |r| == |f|
    decreases f, 0
  {
    if f == [] then [] else [LocItem(ids, at, k, f[0])] + LocForest(ids, at, k, f[1..])
  }

  function LocItem(ids: seq<nat>, at: Places, k: nat, x: Item): Item
    decreases x, 1
  {
    match x
    case L(m, n) => L(m, CountOf(Row(at, m), k, n))
    case S(i, kids) => S(Find(ids, i) + 1, LocForest(ids, at, k, kids))
  }

  ghost predicate HasNode(g: Forest, i: nat, kids: Forest)
    decreases g
  {
    g != [] && (HasNode(g[1..], i, kids)
                || (g[0].S? && ((g[0].i == i && g[0].kids == kids) || HasNode(g[0].kids, i, kids))))
  }

  lemma {:induction false} NodeIds(g: Forest, i: nat, kids: Forest)
    requires HasNode(g, i, kids)
    ensures i in Ids(g)
    decreases g
  {
    if HasNode(g[1..], i, kids) {
      NodeIds(g[1..], i, kids);
    } else {
      if g[0].i != i || g[0].kids != kids { NodeIds(g[0].kids, i, kids); }
      assert i in ItemIds(g[0]);
    }
  }

  /** A section is kept exactly when something of its content is. */
  lemma {:induction false} NodeKept(g: Forest, at: Places, lo: int, hi: int, i: nat, kids: Forest)
    requires HasNode(g, i, kids) && Distinct(Ids(g))
    ensures i in Ids(Keep(g, at, lo, hi)) <==> Keep(kids, at, lo, hi) != []
    decreases g
  {
    DistinctSplit(g);
    NodeIds(g, i, kids);
    var x, rest := KeepItem(g[0], at, lo, hi), Keep(g[1..], at, lo, hi);
    IdsConcat(x, rest);
    KeptWithin(g[1..], at, lo, hi, i);
    if HasNode(g[1..], i, kids) {
      NodeKept(g[1..], at, lo, hi, i, kids);
      NodeIds(g[1..], i, kids);
      NotBefore(g, i);
      assert g[0].S? ==> i != g[0].i && i !in Ids(g[0].kids);
      if g[0].S? { KeptWithin(g[0].kids, at, lo, hi, i); }
      if x != [] { One(x[0]); }
    } else {
      assert i in ItemIds(g[0]) by {
        if g[0].i != i || g[0].kids != kids { NodeIds(g[0].kids, i, kids); }
      }
      NotAfter(g, i);
      var more := Keep(g[0].kids, at, lo, hi);
      if x != [] { One(x[0]); }
      if g[0].i == i && g[0].kids == kids {
        assert x != [] ==> i == Ids(x)[0];
      } else {
        NodeIds(g[0].kids, i, kids);
        SelfApart(g);
        NodeKept(g[0].kids, at, lo, hi, i, kids);
      }
    }
  }

  lemma NotBefore(g: Forest, i: nat)
    requires g != [] && Distinct(Ids(g)) && i in Ids(g[1..])
    ensures i !in ItemIds(g[0])
  {
    DistinctApart(ItemIds(g[0]), Ids(g[1..]), i);
  }

  lemma NotAfter(g: Forest, i: nat)
    requires g != [] && Distinct(Ids(g)) && i in ItemIds(g[0])
    ensures i !in Ids(g[1..])
  {
    DistinctApart(ItemIds(g[0]), Ids(g[1..]), i);
  }

  lemma SelfApart(g: Forest)
    requires g != [] && Distinct(Ids(g)) && g[0].S?
    ensures g[0].i !in Ids(g[0].kids)
  {
    Associate([g[0].i], Ids(g[0].kids), Ids(g[1..]));
    assert Ids(g) == [g[0].i] + (Ids(g[0].kids) + Ids(g[1..]));
    DistinctParts([g[0].i], Ids(g[0].kids), Ids(g[1..]));
    assert g[0].i in [g[0].i];
  }

  lemma DistinctApart(a: seq<nat>, b: seq<nat>, x: nat)
    requires Distinct(a + b)
    ensures !(x in a && x in b)
  {
    forall i, j | 0 <= i < |a| && 0 <= j < |b| ensures a[i] != b[j] {
      assert (a + b)[i] == a[i] && (a + b)[|a| + j] == b[j];
    }
  }

  /** ids are the sections, of those below g, that hold something of part k. */
  ghost predicate Marks(ids: seq<nat>, at: Places, k: nat, g: Forest) {
    forall i, kids :: HasNode(g, i, kids) ==> (i in ids <==> Keep(kids, at, k, k + 1) != [])
  }

  lemma MarksBelow(ids: seq<nat>, at: Places, k: nat, g: Forest)
    requires Marks(ids, at, k, g) && g != []
    ensures Marks(ids, at, k, g[1..])
    ensures g[0].S? ==> Marks(ids, at, k, g[0].kids) && (g[0].i in ids <==> Keep(g[0].kids, at, k, k + 1) != [])
  {
    forall i, kids | HasNode(g[1..], i, kids) ensures i in ids <==> Keep(kids, at, k, k + 1) != [] {
      assert HasNode(g, i, kids);
    }
    if g[0].S? {
      assert HasNode(g, g[0].i, g[0].kids);
      forall i, kids | HasNode(g[0].kids, i, kids) ensures i in ids <==> Keep(kids, at, k, k + 1) != [] {
        assert HasNode(g, i, kids);
      }
    }
  }

  /** What a section of the part holds is what is kept of its content, in the part's numbering. */
  lemma {:induction false} CutTop(ids: seq<nat>, at: Places, k: nat, g: Forest)
    requires Marks(ids, at, k, g) && forall i :: i in Ids(g) ==> i > 0
    ensures CutElems(ids, at, k, Top(g)) == Top(LocForest(ids, at, k, Keep(g, at, k, k + 1)))
    decreases |g|
  {
    if g != [] {
      MarksBelow(ids, at, k, g);
      assert forall i :: i in Ids(g[1..]) ==> i in Ids(g);
      if g[0].S? { FirstId(g); }
      CutTop(ids, at, k, g[1..]);
      var x, rest := KeepItem(g[0], at, k, k + 1), Keep(g[1..], at, k, k + 1);
      FirstIn(ids, at, k, g);
      assert Top(g)[0] == Pointer(g[0]) && Top(g)[1..] == Top(g[1..]);
      hide *;
      KeepFirst(g, at, k, k + 1);
      CutFirst(ids, at, k, Top(g));
      if x != [] { LocFirst(ids, at, k, x[0], rest); }
    }
  }

  lemma FirstId(g: Forest)
    requires g != [] && g[0].S?
    ensures Ids(g) != [] && Ids(g)[0] == g[0].i && g[0].i in Ids(g)
  {
    assert ItemIds(g[0])[0] == g[0].i;
  }

  lemma FirstIn(ids: seq<nat>, at: Places, k: nat, g: Forest)
    requires g != [] && (g[0].S? ==> g[0].i > 0 && (g[0].i in ids <==> Keep(g[0].kids, at, k, k + 1) != []))
    ensures var x := KeepItem(g[0], at, k, k + 1);
            && (InPart(ids, at, k, Pointer(g[0])) <==> x != [])
            && (x != [] ==> Pointer(LocItem(ids, at, k, x[0])) == LocElem(ids, at, k, Pointer(g[0])))
  {}

  lemma CutFirst(ids: seq<nat>, at: Places, k: nat, es: seq<Elem>)
    requires es != []
    ensures InPart(ids, at, k, es[0]) ==>
              CutElems(ids, at, k, es) == [LocElem(ids, at, k, es[0])] + CutElems(ids, at, k, es[1..])
    ensures !InPart(ids, at, k, es[0]) ==> CutElems(ids, at, k, es) == CutElems(ids, at, k, es[1..])
  {}

  lemma LocFirst(ids: seq<nat>, at: Places, k: nat, x: Item, rest: Forest)
    ensures LocForest(ids, at, k, [x] + rest) == [LocItem(ids, at, k, x)] + LocForest(ids, at, k, rest)
    ensures Top(LocForest(ids, at, k, [x] + rest))
         == [Pointer(LocItem(ids, at, k, x))] + Top(LocForest(ids, at, k, rest))
  {
    var f := [x] + rest;
    assert f[1..] == rest;
    var r := LocForest(ids, at, k, f);
    assert r[1..] == LocForest(ids, at, k, rest);
  }

  /** The sections that hold something of part k, in document order. */
  function HeldBy(f: Forest, at: Places, k: nat): seq<nat> { Ids(Keep(f, at, k, k + 1)) }

  /** secs are the whole's sections that hold something of part k, the root first, cut down to the part. */
  ghost predicate CutTable(w: seq<Section>, f: Forest, at: Places, k: nat, secs: seq<Section>)
    requires w != []
  {
    var ids := HeldBy(f, at, k);
    && |secs| == |ids| + 1
    && Elems(secs[0]) == CutElems(ids, at, k, Elems(w[0]))
    && (forall l :: 0 <= l < |ids| ==> IsCutSection(w, ids, at, k, secs, l))
  }

  /**
   * p is part k of the whole cut up: its sections, its headings and its items. Of the spans only that
   * they lie in the part's content matters here.
   */
  ghost predicate IsCut(w: seq<Section>, f: Forest, heads: set<nat>, at: Places, k: nat, p: Part)
    requires Tree(w, f)
  {
    && CutTable(w, f, at, k, p.sections)
    && (forall l :: 0 <= l < |p.sections| ==> Extensible(p.sections[l]) && Within(Spans(p.sections[l]), p.length))
    && (forall n :: PartOf(at, Paragraphs, n) == k ==> (CountOf(at.paragraphs, k, n) in p.heads <==> n in heads))
    && (forall m: Member :: Count(p, m) == CountOf(Row(at, m), k, |Row(at, m)|))
  }

  ghost predicate IsCutSection(w: seq<Section>, ids: seq<nat>, at: Places, k: nat, secs: seq<Section>, l: nat) {
    l < |ids| && ids[l] < |w| && l + 1 < |secs| && Elems(secs[l + 1]) == CutElems(ids, at, k, Elems(w[ids[l]]))
  }

  lemma {:induction false} CutReps(
      w: seq<Section>, ids: seq<nat>, at: Places, k: nat, secs: seq<Section>, g: Forest)
    requires Reps(w, g) && Marks(ids, at, k, g) && (forall i :: i in Ids(g) ==> i > 0)
    requires forall l :: 0 <= l < |ids| ==> IsCutSection(w, ids, at, k, secs, l)
    ensures Reps(secs, LocForest(ids, at, k, Keep(g, at, k, k + 1)))
    decreases g
  {
    if g != [] {
      MarksBelow(ids, at, k, g);
      assert forall i :: i in Ids(g[1..]) ==> i in Ids(g);
      assert forall i :: i in ItemIds(g[0]) ==> i in Ids(g);
      CutReps(w, ids, at, k, secs, g[1..]);
      var x, rest := KeepItem(g[0], at, k, k + 1), Keep(g[1..], at, k, k + 1);
      if g[0].S? {
        FirstId(g);
        assert forall i :: i in Ids(g[0].kids) ==> i in ItemIds(g[0]);
        CutReps(w, ids, at, k, secs, g[0].kids);
        CutItemReps(w, ids, at, k, secs, g[0].i, g[0].kids);
      }
      assert x != [] ==> ItemReps(secs, LocItem(ids, at, k, x[0]));
      hide *;
      KeepFirst(g, at, k, k + 1);
      if x != [] { LocReps(secs, ids, at, k, x[0], rest); }
    }
  }

  lemma CutItemReps(
      w: seq<Section>, ids: seq<nat>, at: Places, k: nat, secs: seq<Section>, i: nat, kids: Forest)
    requires ItemReps(w, S(i, kids)) && Marks(ids, at, k, kids) && (forall x :: x in Ids(kids) ==> x > 0)
    requires i in ids <==> Keep(kids, at, k, k + 1) != []
    requires forall l :: 0 <= l < |ids| ==> IsCutSection(w, ids, at, k, secs, l)
    requires Reps(secs, LocForest(ids, at, k, Keep(kids, at, k, k + 1)))
    ensures Keep(kids, at, k, k + 1) != [] ==>
              ItemReps(secs, LocItem(ids, at, k, S(i, Keep(kids, at, k, k + 1))))
  {
    CutTop(ids, at, k, kids);
    if Keep(kids, at, k, k + 1) != [] {
      var l := Find(ids, i);
      assert IsCutSection(w, ids, at, k, secs, l);
    }
  }

  lemma LocReps(secs: seq<Section>, ids: seq<nat>, at: Places, k: nat, x: Item, rest: Forest)
    requires ItemReps(secs, LocItem(ids, at, k, x)) && Reps(secs, LocForest(ids, at, k, rest))
    ensures Reps(secs, LocForest(ids, at, k, [x] + rest))
  {
    LocFirst(ids, at, k, x, rest);
    var r := [LocItem(ids, at, k, x)] + LocForest(ids, at, k, rest);
    assert r[1..] == LocForest(ids, at, k, rest);
  }

  function LocIds(ids: seq<nat>, some: seq<nat>): (r: seq<nat>)
    ensures |r| == |some|
    decreases |some|
  {
    if some == [] then [] else [Find(ids, some[0]) + 1] + LocIds(ids, some[1..])
  }

  lemma {:induction false} LocIdsAt(ids: seq<nat>, some: seq<nat>, n: nat)
    requires n < |some|
    ensures LocIds(ids, some)[n] == Find(ids, some[n]) + 1
    decreases |some|
  {
    if n > 0 { LocIdsAt(ids, some[1..], n - 1); }
  }

  lemma {:induction false} LocIdsConcat(ids: seq<nat>, a: seq<nat>, b: seq<nat>)
    ensures LocIds(ids, a + b) == LocIds(ids, a) + LocIds(ids, b)
    decreases |a|
  {
    if a == [] {
      assert a + b == b;
    } else {
      assert (a + b)[1..] == a[1..] + b;
      LocIdsConcat(ids, a[1..], b);
    }
  }

  lemma {:induction false} LocForestIds(ids: seq<nat>, at: Places, k: nat, f: Forest)
    ensures Ids(LocForest(ids, at, k, f)) == LocIds(ids, Ids(f))
    decreases f
  {
    if f != [] {
      LocForestIds(ids, at, k, f[1..]);
      if f[0].S? {
        LocForestIds(ids, at, k, f[0].kids);
        LocIdsConcat(ids, [f[0].i], Ids(f[0].kids));
        assert LocIds(ids, [f[0].i]) == [Find(ids, f[0].i) + 1];
      }
      assert ItemIds(LocItem(ids, at, k, f[0])) == LocIds(ids, ItemIds(f[0]));
      LocIdsConcat(ids, ItemIds(f[0]), Ids(f[1..]));
    }
  }

  lemma FoundAt(ids: seq<nat>, n: nat)
    requires Distinct(ids) && n < |ids|
    ensures Find(ids, ids[n]) == n
  {
    var e := Find(ids, ids[n]);
    assert ids[n] in ids && ids[e] == ids[n];
  }

  /** The part's sections are numbered in document order. */
  lemma LocNumbers(ids: seq<nat>, at: Places, k: nat, f: Forest)
    requires ids == Ids(f) && Distinct(ids)
    ensures Ids(LocForest(ids, at, k, f)) == Range(1, |ids|)
    ensures Numbers(Ids(LocForest(ids, at, k, f)), 1, |ids| + 1)
  {
    LocForestIds(ids, at, k, f);
    var r := LocIds(ids, ids);
    forall n | 0 <= n < |ids| ensures r[n] == n + 1 {
      LocIdsAt(ids, ids, n);
      FoundAt(ids, n);
    }
    assert r == Range(1, |ids|);
    RangeNumbers(1, |ids|);
  }

  lemma RangeNumbers(lo: nat, n: nat)
    ensures Numbers(Range(lo, n), lo, lo + n)
  {
    var r := Range(lo, n);
    forall x ensures x in r <==> lo <= x < lo + n {
      if lo <= x < lo + n { assert r[x - lo] == x; }
    }
  }

  lemma {:induction false} KeptDistinct(g: Forest, at: Places, lo: int, hi: int)
    requires Distinct(Ids(g))
    ensures Distinct(Ids(Keep(g, at, lo, hi)))
    decreases g
  {
    if g != [] {
      DistinctSplit(g);
      KeptDistinct(g[1..], at, lo, hi);
      var x, rest := KeepItem(g[0], at, lo, hi), Keep(g[1..], at, lo, hi);
      IdsConcat(x, rest);
      if g[0].S? {
        KeptDistinct(g[0].kids, at, lo, hi);
        SelfApart(g);
        KeptWithin(g[0].kids, at, lo, hi, g[0].i);
        if x != [] {
          One(x[0]);
          DistinctCons(g[0].i, Ids(x[0].kids));
        }
      } else if x != [] {
        One(x[0]);
      }
      forall i ensures i in Ids(x) ==> i !in Ids(rest) {
        KeptWithin(g[1..], at, lo, hi, i);
        if i in Ids(x) {
          if i != g[0].i { KeptWithin(g[0].kids, at, lo, hi, i); }
          assert i in ItemIds(g[0]);
          NotAfter(g, i);
        }
      }
      DistinctJoin(Ids(x), Ids(rest));
    }
  }

  lemma DistinctJoin(a: seq<nat>, b: seq<nat>)
    requires Distinct(a) && Distinct(b) && forall i :: i in a ==> i !in b
    ensures Distinct(a + b)
  {
    forall i, j | 0 <= i < j < |a + b| ensures (a + b)[i] != (a + b)[j] {
      if i < |a| && j >= |a| { assert a[i] in a && b[j - |a|] in b; }
    }
  }

  /** A part cut out of a tree is a tree. */
  lemma CutTree(w: seq<Section>, f: Forest, heads: set<nat>, at: Places, k: nat, p: Part)
    requires Tree(w, f) && IsCut(w, f, heads, at, k, p)
    ensures Tree(p.sections, LocForest(HeldBy(f, at, k), at, k, Keep(f, at, k, k + 1)))
  {
    var ids := HeldBy(f, at, k);
    forall i, kids | HasNode(f, i, kids) ensures i in ids <==> Keep(kids, at, k, k + 1) != [] {
      NodeKept(f, at, k, k + 1, i, kids);
    }
    CutTop(ids, at, k, f);
    CutReps(w, ids, at, k, p.sections, f);
    KeptDistinct(f, at, k, k + 1);
    LocNumbers(ids, at, k, Keep(f, at, k, k + 1));
  }
}

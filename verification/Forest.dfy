/**
 * Section trees. A section's content is a sequence of leaves and sub-sections, each sub-section
 * with its own content, so what a root holds is a forest; a sections array represents it when every
 * section's elements are its content's pointers.
 */
module Forest {
  import opened Lists
  import opened Sections

  datatype Item = L(m: Member, n: nat) | S(i: nat, kids: seq<Item>)

  type Forest = seq<Item>

  function Pointer(x: Item): Elem {
    match x case L(m, n) => Leaf(m, n) case S(i, _) => Sec(i)
  }

  /** The pointers a section with this content holds. */
  function Top(f: Forest): (r: seq<Elem>)
    ensures |r| == |f|
    decreases |f|
  {
    if f == [] then [] else [Pointer(f[0])] + Top(f[1..])
  }

  /** Every leaf, in document order. */
  function Leaves(f: Forest): seq<Elem>
    decreases f, 0
  {
    if f == [] then [] else ItemLeaves(f[0]) + Leaves(f[1..])
  }

  function ItemLeaves(x: Item): seq<Elem>
    decreases x, 1
  {
    match x case L(m, n) => [Leaf(m, n)] case S(_, kids) => Leaves(kids)
  }

  /** Every section's index, in document order: a section before its sub-sections. */
  function Ids(f: Forest): seq<nat>
    decreases f, 0
  {
    if f == [] then [] else ItemIds(f[0]) + Ids(f[1..])
  }

  function ItemIds(x: Item): seq<nat>
    decreases x, 1
  {
    match x case L(_, _) => [] case S(i, kids) => [i] + Ids(kids)
  }

  /** The sections table holds this forest's sections, each with its content's pointers. */
  ghost predicate Reps(table: seq<Section>, f: Forest)
    decreases f, 0
  {
    f == [] || (ItemReps(table, f[0]) && Reps(table, f[1..]))
  }

  ghost predicate ItemReps(table: seq<Section>, x: Item)
    decreases x, 1
  {
    x.L? || (x.i < |table| && Elems(table[x.i]) == Top(x.kids) && Reps(table, x.kids))
  }

  /** The sections the forest ends in: its last item, that one's last item, and so on. */
  function Path(f: Forest): seq<nat>
    decreases f
  {
    if f == [] || f[|f| - 1].L? then [] else [f[|f| - 1].i] + Path(f[|f| - 1].kids)
  }

  /** The ids are lo up to hi, each once, in some order. */
  ghost predicate Numbers(ids: seq<nat>, lo: nat, hi: nat) {
    && Distinct(ids)
    && forall x :: x in ids <==> lo <= x < hi
  }

  /** A sections array is one tree: the root's content reaches every other section exactly once. */
  ghost predicate Tree(table: seq<Section>, f: Forest) {
    && table != []
    && Elems(table[0]) == Top(f)
    && Reps(table, f)
    && Numbers(Ids(f), 1, |table|)
  }

  lemma {:induction false} TopAt(f: Forest)
    ensures forall k :: 0 <= k < |f| ==> Top(f)[k] == Pointer(f[k])
    decreases |f|
  {
    if f != [] { TopAt(f[1..]); }
  }

  lemma Concat(f: Forest, g: Forest)
    ensures Top(f + g) == Top(f) + Top(g)
    ensures Leaves(f + g) == Leaves(f) + Leaves(g)
    ensures Ids(f + g) == Ids(f) + Ids(g)
  {
    TopConcat(f, g);
    LeavesConcat(f, g);
    IdsConcat(f, g);
  }

  lemma {:induction false} TopConcat(f: Forest, g: Forest)
    ensures Top(f + g) == Top(f) + Top(g)
    decreases |f|
  {
    if f == [] {
      assert f + g == g;
    } else {
      assert (f + g)[1..] == f[1..] + g;
      TopConcat(f[1..], g);
      Associate([Pointer(f[0])], Top(f[1..]), Top(g));
    }
  }

  lemma {:induction false} LeavesConcat(f: Forest, g: Forest)
    ensures Leaves(f + g) == Leaves(f) + Leaves(g)
    decreases |f|
  {
    if f == [] {
      assert f + g == g;
    } else {
      assert (f + g)[1..] == f[1..] + g;
      LeavesConcat(f[1..], g);
      Associate(ItemLeaves(f[0]), Leaves(f[1..]), Leaves(g));
    }
  }

  lemma {:induction false} IdsConcat(f: Forest, g: Forest)
    ensures Ids(f + g) == Ids(f) + Ids(g)
    decreases |f|
  {
    if f == [] {
      assert f + g == g;
    } else {
      assert (f + g)[1..] == f[1..] + g;
      IdsConcat(f[1..], g);
      Associate(ItemIds(f[0]), Ids(f[1..]), Ids(g));
    }
  }

  lemma Associate<T>(a: seq<T>, b: seq<T>, c: seq<T>)
    ensures a + (b + c) == a + b + c
  {}

  lemma {:induction false} RepsConcat(table: seq<Section>, f: Forest, g: Forest)
    ensures Reps(table, f + g) <==> Reps(table, f) && Reps(table, g)
    decreases f
  {
    if f == [] {
      assert f + g == g;
    } else {
      assert (f + g)[1..] == f[1..] + g;
      RepsConcat(table, f[1..], g);
    }
  }

  /** Only the sections a forest names matter to whether a table holds it. */
  lemma {:induction false} RepsFrame(a: seq<Section>, b: seq<Section>, f: Forest)
    requires Reps(a, f)
    requires forall i :: i in Ids(f) ==> SameAt(a, b, i)
    ensures Reps(b, f)
    decreases f
  {
    if f != [] {
      assert forall i :: i in ItemIds(f[0]) || i in Ids(f[1..]) ==> i in Ids(f);
      RepsFrame(a, b, f[1..]);
      if f[0].S? {
        var i, kids := f[0].i, f[0].kids;
        assert forall x :: x == i || x in Ids(kids) ==> x in ItemIds(f[0]);
        RepsFrame(a, b, kids);
        assert i in ItemIds(f[0]) && f[0] == S(i, kids);
        ItemFrame(a, b, i, kids);
      }
    }
  }

  lemma ItemFrame(a: seq<Section>, b: seq<Section>, i: nat, kids: Forest)
    requires ItemReps(a, S(i, kids)) && Reps(b, kids) && SameAt(a, b, i)
    ensures ItemReps(b, S(i, kids))
  {}

  /** f with the last element split off. */
  lemma LastOff(f: Forest)
    requires f != [] && f[|f| - 1].S?
    ensures var n := |f| - 1;
            && f == f[..n] + [f[n]]
            && Ids(f) == Ids(f[..n]) + ([f[n].i] + Ids(f[n].kids))
            && Leaves(f) == Leaves(f[..n]) + Leaves(f[n].kids)
            && Top(f) == Top(f[..n]) + [Sec(f[n].i)]
  {
    var n := |f| - 1;
    var last := [f[n]];
    assert f == f[..n] + last;
    Concat(f[..n], last);
    One(f[n]);
  }

  lemma One(x: Item)
    ensures Ids([x]) == ItemIds(x) && Leaves([x]) == ItemLeaves(x) && Top([x]) == [Pointer(x)]
  {
    assert [x][1..] == [];
    assert ItemIds(x) + [] == ItemIds(x) && ItemLeaves(x) + [] == ItemLeaves(x);
  }

  /**
   * f with content appended along the path it ends in: adds[0] to the root, adds[1] to its last
   * section, adds[2] to that one's, and so on.
   */
  function Extend(f: Forest, adds: seq<Forest>): Forest
    requires 0 < |adds| <= |Path(f)| + 1
    decreases |adds|
  {
    if |adds| == 1 then f + adds[0]
    else
      var n := |f| - 1;
      f[..n] + [S(f[n].i, Extend(f[n].kids, adds[1..]))] + adds[0]
  }

  /** What was appended, in document order: the deepest first. */
  function Flat(adds: seq<Forest>): Forest
    decreases |adds|
  {
    if adds == [] then [] else Flat(adds[1..]) + adds[0]
  }

  lemma {:induction false} FlatConcat(a: seq<Forest>, b: seq<Forest>)
    ensures Flat(a + b) == Flat(b) + Flat(a)
    decreases |a|
  {
    if a == [] {
      assert a + b == b;
    } else {
      assert (a + b)[1..] == a[1..] + b;
      FlatConcat(a[1..], b);
    }
  }

  lemma Extended(f: Forest, adds: seq<Forest>)
    requires 0 < |adds| <= |Path(f)| + 1
    ensures Leaves(Extend(f, adds)) == Leaves(f) + Leaves(Flat(adds))
    ensures Ids(Extend(f, adds)) == Ids(f) + Ids(Flat(adds))
  {
    ExtendedLeaves(f, adds);
    ExtendedIds(f, adds);
  }

  lemma {:induction false} ExtendedLeaves(f: Forest, adds: seq<Forest>)
    requires 0 < |adds| <= |Path(f)| + 1
    ensures Leaves(Extend(f, adds)) == Leaves(f) + Leaves(Flat(adds))
    decreases |adds|
  {
    var rest := adds[1..];
    LeavesConcat(Flat(rest), adds[0]);
    if |adds| == 1 {
      assert Flat(adds) == adds[0];
      LeavesConcat(f, adds[0]);
    } else {
      var n := |f| - 1;
      var more := Extend(f[n].kids, rest);
      LastOff(f);
      ExtendedLeaves(f[n].kids, rest);
      Replaced(f[..n], f[n].i, more);
      LeavesConcat(f[..n] + [S(f[n].i, more)], adds[0]);
      Reassociated(Leaves(f[..n]), Leaves(f[n].kids), Leaves(Flat(rest)), Leaves(adds[0]));
    }
  }

  lemma {:induction false} ExtendedIds(f: Forest, adds: seq<Forest>)
    requires 0 < |adds| <= |Path(f)| + 1
    ensures Ids(Extend(f, adds)) == Ids(f) + Ids(Flat(adds))
    decreases |adds|
  {
    var rest := adds[1..];
    IdsConcat(Flat(rest), adds[0]);
    if |adds| == 1 {
      assert Flat(adds) == adds[0];
      IdsConcat(f, adds[0]);
    } else {
      var n := |f| - 1;
      var more := Extend(f[n].kids, rest);
      LastOff(f);
      ExtendedIds(f[n].kids, rest);
      Replaced(f[..n], f[n].i, more);
      IdsConcat(f[..n] + [S(f[n].i, more)], adds[0]);
      Associate([f[n].i], Ids(f[n].kids), Ids(Flat(rest)));
      Reassociated(Ids(f[..n]), [f[n].i] + Ids(f[n].kids), Ids(Flat(rest)), Ids(adds[0]));
    }
  }

  lemma Reassociated<T>(a: seq<T>, b: seq<T>, c: seq<T>, d: seq<T>)
    ensures a + (b + c) + d == (a + b) + (c + d)
  {}

  lemma Replaced(front: Forest, i: nat, kids: Forest)
    ensures Leaves(front + [S(i, kids)]) == Leaves(front) + Leaves(kids)
    ensures Ids(front + [S(i, kids)]) == Ids(front) + ([i] + Ids(kids))
    ensures Top(front + [S(i, kids)]) == Top(front) + [Sec(i)]
  {
    var g := front + [S(i, kids)];
    LastOff(g);
    assert g[..|front|] == front;
  }

  /** Where the path goes after the extension: through the shallowest content appended, if any. */
  lemma {:induction false} ExtendedPath(f: Forest, adds: seq<Forest>, d: nat)
    requires 0 < |adds| <= |Path(f)| + 1 && d < |adds|
    requires forall k :: 0 <= k < d ==> adds[k] == []
    requires adds[d] != []
    ensures Path(Extend(f, adds)) == Path(f)[..d] + Path(adds[d])
    decreases |adds|
  {
    if d == 0 {
      var g := Extend(f, adds);
      assert g[|g| - 1] == adds[0][|adds[0]| - 1];
    } else {
      var n := |f| - 1;
      ExtendedPath(f[n].kids, adds[1..], d - 1);
      var g := f[..n] + [S(f[n].i, Extend(f[n].kids, adds[1..]))];
      assert adds[0] == [] && Extend(f, adds) == g;
    }
  }

  /** An extension of empty content changes nothing. */
  lemma {:induction false} ExtendedByNothing(f: Forest, adds: seq<Forest>)
    requires 0 < |adds| <= |Path(f)| + 1
    requires forall k :: 0 <= k < |adds| ==> adds[k] == []
    ensures Extend(f, adds) == f
    decreases |adds|
  {
    var n := |f| - 1;
    if |adds| == 1 {
      assert f + [] == f;
    } else {
      ExtendedByNothing(f[n].kids, adds[1..]);
      assert f[n] == S(f[n].i, f[n].kids);
      assert f[..n] + [f[n]] + [] == f;
    }
  }

  ghost predicate SameAt(a: seq<Section>, b: seq<Section>, i: nat) {
    i < |a| ==> i < |b| && Elems(b[i]) == Elems(a[i])
  }

  ghost predicate MoreAt(a: seq<Section>, b: seq<Section>, i: nat, add: Forest) {
    i < |a| ==> i < |b| && Elems(b[i]) == Elems(a[i]) + Top(add)
  }

  /** Table b is a with the added content's pointers at the sections on the path, for f's sections. */
  ghost predicate Grown(a: seq<Section>, b: seq<Section>, f: Forest, adds: seq<Forest>)
    requires 0 < |adds| <= |Path(f)| + 1
  {
    && |a| <= |b|
    && (forall i :: i in Ids(f) && i !in Path(f)[..|adds| - 1] ==> SameAt(a, b, i))
    && (forall d :: 0 <= d < |adds| - 1 ==> MoreAt(a, b, Path(f)[d], adds[d + 1]))
  }

  lemma {:induction false} ExtendReps(a: seq<Section>, b: seq<Section>, f: Forest, adds: seq<Forest>)
    requires 0 < |adds| <= |Path(f)| + 1
    requires Reps(a, f) && Distinct(Ids(f)) && Grown(a, b, f, adds)
    requires forall d :: 0 <= d < |adds| ==> Reps(b, adds[d])
    ensures Reps(b, Extend(f, adds))
    ensures Top(Extend(f, adds)) == Top(f) + Top(adds[0])
    decreases |adds|
  {
    if |adds| == 1 {
      RepsFrame(a, b, f);
      RepsConcat(b, f, adds[0]);
      Concat(f, adds[0]);
    } else {
      var n := |f| - 1;
      var front, i, kids := f[..n], f[n].i, f[n].kids;
      LastOff(f);
      RepsConcat(a, front, [f[n]]);
      DistinctParts(Ids(front), [i], Ids(kids));
      FrontKept(a, b, f, adds);
      KidsGrown(a, b, f, adds);
      ExtendReps(a, b, kids, adds[1..]);
      var more := Extend(kids, adds[1..]);
      assert Path(f)[0] == i && i < |a|;
      assert MoreAt(a, b, i, adds[1]);
      RepsReplaced(b, front, i, more, adds[0]);
    }
  }

  lemma RepsReplaced(b: seq<Section>, front: Forest, i: nat, kids: Forest, more: Forest)
    requires Reps(b, front) && i < |b| && Elems(b[i]) == Top(kids) && Reps(b, kids) && Reps(b, more)
    ensures Reps(b, front + [S(i, kids)] + more)
    ensures Top(front + [S(i, kids)] + more) == Top(front) + [Sec(i)] + Top(more)
  {
    var x := S(i, kids);
    assert [x][1..] == [];
    assert Reps(b, [x]);
    RepsConcat(b, front, [x]);
    RepsConcat(b, front + [x], more);
    Replaced(front, i, kids);
    TopConcat(front + [x], more);
  }

  lemma FrontKept(a: seq<Section>, b: seq<Section>, f: Forest, adds: seq<Forest>)
    requires 1 < |adds| <= |Path(f)| + 1
    requires Distinct(Ids(f)) && Grown(a, b, f, adds) && Reps(a, f[..|f| - 1])
    ensures Reps(b, f[..|f| - 1])
  {
    var front, i, kids := f[..|f| - 1], f[|f| - 1].i, f[|f| - 1].kids;
    LastOff(f);
    PathIds(kids);
    DistinctParts(Ids(front), [i], Ids(kids));
    forall x | x in Ids(front) ensures SameAt(a, b, x) {
      assert x in Ids(f) && x !in Path(f);
    }
    RepsFrame(a, b, front);
  }

  lemma KidsGrown(a: seq<Section>, b: seq<Section>, f: Forest, adds: seq<Forest>)
    requires 1 < |adds| <= |Path(f)| + 1
    requires Distinct(Ids(f)) && Grown(a, b, f, adds)
    ensures Grown(a, b, f[|f| - 1].kids, adds[1..])
  {
    var i, kids := f[|f| - 1].i, f[|f| - 1].kids;
    var path, rest := Path(f), adds[1..];
    assert path == [i] + Path(kids);
    forall x | x in Ids(kids) && x !in Path(kids)[..|rest| - 1] ensures SameAt(a, b, x) {
      KidApart(f, |rest|, x);
    }
    forall d | 0 <= d < |rest| - 1 ensures MoreAt(a, b, Path(kids)[d], rest[d + 1]) {
      assert Path(kids)[d] == path[d + 1];
      assert MoreAt(a, b, path[d + 1], adds[d + 2]);
    }
  }

  lemma KidApart(f: Forest, n: nat, x: nat)
    requires Distinct(Ids(f)) && f != [] && f[|f| - 1].S? && 0 < n <= |Path(f)|
    requires x in Ids(f[|f| - 1].kids) && x !in Path(f[|f| - 1].kids)[..n - 1]
    ensures x in Ids(f) && x !in Path(f)[..n]
  {
    var i, kids := f[|f| - 1].i, f[|f| - 1].kids;
    LastOff(f);
    DistinctParts(Ids(f[..|f| - 1]), [i], Ids(kids));
    assert Path(f)[..n] == [i] + Path(kids)[..n - 1];
  }

  lemma DistinctParts(a: seq<nat>, b: seq<nat>, c: seq<nat>)
    requires Distinct(a + (b + c))
    ensures Distinct(a) && Distinct(b) && Distinct(c)
    ensures forall x :: x in a ==> x !in b && x !in c
    ensures forall x :: x in b ==> x !in c
  {
    var s := a + (b + c);
    assert forall k :: 0 <= k < |a| ==> s[k] == a[k];
    assert forall k :: 0 <= k < |b| ==> s[|a| + k] == b[k];
    assert forall k :: 0 <= k < |c| ==> s[|a| + |b| + k] == c[k];
  }

  lemma {:induction false} PathIds(f: Forest)
    ensures forall x :: x in Path(f) ==> x in Ids(f)
    decreases f
  {
    if f != [] && f[|f| - 1].S? {
      LastOff(f);
      PathIds(f[|f| - 1].kids);
    }
  }
}

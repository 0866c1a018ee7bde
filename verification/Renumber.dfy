/** Where a part's items, sections and offsets land in the merged result (merge/check.go, di.go). */
module Renumber {
  import opened Sections
  import opened Forest
  import opened Lead

  /** The items of each member in earlier parts. */
  datatype Bases = Bases(paragraphs: nat, tables: nat, figures: nat, pairs: nat)

  function Base(b: Bases, m: Member): nat {
    match m
    case Paragraphs => b.paragraphs
    case Tables => b.tables
    case Figures => b.figures
    case KeyValuePairs => b.pairs
  }

  /**
   * One part's shifts: start is where its content starts and prevEnd where the part before it ends,
   * ptr counts earlier items, and secBase is where the first section it keeps lands.
   */
  datatype Shift = Shift(k: nat, start: nat, prevEnd: nat, ptr: Bases, secBase: nat, secDrop: nat)

  function BasesTo(parts: seq<Part>, k: nat): Bases
    requires k <= |parts|
    decreases k
  {
    if k == 0 then Bases(0, 0, 0, 0)
    else
      var b, p := BasesTo(parts, k - 1), parts[k - 1];
      Bases(b.paragraphs + |p.paragraphs|, b.tables + |p.tables|, b.figures + |p.figures|, b.pairs + |p.pairs|)
  }

  function CharTo(parts: seq<Part>, sep: nat, k: nat): nat
    requires k <= |parts|
    decreases k
  {
    if k == 0 then 0 else CharTo(parts, sep, k - 1) + parts[k - 1].length + sep
  }

  /** How many sections a part keeps beside its root. */
  function Kept(p: Part, s: Shape): nat {
    if |p.sections| < 1 + SecDrop(s) then 0 else |p.sections| - 1 - SecDrop(s)
  }

  function SecsTo(parts: seq<Part>, shapes: seq<Shape>, k: nat): nat
    requires k <= |parts| && k <= |shapes|
    decreases k
  {
    if k == 0 then 1 else SecsTo(parts, shapes, k - 1) + Kept(parts[k - 1], shapes[k - 1])
  }

  function ShiftOf(parts: seq<Part>, shapes: seq<Shape>, sep: nat, k: nat): Shift
    requires k < |parts| && k < |shapes|
  {
    Shift(k, CharTo(parts, sep, k), if k == 0 then 0 else CharTo(parts, sep, k - 1) + parts[k - 1].length,
          BasesTo(parts, k), SecsTo(parts, shapes, k), SecDrop(shapes[k]))
  }

  /** The merged index of the part's section i. Sections 1 to secDrop are folded away. */
  function RenSec(sh: Shift, i: nat): nat {
    if i <= sh.secDrop then 0 else sh.secBase + (i - 1 - sh.secDrop)
  }

  function RenElem(sh: Shift, e: Elem): Elem {
    match e
    case Leaf(m, n) => Leaf(m, n + Base(sh.ptr, m))
    case Sec(i) => Sec(RenSec(sh, i))
  }

  function RenElems(sh: Shift, es: seq<Elem>): (r: seq<Elem>)
    ensures |r| == |es|
    decreases |es|
  {
    if es == [] then [] else [RenElem(sh, es[0])] + RenElems(sh, es[1..])
  }

  /** What the visitor can renumber: an item the part has, and not a section folded away. */
  predicate Renumbers(p: Part, sh: Shift, e: Elem) {
    match e
    case Leaf(m, n) => n < Count(p, m)
    case Sec(i) => i < |p.sections| && !(0 < i <= sh.secDrop)
  }

  function RenForest(sh: Shift, f: Forest): (r: Forest)
    ensures |r| == |f|
    decreases f, 0
  {
    if f == [] then [] else [RenItem(sh, f[0])] + RenForest(sh, f[1..])
  }

  function RenItem(sh: Shift, x: Item): Item
    decreases x, 1
  {
    match x
    case L(m, n) => L(m, n + Base(sh.ptr, m))
    case S(i, kids) => S(RenSec(sh, i), RenForest(sh, kids))
  }

  function RenIds(sh: Shift, ids: seq<nat>): (r: seq<nat>)
    ensures |r| == |ids|
    ensures forall k :: 0 <= k < |ids| ==> r[k] == RenSec(sh, ids[k])
    decreases |ids|
  {
    if ids == [] then [] else [RenSec(sh, ids[0])] + RenIds(sh, ids[1..])
  }

  /** spans shifted into merged offsets. */
  function Shifted(sh: Shift, spans: seq<Span>): (r: seq<Span>)
    ensures |r| == |spans|
    ensures forall k :: 0 <= k < |spans| ==> r[k] == Span(spans[k].offset + sh.start, spans[k].length)
    decreases |spans|
  {
    if spans == [] then []
    else
      var n := |spans| - 1;
      Shifted(sh, spans[..n]) + [Span(spans[n].offset + sh.start, spans[n].length)]
  }

  /**
   * spans shifted and appended to out, one that starts the part's content joined to the last of out
   * when that ends where the part before ends: only the page separator lies between them.
   */
  function Append(sh: Shift, out: seq<Span>, spans: seq<Span>): seq<Span>
    requires sh.prevEnd <= sh.start
    decreases |spans|
  {
    if spans == [] then out
    else
      var n := |spans| - 1;
      var before := Append(sh, out, spans[..n]);
      var s := Span(spans[n].offset + sh.start, spans[n].length);
      if before != [] && sh.k > 0 && s.offset == sh.start && End(before[|before| - 1]) == sh.prevEnd then
        var last := before[|before| - 1];
        before[..|before| - 1] + [Span(last.offset, End(s) - last.offset)]
      else before + [s]
  }

  lemma {:induction false} RenTop(sh: Shift, f: Forest)
    ensures Top(RenForest(sh, f)) == RenElems(sh, Top(f))
    decreases f
  {
    if f != [] { RenTop(sh, f[1..]); }
  }

  lemma {:induction false} RenElemsConcat(sh: Shift, a: seq<Elem>, b: seq<Elem>)
    ensures RenElems(sh, a + b) == RenElems(sh, a) + RenElems(sh, b)
    decreases |a|
  {
    if a == [] {
      assert a + b == b;
    } else {
      assert (a + b)[1..] == a[1..] + b;
      RenElemsConcat(sh, a[1..], b);
    }
  }

  lemma {:induction false} RenIdsConcat(sh: Shift, a: seq<nat>, b: seq<nat>)
    ensures RenIds(sh, a + b) == RenIds(sh, a) + RenIds(sh, b)
  {}

  lemma RenContents(sh: Shift, f: Forest)
    ensures Leaves(RenForest(sh, f)) == RenElems(sh, Leaves(f))
    ensures Ids(RenForest(sh, f)) == RenIds(sh, Ids(f))
  {
    RenLeaves(sh, f);
    RenAllIds(sh, f);
  }

  lemma {:induction false} RenLeaves(sh: Shift, f: Forest)
    ensures Leaves(RenForest(sh, f)) == RenElems(sh, Leaves(f))
    decreases f
  {
    if f != [] {
      RenLeaves(sh, f[1..]);
      if f[0].S? { RenLeaves(sh, f[0].kids); }
      assert ItemLeaves(RenForest(sh, f)[0]) == RenElems(sh, ItemLeaves(f[0]));
      RenElemsConcat(sh, ItemLeaves(f[0]), Leaves(f[1..]));
    }
  }

  lemma {:induction false} RenAllIds(sh: Shift, f: Forest)
    ensures Ids(RenForest(sh, f)) == RenIds(sh, Ids(f))
    decreases f
  {
    if f != [] {
      RenAllIds(sh, f[1..]);
      if f[0].S? {
        RenAllIds(sh, f[0].kids);
        RenIdsConcat(sh, [f[0].i], Ids(f[0].kids));
      }
      assert ItemIds(RenForest(sh, f)[0]) == RenIds(sh, ItemIds(f[0]));
      RenIdsConcat(sh, ItemIds(f[0]), Ids(f[1..]));
    }
  }

  lemma {:induction false} RenConcat(sh: Shift, f: Forest, g: Forest)
    ensures RenForest(sh, f + g) == RenForest(sh, f) + RenForest(sh, g)
    decreases f
  {
    if f == [] {
      assert f + g == g;
    } else {
      assert (f + g)[1..] == f[1..] + g;
      RenConcat(sh, f[1..], g);
    }
  }

  /** The table holds the part's section i, renumbered, where it lands. */
  ghost predicate Lands(secs: seq<Section>, table: seq<Section>, sh: Shift, i: nat) {
    sh.secDrop < i < |secs| ==> RenSec(sh, i) < |table| && Elems(table[RenSec(sh, i)]) == RenElems(sh, Elems(secs[i]))
  }

  /** A table that holds the part's kept sections, where they land, holds their trees. */
  lemma {:induction false} RenReps(secs: seq<Section>, table: seq<Section>, sh: Shift, f: Forest)
    requires Reps(secs, f)
    requires forall i :: i in Ids(f) ==> sh.secDrop < i
    requires forall i: nat :: Lands(secs, table, sh, i)
    ensures Reps(table, RenForest(sh, f))
    decreases f
  {
    if f != [] {
      assert forall i :: i in ItemIds(f[0]) || i in Ids(f[1..]) ==> i in Ids(f);
      RenReps(secs, table, sh, f[1..]);
      if f[0].S? {
        var i, kids := f[0].i, f[0].kids;
        assert forall x :: x == i || x in Ids(kids) ==> x in ItemIds(f[0]);
        RenReps(secs, table, sh, kids);
        assert i in ItemIds(f[0]) && f[0] == S(i, kids);
        RenLands(secs, table, sh, i, kids);
      }
      RenFirst(table, sh, f);
    }
  }

  lemma RenLands(secs: seq<Section>, table: seq<Section>, sh: Shift, i: nat, kids: Forest)
    requires ItemReps(secs, S(i, kids)) && sh.secDrop < i && Lands(secs, table, sh, i)
    requires Reps(table, RenForest(sh, kids))
    ensures ItemReps(table, RenItem(sh, S(i, kids)))
  {
    RenTop(sh, kids);
  }

  lemma RenFirst(table: seq<Section>, sh: Shift, f: Forest)
    requires f != [] && ItemReps(table, RenItem(sh, f[0])) && Reps(table, RenForest(sh, f[1..]))
    ensures Reps(table, RenForest(sh, f))
  {
    assert RenForest(sh, f)[1..] == RenForest(sh, f[1..]);
  }

  /** Renumbered ids of the kept sections are exactly the places they land in. */
  lemma RenNumbers(sh: Shift, ids: seq<nat>, hi: nat)
    requires Numbers(ids, sh.secDrop + 1, hi)
    ensures Numbers(RenIds(sh, ids), sh.secBase, sh.secBase + (if hi > sh.secDrop then hi - 1 - sh.secDrop else 0))
  {
    var r := RenIds(sh, ids);
    forall x ensures x in r <==> sh.secBase <= x < sh.secBase + (if hi > sh.secDrop then hi - 1 - sh.secDrop else 0) {
      if x in r {
        var k :| 0 <= k < |r| && r[k] == x;
        assert ids[k] in ids;
      }
      if sh.secBase <= x < sh.secBase + (if hi > sh.secDrop then hi - 1 - sh.secDrop else 0) {
        var i := x - sh.secBase + 1 + sh.secDrop;
        assert i in ids;
        var k :| 0 <= k < |ids| && ids[k] == i;
        assert r[k] == x;
      }
    }
    forall a, b | 0 <= a < b < |r| ensures r[a] != r[b] {
      assert ids[a] in ids && ids[b] in ids;
    }
  }
}

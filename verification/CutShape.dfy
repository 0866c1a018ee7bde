/** How a part cut out of a tree joins what is merged of the parts before it. */
module CutShape {
  import opened Sections
  import opened Forest
  import opened Lead
  import opened Renumber
  import opened Fold
  import opened Incremental
  import opened LeftOpen
  import opened Cutting
  import opened CutPart
  import opened Continues

  /** Folded are the sections the cut runs through, and content only where it continues the deepest. */
  ghost predicate FoldsMeeting(s: Shape, m: Forest, e: Forest, depth: nat) {
    var c := Meet(m, e);
    if c == 0 then s.Apart? else s.Chain? && s.n == c && (s.content ==> depth == c)
  }

  lemma CutShapes(p: Part, f: Forest, heads: set<nat>, at: Places, k: nat, ids: seq<nat>, depth: nat)
    requires Ready(f, at, heads) && LeavesFirst(f) && Keep(f, at, k, k + 1) != []
    requires CutSections(p, ids, at, k, heads) && HoldsAt(p, ids, at, k, 0, Keep(f, at, k, k + 1))
    requires depth == |Path(Keep(f, at, 0, k))| && (k == 0 ==> depth == 0)
    ensures ShapeOf(p, k, depth).Ok?
    ensures FoldsMeeting(ShapeOf(p, k, depth).value, Keep(f, at, 0, k), Keep(f, at, k, k + 1), depth)
  {
    var m, e := Keep(f, at, 0, k), Keep(f, at, k, k + 1);
    if depth > 0 {
      hide Keep, Meet, Ready, LeavesFirst, HoldsAt, CutSections, ChainFrom, LocForest, InOrder;
      NoLeafFirst(f, at, heads, k);
      SectionSound(p, ids, at, k, heads, 0, e);
      HoldsFirst(p, ids, at, k, 0, e);
      SectionSound(p, ids, at, k, heads, 1, e[0].kids);
      var inner := Front(f, at, heads, k);
      FrontSays(m, e[0], at, heads, k, inner);
      if PartOf(at, inner[0].m, inner[0].n) < k {
        MeetOn(m, e);
        var content := ChainIs(p, ids, at, k, heads, 1, inner, depth);
      } else {
        MeetFirst(m, e);
        TitleIn(at, heads, k, inner, e[0].kids);
        HeadingLeaf(p, ids, at, k, heads, e[0].kids);
        NoChain(p, depth);
      }
    }
  }

  lemma NoChain(p: Part, depth: nat)
    requires |p.sections| > 1 && Extensible(p.sections[1]) && Elems(p.sections[1]) != []
    requires IsHeading(p, Elems(p.sections[1])[0])
    ensures ChainFrom(p, 1, depth) == Ok(Apart)
  {}

  lemma NoLeafFirst(f: Forest, at: Places, heads: set<nat>, k: nat)
    requires Ready(f, at, heads) && LeavesFirst(f) && Keep(f, at, k, k + 1) != [] && Path(Keep(f, at, 0, k)) != []
    ensures Keep(f, at, k, k + 1)[0].S?
  {
    if Keep(f, at, k, k + 1)[0].L? { var n := FrontLeaf(f, at, k); }
  }

  /** The first section of f, the first of that one's, and so on, c of them. */
  ghost predicate Nested(f: Forest, c: nat)
    decreases c
  {
    c == 0 || (f != [] && f[0].S? && Nested(f[0].kids, c - 1))
  }

  function Firsts(f: Forest, c: nat): (r: seq<nat>)
    requires Nested(f, c)
    ensures |r| == c
    decreases c
  {
    if c == 0 then [] else [f[0].i] + Firsts(f[0].kids, c - 1)
  }

  lemma {:induction false} MeetNested(a: Forest, b: Forest)
    ensures Nested(b, Meet(a, b))
    decreases a
  {
    if Meet(a, b) > 0 { MeetNested(a[|a| - 1].kids, b[0].kids); }
  }

  lemma {:induction false} PeelNested(f: Forest, c: nat)
    requires Nested(f, c)
    ensures Leaves(Flat(Peel(f, c))) == Leaves(f)
    ensures Ids(f) == Firsts(f, c) + Ids(Flat(Peel(f, c)))
    decreases c
  {
    if c == 0 {
      FlatOne(f);
      assert Firsts(f, 0) + Ids(f) == Ids(f);
    } else {
      var kids, rest := f[0].kids, f[1..];
      PeelNested(kids, c - 1);
      var inner := Flat(Peel(kids, c - 1));
      PeelStep(f, c);
      Concat(inner, rest);
      assert Leaves(f) == Leaves(kids) + Leaves(rest) && Ids(f) == [f[0].i] + Ids(kids) + Ids(rest);
      hide *;
      Regroup([f[0].i], Firsts(kids, c - 1), Ids(inner), Ids(rest));
    }
  }

  lemma PeelStep(f: Forest, c: nat)
    requires c > 0 && Nested(f, c)
    ensures Flat(Peel(f, c)) == Flat(Peel(f[0].kids, c - 1)) + f[1..]
    ensures Firsts(f, c) == [f[0].i] + Firsts(f[0].kids, c - 1)
  {
    assert Peel(f, c)[1..] == Peel(f[0].kids, c - 1);
  }

  lemma Regroup<T>(a: seq<T>, b: seq<T>, c: seq<T>, d: seq<T>)
    ensures a + (b + c) + d == (a + b) + (c + d)
  {}

  lemma {:induction false} PeelLoc(ids: seq<nat>, at: Places, k: nat, f: Forest, c: nat, d: nat)
    requires Nested(f, c) && d <= c
    ensures Peel(LocForest(ids, at, k, f), c)[d] == LocForest(ids, at, k, Peel(f, c)[d])
    decreases c
  {
    if c > 0 {
      var loc := LocForest(ids, at, k, f);
      assert loc[1..] == LocForest(ids, at, k, f[1..]);
      assert loc[0].S? && loc[0].kids == LocForest(ids, at, k, f[0].kids);
      if d > 0 { PeelLoc(ids, at, k, f[0].kids, c - 1, d - 1); }
    }
  }

  /** The leaves land where they were in the whole. */
  ghost predicate LeavesLand(sh: Shift, at: Places, k: nat, ls: seq<Elem>) {
    forall n :: 0 <= n < |ls| ==>
      ls[n].Leaf? && ls[n].n == CountOf(Row(at, ls[n].m), k, ls[n].n) + Base(sh.ptr, ls[n].m)
  }

  ghost predicate IdsLand(sh: Shift, ids: seq<nat>, some: seq<nat>) {
    forall n :: 0 <= n < |some| ==> some[n] == RenSec(sh, Find(ids, some[n]) + 1)
  }

  /** Numbered within the part and renumbered by the merge, it is what it was. */
  lemma {:induction false} RenLoc(sh: Shift, ids: seq<nat>, at: Places, k: nat, f: Forest)
    requires LeavesLand(sh, at, k, Leaves(f)) && IdsLand(sh, ids, Ids(f))
    ensures RenForest(sh, LocForest(ids, at, k, f)) == f
    decreases f
  {
    if f != [] {
      LandBelow(sh, ids, at, k, f);
      RenLoc(sh, ids, at, k, f[1..]);
      if f[0].S? { RenLoc(sh, ids, at, k, f[0].kids); }
      assert LocForest(ids, at, k, f)[1..] == LocForest(ids, at, k, f[1..]);
      assert RenItem(sh, LocItem(ids, at, k, f[0])) == f[0];
    }
  }

  lemma LandBelow(sh: Shift, ids: seq<nat>, at: Places, k: nat, f: Forest)
    requires f != [] && LeavesLand(sh, at, k, Leaves(f)) && IdsLand(sh, ids, Ids(f))
    ensures LeavesLand(sh, at, k, Leaves(f[1..])) && IdsLand(sh, ids, Ids(f[1..]))
    ensures f[0].L? ==> f[0].n == CountOf(Row(at, f[0].m), k, f[0].n) + Base(sh.ptr, f[0].m)
    ensures f[0].S? ==> LeavesLand(sh, at, k, Leaves(f[0].kids)) && IdsLand(sh, ids, Ids(f[0].kids))
    ensures f[0].S? ==> f[0].i == RenSec(sh, Find(ids, f[0].i) + 1)
  {
    hide Leaves, Ids;
    IdsOf(f);
    LeafAt(f);
    JoinAt(ItemIds(f[0]), Ids(f[1..]));
    if f[0].L? {
      assert ItemLeaves(f[0])[0] == Leaf(f[0].m, f[0].n);
    } else {
      JoinAt([f[0].i], Ids(f[0].kids));
      assert ItemIds(f[0])[0] == f[0].i;
    }
  }

  lemma IdsOf(f: Forest)
    requires f != []
    ensures Ids(f) == ItemIds(f[0]) + Ids(f[1..])
  {}

  lemma FlatHead(adds: seq<Forest>)
    requires adds != []
    ensures Flat(adds) == Flat(adds[1..]) + adds[0]
  {}

  lemma {:induction false} FlatParts(adds: seq<Forest>, d: nat, sh: Shift, ids: seq<nat>, at: Places, k: nat)
    requires d < |adds| && LeavesLand(sh, at, k, Leaves(Flat(adds))) && IdsLand(sh, ids, Ids(Flat(adds)))
    ensures LeavesLand(sh, at, k, Leaves(adds[d])) && IdsLand(sh, ids, Ids(adds[d]))
    decreases |adds|
  {
    hide *;
    FlatHead(adds);
    Concat(Flat(adds[1..]), adds[0]);
    LandParts(Leaves(Flat(adds[1..])), Leaves(adds[0]), Ids(Flat(adds[1..])), Ids(adds[0]), sh, ids, at, k);
    if d > 0 { FlatParts(adds[1..], d - 1, sh, ids, at, k); }
  }

  lemma LandParts(
      a: seq<Elem>, b: seq<Elem>, c: seq<nat>, d: seq<nat>, sh: Shift, ids: seq<nat>, at: Places, k: nat)
    requires LeavesLand(sh, at, k, a + b) && IdsLand(sh, ids, c + d)
    ensures LeavesLand(sh, at, k, a) && LeavesLand(sh, at, k, b) && IdsLand(sh, ids, c) && IdsLand(sh, ids, d)
  {
    JoinAt(a, b);
    JoinAt(c, d);
  }

  lemma {:induction false} ExtendPad(m: Forest, adds: seq<Forest>, n: nat)
    requires 0 < |adds| && |adds| + n <= |Path(m)| + 1
    ensures Extend(m, adds + Pad(n)) == Extend(m, adds)
    decreases |adds|
  {
    var all := adds + Pad(n);
    if |adds| == 1 {
      if n > 0 {
        assert all[1..] == Pad(n);
        ExtendedByNothing(m[|m| - 1].kids, Pad(n));
        assert m == m[..|m| - 1] + [S(m[|m| - 1].i, m[|m| - 1].kids)];
      } else {
        assert all == adds;
      }
    } else {
      assert all[1..] == adds[1..] + Pad(n);
      ExtendPad(m[|m| - 1].kids, adds[1..], n);
    }
  }

  lemma AddsPeel(f: Forest, s: Shape, m: Forest, e: Forest, depth: nat)
    requires FoldsMeeting(s, m, e, depth) && Meet(m, e) <= depth
    ensures Adds(f, s, depth) == Peel(f, Meet(m, e)) + Pad(depth - Meet(m, e))
  {
    var c := Meet(m, e);
    if s.Chain? && s.content {
      var r := Peel(f, c);
      assert r[..c] + Pad(0) + [r[c]] == r + Pad(0);
    }
  }

  /** What the merge makes of the part is what the cut took from the whole, back in its place. */
  lemma JoinedGlues(
      m: Forest, e: Forest, s: Shape, sh: Shift, ids: seq<nat>, at: Places, k: nat, depth: nat)
    requires depth == |Path(m)| && FoldsMeeting(s, m, e, depth)
    requires LeavesLand(sh, at, k, Leaves(Flat(Peel(e, Meet(m, e)))))
    requires IdsLand(sh, ids, Ids(Flat(Peel(e, Meet(m, e)))))
    ensures Joined(m, LocForest(ids, at, k, e), s, depth, sh) == Glue(m, e)
  {
    hide *;
    var c, loc := Meet(m, e), LocForest(ids, at, k, e);
    var pieces := Peel(e, c);
    AddsPeel(loc, s, m, e, depth);
    var adds, back := Peel(loc, c) + Pad(depth - c), pieces + Pad(depth - c);
    var ren := RenAdds(sh, adds);
    forall d | 0 <= d < |adds| ensures ren[d] == back[d] {
      LandsBack(m, e, sh, ids, at, k, depth, d);
    }
    assert ren == back;
    ExtendPad(m, pieces, depth - c);
    ShapeMeets(s, m, e, depth);
    JoinedIs(m, loc, s, depth, sh);
    GlueIs(m, e);
  }

  lemma ShapeMeets(s: Shape, m: Forest, e: Forest, depth: nat)
    requires FoldsMeeting(s, m, e, depth) && depth == |Path(m)|
    ensures !s.Run? && !s.Moved? && (s.Chain? ==> s.n <= depth)
  {}

  lemma LandsBack(m: Forest, e: Forest, sh: Shift, ids: seq<nat>, at: Places, k: nat, depth: nat, d: nat)
    requires d <= depth && Meet(m, e) <= depth
    requires LeavesLand(sh, at, k, Leaves(Flat(Peel(e, Meet(m, e)))))
    requires IdsLand(sh, ids, Ids(Flat(Peel(e, Meet(m, e)))))
    ensures var c := Meet(m, e);
            RenForest(sh, (Peel(LocForest(ids, at, k, e), c) + Pad(depth - c))[d]) == (Peel(e, c) + Pad(depth - c))[d]
  {
    hide *;
    var c, loc := Meet(m, e), LocForest(ids, at, k, e);
    PadAt(Peel(loc, c), depth - c, d);
    PadAt(Peel(e, c), depth - c, d);
    if d <= c {
      MeetNested(m, e);
      PeelLoc(ids, at, k, e, c, d);
      FlatParts(Peel(e, c), d, sh, ids, at, k);
      RenLoc(sh, ids, at, k, Peel(e, c)[d]);
    } else {
      RenEmpty(sh);
    }
  }

  lemma PadAt(a: seq<Forest>, n: nat, d: nat)
    requires d < |a| + n
    ensures (a + Pad(n))[d] == if d < |a| then a[d] else []
  {}

  lemma RenEmpty(sh: Shift)
    ensures RenForest(sh, []) == []
  {}

  lemma GlueIs(a: Forest, b: Forest)
    ensures Glue(a, b) == Extend(a, Peel(b, Meet(a, b)))
  {}
}

/**
 * What the plan makes of a part cut out of a tree (merge/continue.go:290-400): the untitled sections it
 * opens with are exactly those the cut runs through, and it continues them at their own depth.
 */
module Continues {
  import opened Lists
  import opened Sections
  import opened Forest
  import opened Lead
  import opened Fold
  import opened Incremental
  import opened LeftOpen
  import opened Cutting
  import opened CutPart

  predicate IsTitle(x: Item, heads: set<nat>) { x.L? && x.m == Paragraphs && x.n in heads }

  /** A section holds its own leaves before its sub-sections. */
  ghost predicate LeavesFirst(kids: Forest) {
    forall i, j :: 0 <= i < j < |kids| && kids[i].S? ==> kids[j].S?
  }

  /** A section opens with its heading and has no other. */
  ghost predicate TitledSection(kids: Forest, heads: set<nat>) {
    && kids != [] && IsTitle(kids[0], heads)
    && (forall j :: 1 <= j < |kids| ==> !IsTitle(kids[j], heads))
    && LeavesFirst(kids)
  }

  ghost predicate Titled(g: Forest, heads: set<nat>) {
    forall i, kids :: HasNode(g, i, kids) ==> TitledSection(kids, heads)
  }

  lemma TitledBelow(g: Forest, heads: set<nat>)
    requires g != [] && Titled(g, heads)
    ensures Titled(g[1..], heads)
    ensures g[0].S? ==> TitledSection(g[0].kids, heads) && Titled(g[0].kids, heads)
  {
    forall i, kids | HasNode(g[1..], i, kids) ensures TitledSection(kids, heads) {
      assert HasNode(g, i, kids);
    }
    if g[0].S? {
      assert HasNode(g, g[0].i, g[0].kids);
      forall i, kids | HasNode(g[0].kids, i, kids) ensures TitledSection(kids, heads) {
        assert HasNode(g, i, kids);
      }
    }
  }

  /** Every item leaf is in some part. */
  ghost predicate Assigned(g: Forest, at: Places) {
    forall n :: 0 <= n < |Leaves(g)| ==> LeafPart(at, Leaves(g)[n]) >= 0
  }

  lemma AssignedBelow(g: Forest, at: Places)
    requires g != [] && Assigned(g, at)
    ensures Assigned(g[1..], at)
    ensures g[0].S? ==> Assigned(g[0].kids, at)
  {
    hide Leaves;
    LeafAt(g);
  }

  /** What is known of a forest and passes to its sections. */
  ghost predicate Ready(g: Forest, at: Places, heads: set<nat>) {
    InOrder(g, at) && Assigned(g, at) && Titled(g, heads) && Distinct(Ids(g))
  }

  lemma ReadyBelow(g: Forest, at: Places, heads: set<nat>)
    requires g != [] && Ready(g, at, heads)
    ensures Ready(g[1..], at, heads)
    ensures g[0].S? ==> Ready(g[0].kids, at, heads) && TitledSection(g[0].kids, heads)
  {
    OrderParts(g, at);
    AssignedBelow(g, at);
    TitledBelow(g, heads);
    DistinctSplit(g);
  }

  /** A section opening with a heading keeps it first. */
  lemma TitleLeaf(kids: Forest, at: Places, heads: set<nat>)
    requires TitledSection(kids, heads)
    ensures Leaves(kids) != [] && Leaves(kids)[0] == Leaf(kids[0].m, kids[0].n)
    ensures LeafPart(at, Leaves(kids)[0]) == PartOf(at, kids[0].m, kids[0].n)
  {
    assert ItemLeaves(kids[0]) == [Leaf(kids[0].m, kids[0].n)];
    assert Leaves(kids) == ItemLeaves(kids[0]) + Leaves(kids[1..]);
  }

  /**
   * The first section of what part k keeps: either the cut runs through it, and what is kept of it
   * from the parts before is what they end in, or it opens in part k with its heading.
   */
  lemma {:induction false} Front(g: Forest, at: Places, heads: set<nat>, k: nat) returns (kids: Forest)
    requires Ready(g, at, heads)
    requires Keep(g, at, k, k + 1) != [] && Keep(g, at, k, k + 1)[0].S?
    ensures Fronts(Keep(g, at, 0, k), Keep(g, at, k, k + 1)[0], at, heads, k, kids) && |Ids(kids)| < |Ids(g)|
    decreases |g|
  {
    assert g != [];
    hide *;
    KeepFirst(g, at, k, k + 1);
    ReadyBelow(g, at, heads);
    IdsShorter(g);
    if KeepItem(g[0], at, k, k + 1) == [] {
      kids := Front(g[1..], at, heads, k);
      FrontLater(g, at, heads, k, kids);
    } else {
      kids := FrontAt(g, at, heads, k);
    }
  }

  /** b is what part k holds of kids, and a is what the parts before hold of all up to there. */
  ghost predicate Fronts(a: Forest, b: Item, at: Places, heads: set<nat>, k: nat, kids: Forest) {
    && Ready(kids, at, heads) && TitledSection(kids, heads)
    && b.S? && b.kids == Keep(kids, at, k, k + 1) && b.kids != []
    && (if PartOf(at, kids[0].m, kids[0].n) < k then
          a != [] && a[|a| - 1] == S(b.i, Keep(kids, at, 0, k)) && Keep(kids, at, 0, k) != []
        else b.kids[0] == kids[0] && Meet(a, [b]) == 0)
  }

  lemma ReadyOrder(g: Forest, at: Places, heads: set<nat>)
    requires Ready(g, at, heads)
    ensures InOrder(g, at)
  {}

  lemma IdsShorter(g: Forest)
    requires g != []
    ensures |Ids(g[1..])| <= |Ids(g)|
    ensures g[0].S? ==> |Ids(g[0].kids)| < |Ids(g)|
  {}

  lemma FrontAt(g: Forest, at: Places, heads: set<nat>, k: nat) returns (kids: Forest)
    requires Ready(g, at, heads) && g != [] && KeepItem(g[0], at, k, k + 1) != []
    requires Keep(g, at, k, k + 1) != [] && Keep(g, at, k, k + 1)[0].S?
    ensures Fronts(Keep(g, at, 0, k), Keep(g, at, k, k + 1)[0], at, heads, k, kids)
    ensures g[0].S? && kids == g[0].kids
  {
    hide Leaves, Keep, Ready, TitledSection, InOrder;
    ReadyBelow(g, at, heads);
    ReadyOrder(g, at, heads);
    KeepFirst(g, at, 0, k);
    KeepFirst(g, at, k, k + 1);
    kids := g[0].kids;
    KeptNone(kids, at, k, k + 1);
    assert !Without(ItemLeaves(g[0]), at, k, k + 1);
    AllAfter(g, at, 0, k, k + 1);
    KeptNone(g[1..], at, 0, k);
    FrontHere(kids, at, heads, k);
  }

  /** Where the section's heading is in no earlier part, it is in part k and nothing is before. */
  lemma FrontHere(kids: Forest, at: Places, heads: set<nat>, k: nat)
    requires Ready(kids, at, heads) && TitledSection(kids, heads) && Keep(kids, at, k, k + 1) != []
    ensures PartOf(at, kids[0].m, kids[0].n) < k ==> Keep(kids, at, 0, k) != []
    ensures PartOf(at, kids[0].m, kids[0].n) >= k ==>
              PartOf(at, kids[0].m, kids[0].n) == k && Keep(kids, at, 0, k) == []
                  && Keep(kids, at, k, k + 1)[0] == kids[0]
  {
    TitleLeaf(kids, at, heads);
    var ls := Leaves(kids);
    KeptNone(kids, at, k, k + 1);
    KeptNone(kids, at, 0, k);
    var n :| 0 <= n < |ls| && k <= LeafPart(at, ls[n]) < k + 1;
    if PartOf(at, kids[0].m, kids[0].n) < k {
      assert 0 <= LeafPart(at, ls[0]) < k;
    } else {
      assert LeafPart(at, ls[0]) <= LeafPart(at, ls[n]);
      KeepFirst(kids, at, k, k + 1);
    }
  }

  lemma FrontLater(g: Forest, at: Places, heads: set<nat>, k: nat, kids: Forest)
    requires g != [] && Ready(g, at, heads) && KeepItem(g[0], at, k, k + 1) == []
    requires Keep(g[1..], at, k, k + 1) != []
    requires Fronts(Keep(g[1..], at, 0, k), Keep(g[1..], at, k, k + 1)[0], at, heads, k, kids)
    ensures Keep(g, at, k, k + 1) == Keep(g[1..], at, k, k + 1)
    ensures Fronts(Keep(g, at, 0, k), Keep(g[1..], at, k, k + 1)[0], at, heads, k, kids)
  {
    KeepFirst(g, at, 0, k);
    KeepFirst(g, at, k, k + 1);
    var a, rest, all := Keep(g, at, 0, k), Keep(g[1..], at, 0, k), Keep(g[1..], at, k, k + 1);
    MeetNothing(g, at, 0, k, k + 1);
    hide Keep, KeepItem;
    assert rest != [] ==> a != [] && a[|a| - 1] == rest[|rest| - 1];
    assert rest == [] ==> Meet(a, [all[0]]) == Meet(a, all);
  }

  /** Where part k's first item is a leaf, no section of the parts before reaches up to it. */
  lemma {:induction false} FrontLeaf(g: Forest, at: Places, k: nat) returns (n: nat)
    requires LeavesFirst(g) && InOrder(g, at)
    requires Keep(g, at, k, k + 1) != [] && Keep(g, at, k, k + 1)[0].L?
    ensures n < |g| && g[n] == Keep(g, at, k, k + 1)[0] && PartOf(at, g[n].m, g[n].n) == k
    ensures Path(Keep(g, at, 0, k)) == []
    decreases |g|
  {
    assert g != [];
    hide *;
    KeepFirst(g, at, k, k + 1);
    if KeepItem(g[0], at, k, k + 1) != [] {
      n := 0;
      LeafHere(g, at, k);
    } else {
      LeafLater(g, at);
      var j := FrontLeaf(g[1..], at, k);
      n := j + 1;
      LeafBefore(g, at, k, j);
    }
  }

  lemma LeafLater(g: Forest, at: Places)
    requires g != [] && LeavesFirst(g) && InOrder(g, at)
    ensures LeavesFirst(g[1..]) && InOrder(g[1..], at)
  {
    OrderParts(g, at);
  }

  lemma LeafHere(g: Forest, at: Places, k: nat)
    requires g != [] && InOrder(g, at) && KeepItem(g[0], at, k, k + 1) != [] && Keep(g, at, k, k + 1) != []
    requires Keep(g, at, k, k + 1)[0].L?
    ensures g[0] == Keep(g, at, k, k + 1)[0] && PartOf(at, g[0].m, g[0].n) == k
    ensures Path(Keep(g, at, 0, k)) == []
  {
    hide Leaves;
    KeepFirst(g, at, 0, k);
    KeepFirst(g, at, k, k + 1);
    assert ItemLeaves(g[0]) == [Leaf(g[0].m, g[0].n)];
    assert k <= LeafPart(at, ItemLeaves(g[0])[0]) < k + 1;
    AllAfter(g, at, 0, k, k + 1);
    KeptNone(g[1..], at, 0, k);
  }

  lemma LeafBefore(g: Forest, at: Places, k: nat, j: nat)
    requires g != [] && LeavesFirst(g) && j < |g[1..]| && g[1..][j].L? && Path(Keep(g[1..], at, 0, k)) == []
    ensures Path(Keep(g, at, 0, k)) == []
  {
    KeepFirst(g, at, 0, k);
    var a, rest := Keep(g, at, 0, k), Keep(g[1..], at, 0, k);
    assert g[j + 1].L? && g[0].L?;
    hide Keep;
    assert rest != [] ==> a[|a| - 1] == rest[|rest| - 1];
  }

  /** What part k of the cut knows of its own sections, beside their elements. */
  ghost predicate CutSections(p: Part, ids: seq<nat>, at: Places, k: nat, heads: set<nat>) {
    && Distinct(ids) && |p.sections| == |ids| + 1
    && (forall l :: 0 <= l < |p.sections| ==> Extensible(p.sections[l]) && Within(Spans(p.sections[l]), p.length))
    && (forall n :: PartOf(at, Paragraphs, n) == k ==> (CountOf(at.paragraphs, k, n) in p.heads <==> n in heads))
  }

  /** Section l of the part holds g, whose sections are numbered from l + 1 on. */
  ghost predicate HoldsAt(p: Part, ids: seq<nat>, at: Places, k: nat, l: nat, g: Forest) {
    && l < |p.sections| && Elems(p.sections[l]) == Top(LocForest(ids, at, k, g))
    && Reps(p.sections, LocForest(ids, at, k, g))
    && l + |Ids(g)| <= |ids| && ids[l..l + |Ids(g)|] == Ids(g)
  }

  /** What the section's first sub-section holds, one level down. */
  lemma HoldsFirst(p: Part, ids: seq<nat>, at: Places, k: nat, l: nat, g: Forest)
    requires Distinct(ids) && HoldsAt(p, ids, at, k, l, g) && g != [] && g[0].S?
    ensures Elems(p.sections[l]) != [] && Elems(p.sections[l])[0] == Sec(l + 1)
    ensures HoldsAt(p, ids, at, k, l + 1, g[0].kids)
  {
    var i, kids := g[0].i, g[0].kids;
    FirstId(g);
    var held := Ids(g);
    assert ids[l] == ids[l..l + |held|][0] == held[0] == i;
    FoundAt(ids, l);
    var loc := LocForest(ids, at, k, g);
    assert LocItem(ids, at, k, g[0]) == S(Find(ids, i) + 1, LocForest(ids, at, k, kids));
    assert loc[0] == S(l + 1, LocForest(ids, at, k, kids));
    assert ItemReps(p.sections, loc[0]);
    Associate([i], Ids(kids), Ids(g[1..]));
    assert Ids(g) == [i] + (Ids(kids) + Ids(g[1..]));
    SliceInner(ids, l, [i], Ids(kids), Ids(g[1..]));
  }

  lemma SliceInner(s: seq<nat>, l: nat, a: seq<nat>, b: seq<nat>, c: seq<nat>)
    requires l + |a + (b + c)| <= |s| && s[l..l + |a + (b + c)|] == a + (b + c) && |a| == 1
    ensures l + 1 + |b| <= |s| && s[l + 1..l + 1 + |b|] == b
  {
    var all := a + (b + c);
    forall n | 0 <= n < |b| ensures s[l + 1 + n] == b[n] {
      assert s[l..l + |all|][1 + n] == all[1 + n];
    }
  }

  lemma HeadingLeaf(p: Part, ids: seq<nat>, at: Places, k: nat, heads: set<nat>, g: Forest)
    requires CutSections(p, ids, at, k, heads) && g != [] && g[0].L? && PartOf(at, g[0].m, g[0].n) == k
    ensures IsHeading(p, Top(LocForest(ids, at, k, g))[0]) <==> IsTitle(g[0], heads)
  {
    assert LocForest(ids, at, k, g)[0] == L(g[0].m, CountOf(Row(at, g[0].m), k, g[0].n));
  }

  /** The chain the plan finds from a section the cut runs through. */
  lemma {:induction false} ChainIs(
      p: Part, ids: seq<nat>, at: Places, k: nat, heads: set<nat>, l: nat, kids: Forest, depth: nat)
    returns (content: bool)
    requires CutSections(p, ids, at, k, heads) && l >= 1
    requires Ready(kids, at, heads) && TitledSection(kids, heads) && PartOf(at, kids[0].m, kids[0].n) < k
    requires Keep(kids, at, k, k + 1) != [] && HoldsAt(p, ids, at, k, l, Keep(kids, at, k, k + 1))
    requires depth == l + |Path(Keep(kids, at, 0, k))|
    ensures var n := l + Meet(Keep(kids, at, 0, k), Keep(kids, at, k, k + 1));
            ChainFrom(p, l, depth) == Ok(Chain(n, content)) && (content ==> depth == n)
    decreases |Ids(kids)|
  {
    hide *;
    var a, b := Keep(kids, at, 0, k), Keep(kids, at, k, k + 1);
    SectionSound(p, ids, at, k, heads, l, b);
    if b[0].L? {
      content := true;
      ChainLeaf(p, ids, at, k, heads, l, kids, depth);
    } else {
      HoldsFirst(p, ids, at, k, l, b);
      SectionSound(p, ids, at, k, heads, l + 1, b[0].kids);
      var inner := Front(kids, at, heads, k);
      FrontSays(a, b[0], at, heads, k, inner);
      if PartOf(at, inner[0].m, inner[0].n) < k {
        MeetOn(a, b);
        content := ChainIs(p, ids, at, k, heads, l + 1, inner, depth);
        ChainOn(p, l, depth);
      } else {
        content := false;
        MeetFirst(a, b);
        TitleIn(at, heads, k, inner, b[0].kids);
        HeadingLeaf(p, ids, at, k, heads, b[0].kids);
        ChainEnds(p, l, depth);
      }
    }
  }

  lemma SectionSound(p: Part, ids: seq<nat>, at: Places, k: nat, heads: set<nat>, l: nat, g: Forest)
    requires CutSections(p, ids, at, k, heads) && HoldsAt(p, ids, at, k, l, g)
    ensures Distinct(ids) && l < |p.sections| && Extensible(p.sections[l]) && Within(Spans(p.sections[l]), p.length)
    ensures g != [] ==> Elems(p.sections[l]) != [] && Elems(p.sections[l])[0] == Top(LocForest(ids, at, k, g))[0]
  {}

  lemma FrontSays(a: Forest, b: Item, at: Places, heads: set<nat>, k: nat, kids: Forest)
    requires Fronts(a, b, at, heads, k, kids)
    ensures Ready(kids, at, heads) && TitledSection(kids, heads)
    ensures b.S? && b.kids == Keep(kids, at, k, k + 1) && b.kids != [] && kids != [] && kids[0].L?
    ensures PartOf(at, kids[0].m, kids[0].n) < k ==>
              a != [] && a[|a| - 1] == S(b.i, Keep(kids, at, 0, k)) && Keep(kids, at, 0, k) != []
    ensures PartOf(at, kids[0].m, kids[0].n) >= k ==> b.kids[0] == kids[0] && Meet(a, [b]) == 0
  {}

  lemma MeetOn(a: Forest, b: Forest)
    requires a != [] && b != [] && a[|a| - 1].S? && b[0].S? && a[|a| - 1].i == b[0].i
    ensures Meet(a, b) == 1 + Meet(a[|a| - 1].kids, b[0].kids)
    ensures |Path(a)| == 1 + |Path(a[|a| - 1].kids)|
  {}

  lemma MeetFirst(a: Forest, b: Forest)
    requires b != [] && Meet(a, [b[0]]) == 0
    ensures Meet(a, b) == 0
  {}

  /** The chain ends at a section that opens with content. */
  lemma ChainLeaf(
      p: Part, ids: seq<nat>, at: Places, k: nat, heads: set<nat>, l: nat, kids: Forest, depth: nat)
    requires CutSections(p, ids, at, k, heads) && l >= 1
    requires Ready(kids, at, heads) && TitledSection(kids, heads) && PartOf(at, kids[0].m, kids[0].n) < k
    requires Keep(kids, at, k, k + 1) != [] && HoldsAt(p, ids, at, k, l, Keep(kids, at, k, k + 1))
    requires depth == l + |Path(Keep(kids, at, 0, k))| && Keep(kids, at, k, k + 1)[0].L?
    ensures Meet(Keep(kids, at, 0, k), Keep(kids, at, k, k + 1)) == 0 && depth == l
    ensures ChainFrom(p, l, depth) == Ok(Chain(l, true))
  {
    hide HoldsAt, CutSections, Ready, Keep, LocForest;
    var b := Keep(kids, at, k, k + 1);
    var n := FrontLeafIn(kids, at, heads, k);
    SectionSound(p, ids, at, k, heads, l, b);
    HeadingLeaf(p, ids, at, k, heads, b);
    LeafTop(ids, at, k, b);
    assert n > 0 && !IsTitle(kids[n], heads);
  }

  lemma LeafTop(ids: seq<nat>, at: Places, k: nat, g: Forest)
    requires g != [] && g[0].L?
    ensures Top(LocForest(ids, at, k, g))[0].Leaf?
  {
    assert LocForest(ids, at, k, g)[0].L?;
  }

  lemma FrontLeafIn(kids: Forest, at: Places, heads: set<nat>, k: nat) returns (n: nat)
    requires Ready(kids, at, heads) && TitledSection(kids, heads)
    requires Keep(kids, at, k, k + 1) != [] && Keep(kids, at, k, k + 1)[0].L?
    ensures n < |kids| && kids[n] == Keep(kids, at, k, k + 1)[0] && PartOf(at, kids[n].m, kids[n].n) == k
    ensures Path(Keep(kids, at, 0, k)) == []
  {
    n := FrontLeaf(kids, at, k);
  }

  lemma TitleIn(at: Places, heads: set<nat>, k: nat, kids: Forest, b: Forest)
    requires Ready(kids, at, heads) && TitledSection(kids, heads) && b == Keep(kids, at, k, k + 1) && b != []
    requires PartOf(at, kids[0].m, kids[0].n) >= k
    ensures b[0].L? && PartOf(at, b[0].m, b[0].n) == k && IsTitle(b[0], heads)
  {
    FrontHere(kids, at, heads, k);
  }

  /** A wrapper is a link of the chain. */
  lemma ChainOn(p: Part, l: nat, depth: nat)
    requires 1 <= l <= depth && l < |p.sections| && Extensible(p.sections[l]) && Within(Spans(p.sections[l]), p.length)
    requires Elems(p.sections[l]) != [] && Elems(p.sections[l])[0] == Sec(l + 1)
    ensures ChainFrom(p, l, depth) == ChainFrom(p, l + 1, depth)
  {}

  /** A wrapper around a section with a heading ends the chain. */
  lemma ChainEnds(p: Part, l: nat, depth: nat)
    requires 1 <= l <= depth && l + 1 < |p.sections|
    requires Extensible(p.sections[l]) && Within(Spans(p.sections[l]), p.length)
    requires Elems(p.sections[l]) != [] && Elems(p.sections[l])[0] == Sec(l + 1)
    requires Extensible(p.sections[l + 1]) && Elems(p.sections[l + 1]) != []
    requires IsHeading(p, Elems(p.sections[l + 1])[0])
    ensures ChainFrom(p, l, depth) == Ok(Chain(l, false))
  {}
}

/** The parts of a cut are merged, and into what was cut. */
module CutMerged {
  import opened Sections
  import opened Forest
  import opened Lead
  import opened LeftOpen
  import opened Document
  import opened Merger
  import opened Acceptance
  import opened Cutting
  import opened CutPart
  import opened RoundTrip

  lemma {:induction false} CountLess(row: seq<int>, k: nat, i: nat, n: nat)
    requires i < n <= |row| && row[i] == k
    ensures CountOf(row, k, i) < CountOf(row, k, n)
    decreases n
  {
    if i < n - 1 { CountLess(row, k, i, n - 1); }
  }

  /** The items a part's pointers name are items the part has. */
  lemma {:induction false} CutLeaves(ids: seq<nat>, at: Places, k: nat, es: seq<Elem>, n: nat)
    requires n < |CutElems(ids, at, k, es)| && CutElems(ids, at, k, es)[n].Leaf?
    ensures var e := CutElems(ids, at, k, es)[n]; e.n < CountOf(Row(at, e.m), k, |Row(at, e.m)|)
    decreases |es|
  {
    if InPart(ids, at, k, es[0]) {
      if n > 0 {
        CutLeaves(ids, at, k, es[1..], n - 1);
      } else {
        CountLess(Row(at, es[0].m), k, es[0].n, |Row(at, es[0].m)|);
      }
    } else {
      CutLeaves(ids, at, k, es[1..], n);
    }
  }

  lemma CutSound(w: seq<Section>, f: Forest, heads: set<nat>, at: Places, k: nat, p: Part)
    requires Tree(w, f) && IsCut(w, f, heads, at, k, p)
    ensures Sound(p)
  {
    assert w != [];
    hide Tree;
    var ids := HeldBy(f, at, k);
    forall i | 0 <= i < |p.sections| ensures HoldsItems(p, Elems(p.sections[i])) {
      var es := Elems(p.sections[i]);
      var from := 0;
      if i > 0 {
        assert IsCutSection(w, ids, at, k, p.sections, i - 1);
        from := ids[i - 1];
      }
      forall n | 0 <= n < |es| && es[n].Leaf? ensures es[n].n < Count(p, es[n].m) {
        CutLeaves(ids, at, k, Elems(w[from]), n);
      }
    }
  }

  /**
   * Cut anywhere between its pages, a whole result's sections are merged again without a refusal, and
   * come back as they were: as many, and each with the elements it had.
   */
  lemma CutMerges(w: seq<Section>, parts: seq<Part>, sep: nat, f: Forest, heads: set<nat>, at: Places)
    requires Cuttable(w, f, heads, at, |parts|) && CutInto(w, f, heads, at, parts)
    requires forall k :: 0 <= k < |parts| ==> RootCovers(parts[k])
    ensures Accepts(parts, sep)
    ensures PlanTo(parts, |parts|).Ok?
    ensures var t := TableTo(parts, PlanTo(parts, |parts|).value.shapes, sep, |parts|);
            |t| == |w| && forall i :: 0 <= i < |w| ==> Elems(t[i]) == Elems(w[i])
  {
    hide *;
    var forests := seq(|parts|, k requires 0 <= k < |parts| =>
      LocForest(HeldBy(f, at, k), at, k, Keep(f, at, k, k + 1)));
    forall k | 0 <= k < |parts| ensures Sound(parts[k]) && IsTree(parts[k], forests[k]) {
      CuttableIs(w, f, heads, at, parts, k);
      CutSound(w, f, heads, at, k, parts[k]);
      CutTree(w, f, heads, at, k, parts[k]);
      CutHolds(w, f, heads, at, k, parts[k]);
      TreeForms(parts[k], forests[k]);
    }
    AllForms(parts, forests);
    Agree(parts);
    TreesMerge(parts, sep, forests);
    PlanAccepted(parts, |parts|);
    AllPlanned(parts);
    MergeInvertsCut(w, parts, PlanTo(parts, |parts|).value.shapes, sep, f, heads, at);
  }

  lemma TreeForms(p: Part, f: Forest)
    requires Tree(p.sections, f)
    ensures IsTree(p, f)
  {}

  lemma AllForms(parts: seq<Part>, forests: seq<Forest>)
    requires |parts| == |forests| && forall k :: 0 <= k < |parts| ==> IsTree(parts[k], forests[k])
    ensures AllTrees(parts, forests)
  {}

  lemma Agree(parts: seq<Part>)
    requires forall k :: 0 <= k < |parts| ==> RootCovers(parts[k])
    ensures SectionsAgree(parts)
  {}
}

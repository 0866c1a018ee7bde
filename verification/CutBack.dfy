/** A whole result cut into its parts and merged again, by the programs that do so: it comes back. */
module CutBack {
  import opened Sections
  import opened Forest
  import opened Fold
  import opened Lead
  import opened Document
  import M = Merger
  import opened Cutting
  import opened CutPart
  import opened RoundTrip
  import opened CutMerged
  import C = Cutter
  import opened CutAll

  /** Each part's content is empty, or some of the root's spans reach into it. */
  predicate Reached(root: seq<Span>, a: seq<nat>, b: seq<nat>)
    requires |a| == |b| && forall k :: 0 <= k < |a| ==> a[k] <= b[k]
  {
    forall k :: 0 <= k < |a| ==> a[k] == b[k] || C.ClipSpans(root, a[k], b[k], |root|) != []
  }

  lemma Covers(p: Part, root: seq<Span>, a: nat, b: nat)
    requires a <= b && p.length == b - a && p.sections != [] && RootSpans(p) == C.ClipSpans(root, a, b, |root|)
    requires a == b || C.ClipSpans(root, a, b, |root|) != []
    ensures M.RootCovers(p)
  {
    C.ClippedWithin(root, a, b, |root|);
    hide C.ClipSpans;
  }

  lemma ReachedAt(root: seq<Span>, a: seq<nat>, b: seq<nat>, k: nat)
    requires |a| == |b| && (forall k :: 0 <= k < |a| ==> a[k] <= b[k]) && k < |a| && Reached(root, a, b)
    ensures a[k] == b[k] || C.ClipSpans(root, a[k], b[k], |root|) != []
  {
    hide C.ClipSpans;
  }

  lemma CuttableHolds(w: seq<Section>, f: Forest, heads: set<nat>, at: Places, n: nat)
    requires Cuttable(w, f, heads, at, n)
    ensures forall k :: 0 <= k < n ==> HoldsSome(f, at, k)
  {
    hide HoldsSome;
  }

  lemma HasSections(w: seq<Section>, f: Forest, heads: set<nat>, at: Places, k: nat, p: Part)
    requires Tree(w, f) && IsCut(w, f, heads, at, k, p)
    ensures p.sections != []
  {
    hide CutElems, HeldBy;
  }

  lemma SomeParts(parts: seq<Part>)
    requires parts != [] && forall k :: 0 <= k < |parts| ==> parts[k].sections != []
    ensures !M.NoSections(parts)
  {
    assert parts[0].sections != [];
  }

  /**
   * Cuts the whole, and merges the parts. When the cut is between pages, every part holding something, the merge
   * takes the parts and gives the whole's sections back, each with the elements it had.
   */
  method CutAndMerge(
      sections: seq<Section>, a: seq<nat>, b: seq<nat>, partOf: map<nat, nat>,
      paragraphs: seq<Entry>, tables: seq<Entry>, figures: seq<Entry>, pairs: seq<Entry>, sep: nat, ghost f: Forest)
    returns (r: Outcome<seq<Section>>)
    requires |a| == |b| > 0 && (forall k :: 0 <= k < |a| ==> a[k] <= b[k]) && sep > 0
    requires Tree(sections, f) && sections != [] && Ids(f) == Range(1, |sections| - 1)
    requires forall i :: 0 <= i < |sections| ==> Extensible(sections[i])
    ensures var at := PartsOf(paragraphs, tables, figures, pairs, partOf, a, b);
            Cuttable(sections, f, HeadsOf(paragraphs), at, |a|) && Reached(Spans(sections[0]), a, b) ==>
              && r.Ok? && |r.value| == |sections|
              && forall i :: 0 <= i < |sections| ==> Elems(r.value[i]) == Elems(sections[i])
  {
    hide *;
    var parts := CutDI(sections, a, b, partOf, paragraphs, tables, figures, pairs, f);
    var m := new M.Merger(parts, sep);
    r := m.MergeSections();
    ghost var heads, at := HeadsOf(paragraphs), PartsOf(paragraphs, tables, figures, pairs, partOf, a, b);
    if Cuttable(sections, f, heads, at, |a|) && Reached(Spans(sections[0]), a, b) {
      CuttableHolds(sections, f, heads, at, |a|);
      forall k | 0 <= k < |parts| ensures M.RootCovers(parts[k]) && parts[k].sections != [] {
        HasSections(sections, f, heads, at, k, parts[k]);
        ReachedAt(Spans(sections[0]), a, b, k);
        Covers(parts[k], Spans(sections[0]), a[k], b[k]);
      }
      SomeParts(parts);
      CutMerges(sections, parts, sep, f, heads, at);
    }
  }
}

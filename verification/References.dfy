/**
 * References keep their meaning: a renumbered pointer names the place its item is written to, and a shifted span
 * cuts the same text out of the merged content (internal/merge/check.go:356-374, merge.go:286-315, di.go:101-122).
 */
module References {
  import opened Sections
  import opened Lead
  import opened Renumber
  import opened Fold
  import opened Incremental
  import opened Document
  import opened Deferred
  import opened TextUnits

  // The content.

  /** The content of the first k parts, the separator between them. */
  function Merged(contents: seq<Text>, sep: Text, k: nat): Text
    requires k <= |contents|
    decreases k
  {
    if k == 0 then [] else if k == 1 then contents[0] else Merged(contents, sep, k - 1) + sep + contents[k - 1]
  }

  method WriteContent(contents: seq<Text>, sep: Text) returns (out: Text)
    ensures out == Merged(contents, sep, |contents|)
  {
    out := [];
    for k := 0 to |contents|
      invariant out == Merged(contents, sep, k)
    {
      if k > 0 {
        out := out + sep;
      } else {
        assert out + contents[k] == contents[k];
      }
      out := out + contents[k];
    }
  }

  /** The parts are measured as the merge measures them, and their contents are ones it will join. */
  ghost predicate Measured(u: Unit, cut: Clusters, parts: seq<Part>, contents: seq<Text>, sep: Text) {
    && |parts| == |contents|
    && (forall k :: 0 <= k < |parts| ==> parts[k].length == |Steps(u, cut, contents[k])|)
    && (u == TextElements ==>
          && Segments(cut) && Separates(sep)
          && forall k :: 0 <= k < |contents| - 1 ==> !EndsWith(contents[k], CR))
  }

  lemma MergedEnds(contents: seq<Text>, sep: Text, k: nat)
    requires 0 < k <= |contents| && Separates(sep) && !EndsWith(contents[k - 1], CR)
    ensures !EndsWith(Merged(contents, sep, k), CR)
  {
    if k > 1 {
      var before, last := Merged(contents, sep, k - 1) + sep, contents[k - 1];
      assert EndsWith(before, LF);
      if last == [] { assert before + last == before; }
    }
  }

  /** The merged content's steps, part by part. */
  lemma StepsMore(u: Unit, cut: Clusters, parts: seq<Part>, contents: seq<Text>, sep: Text, k: nat)
    requires Measured(u, cut, parts, contents, sep) && 1 < k <= |contents|
    ensures Steps(u, cut, Merged(contents, sep, k))
      == Steps(u, cut, Merged(contents, sep, k - 1)) + Steps(u, cut, sep) + Steps(u, cut, contents[k - 1])
  {
    if u == TextElements { MergedEnds(contents, sep, k - 1); }
    hide Steps, Segments;
    StepsJoin(u, cut, Merged(contents, sep, k - 1), sep, contents[k - 1]);
  }

  lemma Middle<T>(a: seq<T>, b: seq<T>, c: seq<T>)
    ensures (a + b + c)[|a| + |b|..] == c && (a + b + c)[..|a|] == a
  {}

  lemma SameSlice<T>(s: seq<T>, t: seq<T>, n: nat, i: nat, j: nat)
    requires n <= |s| && s[..n] == t && i <= j <= n
    ensures s[i..j] == t[i..j]
  {
    assert s[..n][i..j] == s[i..j];
  }

  /** Part k's text stands in the merged content where the part is shifted to. */
  lemma {:induction false} PartStands(
      u: Unit, cut: Clusters, parts: seq<Part>, contents: seq<Text>, sep: Text, k: nat, n: nat)
    requires Measured(u, cut, parts, contents, sep) && k < n <= |contents|
    ensures var all, sepLen := Steps(u, cut, Merged(contents, sep, n)), |Steps(u, cut, sep)|;
            var start := CharTo(parts, sepLen, k);
            && |all| == CharTo(parts, sepLen, n - 1) + parts[n - 1].length
            && start + parts[k].length <= |all|
            && all[start..start + parts[k].length] == Steps(u, cut, contents[k])
    decreases n
  {
    hide Steps, Segments;
    var all, sepLen := Steps(u, cut, Merged(contents, sep, n)), |Steps(u, cut, sep)|;
    if n == 1 {
      assert all[0..|all|] == all;
    } else {
      var before := Steps(u, cut, Merged(contents, sep, n - 1));
      StepsMore(u, cut, parts, contents, sep, n);
      PartStands(u, cut, parts, contents, sep, if k == n - 1 then k - 1 else k, n - 1);
      Middle(before, Steps(u, cut, sep), Steps(u, cut, contents[n - 1]));
      var start := CharTo(parts, sepLen, k);
      if k < n - 1 {
        SameSlice(all, before, |before|, start, start + parts[k].length);
      } else {
        assert all[start..start + parts[k].length] == all[start..];
      }
    }
  }

  /**
   * A span within a part's content, shifted, cuts out of the merged content what it cut out of the part's, in
   * each unit the service counts in.
   */
  lemma SpansKeepTheirText(
      u: Unit, cut: Clusters, parts: seq<Part>, shapes: seq<Shape>, contents: seq<Text>, sep: Text, k: nat, s: Span)
    requires Measured(u, cut, parts, contents, sep) && k < |parts| == |shapes| && End(s) <= parts[k].length
    ensures var all := Steps(u, cut, Merged(contents, sep, |contents|));
            var r := Shifted(ShiftOf(parts, shapes, |Steps(u, cut, sep)|, k), [s])[0];
            && End(r) <= |all|
            && all[r.offset..End(r)] == Steps(u, cut, contents[k])[s.offset..End(s)]
  {
    hide Steps, Segments;
    PartStands(u, cut, parts, contents, sep, k, |parts|);
    var all := Steps(u, cut, Merged(contents, sep, |contents|));
    var start := CharTo(parts, |Steps(u, cut, sep)|, k);
    Slices(all, start, start + parts[k].length, s.offset, End(s));
  }

  lemma Slices<T>(s: seq<T>, a: nat, b: nat, i: nat, j: nat)
    requires a <= b <= |s| && i <= j <= b - a
    ensures s[a..b][i..j] == s[a + i..a + j]
  {
    var x, y := s[a..b][i..j], s[a + i..a + j];
    assert |x| == |y|;
    forall k | 0 <= k < |x| ensures x[k] == y[k] {}
  }

  /** Without the check for a carriage return, text elements would be miscounted: CR LF is one (GB3). */
  lemma CarriageReturnJoins(cut: Clusters)
    requires cut([CR]) == [[CR]] && cut([LF]) == [[LF]] && cut([CR, LF]) == [[CR, LF]]
    ensures |Steps(TextElements, cut, Merged([[CR], []], [LF], 2))| == 1
    ensures |Steps(TextElements, cut, [CR])| + |Steps(TextElements, cut, [LF])| == 2
  {
    assert Merged([[CR], []], [LF], 2) == [CR, LF];
  }

  // The arrays.

  /** The items of the first k parts, one after another. */
  function AllItems<T>(items: seq<seq<T>>, k: nat): seq<T>
    requires k <= |items|
    decreases k
  {
    if k == 0 then [] else AllItems(items, k - 1) + items[k - 1]
  }

  /** An array of the result: every part's items, in the parts' order. */
  method WriteArray<T>(items: seq<seq<T>>) returns (out: seq<T>, total: nat)
    ensures out == AllItems(items, |items|) && total == |out|
  {
    out, total := [], 0;
    for k := 0 to |items|
      invariant out == AllItems(items, k) && total == |out|
    {
      if |items[k]| == 0 {
        assert out + items[k] == out;
        continue;
      }
      out := out + items[k];
      total := total + |items[k]|;
    }
  }

  lemma {:induction false} ItemAt<T>(parts: seq<Part>, m: Member, items: seq<seq<T>>, k: nat, j: nat, n: nat)
    requires |items| == |parts| && k < j <= |parts| && forall i :: 0 <= i < |parts| ==> |items[i]| == Count(parts[i], m)
    requires n < |items[k]|
    ensures |AllItems(items, j)| == Base(BasesTo(parts, j), m)
    ensures Base(BasesTo(parts, k), m) + n < |AllItems(items, j)|
    ensures AllItems(items, j)[Base(BasesTo(parts, k), m) + n] == items[k][n]
    decreases j
  {
    hide *;
    ItemCount(parts, m, items, j);
    ItemCount(parts, m, items, j - 1);
    ItemsMore(items, j);
    if k < j - 1 {
      ItemAt(parts, m, items, k, j - 1, n);
      InFront(AllItems(items, j - 1), items[j - 1], Base(BasesTo(parts, k), m) + n);
    } else {
      InBack(AllItems(items, j - 1), items[j - 1], n);
    }
  }

  lemma ItemsMore<T>(items: seq<seq<T>>, j: nat)
    requires 0 < j <= |items|
    ensures AllItems(items, j) == AllItems(items, j - 1) + items[j - 1]
  {}

  lemma InFront<T>(a: seq<T>, b: seq<T>, i: nat)
    requires i < |a|
    ensures (a + b)[i] == a[i]
  {}

  lemma InBack<T>(a: seq<T>, b: seq<T>, i: nat)
    requires i < |b|
    ensures |a| + i < |a + b| && (a + b)[|a| + i] == b[i]
  {}

  lemma {:induction false} ItemCount<T>(parts: seq<Part>, m: Member, items: seq<seq<T>>, j: nat)
    requires |items| == |parts| && j <= |parts| && forall i :: 0 <= i < |parts| ==> |items[i]| == Count(parts[i], m)
    ensures |AllItems(items, j)| == Base(BasesTo(parts, j), m)
    decreases j
  {
    if j > 0 { ItemCount(parts, m, items, j - 1); }
  }

  /** The index the visitor writes for a pointer to an item is where that item is written. */
  lemma PointersKeepTheirItems<T>(
      parts: seq<Part>, shapes: seq<Shape>, sep: nat, m: Member, items: seq<seq<T>>, k: nat, n: nat)
    requires |items| == |parts| == |shapes| && k < |parts|
    requires forall i :: 0 <= i < |parts| ==> |items[i]| == Count(parts[i], m)
    requires Renumbers(parts[k], ShiftOf(parts, shapes, sep, k), Leaf(m, n))
    ensures var e := RenElem(ShiftOf(parts, shapes, sep, k), Leaf(m, n));
            e.m == m && e.n < |AllItems(items, |items|)| && AllItems(items, |items|)[e.n] == items[k][n]
  {
    ItemAt(parts, m, items, k, |parts|, n);
  }

  /** And the index written for a pointer to a section is where that section is written, the root's the root. */
  lemma SectionsKeepTheirPlace(parts: seq<Part>, shapes: seq<Shape>, sep: nat, k: nat, i: nat)
    requires |parts| == |shapes| && PlanTo(parts, |parts|).Ok? && Planned(parts, shapes, |parts|) && sep > 0
    requires k < |parts| && Renumbers(parts[k], ShiftOf(parts, shapes, sep, k), Sec(i))
    ensures var shs, folds := Shifts(parts, shapes, sep), FoldsTo(parts, shapes, |parts|);
            && AllApt(shs, folds)
            && var out, e := Output(parts, shapes, shs, folds), RenElem(ShiftOf(parts, shapes, sep, k), Sec(i));
               && e.i < |out|
               && (i == 0 ==> out[e.i] == Root(parts, shapes, shs, |parts|))
               && (i > 0 ==> out[e.i] == Written(shs, parts[k].sections[i], k, Collected(folds, At(k, i))))
  {
    hide *;
    var shs, folds := Shifts(parts, shapes, sep), FoldsTo(parts, shapes, |parts|);
    var t := TableTo(parts, shapes, sep, |parts|);
    SecIs(parts, shapes, sep, k, i);
    WritingIsGrowing(parts, shapes, sep);
    EverySettled(parts, shapes, sep);
    RootSettled(parts, shapes, sep, |parts|);
    ShiftsSpaced(parts, shapes, sep);
    if i > 0 {
      KeptPlace(parts, shapes, shs, t, folds, sep, k, i);
    }
  }

  lemma SecIs(parts: seq<Part>, shapes: seq<Shape>, sep: nat, k: nat, i: nat)
    requires k < |parts| == |shapes| && Renumbers(parts[k], ShiftOf(parts, shapes, sep, k), Sec(i))
    ensures parts[k].sections != [] && (i > 0 ==> SecDrop(shapes[k]) < i < |parts[k].sections|)
    ensures RenElem(ShiftOf(parts, shapes, sep, k), Sec(i))
      == Sec(if i == 0 then 0 else SecsTo(parts, shapes, k) + (i - 1 - SecDrop(shapes[k])))
  {}

  lemma KeptPlace(
      parts: seq<Part>, shapes: seq<Shape>, shs: seq<Shift>, t: seq<Section>, folds: Folds, sep: nat, k: nat, i: nat)
    requires k < |parts| == |shapes| == |shs| && AllApt(shs, folds) && Spaced(shs)
    requires AllSettled(parts, shapes, shs, t, folds) && SecDrop(shapes[k]) < i < |parts[k].sections|
    ensures var x := SecsTo(parts, shapes, k) + (i - 1 - SecDrop(shapes[k]));
            x < |t| && t[x] == Written(shs, parts[k].sections[i], k, Collected(folds, At(k, i)))
  {
    hide Written, AllSettled, Spaced, AllApt;
    KeptAt(parts, shapes, shs, t, folds, k, i - 1 - SecDrop(shapes[k]));
  }
}

/**
 * A whole result cut into all its parts (internal/realcut/cut.go:79-130, 391-466): each part's sections, items and
 * headings are those of its pages, numbered within the part.
 */
module CutAll {
  import opened Sections
  import opened Forest
  import opened Fold
  import opened Cutting
  import opened CutPart
  import opened RoundTrip
  import opened Acceptance
  import opened Cutter

  /** An item of the whole: where it is, its spans, and, of a paragraph, whether it is a heading. */
  datatype Entry = Entry(place: Place, spans: seq<Span>, heading: bool)

  function PlacesOf(items: seq<Entry>): (r: seq<Place>)
    ensures |r| == |items| && forall i :: 0 <= i < |r| ==> r[i] == items[i].place
  {
    seq(|items|, i requires 0 <= i < |items| => items[i].place)
  }

  function HeadsOf(items: seq<Entry>): set<nat> { set n: nat | n < |items| && items[n].heading }

  /** A span counted from where the part's content starts. */
  function LocalSpan(s: Span, a: nat): Span { Span(if s.offset >= a then s.offset - a else 0, s.length) }

  function LocalSpans(spans: seq<Span>, a: nat): seq<Span> {
    seq(|spans|, i requires 0 <= i < |spans| => LocalSpan(spans[i], a))
  }

  /** The spans of those of the first n items that are in part k. */
  function Chosen(row: seq<int>, items: seq<Entry>, k: nat, a: nat, n: nat): (r: seq<seq<Span>>)
    requires n <= |items| == |row|
    ensures |r| == CountOf(row, k, n)
    decreases n
  {
    if n == 0 then []
    else Chosen(row, items, k, a, n - 1) + if row[n - 1] == k then [LocalSpans(items[n - 1].spans, a)] else []
  }

  /** A part's items of one member, in the whole's order. */
  method ChooseItems(row: seq<int>, items: seq<Entry>, k: nat, a: nat) returns (r: seq<seq<Span>>)
    requires |row| == |items|
    ensures r == Chosen(row, items, k, a, |items|)
  {
    r := [];
    for j := 0 to |items|
      invariant r == Chosen(row, items, k, a, j)
    {
      if row[j] == k { r := r + [LocalSpans(items[j].spans, a)]; }
    }
  }

  /** Of the first j paragraphs, those of part k that are headings have these numbers in the part, and no others. */
  ghost predicate HeadsTo(row: seq<int>, items: seq<Entry>, k: nat, heads: set<nat>, j: nat)
    requires j <= |row| == |items|
  {
    && (forall x :: x in heads ==> x < CountOf(row, k, j))
    && (forall n: nat :: n < j && row[n] == k ==> (CountOf(row, k, n) in heads <==> items[n].heading))
  }

  lemma NoHeads(row: seq<int>, items: seq<Entry>, k: nat)
    requires |row| == |items|
    ensures HeadsTo(row, items, k, {}, 0)
  {}

  lemma CountNext(row: seq<int>, k: nat, j: nat)
    requires j < |row|
    ensures CountOf(row, k, j + 1) == CountOf(row, k, j) + if row[j] == k then 1 else 0
  {}

  /** A paragraph of another part, or one of the part. */
  lemma HeadsNext(row: seq<int>, items: seq<Entry>, k: nat, heads: set<nat>, j: nat)
    requires j < |row| == |items| && HeadsTo(row, items, k, heads, j)
    ensures row[j] != k ==> HeadsTo(row, items, k, heads, j + 1)
    ensures row[j] == k && !items[j].heading ==> HeadsTo(row, items, k, heads, j + 1)
    ensures row[j] == k && items[j].heading ==> HeadsTo(row, items, k, heads + {CountOf(row, k, j)}, j + 1)
  {
    CountNext(row, k, j);
    forall n: nat | n < j && row[n] == k ensures CountOf(row, k, n) < CountOf(row, k, j) { CountRises(row, k, n, j); }
    hide CountOf;
  }

  lemma HeadsAll(row: seq<int>, items: seq<Entry>, k: nat, heads: set<nat>)
    requires |row| == |items| && HeadsTo(row, items, k, heads, |items|)
    ensures forall n: nat :: n < |items| && row[n] == k ==> (CountOf(row, k, n) in heads <==> items[n].heading)
  {
    hide CountOf;
  }

  lemma LocalAt(row: seq<int>, local: seq<int>, j: nat, k: nat)
    requires LocalRow(row, local) && j < |row| && row[j] == k
    ensures j < |local| && local[j] == CountOf(row, k, j)
  {
    hide CountOf;
  }

  /** Which of a part's paragraphs are headings, by their numbers in the part. */
  method LocalHeads(row: seq<int>, local: seq<int>, items: seq<Entry>, k: nat) returns (heads: set<nat>)
    requires |row| == |items| && LocalRow(row, local)
    ensures forall n: nat :: n < |items| && row[n] == k ==> (CountOf(row, k, n) in heads <==> items[n].heading)
  {
    hide *;
    NoHeads(row, items, k);
    heads := {};
    for j := 0 to |items|
      invariant HeadsTo(row, items, k, heads, j)
    {
      HeadsNext(row, items, k, heads, j);
      if row[j] == k {
        LocalAt(row, local, j, k);
        if items[j].heading { heads := heads + {local[j]}; }
      }
    }
    HeadsAll(row, items, k, heads);
  }

  lemma {:induction false} CountRises(row: seq<int>, k: nat, i: nat, n: nat)
    requires i < n <= |row| && row[i] == k
    ensures CountOf(row, k, i) < CountOf(row, k, n)
    decreases n
  {
    if i < n - 1 { CountRises(row, k, i, n - 1); }
  }

  function RowOf(items: seq<Entry>, partOf: map<nat, nat>, a: seq<nat>, b: seq<nat>): (r: seq<int>)
    requires |a| == |b|
    ensures |r| == |items| && forall i :: 0 <= i < |r| ==> r[i] == PartAt(items[i].place, partOf, a, b)
  {
    seq(|items|, i requires 0 <= i < |items| => PartAt(items[i].place, partOf, a, b))
  }

  /** The parts a whole's items are in. */
  function PartsOf(
      paragraphs: seq<Entry>, tables: seq<Entry>, figures: seq<Entry>, pairs: seq<Entry>,
      partOf: map<nat, nat>, a: seq<nat>, b: seq<nat>): (r: Places)
    requires |a| == |b|
    ensures |r.paragraphs| == |paragraphs| && |r.tables| == |tables|
    ensures |r.figures| == |figures| && |r.pairs| == |pairs|
  {
    Places(RowOf(paragraphs, partOf, a, b), RowOf(tables, partOf, a, b), RowOf(figures, partOf, a, b),
           RowOf(pairs, partOf, a, b))
  }

  /** One part's items, each member's, and its headings. */
  ghost predicate HoldsItemsOf(
      p: Part, at: Places, k: nat, a: nat, paragraphs: seq<Entry>, tables: seq<Entry>, figures: seq<Entry>,
      pairs: seq<Entry>)
  {
    && |at.paragraphs| == |paragraphs| && |at.tables| == |tables| && |at.figures| == |figures| && |at.pairs| == |pairs|
    && p.paragraphs == Chosen(at.paragraphs, paragraphs, k, a, |paragraphs|)
    && p.tables == Chosen(at.tables, tables, k, a, |tables|)
    && p.figures == Chosen(at.figures, figures, k, a, |figures|)
    && p.pairs == Chosen(at.pairs, pairs, k, a, |pairs|)
    && (forall n: nat :: n < |paragraphs| && at.paragraphs[n] == k ==>
          (CountOf(at.paragraphs, k, n) in p.heads <==> paragraphs[n].heading))
  }

  lemma CountsOf(
      p: Part, at: Places, k: nat, a: nat, paragraphs: seq<Entry>, tables: seq<Entry>, figures: seq<Entry>,
      pairs: seq<Entry>)
    requires HoldsItemsOf(p, at, k, a, paragraphs, tables, figures, pairs)
    ensures forall m: Member :: Count(p, m) == CountOf(Row(at, m), k, |Row(at, m)|)
    ensures forall n: nat :: PartOf(at, Paragraphs, n) == k ==>
              (CountOf(at.paragraphs, k, n) in p.heads <==> n in HeadsOf(paragraphs))
  {
    hide CountOf, Chosen;
    forall m: Member ensures Count(p, m) == CountOf(Row(at, m), k, |Row(at, m)|) {
      match m
      case Paragraphs =>
      case Tables =>
      case Figures =>
      case KeyValuePairs =>
    }
  }

  /** A part whose sections, items and headings are the whole's is one cut out of it. */
  lemma CutOut(
      w: seq<Section>, f: Forest, at: Places, k: nat, p: Part, a: nat, b: nat,
      paragraphs: seq<Entry>, tables: seq<Entry>, figures: seq<Entry>, pairs: seq<Entry>)
    requires Tree(w, f) && a <= b && p.length == b - a && HoldsItemsOf(p, at, k, a, paragraphs, tables, figures, pairs)
    requires CutTable(w, f, at, k, p.sections)
    requires forall l :: 0 <= l < |p.sections| ==> Extensible(p.sections[l]) && Within(Spans(p.sections[l]), b - a)
    ensures IsCut(w, f, HeadsOf(paragraphs), at, k, p)
  {
    hide CutTable, HoldsItemsOf, HeadsOf, Extensible, Within, Tree;
    CountsOf(p, at, k, a, paragraphs, tables, figures, pairs);
  }

  /** A section of the whole, cut down to the part, lies in the part's content. */
  lemma CutLies(c: Cutter, s: Section, i: nat, k: nat, f: Forest)
    requires i < |c.sections| && k < |c.a| == |c.b| && c.a[k] <= c.b[k] && Extensible(c.sections[i])
    requires c.IsCutOf(s, i, k, f)
    ensures Extensible(s) && Within(Spans(s), c.b[k] - c.a[k])
  {
    ClippedWithin(Spans(c.sections[i]), c.a[k], c.b[k], |Spans(c.sections[i])|);
    hide ClipSpans, CutElems;
  }

  lemma HeldInside(f: Forest, at: Places, k: nat, n: nat)
    requires Ids(f) == Range(1, n)
    ensures forall l :: 0 <= l < |HeldBy(f, at, k)| ==> 1 <= HeldBy(f, at, k)[l] <= n
  {
    forall l | 0 <= l < |HeldBy(f, at, k)| ensures 1 <= HeldBy(f, at, k)[l] <= n {
      assert HeldBy(f, at, k)[l] in HeldBy(f, at, k);
      HeldWithin(f, at, k, n, HeldBy(f, at, k)[l]);
    }
  }

  /** Part k of the whole: its sections, its items and its headings. */
  method CutPartOut(
      c: Cutter, k: nat, paragraphs: seq<Entry>, tables: seq<Entry>, figures: seq<Entry>, pairs: seq<Entry>,
      ghost f: Forest)
    returns (p: Part)
    requires k < c.parts == |c.a| == |c.b| && c.a[k] <= c.b[k] && Tree(c.sections, f) && c.Contains(f)
    requires c.sections != [] && Ids(f) == Range(1, |c.sections| - 1) && Locals(c.itemPart, c.itemLocal)
    requires |c.secLocal| == c.parts && Numbered(c.secLocal[k], HeldBy(f, c.itemPart, k))
    requires forall i :: 0 <= i < |c.sections| ==> Extensible(c.sections[i])
    requires |c.itemPart.paragraphs| == |paragraphs| && |c.itemPart.tables| == |tables|
    requires |c.itemPart.figures| == |figures| && |c.itemPart.pairs| == |pairs|
    ensures p.length == c.b[k] - c.a[k]
    ensures HoldsItemsOf(p, c.itemPart, k, c.a[k], paragraphs, tables, figures, pairs)
    ensures HoldsSome(f, c.itemPart, k) ==>
              && IsCut(c.sections, f, HeadsOf(paragraphs), c.itemPart, k, p)
              && RootSpans(p) == ClipSpans(Spans(c.sections[0]), c.a[k], c.b[k], |Spans(c.sections[0])|)
    ensures !HoldsSome(f, c.itemPart, k) ==> p.sections == []
  {
    hide *;
    var secs := c.Sections(k, f);
    LocalsOf(c.itemPart, c.itemLocal);
    var heads := LocalHeads(c.itemPart.paragraphs, c.itemLocal.paragraphs, paragraphs, k);
    var ps := ChooseItems(c.itemPart.paragraphs, paragraphs, k, c.a[k]);
    var ts := ChooseItems(c.itemPart.tables, tables, k, c.a[k]);
    var fs := ChooseItems(c.itemPart.figures, figures, k, c.a[k]);
    var kvs := ChooseItems(c.itemPart.pairs, pairs, k, c.a[k]);
    p := Part(secs, heads, c.b[k] - c.a[k], ps, ts, fs, kvs);
    ItemsHeld(p, c.itemPart, k, c.a[k], paragraphs, tables, figures, pairs);
    HoldsSomeIs(f, c.itemPart, k);
    if HoldsSome(f, c.itemPart, k) {
      ghost var ids := HeldBy(f, c.itemPart, k);
      HeldInside(f, c.itemPart, k, |c.sections| - 1);
      TableSize(c.sections, f, c.itemPart, k, secs);
      RootCut(c, p, k, f);
      forall l | 0 <= l < |secs| ensures Extensible(secs[l]) && Within(Spans(secs[l]), c.b[k] - c.a[k]) {
        if l == 0 {
          CutLies(c, secs[0], 0, k, f);
        } else {
          assert secs[(l - 1) + 1] == secs[l];
          CutLies(c, secs[l], ids[l - 1], k, f);
        }
      }
      CutOut(c.sections, f, c.itemPart, k, p, c.a[k], c.b[k], paragraphs, tables, figures, pairs);
    }
  }

  lemma RootCut(c: Cutter, p: Part, k: nat, f: Forest)
    requires c.sections != [] && p.sections != [] && k < |c.a| == |c.b| && c.a[k] <= c.b[k]
    requires c.IsCutOf(p.sections[0], 0, k, f)
    ensures RootSpans(p) == ClipSpans(Spans(c.sections[0]), c.a[k], c.b[k], |Spans(c.sections[0])|)
  {
    hide ClipSpans, CutElems;
  }

  lemma LocalsOf(at: Places, local: Places)
    requires Locals(at, local)
    ensures LocalRow(at.paragraphs, local.paragraphs)
  {
    assert LocalRow(Row(at, Paragraphs), Row(local, Paragraphs));
  }

  lemma HoldsSomeIs(f: Forest, at: Places, k: nat)
    ensures HoldsSome(f, at, k) <==> Keep(f, at, k, k + 1) != []
  {}

  lemma TableSize(w: seq<Section>, f: Forest, at: Places, k: nat, secs: seq<Section>)
    requires w != [] && CutTable(w, f, at, k, secs)
    ensures |secs| == |HeldBy(f, at, k)| + 1
  {}

  lemma ItemsHeld(
      p: Part, at: Places, k: nat, a: nat, paragraphs: seq<Entry>, tables: seq<Entry>, figures: seq<Entry>,
      pairs: seq<Entry>)
    requires |at.paragraphs| == |paragraphs| && |at.tables| == |tables|
    requires |at.figures| == |figures| && |at.pairs| == |pairs|
    requires p.paragraphs == Chosen(at.paragraphs, paragraphs, k, a, |paragraphs|)
    requires p.tables == Chosen(at.tables, tables, k, a, |tables|)
    requires p.figures == Chosen(at.figures, figures, k, a, |figures|)
    requires p.pairs == Chosen(at.pairs, pairs, k, a, |pairs|)
    requires forall n: nat :: n < |paragraphs| && at.paragraphs[n] == k ==>
               (CountOf(at.paragraphs, k, n) in p.heads <==> paragraphs[n].heading)
    ensures HoldsItemsOf(p, at, k, a, paragraphs, tables, figures, pairs)
  {
    hide CountOf, Chosen;
  }

  /**
   * The whole result cut into one part for each range of its content. Each part that holds something of the sections
   * is cut out of the whole; the others have no sections.
   */
  method CutDI(
      sections: seq<Section>, a: seq<nat>, b: seq<nat>, partOf: map<nat, nat>,
      paragraphs: seq<Entry>, tables: seq<Entry>, figures: seq<Entry>, pairs: seq<Entry>, ghost f: Forest)
    returns (parts: seq<Part>)
    requires |a| == |b| && forall k :: 0 <= k < |a| ==> a[k] <= b[k]
    requires Tree(sections, f) && sections != [] && Ids(f) == Range(1, |sections| - 1)
    requires forall i :: 0 <= i < |sections| ==> Extensible(sections[i])
    ensures |parts| == |a|
    ensures var at, root := PartsOf(paragraphs, tables, figures, pairs, partOf, a, b), Spans(sections[0]);
            && (forall k :: 0 <= k < |parts| ==>
                  && parts[k].length == b[k] - a[k]
                  && HoldsItemsOf(parts[k], at, k, a[k], paragraphs, tables, figures, pairs)
                  && (HoldsSome(f, at, k) ==>
                        && IsCut(sections, f, HeadsOf(paragraphs), at, k, parts[k])
                        && RootSpans(parts[k]) == ClipSpans(root, a[k], b[k], |root|))
                  && (!HoldsSome(f, at, k) ==> parts[k].sections == []))
            && ((forall k :: 0 <= k < |a| ==> HoldsSome(f, at, k)) ==>
                  CutInto(sections, f, HeadsOf(paragraphs), at, parts))
  {
    hide *;
    var c := new Cutter(sections, a, b);
    c.AssignLeaves(PlacesOf(paragraphs), PlacesOf(tables), PlacesOf(figures), PlacesOf(pairs), partOf);
    ghost var at := c.itemPart;
    AssignedIs(at, paragraphs, tables, figures, pairs, partOf, a, b);
    c.AssignSections(f);
    parts := [];
    for k := 0 to |a|
      invariant |parts| == k && c.itemPart == at && Locals(at, c.itemLocal) && c.Contains(f)
      invariant |c.secLocal| == |a| && forall j :: 0 <= j < |a| ==> Numbered(c.secLocal[j], HeldBy(f, at, j))
      invariant forall j :: 0 <= j < k ==>
                  && parts[j].length == b[j] - a[j]
                  && HoldsItemsOf(parts[j], at, j, a[j], paragraphs, tables, figures, pairs)
                  && (HoldsSome(f, at, j) ==>
                        && IsCut(sections, f, HeadsOf(paragraphs), at, j, parts[j])
                        && RootSpans(parts[j]) == ClipSpans(Spans(sections[0]), a[j], b[j], |Spans(sections[0])|))
                  && (!HoldsSome(f, at, j) ==> parts[j].sections == [])
    {
      var p := CutPartOut(c, k, paragraphs, tables, figures, pairs, f);
      parts := parts + [p];
    }
    IntoWhen(sections, f, HeadsOf(paragraphs), at, parts);
  }

  lemma AssignedIs(
      at: Places, paragraphs: seq<Entry>, tables: seq<Entry>, figures: seq<Entry>, pairs: seq<Entry>,
      partOf: map<nat, nat>, a: seq<nat>, b: seq<nat>)
    requires |a| == |b|
    requires Assigns(at.paragraphs, PlacesOf(paragraphs), partOf, a, b)
    requires Assigns(at.tables, PlacesOf(tables), partOf, a, b)
    requires Assigns(at.figures, PlacesOf(figures), partOf, a, b) && Assigns(at.pairs, PlacesOf(pairs), partOf, a, b)
    ensures at == PartsOf(paragraphs, tables, figures, pairs, partOf, a, b)
    ensures |at.paragraphs| == |paragraphs| && |at.tables| == |tables|
    ensures |at.figures| == |figures| && |at.pairs| == |pairs|
  {
    hide PartAt;
    var r := PartsOf(paragraphs, tables, figures, pairs, partOf, a, b);
    assert at.paragraphs == r.paragraphs && at.tables == r.tables && at.figures == r.figures && at.pairs == r.pairs;
  }

  lemma IntoWhen(w: seq<Section>, f: Forest, heads: set<nat>, at: Places, parts: seq<Part>)
    requires Tree(w, f) && forall k :: 0 <= k < |parts| ==>
             (HoldsSome(f, at, k) ==> IsCut(w, f, heads, at, k, parts[k]))
    ensures (forall k :: 0 <= k < |parts| ==> HoldsSome(f, at, k)) ==> CutInto(w, f, heads, at, parts)
  {
    hide IsCut, HoldsSome, Tree;
  }
}

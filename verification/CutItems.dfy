/**
 * The items of a cut (internal/realcut/cut.go:230-280, 366-389, 545-585), in positions: which part an item goes to,
 * where its spans are in the part's content, and that the merge puts them back where they were.
 */
module CutItems {
  import opened Sections
  import opened Forest
  import opened Lead
  import opened Renumber
  import opened Fold
  import opened Cutting
  import opened CutPart
  import opened RoundTrip
  import opened Cutter
  import opened CutAll
  import opened SpanSets
  import R = References

  /**
   * An item goes to the part its page is in, and to none if its page is in no part; without a page to the last part
   * whose range its first span starts in, and to the first part if there is none.
   */
  lemma ItemGoes(x: Place, partOf: map<nat, nat>, a: seq<nat>, b: seq<nat>)
    requires |a| == |b|
    ensures var k := PartAt(x, partOf, a, b);
            && (x.page.Some? && x.page.value in partOf ==> k == partOf[x.page.value])
            && (x.page.Some? && x.page.value !in partOf ==> k == -1)
            && (x.page.None? && x.offset.None? ==> k == 0)
            && (x.page.None? && x.offset.Some? ==>
                  var o := x.offset.value;
                  if exists j :: 0 <= j < |a| && a[j] <= o <= b[j] then
                    0 <= k < |a| && a[k] <= o <= b[k] && forall j :: k < j < |a| ==> !(a[j] <= o <= b[j])
                  else k == 0)
  {
    if x.page.None? && x.offset.Some? { LastOfFit(x.offset.value, a, b, |a|); }
  }

  lemma {:induction false} LastOfFit(o: nat, a: seq<nat>, b: seq<nat>, n: nat)
    requires n <= |a| == |b|
    ensures var r := LastFit(o, a, b, n);
            && (r >= 0 ==> a[r] <= o <= b[r]) && (forall j :: r < j < n ==> !(a[j] <= o <= b[j]))
    decreases n
  {
    if n > 0 { LastOfFit(o, a, b, n - 1); }
  }

  /** A part's section covers the positions the whole's did within the part's range. */
  lemma {:induction false} ClippedIn(spans: seq<Span>, a: nat, b: nat, n: nat, q: int)
    requires n <= |spans| && a <= b
    ensures In(q, ClipSpans(spans, a, b, n)) <==> In(q + a, spans[..n]) && 0 <= q < b - a
    decreases n
  {
    if n == 0 {
      Nothing(q, a);
    } else {
      var s := spans[n - 1];
      ClippedIn(spans, a, b, n - 1, q);
      hide In;
      assert spans[..n] == spans[..n - 1] + [s];
      InJoin(q + a, spans[..n - 1], [s]);
      InOne(q + a, s);
      var before := ClipSpans(spans, a, b, n - 1);
      var lo := if s.offset > a then s.offset else a;
      var hi := if End(s) < b then End(s) else b;
      if s.length == 0 {
        InJoin(q, before, [Span(if s.offset >= a then s.offset - a else 0, 0)]);
        InOne(q, Span(if s.offset >= a then s.offset - a else 0, 0));
      } else if lo < hi {
        InJoin(q, before, [Span(lo - a, hi - lo)]);
        InOne(q, Span(lo - a, hi - lo));
      }
    }
  }

  lemma Nothing(q: int, a: nat)
    ensures !In(q, []) && !In(q + a, [])
  {}

  // Where an item's spans are.

  /** The spans are the whole's, counted from where the part's content starts. */
  predicate CountedFrom(local: seq<Span>, whole: seq<Span>, a: nat) {
    && |local| == |whole|
    && forall j :: 0 <= j < |local| && whole[j].offset >= a ==>
         local[j].offset + a == whole[j].offset && local[j].length == whole[j].length
  }

  lemma {:induction false} ChosenAt(row: seq<int>, items: seq<Entry>, k: nat, a: nat, n: nat, i: nat)
    requires i < n <= |items| == |row| && row[i] == k
    ensures CountOf(row, k, i) < |Chosen(row, items, k, a, n)|
    ensures CountedFrom(Chosen(row, items, k, a, n)[CountOf(row, k, i)], items[i].spans, a)
    decreases n
  {
    if i < n - 1 {
      ChosenAt(row, items, k, a, n - 1, i);
    } else {
      assert |Chosen(row, items, k, a, i)| == CountOf(row, k, i);
    }
  }

  function EntriesOf(m: Member, paragraphs: seq<Entry>, tables: seq<Entry>, figures: seq<Entry>, pairs: seq<Entry>)
    : seq<Entry>
  {
    match m
    case Paragraphs => paragraphs
    case Tables => tables
    case Figures => figures
    case KeyValuePairs => pairs
  }

  /** Every item of the part is there, its spans counted from where the part starts. */
  lemma ItemsCut(
      p: Part, at: Places, k: nat, a: nat, paragraphs: seq<Entry>, tables: seq<Entry>, figures: seq<Entry>,
      pairs: seq<Entry>, m: Member, i: nat)
    requires HoldsItemsOf(p, at, k, a, paragraphs, tables, figures, pairs)
    requires i < |Row(at, m)| && Row(at, m)[i] == k
    ensures i < |EntriesOf(m, paragraphs, tables, figures, pairs)|
    ensures CountOf(Row(at, m), k, i) < Count(p, m) == |Items(p, m)|
    ensures CountedFrom(Items(p, m)[CountOf(Row(at, m), k, i)],
                        EntriesOf(m, paragraphs, tables, figures, pairs)[i].spans, a)
  {
    var items := EntriesOf(m, paragraphs, tables, figures, pairs);
    hide Chosen, CountedFrom, CountOf;
    ChosenAt(Row(at, m), items, k, a, |items|, i);
  }

  /**
   * An item's span that lies in its part's range cuts the same text out of the part's content as the whole's span
   * out of the whole's.
   */
  lemma ItemsKeepTheirText<T>(
      p: Part, at: Places, k: nat, a: nat, b: nat, paragraphs: seq<Entry>, tables: seq<Entry>, figures: seq<Entry>,
      pairs: seq<Entry>, m: Member, i: nat, j: nat, text: seq<T>)
    requires HoldsItemsOf(p, at, k, a, paragraphs, tables, figures, pairs) && a <= b <= |text|
    requires i < |Row(at, m)| && Row(at, m)[i] == k && i < |EntriesOf(m, paragraphs, tables, figures, pairs)|
    requires j < |EntriesOf(m, paragraphs, tables, figures, pairs)[i].spans|
    requires var s := EntriesOf(m, paragraphs, tables, figures, pairs)[i].spans[j]; a <= s.offset && End(s) <= b
    ensures var l, s := CountOf(Row(at, m), k, i), EntriesOf(m, paragraphs, tables, figures, pairs)[i].spans[j];
            && l < Count(p, m) && j < |Items(p, m)[l]|
            && End(Items(p, m)[l][j]) <= b - a
            && text[a..b][Items(p, m)[l][j].offset..End(Items(p, m)[l][j])] == text[s.offset..End(s)]
  {
    hide HoldsItemsOf, CountOf;
    ItemsCut(p, at, k, a, paragraphs, tables, figures, pairs, m, i);
    var s := EntriesOf(m, paragraphs, tables, figures, pairs)[i].spans[j];
    var x := Items(p, m)[CountOf(Row(at, m), k, i)][j];
    assert x.offset + a == s.offset && x.length == s.length;
    R.Slices(text, a, b, x.offset, End(x));
  }

  /** The parts' contents follow one another, a separator between two. */
  predicate Follow(a: seq<nat>, b: seq<nat>, sep: nat) {
    && |a| == |b| && (forall k :: 0 <= k < |a| ==> a[k] <= b[k])
    && forall k :: 0 <= k < |a| ==> a[k] == if k == 0 then 0 else b[k - 1] + sep
  }

  lemma {:induction false} StartsThere(parts: seq<Part>, a: seq<nat>, b: seq<nat>, sep: nat, k: nat)
    requires Follow(a, b, sep) && k < |parts| == |a| && forall j :: 0 <= j < |a| ==> parts[j].length == b[j] - a[j]
    ensures CharTo(parts, sep, k) == a[k]
    decreases k
  {
    if k > 0 {
      StartsThere(parts, a, b, sep, k - 1);
      assert parts[k - 1].length == b[k - 1] - a[k - 1] && a[k] == b[k - 1] + sep;
    }
  }

  lemma ShiftedBack(sh: Shift, local: seq<Span>, whole: seq<Span>, a: nat)
    requires CountedFrom(local, whole, a) && sh.start == a && forall j :: 0 <= j < |whole| ==> whole[j].offset >= a
    ensures Shifted(sh, local) == whole
  {
    assert forall j :: 0 <= j < |local| ==> Shifted(sh, local)[j] == whole[j];
  }

  /**
   * Cut and merged again, when the parts' contents follow one another a separator apart: every item is at the index
   * it had in the whole, with the spans it had.
   */
  lemma ItemsComeBack(
      parts: seq<Part>, shapes: seq<Shape>, sep: nat, at: Places, a: seq<nat>, b: seq<nat>, paragraphs: seq<Entry>,
      tables: seq<Entry>, figures: seq<Entry>, pairs: seq<Entry>, m: Member, i: nat)
    requires |parts| == |shapes| == |a| && Follow(a, b, sep) && Sorted(Row(at, m))
    requires forall k :: 0 <= k < |parts| ==>
               && parts[k].length == b[k] - a[k]
               && HoldsItemsOf(parts[k], at, k, a[k], paragraphs, tables, figures, pairs)
    requires i < |Row(at, m)| && Row(at, m)[i] < |parts| && i < |EntriesOf(m, paragraphs, tables, figures, pairs)|
    requires forall s :: s in EntriesOf(m, paragraphs, tables, figures, pairs)[i].spans ==>
               a[Row(at, m)[i]] <= s.offset
    ensures var k := Row(at, m)[i];
            && 0 <= k < |parts|
            && var sh, l := ShiftOf(parts, shapes, sep, k), CountOf(Row(at, m), k, i);
               && l < Count(parts[k], m)
               && RenElem(sh, Leaf(m, l)) == Leaf(m, i)
               && Shifted(sh, Items(parts[k], m)[l]) == EntriesOf(m, paragraphs, tables, figures, pairs)[i].spans
  {
    hide *;
    RowAt(Row(at, m), i);
    var k := Row(at, m)[i];
    var sh := ShiftOf(parts, shapes, sep, k);
    forall j | 0 <= j < |parts| ensures CountedAt(parts[j], at, j) {
      CountsIn(parts[j], at, j, a[j], paragraphs, tables, figures, pairs);
    }
    AllCounted(parts, at);
    StartsThere(parts, a, b, sep, k);
    BaseIs(parts, at, k, m);
    LeafLands(Row(at, m), k, i);
    ItemsCut(parts[k], at, k, a[k], paragraphs, tables, figures, pairs, m, i);
    var l := CountOf(Row(at, m), k, i);
    PlaceOfLeaf(parts, shapes, sep, k, m, l);
    ShiftedBack(sh, Items(parts[k], m)[l], EntriesOf(m, paragraphs, tables, figures, pairs)[i].spans, a[k]);
  }

  lemma RowAt(row: seq<int>, i: nat)
    requires Sorted(row) && i < |row|
    ensures row[i] >= 0
  {}

  ghost predicate CountedAt(p: Part, at: Places, k: nat) {
    forall m: Member :: Count(p, m) == CountOf(Row(at, m), k, |Row(at, m)|)
  }

  lemma CountsIn(
      p: Part, at: Places, k: nat, a: nat, paragraphs: seq<Entry>, tables: seq<Entry>, figures: seq<Entry>,
      pairs: seq<Entry>)
    requires HoldsItemsOf(p, at, k, a, paragraphs, tables, figures, pairs)
    ensures CountedAt(p, at, k)
  {
    CountsOf(p, at, k, a, paragraphs, tables, figures, pairs);
    hide HoldsItemsOf, CountOf;
  }

  lemma AllCounted(parts: seq<Part>, at: Places)
    requires forall k :: 0 <= k < |parts| ==> CountedAt(parts[k], at, k)
    ensures Counted(parts, at)
  {
    hide CountOf, Count;
    forall k, m: Member | 0 <= k < |parts| ensures Count(parts[k], m) == CountOf(Row(at, m), k, |Row(at, m)|) {
      assert CountedAt(parts[k], at, k);
    }
  }

  lemma PlaceOfLeaf(parts: seq<Part>, shapes: seq<Shape>, sep: nat, k: nat, m: Member, l: nat)
    requires k < |parts| == |shapes|
    ensures var sh := ShiftOf(parts, shapes, sep, k);
            sh.start == CharTo(parts, sep, k) && RenElem(sh, Leaf(m, l)) == Leaf(m, l + Base(BasesTo(parts, k), m))
  {}
}

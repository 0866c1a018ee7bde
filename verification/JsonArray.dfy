/**
 * The items of an array, taken out of its brackets (internal/jsonx/rewrite.go:94-109, 649-708): what is written is
 * the items rewritten, single commas between them, so that the items of several arrays can be spliced into one.
 */
module JsonArray {
  import opened Sections
  import opened JsonScan
  import opened JsonText
  import opened JsonWalk
  import opened JsonRewrite

  function CountOf(items: Items): nat
    decreases items
  {
    if items.Last? then 1 else 1 + CountOf(items.rest)
  }

  /** The items rewritten, with commas between them. */
  function Spliced(items: Items, base: seq<PathElem>, k: nat, before: seq<Call>, u: Setup): seq<byte>
    decreases items
  {
    var inner := base + [StepOf(items.lead, k, u)];
    Substituted(items.value, inner, before, u) +
    if items.Last? then [] else [COMMA] + Spliced(items.rest, base, k + 1, before + Shown(items.value, inner, u), u)
  }

  /** The comma between an item and the n before it. */
  function Between(n: nat): seq<byte> { if n > 0 then [COMMA] else [] }

  /** Past the items: what is written of them, after the n before. */
  function AfterSplice(w: Walk, items: Items, base: seq<PathElem>, k: nat, n: nat, u: Setup): Walk {
    Walk(w.at + |ItemsRaw(items, true)|, w.out + (Between(n) + Spliced(items, base, k, w.calls, u)),
         w.calls + ItemsShown(items, base, k, u))
  }

  /** Where the next value starts, the whitespace before it skipped. */
  function Begun(w: Walk, pad: seq<byte>, n: nat): (r: Walk)
    ensures r.at == w.at + |pad|
  {
    Walk(w.at + |pad|, w.out + Between(n), w.calls)
  }

  lemma BegunIs(w: Walk, pad: seq<byte>, n: nat)
    ensures Begun(w, pad, n) == Walk(w.at + |pad|, w.out + if n > 0 then [COMMA] else [], w.calls)
  {}

  // Items in place are spliced.

  /** A value alone, from its first byte. */
  lemma ValueAlone(s: seq<byte>, w: Walk, d: Doc, path: seq<PathElem>, u: Setup)
    requires At(s, w.at, Raw(d)) && Good(d) && Ends(s, w.at + |Raw(d)|) && Depth(d) <= MAX_DEPTH
    ensures w.at + |Raw(d)| <= |s| && ValueRun(s, w, path, |path|, false, u) == Some(After(w, d, path, u))
  {
    hide *;
    NothingAt(s, w.at, Raw(d));
    DocRun(s, w, [], d, path, |path|, u);
    PutNothing(w);
    EndIs(s, After(w, d, path, u), path, u);
  }

  lemma NothingAt(s: seq<byte>, i: nat, t: seq<byte>)
    requires At(s, i, t)
    ensures At(s, i, []) && Spaces([])
  {}

  lemma SlotIs(l: Lead, k: nat, u: Setup)
    requires GoodLead(l, true)
    ensures l.Slot? && HeadRaw(l) == [] && StepOf(l, k, u) == Index(k) && Spaces(l.pad) && LeadRaw(l) == l.pad
  {}

  lemma SplicedIs(items: Items, base: seq<PathElem>, k: nat, before: seq<Call>, u: Setup)
    ensures var inner := base + [StepOf(items.lead, k, u)];
            && Spliced(items, base, k, before, u) == Substituted(items.value, inner, before, u) +
                 (if items.Last? then []
                  else [COMMA] + Spliced(items.rest, base, k + 1, before + Shown(items.value, inner, u), u))
            && ItemsShown(items, base, k, u)
               == Shown(items.value, inner, u) + (if items.Last? then [] else ItemsShown(items.rest, base, k + 1, u))
    ensures CountOf(items) == if items.Last? then 1 else 1 + CountOf(items.rest)
    ensures |ItemsRaw(items, true)|
      == |LeadRaw(items.lead)| + |Raw(items.value)| + |items.after| + |TailRaw(items, true)|
  {}

  lemma SpliceSize(items: Items, base: seq<PathElem>, k: nat, w: Walk, n: nat, u: Setup)
    ensures AfterSplice(w, items, base, k, n, u).at == w.at + |ItemsRaw(items, true)|
    ensures AfterSplice(w, items, base, k, n, u).out == w.out + (Between(n) + Spliced(items, base, k, w.calls, u))
    ensures AfterSplice(w, items, base, k, n, u).calls == w.calls + ItemsShown(items, base, k, u)
  {}

  lemma AfterIs(w: Walk, d: Doc, path: seq<PathElem>, u: Setup)
    ensures After(w, d, path, u)
      == Walk(w.at + |Raw(d)|, w.out + Substituted(d, path, w.calls, u), w.calls + Shown(d, path, u))
  {}

  /** The last item spliced. */
  lemma SpliceEnds(w: Walk, items: Items, base: seq<PathElem>, k: nat, n: nat, u: Setup)
    requires GoodLead(items.lead, true) && items.Last?
    ensures var v := After(Begun(w, items.lead.pad, n), items.value, base + [Index(k)], u);
            AfterSplice(w, items, base, k, n, u) == Dropped(v, v.at + |items.after| + 1) && CountOf(items) == 1
  {
    hide *;
    SlotIs(items.lead, k, u);
    SplicedIs(items, base, k, w.calls, u);
    TailIs(items, true);
    BegunIs(w, items.lead.pad, n);
    BetweenIs(n);
    SpliceSize(items, base, k, w, n, u);
    var path, b := base + [Index(k)], Begun(w, items.lead.pad, n);
    AfterIs(b, items.value, path, u);
    DroppedIs(After(b, items.value, path, u), After(b, items.value, path, u).at + |items.after| + 1);
    Associates(w.out, Between(n), Substituted(items.value, path, w.calls, u), []);
    Associates(w.calls, [], Shown(items.value, path, u), []);
  }

  lemma BetweenIs(n: nat)
    ensures Between(n) == if n > 0 then [COMMA] else []
  {}

  lemma Associates<T>(out: seq<T>, a: seq<T>, d: seq<T>, rest: seq<T>)
    ensures out + (a + (d + rest)) == ((out + a) + d) + rest
    ensures (out + a) + d + [] == (out + a) + d && out + [] == out && d + [] == d
  {}

  /** One item spliced, and then those after it. */
  lemma SpliceGoes(w: Walk, items: Items, base: seq<PathElem>, k: nat, n: nat, u: Setup)
    requires GoodLead(items.lead, true) && items.More?
    ensures var v := After(Begun(w, items.lead.pad, n), items.value, base + [Index(k)], u);
            var next := Dropped(v, v.at + |items.after| + 1);
            && AfterSplice(w, items, base, k, n, u) == AfterSplice(next, items.rest, base, k + 1, n + 1, u)
            && CountOf(items) == 1 + CountOf(items.rest)
  {
    hide *;
    SlotIs(items.lead, k, u);
    SplicedIs(items, base, k, w.calls, u);
    TailIs(items, true);
    BegunIs(w, items.lead.pad, n);
    BetweenIs(n);
    BetweenIs(n + 1);
    SpliceSize(items, base, k, w, n, u);
    var path, b := base + [Index(k)], Begun(w, items.lead.pad, n);
    AfterIs(b, items.value, path, u);
    var v := After(b, items.value, path, u);
    var next := Dropped(v, v.at + |items.after| + 1);
    DroppedIs(v, v.at + |items.after| + 1);
    SpliceSize(items.rest, base, k + 1, next, n + 1, u);
    Associates(w.out, Between(n), Substituted(items.value, path, w.calls, u),
               [COMMA] + Spliced(items.rest, base, k + 1, w.calls + Shown(items.value, path, u), u));
    Associates(w.calls, [], Shown(items.value, path, u), ItemsShown(items.rest, base, k + 1, u));
    NothingBefore(Shown(items.value, path, u) + ItemsShown(items.rest, base, k + 1, u));
  }

  lemma AfterTail(s: seq<byte>, i: nat, after: seq<byte>, c: byte)
    requires At(s, i, after) && Spaces(after) && At(s, i + |after|, [c]) && (c == COMMA || c == CLOSE_ARRAY)
    ensures i <= |s| && i + |after| < |s| && SkipWs(s, i) == i + |after| && s[i + |after|] == c && Ends(s, i)
  {
    AtByte(s, i + |after|, c);
    SpacesEnd(s, i, after);
    if after != [] { assert s[i] == s[i..i + |after|][0]; }
  }

  /** Where the parts of an item stand. */
  lemma ItemStands(s: seq<byte>, i: nat, items: Items)
    requires At(s, i, ItemsRaw(items, true)) && GoodItems(items, true)
    ensures var at, end := i + |items.lead.pad|, i + |items.lead.pad| + |Raw(items.value)|;
            && SkipWs(s, i) == at < |s| && At(s, at, Raw(items.value))
            && end + |items.after| < |s| && SkipWs(s, end) == end + |items.after| && Ends(s, end)
            && s[end + |items.after|] == (if items.Last? then CLOSE_ARRAY else COMMA)
            && (items.More? ==> At(s, end + |items.after| + 1, ItemsRaw(items.rest, true)))
  {
    hide *;
    ItemsParts(items, true);
    LeadSlot(items.lead, true);
    SlotLead(items.lead);
    ItemsAt(s, i, items, true);
    TailIs(items, true);
    ClosingIs(true);
    var at := i + |items.lead.pad|;
    AtFirst(s, at, items.value);
    BeginsPlain(s[at], items.value);
    SpacesEnd(s, i, items.lead.pad);
    var end := at + |Raw(items.value)|;
    if items.More? { AtJoin(s, end + |items.after|, [COMMA], ItemsRaw(items.rest, true)); }
    AfterTail(s, end, items.after, if items.Last? then CLOSE_ARRAY else COMMA);
  }

  lemma SlotLead(l: Lead)
    requires GoodLead(l, true)
    ensures l.Slot?
  {}

  lemma {:induction false} ItemsSplice(
      s: seq<byte>, w: Walk, items: Items, base: seq<PathElem>, k: nat, n: nat, u: Setup)
    requires At(s, w.at, ItemsRaw(items, true)) && GoodItems(items, true) && ItemsDepth(items) <= MAX_DEPTH
    ensures w.at + |ItemsRaw(items, true)| <= |s|
    ensures SpliceRun(s, w, base, k, n, u) == Some((AfterSplice(w, items, base, k, n, u), n + CountOf(items)))
    decreases items
  {
    hide *;
    var d, path, start := items.value, base + [Index(k)], Begun(w, items.lead.pad, n);
    ItemStands(s, w.at, items);
    ItemsParts(items, true);
    AtWithin(s, w.at, ItemsRaw(items, true));
    BegunIs(w, items.lead.pad, n);
    ValueAlone(s, start, d, path, u);
    SpliceIs(s, w, base, k, n, u);
    ByteApart();
    if items.More? {
      SpliceGoes(w, items, base, k, n, u);
      var j := start.at + |Raw(d)| + |items.after| + 1;
      var next := Dropped(After(start, d, path, u), j);
      DroppedIs(After(start, d, path, u), j);
      ItemsSplice(s, next, items.rest, base, k + 1, n + 1, u);
    } else {
      SpliceEnds(w, items, base, k, n, u);
    }
  }

  lemma ByteApart()
    ensures CLOSE_ARRAY != COMMA
  {}

  // And what is spliced is items.

  ghost predicate ItemsFit(s: seq<byte>, i: nat, items: Items) {
    At(s, i, ItemsRaw(items, true)) && GoodItems(items, true) && ItemsDepth(items) <= MAX_DEPTH
  }

  lemma Fitting(s: seq<byte>, i: nat, items: Items)
    requires At(s, i, ItemsRaw(items, true)) && GoodItems(items, true) && ItemsDepth(items) <= MAX_DEPTH
    ensures ItemsFit(s, i, items)
  {}

  lemma FitParts(s: seq<byte>, i: nat, items: Items)
    requires ItemsFit(s, i, items)
    ensures At(s, i, ItemsRaw(items, true)) && GoodItems(items, true) && ItemsDepth(items) <= MAX_DEPTH
  {}

  lemma SomeDepth()
    ensures 0 <= MAX_DEPTH
  {}

  lemma PadJoined(s: seq<byte>, i: nat, a: seq<byte>, b: seq<byte>)
    requires At(s, i, a) && Spaces(a) && At(s, i + |a|, b) && Spaces(b)
    ensures At(s, i, a + b) && Spaces(a + b) && GoodLead(Slot(a + b), true)
  {
    AtJoin(s, i, a, b);
  }

  /** What the splice goes over is items. */
  lemma {:induction false} ItemsUnspliced(s: seq<byte>, w: Walk, base: seq<PathElem>, k: nat, n: nat, u: Setup)
    returns (items: Items)
    requires w.at <= |s| && SpliceRun(s, w, base, k, n, u).Some?
    ensures ItemsFit(s, w.at, items)
    decreases |s| - w.at
  {
    hide *;
    SpliceIs(s, w, base, k, n, u);
    SomeDepth();
    var path, i := base + [Index(k)], SkipWs(s, w.at);
    var front := s[w.at..i];
    SpacesFound(s, w.at);
    var start := Walk(i, w.out + if n > 0 then [COMMA] else [], w.calls);
    var pad, d := DocFound(s, start, path, |path|, u);
    FoundParts(s, start, pad, d, path, |path|, u);
    var v := After(Put(start, pad), d, path, u);
    EndIs(s, v, path, u);
    var after := s[v.at..SkipWs(s, v.at)];
    SpacesFound(s, v.at);
    PadJoined(s, w.at, front, pad);
    var l := Slot(front + pad);
    var j := SkipWs(s, v.at);
    AtByte(s, j, s[j]);
    ClosingIs(true);
    if s[j] == COMMA {
      ByteApart();
      DroppedIs(v, j + 1);
      var rest := ItemsUnspliced(s, Dropped(v, j + 1), base, k + 1, n + 1, u);
      FitParts(s, j + 1, rest);
      AtJoin(s, j, [COMMA], ItemsRaw(rest, true));
      items := More(l, d, after, rest);
    } else {
      items := Last(l, d, after);
    }
    TailIs(items, true);
    ItemsGood(items, true);
    SlotIs(l, k, u);
    NothingAt(s, w.at, front + pad);
    ItemsAt(s, w.at, items, true);
    Fitting(s, w.at, items);
  }

  // The whole array.

  /** An array each of whose items is within the limits by itself. */
  predicate GoodArray(d: Doc) {
    && (d.Empty? || d.Full?) && d.isArray && Good(d)
    && (d.Full? ==> ItemsDepth(d.items) <= MAX_DEPTH)
  }

  function ArrayOut(d: Doc, base: seq<PathElem>, k: nat, u: Setup): seq<byte>
    requires GoodArray(d)
  {
    if d.Empty? then [] else Spliced(d.items, base, k, [], u)
  }

  function ArrayCount(d: Doc): nat
    requires GoodArray(d)
  {
    if d.Empty? then 0 else CountOf(d.items)
  }

  function ArrayShown(d: Doc, base: seq<PathElem>, k: nat, u: Setup): seq<Call>
    requires GoodArray(d)
  {
    if d.Empty? then [] else ItemsShown(d.items, base, k, u)
  }

  lemma ArrayParts(d: Doc)
    requires GoodArray(d)
    ensures (d.Empty? || d.Full?) && d.isArray && Good(d)
    ensures d.Empty? ==> Spaces(d.gap)
    ensures d.Full? ==> ItemsDepth(d.items) <= MAX_DEPTH && GoodItems(d.items, true)
  {}

  lemma ArrayOutIs(d: Doc, base: seq<PathElem>, k: nat, u: Setup)
    requires GoodArray(d)
    ensures d.Empty? ==> ArrayOut(d, base, k, u) == [] && ArrayCount(d) == 0 && ArrayShown(d, base, k, u) == []
    ensures d.Full? ==>
              && ArrayOut(d, base, k, u) == Spliced(d.items, base, k, [], u) && ArrayCount(d) == CountOf(d.items)
              && ArrayShown(d, base, k, u) == ItemsShown(d.items, base, k, u)
  {}

  /** Whitespace skipped before an item is not missed. */
  lemma SpliceOn(s: seq<byte>, w: Walk, i: nat, base: seq<PathElem>, k: nat, n: nat, u: Setup)
    requires w.at <= i <= |s| && i <= SkipWs(s, w.at)
    ensures SpliceRun(s, Dropped(w, i), base, k, n, u) == SpliceRun(s, w, base, k, n, u)
  {
    hide *;
    SkippedOn(s, w.at, i);
    DroppedIs(w, i);
    SpliceIs(s, w, base, k, n, u);
    SpliceIs(s, Dropped(w, i), base, k, n, u);
  }

  lemma BracketFirst(s: seq<byte>, i: nat, pad: seq<byte>, d: Doc)
    requires At(s, i, pad) && Spaces(pad) && At(s, i + |pad|, Raw(d)) && GoodArray(d)
    ensures i + |pad| + |Raw(d)| <= |s| && SkipWs(s, i) == i + |pad| < |s| && s[i + |pad|] == OPEN_ARRAY
  {
    hide Raw, Good, ItemsDepth, SkipWs;
    AtFirst(s, i + |pad|, d);
    BeginsPlain(s[i + |pad|], d);
    SpacesEnd(s, i, pad);
  }

  lemma EmptySplices(s: seq<byte>, w: Walk, pad: seq<byte>, d: Doc, path: seq<PathElem>, k: nat, u: Setup)
    requires At(s, w.at, pad) && Spaces(pad) && At(s, w.at + |pad|, Raw(d)) && GoodArray(d) && d.Empty?
    ensures w.at + |pad| + |Raw(d)| <= |s|
    ensures ArrayRun(s, w, path, k, u) == Some((Walk(w.at + |pad| + |Raw(d)|, w.out, w.calls), 0))
  {
    hide *;
    BracketFirst(s, w.at, pad, d);
    ArrayParts(d);
    EmptyIs(d);
    var i := w.at + |pad|;
    AtJoin(s, i, [Opening(true)], d.gap + [Closing(true)]);
    AtJoin(s, i + 1, d.gap, [Closing(true)]);
    ClosingIs(true);
    AfterTail(s, i + 1, d.gap, CLOSE_ARRAY);
    ArrayIs(s, w, path, k, u);
    DroppedIs(w, i + |Raw(d)|);
  }

  lemma FullSplices(s: seq<byte>, w: Walk, pad: seq<byte>, d: Doc, path: seq<PathElem>, k: nat, u: Setup)
    requires At(s, w.at, pad) && Spaces(pad) && At(s, w.at + |pad|, Raw(d)) && GoodArray(d) && d.Full?
    ensures w.at + |pad| + |Raw(d)| <= |s|
    ensures ArrayRun(s, w, path, k, u)
      == Some((Walk(w.at + |pad| + |Raw(d)|, w.out + Spliced(d.items, path, k, w.calls, u),
                    w.calls + ItemsShown(d.items, path, k, u)), CountOf(d.items)))
  {
    hide *;
    BracketFirst(s, w.at, pad, d);
    ArrayParts(d);
    var i := w.at + |pad|;
    var inside := Dropped(w, i + 1);
    DroppedIs(w, i + 1);
    FullIs(w, d, path, u);
    AtJoin(s, i, [Opening(true)], ItemsRaw(d.items, true));
    ItemsFirst(s, i + 1, d.items, true);
    ClosingIs(true);
    ArrayIs(s, w, path, k, u);
    var j := SkipWs(s, i + 1);
    DroppedIs(w, j);
    DroppedIs(inside, j);
    SpliceOn(s, inside, j, path, k, 0, u);
    ItemsSplice(s, inside, d.items, path, k, 0, u);
    SpliceSize(d.items, path, k, inside, 0, u);
    BetweenIs(0);
    NothingBefore(Spliced(d.items, path, k, w.calls, u));
  }

  predicate GoodArrayText(t: Whole) { Spaces(t.pre) && GoodArray(t.doc) && Spaces(t.post) }

  lemma ArrayTextParts(t: Whole)
    requires GoodArrayText(t)
    ensures Spaces(t.pre) && GoodArray(t.doc) && Spaces(t.post)
  {}

  lemma ArrayItemsIs(s: seq<byte>, prefix: seq<PathElem>, k: nat, u: Setup)
    ensures var r := ArrayRun(s, Walk(0, [], []), prefix, k, u);
            ArrayItemsRun(s, prefix, k, u) == if r.None? || SkipWs(s, r.value.0.at) < |s| then None else r
  {}

  /**
   * An array alone in its text comes out as its items, each as it would alone, one comma between two of them and
   * nothing else: neither the brackets nor the whitespace around the items. They are counted.
   */
  lemma ArraySplices(t: Whole, prefix: seq<PathElem>, k: nat, u: Setup)
    requires GoodArrayText(t)
    ensures ArrayItemsRun(WholeRaw(t), prefix, k, u).Some?
    ensures GoodArray(t.doc)
    ensures var (r, n) := ArrayItemsRun(WholeRaw(t), prefix, k, u).value;
            r.out == ArrayOut(t.doc, prefix, k, u) && r.calls == ArrayShown(t.doc, prefix, k, u)
                && n == ArrayCount(t.doc)
  {
    hide *;
    var s, d := WholeRaw(t), t.doc;
    ArrayTextParts(t);
    WholeAt(t);
    ArrayOutIs(d, prefix, k, u);
    ArrayParts(d);
    var start := Walk(0, [], []);
    if d.Empty? {
      EmptySplices(s, start, t.pre, d, prefix, k, u);
    } else {
      FullSplices(s, start, t.pre, d, prefix, k, u);
      NothingBefore(Spliced(d.items, prefix, k, [], u));
      NothingBefore(ItemsShown(d.items, prefix, k, u));
    }
    ArrayItemsIs(s, prefix, k, u);
  }

  lemma GoodFrom(d: Doc)
    requires (d.Empty? && d.isArray && Spaces(d.gap))
             || (d.Full? && d.isArray && GoodItems(d.items, true) && ItemsDepth(d.items) <= MAX_DEPTH)
    ensures GoodArray(d)
  {}

  lemma EmptyUnspliced(s: seq<byte>, i: nat) returns (d: Doc)
    requires i < |s| && s[i] == OPEN_ARRAY && SkipWs(s, i + 1) < |s| && s[SkipWs(s, i + 1)] == CLOSE_ARRAY
    ensures GoodArray(d) && At(s, i, Raw(d)) && SkipWs(s, i + 1) + 1 == i + |Raw(d)|
  {
    hide *;
    var j := SkipWs(s, i + 1);
    var gap := s[i + 1..j];
    ClosingIs(true);
    OpeningIs();
    SpacesFound(s, i + 1);
    AtByte(s, i, OPEN_ARRAY);
    AtByte(s, j, CLOSE_ARRAY);
    AtJoin(s, i + 1, gap, [CLOSE_ARRAY]);
    AtJoin(s, i, [OPEN_ARRAY], gap + [CLOSE_ARRAY]);
    d := Empty(true, gap);
    EmptyIs(d);
    GoodFrom(d);
  }

  lemma FullUnspliced(s: seq<byte>, i: nat, path: seq<PathElem>, k: nat, u: Setup) returns (d: Doc)
    requires i < |s| && s[i] == OPEN_ARRAY && SpliceRun(s, Walk(i + 1, [], []), path, k, 0, u).Some?
    ensures GoodArray(d) && At(s, i, Raw(d))
    ensures SpliceRun(s, Walk(i + 1, [], []), path, k, 0, u).value.0.at == i + |Raw(d)|
  {
    hide *;
    var inside := Walk(i + 1, [], []);
    OpeningIs();
    AtByte(s, i, OPEN_ARRAY);
    var items := ItemsUnspliced(s, inside, path, k, 0, u);
    FitParts(s, i + 1, items);
    AtJoin(s, i, [OPEN_ARRAY], ItemsRaw(items, true));
    d := Full(true, items);
    FullIs(inside, d, path, u);
    GoodFrom(d);
    ItemsSplice(s, inside, items, path, k, 0, u);
    SpliceSize(items, path, k, inside, 0, u);
  }

  /** What is taken as an array is one. */
  lemma ArrayFound(s: seq<byte>, prefix: seq<PathElem>, k: nat, u: Setup) returns (t: Whole)
    requires ArrayItemsRun(s, prefix, k, u).Some?
    ensures GoodArrayText(t) && WholeRaw(t) == s
  {
    hide *;
    var start := Walk(0, [], []);
    ArrayItemsIs(s, prefix, k, u);
    ArrayIs(s, start, prefix, k, u);
    var i := SkipWs(s, 0);
    var j := SkipWs(s, i + 1);
    var d;
    DroppedIs(start, j);
    if s[j] == CLOSE_ARRAY {
      d := EmptyUnspliced(s, i);
      DroppedIs(start, j + 1);
    } else {
      var inside := Walk(i + 1, [], []);
      DroppedIs(inside, j);
      SpliceOn(s, inside, j, prefix, k, 0, u);
      d := FullUnspliced(s, i, prefix, k, u);
    }
    t := Around(s, i, d);
  }

  lemma Around(s: seq<byte>, i: nat, d: Doc) returns (t: Whole)
    requires i == SkipWs(s, 0) && At(s, i, Raw(d)) && i + |Raw(d)| <= |s|
    requires SkipWs(s, i + |Raw(d)|) == |s| && GoodArray(d)
    ensures GoodArrayText(t) && WholeRaw(t) == s
  {
    hide *;
    var pre, end := s[0..i], i + |Raw(d)|;
    SpacesFound(s, 0);
    var post := s[end..SkipWs(s, end)];
    SpacesFound(s, end);
    t := Whole(pre, d, post);
    AtJoin(s, |pre|, Raw(d), post);
    AtJoin(s, 0, pre, Raw(d) + post);
    TextOf(s, t);
  }

  lemma TextOf(s: seq<byte>, t: Whole)
    requires At(s, 0, t.pre + (Raw(t.doc) + t.post)) && |s| == |t.pre| + |Raw(t.doc)| + |t.post|
    requires Spaces(t.pre) && GoodArray(t.doc) && Spaces(t.post)
    ensures GoodArrayText(t) && WholeRaw(t) == s
  {
    hide Raw, GoodArray;
    assert s[0..|s|] == s;
  }

  /** A text is taken for an array's items exactly when it is an array, and whitespace around it. */
  lemma ArrayAccepts(s: seq<byte>, prefix: seq<PathElem>, k: nat, u: Setup)
    ensures ArrayItemsRun(s, prefix, k, u).Some? <==> exists t :: GoodArrayText(t) && WholeRaw(t) == s
  {
    hide *;
    if ArrayItemsRun(s, prefix, k, u).Some? { var t := ArrayFound(s, prefix, k, u); }
    if t :| GoodArrayText(t) && WholeRaw(t) == s { ArraySplices(t, prefix, k, u); }
  }

  /** A visitor that replaces nothing: the items' own bytes. */
  function ItemsBytes(items: Items): seq<byte>
    decreases items
  {
    Raw(items.value) + if items.Last? then [] else [COMMA] + ItemsBytes(items.rest)
  }

  lemma {:induction false} KeepingSplice(items: Items, base: seq<PathElem>, k: nat, before: seq<Call>, u: Setup)
    requires Keeping(u)
    ensures Spliced(items, base, k, before, u) == ItemsBytes(items)
    decreases items
  {
    hide Keeping, Raw, Substituted, Shown, StepOf;
    var inner := base + [StepOf(items.lead, k, u)];
    KeepingDoc(items.value, inner, before, u);
    if items.More? { KeepingSplice(items.rest, base, k + 1, before + Shown(items.value, inner, u), u); }
  }
}

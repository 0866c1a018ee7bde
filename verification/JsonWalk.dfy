/**
 * Rewriting is pure substitution (internal/jsonx/rewrite.go): the walker takes exactly the JSON texts within
 * its limits, and gives back each with its visited scalars replaced and every other byte as it was.
 */
module JsonWalk {
  import opened Sections
  import opened JsonScan
  import opened JsonNumber
  import opened JsonText

  /** The walk once t has been copied. */
  function Put(w: Walk, t: seq<byte>): (r: Walk)
    ensures r.at == w.at + |t|
  {
    Walk(w.at + |t|, w.out + t, w.calls)
  }

  function Fresh(isArray: bool): PathElem { if isArray then Index(0) else Key([]) }

  /** The walk from where an item begins, its name included. */
  function ItemRun(s: seq<byte>, w: Walk, path: seq<PathElem>, floor: nat, u: Setup): (r: Option<Walk>)
    requires w.at <= |s| && floor < |path|
    ensures r.Some? ==> w.at <= r.value.at <= |s|
  {
    if path[|path| - 1].Index? then ValueRun(s, w, path, floor, false, u)
    else
      var n := NameRun(s, w);
      if n.None? then None else ValueRun(s, n.value.1, NamedPath(path, n.value.0, u), floor, false, u)
  }

  lemma CopiedPut(s: seq<byte>, w: Walk, t: seq<byte>)
    requires At(s, w.at, t)
    ensures w.at + |t| <= |s| && Copied(s, w, w.at + |t|) == Put(w, t)
  {}

  lemma PutPut(w: Walk, a: seq<byte>, b: seq<byte>)
    ensures Put(Put(w, a), b) == Put(w, a + b)
  {
    assert (w.out + a) + b == w.out + (a + b);
  }

  /** Whitespace already copied is not missed. */
  lemma SkippedOn(s: seq<byte>, i: nat, j: nat)
    requires i <= j <= |s| && j <= SkipWs(s, i)
    ensures SkipWs(s, j) == SkipWs(s, i)
    decreases j - i
  {
    if i < j { SkippedOn(s, i + 1, j); }
  }

  lemma CopiedOn(s: seq<byte>, w: Walk, i: nat, j: nat)
    requires w.at <= i <= j <= |s|
    ensures Copied(s, Copied(s, w, i), j) == Copied(s, w, j)
  {
    assert s[w.at..j] == s[w.at..i] + s[i..j];
    assert (w.out + s[w.at..i]) + s[i..j] == w.out + (s[w.at..i] + s[i..j]);
  }

  /** A name at i that ends at e, its colon at j. */
  predicate Names(s: seq<byte>, at: nat, i: nat, e: nat, j: nat) {
    && at <= |s| && i == SkipWs(s, at) && i < |s| && s[i] == QUOTE && StrEnd(s, i + 1) == Some(e)
    && j == SkipWs(s, e) && j < |s| && s[j] == COLON && e - i <= MAX_NAME_BYTES
  }

  lemma NamesRun(s: seq<byte>, w: Walk, i: nat, e: nat, j: nat)
    requires Names(s, w.at, i, e, j)
    ensures w.at <= i < e <= j < |s| && NameRun(s, w) == Some((s[i..e], Copied(s, w, j + 1)))
  {}

  lemma RunNames(s: seq<byte>, w: Walk) returns (i: nat, e: nat, j: nat)
    requires w.at <= |s| && NameRun(s, w).Some?
    ensures Names(s, w.at, i, e, j) && w.at <= i < e <= j < |s|
  {
    i := SkipWs(s, w.at);
    e := StrEnd(s, i + 1).value;
    j := SkipWs(s, e);
  }

  lemma NameOn(s: seq<byte>, w: Walk, i: nat)
    requires w.at <= i <= |s| && i <= SkipWs(s, w.at)
    ensures Copied(s, w, i).at == i && NameRun(s, Copied(s, w, i)) == NameRun(s, w)
  {
    hide SkipWs, StrEnd, NameRun;
    SkippedOn(s, w.at, i);
    var v := Copied(s, w, i);
    if NameRun(s, w).Some? {
      var q, e, j := RunNames(s, w);
      NamesRun(s, w, q, e, j);
      NamesRun(s, v, q, e, j);
      CopiedOn(s, w, i, j + 1);
    } else if NameRun(s, v).Some? {
      var q, e, j := RunNames(s, v);
      NamesRun(s, w, q, e, j);
    }
  }

  /** Skipping whitespace first changes nothing. */
  lemma ItemOn(s: seq<byte>, w: Walk, i: nat, path: seq<PathElem>, floor: nat, u: Setup)
    requires w.at <= i <= |s| && i <= SkipWs(s, w.at) && floor < |path|
    ensures ItemRun(s, Copied(s, w, i), path, floor, u) == ItemRun(s, w, path, floor, u)
  {
    hide ValueRun, NameRun;
    SkippedOn(s, w.at, i);
    var v := Copied(s, w, i);
    NameOn(s, w, i);
    StartIs(s, w, path, floor, u);
    StartIs(s, v, path, floor, u);
    CopiedOn(s, w, i, SkipWs(s, w.at));
  }

  /** What an opening bracket leads to. */
  lemma OpenStep(s: seq<byte>, v: Walk, path: seq<PathElem>, floor: nat, isArray: bool, u: Setup)
    requires v.at < |s| && floor <= |path| && s[v.at] == Opening(isArray)
    ensures var i, r := SkipWs(s, v.at + 1), StartRun(s, v, path, floor, u);
            && (|path| - floor >= MAX_DEPTH || i == |s| ==> r.None?)
            && (|path| - floor < MAX_DEPTH && i < |s| && s[i] == Closing(isArray) ==>
                  r == ValueRun(s, Copied(s, v, i + 1), path, floor, true, u))
            && (|path| - floor < MAX_DEPTH && i < |s| && s[i] != Closing(isArray) ==>
                  r == ItemRun(s, Copied(s, v, v.at + 1), path + [Fresh(isArray)], floor, u))
  {
    hide ValueRun, StartRun, NameRun, SkipWs, Copied;
    OpenIs(s, v, path, floor, isArray, u);
    var i := SkipWs(s, v.at + 1);
    if |path| - floor < MAX_DEPTH && i < |s| {
      InsideIs(s, v, i);
      if s[i] == Closing(isArray) {
        CopiedOn(s, v, i, i + 1);
      } else {
        ItemOn(s, Copied(s, v, v.at + 1), i, path + [Fresh(isArray)], floor, u);
        CopiedOn(s, v, v.at + 1, i);
      }
    }
  }

  lemma InsideIs(s: seq<byte>, v: Walk, i: nat)
    requires v.at < i <= |s|
    ensures Copied(s, v, v.at + 1).at == v.at + 1 && Copied(s, v, i).at == i
  {}

  /** What a comma or a closing bracket leads to. */
  lemma FollowStep(s: seq<byte>, v: Walk, base: seq<PathElem>, top: PathElem, floor: nat, u: Setup)
    requires v.at < |s| && floor <= |base|
    ensures var c, next, r := s[v.at], Copied(s, v, v.at + 1), NextRun(s, v, base + [top], floor, u);
            && (c == COMMA ==> r == ItemRun(s, next, base + [if top.Index? then Index(top.i + 1) else top], floor, u))
            && (c != COMMA && c == Closing(top.Index?) ==> r == ValueRun(s, next, base, floor, true, u))
            && (c != COMMA && c != Closing(top.Index?) ==> r.None?)
  {
    hide ValueRun, NextRun, NameRun;
    var path := base + [top];
    FollowIs(s, v, path, floor, u);
    assert path[..|path| - 1] == base;
    if top.Index? { assert path[|path| - 1 := Index(top.i + 1)] == base + [Index(top.i + 1)]; }
  }

  /** What comes before the whitespace a value begins with. */
  function HeadRaw(l: Lead): seq<byte> {
    match l
    case Slot(_) => []
    case Named(before, name, gap, _) => before + (StrRaw(name) + (gap + [COLON]))
  }

  lemma LeadIs(l: Lead)
    ensures LeadRaw(l) == HeadRaw(l) + l.pad
  {
    if l.Named? { Regroup(l.before, StrRaw(l.name), l.gap, [COLON], l.pad); }
  }

  lemma Regroup<T>(a: seq<T>, b: seq<T>, c: seq<T>, d: seq<T>, e: seq<T>)
    ensures a + (b + (c + (d + e))) == (a + (b + (c + d))) + e
  {}

  lemma NameIs(s: seq<byte>, w: Walk, l: Lead)
    requires l.Named? && GoodLead(l, false) && At(s, w.at, HeadRaw(l))
    ensures w.at + |HeadRaw(l)| <= |s| && NameRun(s, w) == Some((StrRaw(l.name), Put(w, HeadRaw(l))))
  {
    var raw, i := StrRaw(l.name), w.at + |l.before|;
    assert At(s, w.at, l.before + (raw + (l.gap + [COLON])));
    assert raw == [QUOTE] + (LettersRaw(l.name) + [QUOTE]);
    assert Spaces(l.before) && Spaces(l.gap) && GoodLetters(l.name) && |raw| <= MAX_NAME_BYTES;
    assert HeadRaw(l) == l.before + (raw + (l.gap + [COLON]));
    NameAt(s, w, i, raw, l);
  }

  lemma NameAt(s: seq<byte>, w: Walk, i: nat, raw: seq<byte>, l: Lead)
    requires l.Named? && i == w.at + |l.before| && raw == [QUOTE] + (LettersRaw(l.name) + [QUOTE])
    requires Spaces(l.before) && Spaces(l.gap) && GoodLetters(l.name) && |raw| <= MAX_NAME_BYTES
    requires At(s, w.at, l.before + (raw + (l.gap + [COLON])))
    ensures i + |raw| + |l.gap| < |s|
    ensures NameRun(s, w) == Some((raw, Put(w, l.before + (raw + (l.gap + [COLON])))))
  {
    hide *;
    var e := i + |raw|;
    var j := e + |l.gap|;
    AtJoin(s, w.at, l.before, raw + (l.gap + [COLON]));
    AtJoin(s, i, raw, l.gap + [COLON]);
    AtJoin(s, i, [QUOTE], LettersRaw(l.name) + [QUOTE]);
    AtByte(s, i, QUOTE);
    StrEndIs(s, i + 1, l.name);
    AtJoin(s, e, l.gap, [COLON]);
    AtByte(s, j, COLON);
    PlainBytes();
    SpacesEnd(s, w.at, l.before);
    SpacesEnd(s, e, l.gap);
    AtSlice(s, i, raw);
    NamesAre(s, w.at, i, e, j);
    NamesRun(s, w, i, e, j);
    CopiedPut(s, w, l.before + (raw + (l.gap + [COLON])));
  }

  lemma AtSlice(s: seq<byte>, i: nat, t: seq<byte>)
    requires At(s, i, t)
    ensures i + |t| <= |s| && s[i..i + |t|] == t
  {}

  lemma NamesAre(s: seq<byte>, at: nat, i: nat, e: nat, j: nat)
    requires at <= |s| && i == SkipWs(s, at) && i < |s| && s[i] == QUOTE && StrEnd(s, i + 1) == Some(e)
    requires j == SkipWs(s, e) && j < |s| && s[j] == COLON && e - i <= MAX_NAME_BYTES
    ensures Names(s, at, i, e, j)
  {}

  lemma PlainBytes()
    ensures !IsSpace(QUOTE) && !IsSpace(COLON) && !IsSpace(COMMA)
    ensures !IsSpace(CLOSE_ARRAY) && !IsSpace(CLOSE_OBJECT)
  {}

  /** An item's name read, and its path known. */
  lemma LeadRun(s: seq<byte>, w: Walk, l: Lead, base: seq<PathElem>, top: PathElem, k: nat, floor: nat, u: Setup)
    requires GoodLead(l, top.Index?) && (top.Index? ==> top == Index(k)) && floor <= |base|
    requires At(s, w.at, HeadRaw(l))
    ensures w.at + |HeadRaw(l)| <= |s|
    ensures ItemRun(s, w, base + [top], floor, u)
              == ValueRun(s, Put(w, HeadRaw(l)), base + [StepOf(l, k, u)], floor, false, u)
  {
    hide ValueRun, NameRun, At, Spaces, GoodLetters, LettersRaw, Decoded;
    AtWithin(s, w.at, HeadRaw(l));
    if l.Named? {
      NameIs(s, w, l);
      assert NamedPath(base + [top], StrRaw(l.name), u) == base + [StepOf(l, k, u)];
    } else {
      PutNothing(w);
    }
  }

  lemma PutNothing(w: Walk)
    ensures Put(w, []) == w
  {
    assert w.out + [] == w.out;
  }

  /** A value's first byte reached. */
  lemma ValueAt(s: seq<byte>, w: Walk, pad: seq<byte>, d: Doc, path: seq<PathElem>, floor: nat, u: Setup)
    requires At(s, w.at, pad) && Spaces(pad) && At(s, w.at + |pad|, Raw(d)) && Good(d) && floor <= |path|
    ensures w.at + |pad| < |s| && Begins(s[w.at + |pad|], d)
    ensures ValueRun(s, w, path, floor, false, u) == StartRun(s, Put(w, pad), path, floor, u)
  {
    hide *;
    var i := w.at + |pad|;
    AtFirst(s, i, d);
    BeginsPlain(s[i], d);
    SpacesEnd(s, w.at, pad);
    StartIs(s, w, path, floor, u);
    CopiedPut(s, w, pad);
  }

  lemma AfterEmpty(w: Walk, isArray: bool, gap: seq<byte>, path: seq<PathElem>, u: Setup)
    ensures After(w, Empty(isArray, gap), path, u) == Put(w, [Opening(isArray)] + (gap + [Closing(isArray)]))
  {
    assert w.calls + [] == w.calls;
  }

  lemma BracketBytes(isArray: bool)
    ensures !IsSpace(Opening(isArray)) && !IsSpace(Closing(isArray)) && Closing(isArray) != COMMA
  {}

  lemma EmptyRun(s: seq<byte>, v: Walk, isArray: bool, gap: seq<byte>, path: seq<PathElem>, floor: nat, u: Setup)
    requires Spaces(gap) && At(s, v.at, [Opening(isArray)] + (gap + [Closing(isArray)]))
    requires floor <= |path| < floor + MAX_DEPTH
    ensures v.at < |s| && After(v, Empty(isArray, gap), path, u).at <= |s|
    ensures StartRun(s, v, path, floor, u) == ValueRun(s, After(v, Empty(isArray, gap), path, u), path, floor, true, u)
  {
    hide *;
    var raw := [Opening(isArray)] + (gap + [Closing(isArray)]);
    var i := v.at + 1 + |gap|;
    AtJoin(s, v.at, [Opening(isArray)], gap + [Closing(isArray)]);
    AtByte(s, v.at, Opening(isArray));
    AtJoin(s, v.at + 1, gap, [Closing(isArray)]);
    AtByte(s, i, Closing(isArray));
    BracketBytes(isArray);
    SpacesEnd(s, v.at + 1, gap);
    OpenStep(s, v, path, floor, isArray, u);
    CopiedPut(s, v, raw);
    AfterEmpty(v, isArray, gap, path, u);
  }

  /** The first byte of an item that is no space closes nothing. */
  lemma ItemsFirst(s: seq<byte>, i: nat, items: Items, isArray: bool)
    requires GoodItems(items, isArray) && At(s, i, ItemsRaw(items, isArray))
    ensures i <= |s| && SkipWs(s, i) < |s| && s[SkipWs(s, i)] != Closing(isArray)
  {
    hide *;
    ItemsParts(items, isArray);
    ItemsAt(s, i, items, isArray);
    var l := items.lead;
    if l.Slot? {
      LeadSlot(l, isArray);
      var j := i + |l.pad|;
      AtFirst(s, j, items.value);
      BeginsPlain(s[j], items.value);
      SpacesEnd(s, i, l.pad);
      ClosingIs(isArray);
    } else {
      LeadNamed(l, isArray);
      var j := i + |l.before|;
      AtJoin(s, i, l.before, StrRaw(l.name) + (l.gap + [COLON]));
      AtJoin(s, j, StrRaw(l.name), l.gap + [COLON]);
      StrFirst(l.name);
      AtJoin(s, j, [QUOTE], LettersRaw(l.name) + [QUOTE]);
      AtByte(s, j, QUOTE);
      PlainBytes();
      SpacesEnd(s, i, l.before);
      ClosingIs(isArray);
    }
  }

  lemma ClosingIs(isArray: bool)
    ensures Closing(isArray) == (if isArray then CLOSE_ARRAY else CLOSE_OBJECT) && Closing(isArray) != QUOTE
  {}

  lemma StrFirst(cs: seq<Letter>)
    ensures StrRaw(cs) == [QUOTE] + (LettersRaw(cs) + [QUOTE])
  {}

  lemma LeadSlot(l: Lead, isArray: bool)
    requires l.Slot?
    ensures HeadRaw(l) == [] && (GoodLead(l, isArray) ==> Spaces(l.pad) && isArray)
  {}

  lemma LeadNamed(l: Lead, isArray: bool)
    requires l.Named?
    ensures HeadRaw(l) == l.before + (StrRaw(l.name) + (l.gap + [COLON]))
    ensures GoodLead(l, isArray) ==> Spaces(l.before) && Spaces(l.pad) && !isArray
  {}

  lemma ItemsParts(items: Items, isArray: bool)
    requires GoodItems(items, isArray)
    ensures GoodLead(items.lead, isArray) && Spaces(items.lead.pad) && Good(items.value) && Spaces(items.after)
    ensures items.More? ==> GoodItems(items.rest, isArray) && ItemsDepth(items.rest) <= ItemsDepth(items)
    ensures Depth(items.value) <= ItemsDepth(items)
  {}

  /** What comes after an item, its whitespace not counted. */
  function TailRaw(items: Items, isArray: bool): seq<byte> {
    if items.Last? then [Closing(isArray)] else [COMMA] + ItemsRaw(items.rest, isArray)
  }

  lemma ItemsAre(items: Items, isArray: bool)
    ensures ItemsRaw(items, isArray)
      == (HeadRaw(items.lead) + items.lead.pad) + (Raw(items.value) + (items.after + TailRaw(items, isArray)))
  {
    LeadIs(items.lead);
  }

  /** Where the parts of an item stand. */
  lemma ItemsAt(s: seq<byte>, i: nat, items: Items, isArray: bool)
    ensures var l, d, j := items.lead, items.value, i + |HeadRaw(items.lead)| + |items.lead.pad|;
            At(s, i, ItemsRaw(items, isArray)) <==>
            && At(s, i, HeadRaw(l)) && At(s, i + |HeadRaw(l)|, l.pad) && At(s, j, Raw(d))
            && At(s, j + |Raw(d)|, items.after) && At(s, j + |Raw(d)| + |items.after|, TailRaw(items, isArray))
  {
    hide *;
    var l, d, j := items.lead, items.value, i + |HeadRaw(items.lead)| + |items.lead.pad|;
    ItemsAre(items, isArray);
    AtJoin(s, i, HeadRaw(l) + l.pad, Raw(d) + (items.after + TailRaw(items, isArray)));
    AtJoin(s, i, HeadRaw(l), l.pad);
    AtJoin(s, j, Raw(d), items.after + TailRaw(items, isArray));
    AtJoin(s, j + |Raw(d)|, items.after, TailRaw(items, isArray));
  }

  /** Where an item's value ends. */
  function AfterValue(w: Walk, items: Items, path: seq<PathElem>, k: nat, u: Setup): (r: Walk)
    ensures r.at == w.at + |HeadRaw(items.lead)| + |items.lead.pad| + |Raw(items.value)|
  {
    After(Put(Put(w, HeadRaw(items.lead)), items.lead.pad), items.value, path + [StepOf(items.lead, k, u)], u)
  }

  lemma Regroup4<T>(out: seq<T>, a: seq<T>, b: seq<T>, c: seq<T>, d: seq<T>)
    ensures out + (a + (b + (c + d))) == (((out + a) + b) + c) + d
  {}

  lemma Regroup5<T>(out: seq<T>, a: seq<T>, b: seq<T>, c: seq<T>, d: seq<T>, e: seq<T>)
    ensures out + (a + (b + (c + (d + e)))) == ((((out + a) + b) + c) + d) + e
  {
    Regroup4(out, a, b, c, d + e);
    assert ((((out + a) + b) + c) + (d + e)) == ((((out + a) + b) + c) + d) + e;
  }

  /** The walk over the items of a bracket, item by item. */
  lemma ItemsGrow(w: Walk, items: Items, isArray: bool, base: seq<PathElem>, k: nat, u: Setup)
    ensures var v := Put(AfterValue(w, items, base, k, u), items.after);
            && (items.Last? ==> AfterItems(w, items, isArray, base, k, u) == Put(v, [Closing(isArray)]))
            && (items.More? ==>
                  AfterItems(w, items, isArray, base, k, u)
                      == AfterItems(Put(v, [COMMA]), items.rest, isArray, base, k + 1, u))
  {
    var inner := base + [StepOf(items.lead, k, u)];
    var head, written := LeadRaw(items.lead), Substituted(items.value, inner, w.calls, u);
    var shown := w.calls + Shown(items.value, inner, u);
    var v := AfterValue(w, items, base, k, u);
    ValueGrown(w, items, base, k, u);
    hide *;
    if items.Last? {
      LastGrown(w, items, isArray, base, k, u);
      Regroup4(w.out, head, written, items.after, [Closing(isArray)]);
      PutIs(v, items.after);
      PutIs(Put(v, items.after), [Closing(isArray)]);
    } else {
      MoreGrown(w, items, isArray, base, k, u);
      Regroup5(w.out, head, written, items.after, [COMMA],
        ItemsSubstituted(items.rest, isArray, base, k + 1, shown, u));
      assert w.calls + (Shown(items.value, inner, u) + ItemsShown(items.rest, base, k + 1, u))
          == shown + ItemsShown(items.rest, base, k + 1, u);
      PutIs(v, items.after);
      PutIs(Put(v, items.after), [COMMA]);
      AfterItemsIs(Put(Put(v, items.after), [COMMA]), items.rest, isArray, base, k + 1, u);
    }
  }

  lemma PutIs(w: Walk, t: seq<byte>)
    ensures Put(w, t) == Walk(w.at + |t|, w.out + t, w.calls)
  {}

  lemma AfterItemsIs(w: Walk, items: Items, isArray: bool, base: seq<PathElem>, k: nat, u: Setup)
    ensures AfterItems(w, items, isArray, base, k, u)
      == Walk(w.at + |ItemsRaw(items, isArray)|, w.out + ItemsSubstituted(items, isArray, base, k, w.calls, u),
              w.calls + ItemsShown(items, base, k, u))
  {}

  lemma ValueGrown(w: Walk, items: Items, base: seq<PathElem>, k: nat, u: Setup)
    ensures var inner := base + [StepOf(items.lead, k, u)];
            AfterValue(w, items, base, k, u)
              == Walk(w.at + |LeadRaw(items.lead)| + |Raw(items.value)|,
                      (w.out + LeadRaw(items.lead)) + Substituted(items.value, inner, w.calls, u),
                      w.calls + Shown(items.value, inner, u))
  {
    LeadIs(items.lead);
    PutPut(w, HeadRaw(items.lead), items.lead.pad);
  }

  lemma LastGrown(w: Walk, items: Items, isArray: bool, base: seq<PathElem>, k: nat, u: Setup)
    requires items.Last?
    ensures var inner, close := base + [StepOf(items.lead, k, u)], [Closing(isArray)];
            AfterItems(w, items, isArray, base, k, u)
              == Walk(w.at + |LeadRaw(items.lead)| + |Raw(items.value)| + |items.after| + 1,
                      w.out + (LeadRaw(items.lead)
                          + (Substituted(items.value, inner, w.calls, u) + (items.after + close))),
                      w.calls + Shown(items.value, inner, u))
  {
    assert Shown(items.value, base + [StepOf(items.lead, k, u)], u) + []
        == Shown(items.value, base + [StepOf(items.lead, k, u)], u);
  }

  lemma MoreGrown(w: Walk, items: Items, isArray: bool, base: seq<PathElem>, k: nat, u: Setup)
    requires items.More?
    ensures var inner := base + [StepOf(items.lead, k, u)];
            var shown := w.calls + Shown(items.value, inner, u);
            var rest := ItemsSubstituted(items.rest, isArray, base, k + 1, shown, u);
            AfterItems(w, items, isArray, base, k, u)
              == Walk(w.at + |LeadRaw(items.lead)| + |Raw(items.value)| + |items.after| + 1
                  + |ItemsRaw(items.rest, isArray)|,
                      w.out + (LeadRaw(items.lead) +
                               (Substituted(items.value, inner, w.calls, u) + (items.after + ([COMMA] + rest)))),
                      w.calls + (Shown(items.value, inner, u) + ItemsShown(items.rest, base, k + 1, u)))
  {}

  /** The whitespace after a value, and the byte after that. */
  lemma TailAt(s: seq<byte>, w: Walk, after: seq<byte>, c: byte, base: seq<PathElem>, top: PathElem, floor: nat,
      u: Setup)
    requires At(s, w.at, after) && Spaces(after) && At(s, w.at + |after|, [c]) && !IsSpace(c) && floor <= |base|
    ensures w.at <= |s| && w.at + |after| < |s| && s[w.at + |after|] == c
    ensures ValueRun(s, w, base + [top], floor, true, u) == NextRun(s, Put(w, after), base + [top], floor, u)
    ensures c == COMMA || c == CLOSE_ARRAY || c == CLOSE_OBJECT ==> Ends(s, w.at)
    ensures Copied(s, Put(w, after), w.at + |after| + 1) == Put(Put(w, after), [c])
  {
    hide ValueRun, NextRun, SkipWs;
    AtByte(s, w.at + |after|, c);
    SpacesEnd(s, w.at, after);
    NextIs(s, w, base + [top], floor, u);
    CopiedPut(s, w, after);
    CopiedPut(s, Put(w, after), [c]);
    if after != [] { assert s[w.at] == s[w.at..w.at + |after|][0]; }
  }
}

/**
 * Rewriting is pure substitution (internal/jsonx/rewrite.go:73-94): the walker takes exactly the JSON texts
 * within its limits, and gives back each with its visited scalars replaced and every other byte as it was.
 */
module JsonRewrite {
  import opened Sections
  import opened JsonScan
  import opened JsonNumber
  import opened JsonText
  import opened JsonWalk

  lemma LastStep(s: seq<byte>, w: Walk, after: seq<byte>, base: seq<PathElem>, top: PathElem, floor: nat, u: Setup)
    requires At(s, w.at, after) && Spaces(after) && At(s, w.at + |after|, [Closing(top.Index?)]) && floor <= |base|
    ensures w.at + |after| + 1 <= |s| && Ends(s, w.at)
    ensures ValueRun(s, w, base + [top], floor, true, u)
      == ValueRun(s, Put(Put(w, after), [Closing(top.Index?)]), base, floor, true, u)
  {
    hide *;
    var c := Closing(top.Index?);
    BracketBytes(top.Index?);
    ClosingIs(top.Index?);
    TailAt(s, w, after, c, base, top, floor, u);
    FollowStep(s, Put(w, after), base, top, floor, u);
  }

  lemma CommaStep(s: seq<byte>, w: Walk, after: seq<byte>, base: seq<PathElem>, top: PathElem, floor: nat, u: Setup)
    requires At(s, w.at, after) && Spaces(after) && At(s, w.at + |after|, [COMMA]) && floor <= |base|
    ensures w.at + |after| + 1 <= |s| && Ends(s, w.at)
    ensures ValueRun(s, w, base + [top], floor, true, u)
      == ItemRun(s, Put(Put(w, after), [COMMA]), base + [if top.Index? then Index(top.i + 1) else top], floor, u)
  {
    hide *;
    PlainBytes();
    TailAt(s, w, after, COMMA, base, top, floor, u);
    FollowStep(s, Put(w, after), base, top, floor, u);
  }

  lemma FullIs(w: Walk, d: Doc, path: seq<PathElem>, u: Setup)
    requires d.Full?
    ensures After(w, d, path, u) == AfterItems(Put(w, [Opening(d.isArray)]), d.items, d.isArray, path, 0, u)
    ensures Raw(d) == [Opening(d.isArray)] + ItemsRaw(d.items, d.isArray)
    ensures Good(d) == GoodItems(d.items, d.isArray) && Depth(d) == 1 + ItemsDepth(d.items)
  {
    assert (w.out + [Opening(d.isArray)]) + ItemsSubstituted(d.items, d.isArray, path, 0, w.calls, u)
        == w.out + ([Opening(d.isArray)] + ItemsSubstituted(d.items, d.isArray, path, 0, w.calls, u));
  }

  lemma EmptyIs(d: Doc)
    requires d.Empty?
    ensures Raw(d) == [Opening(d.isArray)] + (d.gap + [Closing(d.isArray)])
    ensures Good(d) == Spaces(d.gap) && Depth(d) == 1
  {}

  lemma ScalarStep(s: seq<byte>, v: Walk, d: Doc, path: seq<PathElem>, floor: nat, u: Setup)
    requires Scalar(d) && Good(d) && At(s, v.at, Raw(d)) && Stops(s, v.at + |Raw(d)|, d) && floor <= |path|
    ensures v.at + |Raw(d)| <= |s| && v.at < |s|
    ensures StartRun(s, v, path, floor, u) == ValueRun(s, After(v, d, path, u), path, floor, true, u)
  {
    hide *;
    AtFirst(s, v.at, d);
    BeginsPlain(s[v.at], d);
    ScalarRunIs(s, v, d, path, u);
    ScalarIs(s, v, path, floor, u);
  }

  lemma Bracket(d: Doc, c: byte)
    ensures Begins(c, d) && d.Full? ==> c == Opening(d.isArray)
    ensures Scalar(d) || d.Empty? || d.Full?
    ensures Fresh(true) == Index(0) && Fresh(false).Key?
  {}

  /** The walker goes over a value as its tree says. */
  lemma {:induction false} DocRun(
      s: seq<byte>, w: Walk, pad: seq<byte>, d: Doc, path: seq<PathElem>, floor: nat, u: Setup)
    requires At(s, w.at, pad) && Spaces(pad) && At(s, w.at + |pad|, Raw(d)) && Good(d)
    requires Ends(s, w.at + |pad| + |Raw(d)|) && floor <= |path| && |path| - floor + Depth(d) <= MAX_DEPTH
    ensures w.at + |pad| + |Raw(d)| <= |s|
    ensures ValueRun(s, w, path, floor, false, u) == ValueRun(s, After(Put(w, pad), d, path, u), path, floor, true, u)
    decreases d
  {
    hide *;
    var v := Put(w, pad);
    ValueAt(s, w, pad, d, path, floor, u);
    AtWithin(s, v.at, Raw(d));
    Bracket(d, s[v.at]);
    if Scalar(d) {
      EndsStops(s, v.at + |Raw(d)|, d);
      ScalarStep(s, v, d, path, floor, u);
    } else if d.Empty? {
      EmptyIs(d);
      EmptyRun(s, v, d.isArray, d.gap, path, floor, u);
    } else {
      FullIs(v, d, path, u);
      var inside := Put(v, [Opening(d.isArray)]);
      AtJoin(s, v.at, [Opening(d.isArray)], ItemsRaw(d.items, d.isArray));
      ItemsFirst(s, inside.at, d.items, d.isArray);
      OpenStep(s, v, path, floor, d.isArray, u);
      CopiedPut(s, v, [Opening(d.isArray)]);
      ItemsRun(s, inside, d.items, d.isArray, path, Fresh(d.isArray), 0, floor, u);
    }
  }

  /** The walker goes over the items of a bracket, each with its own path, up to the closing bracket. */
  lemma {:induction false} ItemsRun(
      s: seq<byte>, w: Walk, items: Items, isArray: bool, base: seq<PathElem>, top: PathElem, k: nat, floor: nat,
      u: Setup)
    requires At(s, w.at, ItemsRaw(items, isArray)) && GoodItems(items, isArray)
    requires top.Index? == isArray && (isArray ==> top == Index(k)) && floor <= |base|
    requires |base| + 1 - floor + ItemsDepth(items) <= MAX_DEPTH
    ensures w.at + |ItemsRaw(items, isArray)| <= |s|
    ensures ItemRun(s, w, base + [top], floor, u)
      == ValueRun(s, AfterItems(w, items, isArray, base, k, u), base, floor, true, u)
    decreases items
  {
    hide *;
    var l, d, after := items.lead, items.value, items.after;
    var step := StepOf(l, k, u);
    ItemsParts(items, isArray);
    AtWithin(s, w.at, ItemsRaw(items, isArray));
    ItemsAt(s, w.at, items, isArray);
    LeadRun(s, w, l, base, top, k, floor, u);
    StepIs(l, isArray, k, u);
    var ended := AfterValue(w, items, base, k, u);
    ItemsGrow(w, items, isArray, base, k, u);
    TailIs(items, isArray);
    if items.Last? {
      LastStep(s, ended, after, base, step, floor, u);
    } else {
      AtJoin(s, ended.at + |after|, [COMMA], ItemsRaw(items.rest, isArray));
      CommaStep(s, ended, after, base, step, floor, u);
      ItemsRun(s, Put(Put(ended, after), [COMMA]), items.rest, isArray, base,
               if isArray then Index(k + 1) else step, k + 1, floor, u);
    }
    DocRun(s, Put(w, HeadRaw(l)), l.pad, d, base + [step], floor, u);
    AfterValueIs(w, items, base, k, u);
  }

  lemma AfterValueIs(w: Walk, items: Items, base: seq<PathElem>, k: nat, u: Setup)
    ensures AfterValue(w, items, base, k, u)
      == After(Put(Put(w, HeadRaw(items.lead)), items.lead.pad), items.value, base + [StepOf(items.lead, k, u)], u)
  {}

  lemma TailIs(items: Items, isArray: bool)
    ensures TailRaw(items, isArray)
      == if items.Last? then [Closing(isArray)] else [COMMA] + ItemsRaw(items.rest, isArray)
  {}

  lemma StepIs(l: Lead, isArray: bool, k: nat, u: Setup)
    requires GoodLead(l, isArray)
    ensures StepOf(l, k, u).Index? == isArray && l.Slot? == isArray && (isArray ==> StepOf(l, k, u) == Index(k))
  {}

  // And back: what the walker goes over is such a tree.

  lemma NumberFound(s: seq<byte>, v: Walk, path: seq<PathElem>, u: Setup) returns (d: Doc)
    requires v.at < |s| && NumberRun(s, v, path, u.visit).Some?
    ensures Scalar(d) && Good(d) && At(s, v.at, Raw(d)) && Stops(s, v.at + |Raw(d)|, d)
  {
    var (j, last) := NumEnd(s, v.at, NumStart);
    NumEndTakes(s, v.at, NumStart);
    var n := NumberRead(s[v.at..j]);
    d := Num(n);
  }

  lemma TextFound(s: seq<byte>, v: Walk, path: seq<PathElem>, u: Setup) returns (d: Doc)
    requires v.at < |s| && s[v.at] == QUOTE && TextRun(s, v, path, u.visit).Some?
    ensures Scalar(d) && Good(d) && At(s, v.at, Raw(d)) && Stops(s, v.at + |Raw(d)|, d)
  {
    var cs := StrRead(s, v.at + 1);
    d := Str(cs);
    AtByte(s, v.at, QUOTE);
    AtJoin(s, v.at, [QUOTE], LettersRaw(cs) + [QUOTE]);
  }

  lemma WordFound(s: seq<byte>, v: Walk, word: Word, path: seq<PathElem>, kind: Kind, u: Setup) returns (d: Doc)
    requires v.at < |s| && LiteralRun(s, v, WordRaw(word), path, kind, u.visit).Some?
    ensures Scalar(d) && Good(d) && At(s, v.at, Raw(d)) && Stops(s, v.at + |Raw(d)|, d)
  {
    d := Lit(word);
    assert s[v.at..][..|Raw(d)|] == s[v.at..v.at + |Raw(d)|];
  }

  lemma ScalarFound(s: seq<byte>, v: Walk, path: seq<PathElem>, u: Setup) returns (d: Doc)
    requires v.at < |s| && ScalarRun(s, v, path, u.visit).Some?
    ensures Scalar(d) && Good(d) && At(s, v.at, Raw(d)) && Stops(s, v.at + |Raw(d)|, d)
  {
    hide TextRun, NumberRun, LiteralRun, Good, Raw, At, Stops;
    var c := s[v.at];
    if c == QUOTE {
      d := TextFound(s, v, path, u);
    } else if c == 0x74 {
      d := WordFound(s, v, True, path, Bool, u);
    } else if c == 0x66 {
      d := WordFound(s, v, False, path, Bool, u);
    } else if c == 0x6E {
      d := WordFound(s, v, Nothing, path, Null, u);
    } else {
      d := NumberFound(s, v, path, u);
    }
  }

  /** The whitespace from i on, found and copied. */
  lemma SpacesCopied(s: seq<byte>, w: Walk) returns (t: seq<byte>)
    requires w.at <= |s|
    ensures At(s, w.at, t) && Spaces(t) && SkipWs(s, w.at) == w.at + |t|
    ensures w.at + |t| <= |s| && Copied(s, w, w.at + |t|) == Put(w, t)
  {
    t := s[w.at..SkipWs(s, w.at)];
    SpacesFound(s, w.at);
    CopiedPut(s, w, t);
  }

  lemma ByteCopied(s: seq<byte>, w: Walk)
    requires w.at < |s|
    ensures At(s, w.at, [s[w.at]]) && Copied(s, w, w.at + 1) == Put(w, [s[w.at]])
  {
    AtByte(s, w.at, s[w.at]);
    CopiedPut(s, w, [s[w.at]]);
  }

  lemma NameFound(s: seq<byte>, w: Walk) returns (l: Lead)
    requires w.at <= |s| && NameRun(s, w).Some?
    ensures l.Named? && GoodLead(l, false) && At(s, w.at, HeadRaw(l))
  {
    hide StrEnd, NameRun, LettersRaw, GoodLetters, NumStep;
    var i, e, j := RunNames(s, w);
    NamesParts(s, w.at, i, e, j);
    var cs := StrRead(s, i + 1);
    var before, gap := s[w.at..i], s[e..j];
    l := Named(before, cs, gap, []);
    AtByte(s, i, QUOTE);
    AtJoin(s, i, [QUOTE], LettersRaw(cs) + [QUOTE]);
    AtByte(s, j, COLON);
    SpacesFound(s, w.at);
    SpacesFound(s, e);
    HeadAt(s, w.at, l);
  }

  lemma NamesParts(s: seq<byte>, at: nat, i: nat, e: nat, j: nat)
    requires Names(s, at, i, e, j)
    ensures at <= |s| && i == SkipWs(s, at) && i < |s| && s[i] == QUOTE && StrEnd(s, i + 1) == Some(e)
    ensures j == SkipWs(s, e) && j < |s| && s[j] == COLON && e - i <= MAX_NAME_BYTES
  {}

  lemma HeadAt(s: seq<byte>, i: nat, l: Lead)
    requires l.Named? && At(s, i, l.before) && At(s, i + |l.before|, StrRaw(l.name))
    requires var j := i + |l.before| + |StrRaw(l.name)|; At(s, j, l.gap) && At(s, j + |l.gap|, [COLON])
    ensures At(s, i, HeadRaw(l))
  {
    hide *;
    LeadNamed(l, false);
    var j := i + |l.before|;
    AtJoin(s, j + |StrRaw(l.name)|, l.gap, [COLON]);
    AtJoin(s, j, StrRaw(l.name), l.gap + [COLON]);
    AtJoin(s, i, l.before, StrRaw(l.name) + (l.gap + [COLON]));
  }

  /** An item's name, if it has one, and the walk to its value. */
  lemma LeadFound(s: seq<byte>, w: Walk, base: seq<PathElem>, top: PathElem, k: nat, floor: nat, u: Setup)
    returns (l: Lead)
    requires w.at <= |s| && floor <= |base| && (top.Index? ==> top == Index(k))
    requires ItemRun(s, w, base + [top], floor, u).Some?
    ensures GoodLead(l, top.Index?) && At(s, w.at, HeadRaw(l)) && w.at + |HeadRaw(l)| <= |s|
    ensures ItemRun(s, w, base + [top], floor, u)
      == ValueRun(s, Put(w, HeadRaw(l)), base + [StepOf(l, k, u)], floor, false, u)
  {
    hide ValueRun, NameRun, StrEnd;
    if top.Index? {
      l := Slot([]);
      assert s[w.at..w.at] == [];
    } else {
      l := NameFound(s, w);
    }
    LeadRun(s, w, l, base, top, k, floor, u);
  }

  lemma Padded(l: Lead, isArray: bool, pad: seq<byte>, k: nat, u: Setup)
    requires GoodLead(l, isArray) && Spaces(pad)
    ensures var m := l.(pad := pad);
            && GoodLead(m, isArray) && HeadRaw(m) == HeadRaw(l) && m.pad == pad && StepOf(m, k, u) == StepOf(l, k, u)
  {}

  /** A value the walker goes over, and the whitespace before it. */
  ghost predicate Found(s: seq<byte>, w: Walk, pad: seq<byte>, d: Doc, path: seq<PathElem>, floor: nat, u: Setup) {
    && floor <= |path| && w.at + |pad| + |Raw(d)| <= |s|
    && At(s, w.at, pad) && Spaces(pad) && At(s, w.at + |pad|, Raw(d)) && Good(d)
    && |path| - floor + Depth(d) <= MAX_DEPTH
    && ValueRun(s, w, path, floor, false, u) == ValueRun(s, After(Put(w, pad), d, path, u), path, floor, true, u)
  }

  lemma FoundIs(s: seq<byte>, w: Walk, pad: seq<byte>, d: Doc, path: seq<PathElem>, floor: nat, u: Setup)
    requires floor <= |path| && w.at + |pad| + |Raw(d)| <= |s|
    requires At(s, w.at, pad) && Spaces(pad) && At(s, w.at + |pad|, Raw(d)) && Good(d)
    requires |path| - floor + Depth(d) <= MAX_DEPTH
    requires ValueRun(s, w, path, floor, false, u) == ValueRun(s, After(Put(w, pad), d, path, u), path, floor, true, u)
    ensures Found(s, w, pad, d, path, floor, u)
  {}

  lemma FoundParts(s: seq<byte>, w: Walk, pad: seq<byte>, d: Doc, path: seq<PathElem>, floor: nat, u: Setup)
    requires Found(s, w, pad, d, path, floor, u)
    ensures floor <= |path| && w.at + |pad| + |Raw(d)| <= |s| && |Raw(d)| > 0
    ensures At(s, w.at, pad) && Spaces(pad) && At(s, w.at + |pad|, Raw(d)) && Good(d)
    ensures |path| - floor + Depth(d) <= MAX_DEPTH
    ensures ValueRun(s, w, path, floor, false, u) == ValueRun(s, After(Put(w, pad), d, path, u), path, floor, true, u)
  {
    hide Raw, Good, Depth, ValueRun, After, At;
    AtFirst(s, w.at + |pad|, d);
  }

  lemma ScalarDepth(d: Doc)
    requires Scalar(d)
    ensures Depth(d) == 0
  {}

  lemma EmptyFound(s: seq<byte>, v: Walk, isArray: bool, path: seq<PathElem>, floor: nat, u: Setup)
    returns (gap: seq<byte>)
    requires floor <= |path| < floor + MAX_DEPTH && v.at < |s| && s[v.at] == Opening(isArray)
    requires SkipWs(s, v.at + 1) < |s| && s[SkipWs(s, v.at + 1)] == Closing(isArray)
    ensures Spaces(gap) && At(s, v.at, Raw(Empty(isArray, gap))) && v.at + |Raw(Empty(isArray, gap))| <= |s|
    ensures StartRun(s, v, path, floor, u) == ValueRun(s, After(v, Empty(isArray, gap), path, u), path, floor, true, u)
  {
    hide *;
    var j := SkipWs(s, v.at + 1);
    gap := s[v.at + 1..j];
    SpacesFound(s, v.at + 1);
    AtByte(s, v.at, Opening(isArray));
    AtByte(s, j, Closing(isArray));
    AtJoin(s, v.at + 1, gap, [Closing(isArray)]);
    AtJoin(s, v.at, [Opening(isArray)], gap + [Closing(isArray)]);
    EmptyIs(Empty(isArray, gap));
    EmptyRun(s, v, isArray, gap, path, floor, u);
    AtWithin(s, v.at, Raw(Empty(isArray, gap)));
  }

  lemma OpeningIs()
    ensures Opening(true) == OPEN_ARRAY && Opening(false) == OPEN_OBJECT
  {}

  /** What the walker goes over as a value is one. */
  lemma {:induction false} DocFound(s: seq<byte>, w: Walk, path: seq<PathElem>, floor: nat, u: Setup)
    returns (pad: seq<byte>, d: Doc)
    requires w.at <= |s| && floor <= |path| <= floor + MAX_DEPTH && ValueRun(s, w, path, floor, false, u).Some?
    ensures Found(s, w, pad, d, path, floor, u)
    decreases |s| - w.at, 0
  {
    hide *;
    pad := SpacesCopied(s, w);
    var v := Put(w, pad);
    StartIs(s, w, path, floor, u);
    OpeningIs();
    if s[v.at] == OPEN_OBJECT || s[v.at] == OPEN_ARRAY {
      var isArray := s[v.at] == OPEN_ARRAY;
      var i := SkipWs(s, v.at + 1);
      OpenStep(s, v, path, floor, isArray, u);
      if s[i] == Closing(isArray) {
        var gap := EmptyFound(s, v, isArray, path, floor, u);
        d := Empty(isArray, gap);
        EmptyIs(d);
      } else {
        ByteCopied(s, v);
        Bracket(Str([]), s[v.at]);
        var items := ItemsFound(s, Put(v, [s[v.at]]), isArray, path, Fresh(isArray), 0, floor, u);
        ItemsFoundParts(s, Put(v, [s[v.at]]), items, isArray, path, Fresh(isArray), 0, floor, u);
        d := Full(isArray, items);
        FullIs(v, d, path, u);
        AtJoin(s, v.at, [Opening(isArray)], ItemsRaw(items, isArray));
      }
    } else {
      ScalarIs(s, v, path, floor, u);
      d := ScalarFound(s, v, path, u);
      ScalarStep(s, v, d, path, floor, u);
      ScalarDepth(d);
    }
    AtWithin(s, v.at, Raw(d));
    FoundIs(s, w, pad, d, path, floor, u);
  }

  ghost predicate ItemsThere(
      s: seq<byte>, w: Walk, items: Items, isArray: bool, base: seq<PathElem>, top: PathElem, k: nat, floor: nat,
      u: Setup)
  {
    && floor <= |base| && w.at + |ItemsRaw(items, isArray)| <= |s|
    && At(s, w.at, ItemsRaw(items, isArray)) && GoodItems(items, isArray)
    && |base| + 1 - floor + ItemsDepth(items) <= MAX_DEPTH
    && ItemRun(s, w, base + [top], floor, u)
        == ValueRun(s, AfterItems(w, items, isArray, base, k, u), base, floor, true, u)
  }

  lemma ItemsFoundParts(
      s: seq<byte>, w: Walk, items: Items, isArray: bool, base: seq<PathElem>, top: PathElem, k: nat, floor: nat,
      u: Setup)
    requires ItemsThere(s, w, items, isArray, base, top, k, floor, u)
    ensures floor <= |base| && w.at + |ItemsRaw(items, isArray)| <= |s|
    ensures At(s, w.at, ItemsRaw(items, isArray)) && GoodItems(items, isArray)
    ensures |base| + 1 - floor + ItemsDepth(items) <= MAX_DEPTH
    ensures ItemRun(s, w, base + [top], floor, u)
             == ValueRun(s, AfterItems(w, items, isArray, base, k, u), base, floor, true, u)
  {}

  lemma ItemsAreThere(
      s: seq<byte>, w: Walk, items: Items, isArray: bool, base: seq<PathElem>, top: PathElem, k: nat, floor: nat,
      u: Setup)
    requires floor <= |base| && w.at + |ItemsRaw(items, isArray)| <= |s|
    requires At(s, w.at, ItemsRaw(items, isArray)) && GoodItems(items, isArray)
    requires |base| + 1 - floor + ItemsDepth(items) <= MAX_DEPTH
    requires ItemRun(s, w, base + [top], floor, u)
      == ValueRun(s, AfterItems(w, items, isArray, base, k, u), base, floor, true, u)
    ensures ItemsThere(s, w, items, isArray, base, top, k, floor, u)
  {}

  lemma ItemsGood(items: Items, isArray: bool)
    requires GoodLead(items.lead, isArray) && Good(items.value) && Spaces(items.after)
    requires items.More? ==> GoodItems(items.rest, isArray)
    ensures GoodItems(items, isArray)
    ensures items.More? && ItemsDepth(items.rest) > Depth(items.value) ==> ItemsDepth(items) == ItemsDepth(items.rest)
    ensures !(items.More? && ItemsDepth(items.rest) > Depth(items.value)) ==> ItemsDepth(items) == Depth(items.value)
  {}

  /** What follows a value inside a bracket: a comma, or the closing bracket. */
  lemma TailFound(s: seq<byte>, w: Walk, base: seq<PathElem>, top: PathElem, floor: nat, u: Setup)
    returns (after: seq<byte>)
    requires w.at <= |s| && floor <= |base| && ValueRun(s, w, base + [top], floor, true, u).Some?
    ensures At(s, w.at, after) && Spaces(after) && w.at + |after| < |s|
    ensures At(s, w.at + |after|, [COMMA]) || At(s, w.at + |after|, [Closing(top.Index?)])
  {
    hide *;
    after := SpacesCopied(s, w);
    NextIs(s, w, base + [top], floor, u);
    var v := Put(w, after);
    FollowStep(s, v, base, top, floor, u);
    ByteCopied(s, v);
  }

  /** What the walker goes over inside a bracket is items. */
  lemma {:induction false} ItemsFound(
      s: seq<byte>, w: Walk, isArray: bool, base: seq<PathElem>, top: PathElem, k: nat, floor: nat, u: Setup)
    returns (items: Items)
    requires w.at <= |s| && floor <= |base| && |base| + 1 <= floor + MAX_DEPTH
    requires top.Index? == isArray && (isArray ==> top == Index(k))
    requires ItemRun(s, w, base + [top], floor, u).Some?
    ensures ItemsThere(s, w, items, isArray, base, top, k, floor, u)
    decreases |s| - w.at, 1
  {
    hide *;
    var l := LeadFound(s, w, base, top, k, floor, u);
    var step := StepOf(l, k, u);
    StepIs(l, isArray, k, u);
    var v := Put(w, HeadRaw(l));
    var pad, d := DocFound(s, v, base + [step], floor, u);
    FoundParts(s, v, pad, d, base + [step], floor, u);
    Padded(l, isArray, pad, k, u);
    l := l.(pad := pad);
    var ended := After(Put(v, pad), d, base + [step], u);
    var after := TailFound(s, ended, base, step, floor, u);
    if At(s, ended.at + |after|, [COMMA]) {
      CommaStep(s, ended, after, base, step, floor, u);
      var rest := ItemsFound(s, Put(Put(ended, after), [COMMA]), isArray, base,
                             if isArray then Index(k + 1) else step, k + 1, floor, u);
      ItemsFoundParts(s, Put(Put(ended, after), [COMMA]), rest, isArray, base,
                      if isArray then Index(k + 1) else step, k + 1, floor, u);
      AtJoin(s, ended.at + |after|, [COMMA], ItemsRaw(rest, isArray));
      items := More(l, d, after, rest);
    } else {
      LastStep(s, ended, after, base, step, floor, u);
      items := Last(l, d, after);
    }
    TailIs(items, isArray);
    AfterValueIs(w, items, base, k, u);
    ItemsGrow(w, items, isArray, base, k, u);
    ItemsTogether(s, w, items, isArray, base, top, k, floor, u);
  }

  /** The pieces found one after another are items. */
  lemma ItemsTogether(
      s: seq<byte>, w: Walk, items: Items, isArray: bool, base: seq<PathElem>, top: PathElem, k: nat, floor: nat,
      u: Setup)
    requires GoodLead(items.lead, isArray) && Good(items.value) && Spaces(items.after)
    requires items.More? ==> GoodItems(items.rest, isArray) && |base| + 1 - floor + ItemsDepth(items.rest) <= MAX_DEPTH
    requires floor <= |base| && |base| + 1 - floor + Depth(items.value) <= MAX_DEPTH
    requires At(s, w.at, HeadRaw(items.lead)) && At(s, w.at + |HeadRaw(items.lead)|, items.lead.pad)
    requires var j := w.at + |HeadRaw(items.lead)| + |items.lead.pad|;
             && At(s, j, Raw(items.value)) && At(s, j + |Raw(items.value)|, items.after)
             && At(s, j + |Raw(items.value)| + |items.after|, TailRaw(items, isArray))
    requires ItemRun(s, w, base + [top], floor, u)
      == ValueRun(s, AfterItems(w, items, isArray, base, k, u), base, floor, true, u)
    ensures ItemsThere(s, w, items, isArray, base, top, k, floor, u)
  {
    hide *;
    ItemsGood(items, isArray);
    ItemsAt(s, w.at, items, isArray);
    AtWithin(s, w.at, ItemsRaw(items, isArray));
    ItemsAreThere(s, w, items, isArray, base, top, k, floor, u);
  }

  // The whole text.

  lemma WholeAt(t: Whole)
    requires Spaces(t.post)
    ensures var s, end := WholeRaw(t), |t.pre| + |Raw(t.doc)|;
            && At(s, 0, t.pre) && At(s, |t.pre|, Raw(t.doc)) && At(s, end, t.post) && |s| == end + |t.post|
            && Ends(s, end) && SkipWs(s, end) == |s|
  {
    hide Raw, Good, Depth, SkipWs;
    var s, end := WholeRaw(t), |t.pre| + |Raw(t.doc)|;
    assert s[0..|s|] == s;
    AtJoin(s, 0, t.pre, Raw(t.doc) + t.post);
    AtJoin(s, |t.pre|, Raw(t.doc), t.post);
    SpacesEnd(s, end, t.post);
    if t.post != [] { assert s[end] == s[end..end + |t.post|][0]; }
  }

  /**
   * A text within the limits is taken, and comes out with the visitor's answers in place of its scalars and
   * every other byte unchanged; the visitor is shown every scalar once, in order, with its path.
   */
  lemma RewriteSubstitutes(t: Whole, prefix: seq<PathElem>, u: Setup)
    requires GoodWhole(t)
    ensures RewriteRun(WholeRaw(t), prefix, u) == Some(Walk(
              |WholeRaw(t)|, t.pre + (Substituted(t.doc, prefix, [], u) + t.post), Shown(t.doc, prefix, u)))
  {
    hide *;
    var s, start := WholeRaw(t), Walk(0, [], []);
    WholeGood(t);
    WholeAt(t);
    DocRun(s, start, t.pre, t.doc, prefix, |prefix|, u);
    var w := After(Put(start, t.pre), t.doc, prefix, u);
    EndIs(s, w, prefix, u);
    CopiedPut(s, w, t.post);
    WholeWalk(t, prefix, u);
    RewriteIs(s, prefix, u, w);
  }

  lemma WholeGood(t: Whole)
    requires GoodWhole(t)
    ensures Spaces(t.pre) && Good(t.doc) && Depth(t.doc) <= MAX_DEPTH && Spaces(t.post)
  {}

  lemma RewriteIs(s: seq<byte>, prefix: seq<PathElem>, u: Setup, w: Walk)
    requires ValueRun(s, Walk(0, [], []), prefix, |prefix|, false, u) == Some(w) && SkipWs(s, w.at) == |s|
    ensures RewriteRun(s, prefix, u) == Some(Copied(s, w, |s|))
  {}

  lemma WholeWalk(t: Whole, prefix: seq<PathElem>, u: Setup)
    ensures Put(After(Put(Walk(0, [], []), t.pre), t.doc, prefix, u), t.post) == Walk(
              |WholeRaw(t)|, t.pre + (Substituted(t.doc, prefix, [], u) + t.post), Shown(t.doc, prefix, u))
  {
    var pre, post, done, shown := t.pre, t.post, Substituted(t.doc, prefix, [], u), Shown(t.doc, prefix, u);
    hide Raw, Substituted, Shown;
    NothingBefore(pre);
    NothingBefore(shown);
    assert (pre + done) + post == pre + (done + post);
  }

  lemma NothingBefore<T>(t: seq<T>)
    ensures [] + t == t
  {}

  /** A text is taken exactly when it is one JSON value within the limits, and whitespace around it. */
  lemma RewriteAccepts(s: seq<byte>, prefix: seq<PathElem>, u: Setup)
    ensures RewriteRun(s, prefix, u).Some? <==> exists t :: GoodWhole(t) && WholeRaw(t) == s
  {
    hide ValueRun, WholeRaw, GoodWhole, After;
    if RewriteRun(s, prefix, u).Some? { var t := WholeFound(s, prefix, u); }
    if t :| GoodWhole(t) && WholeRaw(t) == s { RewriteSubstitutes(t, prefix, u); }
  }

  lemma WholeFound(s: seq<byte>, prefix: seq<PathElem>, u: Setup) returns (t: Whole)
    requires RewriteRun(s, prefix, u).Some?
    ensures GoodWhole(t) && WholeRaw(t) == s
  {
    hide *;
    var start := Walk(0, [], []);
    RewriteParts(s, prefix, u);
    var pad, d := DocFound(s, start, prefix, |prefix|, u);
    FoundParts(s, start, pad, d, prefix, |prefix|, u);
    var w := After(Put(start, pad), d, prefix, u);
    EndIs(s, w, prefix, u);
    var post := s[w.at..SkipWs(s, w.at)];
    SpacesFound(s, w.at);
    t := Whole(pad, d, post);
    AtJoin(s, |pad|, Raw(d), post);
    AtJoin(s, 0, pad, Raw(d) + post);
    AllOf(s, t);
  }

  lemma RewriteParts(s: seq<byte>, prefix: seq<PathElem>, u: Setup)
    requires RewriteRun(s, prefix, u).Some?
    ensures var w := ValueRun(s, Walk(0, [], []), prefix, |prefix|, false, u); w.Some? && SkipWs(s, w.value.at) == |s|
    ensures MAX_DEPTH >= 0
  {
    hide ValueRun;
  }

  lemma AllOf(s: seq<byte>, t: Whole)
    requires At(s, 0, t.pre + (Raw(t.doc) + t.post)) && |s| == |t.pre| + |Raw(t.doc)| + |t.post|
    requires Spaces(t.pre) && Good(t.doc) && Depth(t.doc) <= MAX_DEPTH && Spaces(t.post)
    ensures GoodWhole(t) && WholeRaw(t) == s
  {
    hide Raw, Good, Depth;
    assert s[0..|s|] == s;
  }

  /** A visitor that replaces nothing. */
  ghost predicate Keeping(u: Setup) {
    u.visit.Some? ==> forall calls :: u.visit.value(calls).None?
  }

  lemma {:induction false} KeepingDoc(d: Doc, path: seq<PathElem>, before: seq<Call>, u: Setup)
    requires Keeping(u)
    ensures Substituted(d, path, before, u) == Raw(d)
    decreases d
  {
    if d.Full? { KeepingItems(d.items, d.isArray, path, 0, before, u); }
  }

  lemma {:induction false} KeepingItems(
      items: Items, isArray: bool, path: seq<PathElem>, k: nat, before: seq<Call>, u: Setup)
    requires Keeping(u)
    ensures ItemsSubstituted(items, isArray, path, k, before, u) == ItemsRaw(items, isArray)
    decreases items
  {
    var inner := path + [StepOf(items.lead, k, u)];
    KeepingDoc(items.value, inner, before, u);
    if items.More? {
      KeepingItems(items.rest, isArray, path, k + 1, before + Shown(items.value, inner, u), u);
    }
  }

  /** A visitor that replaces nothing gets the text back byte for byte. */
  lemma RewriteKeeps(s: seq<byte>, prefix: seq<PathElem>, u: Setup)
    requires Keeping(u) && RewriteRun(s, prefix, u).Some?
    ensures RewriteRun(s, prefix, u).value.out == s
  {
    hide RewriteRun, Raw, Good, Substituted;
    var t := WholeFound(s, prefix, u);
    RewriteSubstitutes(t, prefix, u);
    KeepingDoc(t.doc, prefix, [], u);
  }
}

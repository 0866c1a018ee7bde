/**
 * The two scanners agree (internal/jsonx/jsonx.go:81-242, object.go:36-117): on any text the walker takes as an
 * object, the byte scanner finds the first member of each name, and finds it at the same bytes.
 */
module JsonAgree {
  import opened Sections
  import opened JsonScan
  import opened JsonNumber
  import opened JsonText
  import opened JsonWalk
  import opened JsonRewrite
  import opened JsonArray
  import opened JsonObject
  import opened JsonMembers
  import L = JsonLoose

  // Strings.

  /** The letters of a string are passed over, and kept. */
  lemma {:induction false} LettersLoose(s: seq<byte>, i: nat, cs: seq<Letter>, into: seq<byte>)
    requires GoodLetters(cs) && At(s, i, LettersRaw(cs) + [QUOTE])
    ensures i <= |s| && L.LooseEnd(s, i) == Some(i + |LettersRaw(cs)| + 1)
    ensures |into| + |LettersRaw(cs)| <= MAX_NAME_BYTES ==> L.LooseName(s, i, into) == into + LettersRaw(cs)
    decreases |cs|
  {
    hide *;
    LettersSplit(cs);
    AtWithin(s, i, LettersRaw(cs) + [QUOTE]);
    L.LooseStep(s, i);
    if cs == [] {
      AtByte(s, i, QUOTE);
      L.NameStep(s, i, into);
      NoMore(into, LettersRaw(cs));
    } else {
      var c, rest := LetterRaw(cs[0]), LettersRaw(cs[1..]);
      assert (c + rest) + [QUOTE] == c + (rest + [QUOTE]);
      AtJoin(s, i, c, rest + [QUOTE]);
      LettersLoose(s, i + |c|, cs[1..], into + c);
      LetterLoose(s, i, cs[0], into);
      assert (into + c) + rest == into + (c + rest);
    }
  }

  lemma NoMore<T>(a: seq<T>, b: seq<T>)
    requires |b| == 0
    ensures a + b == a
  {}

  lemma LetterLoose(s: seq<byte>, i: nat, c: Letter, into: seq<byte>)
    requires GoodLetter(c) && At(s, i, LetterRaw(c)) && i + |LetterRaw(c)| <= |s|
    requires L.LooseEnd(s, i + |LetterRaw(c)|).Some?
    ensures |LetterRaw(c)| > 0 && L.LooseEnd(s, i) == L.LooseEnd(s, i + |LetterRaw(c)|)
    ensures |into| + |LetterRaw(c)| <= MAX_NAME_BYTES ==>
              L.LooseName(s, i, into) == L.LooseName(s, i + |LetterRaw(c)|, into + LetterRaw(c))
  {
    var raw := LetterRaw(c);
    forall k | 0 <= k < |raw| ensures s[i + k] == raw[k] { assert s[i + k] == s[i..i + |raw|][k]; }
    hide L.LooseEnd, L.LooseName, L.Kept;
    L.LooseStep(s, i);
    match c
    case Plain(b) =>
      L.NameStep(s, i, into);
      KeptIs(into, [s[i]]);
    case Escaped(b) =>
      assert s[i..i + 2] == raw;
      L.NameStep(s, i, into);
      KeptIs(into, raw);
    case Unicode(hex) =>
      UnicodeLoose(s, i, hex, into);
  }

  lemma KeptIs(into: seq<byte>, more: seq<byte>)
    ensures more != [] && |into| + |more| <= MAX_NAME_BYTES ==> L.Kept(into, more) == into + more
  {}

  lemma UnicodeLoose(s: seq<byte>, i: nat, hex: seq<byte>, into: seq<byte>)
    requires |hex| == 4 && HexAt(hex, 0, 4) && i + 6 <= |s| && s[i] == BACKSLASH && s[i + 1] == 0x75
    requires forall k :: 0 <= k < 4 ==> s[i + 2 + k] == hex[k]
    requires L.LooseEnd(s, i + 6).Some?
    ensures L.LooseEnd(s, i) == L.LooseEnd(s, i + 6)
    ensures |into| + 6 <= MAX_NAME_BYTES ==>
             L.LooseName(s, i, into) == L.LooseName(s, i + 6, into + ([BACKSLASH, 0x75] + hex))
  {
    hide L.LooseEnd, L.LooseName, L.Kept;
    L.LooseStep(s, i);
    HexLoose(s, i + 2, hex, into + [BACKSLASH, 0x75]);
    L.NameStep(s, i, into);
    assert s[i..i + 2] == [BACKSLASH, 0x75];
    KeptIs(into, s[i..i + 2]);
    assert into + [BACKSLASH, 0x75] + hex == into + ([BACKSLASH, 0x75] + hex);
  }

  lemma {:induction false} HexLoose(s: seq<byte>, i: nat, hex: seq<byte>, into: seq<byte>)
    requires (forall k :: 0 <= k < |hex| ==> IsHex(hex[k])) && i + |hex| <= |s|
    requires forall k :: 0 <= k < |hex| ==> s[i + k] == hex[k]
    requires L.LooseEnd(s, i + |hex|).Some?
    ensures L.LooseEnd(s, i) == L.LooseEnd(s, i + |hex|)
    ensures |into| + |hex| <= MAX_NAME_BYTES ==> L.LooseName(s, i, into) == L.LooseName(s, i + |hex|, into + hex)
    decreases |hex|
  {
    hide L.LooseEnd, L.LooseName, L.Kept;
    if hex == [] {
      assert into + hex == into;
    } else {
      HexLoose(s, i + 1, hex[1..], into + [hex[0]]);
      L.LooseStep(s, i);
      assert s[i + 0] == hex[0];
      L.NameStep(s, i, into);
      KeptIs(into, [s[i]]);
      assert into + [hex[0]] + hex[1..] == into + hex;
    }
  }

  lemma StrLoose(s: seq<byte>, i: nat, cs: seq<Letter>)
    requires GoodLetters(cs) && At(s, i, StrRaw(cs))
    ensures i < |s| && s[i] == QUOTE && L.LooseEnd(s, i + 1) == Some(i + |StrRaw(cs)|)
    ensures |StrRaw(cs)| <= MAX_NAME_BYTES ==> L.LooseName(s, i + 1, []) == LettersRaw(cs)
  {
    hide *;
    StrFirst(cs);
    AtJoin(s, i, [QUOTE], LettersRaw(cs) + [QUOTE]);
    AtByte(s, i, QUOTE);
    LettersLoose(s, i + 1, cs, []);
    NothingBefore(LettersRaw(cs));
  }

  // Brackets.

  /** Bytes that open and close nothing. */
  predicate Dull(t: seq<byte>) {
    forall k :: 0 <= k < |t| ==> !L.IsOpening(t[k]) && !L.IsClosing(t[k]) && t[k] != QUOTE
  }

  /** What is left once the brackets open at i, depth of them, are closed. */
  function Closed(s: seq<byte>, i: nat, depth: nat): Option<nat>
    requires i <= |s|
  {
    if depth == 0 then Some(i) else L.Balance(s, i, depth)
  }

  lemma {:induction false} DullPassed(s: seq<byte>, i: nat, t: seq<byte>, depth: int)
    requires At(s, i, t) && Dull(t)
    ensures i + |t| <= |s| && L.Balance(s, i, depth) == L.Balance(s, i + |t|, depth)
    decreases |t|
  {
    hide L.Balance;
    if t != [] {
      assert s[i] == s[i..i + |t|][0] == t[0];
      assert t == [t[0]] + t[1..];
      AtJoin(s, i, [t[0]], t[1..]);
      L.BalanceStep(s, i, depth);
      DullPassed(s, i + 1, t[1..], depth);
    }
  }

  lemma SpacesDull(t: seq<byte>)
    requires Spaces(t)
    ensures Dull(t)
  {}

  /** Bytes of a number or a word. */
  predicate Inner(t: seq<byte>) { forall k :: 0 <= k < |t| ==> !L.IsStop(t[k]) && t[k] != QUOTE && !L.IsOpening(t[k]) }

  lemma InnerJoin(a: seq<byte>, b: seq<byte>)
    requires Inner(a) && Inner(b)
    ensures Inner(a + b)
  {}

  lemma DigitsInner(t: seq<byte>)
    requires Digits(t)
    ensures Inner(t)
  {}

  lemma ByteInner(c: byte)
    requires c == MINUS || c == PLUS || c == POINT || c == 0x65 || c == 0x45
    ensures Inner([c]) && Inner([])
  {}

  lemma NumberInner(n: NumberText)
    requires GoodNumber(n)
    ensures Inner(NumberRaw(n))
  {
    ByteInner(MINUS);
    ByteInner(PLUS);
    ByteInner(POINT);
    DigitsInner(n.whole);
    if n.fraction.Some? {
      DigitsInner(n.fraction.value);
      InnerJoin([POINT], n.fraction.value);
    }
    if n.exponent.Some? {
      var e := n.exponent.value;
      ByteInner(e.mark);
      DigitsInner(e.digits);
      InnerJoin(e.sign, e.digits);
      InnerJoin([e.mark], e.sign + e.digits);
    }
    InnerJoin(FractionRaw(n.fraction), ExponentRaw(n.exponent));
    InnerJoin(n.whole, FractionRaw(n.fraction) + ExponentRaw(n.exponent));
    InnerJoin(if n.negative then [MINUS] else [], n.whole + (FractionRaw(n.fraction) + ExponentRaw(n.exponent)));
  }

  lemma ScalarInner(d: Doc)
    requires Good(d) && (d.Num? || d.Lit?)
    ensures Inner(Raw(d))
  {
    if d.Num? { NumberInner(d.number); }
  }

  lemma InnerDull(t: seq<byte>)
    requires Inner(t)
    ensures Dull(t)
  {}

  lemma StringPassed(s: seq<byte>, i: nat, cs: seq<Letter>, depth: int)
    requires GoodLetters(cs) && At(s, i, StrRaw(cs))
    ensures i + |StrRaw(cs)| <= |s| && L.Balance(s, i, depth) == L.Balance(s, i + |StrRaw(cs)|, depth)
  {
    hide *;
    StrLoose(s, i, cs);
    AtWithin(s, i, StrRaw(cs));
    L.BalanceStep(s, i, depth);
  }

  lemma BracketKinds(isArray: bool)
    ensures L.IsOpening(Opening(isArray)) && L.IsClosing(Closing(isArray)) && Closing(isArray) != QUOTE
    ensures Dull([COMMA]) && Dull([COLON])
  {}

  lemma ClosedIs(s: seq<byte>, i: nat, depth: nat)
    requires i <= |s|
    ensures Closed(s, i, depth) == if depth == 0 then Some(i) else L.Balance(s, i, depth)
  {}

  lemma OpenPassed(s: seq<byte>, i: nat, isArray: bool, depth: nat)
    requires At(s, i, [Opening(isArray)])
    ensures i + 1 <= |s| && L.Balance(s, i, depth) == Closed(s, i + 1, depth + 1)
  {
    hide *;
    BracketKinds(isArray);
    AtByte(s, i, Opening(isArray));
    L.BalanceStep(s, i, depth);
    ClosedIs(s, i + 1, depth + 1);
  }

  lemma ClosePassed(s: seq<byte>, i: nat, isArray: bool, depth: nat)
    requires At(s, i, [Closing(isArray)])
    ensures i + 1 <= |s| && Closed(s, i, depth + 1) == Closed(s, i + 1, depth)
  {
    hide *;
    BracketKinds(isArray);
    AtByte(s, i, Closing(isArray));
    ClosedIs(s, i, depth + 1);
    ClosedIs(s, i + 1, depth);
    NotBoth(s[i]);
    L.BalanceStep(s, i, depth + 1);
  }

  lemma NotBoth(c: byte)
    ensures !(L.IsOpening(c) && L.IsClosing(c))
  {}

  /** A lead, between brackets. */
  lemma LeadPassed(s: seq<byte>, i: nat, l: Lead, isArray: bool, depth: nat)
    requires GoodLead(l, isArray) && At(s, i, LeadRaw(l))
    ensures i + |LeadRaw(l)| <= |s| && L.Balance(s, i, depth) == L.Balance(s, i + |LeadRaw(l)|, depth)
  {
    hide *;
    LeadIs(l);
    AtJoin(s, i, HeadRaw(l), l.pad);
    GoodPad(l, isArray);
    SpacesDull(l.pad);
    DullPassed(s, i + |HeadRaw(l)|, l.pad, depth);
    if l.Slot? {
      LeadSlot(l, isArray);
    } else {
      NamedIs(l, isArray);
      var a := i + |l.before|;
      var b := a + |StrRaw(l.name)|;
      AtJoin(s, i, l.before, StrRaw(l.name) + (l.gap + [COLON]));
      AtJoin(s, a, StrRaw(l.name), l.gap + [COLON]);
      AtJoin(s, b, l.gap, [COLON]);
      SpacesDull(l.before);
      SpacesDull(l.gap);
      BracketKinds(true);
      DullPassed(s, i, l.before, depth);
      StringPassed(s, a, l.name, depth);
      DullPassed(s, b, l.gap, depth);
      DullPassed(s, b + |l.gap|, [COLON], depth);
    }
  }

  lemma GoodPad(l: Lead, isArray: bool)
    requires GoodLead(l, isArray)
    ensures Spaces(l.pad)
  {}

  lemma ItemsSplit(items: Items, isArray: bool)
    ensures ItemsRaw(items, isArray)
             == LeadRaw(items.lead) + (Raw(items.value) + (items.after + TailRaw(items, isArray)))
  {}

  /** A value between brackets changes nothing. */
  lemma {:induction false} DocPassed(s: seq<byte>, i: nat, d: Doc, depth: nat)
    requires Good(d) && At(s, i, Raw(d)) && depth > 0
    ensures i + |Raw(d)| <= |s| && L.Balance(s, i, depth) == L.Balance(s, i + |Raw(d)|, depth)
    decreases d
  {
    hide *;
    AtWithin(s, i, Raw(d));
    DocKinds(d);
    if d.Str? {
      StringPassed(s, i, d.letters, depth);
    } else if d.Num? || d.Lit? {
      ScalarInner(d);
      InnerDull(Raw(d));
      DullPassed(s, i, Raw(d), depth);
    } else {
      BracketsPassed(s, i, d, depth);
      ClosedIs(s, i + |Raw(d)|, depth);
    }
  }

  lemma DocKinds(d: Doc)
    ensures d.Str? ==> Raw(d) == StrRaw(d.letters) && (Good(d) ==> GoodLetters(d.letters))
    ensures d.Str? || d.Num? || d.Lit? || d.Empty? || d.Full?
  {}

  /** From a bracket to what closes it. */
  lemma {:induction false} BracketsPassed(s: seq<byte>, i: nat, d: Doc, depth: nat)
    requires Good(d) && At(s, i, Raw(d)) && (d.Empty? || d.Full?)
    ensures i + |Raw(d)| <= |s| && L.Balance(s, i, depth) == Closed(s, i + |Raw(d)|, depth)
    decreases d, 0
  {
    hide *;
    AtWithin(s, i, Raw(d));
    if d.Empty? {
      EmptyIs(d);
      AtJoin(s, i, [Opening(d.isArray)], d.gap + [Closing(d.isArray)]);
      AtJoin(s, i + 1, d.gap, [Closing(d.isArray)]);
      OpenPassed(s, i, d.isArray, depth);
      SpacesDull(d.gap);
      DullPassed(s, i + 1, d.gap, depth + 1);
      ClosedIs(s, i + 1, depth + 1);
      ClosedIs(s, i + 1 + |d.gap|, depth + 1);
      ClosePassed(s, i + 1 + |d.gap|, d.isArray, depth);
    } else {
      FullParts(d);
      AtJoin(s, i, [Opening(d.isArray)], ItemsRaw(d.items, d.isArray));
      OpenPassed(s, i, d.isArray, depth);
      ItemsPassed(s, i + 1, d.items, d.isArray, depth);
    }
  }

  lemma FullParts(d: Doc)
    requires d.Full?
    ensures Raw(d) == [Opening(d.isArray)] + ItemsRaw(d.items, d.isArray) && (Good(d) ==> GoodItems(d.items, d.isArray))
  {}

  lemma {:induction false} ItemsPassed(s: seq<byte>, i: nat, items: Items, isArray: bool, depth: nat)
    requires GoodItems(items, isArray) && At(s, i, ItemsRaw(items, isArray))
    ensures i + |ItemsRaw(items, isArray)| <= |s|
    ensures Closed(s, i, depth + 1) == Closed(s, i + |ItemsRaw(items, isArray)|, depth)
    decreases items, 1
  {
    hide *;
    ItemsParts(items, isArray);
    ItemsSplit(items, isArray);
    TailIs(items, isArray);
    AtWithin(s, i, ItemsRaw(items, isArray));
    var a := i + |LeadRaw(items.lead)|;
    var b := a + |Raw(items.value)|;
    var c := b + |items.after|;
    AtJoin(s, i, LeadRaw(items.lead), Raw(items.value) + (items.after + TailRaw(items, isArray)));
    AtJoin(s, a, Raw(items.value), items.after + TailRaw(items, isArray));
    AtJoin(s, b, items.after, TailRaw(items, isArray));
    LeadPassed(s, i, items.lead, isArray, depth + 1);
    DocPassed(s, a, items.value, depth + 1);
    SpacesDull(items.after);
    DullPassed(s, b, items.after, depth + 1);
    ClosedIs(s, i, depth + 1);
    ClosedIs(s, c, depth + 1);
    if items.More? {
      AtJoin(s, c, [COMMA], ItemsRaw(items.rest, isArray));
      BracketKinds(isArray);
      DullPassed(s, c, [COMMA], depth + 1);
      ClosedIs(s, c + 1, depth + 1);
      ItemsPassed(s, c + 1, items.rest, isArray, depth);
    } else {
      ClosePassed(s, c, isArray, depth);
    }
  }

  // Values.

  lemma {:induction false} StopsThere(s: seq<byte>, i: nat, t: seq<byte>)
    requires At(s, i, t) && Inner(t) && Ends(s, i + |t|)
    ensures i <= |s| && L.StopAt(s, i) == i + |t|
    decreases |t|
  {
    hide L.StopAt;
    L.StopStep(s, i);
    if t != [] {
      assert s[i] == s[i..i + |t|][0] == t[0];
      assert t == [t[0]] + t[1..];
      AtJoin(s, i, [t[0]], t[1..]);
      StopsThere(s, i + 1, t[1..]);
    }
  }

  /** The byte scanner passes over exactly a value. */
  lemma ValuePassed(s: seq<byte>, i: nat, d: Doc)
    requires Good(d) && At(s, i, Raw(d)) && Ends(s, i + |Raw(d)|)
    ensures i < |s| && SkipWs(s, i) == i && L.LooseValue(s, i) == Some(i + |Raw(d)|)
  {
    hide *;
    AtFirst(s, i, d);
    BeginsPlain(s[i], d);
    StaysPut(s, i);
    L.ValueStep(s, i);
    DocKinds(d);
    FirstKinds(s[i], d);
    if d.Str? {
      StrLoose(s, i, d.letters);
    } else if d.Num? || d.Lit? {
      ScalarInner(d);
      StopsThere(s, i, Raw(d));
    } else {
      BracketsPassed(s, i, d, 0);
      ClosedIs(s, i + |Raw(d)|, 0);
    }
  }

  lemma FirstKinds(c: byte, d: Doc)
    requires Begins(c, d)
    ensures d.Str? ==> c == QUOTE
    ensures d.Num? || d.Lit? ==> c != QUOTE && !L.IsOpening(c)
    ensures d.Empty? || d.Full? ==> L.IsOpening(c)
  {}

  // Members.

  /** A name and its colon, as both read them. */
  lemma NamePassed(s: seq<byte>, w: Walk) returns (cs: seq<Letter>)
    requires w.at <= |s| && NameRun(s, w).Some?
    ensures var i, n := SkipWs(s, w.at), NameRun(s, w).value;
            && i < |s| && s[i] == QUOTE && n.0 == StrRaw(cs) && GoodLetters(cs)
            && (SkipWs(s, n.1.at) < |s| ==> L.LooseMember(s, i) == Some((LettersRaw(cs), SkipWs(s, n.1.at))))
  {
    hide *;
    var l := NameFound(s, w);
    NameIs(s, w, l);
    NamedIs(l, false);
    cs := l.name;
    var i := w.at + |l.before|;
    var j := i + |StrRaw(cs)|;
    AtJoin(s, w.at, l.before, StrRaw(cs) + (l.gap + [COLON]));
    AtJoin(s, i, StrRaw(cs), l.gap + [COLON]);
    AtJoin(s, j, l.gap, [COLON]);
    StrLoose(s, i, cs);
    AtByte(s, j + |l.gap|, COLON);
    BracketPlain();
    ColonPlain();
    SpacesEnd(s, w.at, l.before);
    SpacesEnd(s, j, l.gap);
    L.MemberStep(s, i);
  }

  lemma ColonPlain()
    ensures !IsSpace(COLON)
  {}

  lemma NextEnds(s: seq<byte>, i: nat)
    requires i <= |s| && SkipWs(s, i) < |s| && (s[SkipWs(s, i)] == COMMA || s[SkipWs(s, i)] == CLOSE_OBJECT)
    ensures Ends(s, i)
  {}

  /** The first of the members whose name, as it is written, is the key. */
  function First(members: seq<Entry>, names: seq<seq<byte>>, key: seq<byte>): L.Range
    requires |names| == |members|
    decreases |members|
  {
    if members == [] then L.Missing
    else if names[0] == key then L.Found(members[0].start, members[0].end)
    else First(members[1..], names[1..], key)
  }

  /** What is between the quotes of a name without escapes is the name. */
  ghost predicate NameIn(e: Entry, name: seq<byte>) { !e.escaped ==> e.name == name }

  lemma NameBytes(cs: seq<Letter>, decode: seq<byte> -> seq<byte>)
    ensures BACKSLASH !in StrRaw(cs) ==> Decoded(StrRaw(cs), decode) == LettersRaw(cs)
  {
    var raw := StrRaw(cs);
    assert raw[1..|raw| - 1] == LettersRaw(cs);
  }

  /** One member: the walker's entry, and what the byte scanner makes of the same bytes. */
  lemma EntryAgrees(s: seq<byte>, w: Walk, choose: Chooser, decode: seq<byte> -> seq<byte>, key: seq<byte>)
    returns (name: seq<byte>)
    requires w.at <= |s| && EntryRun(s, w, choose, decode).Some? && Ends(s, EntryRun(s, w, choose, decode).value.1.at)
    ensures var (e, v) := EntryRun(s, w, choose, decode).value;
            && NameIn(e, name) && e.end == v.at
            && L.RangeFrom(s, w.at, key) == if name == key then L.Found(e.start, e.end) else L.RangeFrom(s, v.at, key)
  {
    hide *;
    EntryIs(s, w, choose, decode);
    var cs := NamePassed(s, w);
    var (raw, after) := NameRun(s, w).value;
    var i, text := SkipWs(s, after.at), Decoded(raw, decode);
    DroppedIs(after, i);
    var d := MemberFound(s, Dropped(after, i), text, Setup(choose(text), decode));
    ValuePassed(s, i, d);
    L.RangeStep(s, w.at, key);
    name := LettersRaw(cs);
    NameBytes(cs, decode);
    QuoteKinds();
    NameInIs(EntryRun(s, w, choose, decode).value.0, name);
  }

  lemma QuoteKinds()
    ensures QUOTE != CLOSE_OBJECT && QUOTE != COMMA && COMMA != CLOSE_OBJECT
  {}

  lemma NameInIs(e: Entry, name: seq<byte>)
    ensures NameIn(e, name) <==> (!e.escaped ==> e.name == name)
  {}

  ghost predicate NamesIn(members: seq<Entry>, names: seq<seq<byte>>) {
    |names| == |members| && forall n :: 0 <= n < |members| ==> NameIn(members[n], names[n])
  }

  lemma {:induction false} MembersAgree(s: seq<byte>, w: Walk, choose: Chooser, decode: seq<byte> -> seq<byte>,
      key: seq<byte>)
    returns (names: seq<seq<byte>>)
    requires w.at <= |s| && MembersRun(s, w, choose, decode).Some?
    ensures var members := MembersRun(s, w, choose, decode).value.0;
            NamesIn(members, names) && |names| == |members| && L.RangeFrom(s, w.at, key) == First(members, names, key)
    decreases |s| - w.at
  {
    hide *;
    MembersAre(s, w, choose, decode);
    var (e, v) := EntryRun(s, w, choose, decode).value;
    NextEnds(s, v.at);
    var name := EntryAgrees(s, w, choose, decode, key);
    L.RangeStep(s, v.at, key);
    QuoteKinds();
    var j := SkipWs(s, v.at);
    if s[j] == COMMA {
      DroppedIs(v, j + 1);
      var rest := MembersAgree(s, Dropped(v, j + 1), choose, decode, key);
      names := [name] + rest;
      FirstOf(e, name, MembersRun(s, Dropped(v, j + 1), choose, decode).value.0, rest, key);
    } else {
      names := [name];
      FirstAlone(e, name, key);
    }
  }

  lemma FirstOf(e: Entry, name: seq<byte>, members: seq<Entry>, names: seq<seq<byte>>, key: seq<byte>)
    requires NameIn(e, name) && NamesIn(members, names)
    ensures |names| == |members| && NamesIn([e] + members, [name] + names)
    ensures First([e] + members, [name] + names, key)
      == if name == key then L.Found(e.start, e.end) else First(members, names, key)
  {
    assert ([e] + members)[1..] == members && ([name] + names)[1..] == names;
  }

  lemma FirstAlone(e: Entry, name: seq<byte>, key: seq<byte>)
    requires NameIn(e, name)
    ensures NamesIn([e], [name])
    ensures First([e], [name], key) == if name == key then L.Found(e.start, e.end) else L.Missing
  {
    assert [e][1..] == [] && [name][1..] == [];
  }

  /** Where the first of the members with this name is. */
  function Lookup(members: seq<Entry>, key: seq<byte>): L.Range
    decreases |members|
  {
    if members == [] then L.Missing
    else if members[0].name == key then L.Found(members[0].start, members[0].end)
    else Lookup(members[1..], key)
  }

  predicate Plainly(members: seq<Entry>) { forall n :: 0 <= n < |members| ==> !members[n].escaped }

  lemma {:induction false} PlainFirst(members: seq<Entry>, names: seq<seq<byte>>, key: seq<byte>)
    requires NamesIn(members, names) && |names| == |members| && Plainly(members)
    ensures First(members, names, key) == Lookup(members, key)
    decreases |members|
  {
    if members != [] {
      assert NameIn(members[0], names[0]);
      forall n | 0 <= n < |members| - 1 ensures NameIn(members[1..][n], names[1..][n]) {
        assert NameIn(members[n + 1], names[n + 1]);
      }
      PlainFirst(members[1..], names[1..], key);
    }
  }

  lemma ObjectAgrees(s: seq<byte>, choose: Chooser, decode: seq<byte> -> seq<byte>, key: seq<byte>)
    returns (names: seq<seq<byte>>)
    requires ObjectRun(s, choose, decode).Some?
    ensures var members := ObjectRun(s, choose, decode).value.0;
            NamesIn(members, names) && |names| == |members| && L.RangeRun(s, key) == First(members, names, key)
  {
    hide *;
    ObjectIs(s, choose, decode);
    var i := SkipWs(s, 0);
    RangeRunIs(s, key);
    var j := SkipWs(s, i + 1);
    L.RangeStep(s, i + 1, key);
    if s[j] == CLOSE_OBJECT {
      names := [];
      NothingFirst(key);
    } else {
      names := MembersAgree(s, Walk(i + 1, [], []), choose, decode, key);
    }
  }

  lemma RangeRunIs(s: seq<byte>, key: seq<byte>)
    ensures var i := SkipWs(s, 0);
            L.RangeRun(s, key) == if i == |s| || s[i] != OPEN_OBJECT then L.Bad else L.RangeFrom(s, i + 1, key)
  {
    hide L.RangeFrom;
  }

  lemma NothingFirst(key: seq<byte>)
    ensures NamesIn([], []) && First([], [], key) == L.Missing
  {}

  /**
   * On any text the walker takes as an object, whatever its visitors: for every key, the byte scanner finds what the
   * members list has first under that name, at the same bytes, and nothing if it has none. For names without
   * escapes: the byte scanner compares a name as it is written.
   */
  lemma ScannersAgree(s: seq<byte>, choose: Chooser, decode: seq<byte> -> seq<byte>, key: seq<byte>)
    requires ObjectRun(s, choose, decode).Some? && Plainly(ObjectRun(s, choose, decode).value.0)
    ensures L.RangeRun(s, key) == Lookup(ObjectRun(s, choose, decode).value.0, key)
  {
    hide *;
    var names := ObjectAgrees(s, choose, decode, key);
    PlainFirst(ObjectRun(s, choose, decode).value.0, names, key);
  }

  function Nobody(name: seq<byte>): Option<Visitor> { None }

  /** So in any object within the walker's limits, each key is found where its first member is written. */
  lemma FirstMemberFound(t: Whole, decode: seq<byte> -> seq<byte>, key: seq<byte>)
    requires GoodObjectText(t) && Plainly(MembersOf(t, decode))
    ensures L.RangeRun(WholeRaw(t), key) == Lookup(MembersOf(t, decode), key)
  {
    hide *;
    ObjectListed(t, Nobody, decode);
    ScannersAgree(WholeRaw(t), Nobody, decode, key);
  }
}

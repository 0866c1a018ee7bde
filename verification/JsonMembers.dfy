/**
 * What the walker lists of an object (internal/jsonx/object.go:9-117): its members as they are written, each with
 * the bytes of its value, and the items of an array counted.
 */
module JsonMembers {
  import opened Sections
  import opened JsonScan
  import opened JsonText
  import opened JsonWalk
  import opened JsonRewrite
  import opened JsonArray
  import opened JsonObject

  predicate IsArrayDoc(d: Doc) { (d.Empty? || d.Full?) && d.isArray }

  /** A member's value within the limits: an array's items count for themselves. */
  predicate GoodMember(d: Doc) { if IsArrayDoc(d) then GoodArray(d) else Good(d) && Depth(d) <= MAX_DEPTH }

  predicate GoodMembers(items: Items)
    decreases items
  {
    GoodMember(items.value) && (items.More? ==> GoodMembers(items.rest))
  }

  predicate GoodObject(d: Doc) {
    (d.Empty? || d.Full?) && !d.isArray && Good(d) && (d.Full? ==> GoodMembers(d.items))
  }

  predicate GoodObjectText(t: Whole) { Spaces(t.pre) && GoodObject(t.doc) && Spaces(t.post) }

  function NameOf(l: Lead, decode: seq<byte> -> seq<byte>): seq<byte>
    requires l.Named?
  {
    Decoded(StrRaw(l.name), decode)
  }

  /** The entry of a member whose lead starts at i. */
  function EntryFor(l: Lead, d: Doc, i: nat, decode: seq<byte> -> seq<byte>): Entry
    requires l.Named? && GoodMember(d)
  {
    var a := i + |LeadRaw(l)|;
    Entry(NameOf(l, decode), a, a + |Raw(d)|, if IsArrayDoc(d) then Some(ArrayCount(d)) else None,
          BACKSLASH in StrRaw(l.name))
  }

  /** The members, the first of which starts at i. */
  function Listed(items: Items, i: nat, decode: seq<byte> -> seq<byte>): seq<Entry>
    requires GoodItems(items, false) && GoodMembers(items)
    decreases items
  {
    [EntryFor(items.lead, items.value, i, decode)] +
    if items.Last? then []
    else Listed(items.rest, i + |LeadRaw(items.lead)| + |Raw(items.value)| + |items.after| + 1, decode)
  }

  /** What the visitors the names choose are shown. */
  function Told(items: Items, choose: Chooser, decode: seq<byte> -> seq<byte>): seq<Call>
    requires GoodItems(items, false)
    decreases items
  {
    var name := NameOf(items.lead, decode);
    Shown(items.value, [Key(name)], Setup(choose(name), decode)) +
    if items.Last? then [] else Told(items.rest, choose, decode)
  }

  // Members in place are listed.

  lemma NamedIs(l: Lead, isArray: bool)
    requires l.Named? && GoodLead(l, isArray)
    ensures !isArray && HeadRaw(l) == l.before + (StrRaw(l.name) + (l.gap + [COLON]))
    ensures Spaces(l.before) && Spaces(l.gap) && GoodLetters(l.name) && |StrRaw(l.name)| <= MAX_NAME_BYTES
  {}

  lemma StaysPut(s: seq<byte>, i: nat)
    requires i < |s| && !IsSpace(s[i])
    ensures SkipWs(s, i) == i
  {}

  lemma BracketPlain()
    ensures !IsSpace(OPEN_ARRAY) && !IsSpace(OPEN_OBJECT) && !IsSpace(QUOTE)
  {}

  lemma MemberIn(d: Doc)
    requires GoodMember(d)
    ensures Good(d)
    ensures IsArrayDoc(d) ==> GoodArray(d) && (d.Empty? || d.Full?) && d.isArray
    ensures !IsArrayDoc(d) ==> Depth(d) <= MAX_DEPTH
  {}

  lemma ArrayBegins(c: byte, d: Doc)
    requires Begins(c, d)
    ensures IsArrayDoc(d) <==> c == OPEN_ARRAY
  {}

  lemma ShownIs(d: Doc, path: seq<PathElem>, u: Setup)
    ensures d.Full? ==> Shown(d, path, u) == ItemsShown(d.items, path, 0, u)
    ensures d.Empty? ==> Shown(d, path, u) == []
  {}

  lemma CountIs(d: Doc)
    requires GoodArray(d)
    ensures d.Empty? ==> ArrayCount(d) == 0
    ensures d.Full? ==> ArrayCount(d) == CountOf(d.items)
  {}

  /** A member's value is taken whole, and shown as a value is. */
  lemma MemberListed(s: seq<byte>, w: Walk, d: Doc, name: seq<byte>, u: Setup)
    requires At(s, w.at, Raw(d)) && GoodMember(d) && Ends(s, w.at + |Raw(d)|)
    ensures w.at < |s| && MemberRun(s, w, name, u).Some?
    ensures var (v, n) := MemberRun(s, w, name, u).value;
            && v.at == w.at + |Raw(d)| && v.calls == w.calls + Shown(d, [Key(name)], u)
            && n == if IsArrayDoc(d) then Some(ArrayCount(d)) else None
  {
    hide *;
    MemberIn(d);
    AtFirst(s, w.at, d);
    ArrayBegins(s[w.at], d);
    MemberIs(s, w, name, u);
    var path := [Key(name)];
    assert |path| == 1;
    ShownIs(d, path, u);
    if IsArrayDoc(d) {
      NothingAt(s, w.at, Raw(d));
      CountIs(d);
      if d.Empty? {
        EmptySplices(s, w, [], d, path, 0, u);
        NothingAfter(w.calls, Shown(d, path, u));
      } else {
        FullSplices(s, w, [], d, path, 0, u);
      }
    } else {
      ValueAlone(s, w, d, path, u);
      AfterIs(w, d, path, u);
    }
  }

  lemma NothingAfter<T>(a: seq<T>, b: seq<T>)
    requires b == []
    ensures a + b == a
  {}

  /** Where the parts of a member stand. */
  lemma MemberStands(s: seq<byte>, i: nat, items: Items)
    requires At(s, i, ItemsRaw(items, false)) && GoodItems(items, false)
    ensures items.lead.Named?
    ensures var at, end := i + |LeadRaw(items.lead)|, i + |LeadRaw(items.lead)| + |Raw(items.value)|;
            && i + |HeadRaw(items.lead)| <= at < |s| && At(s, i, HeadRaw(items.lead))
            && SkipWs(s, i + |HeadRaw(items.lead)|) == at && At(s, at, Raw(items.value))
            && end + |items.after| < |s| && SkipWs(s, end) == end + |items.after| && Ends(s, end)
            && s[end + |items.after|] == (if items.Last? then CLOSE_OBJECT else COMMA)
            && (items.More? ==> At(s, end + |items.after| + 1, ItemsRaw(items.rest, false)))
            && i + |ItemsRaw(items, false)| <= |s|
            && (items.Last? ==> i + |ItemsRaw(items, false)| == end + |items.after| + 1)
            && (items.More? ==>
                  i + |ItemsRaw(items, false)| == end + |items.after| + 1 + |ItemsRaw(items.rest, false)|)
  {
    hide *;
    ItemsParts(items, false);
    LeadIs(items.lead);
    LeadKind(items.lead);
    ItemsAt(s, i, items, false);
    ItemsAre(items, false);
    TailIs(items, false);
    ClosingIs(false);
    AtWithin(s, i, ItemsRaw(items, false));
    var at := i + |LeadRaw(items.lead)|;
    AtFirst(s, at, items.value);
    BeginsPlain(s[at], items.value);
    SpacesEnd(s, i + |HeadRaw(items.lead)|, items.lead.pad);
    var end := at + |Raw(items.value)|;
    if items.More? { AtJoin(s, end + |items.after|, [COMMA], ItemsRaw(items.rest, false)); }
    MemberTail(s, end, items.after, if items.Last? then CLOSE_OBJECT else COMMA);
  }

  lemma LeadKind(l: Lead)
    requires GoodLead(l, false)
    ensures l.Named? && Spaces(l.pad)
  {}

  lemma MemberTail(s: seq<byte>, i: nat, after: seq<byte>, c: byte)
    requires At(s, i, after) && Spaces(after) && At(s, i + |after|, [c]) && (c == COMMA || c == CLOSE_OBJECT)
    ensures i <= |s| && i + |after| < |s| && SkipWs(s, i) == i + |after| && s[i + |after|] == c && Ends(s, i)
  {
    AtByte(s, i + |after|, c);
    SpacesEnd(s, i, after);
    if after != [] { assert s[i] == s[i..i + |after|][0]; }
  }

  lemma MembersIn(items: Items)
    requires GoodMembers(items)
    ensures GoodMember(items.value) && (items.More? ==> GoodMembers(items.rest))
  {}

  lemma ListedIs(items: Items, i: nat, choose: Chooser, decode: seq<byte> -> seq<byte>)
    requires GoodItems(items, false) && GoodMembers(items)
    ensures items.lead.Named? && GoodMember(items.value)
    ensures items.Last? ==> Listed(items, i, decode) == [EntryFor(items.lead, items.value, i, decode)]
    ensures items.More? ==> GoodItems(items.rest, false) && GoodMembers(items.rest)
    ensures items.More? ==>
              Listed(items, i, decode) == [EntryFor(items.lead, items.value, i, decode)]
                + Listed(items.rest, i + |LeadRaw(items.lead)| + |Raw(items.value)| + |items.after| + 1, decode)
    ensures var name := NameOf(items.lead, decode);
            var shown := Shown(items.value, [Key(name)], Setup(choose(name), decode));
            && (items.Last? ==> Told(items, choose, decode) == shown)
            && (items.More? ==> Told(items, choose, decode) == shown + Told(items.rest, choose, decode))
  {
    hide EntryFor, Shown, NameOf, Raw, LeadRaw, GoodMember, Good, GoodLead;
    LeadKind(items.lead);
  }

  lemma EntryForIs(l: Lead, d: Doc, i: nat, decode: seq<byte> -> seq<byte>)
    requires l.Named? && GoodMember(d)
    ensures IsArrayDoc(d) ==> GoodArray(d)
    ensures EntryFor(l, d, i, decode) == Entry(
              Decoded(StrRaw(l.name), decode), i + |LeadRaw(l)|, i + |LeadRaw(l)| + |Raw(d)|,
              if IsArrayDoc(d) then Some(ArrayCount(d)) else None, BACKSLASH in StrRaw(l.name))
    ensures NameOf(l, decode) == Decoded(StrRaw(l.name), decode)
  {}

  /** One member read. */
  lemma EntryListed(s: seq<byte>, w: Walk, items: Items, choose: Chooser, decode: seq<byte> -> seq<byte>)
    requires At(s, w.at, ItemsRaw(items, false)) && GoodItems(items, false) && GoodMember(items.value)
    ensures items.lead.Named? && w.at <= |s| && EntryRun(s, w, choose, decode).Some?
    ensures var (e, v) := EntryRun(s, w, choose, decode).value;
            var name := NameOf(items.lead, decode);
            && e == EntryFor(items.lead, items.value, w.at, decode)
            && v.at == w.at + |LeadRaw(items.lead)| + |Raw(items.value)|
            && v.calls == w.calls + Shown(items.value, [Key(name)], Setup(choose(name), decode))
  {
    hide *;
    MemberStands(s, w.at, items);
    ItemsParts(items, false);
    var l, d := items.lead, items.value;
    NameIs(s, w, l);
    EntryIs(s, w, choose, decode);
    var at := w.at + |LeadRaw(l)|;
    var start := Dropped(Put(w, HeadRaw(l)), at);
    DroppedIs(Put(w, HeadRaw(l)), at);
    PutIs(w, HeadRaw(l));
    var name := NameOf(l, decode);
    EntryForIs(l, d, w.at, decode);
    MemberListed(s, start, d, name, Setup(choose(name), decode));
  }

  lemma PutIs(w: Walk, t: seq<byte>)
    ensures Put(w, t) == Walk(w.at + |t|, w.out + t, w.calls)
  {}

  lemma {:induction false} MembersListed(s: seq<byte>, w: Walk, items: Items, choose: Chooser,
      decode: seq<byte> -> seq<byte>)
    requires At(s, w.at, ItemsRaw(items, false)) && GoodItems(items, false) && GoodMembers(items)
    requires w.at + |ItemsRaw(items, false)| <= |s| && SkipWs(s, w.at + |ItemsRaw(items, false)|) == |s|
    ensures MembersRun(s, w, choose, decode)
      == Some((Listed(items, w.at, decode), w.calls + Told(items, choose, decode)))
    decreases items
  {
    hide *;
    MembersIn(items);
    MemberStands(s, w.at, items);
    EntryListed(s, w, items, choose, decode);
    MembersAre(s, w, choose, decode);
    ListedIs(items, w.at, choose, decode);
    CommaApart();
    var v := EntryRun(s, w, choose, decode).value.1;
    var j := v.at + |items.after|;
    if items.More? {
      var next := Dropped(v, j + 1);
      DroppedIs(v, j + 1);
      MembersListed(s, next, items.rest, choose, decode);
      var name := NameOf(items.lead, decode);
      var shown := Shown(items.value, [Key(name)], Setup(choose(name), decode));
      assert (w.calls + shown) + Told(items.rest, choose, decode)
          == w.calls + (shown + Told(items.rest, choose, decode));
    }
  }

  lemma CommaApart()
    ensures COMMA != CLOSE_OBJECT
  {}

  lemma ObjectParts(d: Doc)
    requires GoodObject(d)
    ensures (d.Empty? || d.Full?) && !d.isArray && Good(d)
    ensures d.Empty? ==> Spaces(d.gap)
    ensures d.Full? ==> GoodItems(d.items, false) && GoodMembers(d.items)
  {}

  function MembersOf(t: Whole, decode: seq<byte> -> seq<byte>): seq<Entry>
    requires GoodObjectText(t)
  {
    if t.doc.Empty? then [] else Listed(t.doc.items, |t.pre| + 1, decode)
  }

  function ToldOf(t: Whole, choose: Chooser, decode: seq<byte> -> seq<byte>): seq<Call>
    requires GoodObjectText(t)
  {
    if t.doc.Empty? then [] else Told(t.doc.items, choose, decode)
  }

  lemma ObjectTextParts(t: Whole, choose: Chooser, decode: seq<byte> -> seq<byte>)
    requires GoodObjectText(t)
    ensures Spaces(t.pre) && GoodObject(t.doc) && Spaces(t.post)
    ensures t.doc.Empty? ==> MembersOf(t, decode) == [] && ToldOf(t, choose, decode) == []
    ensures t.doc.Full? && GoodItems(t.doc.items, false) && GoodMembers(t.doc.items) ==>
              && MembersOf(t, decode) == Listed(t.doc.items, |t.pre| + 1, decode)
              && ToldOf(t, choose, decode) == Told(t.doc.items, choose, decode)
  {
    hide Listed, Told, GoodMembers, Good;
  }

  lemma FullObject(d: Doc)
    requires d.Full?
    ensures Raw(d) == [Opening(d.isArray)] + ItemsRaw(d.items, d.isArray)
    ensures (Good(d) <==> GoodItems(d.items, d.isArray))
  {}

  lemma EmptyListed(t: Whole, choose: Chooser, decode: seq<byte> -> seq<byte>)
    requires GoodObjectText(t) && t.doc.Empty?
    ensures ObjectRun(WholeRaw(t), choose, decode) == Some(([], []))
  {
    hide *;
    var s, i, d := WholeRaw(t), |t.pre|, t.doc;
    ObjectTextParts(t, choose, decode);
    ObjectParts(d);
    WholeAt(t);
    ObjectFirst(s, t.pre, d);
    EmptyIs(d);
    AtJoin(s, i, [Opening(false)], d.gap + [Closing(false)]);
    AtJoin(s, i + 1, d.gap, [Closing(false)]);
    ClosingIs(false);
    MemberTail(s, i + 1, d.gap, CLOSE_OBJECT);
    ObjectIs(s, choose, decode);
  }

  lemma ObjectFirst(s: seq<byte>, pad: seq<byte>, d: Doc)
    requires At(s, 0, pad) && Spaces(pad) && At(s, |pad|, Raw(d)) && GoodObject(d)
    ensures |pad| + |Raw(d)| <= |s| && SkipWs(s, 0) == |pad| < |s| && s[|pad|] == OPEN_OBJECT
  {
    hide Raw, Good, GoodMembers, SkipWs;
    AtFirst(s, |pad|, d);
    BeginsPlain(s[|pad|], d);
    SpacesEnd(s, 0, pad);
  }

  lemma FullListed(t: Whole, choose: Chooser, decode: seq<byte> -> seq<byte>)
    requires GoodObjectText(t) && t.doc.Full?
    ensures ObjectRun(WholeRaw(t), choose, decode) == Some((MembersOf(t, decode), ToldOf(t, choose, decode)))
  {
    hide *;
    var s, i, d := WholeRaw(t), |t.pre|, t.doc;
    ObjectTextParts(t, choose, decode);
    ObjectParts(d);
    WholeAt(t);
    ObjectFirst(s, t.pre, d);
    FullObject(d);
    AtJoin(s, i, [Opening(false)], ItemsRaw(d.items, false));
    ItemsFirst(s, i + 1, d.items, false);
    ClosingIs(false);
    ObjectIs(s, choose, decode);
    MembersListed(s, Walk(i + 1, [], []), d.items, choose, decode);
    NothingBefore(Told(d.items, choose, decode));
  }

  /**
   * An object alone in its text, whose members are within the limits: they are listed as they are written, each by
   * name and with the bytes of its value, and each visitor is shown its member's scalars as of a value by itself.
   */
  lemma ObjectListed(t: Whole, choose: Chooser, decode: seq<byte> -> seq<byte>)
    requires GoodObjectText(t)
    ensures ObjectRun(WholeRaw(t), choose, decode) == Some((MembersOf(t, decode), ToldOf(t, choose, decode)))
  {
    hide *;
    ObjectTextParts(t, choose, decode);
    ObjectParts(t.doc);
    if t.doc.Empty? { EmptyListed(t, choose, decode); } else { FullListed(t, choose, decode); }
  }

  // And what is listed is an object's members.

  lemma StartsWith(s: seq<byte>, i: nat, pad: seq<byte>)
    requires i < |s| && At(s, i, pad) && Spaces(pad)
    ensures pad == [] || IsSpace(s[i])
  {
    if pad != [] { assert s[i] == s[i..i + |pad|][0]; }
  }

  lemma MemberArray(d: Doc)
    requires GoodArray(d)
    ensures Good(d) && GoodMember(d)
  {}

  lemma MemberOther(c: byte, d: Doc)
    requires Good(d) && Depth(d) <= MAX_DEPTH && Begins(c, d) && c != OPEN_ARRAY
    ensures GoodMember(d)
  {
    hide Good, Depth;
  }

  /** What the walker takes for a member's value is a value, from its first byte to where the walker ends. */
  lemma MemberFound(s: seq<byte>, w: Walk, name: seq<byte>, u: Setup) returns (d: Doc)
    requires w.at < |s| && !IsSpace(s[w.at]) && MemberRun(s, w, name, u).Some?
    ensures Good(d) && GoodMember(d) && At(s, w.at, Raw(d))
    ensures MemberRun(s, w, name, u).value.0.at == w.at + |Raw(d)|
  {
    hide *;
    MemberIs(s, w, name, u);
    if s[w.at] == OPEN_ARRAY {
      d := ArrayThere(s, w, [Key(name)], 0, u);
      MemberArray(d);
    } else {
      var path := [Key(name)];
      SomeDepth();
      assert |path| == 1;
      var pad;
      pad, d := DocFound(s, w, path, 1, u);
      FoundParts(s, w, pad, d, path, 1, u);
      StartsWith(s, w.at, pad);
      PutNothing(w);
      EndIs(s, After(w, d, path, u), path, u);
      AtFirst(s, w.at, d);
      MemberOther(s[w.at], d);
    }
  }

  lemma ArrayThere(s: seq<byte>, w: Walk, path: seq<PathElem>, k: nat, u: Setup) returns (d: Doc)
    requires w.at < |s| && s[w.at] == OPEN_ARRAY && ArrayRun(s, w, path, k, u).Some?
    ensures GoodArray(d) && At(s, w.at, Raw(d)) && ArrayRun(s, w, path, k, u).value.0.at == w.at + |Raw(d)|
  {
    hide *;
    BracketPlain();
    StaysPut(s, w.at);
    ArrayIs(s, w, path, k, u);
    var j := SkipWs(s, w.at + 1);
    DroppedIs(w, j);
    if s[j] == CLOSE_ARRAY {
      d := EmptyUnspliced(s, w.at);
      DroppedIs(w, j + 1);
    } else {
      var inside := Dropped(w, w.at + 1);
      DroppedIs(w, w.at + 1);
      DroppedIs(inside, j);
      SpliceOn(s, inside, j, path, k, 0, u);
      var items := ItemsUnspliced(s, inside, path, k, 0, u);
      FitParts(s, w.at + 1, items);
      OpeningIs();
      AtByte(s, w.at, OPEN_ARRAY);
      AtJoin(s, w.at, [OPEN_ARRAY], ItemsRaw(items, true));
      d := Full(true, items);
      FullIs(inside, d, path, u);
      GoodFrom(d);
      ItemsSplice(s, inside, items, path, k, 0, u);
      SpliceSize(items, path, k, inside, 0, u);
    }
  }

  ghost predicate MembersFit(s: seq<byte>, i: nat, items: Items) {
    && At(s, i, ItemsRaw(items, false)) && GoodItems(items, false) && GoodMembers(items)
    && i + |ItemsRaw(items, false)| <= |s| && SkipWs(s, i + |ItemsRaw(items, false)|) == |s|
  }

  lemma FittingMembers(s: seq<byte>, i: nat, items: Items)
    requires At(s, i, ItemsRaw(items, false)) && GoodItems(items, false) && GoodMembers(items)
    requires i + |ItemsRaw(items, false)| <= |s| && SkipWs(s, i + |ItemsRaw(items, false)|) == |s|
    ensures MembersFit(s, i, items)
  {}

  lemma MembersFitParts(s: seq<byte>, i: nat, items: Items)
    requires MembersFit(s, i, items)
    ensures At(s, i, ItemsRaw(items, false)) && GoodItems(items, false) && GoodMembers(items)
    ensures i + |ItemsRaw(items, false)| <= |s| && SkipWs(s, i + |ItemsRaw(items, false)|) == |s|
  {}

  lemma MembersFrom(items: Items)
    requires GoodMember(items.value) && (items.More? ==> GoodMembers(items.rest))
    ensures GoodMembers(items)
  {}

  /** A member's name, colon and value, found. */
  lemma EntryFound(s: seq<byte>, w: Walk, choose: Chooser, decode: seq<byte> -> seq<byte>) returns (l: Lead, d: Doc)
    requires w.at <= |s| && EntryRun(s, w, choose, decode).Some?
    ensures GoodLead(l, false) && At(s, w.at, HeadRaw(l)) && At(s, w.at + |HeadRaw(l)|, l.pad)
    ensures Good(d) && GoodMember(d) && At(s, w.at + |HeadRaw(l)| + |l.pad|, Raw(d))
    ensures EntryRun(s, w, choose, decode).value.1.at == w.at + |HeadRaw(l)| + |l.pad| + |Raw(d)|
  {
    hide *;
    EntryIs(s, w, choose, decode);
    var head := NameFound(s, w);
    NameIs(s, w, head);
    var (raw, after) := NameRun(s, w).value;
    PutIs(w, HeadRaw(head));
    var i, name := SkipWs(s, after.at), Decoded(raw, decode);
    SpacesFound(s, after.at);
    DroppedIs(after, i);
    d := MemberFound(s, Dropped(after, i), name, Setup(choose(name), decode));
    var pad := s[after.at..i];
    Padded(head, false, pad, 0, Setup(None, decode));
    l := head.(pad := pad);
  }

  lemma TailByte(s: seq<byte>, j: nat)
    requires j < |s|
    ensures At(s, j, [s[j]])
  {
    AtByte(s, j, s[j]);
  }

  lemma {:induction false} MembersFound(s: seq<byte>, w: Walk, choose: Chooser, decode: seq<byte> -> seq<byte>)
    returns (items: Items)
    requires w.at <= |s| && MembersRun(s, w, choose, decode).Some?
    ensures MembersFit(s, w.at, items)
    decreases |s| - w.at
  {
    hide *;
    MembersAre(s, w, choose, decode);
    var v := EntryRun(s, w, choose, decode).value.1;
    var l, d := EntryFound(s, w, choose, decode);
    var j := SkipWs(s, v.at);
    var after := s[v.at..j];
    SpacesFound(s, v.at);
    TailByte(s, j);
    ClosingIs(false);
    CommaApart();
    if s[j] == COMMA {
      DroppedIs(v, j + 1);
      var rest := MembersFound(s, Dropped(v, j + 1), choose, decode);
      MembersFitParts(s, j + 1, rest);
      AtJoin(s, j, [COMMA], ItemsRaw(rest, false));
      items := More(l, d, after, rest);
    } else {
      items := Last(l, d, after);
    }
    TailIs(items, false);
    ItemsGood(items, false);
    MembersFrom(items);
    ItemsAt(s, w.at, items, false);
    ItemsAre(items, false);
    LeadIs(l);
    AtWithin(s, w.at, ItemsRaw(items, false));
    FittingMembers(s, w.at, items);
  }

  lemma ObjectFrom(d: Doc)
    requires (d.Empty? && !d.isArray && Spaces(d.gap))
             || (d.Full? && !d.isArray && GoodItems(d.items, false) && GoodMembers(d.items))
    ensures GoodObject(d)
  {}

  lemma ObjectTextOf(s: seq<byte>, t: Whole)
    requires At(s, 0, t.pre + (Raw(t.doc) + t.post)) && |s| == |t.pre| + |Raw(t.doc)| + |t.post|
    requires Spaces(t.pre) && GoodObject(t.doc) && Spaces(t.post)
    ensures GoodObjectText(t) && WholeRaw(t) == s
  {
    hide Raw, GoodObject;
    assert s[0..|s|] == s;
  }

  lemma ObjectAround(s: seq<byte>, i: nat, d: Doc) returns (t: Whole)
    requires i == SkipWs(s, 0) && At(s, i, Raw(d)) && i + |Raw(d)| <= |s|
    requires SkipWs(s, i + |Raw(d)|) == |s| && GoodObject(d)
    ensures GoodObjectText(t) && WholeRaw(t) == s
  {
    hide *;
    var pre, end := s[0..i], i + |Raw(d)|;
    SpacesFound(s, 0);
    var post := s[end..SkipWs(s, end)];
    SpacesFound(s, end);
    t := Whole(pre, d, post);
    AtJoin(s, |pre|, Raw(d), post);
    AtJoin(s, 0, pre, Raw(d) + post);
    ObjectTextOf(s, t);
  }

  lemma EmptyObject(s: seq<byte>, i: nat) returns (d: Doc)
    requires i < |s| && s[i] == OPEN_OBJECT && SkipWs(s, i + 1) < |s| && s[SkipWs(s, i + 1)] == CLOSE_OBJECT
    ensures GoodObject(d) && At(s, i, Raw(d)) && SkipWs(s, i + 1) + 1 == i + |Raw(d)|
  {
    hide *;
    var j := SkipWs(s, i + 1);
    var gap := s[i + 1..j];
    ClosingIs(false);
    OpeningIs();
    SpacesFound(s, i + 1);
    AtByte(s, i, OPEN_OBJECT);
    AtByte(s, j, CLOSE_OBJECT);
    AtJoin(s, i + 1, gap, [CLOSE_OBJECT]);
    AtJoin(s, i, [OPEN_OBJECT], gap + [CLOSE_OBJECT]);
    d := Empty(false, gap);
    EmptyIs(d);
    ObjectFrom(d);
  }

  /** What is taken as an object is one. */
  lemma ObjectFound(s: seq<byte>, choose: Chooser, decode: seq<byte> -> seq<byte>) returns (t: Whole)
    requires ObjectRun(s, choose, decode).Some?
    ensures GoodObjectText(t) && WholeRaw(t) == s
  {
    hide *;
    ObjectIs(s, choose, decode);
    var i := SkipWs(s, 0);
    var d;
    if s[SkipWs(s, i + 1)] == CLOSE_OBJECT {
      d := EmptyObject(s, i);
    } else {
      var items := MembersFound(s, Walk(i + 1, [], []), choose, decode);
      MembersFitParts(s, i + 1, items);
      OpeningIs();
      AtByte(s, i, OPEN_OBJECT);
      AtJoin(s, i, [OPEN_OBJECT], ItemsRaw(items, false));
      d := Full(false, items);
      FullObject(d);
      ObjectFrom(d);
    }
    t := ObjectAround(s, i, d);
  }

  /**
   * A text's members are listed exactly when it is an object, its members within the limits, and whitespace
   * around it.
   */
  lemma ObjectAccepts(s: seq<byte>, choose: Chooser, decode: seq<byte> -> seq<byte>)
    ensures ObjectRun(s, choose, decode).Some? <==> exists t :: GoodObjectText(t) && WholeRaw(t) == s
  {
    hide *;
    if ObjectRun(s, choose, decode).Some? { var t := ObjectFound(s, choose, decode); }
    if t :| GoodObjectText(t) && WholeRaw(t) == s { ObjectListed(t, choose, decode); }
  }
}

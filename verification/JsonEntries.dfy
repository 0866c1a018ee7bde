/**
 * What an object's listing says of each member (internal/jsonx/object.go:36-117): its name, and where in the text its
 * value stands.
 */
module JsonEntries {
  import opened Sections
  import opened JsonScan
  import opened JsonText
  import opened JsonWalk
  import opened JsonRewrite
  import opened JsonArray
  import opened JsonObject
  import opened JsonMembers

  /** From member k on. */
  function From(items: Items, k: nat): Items
    requires k < CountOf(items)
    decreases k
  {
    if k == 0 then items else From(items.rest, k - 1)
  }

  /** The entry is that of the member: the bytes it points at are the value's, those before them the name's. */
  ghost predicate Points(s: seq<byte>, e: Entry, member: Items, decode: seq<byte> -> seq<byte>) {
    && member.lead.Named?
    && var name := StrRaw(member.lead.name);
    && e.start <= e.end <= |s| && s[e.start..e.end] == Raw(member.value)
    && |LeadRaw(member.lead)| <= e.start && s[e.start - |LeadRaw(member.lead)|..e.start] == LeadRaw(member.lead)
    && (e.escaped <==> 0x5C in name)
    && |name| >= 2 && e.name == (if 0x5C in name then decode(name) else name[1..|name| - 1])
    && (e.items.Some? <==> (member.value.Empty? || member.value.Full?) && member.value.isArray)
    && (e.items.Some? ==> e.items.value == if member.value.Empty? then 0 else CountOf(member.value.items))
  }

  lemma NameQuoted(l: Lead)
    ensures l.Named? ==> |StrRaw(l.name)| >= 2
  {}

  lemma EntryPoints(s: seq<byte>, i: nat, items: Items, decode: seq<byte> -> seq<byte>)
    requires At(s, i, ItemsRaw(items, false)) && GoodItems(items, false) && GoodMembers(items)
    ensures items.lead.Named? && GoodMember(items.value)
    ensures Points(s, EntryFor(items.lead, items.value, i, decode), items, decode)
  {
    hide *;
    MembersIn(items);
    MemberStands(s, i, items);
    LeadStands(s, i, items);
    var l, d := items.lead, items.value;
    EntryForIs(l, d, i, decode);
    NameQuoted(l);
    DecodedIs(StrRaw(l.name), decode);
    ArrayIs(d);
    AtIs(s, i, LeadRaw(l));
    AtIs(s, i + |LeadRaw(l)|, Raw(d));
    PointsFrom(s, i, items, EntryFor(l, d, i, decode), decode);
  }

  lemma AtIs(s: seq<byte>, i: nat, t: seq<byte>)
    requires At(s, i, t)
    ensures i + |t| <= |s| && s[i..i + |t|] == t
  {}

  lemma DecodedIs(raw: seq<byte>, decode: seq<byte> -> seq<byte>)
    requires |raw| >= 2
    ensures Decoded(raw, decode) == if 0x5C in raw then decode(raw) else raw[1..|raw| - 1]
    ensures BACKSLASH in raw <==> 0x5C in raw
  {}

  lemma ArrayIs(d: Doc)
    ensures IsArrayDoc(d) <==> (d.Empty? || d.Full?) && d.isArray
    ensures IsArrayDoc(d) && GoodArray(d) ==> ArrayCount(d) == if d.Empty? then 0 else CountOf(d.items)
  {}

  lemma PointsFrom(s: seq<byte>, i: nat, items: Items, e: Entry, decode: seq<byte> -> seq<byte>)
    requires items.lead.Named?
    requires var name, at := StrRaw(items.lead.name), i + |LeadRaw(items.lead)|;
             && at + |Raw(items.value)| <= |s| && s[i..at] == LeadRaw(items.lead)
             && s[at..at + |Raw(items.value)|] == Raw(items.value)
             && e.start == at && e.end == at + |Raw(items.value)| && (e.escaped <==> 0x5C in name) && |name| >= 2
             && e.name == if 0x5C in name then decode(name) else name[1..|name| - 1]
    requires e.items.Some? <==> (items.value.Empty? || items.value.Full?) && items.value.isArray
    requires e.items.Some? ==> e.items.value == if items.value.Empty? then 0 else CountOf(items.value.items)
    ensures Points(s, e, items, decode)
  {
    hide StrRaw, LeadRaw, Raw, CountOf;
  }

  lemma LeadStands(s: seq<byte>, i: nat, items: Items)
    requires At(s, i, ItemsRaw(items, false)) && GoodItems(items, false)
    ensures At(s, i, LeadRaw(items.lead))
  {
    hide *;
    ItemsParts(items, false);
    ItemsAt(s, i, items, false);
    LeadIs(items.lead);
    AtJoin(s, i, HeadRaw(items.lead), items.lead.pad);
  }

  lemma CountNext(items: Items)
    ensures CountOf(items) == if items.Last? then 1 else 1 + CountOf(items.rest)
  {}

  lemma FromNext(items: Items, k: nat)
    requires 0 < k < CountOf(items)
    ensures items.More? && k - 1 < CountOf(items.rest) && From(items, k) == From(items.rest, k - 1)
  {}

  lemma FromFirst(items: Items)
    requires 0 < CountOf(items)
    ensures From(items, 0) == items
  {}

  lemma FirstOf<T>(x: T, rest: seq<T>)
    ensures ([x] + rest)[0] == x && |[x] + rest| == 1 + |rest|
    ensures forall k :: 0 < k <= |rest| ==> ([x] + rest)[k] == rest[k - 1]
  {}

  lemma {:induction false} ListedPoint(s: seq<byte>, i: nat, items: Items, k: nat, choose: Chooser,
      decode: seq<byte> -> seq<byte>)
    requires At(s, i, ItemsRaw(items, false)) && GoodItems(items, false) && GoodMembers(items)
    requires k < CountOf(items)
    ensures |Listed(items, i, decode)| == CountOf(items)
    ensures Points(s, Listed(items, i, decode)[k], From(items, k), decode)
    decreases items
  {
    hide *;
    CountNext(items);
    MemberStands(s, i, items);
    EntryPoints(s, i, items, decode);
    ListedIs(items, i, choose, decode);
    if k == 0 { FromFirst(items); } else { FromNext(items, k); }
    if items.More? {
      var next := i + |LeadRaw(items.lead)| + |Raw(items.value)| + |items.after| + 1;
      SomeItem(items.rest);
      ListedPoint(s, next, items.rest, if k == 0 then 0 else k - 1, choose, decode);
      FirstOf(EntryFor(items.lead, items.value, i, decode), Listed(items.rest, next, decode));
    }
  }

  lemma SomeItem(items: Items)
    ensures CountOf(items) >= 1
  {}

  /**
   * An object's listing has an entry for every member, in order: its name, the bytes of its value, and how many items
   * an array has.
   */
  lemma EntriesPoint(t: Whole, k: nat, choose: Chooser, decode: seq<byte> -> seq<byte>)
    requires GoodObjectText(t) && t.doc.Full? && k < CountOf(t.doc.items)
    ensures ObjectRun(WholeRaw(t), choose, decode).Some?
    ensures var entries := ObjectRun(WholeRaw(t), choose, decode).value.0;
            |entries| == CountOf(t.doc.items) && Points(WholeRaw(t), entries[k], From(t.doc.items, k), decode)
  {
    hide *;
    ObjectListed(t, choose, decode);
    ObjectTextParts(t, choose, decode);
    ObjectParts(t.doc);
    WholeAt(t);
    FullObject(t.doc);
    AtJoin(WholeRaw(t), |t.pre|, [Opening(false)], ItemsRaw(t.doc.items, false));
    ListedPoint(WholeRaw(t), |t.pre| + 1, t.doc.items, k, choose, decode);
  }
}

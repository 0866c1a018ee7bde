/** The members of an object, walked value by value (internal/jsonx/object.go:36-117), on the whole text at once. */
module JsonObject {
  import opened Sections
  import opened JsonScan
  import opened JsonWalk

  /** A member: where its value is, how many items it has if it is an array, and whether its name is escaped. */
  datatype Entry = Entry(name: seq<byte>, start: nat, end: nat, items: Option<nat>, escaped: bool)

  /** The visitor for the members of each name. */
  type Chooser = seq<byte> -> Option<Visitor>

  /** A member's value from its first byte on, the items of an array counted. */
  function MemberRun(s: seq<byte>, w: Walk, name: seq<byte>, u: Setup): (r: Option<(Walk, Option<nat>)>)
    requires w.at < |s|
    ensures r.Some? ==> w.at <= r.value.0.at <= |s|
  {
    if s[w.at] == OPEN_ARRAY then
      var r := ArrayRun(s, w, [Key(name)], 0, u);
      if r.None? then None else Some((r.value.0, Some(r.value.1)))
    else
      var r := ValueRun(s, w, [Key(name)], 1, false, u);
      if r.None? then None else Some((r.value, None))
  }

  /** A member: its name, its colon and its value. */
  function EntryRun(s: seq<byte>, w: Walk, choose: Chooser, decode: seq<byte> -> seq<byte>): (r: Option<(Entry, Walk)>)
    requires w.at <= |s|
    ensures r.Some? ==> w.at < r.value.1.at <= |s|
  {
    var n := NameRun(s, w);
    if n.None? then None
    else
      var raw, i := n.value.0, SkipWs(s, n.value.1.at);
      if i == |s| then None
      else
        var name := Decoded(raw, decode);
        var v := MemberRun(s, Dropped(n.value.1, i), name, Setup(choose(name), decode));
        if v.None? then None
        else Some((Entry(name, i, v.value.0.at, v.value.1, BACKSLASH in raw), v.value.0))
  }

  /** The members of an object from a name on, and nothing but whitespace after it. */
  function MembersRun(s: seq<byte>, w: Walk, choose: Chooser, decode: seq<byte> -> seq<byte>)
    : (r: Option<(seq<Entry>, seq<Call>)>)
    requires w.at <= |s|
    decreases |s| - w.at
  {
    var e := EntryRun(s, w, choose, decode);
    if e.None? then None
    else
      var v := e.value.1;
      var j := SkipWs(s, v.at);
      if j == |s| then None
      else if s[j] == COMMA then
        var rest := MembersRun(s, Dropped(v, j + 1), choose, decode);
        if rest.None? then None else Some(([e.value.0] + rest.value.0, rest.value.1))
      else if s[j] == CLOSE_OBJECT && SkipWs(s, j + 1) == |s| then Some(([e.value.0], v.calls))
      else None
  }

  /** The members of an object alone in its text, and what the visitors were shown. */
  function ObjectRun(s: seq<byte>, choose: Chooser, decode: seq<byte> -> seq<byte>): Option<(seq<Entry>, seq<Call>)> {
    var i := SkipWs(s, 0);
    if i == |s| || s[i] != OPEN_OBJECT then None
    else
      var j := SkipWs(s, i + 1);
      if j == |s| then None
      else if s[j] == CLOSE_OBJECT then if SkipWs(s, j + 1) == |s| then Some(([], [])) else None
      else MembersRun(s, Walk(i + 1, [], []), choose, decode)
  }

  lemma MemberIs(s: seq<byte>, w: Walk, name: seq<byte>, u: Setup)
    requires w.at < |s|
    ensures var r := MemberRun(s, w, name, u);
            if s[w.at] == OPEN_ARRAY then
              var v := ArrayRun(s, w, [Key(name)], 0, u);
              r == if v.None? then None else Some((v.value.0, Some(v.value.1)))
            else
              var v := ValueRun(s, w, [Key(name)], 1, false, u);
              r == if v.None? then None else Some((v.value, None))
  {
    hide ArrayRun, ValueRun;
  }

  lemma EntryIs(s: seq<byte>, w: Walk, choose: Chooser, decode: seq<byte> -> seq<byte>)
    requires w.at <= |s|
    ensures var n, r := NameRun(s, w), EntryRun(s, w, choose, decode);
            if n.None? then r.None?
            else
              var raw, i := n.value.0, SkipWs(s, n.value.1.at);
              if i == |s| then r.None?
              else
                var name := Decoded(raw, decode);
                var v := MemberRun(s, Dropped(n.value.1, i), name, Setup(choose(name), decode));
                if v.None? then r.None?
                else r == Some((Entry(name, i, v.value.0.at, v.value.1, BACKSLASH in raw), v.value.0))
  {
    hide NameRun, MemberRun, SkipWs, Decoded;
  }

  lemma MembersAre(s: seq<byte>, w: Walk, choose: Chooser, decode: seq<byte> -> seq<byte>)
    requires w.at <= |s|
    ensures var e, r := EntryRun(s, w, choose, decode), MembersRun(s, w, choose, decode);
            if e.None? then r.None?
            else
              var v := e.value.1;
              var j := SkipWs(s, v.at);
              if j == |s| then r.None?
              else if s[j] == COMMA then
                var next := MembersRun(s, Dropped(v, j + 1), choose, decode);
                r == if next.None? then None else Some(([e.value.0] + next.value.0, next.value.1))
              else r == if s[j] == CLOSE_OBJECT && SkipWs(s, j + 1) == |s| then Some(([e.value.0], v.calls)) else None
  {
    hide EntryRun, SkipWs;
  }

  lemma ObjectIs(s: seq<byte>, choose: Chooser, decode: seq<byte> -> seq<byte>)
    ensures var i, r := SkipWs(s, 0), ObjectRun(s, choose, decode);
            if i == |s| || s[i] != OPEN_OBJECT then r.None?
            else
              var j := SkipWs(s, i + 1);
              && (j == |s| ==> r.None?)
              && (j < |s| && s[j] == CLOSE_OBJECT ==> r == if SkipWs(s, j + 1) == |s| then Some(([], [])) else None)
              && (j < |s| && s[j] != CLOSE_OBJECT ==> r == MembersRun(s, Walk(i + 1, [], []), choose, decode))
  {
    hide MembersRun, SkipWs;
  }

  /** Whitespace already skipped is not missed. */
  lemma MembersOn(s: seq<byte>, w: Walk, j: nat, choose: Chooser, decode: seq<byte> -> seq<byte>)
    requires w.at <= |s| && w.at <= j <= SkipWs(s, w.at)
    ensures MembersRun(s, Copied(s, w, j), choose, decode) == MembersRun(s, w, choose, decode)
  {
    hide *;
    NameOn(s, w, j);
    CopiedAt(s, w, j);
    EntryIs(s, w, choose, decode);
    EntryIs(s, Copied(s, w, j), choose, decode);
    MembersAre(s, w, choose, decode);
    MembersAre(s, Copied(s, w, j), choose, decode);
  }

  lemma CopiedAt(s: seq<byte>, w: Walk, j: nat)
    requires w.at <= j <= |s|
    ensures Copied(s, w, j).at == j && Copied(s, w, j).calls == w.calls
  {}
}

/**
 * The byte scanner that finds one member of a large object without holding its value (internal/jsonx/jsonx.go:33-242).
 * It counts brackets and skips strings, and checks no grammar.
 */
module JsonLoose {
  import opened Sections
  import opened JsonScan

  /**
   * Where the string whose content goes on at i ends: only a backslash is looked at, and what it escapes passed
   * over.
   */
  function LooseEnd(s: seq<byte>, i: nat): (r: Option<nat>)
    requires i <= |s|
    ensures r.Some? ==> i < r.value <= |s|
    decreases |s| - i
  {
    if i == |s| then None
    else if s[i] == QUOTE then Some(i + 1)
    else if s[i] != BACKSLASH then LooseEnd(s, i + 1)
    else if i + 1 == |s| then None
    else LooseEnd(s, i + 2)
  }

  /** into with more, unless it is long enough. */
  function Kept(into: seq<byte>, more: seq<byte>): seq<byte> { if |into| < MAX_NAME_BYTES then into + more else into }

  /** What is kept of the string as it is passed over. */
  function LooseName(s: seq<byte>, i: nat, into: seq<byte>): seq<byte>
    requires i <= |s| && LooseEnd(s, i).Some?
    decreases |s| - i
  {
    if s[i] == QUOTE then into
    else if s[i] != BACKSLASH then LooseName(s, i + 1, Kept(into, [s[i]]))
    else LooseName(s, i + 2, Kept(into, s[i..i + 2]))
  }

  /** A byte that ends a number, true, false or null. */
  predicate IsStop(c: byte) { c == COMMA || c == CLOSE_OBJECT || c == CLOSE_ARRAY || IsSpace(c) }

  function StopAt(s: seq<byte>, i: nat): (r: nat)
    requires i <= |s|
    ensures i <= r <= |s|
    decreases |s| - i
  {
    if i < |s| && !IsStop(s[i]) then StopAt(s, i + 1) else i
  }

  predicate IsOpening(c: byte) { c == OPEN_OBJECT || c == OPEN_ARRAY }

  predicate IsClosing(c: byte) { c == CLOSE_OBJECT || c == CLOSE_ARRAY }

  /** Where the brackets open from i on, depth of them before it, are all closed. */
  function Balance(s: seq<byte>, i: nat, depth: int): (r: Option<nat>)
    requires i <= |s|
    ensures r.Some? ==> i < r.value <= |s|
    decreases |s| - i
  {
    if i == |s| then None
    else if IsOpening(s[i]) then Balance(s, i + 1, depth + 1)
    else if IsClosing(s[i]) then if depth == 1 then Some(i + 1) else Balance(s, i + 1, depth - 1)
    else if s[i] == QUOTE then
      var e := LooseEnd(s, i + 1);
      if e.None? then None else Balance(s, e.value, depth)
    else Balance(s, i + 1, depth)
  }

  /** Where the value that starts at i, after whitespace, ends. */
  function LooseValue(s: seq<byte>, i: nat): (r: Option<nat>)
    requires i <= |s|
    ensures r.Some? ==> i <= r.value <= |s|
  {
    var j := SkipWs(s, i);
    if j == |s| then None
    else if s[j] == QUOTE then LooseEnd(s, j + 1)
    else if IsOpening(s[j]) then Balance(s, j, 0)
    else Some(StopAt(s, j))
  }

  /** Where a member's value is; the object has no such member; or it is no object. */
  datatype Range = Found(start: nat, end: nat) | Missing | Bad

  /** The name at i, a quote, and its colon: the name as kept, and where its value starts. */
  function LooseMember(s: seq<byte>, i: nat): (r: Option<(seq<byte>, nat)>)
    requires i < |s| && s[i] == QUOTE
    ensures r.Some? ==> i < r.value.1 < |s|
  {
    var e := LooseEnd(s, i + 1);
    if e.None? then None
    else
      var j := SkipWs(s, e.value);
      if j == |s| || s[j] != COLON then None
      else
        var v := SkipWs(s, j + 1);
        if v == |s| then None else Some((LooseName(s, i + 1, []), v))
  }

  /** The first member from i on with this name. */
  function RangeFrom(s: seq<byte>, i: nat, key: seq<byte>): Range
    requires i <= |s|
    decreases |s| - i
  {
    var j := SkipWs(s, i);
    if j == |s| then Bad
    else if s[j] == CLOSE_OBJECT then Missing
    else if s[j] == COMMA then RangeFrom(s, j + 1, key)
    else if s[j] != QUOTE || LooseMember(s, j).None? then Bad
    else
      var (name, v) := LooseMember(s, j).value;
      var end := LooseValue(s, v);
      if end.None? then Bad
      else if name == key then Found(v, end.value)
      else RangeFrom(s, end.value, key)
  }

  function RangeRun(s: seq<byte>, key: seq<byte>): Range {
    var i := SkipWs(s, 0);
    if i == |s| || s[i] != OPEN_OBJECT then Bad else RangeFrom(s, i + 1, key)
  }

  lemma SpaceSkipped(s: seq<byte>, i: nat)
    requires i < |s|
    ensures SkipWs(s, i) == if IsSpace(s[i]) then SkipWs(s, i + 1) else i
  {}

  lemma LooseStep(s: seq<byte>, i: nat)
    requires i <= |s|
    ensures i == |s| ==> LooseEnd(s, i).None?
    ensures i < |s| ==>
              && (s[i] == QUOTE ==> LooseEnd(s, i) == Some(i + 1))
              && (s[i] != QUOTE && s[i] != BACKSLASH ==> LooseEnd(s, i) == LooseEnd(s, i + 1))
              && (s[i] == BACKSLASH && i + 1 == |s| ==> LooseEnd(s, i).None?)
              && (s[i] == BACKSLASH && i + 1 < |s| ==> LooseEnd(s, i) == LooseEnd(s, i + 2))
    ensures QUOTE != BACKSLASH
  {}

  lemma NameStep(s: seq<byte>, i: nat, into: seq<byte>)
    requires i <= |s| && LooseEnd(s, i).Some?
    ensures i < |s| && (s[i] == QUOTE ==> LooseName(s, i, into) == into)
    ensures s[i] != QUOTE && s[i] != BACKSLASH ==>
              LooseEnd(s, i + 1).Some? && LooseName(s, i, into) == LooseName(s, i + 1, Kept(into, [s[i]]))
    ensures s[i] == BACKSLASH ==>
              i + 2 <= |s| && LooseEnd(s, i + 2).Some?
                  && LooseName(s, i, into) == LooseName(s, i + 2, Kept(into, s[i..i + 2]))
  {}

  lemma BalanceStep(s: seq<byte>, i: nat, depth: int)
    requires i <= |s|
    ensures i == |s| ==> Balance(s, i, depth).None?
    ensures i < |s| ==>
              && (IsOpening(s[i]) ==> Balance(s, i, depth) == Balance(s, i + 1, depth + 1))
              && (IsClosing(s[i]) ==>
                    Balance(s, i, depth) == if depth == 1 then Some(i + 1) else Balance(s, i + 1, depth - 1))
              && (s[i] == QUOTE ==>
                    (Balance(s, i, depth) == if LooseEnd(s, i + 1).None? then None
                                             else Balance(s, LooseEnd(s, i + 1).value, depth)))
              && (!IsOpening(s[i]) && !IsClosing(s[i]) && s[i] != QUOTE ==>
                  Balance(s, i, depth) == Balance(s, i + 1, depth))
  {
    hide LooseEnd;
  }

  lemma StopStep(s: seq<byte>, i: nat)
    requires i <= |s|
    ensures StopAt(s, i) == if i < |s| && !IsStop(s[i]) then StopAt(s, i + 1) else i
  {}

  lemma ValueStep(s: seq<byte>, i: nat)
    requires i <= |s|
    ensures var j, r := SkipWs(s, i), LooseValue(s, i);
            && (j == |s| ==> r.None?)
            && (j < |s| ==>
                  && (s[j] == QUOTE ==> r == LooseEnd(s, j + 1))
                  && (IsOpening(s[j]) ==> r == Balance(s, j, 0))
                  && (s[j] != QUOTE && !IsOpening(s[j]) ==> r == Some(StopAt(s, j))))
  {
    hide SkipWs, LooseEnd, Balance, StopAt;
  }

  lemma MemberStep(s: seq<byte>, i: nat)
    requires i < |s| && s[i] == QUOTE
    ensures var e, r := LooseEnd(s, i + 1), LooseMember(s, i);
            if e.None? then r.None?
            else
              var j := SkipWs(s, e.value);
              if j == |s| || s[j] != COLON then r.None?
              else
                var v := SkipWs(s, j + 1);
                r == if v == |s| then None else Some((LooseName(s, i + 1, []), v))
  {
    hide SkipWs, LooseEnd, LooseName;
  }

  lemma RangeStep(s: seq<byte>, i: nat, key: seq<byte>)
    requires i <= |s|
    ensures var j, r := SkipWs(s, i), RangeFrom(s, i, key);
            && (j == |s| ==> r == Bad)
            && (j < |s| ==>
                  && (s[j] == CLOSE_OBJECT ==> r == Missing)
                  && (s[j] == COMMA ==> r == RangeFrom(s, j + 1, key))
                  && (s[j] != CLOSE_OBJECT && s[j] != COMMA && s[j] != QUOTE ==> r == Bad)
                  && (s[j] == QUOTE ==>
                        if LooseMember(s, j).None? then r == Bad
                        else
                          var (name, v) := LooseMember(s, j).value;
                          var end := LooseValue(s, v);
                          r == if end.None? then Bad else if name == key then Found(v, end.value)
                               else RangeFrom(s, end.value, key)))
  {
    hide SkipWs, LooseMember, LooseValue;
  }

  /** Reads a text byte by byte, and knows how far it is. */
  class Scanner {
    const text: seq<byte>
    var off: nat

    ghost predicate Valid()
      reads this
    {
      off <= |text|
    }

    constructor (text: seq<byte>)
      ensures Valid() && this.text == text && off == 0
    {
      this.text, off := text, 0;
    }

    method Next() returns (ok: bool, c: byte)
      requires Valid()
      modifies this
      ensures Valid() && (ok <==> old(off) < |text|)
      ensures ok ==> c == text[old(off)] && off == old(off) + 1
      ensures !ok ==> off == old(off)
    {
      if off == |text| { return false, 0; }
      c := text[off];
      off := off + 1;
      ok := true;
    }

    /** Gives the last byte back. */
    method Unread()
      requires Valid() && off > 0
      modifies this
      ensures Valid() && off == old(off) - 1
    {
      off := off - 1;
    }

    /** Passes over whitespace, and finds the next byte without consuming it. */
    method SkipSpace() returns (ok: bool, c: byte)
      requires Valid()
      modifies this
      ensures Valid() && off == SkipWs(text, old(off)) && (ok <==> off < |text|) && (ok ==> c == text[off])
    {
      hide *;
      InText();
      while true
        invariant Valid() && old(off) <= off <= |text| && SkipWs(text, off) == SkipWs(text, old(off))
        decreases |text| - off
      {
        if off < |text| { SpaceSkipped(text, off); }
        ok, c := Next();
        InText();
        if !ok { return; }
        if IsSpace(c) { continue; }
        Unread();
        InText();
        return;
      }
    }

    lemma InText()
      requires Valid()
      ensures off <= |text|
    {}

    /** Passes over a string whose quote has been read, and keeps it if it is asked to. */
    method ScanString(keep: bool, from: seq<byte>) returns (ok: bool, into: seq<byte>)
      requires Valid()
      modifies this
      ensures Valid() && (ok <==> LooseEnd(text, old(off)).Some?)
      ensures ok ==> off == LooseEnd(text, old(off)).value
                     && into == if keep then LooseName(text, old(off), from) else from
    {
      hide *;
      into := from;
      InText();
      while true
        invariant Valid() && old(off) <= off <= |text| && LooseEnd(text, off) == LooseEnd(text, old(off))
        invariant LooseEnd(text, off).Some? ==>
                    && (keep ==> LooseName(text, off, into) == LooseName(text, old(off), from))
                    && (!keep ==> into == from)
        decreases |text| - off
      {
        ghost var i := off;
        LooseStep(text, i);
        if LooseEnd(text, i).Some? { NameStep(text, i, into); }
        var c;
        ok, c := Next();
        InText();
        if !ok { return; }
        if c == QUOTE { return; }
        if c == BACKSLASH {
          var esc;
          ok, esc := Next();
          InText();
          if !ok { return; }
          assert text[i..i + 2] == [c, esc];
          if keep { into := Keep(into, [c, esc]); }
        } else if keep {
          into := Keep(into, [c]);
        }
      }
    }

    method Keep(from: seq<byte>, more: seq<byte>) returns (into: seq<byte>)
      ensures into == Kept(from, more)
    {
      into := from;
      if |into| < MAX_NAME_BYTES { into := into + more; }
    }

    /** Passes over exactly one value. */
    method SkipValue() returns (ok: bool)
      requires Valid()
      modifies this
      ensures Valid() && (ok <==> LooseValue(text, old(off)).Some?) && (ok ==> off == LooseValue(text, old(off)).value)
    {
      hide *;
      InText();
      ValueStep(text, off);
      var c;
      ok, c := SkipSpace();
      InText();
      if !ok { return; }
      Apart(c);
      if c == QUOTE {
        ok, c := Next();
        var into;
        ok, into := ScanString(false, []);
      } else if IsOpening(c) {
        ok := SkipBrackets();
      } else {
        SkipScalar();
      }
    }

    lemma Apart(c: byte)
      ensures c == QUOTE ==> !IsOpening(c)
    {}

    method SkipBrackets() returns (ok: bool)
      requires Valid()
      modifies this
      ensures Valid() && (ok <==> Balance(text, old(off), 0).Some?) && (ok ==> off == Balance(text, old(off), 0).value)
    {
      hide *;
      InText();
      var depth := 0;
      while true
        invariant Valid() && old(off) <= off <= |text| && Balance(text, off, depth) == Balance(text, old(off), 0)
        decreases |text| - off
      {
        BalanceStep(text, off, depth);
        var b;
        ok, b := Next();
        InText();
        if !ok { return; }
        Kinds(b);
        if IsOpening(b) {
          depth := depth + 1;
        } else if IsClosing(b) {
          depth := depth - 1;
          if depth == 0 { return; }
        } else if b == QUOTE {
          var into;
          ok, into := ScanString(false, []);
          InText();
          if !ok { return; }
        }
      }
    }

    lemma Kinds(c: byte)
      ensures !(IsOpening(c) && IsClosing(c)) && (c == QUOTE ==> !IsOpening(c) && !IsClosing(c))
    {}

    method SkipScalar()
      requires Valid()
      modifies this
      ensures Valid() && off == StopAt(text, old(off))
    {
      hide *;
      InText();
      while true
        invariant Valid() && old(off) <= off <= |text| && StopAt(text, off) == StopAt(text, old(off))
        decreases |text| - off
      {
        StopStep(text, off);
        var ok, b := Next();
        InText();
        if !ok { return; }
        if IsStop(b) {
          Unread();
          return;
        }
      }
    }

    /** The name whose quote is next, its colon, and the whitespace before its value. */
    method ReadMember() returns (ok: bool, name: seq<byte>)
      requires Valid() && off < |text| && text[off] == QUOTE
      modifies this
      ensures Valid() && (ok <==> LooseMember(text, old(off)).Some?)
      ensures ok ==> (name, off) == LooseMember(text, old(off)).value
    {
      hide *;
      InText();
      MemberStep(text, off);
      var c;
      ok, c := Next();
      ok, name := ScanString(true, []);
      InText();
      if !ok { return; }
      ok, c := SkipSpace();
      InText();
      if !ok || c != COLON { return false, name; }
      ok, c := Next();
      ok, c := SkipSpace();
    }

    /** Looks for the key among the members from here on. */
    method Find(key: seq<byte>) returns (r: Range)
      requires Valid()
      modifies this
      ensures r == RangeFrom(text, old(off), key)
    {
      hide *;
      InText();
      while true
        invariant Valid() && old(off) <= off <= |text| && RangeFrom(text, off, key) == RangeFrom(text, old(off), key)
        decreases |text| - off
      {
        RangeStep(text, off, key);
        Bytes();
        var ok, c := SkipSpace();
        InText();
        if !ok { return Bad; }
        if c == CLOSE_OBJECT { return Missing; }
        if c == COMMA {
          ok, c := Next();
          InText();
          continue;
        }
        if c != QUOTE { return Bad; }
        var name;
        ok, name := ReadMember();
        InText();
        if !ok { return Bad; }
        var start := off;
        ok := SkipValue();
        InText();
        if !ok { return Bad; }
        if name == key { return Found(start, off); }
      }
    }

    lemma Bytes()
      ensures CLOSE_OBJECT != COMMA && QUOTE != COMMA && QUOTE != CLOSE_OBJECT
    {}
  }

  /** Where the value of the object's first member with this name is. */
  method MemberRange(text: seq<byte>, key: seq<byte>) returns (r: Range)
    ensures r == RangeRun(text, key)
  {
    hide SkipWs, RangeFrom;
    var s := new Scanner(text);
    var ok, c := s.SkipSpace();
    if !ok || c != OPEN_OBJECT { return Bad; }
    ok, c := s.Next();
    r := s.Find(key);
  }
}

/**
 * What the walker takes, byte by byte (internal/jsonx/rewrite.go:294-307, 329-409, 488-546, 615-634): short texts with
 * one byte left open, each taken exactly for the bytes listed.
 */
module JsonBytes {
  import opened Sections
  import opened JsonScan
  import opened JsonText

  predicate Taken(s: seq<byte>, prefix: seq<PathElem>, u: Setup) { RewriteRun(s, prefix, u).Some? }

  /** A text that starts with a scalar is taken when the scalar is, and only whitespace follows. */
  lemma ScalarAlone(s: seq<byte>, prefix: seq<PathElem>, u: Setup)
    requires s != [] && !IsSpace(s[0]) && s[0] != OPEN_OBJECT && s[0] != OPEN_ARRAY
    ensures var w := ScalarRun(s, Walk(0, [], []), prefix, u.visit);
            Taken(s, prefix, u) <==> w.Some? && SkipWs(s, w.value.at) == |s|
  {
    hide ValueRun, StartRun, NextRun, ScalarRun;
    var v := Walk(0, [], []);
    assert SkipWs(s, 0) == 0 && Copied(s, v, 0) == v;
    StartIs(s, v, prefix, |prefix|, u);
    ScalarIs(s, v, prefix, |prefix|, u);
    var w := ScalarRun(s, v, prefix, u.visit);
    if w.Some? { EndIs(s, w.value, prefix, u); }
  }

  /** A text that starts with a quote is taken when the string ends, and only whitespace follows. */
  lemma TextAlone(s: seq<byte>, prefix: seq<PathElem>, u: Setup)
    requires s != [] && s[0] == 0x22
    ensures Taken(s, prefix, u) <==> StrEnd(s, 1).Some? && SkipWs(s, StrEnd(s, 1).value) == |s|
  {
    hide RewriteRun, SkipWs, StrEnd;
    ScalarAlone(s, prefix, u);
  }

  /** Behind a backslash a string has one of eight bytes, or u. */
  lemma EscapesTaken(b: byte, prefix: seq<PathElem>, u: Setup)
    requires b != 0x75
    ensures Taken([0x22, 0x5C, b, 0x22], prefix, u)
      <==> b == 0x22 || b == 0x5C || b == 0x2F || b == 0x62 || b == 0x66 || b == 0x6E || b == 0x72 || b == 0x74
  {
    var s: seq<byte> := [0x22, 0x5C, b, 0x22];
    hide Taken;
    TextAlone(s, prefix, u);
    assert StrEnd(s, 3) == Some(4);
  }

  /** And behind u four hexadecimal digits, of either case. */
  lemma HexTaken(a: byte, b: byte, c: byte, d: byte, prefix: seq<PathElem>, u: Setup)
    ensures Taken([0x22, 0x5C, 0x75, a, b, c, d, 0x22], prefix, u)
      <==> forall x :: x in [a, b, c, d] ==> 0x30 <= x <= 0x39 || 0x41 <= x <= 0x46 || 0x61 <= x <= 0x66
  {
    var s: seq<byte> := [0x22, 0x5C, 0x75, a, b, c, d, 0x22];
    hide Taken;
    TextAlone(s, prefix, u);
    assert StrEnd(s, 7) == Some(8);
    assert s[3] == a && s[4] == b && s[5] == c && s[6] == d;
    assert HexAt(s, 3, 4) <==> IsHex(a) && IsHex(b) && IsHex(c) && IsHex(d);
    forall x | x in [a, b, c, d]
      ensures IsHex(x) <==> 0x30 <= x <= 0x39 || 0x41 <= x <= 0x46 || 0x61 <= x <= 0x66
    {}
    assert a in [a, b, c, d] && b in [a, b, c, d] && c in [a, b, c, d] && d in [a, b, c, d];
  }

  /** Any other byte stands for itself, but a control byte, a quote or a backslash. */
  lemma PlainTaken(b: byte, prefix: seq<PathElem>, u: Setup)
    ensures Taken([0x22, b, 0x22], prefix, u) <==> b >= 0x20 && b != 0x22 && b != 0x5C
  {
    var s: seq<byte> := [0x22, b, 0x22];
    hide Taken;
    TextAlone(s, prefix, u);
    assert StrEnd(s, 2) == Some(3);
  }

  /** Before and behind a value stand spaces, tabs, carriage returns and line feeds. */
  lemma SpacesTaken(b: byte, prefix: seq<PathElem>, u: Setup)
    ensures Taken([0x22, 0x22, b], prefix, u) <==> b == 0x20 || b == 0x09 || b == 0x0D || b == 0x0A
  {
    var s: seq<byte> := [0x22, 0x22, b];
    hide Taken;
    TextAlone(s, prefix, u);
    assert StrEnd(s, 1) == Some(2);
    assert SkipWs(s, 3) == 3;
  }

  /** The three words, and no other text that starts with a letter and ends without whitespace. */
  lemma WordsTaken(s: seq<byte>, prefix: seq<PathElem>, u: Setup)
    requires s != [] && 0x61 <= s[0] <= 0x7A && s[|s| - 1] >= 0x21
    ensures Taken(s, prefix, u)
      <==> s == [0x74, 0x72, 0x75, 0x65] || s == [0x66, 0x61, 0x6C, 0x73, 0x65] || s == [0x6E, 0x75, 0x6C, 0x6C]
  {
    hide Taken, TextRun, NumberRun;
    ScalarAlone(s, prefix, u);
    forall i | 0 <= i <= |s| ensures SkipWs(s, i) == |s| <==> i == |s| { LastStays(s, i); }
    if s[0] == 0x74 { WordAlone(s, TRUE_TEXT, prefix, Bool, u); }
    if s[0] == 0x66 { WordAlone(s, FALSE_TEXT, prefix, Bool, u); }
    if s[0] == 0x6E { WordAlone(s, NULL_TEXT, prefix, Null, u); }
  }

  lemma LastStays(s: seq<byte>, i: nat)
    requires i <= |s| && s != [] && s[|s| - 1] >= 0x21
    ensures SkipWs(s, i) == |s| <==> i == |s|
  {
    assert !IsSpace(s[|s| - 1]);
  }

  lemma WordAlone(s: seq<byte>, word: seq<byte>, prefix: seq<PathElem>, kind: Kind, u: Setup)
    requires s != [] && word != []
    ensures var w := LiteralRun(s, Walk(0, [], []), word, prefix, kind, u.visit);
            w.Some? && w.value.at == |s| <==> s == word
  {
    assert s[0..] == s;
    if word <= s && |word| == |s| { assert s[..|s|] == s; }
  }

  // Numbers.

  lemma NumberAlone(s: seq<byte>, prefix: seq<PathElem>, u: Setup)
    requires s != [] && (s[0] == 0x2D || 0x30 <= s[0] <= 0x39)
    ensures var (e, last) := NumEnd(s, 0, NumStart);
            Taken(s, prefix, u) <==> NumComplete(last) && e <= MAX_VISIT_STRING && SkipWs(s, e) == |s|
  {
    hide RewriteRun, SkipWs, NumEnd, Taken, TextRun, LiteralRun;
    ScalarAlone(s, prefix, u);
  }

  /** One byte is a number when it is a digit, and is no other value. */
  lemma DigitsTaken(b: byte, prefix: seq<PathElem>, u: Setup)
    ensures Taken([b], prefix, u) <==> 0x30 <= b <= 0x39
  {
    var s: seq<byte> := [b];
    if 0x30 <= b <= 0x39 {
      hide Taken;
      NumberAlone(s, prefix, u);
      assert NumEnd(s, 0, NumStart) == NumEnd(s, 1, if b == 0x30 then NumZero else NumInt);
    } else if IsSpace(b) {
      hide ValueRun;
      assert SkipWs(s, 0) == SkipWs(s, 1) == 1;
      StartIs(s, Walk(0, [], []), prefix, |prefix|, u);
    } else if b == OPEN_OBJECT || b == OPEN_ARRAY {
      hide ValueRun, StartRun;
      var v := Walk(0, [], []);
      assert SkipWs(s, 0) == 0 && SkipWs(s, 1) == 1 && Copied(s, v, 0) == v;
      StartIs(s, v, prefix, |prefix|, u);
      OpenIs(s, v, prefix, |prefix|, b == OPEN_ARRAY, u);
    } else {
      hide Taken;
      ScalarAlone(s, prefix, u);
      assert StrEnd(s, 1).None?;
      if b == 0x2D { assert NumEnd(s, 0, NumStart) == NumEnd(s, 1, NumSign); }
    }
  }

  /** Between two digits a number has a third, a point, or the mark of an exponent. */
  lemma MarksTaken(b: byte, prefix: seq<PathElem>, u: Setup)
    ensures Taken([0x31, b, 0x31], prefix, u) <==> 0x30 <= b <= 0x39 || b == 0x2E || b == 0x65 || b == 0x45
  {
    var s: seq<byte> := [0x31, b, 0x31];
    hide Taken;
    NumberAlone(s, prefix, u);
    var next := NumStep(NumInt, b);
    assert NumEnd(s, 0, NumStart) == NumEnd(s, 1, NumInt);
    if next.Some? {
      assert NumEnd(s, 1, NumInt) == NumEnd(s, 2, next.value);
      assert NumEnd(s, 2, next.value) == NumEnd(s, 3, NumStep(next.value, 0x31).value);
    } else {
      assert SkipWs(s, 2) == 2;
    }
  }

  /** And behind that mark a digit or a sign. */
  lemma SignsTaken(b: byte, prefix: seq<PathElem>, u: Setup)
    ensures Taken([0x31, 0x65, b, 0x31], prefix, u) <==> 0x30 <= b <= 0x39 || b == 0x2B || b == 0x2D
  {
    var s: seq<byte> := [0x31, 0x65, b, 0x31];
    hide Taken;
    NumberAlone(s, prefix, u);
    var next := NumStep(NumE, b);
    assert NumEnd(s, 0, NumStart) == NumEnd(s, 1, NumInt) == NumEnd(s, 2, NumE);
    if next.Some? {
      assert NumEnd(s, 2, NumE) == NumEnd(s, 3, next.value);
      assert NumEnd(s, 3, next.value) == NumEnd(s, 4, NumStep(next.value, 0x31).value);
    }
  }

  /** A number starts with a digit or a minus; a zero is followed by no digit. */
  lemma LeadsTaken(b: byte, prefix: seq<PathElem>, u: Setup)
    requires b == 0x2D || 0x30 <= b <= 0x39
    ensures Taken([b, 0x31], prefix, u) <==> b != 0x30
  {
    var s: seq<byte> := [b, 0x31];
    hide Taken;
    NumberAlone(s, prefix, u);
    var first := NumStep(NumStart, b).value;
    assert NumEnd(s, 0, NumStart) == NumEnd(s, 1, first);
    if b == 0x30 {
      assert SkipWs(s, 1) == 1;
    } else {
      assert NumEnd(s, 1, first) == NumEnd(s, 2, NumInt);
    }
  }

  // Brackets, commas and colons.

  /** An empty string inside a container, at i. */
  lemma EmptyText(s: seq<byte>, w: Walk, i: nat, path: seq<PathElem>, floor: nat, u: Setup) returns (v: Walk)
    requires w.at <= i && i + 2 <= |s| && s[i] == s[i + 1] == 0x22 && SkipWs(s, w.at) == i && floor <= |path|
    ensures v.at == i + 2 && ValueRun(s, w, path, floor, false, u) == ValueRun(s, v, path, floor, true, u)
  {
    hide ValueRun, StartRun, NextRun, SkipWs;
    StartIs(s, w, path, floor, u);
    var c := Copied(s, w, i);
    ScalarIs(s, c, path, floor, u);
    assert StrEnd(s, i + 1) == Some(i + 2);
    v := ScalarRun(s, c, path, u.visit).value;
  }

  /** The text's first byte, a bracket, and what is behind it. */
  lemma Opened(s: seq<byte>, prefix: seq<PathElem>, u: Setup)
    requires s != [] && (s[0] == 0x5B || s[0] == 0x7B)
    ensures ValueRun(s, Walk(0, [], []), prefix, |prefix|, false, u)
         == StartRun(s, Walk(0, [], []), prefix, |prefix|, u)
  {
    hide ValueRun, StartRun;
    assert SkipWs(s, 0) == 0 && Copied(s, Walk(0, [], []), 0) == Walk(0, [], []);
    StartIs(s, Walk(0, [], []), prefix, |prefix|, u);
  }

  /** Two items of an array have a comma between them. */
  lemma CommasTaken(b: byte, prefix: seq<PathElem>, u: Setup)
    ensures Taken([0x5B, 0x22, 0x22, b, 0x22, 0x22, 0x5D], prefix, u) <==> b == 0x2C
  {
    var s: seq<byte> := [0x5B, 0x22, 0x22, b, 0x22, 0x22, 0x5D];
    hide ValueRun, StartRun, NextRun;
    Opened(s, prefix, u);
    assert SkipWs(s, 1) == 1 && SkipWs(s, 4) == 4 && SkipWs(s, 6) == 6 && SkipWs(s, 7) == 7;
    assert SkipWs(s, 3) == if IsSpace(b) then 4 else 3;
    hide SkipWs;
    OpenIs(s, Walk(0, [], []), prefix, |prefix|, true, u);
    var inside := Copied(s, Walk(0, [], []), 1);
    var deeper := prefix + [Index(0)];
    var v := EmptyText(s, inside, 1, deeper, |prefix|, u);
    NextIs(s, v, deeper, |prefix|, u);
    var w := Copied(s, v, SkipWs(s, 3));
    FollowIs(s, w, deeper, |prefix|, u);
    if b == 0x2C {
      SecondItem(s, Copied(s, w, 4), deeper[|prefix| := Index(1)], prefix, u);
    } else if b == 0x5D {
      Closes(s, w, deeper, prefix, u);
    }
  }

  lemma SecondItem(s: seq<byte>, w: Walk, path: seq<PathElem>, prefix: seq<PathElem>, u: Setup)
    requires w.at == 4 && |s| == 7 && s[4] == s[5] == 0x22 && s[6] == 0x5D
    requires |path| == |prefix| + 1 && path[..|prefix|] == prefix && path[|prefix|].Index?
    ensures var r := ValueRun(s, w, path, |prefix|, false, u); r.Some? && r.value.at == 7
  {
    hide ValueRun, StartRun, NextRun;
    assert SkipWs(s, 4) == 4 && SkipWs(s, 6) == 6;
    var x := EmptyText(s, w, 4, path, |prefix|, u);
    NextIs(s, x, path, |prefix|, u);
    Closes(s, Copied(s, x, 6), path, prefix, u);
  }

  /** A member's name has a colon behind it. */
  lemma ColonsTaken(b: byte, prefix: seq<PathElem>, u: Setup)
    ensures Taken([0x7B, 0x22, 0x22, b, 0x22, 0x22, 0x7D], prefix, u) <==> b == 0x3A
  {
    var s: seq<byte> := [0x7B, 0x22, 0x22, b, 0x22, 0x22, 0x7D];
    hide ValueRun, StartRun, NextRun;
    Opened(s, prefix, u);
    assert SkipWs(s, 1) == 1 && SkipWs(s, 4) == 4 && SkipWs(s, 6) == 6 && SkipWs(s, 7) == 7;
    assert SkipWs(s, 3) == if IsSpace(b) then 4 else 3;
    assert StrEnd(s, 2) == Some(3);
    hide SkipWs, StrEnd;
    OpenIs(s, Walk(0, [], []), prefix, |prefix|, false, u);
    var inside := Copied(s, Walk(0, [], []), 1);
    var deeper := prefix + [Key([])];
    if b == 0x3A {
      var n := NameRun(s, inside).value;
      var path := NamedPath(deeper, n.0, u);
      var x := EmptyText(s, n.1, 4, path, |prefix|, u);
      NextIs(s, x, path, |prefix|, u);
      Closes(s, Copied(s, x, 6), path, prefix, u);
    } else {
      assert NameRun(s, inside).None?;
    }
  }

  lemma SecondMember(s: seq<byte>, w: Walk, path: seq<PathElem>, prefix: seq<PathElem>, u: Setup)
    returns (m: (seq<byte>, Walk), x: Walk)
    requires w.at == 7 && |s| == 13 && s[7..] == [0x22, 0x22, 0x3A, 0x22, 0x22, 0x7D]
    requires |path| == |prefix| + 1 && path[..|prefix|] == prefix && path[|prefix|].Key?
    ensures NameRun(s, w) == Some(m)
    ensures ValueRun(s, m.1, NamedPath(path, m.0, u), |prefix|, false, u) == Some(x) && x.at == 13
  {
    hide ValueRun, StartRun, NextRun;
    assert forall k :: 7 <= k < 13 ==> s[k] == s[7..][k - 7];
    assert s[7] == s[8] == 0x22 && s[9] == 0x3A && s[10] == s[11] == 0x22 && s[12] == 0x7D;
    assert SkipWs(s, 7) == 7 && SkipWs(s, 9) == 9 && SkipWs(s, 10) == 10 && SkipWs(s, 12) == 12;
    assert StrEnd(s, 8) == Some(9);
    hide SkipWs, StrEnd;
    m := NameRun(s, w).value;
    var next := NamedPath(path, m.0, u);
    var v := EmptyText(s, m.1, 10, next, |prefix|, u);
    NextIs(s, v, next, |prefix|, u);
    Closes(s, Copied(s, v, 12), next, prefix, u);
    x := Copied(s, Copied(s, v, 12), 13);
  }

  /** An object's first member, its name and its value both empty strings. */
  lemma FirstMember(s: seq<byte>, prefix: seq<PathElem>, u: Setup) returns (path: seq<PathElem>, v: Walk)
    requires |s| == 13 && s[..6] == [0x7B, 0x22, 0x22, 0x3A, 0x22, 0x22]
    ensures v.at == 6 && |path| == |prefix| + 1 && path[..|prefix|] == prefix && path[|prefix|].Key?
    ensures ValueRun(s, Walk(0, [], []), prefix, |prefix|, false, u) == ValueRun(s, v, path, |prefix|, true, u)
  {
    assert forall k :: 0 <= k < 6 ==> s[k] == s[..6][k];
    assert s[0] == 0x7B && s[1] == s[2] == 0x22 && s[3] == 0x3A && s[4] == s[5] == 0x22;
    assert SkipWs(s, 1) == 1 && SkipWs(s, 3) == 3 && SkipWs(s, 4) == 4 && StrEnd(s, 2) == Some(3);
    hide ValueRun, StartRun, NextRun, SkipWs, StrEnd;
    Opened(s, prefix, u);
    OpenIs(s, Walk(0, [], []), prefix, |prefix|, false, u);
    var inside := Copied(s, Walk(0, [], []), 1);
    var n := NameRun(s, inside).value;
    path := NamedPath(prefix + [Key([])], n.0, u);
    v := EmptyText(s, n.1, 4, path, |prefix|, u);
  }

  /** Two members of an object have a comma between them. */
  lemma MembersTaken(b: byte, prefix: seq<PathElem>, u: Setup)
    ensures Taken([0x7B, 0x22, 0x22, 0x3A, 0x22, 0x22, b, 0x22, 0x22, 0x3A, 0x22, 0x22, 0x7D], prefix, u)
      <==> b == 0x2C
  {
    var s: seq<byte> := [0x7B, 0x22, 0x22, 0x3A, 0x22, 0x22, b, 0x22, 0x22, 0x3A, 0x22, 0x22, 0x7D];
    assert SkipWs(s, 6) == if IsSpace(b) then 7 else 6;
    assert SkipWs(s, 7) == 7 && SkipWs(s, 13) == 13;
    hide ValueRun, StartRun, NextRun, SkipWs, StrEnd, NameRun;
    var path, v := FirstMember(s, prefix, u);
    NextIs(s, v, path, |prefix|, u);
    var w := Copied(s, v, SkipWs(s, 6));
    FollowIs(s, w, path, |prefix|, u);
    if b == 0x2C {
      var m, x := SecondMember(s, Copied(s, w, 7), path, prefix, u);
    } else if b == 0x7D {
      Closes(s, w, path, prefix, u);
    }
  }

  /** Two bytes that are no digits, signs or whitespace are an empty array, an empty object, or an empty string. */
  lemma PairsTaken(a: byte, b: byte, prefix: seq<PathElem>, u: Setup)
    requires a > 0x20 && b > 0x20 && a != 0x2D && b != 0x2D && !(0x30 <= a <= 0x39) && !(0x30 <= b <= 0x39)
    ensures Taken([a, b], prefix, u) <==> (a == 0x5B && b == 0x5D) || (a == 0x7B && b == 0x7D) || a == b == 0x22
  {
    var s: seq<byte> := [a, b];
    assert SkipWs(s, 0) == 0 && SkipWs(s, 1) == 1 && SkipWs(s, 2) == 2;
    assert StrEnd(s, 1) == if b == 0x22 then Some(2) else None;
    assert StrEnd(s, 2).None?;
    if a == 0x5B || a == 0x7B {
      hide ValueRun, StartRun, NextRun, SkipWs, StrEnd;
      Opened(s, prefix, u);
      OpenIs(s, Walk(0, [], []), prefix, |prefix|, a == 0x5B, u);
      var inside := Copied(s, Walk(0, [], []), 1);
      if b == (if a == 0x5B then 0x5D else 0x7D) {
        EndIs(s, Copied(s, inside, 2), prefix, u);
      } else if a == 0x5B {
        NoItem(s, inside, prefix + [Index(0)], |prefix|, u);
      } else {
        assert NameRun(s, inside).None?;
      }
    } else {
      hide Taken, SkipWs, StrEnd;
      ScalarAlone(s, prefix, u);
    }
  }

  lemma NoItem(s: seq<byte>, w: Walk, path: seq<PathElem>, floor: nat, u: Setup)
    requires |s| == 2 && w.at == 1 && s[1] > 0x20 && s[1] != 0x2D && !(0x30 <= s[1] <= 0x39) && floor <= |path|
    ensures ValueRun(s, w, path, floor, false, u).None?
  {
    assert SkipWs(s, 1) == 1 && SkipWs(s, 2) == 2 && StrEnd(s, 2).None?;
    hide ValueRun, StartRun, NextRun, SkipWs, StrEnd;
    StartIs(s, w, path, floor, u);
    var c := Copied(s, w, 1);
    if s[1] == 0x5B || s[1] == 0x7B {
      OpenIs(s, c, path, floor, s[1] == 0x5B, u);
    } else {
      ScalarIs(s, c, path, floor, u);
    }
  }

  /** The last bracket of a container that is the whole value. */
  lemma Closes(s: seq<byte>, v: Walk, path: seq<PathElem>, prefix: seq<PathElem>, u: Setup)
    requires v.at < |s| && |path| == |prefix| + 1 && path[..|prefix|] == prefix
    requires s[v.at] == if path[|prefix|].Index? then 0x5D else 0x7D
    ensures NextRun(s, v, path, |prefix|, u) == Some(Copied(s, v, v.at + 1))
  {
    hide ValueRun, NextRun;
    FollowIs(s, v, path, |prefix|, u);
    EndIs(s, Copied(s, v, v.at + 1), prefix, u);
  }
}

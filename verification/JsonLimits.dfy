/**
 * Strings as any writer of JSON writes them, and the walker's limits, in numbers (internal/jsonx/rewrite.go:47-61,
 * 329-345, 439-483, 577-612).
 */
module JsonLimits {
  import opened Sections
  import opened JsonScan
  import opened JsonNumber
  import opened JsonText
  import opened JsonWalk
  import opened JsonRewrite
  import opened JsonBytes

  function HexDigit(n: nat): byte
    requires n < 16
  {
    if n < 10 then (0x30 + n) as byte else (0x61 + (n - 10)) as byte
  }

  /** A byte of a string as it is written: quotes, backslashes and control bytes behind a backslash. */
  function Written(b: byte): seq<byte> {
    if b == 0x22 || b == 0x5C then [0x5C, b]
    else if b == 0x08 then [0x5C, 0x62]
    else if b == 0x0C then [0x5C, 0x66]
    else if b == 0x0A then [0x5C, 0x6E]
    else if b == 0x0D then [0x5C, 0x72]
    else if b == 0x09 then [0x5C, 0x74]
    else if b < 0x20 then [0x5C, 0x75, 0x30, 0x30, HexDigit(b as nat / 16), HexDigit(b as nat % 16)]
    else [b]
  }

  function WrittenAll(content: seq<byte>): seq<byte>
    decreases |content|
  {
    if content == [] then [] else Written(content[0]) + WrittenAll(content[1..])
  }

  function Quoted(content: seq<byte>): seq<byte> { [0x22] + (WrittenAll(content) + [0x22]) }

  lemma WrittenLetter(b: byte) returns (c: Letter)
    ensures GoodLetter(c) && LetterRaw(c) == Written(b)
  {
    if b == 0x22 || b == 0x5C {
      c := Escaped(b);
    } else if b == 0x08 {
      c := Escaped(0x62);
    } else if b == 0x0C {
      c := Escaped(0x66);
    } else if b == 0x0A {
      c := Escaped(0x6E);
    } else if b == 0x0D {
      c := Escaped(0x72);
    } else if b == 0x09 {
      c := Escaped(0x74);
    } else if b < 0x20 {
      c := Unicode([0x30, 0x30, HexDigit(b as nat / 16), HexDigit(b as nat % 16)]);
    } else {
      c := Plain(b);
    }
  }

  lemma {:induction false} WrittenLetters(content: seq<byte>) returns (cs: seq<Letter>)
    ensures GoodLetters(cs) && LettersRaw(cs) == WrittenAll(content)
    decreases |content|
  {
    if content == [] {
      cs := [];
    } else {
      var c := WrittenLetter(content[0]);
      var rest := WrittenLetters(content[1..]);
      cs := [c] + rest;
      hide GoodLetters, LetterRaw, Written;
      LettersJoin(c, rest);
    }
  }

  /**
   * Any bytes, written as a string, are taken: the visitor is shown the string once, whole up to 4096 bytes and else
   * only told of it, and what it does not replace comes out as it was.
   */
  lemma StringsTaken(content: seq<byte>, prefix: seq<PathElem>, u: Setup)
    ensures Taken(Quoted(content), prefix, u)
    ensures u.visit.Some? ==>
              RewriteRun(Quoted(content), prefix, u).value.calls
                == [if |Quoted(content)| <= 4096 then Call(prefix, Text, Quoted(content))
                    else Call(prefix, LongString, [])]
    ensures u.visit.None? ==> RewriteRun(Quoted(content), prefix, u).value.out == Quoted(content)
  {
    var cs := WrittenLetters(content);
    var t := Whole([], Str(cs), []);
    assert WholeRaw(t) == Quoted(content);
    hide RewriteRun, LettersRaw, GoodLetters;
    RewriteSubstitutes(t, prefix, u);
    assert [] + (StrRaw(cs) + []) == StrRaw(cs);
  }

  // Numbers and names.

  function Ones(n: nat): seq<byte> { seq(n, _ => 0x31) }

  lemma {:induction false} OnesRun(n: nat, i: nat)
    requires 0 < i <= n
    ensures NumEnd(Ones(n), i, NumInt) == (n, NumInt)
    decreases n - i
  {
    if i < n { OnesRun(n, i + 1); }
  }

  /** A number is taken up to 4096 bytes. */
  lemma LongNumbers(n: nat, prefix: seq<PathElem>, u: Setup)
    requires n > 0
    ensures Taken(Ones(n), prefix, u) <==> n <= 4096
  {
    var s := Ones(n);
    assert NumEnd(s, 0, NumStart) == NumEnd(s, 1, NumInt);
    OnesRun(n, 1);
    assert SkipWs(s, n) == n;
    hide Taken;
    NumberAlone(s, prefix, u);
  }

  /** {"111...":""}, its name of n bytes. */
  function NamedOnes(n: nat): seq<byte> { [0x7B, 0x22] + (Ones(n) + [0x22, 0x3A, 0x22, 0x22, 0x7D]) }

  lemma {:induction false} OnesEnd(n: nat, i: nat)
    requires 2 <= i <= n + 2
    ensures StrEnd(NamedOnes(n), i) == Some(n + 3)
    decreases n + 2 - i
  {
    if i < n + 2 { OnesEnd(n, i + 1); }
  }

  lemma NamedBytes(n: nat)
    ensures var s := NamedOnes(n);
            && |s| == n + 7 && s[0] == 0x7B && s[1] == 0x22 && s[n + 2] == 0x22 && s[n + 3] == 0x3A
            && s[n + 4] == s[n + 5] == 0x22 && s[n + 6] == 0x7D
            && SkipWs(s, 1) == 1 && SkipWs(s, n + 3) == n + 3 && SkipWs(s, n + 4) == n + 4
            && SkipWs(s, n + 6) == n + 6 && SkipWs(s, n + 7) == n + 7
  {}

  lemma LongName(n: nat, w: Walk)
    requires w.at == 1
    ensures NameRun(NamedOnes(n), w).Some? <==> n + 2 <= 4096
    ensures NameRun(NamedOnes(n), w).Some? ==> NameRun(NamedOnes(n), w).value.1.at == n + 4
  {
    NamedBytes(n);
    OnesEnd(n, 2);
    hide SkipWs, StrEnd, NamedOnes;
  }

  /** What is behind the name is taken. */
  lemma NamedValue(n: nat, w: Walk, path: seq<PathElem>, prefix: seq<PathElem>, u: Setup)
    requires w.at == n + 4 && |path| == |prefix| + 1 && path[..|prefix|] == prefix && path[|prefix|].Key?
    ensures |NamedOnes(n)| == n + 7
    ensures var r := ValueRun(NamedOnes(n), w, path, |prefix|, false, u); r.Some? && r.value.at == n + 7
  {
    hide *;
    var s := NamedOnes(n);
    NamedBytes(n);
    var x := EmptyText(s, w, n + 4, path, |prefix|, u);
    NextIs(s, x, path, |prefix|, u);
    CopiedAt(s, x, n + 6);
    Closes(s, Copied(s, x, n + 6), path, prefix, u);
    CopiedAt(s, Copied(s, x, n + 6), n + 7);
  }

  lemma CopiedAt(s: seq<byte>, w: Walk, j: nat)
    requires w.at <= j <= |s|
    ensures Copied(s, w, j).at == j
  {}

  /** A name is taken up to 4096 bytes, its quotes among them. */
  lemma LongNames(n: nat, prefix: seq<PathElem>, u: Setup)
    ensures Taken(NamedOnes(n), prefix, u) <==> n + 2 <= 4096
  {
    var s := NamedOnes(n);
    NamedBytes(n);
    hide ValueRun, StartRun, NextRun, NameRun, SkipWs, StrEnd, NamedOnes;
    Opened(s, prefix, u);
    OpenIs(s, Walk(0, [], []), prefix, |prefix|, false, u);
    var inside := Copied(s, Walk(0, [], []), 1);
    LongName(n, inside);
    if n + 2 <= 4096 {
      var name := NameRun(s, inside).value;
      NamedValue(n, name.1, NamedPath(prefix + [Key([])], name.0, u), prefix, u);
    }
  }

  // Depth.

  /** n arrays, one inside the other. */
  function Nested(n: nat): seq<byte> { seq(n, _ => 0x5B) + seq(n, _ => 0x5D) }

  function NestedDoc(n: nat): Doc
    requires n > 0
    decreases n
  {
    if n == 1 then Empty(true, []) else Full(true, Last(Slot([]), NestedDoc(n - 1), []))
  }

  lemma {:induction false} NestedIs(n: nat)
    requires n > 0
    ensures Raw(NestedDoc(n)) == Nested(n) && Good(NestedDoc(n)) && Depth(NestedDoc(n)) == n
    decreases n
  {
    if n > 1 {
      NestedIs(n - 1);
      var inner := Nested(n - 1);
      assert [0x5B] + ([] + (inner + ([] + [0x5D]))) == Nested(n);
    }
  }

  /** Behind k opening brackets, as many containers open: past 10000 nothing is taken. */
  lemma {:induction false} TooDeep(n: nat, w: Walk, path: seq<PathElem>, floor: nat, u: Setup)
    requires n > 10000 && w.at <= 10000 && |path| == floor + w.at
    ensures ValueRun(Nested(n), w, path, floor, false, u).None?
    decreases 10000 - w.at
  {
    var s := Nested(n);
    assert SkipWs(s, w.at) == w.at && SkipWs(s, w.at + 1) == w.at + 1 by {
      assert s[w.at] == 0x5B && (w.at + 1 < n ==> s[w.at + 1] == 0x5B) && (w.at + 1 == n ==> s[w.at + 1] == 0x5D);
    }
    hide ValueRun, StartRun, NextRun, SkipWs;
    StartIs(s, w, path, floor, u);
    var v := Copied(s, w, w.at);
    OpenIs(s, v, path, floor, true, u);
    if w.at < 10000 { TooDeep(n, Copied(s, v, w.at + 1), path + [Index(0)], floor, u); }
  }

  /** Values nest 10000 deep, and no deeper. */
  lemma DepthTaken(n: nat, prefix: seq<PathElem>, u: Setup)
    requires n > 0
    ensures Taken(Nested(n), prefix, u) <==> n <= 10000
  {
    if n <= 10000 {
      NestedIs(n);
      var t := Whole([], NestedDoc(n), []);
      hide Raw, Good, Depth, RewriteRun;
      assert [] + (Nested(n) + []) == Nested(n);
      assert GoodWhole(t) && WholeRaw(t) == Nested(n);
      RewriteSubstitutes(t, prefix, u);
    } else {
      hide ValueRun;
      TooDeep(n, Walk(0, [], []), prefix, |prefix|, u);
    }
  }

  // What the visitor is shown.

  /** Words and numbers are shown as they are, each as its kind. */
  lemma KindsShown(n: NumberText, prefix: seq<PathElem>, u: Setup)
    requires u.visit.Some? && GoodNumber(n) && |NumberRaw(n)| <= 4096
    ensures ShownOf([0x74, 0x72, 0x75, 0x65], prefix, u) == [Call(prefix, Bool, [0x74, 0x72, 0x75, 0x65])]
    ensures ShownOf([0x66, 0x61, 0x6C, 0x73, 0x65], prefix, u) == [Call(prefix, Bool, [0x66, 0x61, 0x6C, 0x73, 0x65])]
    ensures ShownOf([0x6E, 0x75, 0x6C, 0x6C], prefix, u) == [Call(prefix, Null, [0x6E, 0x75, 0x6C, 0x6C])]
    ensures ShownOf(NumberRaw(n), prefix, u) == [Call(prefix, Number, NumberRaw(n))]
  {
    ScalarShown(Lit(True), prefix, u);
    ScalarShown(Lit(False), prefix, u);
    ScalarShown(Lit(Nothing), prefix, u);
    ScalarShown(Num(n), prefix, u);
  }

  function ShownOf(s: seq<byte>, prefix: seq<PathElem>, u: Setup): seq<Call> {
    var r := RewriteRun(s, prefix, u);
    if r.None? then [] else r.value.calls
  }

  lemma ScalarShown(d: Doc, prefix: seq<PathElem>, u: Setup)
    requires Scalar(d) && Good(d) && u.visit.Some?
    ensures ShownOf(Raw(d), prefix, u) == [CallFor(d, prefix)]
  {
    var t := Whole([], d, []);
    assert [] + (Raw(d) + []) == Raw(d);
    hide RewriteRun, Raw;
    RewriteSubstitutes(t, prefix, u);
  }

  /** Items are numbered from 0, and members go by their names, without the quotes. */
  lemma PathsShown(prefix: seq<PathElem>, u: Setup)
    requires u.visit.Some?
    ensures ShownOf([0x5B, 0x22, 0x22, 0x2C, 0x22, 0x22, 0x5D], prefix, u)
      == [Call(prefix + [Index(0)], Text, [0x22, 0x22]), Call(prefix + [Index(1)], Text, [0x22, 0x22])]
    ensures ShownOf([0x7B, 0x22, 0x61, 0x22, 0x3A, 0x22, 0x22, 0x7D], prefix, u)
      == [Call(prefix + [Key([0x61])], Text, [0x22, 0x22])]
  {
    ItemsPaths(prefix, u);
    MembersPaths(prefix, u);
  }

  lemma ItemsPaths(prefix: seq<PathElem>, u: Setup)
    requires u.visit.Some?
    ensures ShownOf([0x5B, 0x22, 0x22, 0x2C, 0x22, 0x22, 0x5D], prefix, u)
      == [Call(prefix + [Index(0)], Text, [0x22, 0x22]), Call(prefix + [Index(1)], Text, [0x22, 0x22])]
  {
    var last := Last(Slot([]), Str([]), []);
    var d := Full(true, More(Slot([]), Str([]), [], last));
    var t := Whole([], d, []);
    assert StrRaw([]) == [0x22, 0x22];
    assert ItemsRaw(last, true) == [0x22, 0x22, 0x5D];
    assert Raw(d) == [0x5B, 0x22, 0x22, 0x2C, 0x22, 0x22, 0x5D];
    assert WholeRaw(t) == Raw(d) && GoodWhole(t);
    assert ItemsShown(last, prefix, 1, u) == [Call(prefix + [Index(1)], Text, [0x22, 0x22])];
    hide RewriteRun;
    RewriteSubstitutes(t, prefix, u);
  }

  lemma MembersPaths(prefix: seq<PathElem>, u: Setup)
    requires u.visit.Some?
    ensures ShownOf([0x7B, 0x22, 0x61, 0x22, 0x3A, 0x22, 0x22, 0x7D], prefix, u)
      == [Call(prefix + [Key([0x61])], Text, [0x22, 0x22])]
  {
    var name := [Plain(0x61)];
    var last := Last(Named([], name, [], []), Str([]), []);
    var t := Whole([], Full(false, last), []);
    assert LettersRaw(name) == [0x61] + LettersRaw(name[1..]) == [0x61];
    assert StrRaw(name) == [0x22, 0x61, 0x22] && StrRaw([]) == [0x22, 0x22];
    assert ItemsRaw(last, false) == [0x22, 0x61, 0x22, 0x3A, 0x22, 0x22, 0x7D];
    assert WholeRaw(t) == [0x7B, 0x22, 0x61, 0x22, 0x3A, 0x22, 0x22, 0x7D] && GoodWhole(t);
    assert Decoded(StrRaw(name), u.decode) == [0x61];
    hide RewriteRun;
    RewriteSubstitutes(t, prefix, u);
  }
}

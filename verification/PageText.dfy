/**
 * The text of a page selection (internal/pdfsplit/pages.go), and of a part's file name
 * (internal/engine/workdir.go).
 */
module PageText {
  import opened Sections
  import opened Planning

  /** The largest page number an int holds. */
  const MAX_INT := 0x7FFF_FFFF_FFFF_FFFF

  datatype PageRange = PageRange(first: int, last: int)

  predicate Digit(c: char) { '0' <= c <= '9' }

  predicate AllDigits(s: string) { forall i :: 0 <= i < |s| ==> Digit(s[i]) }

  predicate Blank(c: char) { c == ' ' || c == '\t' }

  function DigitOf(n: nat): (c: char)
    requires n < 10
    ensures Digit(c) && ValueOf(c) == n
  {
    ['0', '1', '2', '3', '4', '5', '6', '7', '8', '9'][n]
  }

  function ValueOf(c: char): nat
    requires Digit(c)
  {
    c as int - '0' as int
  }

  /** The digits of n, without leading zeros. */
  function Itoa(n: nat): (s: string)
    ensures s != [] && AllDigits(s)
    decreases n
  {
    (if n < 10 then [] else Itoa(n / 10)) + [DigitOf(n % 10)]
  }

  /** The number a text of digits stands for. */
  function NumberOf(s: string): nat
    requires AllDigits(s)
    decreases |s|
  {
    if s == [] then 0 else 10 * NumberOf(s[..|s| - 1]) + ValueOf(s[|s| - 1])
  }

  lemma {:induction false} ItoaNumber(n: nat)
    ensures NumberOf(Itoa(n)) == n
    decreases n
  {
    var s := Itoa(n);
    if n < 10 {
      assert s[..|s| - 1] == [];
    } else {
      ItoaNumber(n / 10);
      assert s[..|s| - 1] == Itoa(n / 10);
    }
  }

  /** s without the blanks before and after it. */
  function Trim(s: string): string
    decreases |s|
  {
    if s != [] && Blank(s[0]) then Trim(s[1..])
    else if s != [] && Blank(s[|s| - 1]) then Trim(s[..|s| - 1])
    else s
  }

  /** A page number: digits, blanks around them allowed, at least 1 and no more than an int holds. */
  function PageNumber(s: string): Option<nat> {
    var t := Trim(s);
    if t == [] || !AllDigits(t) || NumberOf(t) < 1 || NumberOf(t) > MAX_INT then None else Some(NumberOf(t))
  }

  /** Where c first is in s, or |s|. */
  function IndexOf(s: string, c: char): (i: nat)
    ensures i <= |s| && (i < |s| ==> s[i] == c) && forall k :: 0 <= k < i ==> s[k] != c
    decreases |s|
  {
    if s == [] || s[0] == c then 0 else 1 + IndexOf(s[1..], c)
  }

  /** One term of a selection: a page, or a first and a last page. */
  function Term(t: string): Option<PageRange> {
    var i := IndexOf(t, '-');
    var a := PageNumber(t[..i]);
    if a.None? then None
    else if i == |t| then Some(PageRange(a.value, a.value))
    else
      var b := PageNumber(t[i + 1..]);
      if b.None? || b.value < a.value then None else Some(PageRange(a.value, b.value))
  }

  /** The ranges a selection names, or nothing for anything that is not one. */
  function Parsed(spec: string): Option<seq<PageRange>>
    decreases |spec|
  {
    var i := IndexOf(spec, ',');
    var t := Term(spec[..i]);
    if t.None? then None
    else if i == |spec| then Some([t.value])
    else
      var rest := Parsed(spec[i + 1..]);
      if rest.None? then None else Some([t.value] + rest.value)
  }

  function TermText(r: PageRange): string
    requires 0 <= r.first <= r.last
  {
    Itoa(r.first) + if r.first < r.last then "-" + Itoa(r.last) else ""
  }

  predicate Proper(r: PageRange) { 1 <= r.first <= r.last <= MAX_INT }

  predicate AllProper(rs: seq<PageRange>) { forall i :: 0 <= i < |rs| ==> Proper(rs[i]) }

  /** The text of ranges, comma-separated. */
  function Text(rs: seq<PageRange>): string
    requires AllProper(rs)
    decreases |rs|
  {
    if rs == [] then ""
    else if |rs| == 1 then TermText(rs[0])
    else TermText(rs[0]) + "," + Text(rs[1..])
  }

  lemma TrimDigits(s: string)
    requires AllDigits(s)
    ensures Trim(s) == s
  {}

  lemma NumberRead(n: nat)
    requires 1 <= n <= MAX_INT
    ensures PageNumber(Itoa(n)) == Some(n)
  {
    TrimDigits(Itoa(n));
    ItoaNumber(n);
  }

  /** Before the first c, none. */
  lemma {:induction false} IndexIs(a: string, c: char, b: string)
    requires forall k :: 0 <= k < |a| ==> a[k] != c
    ensures IndexOf(a + [c] + b, c) == |a| && IndexOf(a, c) == |a|
    decreases |a|
  {
    if a == [] {
      assert a + [c] + b == [c] + b;
    } else {
      IndexIs(a[1..], c, b);
      assert (a + [c] + b)[1..] == a[1..] + [c] + b;
    }
  }

  lemma DigitsPlain(n: nat, c: char)
    requires !Digit(c)
    ensures forall k :: 0 <= k < |Itoa(n)| ==> Itoa(n)[k] != c
  {
    assert AllDigits(Itoa(n));
  }

  lemma TermRead(r: PageRange)
    requires Proper(r)
    ensures Term(TermText(r)) == Some(r)
    ensures forall k :: 0 <= k < |TermText(r)| ==> TermText(r)[k] != ','
  {
    hide Itoa, PageNumber;
    var a, b := Itoa(r.first), Itoa(r.last);
    NumberRead(r.first);
    NumberRead(r.last);
    DigitsPlain(r.first, '-');
    DigitsPlain(r.first, ',');
    DigitsPlain(r.last, ',');
    IndexIs(a, '-', b);
    if r.first < r.last {
      var t := a + "-" + b;
      assert TermText(r) == t by { assert a + ("-" + b) == t; }
      assert t[..|a|] == a && t[|a| + 1..] == b;
    } else {
      assert TermText(r) == a by { assert a + "" == a; }
      assert a[..|a|] == a;
    }
  }

  /** What is written is read back. */
  lemma {:induction false} TextRead(rs: seq<PageRange>)
    requires rs != [] && AllProper(rs)
    ensures Parsed(Text(rs)) == Some(rs)
    decreases |rs|
  {
    hide Term, TermText, IndexOf;
    var t := TermText(rs[0]);
    TermRead(rs[0]);
    if |rs| == 1 {
      IndexIs(t, ',', "");
      assert t[..|t|] == t && rs == [rs[0]];
    } else {
      var rest := Text(rs[1..]);
      TextRead(rs[1..]);
      IndexIs(t, ',', rest);
      var s := t + "," + rest;
      assert s[..|t|] == t && s[|t| + 1..] == rest;
      assert rs == [rs[0]] + rs[1..];
    }
  }

  // Blanks.

  predicate Blanks(s: string) { forall i :: 0 <= i < |s| ==> s[i] == ' ' || s[i] == '\t' }

  lemma {:induction false} TrimBlanks(a: string, s: string, b: string)
    requires Blanks(a) && Blanks(b) && AllDigits(s)
    ensures Trim(a + s + b) == s
    decreases |a| + |b|
  {
    var t := a + s + b;
    if a != [] {
      assert t[0] == a[0] && t[1..] == a[1..] + s + b;
      TrimBlanks(a[1..], s, b);
    } else if s == [] && b != [] {
      assert t[0] == b[0] && t[1..] == [] + s + b[1..];
      TrimBlanks([], s, b[1..]);
    } else if b != [] {
      assert t[0] == s[0] && Digit(s[0]);
      assert t[|t| - 1] == b[|b| - 1] && t[..|t| - 1] == [] + s + b[..|b| - 1];
      TrimBlanks([], s, b[..|b| - 1]);
    } else {
      assert t == s;
      TrimDigits(s);
    }
  }

  /** A page number is read with spaces and tabs around it. */
  lemma NumberAmidBlanks(a: string, n: nat, b: string)
    requires Blanks(a) && Blanks(b) && 1 <= n <= MAX_INT
    ensures PageNumber(a + Itoa(n) + b) == Some(n)
  {
    TrimBlanks(a, Itoa(n), b);
    ItoaNumber(n);
  }

  /** And with no other characters than those. */
  lemma NumberAmidOthers(c: char, n: nat)
    requires !Digit(c) && 1 <= n <= MAX_INT
    ensures PageNumber([c] + Itoa(n)).Some? <==> c == ' ' || c == '\t'
  {
    var s := [c] + Itoa(n);
    if c == ' ' || c == '\t' {
      assert [c] + Itoa(n) + [] == s;
      NumberAmidBlanks([c], n, []);
    } else {
      assert !Blank(s[0]) && s[|s| - 1] == Itoa(n)[|Itoa(n)| - 1] && Digit(s[|s| - 1]);
      assert Trim(s) == s;
    }
  }

  /** Page numbers are those an int of 64 bits holds, from 1 on. */
  lemma NumbersInRange(n: nat)
    ensures PageNumber(Itoa(n)).Some? <==> 1 <= n <= 9_223_372_036_854_775_807
  {
    TrimDigits(Itoa(n));
    ItoaNumber(n);
  }

  /** A range with spaces and tabs around its numbers. */
  function Spaced(r: PageRange, pad: seq<string>): string
    requires 0 <= r.first <= r.last && |pad| == 4
  {
    pad[0] + Itoa(r.first) + pad[1] + if r.first < r.last then "-" + (pad[2] + Itoa(r.last) + pad[3]) else ""
  }

  function AllSpaced(rs: seq<PageRange>, pads: seq<seq<string>>): string
    requires AllProper(rs) && |pads| == |rs| && forall i :: 0 <= i < |pads| ==> |pads[i]| == 4
    decreases |rs|
  {
    if rs == [] then ""
    else if |rs| == 1 then Spaced(rs[0], pads[0])
    else Spaced(rs[0], pads[0]) + "," + AllSpaced(rs[1..], pads[1..])
  }

  lemma SpacedPlain(a: string, n: nat, b: string, c: char)
    requires Blanks(a) && Blanks(b) && !Digit(c) && c != ' ' && c != '\t'
    ensures forall k :: 0 <= k < |a + Itoa(n) + b| ==> (a + Itoa(n) + b)[k] != c
  {
    DigitsPlain(n, c);
  }

  lemma SpacedRead(r: PageRange, pad: seq<string>)
    requires Proper(r) && |pad| == 4 && forall i :: 0 <= i < 4 ==> Blanks(pad[i])
    ensures Term(Spaced(r, pad)) == Some(r)
    ensures forall k :: 0 <= k < |Spaced(r, pad)| ==> Spaced(r, pad)[k] != ','
  {
    var a, b := pad[0] + Itoa(r.first) + pad[1], pad[2] + Itoa(r.last) + pad[3];
    hide Itoa, PageNumber, Blanks;
    NumberAmidBlanks(pad[0], r.first, pad[1]);
    NumberAmidBlanks(pad[2], r.last, pad[3]);
    SpacedPlain(pad[0], r.first, pad[1], '-');
    SpacedPlain(pad[0], r.first, pad[1], ',');
    SpacedPlain(pad[2], r.last, pad[3], ',');
    IndexIs(a, '-', b);
    if r.first < r.last {
      var t := a + "-" + b;
      assert Spaced(r, pad) == t by { assert a + ("-" + b) == t; }
      assert t[..|a|] == a && t[|a| + 1..] == b;
    } else {
      assert Spaced(r, pad) == a by { assert a + "" == a; }
      assert a[..|a|] == a;
    }
  }

  /** A selection means the same with spaces and tabs around any of its numbers. */
  lemma {:induction false} SelectionAmidBlanks(rs: seq<PageRange>, pads: seq<seq<string>>)
    requires rs != [] && AllProper(rs) && |pads| == |rs|
    requires forall i :: 0 <= i < |pads| ==> |pads[i]| == 4 && forall j :: 0 <= j < 4 ==> Blanks(pads[i][j])
    ensures Parsed(AllSpaced(rs, pads)) == Some(rs)
    decreases |rs|
  {
    hide Term, Spaced, IndexOf, Blanks;
    var t := Spaced(rs[0], pads[0]);
    SpacedRead(rs[0], pads[0]);
    if |rs| == 1 {
      IndexIs(t, ',', "");
      assert t[..|t|] == t && rs == [rs[0]];
    } else {
      var rest := AllSpaced(rs[1..], pads[1..]);
      SelectionAmidBlanks(rs[1..], pads[1..]);
      IndexIs(t, ',', rest);
      var s := t + "," + rest;
      assert s[..|t|] == t && s[|t| + 1..] == rest;
      assert rs == [rs[0]] + rs[1..];
    }
  }

  // Selecting.

  predicate Holds(r: PageRange, p: int) { r.first <= p <= r.last }

  ghost predicate Named(rs: seq<PageRange>, p: int) { exists i :: 0 <= i < |rs| && Holds(rs[i], p) }

  /** The pages the ranges name, each once, ascending. */
  ghost predicate Selection(rs: seq<PageRange>, pages: Pages) {
    Ascending(pages) && forall p :: p in pages <==> Named(rs, p)
  }

  /** There is one such selection. */
  lemma SelectedOnce(rs: seq<PageRange>, a: Pages, b: Pages)
    requires Selection(rs, a) && Selection(rs, b)
    ensures a == b
  {
    AscendingOnce(a, b);
  }

  lemma {:induction false} AscendingOnce(a: Pages, b: Pages)
    requires Ascending(a) && Ascending(b) && forall p :: p in a <==> p in b
    ensures a == b
    decreases |a|
  {
    if a != [] { SomeToo(a, b); }
    if b != [] { SomeToo(b, a); }
    if a != [] {
      var n, m := |a| - 1, |b| - 1;
      SameLast(a, b);
      LessLast(a);
      LessLast(b);
      forall p ensures p in a[..n] <==> p in b[..m] { assert p in a <==> p in b; }
      AscendingOnce(a[..n], b[..m]);
    }
  }

  lemma SomeToo(a: Pages, b: Pages)
    requires a != [] && forall p :: p in a ==> p in b
    ensures b != []
  {
    var p := a[0];
    assert p in a;
  }

  lemma SameLast(a: Pages, b: Pages)
    requires Ascending(a) && Ascending(b) && a != [] && b != [] && forall p :: p in a <==> p in b
    ensures a[|a| - 1] == b[|b| - 1]
  {
    assert a[|a| - 1] in a && b[|b| - 1] in b;
  }

  lemma LessLast(a: Pages)
    requires a != [] && Ascending(a)
    ensures a == a[..|a| - 1] + [a[|a| - 1]]
    ensures forall p :: p in a[..|a| - 1] <==> p in a && p != a[|a| - 1]
  {
    forall p ensures p in a[..|a| - 1] <==> p in a && p != a[|a| - 1] {
      if p in a && p != a[|a| - 1] {
        var k :| 0 <= k < |a| && a[k] == p;
        assert a[..|a| - 1][k] == p;
      }
      if p in a[..|a| - 1] {
        var k :| 0 <= k < |a| - 1 && a[k] == p;
      }
    }
  }

  /** The runs of consecutive pages from page i on. */
  function RunEnd(pages: Pages, i: nat): (j: nat)
    requires i < |pages|
    ensures i <= j < |pages| && (j + 1 < |pages| ==> pages[j + 1] != pages[j] + 1)
    ensures forall k :: i <= k <= j ==> pages[k] == pages[i] + (k - i)
    decreases |pages| - i
  {
    if i + 1 < |pages| && pages[i + 1] == pages[i] + 1 then RunEnd(pages, i + 1) else i
  }

  function Runs(pages: Pages, i: nat): seq<PageRange>
    requires i <= |pages|
    decreases |pages| - i
  {
    if i == |pages| then []
    else
      var j := RunEnd(pages, i);
      [PageRange(pages[i], pages[j])] + Runs(pages, j + 1)
  }

  lemma NamedFirst(r: PageRange, rest: seq<PageRange>, p: int)
    ensures Named([r] + rest, p) <==> Holds(r, p) || Named(rest, p)
  {
    var all := [r] + rest;
    if Named(all, p) {
      var i :| 0 <= i < |all| && Holds(all[i], p);
      assert i > 0 ==> Holds(rest[i - 1], p);
    }
    if Holds(r, p) { assert Holds(all[0], p); }
    if Named(rest, p) {
      var i :| 0 <= i < |rest| && Holds(rest[i], p);
      assert Holds(all[i + 1], p);
    }
  }

  /** The runs name the pages, and no others. */
  lemma {:induction false} RunsName(pages: Pages, i: nat, p: int)
    requires i <= |pages|
    ensures Named(Runs(pages, i), p) <==> p in pages[i..]
    decreases |pages| - i
  {
    hide *;
    if i == |pages| {
      NoRuns(pages, p);
    } else {
      var j := RunEnd(pages, i);
      RunsName(pages, j + 1, p);
      RunsFrom(pages, i);
      NamedFirst(PageRange(pages[i], pages[j]), Runs(pages, j + 1), p);
      RunIn(pages, i, j, p);
      assert pages[i..] == pages[i..j + 1] + pages[j + 1..];
    }
  }

  lemma NoRuns(pages: Pages, p: int)
    ensures !Named(Runs(pages, |pages|), p) && p !in pages[|pages|..]
  {}

  lemma RunsFrom(pages: Pages, i: nat)
    requires i < |pages|
    ensures var j := RunEnd(pages, i); Runs(pages, i) == [PageRange(pages[i], pages[j])] + Runs(pages, j + 1)
  {}

  lemma RunIn(pages: Pages, i: nat, j: nat, p: int)
    requires i <= j < |pages| && forall k :: i <= k <= j ==> pages[k] == pages[i] + (k - i)
    ensures Holds(PageRange(pages[i], pages[j]), p) <==> p in pages[i..j + 1]
  {
    var run := pages[i..j + 1];
    if Holds(PageRange(pages[i], pages[j]), p) { assert run[p - pages[i]] == p; }
    if p in run {
      var k :| 0 <= k < |run| && run[k] == p;
      assert pages[i + k] == p;
    }
  }

  lemma {:induction false} RunsProper(pages: Pages, i: nat, count: int)
    requires i <= |pages| && Ascending(pages) && count <= MAX_INT
    requires forall k :: 0 <= k < |pages| ==> 1 <= pages[k] <= count
    ensures AllProper(Runs(pages, i)) && forall k :: 0 <= k < |Runs(pages, i)| ==> Runs(pages, i)[k].last <= count
    decreases |pages| - i
  {
    hide *;
    if i == |pages| {
      NoneProper(pages, count);
    } else {
      var j := RunEnd(pages, i);
      RunsProper(pages, j + 1, count);
      RunsFrom(pages, i);
      RunProper(pages, i, j, count);
      ProperToo(PageRange(pages[i], pages[j]), Runs(pages, j + 1), count);
    }
  }

  lemma NoneProper(pages: Pages, count: int)
    ensures AllProper(Runs(pages, |pages|)) && forall k :: 0 <= k < |Runs(pages, |pages|)| ==>
             Runs(pages, |pages|)[k].last <= count
  {}

  lemma RunProper(pages: Pages, i: nat, j: nat, count: int)
    requires i <= j < |pages| && Ascending(pages) && count <= MAX_INT && 1 <= pages[i] && pages[j] <= count
    ensures Proper(PageRange(pages[i], pages[j])) && pages[j] <= count
  {}

  lemma ProperToo(r: PageRange, rest: seq<PageRange>, count: int)
    requires Proper(r) && r.last <= count && AllProper(rest) && forall k :: 0 <= k < |rest| ==> rest[k].last <= count
    ensures AllProper([r] + rest) && forall k :: 0 <= k < |[r] + rest| ==> ([r] + rest)[k].last <= count
  {}

  /** The text of a list of pages: its runs, comma-separated. */
  function Formatted(pages: Pages): string
    requires AllProper(Runs(pages, 0))
  {
    Text(Runs(pages, 0))
  }

  /** What Select accepts. */
  predicate Selectable(rs: seq<PageRange>, count: int) {
    rs != [] && forall i :: 0 <= i < |rs| ==> 1 <= rs[i].first <= rs[i].last <= count
  }

  /**
   * A list of pages written as a selection, read back and selected from any document that has them, is the
   * same list.
   */
  lemma PagesRoundTrip(pages: Pages, count: int)
    requires pages != [] && Ascending(pages) && count <= MAX_INT
    requires forall k :: 0 <= k < |pages| ==> 1 <= pages[k] <= count
    ensures AllProper(Runs(pages, 0)) && Parsed(Formatted(pages)) == Some(Runs(pages, 0))
    ensures Selectable(Runs(pages, 0), count)
    ensures forall sel :: Selection(Runs(pages, 0), sel) <==> sel == pages
  {
    hide RunEnd, Parsed, Text, Ascending;
    RunsProper(pages, 0, count);
    TextRead(Runs(pages, 0));
    forall p ensures p in pages <==> Named(Runs(pages, 0), p) {
      RunsName(pages, 0, p);
      assert pages[0..] == pages;
    }
    hide Runs, Named;
    assert Selection(Runs(pages, 0), pages);
    forall sel ensures Selection(Runs(pages, 0), sel) <==> sel == pages {
      if Selection(Runs(pages, 0), sel) { SelectedOnce(Runs(pages, 0), sel, pages); }
    }
  }

  // File names.

  /** A part's file name: its first and last page, under a prefix and an extension. */
  function PartName(prefix: string, first: nat, last: nat, ext: string): string {
    prefix + "-" + Itoa(first) + "-" + Itoa(last) + ext
  }

  /** How many digits s starts with. */
  function Leading(s: string): (n: nat)
    ensures n <= |s|
    decreases |s|
  {
    if s == [] || !Digit(s[0]) then 0 else 1 + Leading(s[1..])
  }

  lemma {:induction false} LeadingIs(a: string, x: char, r: string)
    requires AllDigits(a) && !Digit(x)
    ensures Leading(a + [x] + r) == |a|
    decreases |a|
  {
    if a == [] {
      assert a + [x] + r == [x] + r;
    } else {
      LeadingIs(a[1..], x, r);
      assert (a + [x] + r)[1..] == a[1..] + [x] + r;
    }
  }

  lemma DigitsEnd(a: string, x: char, r: string, b: string, y: char, t: string)
    requires AllDigits(a) && AllDigits(b) && !Digit(x) && !Digit(y) && a + [x] + r == b + [y] + t
    ensures a == b && r == t
  {
    LeadingIs(a, x, r);
    LeadingIs(b, y, t);
    var s := a + [x] + r;
    assert a == s[..|a|] && b == (b + [y] + t)[..|b|];
    assert r == s[|a| + 1..] && t == (b + [y] + t)[|b| + 1..];
  }

  /** Parts with different first or last pages have different file names. */
  lemma PartNamesDiffer(prefix: string, ext: string, a: nat, b: nat, c: nat, d: nat)
    requires ext != [] && !Digit(ext[0]) && PartName(prefix, a, b, ext) == PartName(prefix, c, d, ext)
    ensures a == c && b == d
  {
    hide Itoa, NumberOf;
    ItoaNumber(a);
    ItoaNumber(b);
    ItoaNumber(c);
    ItoaNumber(d);
    var r, t := Itoa(b) + ext, Itoa(d) + ext;
    NameTail(prefix, Itoa(a), Itoa(b), ext);
    NameTail(prefix, Itoa(c), Itoa(d), ext);
    DigitsEnd(Itoa(a), '-', r, Itoa(c), '-', t);
    assert Itoa(b) + ext == Itoa(b) + [ext[0]] + ext[1..];
    assert Itoa(d) + ext == Itoa(d) + [ext[0]] + ext[1..];
    DigitsEnd(Itoa(b), ext[0], ext[1..], Itoa(d), ext[0], ext[1..]);
  }

  lemma NameTail(prefix: string, a: string, b: string, ext: string)
    ensures (prefix + "-" + a + "-" + b + ext)[|prefix| + 1..] == a + ['-'] + (b + ext)
  {}
}

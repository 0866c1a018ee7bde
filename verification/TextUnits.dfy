/** Text measured in the units spans count (internal/textunit/textunit.go), and joined across a page separator. */
module TextUnits {
  import opened Sections

  /** Valid text, as its code points. */
  type Text = seq<nat>

  datatype Unit = TextElements | UnicodeCodePoint | UTF16CodeUnit

  const LF: nat := 10
  const CR: nat := 13

  /** How a text falls into extended grapheme clusters: a table the program takes from a library. */
  type Clusters = Text -> seq<Text>

  function Flatten(parts: seq<Text>): Text
    decreases |parts|
  {
    if parts == [] then [] else parts[0] + Flatten(parts[1..])
  }

  predicate EndsWith(s: Text, c: nat) { s != [] && s[|s| - 1] == c }

  /**
   * What is taken of the table: clusters are not empty and are the text, and a line feed is a cluster of its own
   * that the text on either side does not see, unless a carriage return comes before it (GB3 to GB5 of section
   * 3.1.1 of UAX #29).
   */
  ghost predicate Segments(cut: Clusters) {
    && (forall s :: Flatten(cut(s)) == s)
    && (forall s, k :: 0 <= k < |cut(s)| ==> cut(s)[k] != [])
    && (forall a, b :: !EndsWith(a, CR) ==> cut(a + [LF] + b) == cut(a) + [[LF]] + cut(b))
  }

  /** The UTF-16 code units of a code point. */
  function Encode(c: nat): seq<nat> {
    if c > 0xFFFF then [0xD800 + (c - 0x1_0000) / 0x400, 0xDC00 + (c - 0x1_0000) % 0x400] else [c]
  }

  function Singles(s: seq<nat>): (r: seq<Text>)
    ensures |r| == |s| && forall k :: 0 <= k < |s| ==> r[k] == [s[k]]
  {
    seq(|s|, k requires 0 <= k < |s| => [s[k]])
  }

  function Utf16(s: Text): seq<nat>
    decreases |s|
  {
    if s == [] then [] else Utf16(s[..|s| - 1]) + Encode(s[|s| - 1])
  }

  /** The text as the steps an offset counts. */
  function Steps(u: Unit, cut: Clusters, s: Text): seq<Text> {
    match u
    case TextElements => cut(s)
    case UnicodeCodePoint => Singles(s)
    case UTF16CodeUnit => Singles(Utf16(s))
  }

  /** How long s is in u. */
  method Len(u: Unit, cut: Clusters, s: Text) returns (n: nat)
    ensures n == |Steps(u, cut, s)|
  {
    match u {
      case TextElements => n := |cut(s)|;
      case UnicodeCodePoint => n := |s|;
      case UTF16CodeUnit =>
        n := 0;
        assert s[..0] == [];
        for i := 0 to |s|
          invariant n == |Utf16(s[..i])|
        {
          assert s[..i + 1][..i] == s[..i];
          if s[i] > 0xFFFF {
            n := n + 2;
          } else {
            n := n + 1;
          }
        }
        assert s[..|s|] == s;
    }
  }

  lemma {:induction false} Utf16Join(a: Text, b: Text)
    ensures Utf16(a + b) == Utf16(a) + Utf16(b)
    decreases |b|
  {
    if b == [] {
      assert a + b == a;
    } else {
      Utf16Join(a, b[..|b| - 1]);
      assert (a + b)[..|a + b| - 1] == a + b[..|b| - 1];
    }
  }

  /** A code point of valid text: no surrogate. */
  predicate Scalar(c: nat) { c < 0xD800 || 0xE000 <= c < 0x11_0000 }

  /** UTF-16 read back: a low surrogate ends a pair, any other unit is a code point. */
  function Decode16(units: seq<nat>): Text
    decreases |units|
  {
    if units == [] then []
    else
      var n := |units| - 1;
      if n > 0 && 0xDC00 <= units[n] < 0xE000 then
        var high := if units[n - 1] >= 0xD800 then units[n - 1] - 0xD800 else 0;
        Decode16(units[..n - 1]) + [0x1_0000 + high * 0x400 + (units[n] - 0xDC00)]
      else Decode16(units[..n]) + [units[n]]
  }

  /** Valid text written in UTF-16 is read back, and every unit is one of 16 bits. */
  lemma {:induction false} Utf16RoundTrip(s: Text)
    requires forall k :: 0 <= k < |s| ==> Scalar(s[k])
    ensures Decode16(Utf16(s)) == s && forall k :: 0 <= k < |Utf16(s)| ==> Utf16(s)[k] < 0x1_0000
    decreases |s|
  {
    if s != [] {
      hide Encode, Decode16, Scalar;
      var n := |s| - 1;
      Utf16RoundTrip(s[..n]);
      assert s == s[..n] + [s[n]];
      LastDecoded(Utf16(s[..n]), s[n]);
    } else {
      assert Utf16(s) == [] && Decode16([]) == [];
    }
  }

  lemma LastDecoded(units: seq<nat>, c: nat)
    requires Scalar(c)
    ensures Decode16(units + Encode(c)) == Decode16(units) + [c]
    ensures forall k :: 0 <= k < |Encode(c)| ==> Encode(c)[k] < 0x1_0000
  {
    var all := units + Encode(c);
    if c > 0xFFFF {
      var x := c - 0x1_0000;
      assert x == (x / 0x400) * 0x400 + x % 0x400 && x / 0x400 < 0x400;
      assert all[..|all| - 2] == units && all[|all| - 2] == 0xD800 + x / 0x400 && all[|all| - 1] == 0xDC00 + x % 0x400;
    } else {
      assert all[..|all| - 1] == units;
    }
  }

  /** The page separators of text and of markdown begin and end with a line feed. */
  predicate Separates(sep: Text) {
    sep == [LF] || (|sep| >= 2 && sep[0] == LF && sep[|sep| - 1] == LF && !EndsWith(sep[1..|sep| - 1], CR))
  }

  /** Code points, taken for clusters, have these properties. */
  lemma {:induction false} SinglesFlatten(s: Text)
    ensures Flatten(Singles(s)) == s
    decreases |s|
  {
    if s != [] {
      SinglesFlatten(s[1..]);
      assert Singles(s)[1..] == Singles(s[1..]);
    }
  }

  lemma SinglesSegment()
    ensures Segments(s => Singles(s))
  {
    forall s: Text ensures Flatten(Singles(s)) == s { SinglesFlatten(s); }
    forall a: Text, b: Text ensures Singles(a + [LF] + b) == Singles(a) + [[LF]] + Singles(b) {}
  }

  lemma FlattenNone(parts: seq<Text>)
    requires Flatten(parts) == [] && forall k :: 0 <= k < |parts| ==> parts[k] != []
    ensures parts == []
  {}

  lemma NoClusters(cut: Clusters)
    requires Segments(cut)
    ensures cut([]) == []
  {
    FlattenNone(cut([]));
  }

  lemma AtLineFeed(cut: Clusters, a: Text, b: Text)
    requires Segments(cut) && !EndsWith(a, CR)
    ensures cut(a + [LF] + b) == cut(a) + [[LF]] + cut(b)
  {}

  lemma ClustersJoin(cut: Clusters, a: Text, sep: Text, b: Text)
    requires Segments(cut) && Separates(sep) && !EndsWith(a, CR)
    ensures cut(a + sep + b) == cut(a) + cut(sep) + cut(b)
  {
    hide Segments, Flatten;
    NoClusters(cut);
    if sep == [LF] {
      AtLineFeed(cut, [], []);
      assert [] + [LF] + [] == sep;
      AtLineFeed(cut, a, b);
    } else {
      var mid := sep[1..|sep| - 1];
      AtLineFeed(cut, a, mid + [LF] + b);
      AtLineFeed(cut, mid, b);
      AtLineFeed(cut, [], mid + [LF] + []);
      AtLineFeed(cut, mid, []);
      Regroup(a, mid, b, sep);
    }
  }

  lemma Regroup(a: Text, mid: Text, b: Text, sep: Text)
    requires |sep| >= 2 && sep[0] == LF && sep[|sep| - 1] == LF && mid == sep[1..|sep| - 1]
    ensures a + sep + b == a + [LF] + (mid + [LF] + b) && sep == [] + [LF] + (mid + [LF] + [])
  {}

  /**
   * Text joined across a page separator keeps its steps: code points and UTF-16 units always, text elements unless
   * the text before ends with a carriage return.
   */
  lemma StepsJoin(u: Unit, cut: Clusters, a: Text, sep: Text, b: Text)
    requires u == TextElements ==> Segments(cut) && Separates(sep) && !EndsWith(a, CR)
    ensures Steps(u, cut, a + sep + b) == Steps(u, cut, a) + Steps(u, cut, sep) + Steps(u, cut, b)
  {
    hide *;
    StepsAre(u, cut, a);
    StepsAre(u, cut, sep);
    StepsAre(u, cut, b);
    StepsAre(u, cut, a + sep + b);
    match u
    case TextElements => ClustersJoin(cut, a, sep, b);
    case UnicodeCodePoint => SinglesJoin(a, sep, b);
    case UTF16CodeUnit =>
      Utf16Join(a + sep, b);
      Utf16Join(a, sep);
      SinglesJoin(Utf16(a), Utf16(sep), Utf16(b));
  }

  lemma StepsAre(u: Unit, cut: Clusters, s: Text)
    ensures Steps(u, cut, s)
      == match u case TextElements => cut(s) case UnicodeCodePoint => Singles(s) case UTF16CodeUnit => Singles(Utf16(s))
  {}

  lemma SinglesJoin(a: seq<nat>, b: seq<nat>, c: seq<nat>)
    ensures Singles(a + b + c) == Singles(a) + Singles(b) + Singles(c)
  {
    assert |Singles(a + b + c)| == |Singles(a) + Singles(b) + Singles(c)|;
  }
}

/**
 * Copying JSON from a reader, whatever it hands over at once (internal/jsonx/rewrite.go:70-109, object.go:121-139):
 * the walker's result, said of the text itself.
 */
module JsonCopy {
  import opened Sections
  import opened JsonScan
  import opened JsonText
  import opened JsonWalk
  import opened JsonRewrite
  import opened JsonArray
  import opened JsonObject
  import opened JsonMembers
  import W = Walker

  /** The text is one JSON value within the limits, and whitespace around it. */
  ghost predicate IsValue(s: seq<byte>) { exists t :: GoodWhole(t) && WholeRaw(t) == s }

  /** The text is a JSON array each of whose items is within the limits, and whitespace around it. */
  ghost predicate IsArray(s: seq<byte>) { exists t :: GoodArrayText(t) && WholeRaw(t) == s }

  /** However s is read as a value, out is s with the visitor's answers in it, and calls what the visitor was shown. */
  ghost predicate Rewritten(s: seq<byte>, prefix: seq<PathElem>, u: Setup, out: seq<byte>, calls: seq<Call>) {
    forall t :: GoodWhole(t) && WholeRaw(t) == s ==>
      out == t.pre + (Substituted(t.doc, prefix, [], u) + t.post) && calls == Shown(t.doc, prefix, u)
  }

  /**
   * However s is read as an array, n is the number of its items, out the items and calls what the visitor was
   * shown.
   */
  ghost predicate TakenOut(
      s: seq<byte>, prefix: seq<PathElem>, k: nat, u: Setup, n: nat, out: seq<byte>, calls: seq<Call>) {
    forall t :: GoodArrayText(t) && WholeRaw(t) == s ==>
      n == ArrayCount(t.doc) && out == ArrayOut(t.doc, prefix, k, u) && calls == ArrayShown(t.doc, prefix, k, u)
  }

  lemma RunRewrites(s: seq<byte>, prefix: seq<PathElem>, u: Setup)
    ensures RewriteRun(s, prefix, u).Some? <==> IsValue(s)
    ensures RewriteRun(s, prefix, u).Some? ==>
              var r := RewriteRun(s, prefix, u).value; Rewritten(s, prefix, u, r.out, r.calls)
  {
    hide RewriteRun, WholeRaw, GoodWhole, Substituted, Shown;
    RewriteAccepts(s, prefix, u);
    forall t | GoodWhole(t) && WholeRaw(t) == s
      ensures RewriteRun(s, prefix, u) == Some(Walk(
                |s|, t.pre + (Substituted(t.doc, prefix, [], u) + t.post), Shown(t.doc, prefix, u)))
    {
      RewriteSubstitutes(t, prefix, u);
    }
  }

  lemma RunTakesOut(s: seq<byte>, prefix: seq<PathElem>, k: nat, u: Setup)
    ensures ArrayItemsRun(s, prefix, k, u).Some? <==> IsArray(s)
    ensures ArrayItemsRun(s, prefix, k, u).Some? ==>
              var (r, n) := ArrayItemsRun(s, prefix, k, u).value; TakenOut(s, prefix, k, u, n, r.out, r.calls)
  {
    hide ArrayItemsRun, WholeRaw, GoodArray, ArrayCount, ArrayOut, ArrayShown;
    ArrayAccepts(s, prefix, k, u);
    if ArrayItemsRun(s, prefix, k, u).Some? {
      var (r, n) := ArrayItemsRun(s, prefix, k, u).value;
      forall t | GoodArrayText(t) && WholeRaw(t) == s
        ensures n == ArrayCount(t.doc) && r.out == ArrayOut(t.doc, prefix, k, u)
        ensures r.calls == ArrayShown(t.doc, prefix, k, u)
      {
        ArraySplices(t, prefix, k, u);
      }
    }
  }

  /**
   * Copies one JSON value from a reader, as the visitor says. However the reader hands out the text, and whatever
   * the buffer holds at once: the text is taken exactly when it is a value and the reader gave all of it, and comes
   * out with the visitor's answers in place of its scalars and every other byte as it was.
   */
  method Rewrite(
      size: nat, chunks: seq<W.Chunk>, prefix: seq<PathElem>, visit: Option<Visitor>, decode: seq<byte> -> seq<byte>)
    returns (ok: bool, out: seq<byte>, calls: seq<Call>)
    requires size > 0 && W.Fits(chunks, size)
    ensures ok <==> W.Rest(chunks, 0).fine && IsValue(W.Rest(chunks, 0).data)
    ensures ok ==> Rewritten(W.Rest(chunks, 0).data, prefix, Setup(visit, decode), out, calls)
  {
    hide *;
    var w := new W.Walker(size, chunks, true, prefix, visit, decode);
    w.Stated(visit, decode);
    ghost var r;
    ok, r := w.Whole();
    out, calls := w.out, w.calls;
    RunRewrites(W.Rest(chunks, 0).data, prefix, Setup(visit, decode));
  }

  /** Copies the items of an array from a reader without its brackets, numbered from k on, and counts them. */
  method ArrayItems(
      size: nat, chunks: seq<W.Chunk>, prefix: seq<PathElem>, k: nat, visit: Option<Visitor>,
      decode: seq<byte> -> seq<byte>)
    returns (ok: bool, n: nat, out: seq<byte>, calls: seq<Call>)
    requires size > 0 && W.Fits(chunks, size)
    ensures ok <==> W.Rest(chunks, 0).fine && IsArray(W.Rest(chunks, 0).data)
    ensures ok ==> TakenOut(W.Rest(chunks, 0).data, prefix, k, Setup(visit, decode), n, out, calls)
  {
    hide *;
    var w := new W.Walker(size, chunks, true, prefix, visit, decode);
    w.Stated(visit, decode);
    ghost var r;
    ok, n, r := w.Items(k);
    out, calls := w.out, w.calls;
    RunTakesOut(W.Rest(chunks, 0).data, prefix, k, Setup(visit, decode));
  }

  lemma CountIs(s: seq<byte>, prefix: seq<PathElem>, k: nat, u: Setup, n: nat, out: seq<byte>, calls: seq<Call>)
    requires TakenOut(s, prefix, k, u, n, out, calls)
    ensures forall t :: GoodArrayText(t) && WholeRaw(t) == s ==> n == ArrayCount(t.doc)
  {
    hide GoodArrayText, WholeRaw, ArrayCount, ArrayOut, ArrayShown;
  }

  /** Counts the items of an array, writing nothing. */
  method CountItems(size: nat, chunks: seq<W.Chunk>, decode: seq<byte> -> seq<byte>) returns (ok: bool, n: nat)
    requires size > 0 && W.Fits(chunks, size)
    ensures ok <==> W.Rest(chunks, 0).fine && IsArray(W.Rest(chunks, 0).data)
    ensures ok ==> forall t :: GoodArrayText(t) && WholeRaw(t) == W.Rest(chunks, 0).data ==> n == ArrayCount(t.doc)
  {
    hide *;
    var w := new W.Walker(size, chunks, false, [], None, decode);
    w.Stated(None, decode);
    ghost var r;
    ok, n, r := w.Items(0);
    RunTakesOut(W.Rest(chunks, 0).data, [], 0, Setup(None, decode));
    if ok { CountIs(W.Rest(chunks, 0).data, [], 0, Setup(None, decode), n, r.out, r.calls); }
  }

  /** The text is a JSON object whose members are within the limits, and whitespace around it. */
  ghost predicate IsObject(s: seq<byte>) { exists t :: GoodObjectText(t) && WholeRaw(t) == s }

  /** The members with every position counted from start. */
  function Shift(members: seq<Entry>, start: nat): seq<Entry> {
    seq(|members|, n requires 0 <= n < |members| =>
      members[n].(start := members[n].start + start, end := members[n].end + start))
  }

  /** However s is read as an object, these are its members, and calls what the visitors were shown. */
  ghost predicate ListedAs(
      s: seq<byte>, start: nat, choose: Chooser, decode: seq<byte> -> seq<byte>, members: seq<Entry>,
      calls: seq<Call>) {
    forall t :: GoodObjectText(t) && WholeRaw(t) == s ==>
      members == Shift(MembersOf(t, decode), start) && calls == ToldOf(t, choose, decode)
  }

  lemma RunLists(s: seq<byte>, start: nat, choose: Chooser, decode: seq<byte> -> seq<byte>)
    ensures ObjectRun(s, choose, decode).Some? <==> IsObject(s)
    ensures ObjectRun(s, choose, decode).Some? ==>
              var (members, calls) := ObjectRun(s, choose, decode).value;
              ListedAs(s, start, choose, decode, Shift(members, start), calls)
  {
    hide ObjectRun, WholeRaw, GoodObject, MembersOf, ToldOf, Shift;
    ObjectAccepts(s, choose, decode);
    if ObjectRun(s, choose, decode).Some? {
      var (members, calls) := ObjectRun(s, choose, decode).value;
      forall t | GoodObjectText(t) && WholeRaw(t) == s
        ensures members == MembersOf(t, decode) && calls == ToldOf(t, choose, decode)
      {
        ObjectListed(t, choose, decode);
      }
    }
  }

  /** Lists the members of the object whose first byte is number start, and shows each to whom its name chooses. */
  method VisitMembers(size: nat, chunks: seq<W.Chunk>, start: nat, choose: Chooser, decode: seq<byte> -> seq<byte>)
    returns (ok: bool, members: seq<Entry>, calls: seq<Call>)
    requires size > 0 && W.Fits(chunks, size)
    ensures ok <==> W.Rest(chunks, 0).fine && IsObject(W.Rest(chunks, 0).data)
    ensures ok ==> ListedAs(W.Rest(chunks, 0).data, start, choose, decode, members, calls)
  {
    hide *;
    var w := new W.Walker(size, chunks, false, [], None, decode);
    ok, members := w.Members(choose);
    members, calls := Shift(members, start), w.calls;
    RunLists(W.Rest(chunks, 0).data, start, choose, decode);
  }
}

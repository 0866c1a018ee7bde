/** How each part numbers its pages (internal/merge/check.go:326-354, merge.go:140-153). */
module PageMap {
  import opened Sections
  import opened Planning

  /** The pages planned for a part, and the numbers its result gives them. */
  datatype PagePart = PagePart(planned: Pages, given: Pages)

  /** The original page that page n of the part is, read as the part's own numbering or as the document's. */
  function MapPage(planned: Pages, local: bool, n: int): Option<int> {
    if local then if 1 <= n <= |planned| then Some(planned[n - 1]) else None
    else if n in planned then Some(n) else None
  }

  function Count(k: nat): Pages { seq(k, i => i + 1) }

  /** Read as its own numbering: no page is numbered past the part's length. */
  predicate Local(p: PagePart) { forall i :: 0 <= i < |p.given| ==> p.given[i] <= |p.planned| }

  /** What the planner promises of a part, and the page collector of its result. */
  predicate Plausible(p: PagePart) {
    && p.planned != [] && Ascending(p.planned)
    && forall i :: 0 <= i < |p.given| ==> p.given[i] >= 1
  }

  /** Each part starts after the one before it ends. */
  predicate InOrder(parts: seq<PagePart>, last: int)
    decreases |parts|
  {
    parts == [] || (parts[0].planned != [] && parts[0].planned[0] > last
        && InOrder(parts[1..], parts[0].planned[|parts[0].planned| - 1]))
  }

  /** The result's pages are the planned ones, in order, in one numbering or the other. */
  predicate Agrees(p: PagePart) { p.given == Count(|p.planned|) || p.given == p.planned }

  lemma {:induction false} AtLeast(pages: Pages, i: nat)
    requires Ascending(pages) && i < |pages| && pages[0] >= 1
    ensures pages[i] >= i + 1
    decreases i
  {
    if i > 0 { AtLeast(pages, i - 1); }
  }

  lemma {:induction false} AtMost(pages: Pages, i: nat, top: int)
    requires Ascending(pages) && i < |pages| && pages[|pages| - 1] <= top
    ensures pages[i] <= top - (|pages| - 1 - i)
    decreases |pages| - i
  {
    if i < |pages| - 1 { AtMost(pages, i + 1, top); }
  }

  /** The two numberings can only be confused when they are the same. */
  lemma Unambiguous(p: PagePart)
    requires Plausible(p) && p.given == p.planned && Local(p)
    ensures p.planned == Count(|p.planned|)
  {
    forall i | 0 <= i < |p.planned| ensures p.planned[i] == i + 1 {
      AtLeast(p.planned, i);
      AtMost(p.planned, i, |p.planned|);
    }
  }

  /** Read one way or the other, page for page the planned ones. */
  predicate Reads(p: PagePart, local: bool) {
    |p.given| == |p.planned| && forall i :: 0 <= i < |p.given| ==>
        MapPage(p.planned, local, p.given[i]) == Some(p.planned[i])
  }

  lemma ReadsLocal(p: PagePart)
    requires Plausible(p)
    ensures Reads(p, true) <==> p.given == Count(|p.planned|)
  {
    hide *;
    if Reads(p, true) {
      forall i: nat | i < |p.given| ensures p.given[i] == i + 1 { LocalPlace(p, i); }
      AllCounted(p);
    }
    if p.given == Count(|p.planned|) { CountReads(p); }
  }

  lemma AllCounted(p: PagePart)
    requires Reads(p, true) && forall i: nat :: i < |p.given| ==> p.given[i] == i + 1
    ensures p.given == Count(|p.planned|)
  {}

  lemma CountReads(p: PagePart)
    requires p.given == Count(|p.planned|)
    ensures Reads(p, true)
  {}

  lemma LocalPlace(p: PagePart, i: nat)
    requires Plausible(p) && Reads(p, true) && i < |p.given|
    ensures p.given[i] == i + 1
  {
    assert MapPage(p.planned, true, p.given[i]) == Some(p.planned[i]);
    SamePlace(p.planned, p.given[i] - 1, i);
  }

  lemma SamePlace(pages: Pages, i: nat, j: nat)
    requires Ascending(pages) && i < |pages| && j < |pages| && pages[i] == pages[j]
    ensures i == j
  {}

  lemma ReadsPlain(p: PagePart)
    ensures Reads(p, false) <==> p.given == p.planned
  {
    if Reads(p, false) {
      forall i | 0 <= i < |p.given| ensures p.given[i] == p.planned[i] {
        assert MapPage(p.planned, false, p.given[i]) == Some(p.planned[i]);
      }
    }
  }

  lemma CountLocal(p: PagePart)
    requires p.given == Count(|p.planned|)
    ensures Local(p)
  {}

  /** The reading picked gives the planned pages exactly when one of the two does. */
  lemma ReadingIs(p: PagePart)
    requires Plausible(p)
    ensures Agrees(p) <==> Reads(p, Local(p))
  {
    ReadsLocal(p);
    ReadsPlain(p);
    if p.given == p.planned && Local(p) { Unambiguous(p); }
    if p.given == Count(|p.planned|) { CountLocal(p); }
    hide *;
    AgreesIs(p);
  }

  lemma AgreesIs(p: PagePart)
    ensures Agrees(p) <==> p.given == Count(|p.planned|) || p.given == p.planned
  {}

  /**
   * The numbering of every part decided and checked. It passes exactly when the parts follow one another, and
   * each result's pages are its part's 1 to k or the planned pages themselves, in order; every page then maps to
   * the page planned there.
   */
  method MapPages(parts: seq<PagePart>) returns (ok: bool, local: seq<bool>)
    requires forall k :: 0 <= k < |parts| ==> Plausible(parts[k])
    ensures ok <==> InOrder(parts, 0) && forall k :: 0 <= k < |parts| ==> Agrees(parts[k])
    ensures ok ==> |local| == |parts| && forall k :: 0 <= k < |parts| ==> Reads(parts[k], local[k])
  {
    hide *;
    local := [];
    var last := 0;
    assert parts[0..] == parts;
    for k := 0 to |parts|
      invariant |local| == k && (InOrder(parts, 0) <==> InOrder(parts[k..], last))
      invariant forall j :: 0 <= j < k ==> Agrees(parts[j]) && Reads(parts[j], local[j])
    {
      var p := parts[k];
      PlausibleIs(p);
      OrderNext(parts, k, last);
      if p.planned[0] <= last { return false, local; }
      last := p.planned[|p.planned| - 1];
      var own := FindLocal(p);
      local := local + [own];
      ReadingIs(p);
      var read := ReadPages(p, own);
      if !read { return false, local; }
    }
    OrderDone(parts[|parts|..], last);
    ok := true;
  }

  lemma PlausibleIs(p: PagePart)
    requires Plausible(p)
    ensures p.planned != []
  {}

  lemma OrderNext(parts: seq<PagePart>, k: nat, last: int)
    requires k < |parts| && parts[k].planned != []
    ensures var p := parts[k].planned;
            InOrder(parts[k..], last) <==> p[0] > last && InOrder(parts[k + 1..], p[|p| - 1])
  {
    assert parts[k..][0] == parts[k] && parts[k..][1..] == parts[k + 1..];
  }

  lemma OrderDone(parts: seq<PagePart>, last: int)
    requires parts == []
    ensures InOrder(parts, last)
  {}

  method ReadPages(p: PagePart, local: bool) returns (ok: bool)
    ensures ok <==> Reads(p, local)
  {
    if |p.given| != |p.planned| { return false; }
    for i := 0 to |p.given|
      invariant forall j :: 0 <= j < i ==> MapPage(p.planned, local, p.given[j]) == Some(p.planned[j])
    {
      if MapPage(p.planned, local, p.given[i]) != Some(p.planned[i]) { return false; }
    }
    ok := true;
  }

  method FindLocal(p: PagePart) returns (local: bool)
    ensures local == Local(p)
  {
    local := true;
    for i := 0 to |p.given|
      invariant local && forall j :: 0 <= j < i ==> p.given[j] <= |p.planned|
    {
      if p.given[i] > |p.planned| { return false; }
    }
  }

  /** The original pages of all parts, one part after another. */
  function AllPlanned(parts: seq<PagePart>): Pages
    decreases |parts|
  {
    if parts == [] then [] else parts[0].planned + AllPlanned(parts[1..])
  }

  /** Parts in order have their pages strictly ascending throughout. */
  lemma {:induction false} PagesAscend(parts: seq<PagePart>, last: int)
    requires forall k :: 0 <= k < |parts| ==> Plausible(parts[k])
    requires InOrder(parts, last)
    ensures Ascending(AllPlanned(parts)) && forall i :: 0 <= i < |AllPlanned(parts)| ==> AllPlanned(parts)[i] > last
    decreases |parts|
  {
    if parts != [] {
      var p := parts[0].planned;
      var rest := AllPlanned(parts[1..]);
      PagesAscend(parts[1..], p[|p| - 1]);
      assert Plausible(parts[0]);
      var all := p + rest;
      forall i, j | 0 <= i < j < |all| ensures all[i] < all[j] {
        if i < |p| <= j { assert p[i] <= p[|p| - 1] < rest[j - |p|]; }
      }
      assert forall i :: 0 <= i < |p| ==> p[i] >= p[0];
    }
  }
}

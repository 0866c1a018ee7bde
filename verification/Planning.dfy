/** Cutting a selection of pages into parts (internal/pdfsplit/plan.go). A part is its pages. */
module Planning {
  type Pages = seq<int>

  predicate Ascending(pages: Pages) { forall i, j :: 0 <= i < j < |pages| ==> pages[i] < pages[j] }

  function Concat(parts: seq<Pages>): Pages
    decreases |parts|
  {
    if parts == [] then [] else Concat(parts[..|parts| - 1]) + parts[|parts| - 1]
  }

  function CeilHalf(n: nat): nat { (n + 1) / 2 }

  /** A part of two or more pages in two: the first has the larger half. */
  function Halve(p: Pages): (r: (Pages, Pages))
    requires |p| >= 2
    ensures r.0 + r.1 == p && r.0 != [] && r.1 != []
    ensures |r.0| == |r.1| || |r.0| == |r.1| + 1
  {
    (p[..CeilHalf(|p|)], p[CeilHalf(|p|)..])
  }

  lemma ConcatLast(parts: seq<Pages>, p: Pages)
    ensures Concat(parts + [p]) == Concat(parts) + p
  {
    assert (parts + [p])[..|parts|] == parts;
  }

  lemma {:induction false} ConcatJoin(a: seq<Pages>, b: seq<Pages>)
    ensures Concat(a + b) == Concat(a) + Concat(b)
    decreases |b|
  {
    if b == [] {
      assert a + b == a && Concat(a) + [] == Concat(a);
    } else {
      var most, last := b[..|b| - 1], b[|b| - 1];
      assert a + b == (a + most) + [last] && b == most + [last];
      ConcatJoin(a, most);
      ConcatLast(a + most, last);
      ConcatLast(most, last);
      assert (Concat(a) + Concat(most)) + last == Concat(a) + (Concat(most) + last);
    }
  }

  lemma MulMono(a: int, b: int, c: int)
    requires a <= b && 0 <= c
    ensures a * c <= b * c
  {}

  lemma MulLess(a: int, b: int, c: int)
    requires a * c < b * c && 0 < c
    ensures a < b
  {
    if a >= b { MulMono(b, a, c); }
  }

  /** size pages each, and one more for the first extra parts. */
  predicate Even(n: nat, k: nat, size: nat, extra: nat) { k >= 1 && n == size * k + extra && extra < k }

  lemma SizeAtMost(n: nat, max: nat, k: nat, size: nat, extra: nat)
    requires Even(n, k, size, extra) && n <= k * max
    ensures size <= max && (extra > 0 ==> size + 1 <= max)
  {
    assert size * k < (max + 1) * k by { assert (max + 1) * k == k * max + k; }
    MulLess(size, max + 1, k);
    if extra > 0 { MulLess(size, max, k); }
  }

  /** Once there are two parts, none is smaller than half of max: (k - 2) * (max - 1) is not negative. */
  lemma SizeAtLeast(n: nat, max: nat, k: nat, size: nat, extra: nat)
    requires Even(n, k, size, extra) && k >= 2 && max >= 1 && n >= (k - 1) * max + 1
    ensures size >= CeilHalf(max)
  {
    assert (k - 1) * max == k * max - max;
    MulMono(0, k - 2, max - 1);
    assert (k - 2) * (max - 1) == k * max - k - 2 * max + 2;
    assert (2 * size + 2) * k == 2 * (size * k) + 2 * k;
    assert (max + 1) * k == k * max + k;
    MulLess(max + 1, 2 * size + 2, k);
  }

  lemma PartCount(n: nat, max: nat) returns (k: nat)
    requires n >= 1 && max >= 1
    ensures k == (n - 1) / max + 1 && (k - 1) * max + 1 <= n <= k * max && k <= n
    ensures n > max ==> k >= 2
  {
    var q := (n - 1) / max;
    k := q + 1;
    assert n - 1 == q * max + (n - 1) % max;
    assert k * max == q * max + max;
    MulMono(1, max, q);
    if n > max { MulLess(0, q, max); }
  }

  /** The shape of a plan: never more than max, and at least half of it once there are two parts. */
  lemma Balanced(n: nat, max: nat) returns (k: nat, size: nat, extra: nat)
    requires n >= 1 && max >= 1
    ensures k == (n - 1) / max + 1 && size == n / k && extra == n % k && Even(n, k, size, extra)
    ensures 1 <= size <= max && (extra > 0 ==> size + 1 <= max)
    ensures n > max ==> size >= CeilHalf(max)
  {
    k := PartCount(n, max);
    size, extra := n / k, n % k;
    assert n == size * k + extra;
    SizeAtMost(n, max, k, size, extra);
    SizeAtLeastOne(n, k, size, extra);
    if n > max { SizeAtLeast(n, max, k, size, extra); }
  }

  lemma SizeAtLeastOne(n: nat, k: nat, size: nat, extra: nat)
    requires Even(n, k, size, extra) && k <= n
    ensures size >= 1
  {
    MulLess(0, size, k);
  }

  /** Whether part i has a size the plan gives it. */
  predicate PartSize(parts: seq<Pages>, i: nat, size: nat, extra: nat)
    requires i < |parts|
  {
    |parts[i]| == size + if i < extra then 1 else 0
  }

  /**
   * The plan: the fewest parts of at most max pages, in order, nothing lost, as even as can be; once there
   * are two of them none has less than half of max.
   */
  method Plan(pages: Pages, max: nat) returns (parts: seq<Pages>)
    requires max >= 1
    ensures Concat(parts) == pages
    ensures pages != [] ==> |parts| == (|pages| - 1) / max + 1
    ensures pages == [] ==> parts == []
    ensures forall i :: 0 <= i < |parts| ==> 1 <= |parts[i]| <= max
    ensures forall i, j :: 0 <= i < j < |parts| ==> |parts[j]| <= |parts[i]| <= |parts[j]| + 1
    ensures |pages| > max ==> forall i :: 0 <= i < |parts| ==> CeilHalf(max) <= |parts[i]|
  {
    hide *;
    parts := [];
    ConcatNone();
    var n := |pages|;
    if n == 0 {
      return;
    }
    ghost var count, sizes, extras := Balanced(n, max);
    var k := (n - 1) / max + 1;
    var size, extra := n / k, n % k;
    var start, i := 0, 0;
    ShareIs(n, k, size, extra, 0);
    while i < k
      invariant 0 <= i <= k && |parts| == i
      invariant start == Share(i, size, extra) <= n
      invariant Concat(parts) == pages[..start]
      invariant forall j: nat :: j < i ==> PartSize(parts, j, size, extra)
    {
      var end := start + size;
      if i < extra {
        end := end + 1;
      }
      ShareIs(n, k, size, extra, i + 1);
      ShareNext(i, size, extra);
      ConcatLast(parts, pages[start..end]);
      assert pages[..start] + pages[start..end] == pages[..end];
      SizeNext(parts, pages[start..end], size, extra);
      parts := parts + [pages[start..end]];
      start := end;
      i := i + 1;
    }
    ShareIs(n, k, size, extra, k);
    assert pages[..n] == pages;
    Sized(parts, size, extra);
  }

  lemma SizeNext(parts: seq<Pages>, p: Pages, size: nat, extra: nat)
    requires forall j: nat :: j < |parts| ==> PartSize(parts, j, size, extra)
    requires |p| == size + if |parts| < extra then 1 else 0
    ensures forall j: nat :: j < |parts| + 1 ==> PartSize(parts + [p], j, size, extra)
  {
    forall j: nat | j < |parts| + 1 ensures PartSize(parts + [p], j, size, extra) {
      if j < |parts| { assert PartSize(parts, j, size, extra); }
    }
  }

  lemma Sized(parts: seq<Pages>, size: nat, extra: nat)
    requires forall j: nat :: j < |parts| ==> PartSize(parts, j, size, extra)
    ensures forall i :: 0 <= i < |parts| ==> size <= |parts[i]| <= size + if extra > 0 then 1 else 0
    ensures forall i, j :: 0 <= i < j < |parts| ==> |parts[j]| <= |parts[i]| <= |parts[j]| + 1
  {
    forall i | 0 <= i < |parts| ensures |parts[i]| == size + if i < extra then 1 else 0 {
      assert PartSize(parts, i, size, extra);
    }
  }

  lemma ConcatNone()
    ensures Concat([]) == []
  {}

  /** How many pages the first i parts have. */
  function Share(i: nat, size: nat, extra: nat): nat
    decreases i
  {
    if i == 0 then 0 else Share(i - 1, size, extra) + size + if i - 1 < extra then 1 else 0
  }

  lemma {:induction false} ShareSum(i: nat, size: nat, extra: nat)
    ensures Share(i, size, extra) == i * size + if i < extra then i else extra
    decreases i
  {
    if i > 0 {
      ShareSum(i - 1, size, extra);
      assert i * size == (i - 1) * size + size;
    }
  }

  lemma ShareNext(i: nat, size: nat, extra: nat)
    ensures Share(i + 1, size, extra) == Share(i, size, extra) + size + if i < extra then 1 else 0
  {}

  lemma ShareIs(n: nat, k: nat, size: nat, extra: nat, i: nat)
    requires Even(n, k, size, extra) && i <= k
    ensures Share(i, size, extra) <= n && (i == k ==> Share(i, size, extra) == n)
    ensures (i == 0 ==> Share(i, size, extra) == 0)
  {
    ShareSum(i, size, extra);
    MulMono(i, k, size);
  }
}

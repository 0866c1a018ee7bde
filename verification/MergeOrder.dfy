/** The member order of a merged object (internal/merge/order.go). */
module MergeOrder {
  import opened Lists

  type Name = string

  ghost predicate Ascending(at: seq<nat>) {
    forall i, j :: 0 <= i < j < |at| ==> at[i] < at[j]
  }

  /** list occurs within order as a subsequence, at the positions at. */
  ghost predicate KeepsAt(order: seq<Name>, list: seq<Name>, at: seq<nat>) {
    && |at| == |list|
    && Ascending(at)
    && forall i :: 0 <= i < |at| ==> at[i] < |order| && order[at[i]] == list[i]
  }

  ghost predicate Keeps(order: seq<Name>, list: seq<Name>) {
    exists at :: KeepsAt(order, list, at)
  }

  ghost predicate KeepsAll(order: seq<Name>, lists: seq<seq<Name>>) {
    forall k :: 0 <= k < |lists| ==> Keeps(order, lists[k])
  }

  /** Some list names x. */
  ghost predicate Named(lists: seq<seq<Name>>, x: Name) {
    exists k :: 0 <= k < |lists| && x in lists[k]
  }

  /** order lists exactly the names the lists give, each once, and keeps every list. */
  ghost predicate Solves(order: seq<Name>, lists: seq<seq<Name>>) {
    && Distinct(order)
    && (forall x :: x in order <==> Named(lists, x))
    && KeepsAll(order, lists)
  }

  /** Some list puts a right before b. */
  ghost predicate Before(lists: seq<seq<Name>>, a: Name, b: Name) {
    exists k, i :: 0 <= k < |lists| && 0 <= i < |lists[k]| - 1 && lists[k][i] == a && lists[k][i + 1] == b
  }

  /** Where x first occurs in s. */
  function Index(s: seq<Name>, x: Name): (i: nat)
    requires x in s
    ensures i < |s| && s[i] == x
    ensures x !in s[..i]
  {
    if s[0] == x then 0 else
    assert s == [s[0]] + s[1..];
    1 + Index(s[1..], x)
  }

  function InsertAt(s: seq<Name>, at: nat, x: Name): seq<Name>
    requires at <= |s|
  {
    s[..at] + [x] + s[at..]
  }

  /** pref with the first n names of list placed: a new one right after the name before it. */
  function Placed(pref: seq<Name>, list: seq<Name>, n: nat): (r: seq<Name>)
    requires n <= |list|
    ensures forall x :: x in r <==> x in pref || x in list[..n]
  {
    if n == 0 then pref else
    var p := Placed(pref, list, n - 1);
    assert list[..n] == list[..n - 1] + [list[n - 1]];
    if list[n - 1] in p then p
    else if n == 1 then InsertAt(p, 0, list[0])
    else
      assert list[n - 2] in list[..n - 1];
      InsertAt(p, Index(p, list[n - 2]) + 1, list[n - 1])
  }

  /** The insertion order of the first n lists. */
  function Preferred(lists: seq<seq<Name>>, n: nat): seq<Name>
    requires n <= |lists|
  {
    if n == 0 then [] else Placed(Preferred(lists, n - 1), lists[n - 1], |lists[n - 1]|)
  }

  /** The next name goes right behind the one before it, if it is new. */
  lemma PlacedStep(pref: seq<Name>, list: seq<Name>, n: nat) returns (at: nat)
    requires n < |list|
    ensures var was, now, x := Placed(pref, list, n), Placed(pref, list, n + 1), list[n];
            && (x in was ==> now == was)
            && (x !in was ==>
                  && at <= |was| && now == was[..at] + [x] + was[at..]
                  && (if n == 0 then at == 0 else at > 0 && was[at - 1] == list[n - 1]))
  {
    PlacedMore(pref, list, n);
    hide Placed, InsertAt;
    InsertIs(Placed(pref, list, n), 0, list[n]);
    at := 0;
    if n > 0 && list[n] !in Placed(pref, list, n) {
      at := Index(Placed(pref, list, n), list[n - 1]) + 1;
      InsertIs(Placed(pref, list, n), at, list[n]);
    }
  }

  lemma InsertIs(s: seq<Name>, at: nat, x: Name)
    requires at <= |s|
    ensures InsertAt(s, at, x) == s[..at] + [x] + s[at..]
  {}

  lemma PlacedMore(pref: seq<Name>, list: seq<Name>, n: nat)
    requires n < |list|
    ensures n > 0 ==> list[n - 1] in Placed(pref, list, n)
    ensures var was := Placed(pref, list, n);
            Placed(pref, list, n + 1) ==
              if list[n] in was then was
              else if n == 0 then InsertAt(was, 0, list[0])
              else InsertAt(was, Index(was, list[n - 1]) + 1, list[n])
  {
    hide Index, InsertAt;
    assert n > 0 ==> list[n - 1] in list[..n];
  }

  lemma InsertDistinct(s: seq<Name>, at: nat, x: Name)
    requires at <= |s| && Distinct(s) && x !in s
    ensures Distinct(s[..at] + [x] + s[at..])
  {
    var r := s[..at] + [x] + s[at..];
    assert forall i :: 0 <= i < |r| ==> r[i] == if i < at then s[i] else if i == at then x else s[i - 1];
  }

  lemma PlacedNone(pref: seq<Name>, list: seq<Name>)
    ensures Placed(pref, list, 0) == pref
  {}

  lemma DistinctNext(was: seq<Name>, now: seq<Name>, at: nat, x: Name)
    requires Distinct(was) && (x in was ==> now == was)
    requires x !in was ==> at <= |was| && now == was[..at] + [x] + was[at..]
    ensures Distinct(now)
  {
    hide Distinct;
    if x !in was { InsertDistinct(was, at, x); }
  }

  lemma {:induction false} PlacedDistinct(pref: seq<Name>, list: seq<Name>, n: nat)
    requires n <= |list| && Distinct(pref)
    ensures Distinct(Placed(pref, list, n))
  {
    hide *;
    if n == 0 {
      PlacedNone(pref, list);
    } else {
      PlacedDistinct(pref, list, n - 1);
      var at := PlacedStep(pref, list, n - 1);
      DistinctNext(Placed(pref, list, n - 1), Placed(pref, list, n), at, list[n - 1]);
    }
  }

  /**
   * One name more of a list: if it is new it goes right behind the name before it, or first of all, and every other
   * name keeps its place among the rest.
   */
  lemma PlacedNext(pref: seq<Name>, list: seq<Name>, n: nat)
    requires n < |list|
    ensures var was, now, x := Placed(pref, list, n), Placed(pref, list, n + 1), list[n];
            && (x in was ==> now == was)
            && (x !in was ==>
                  exists at :: 0 <= at <= |was| && now == was[..at] + [x] + was[at..]
                               && (if n == 0 then at == 0 else at > 0 && was[at - 1] == list[n - 1]))
  {
    var at := PlacedStep(pref, list, n);
    hide Placed;
  }

  lemma {:induction false} PreferredNames(lists: seq<seq<Name>>, n: nat)
    requires n <= |lists|
    ensures Distinct(Preferred(lists, n))
    ensures forall x :: x in Preferred(lists, n) <==> Named(lists[..n], x)
  {
    if n > 0 {
      PreferredNames(lists, n - 1);
      PlacedDistinct(Preferred(lists, n - 1), lists[n - 1], |lists[n - 1]|);
      var last := lists[n - 1];
      assert last[..|last|] == last;
      forall x ensures x in Preferred(lists, n) <==> Named(lists[..n], x) {
        if x in Preferred(lists, n) {
          if x in last {
            assert x in lists[..n][n - 1];
          } else {
            var k :| 0 <= k < n - 1 && x in lists[..n - 1][k];
            assert x in lists[..n][k];
          }
        }
        if Named(lists[..n], x) {
          var k :| 0 <= k < n && x in lists[..n][k];
          assert k < n - 1 ==> x in lists[..n - 1][k];
        }
      }
    }
  }

  /** An order that keeps the lists puts every listed pair the right way round. */
  lemma KeptPair(order: seq<Name>, lists: seq<seq<Name>>, a: Name, b: Name)
    requires Distinct(order) && KeepsAll(order, lists) && Before(lists, a, b)
    ensures a in order && b in order && Index(order, a) < Index(order, b)
  {
    var k, i :| 0 <= k < |lists| && 0 <= i < |lists[k]| - 1 && lists[k][i] == a && lists[k][i + 1] == b;
    var at :| KeepsAt(order, lists[k], at);
    assert order[at[i]] == a && order[at[i + 1]] == b;
  }

  /** An order with every name, and every pair the right way round, keeps the lists. */
  lemma PairsKeep(order: seq<Name>, list: seq<Name>)
    requires forall x :: x in list ==> x in order
    requires forall i :: 0 <= i < |list| - 1 ==> Index(order, list[i]) < Index(order, list[i + 1])
    ensures Keeps(order, list)
  {
    var at: seq<nat> := seq(|list|, i requires 0 <= i < |list| => Index(order, list[i]));
    forall i, j | 0 <= i < j < |list| ensures at[i] < at[j] {
      var m := i + 1;
      while m < j
        invariant i < m <= j
        invariant at[i] < at[m]
      {
        m := m + 1;
      }
    }
    assert KeepsAt(order, list, at);
  }

  /** Nothing waits on an unplaced name: j may go next once names are placed. */
  ghost predicate Free(lists: seq<seq<Name>>, names: seq<Name>, x: Name) {
    forall a :: Before(lists, a, x) ==> a in names
  }

  /** x may follow placed, and no earlier name of pref may. */
  ghost predicate Choice(lists: seq<seq<Name>>, pref: seq<Name>, placed: seq<Name>, x: Name) {
    && x in pref && x !in placed && Free(lists, placed, x)
    && forall j :: 0 <= j < Index(pref, x) && pref[j] !in placed ==> !Free(lists, placed, pref[j])
  }

  /** order was chosen greedily: each name was free, and no earlier name of pref was. */
  ghost predicate Greedy(lists: seq<seq<Name>>, pref: seq<Name>, order: seq<Name>) {
    forall t :: 0 <= t < |order| ==> Choice(lists, pref, order[..t], order[t])
  }

  /** a comes before b in the dictionary order of positions in pref. */
  ghost predicate NoLater(pref: seq<Name>, a: seq<Name>, b: seq<Name>)
    requires forall x :: x in a || x in b ==> x in pref
  {
    a == b || exists t ::
        && 0 <= t < |a| && t < |b| && a[..t] == b[..t]
        && Index(pref, a[t]) < Index(pref, b[t])
  }

  lemma GreedyDistinct(lists: seq<seq<Name>>, pref: seq<Name>, order: seq<Name>)
    requires Greedy(lists, pref, order)
    ensures Distinct(order)
  {
    forall i, j | 0 <= i < j < |order| ensures order[i] != order[j] {
      assert Choice(lists, pref, order[..j], order[j]);
      assert order[i] in order[..j];
    }
  }

  /** A greedy order of all the names keeps every list. */
  lemma GreedySolves(lists: seq<seq<Name>>, pref: seq<Name>, order: seq<Name>)
    requires Distinct(pref) && (forall x :: x in pref <==> Named(lists, x))
    requires Greedy(lists, pref, order)
    requires forall x :: x in pref ==> x in order
    ensures Solves(order, lists)
  {
    GreedyDistinct(lists, pref, order);
    forall k | 0 <= k < |lists| ensures Keeps(order, lists[k]) {
      var list := lists[k];
      forall x | x in list ensures x in order { assert Named(lists, x); }
      forall i | 0 <= i < |list| - 1 ensures Index(order, list[i]) < Index(order, list[i + 1]) {
        assert Before(lists, list[i], list[i + 1]);
        var t := Index(order, list[i + 1]);
        assert Choice(lists, pref, order[..t], order[t]);
      }
      PairsKeep(order, list);
    }
  }

  /** Of all solutions the greedy one is the earliest in the dictionary order of the insertion order. */
  lemma GreedyEarliest(lists: seq<seq<Name>>, pref: seq<Name>, order: seq<Name>, other: seq<Name>)
    requires Distinct(pref) && (forall x :: x in pref <==> Named(lists, x))
    requires Greedy(lists, pref, order) && Solves(order, lists) && Solves(other, lists)
    ensures forall x :: x in order || x in other ==> x in pref
    ensures NoLater(pref, order, other)
  {
    forall x | x in order || x in other ensures x in pref { assert Named(lists, x); }
    SameLength(order, other);
    if order != other {
      var t := FirstDifference(order, other);
      EarlierChoice(lists, pref, order, other, t);
    }
  }

  lemma FirstDifference(a: seq<Name>, b: seq<Name>) returns (t: nat)
    requires |a| == |b| && a != b
    ensures t < |a| && a[..t] == b[..t] && a[t] != b[t]
  {
    t := 0;
    while t < |a| && a[t] == b[t]
      invariant t <= |a| && a[..t] == b[..t]
    {
      t := t + 1;
    }
    assert a[..|a|] == a && b[..|b|] == b;
  }

  lemma EarlierChoice(lists: seq<seq<Name>>, pref: seq<Name>, order: seq<Name>, other: seq<Name>, t: nat)
    requires Greedy(lists, pref, order) && Solves(other, lists) && (forall x :: x in other ==> x in pref)
    requires t < |order| && t < |other| && order[..t] == other[..t] && order[t] != other[t]
    ensures order[t] in pref && other[t] in pref && Index(pref, order[t]) < Index(pref, other[t])
  {
    hide Free, Choice, KeepsAll, Distinct, Named, Index;
    FreeNext(lists, other, t);
    DistinctPrefix(other, t);
    assert other[t] in other;
    FirstFree(lists, pref, order[..t], order[t], other[t]);
  }

  lemma FirstFree(lists: seq<seq<Name>>, pref: seq<Name>, placed: seq<Name>, x: Name, y: Name)
    requires Choice(lists, pref, placed, x) && y in pref && y !in placed && Free(lists, placed, y) && x != y
    ensures x in pref && Index(pref, x) < Index(pref, y)
  {
    hide Free, Index;
    var j := Index(pref, y);
    assert pref[j] == y && pref[Index(pref, x)] == x;
  }

  lemma FreeNext(lists: seq<seq<Name>>, other: seq<Name>, t: nat)
    requires Solves(other, lists) && t < |other|
    ensures Free(lists, other[..t], other[t])
  {
    forall a | Before(lists, a, other[t]) ensures a in other[..t] {
      KeptPair(other, lists, a, other[t]);
      assert other[..t][Index(other, a)] == a;
    }
  }

  lemma DistinctPrefix(s: seq<Name>, t: nat)
    requires Distinct(s) && t < |s|
    ensures s[t] !in s[..t] && Index(s, s[t]) == t
  {}

  lemma {:induction false} SameLength(a: seq<Name>, b: seq<Name>)
    requires Distinct(a) && Distinct(b) && forall x :: x in a <==> x in b
    ensures |a| == |b|
  {
    ElementsCount(a);
    ElementsCount(b);
    assert (set x | x in a) == (set x | x in b);
  }

  lemma {:induction false} ElementsCount(a: seq<Name>)
    requires Distinct(a)
    ensures |set x | x in a| == |a|
  {
    if a != [] {
      ElementsCount(a[1..]);
      assert a[0] !in a[1..];
      assert (set x | x in a) == {a[0]} + (set x | x in a[1..]);
    }
  }

  /** While some order keeps the lists, a name is always free to go next. */
  lemma SomethingFree(lists: seq<seq<Name>>, pref: seq<Name>, placed: seq<Name>, witnessed: seq<Name>)
    requires Distinct(witnessed) && KeepsAll(witnessed, lists)
    requires forall x :: x in pref <==> Named(lists, x)
    requires exists x :: x in pref && x !in placed
    ensures exists x :: x in pref && x !in placed && Free(lists, placed, x)
  {
    forall x | x in pref ensures x in witnessed {
      var k :| 0 <= k < |lists| && x in lists[k];
      var at :| KeepsAt(witnessed, lists[k], at);
      assert lists[k][Index(lists[k], x)] == x;
      assert witnessed[at[Index(lists[k], x)]] == x;
    }
    var x :| x in pref && x !in placed;
    while !Free(lists, placed, x)
      invariant x in pref && x !in placed
      decreases Index(witnessed, x)
    {
      var a :| Before(lists, a, x) && a !in placed;
      KeptPair(witnessed, lists, a, x);
      assert Named(lists, a);
      x := a;
    }
  }

  /** When every name left waits for another, no order keeps the lists. */
  lemma NothingKeeps(lists: seq<seq<Name>>, pref: seq<Name>, order: seq<Name>)
    requires Distinct(pref) && (forall x :: x in pref <==> Named(lists, x))
    requires Distinct(order) && (forall x :: x in order ==> x in pref) && |order| < |pref|
    requires forall x :: x in pref && x !in order ==> !Free(lists, order, x)
    ensures !exists o :: Distinct(o) && KeepsAll(o, lists)
  {
    forall o | Distinct(o) && KeepsAll(o, lists) ensures false {
      MissingName(pref, order);
      SomethingFree(lists, pref, order, o);
    }
  }

  /** The insertion order (order.go:18-31). */
  method Prefer(lists: seq<seq<Name>>) returns (pref: seq<Name>)
    ensures pref == Preferred(lists, |lists|)
  {
    pref := [];
    for k := 0 to |lists|
      invariant pref == Preferred(lists, k)
    {
      var list := lists[k];
      for i := 0 to |list|
        invariant pref == Placed(Preferred(lists, k), list, i)
      {
        assert list[..i + 1] == list[..i] + [list[i]];
        if list[i] in pref {
          continue;
        }
        var at := 0;
        if i > 0 {
          assert list[i - 1] in list[..i];
          at := Index(pref, list[i - 1]) + 1;
        }
        pref := InsertAt(pref, at, list[i]);
      }
    }
  }

  /** Every i in before[j] is a name some list puts right before pref[j]. */
  ghost predicate Sound(lists: seq<seq<Name>>, pref: seq<Name>, before: seq<seq<nat>>) {
    && |before| == |pref|
    && (forall j, i :: 0 <= j < |pref| && i in before[j] ==> i < |pref|)
    && (forall j, i :: 0 <= j < |pref| && i in before[j] ==> Before(lists, pref[i], pref[j]))
  }

  /** before[j] holds, by index into pref, the names some list puts right before pref[j]. */
  ghost predicate Waits(lists: seq<seq<Name>>, pref: seq<Name>, before: seq<seq<nat>>) {
    && Sound(lists, pref, before)
    && (forall j, a :: 0 <= j < |pref| && Before(lists, a, pref[j]) ==> a in pref && Index(pref, a) in before[j])
  }

  /** The n-th pair of list is recorded in before. */
  ghost predicate Recorded(list: seq<Name>, n: nat, pref: seq<Name>, before: seq<seq<nat>>)
    requires n < |list| - 1 && |before| == |pref|
  {
    && list[n] in pref && list[n + 1] in pref
    && Index(pref, list[n]) in before[Index(pref, list[n + 1])]
  }

  /** The pairs of the first k lists are recorded, and those before place i of list k. */
  ghost predicate RecordedTo(lists: seq<seq<Name>>, pref: seq<Name>, before: seq<seq<nat>>, k: nat, i: nat) {
    && Sound(lists, pref, before)
    && forall m, n: nat :: 0 <= m < |lists| && n < |lists[m]| - 1 && (m < k || (m == k && n + 1 < i))
         ==> Recorded(lists[m], n, pref, before)
  }

  lemma RecordPair(lists: seq<seq<Name>>, pref: seq<Name>, before: seq<seq<nat>>, k: nat, i: nat)
    requires RecordedTo(lists, pref, before, k, i) && k < |lists| && 1 <= i < |lists[k]|
    requires lists[k][i] in pref && lists[k][i - 1] in pref
    ensures var j := Index(pref, lists[k][i]);
            RecordedTo(lists, pref, before[j := before[j] + [Index(pref, lists[k][i - 1])]], k, i + 1)
  {
    var j, b := Index(pref, lists[k][i]), Index(pref, lists[k][i - 1]);
    assert lists[k][i - 1] == pref[b] && lists[k][i - 1 + 1] == pref[j];
    assert Before(lists, pref[b], pref[j]);
    var after := before[j := before[j] + [b]];
    forall m, n: nat | 0 <= m < |lists| && n < |lists[m]| - 1 && (m < k || (m == k && n + 1 < i + 1))
      ensures Recorded(lists[m], n, pref, after)
    {
      if m == k && n + 1 == i {
        assert b in after[j];
      } else {
        assert Recorded(lists[m], n, pref, before);
      }
    }
  }

  lemma RecordedAll(lists: seq<seq<Name>>, pref: seq<Name>, before: seq<seq<nat>>)
    requires Distinct(pref) && RecordedTo(lists, pref, before, |lists|, 1)
    ensures Waits(lists, pref, before)
  {
    forall j, a | 0 <= j < |pref| && Before(lists, a, pref[j]) ensures a in pref && Index(pref, a) in before[j] {
      var k, i :| 0 <= k < |lists| && 0 <= i < |lists[k]| - 1 && lists[k][i] == a && lists[k][i + 1] == pref[j];
      assert Recorded(lists[k], i, pref, before);
      DistinctPrefix(pref, j);
    }
  }

  method Predecessors(lists: seq<seq<Name>>, pref: seq<Name>) returns (before: seq<seq<nat>>)
    requires Distinct(pref) && forall x :: x in pref <==> Named(lists, x)
    ensures Waits(lists, pref, before)
  {
    before := seq(|pref|, _ => []);
    for k := 0 to |lists|
      invariant RecordedTo(lists, pref, before, k, 1)
    {
      var list := lists[k];
      forall x | x in list ensures x in pref { assert Named(lists, x); }
      var i := 1;
      while i < |list|
        invariant 1 <= i
        invariant RecordedTo(lists, pref, before, k, i)
      {
        var j := Index(pref, list[i]);
        RecordPair(lists, pref, before, k, i);
        before := before[j := before[j] + [Index(pref, list[i - 1])]];
        i := i + 1;
      }
    }
    RecordedAll(lists, pref, before);
  }

  /** The earliest name of pref that is free to go next, or |pref| when every name left waits. */
  method NextFree(lists: seq<seq<Name>>, pref: seq<Name>, before: seq<seq<nat>>, placed: seq<bool>,
      ghost order: seq<Name>)
    returns (next: nat)
    requires Distinct(pref) && Waits(lists, pref, before) && |placed| == |pref|
    requires forall j :: 0 <= j < |pref| ==> (placed[j] <==> pref[j] in order)
    ensures next <= |pref|
    ensures next < |pref| ==> pref[next] !in order && Free(lists, order, pref[next])
    ensures forall i :: 0 <= i < next && pref[i] !in order ==> !Free(lists, order, pref[i])
  {
    next := 0;
    while next < |pref|
      invariant next <= |pref|
      invariant forall i :: 0 <= i < next && pref[i] !in order ==> !Free(lists, order, pref[i])
    {
      if !placed[next] && forall i :: i in before[next] ==> placed[i] {
        forall a | Before(lists, a, pref[next]) ensures a in order {
          assert Index(pref, a) in before[next];
          assert pref[Index(pref, a)] == a;
        }
        return;
      }
      if !placed[next] {
        var i :| i in before[next] && !placed[i];
        assert Before(lists, pref[i], pref[next]);
      }
      next := next + 1;
    }
  }

  /**
   * Merges lists of names into one order that keeps every list (order.go:17-61): it succeeds
   * exactly when some order does, and then gives the earliest one, which is the insertion order
   * itself whenever that keeps every list.
   */
  method Merge(lists: seq<seq<Name>>) returns (order: seq<Name>, ok: bool)
    ensures ok ==> Solves(order, lists)
    ensures ok <==> exists o :: Distinct(o) && KeepsAll(o, lists)
    ensures ok ==> forall o :: Solves(o, lists) ==>
        (forall x :: x in order || x in o ==> x in Preferred(lists, |lists|))
        && NoLater(Preferred(lists, |lists|), order, o)
    ensures KeepsAll(Preferred(lists, |lists|), lists) ==> ok && order == Preferred(lists, |lists|)
  {
    var pref := Prefer(lists);
    PreferredNames(lists, |lists|);
    assert lists[..|lists|] == lists;
    var before := Predecessors(lists, pref);
    var placed := seq(|pref|, _ => false);
    order := [];
    while |order| < |pref|
      invariant |placed| == |pref|
      invariant forall j :: 0 <= j < |pref| ==> (placed[j] <==> pref[j] in order)
      invariant Greedy(lists, pref, order)
      invariant |order| <= |pref|
    {
      var next := NextFree(lists, pref, before, placed, order);
      if next == |pref| {
        GreedyDistinct(lists, pref, order);
        NothingKeeps(lists, pref, order);
        return [], false;
      }
      Extend(lists, pref, order, next);
      placed := placed[next := true];
      order := order + [pref[next]];
    }
    GreedyDistinct(lists, pref, order);
    forall x | x in pref ensures x in order {
      if x !in order { TooMany(pref, order, x); }
    }
    GreedySolves(lists, pref, order);
    forall o | Solves(o, lists)
      ensures (forall x :: x in order || x in o ==> x in pref) && NoLater(pref, order, o)
    {
      GreedyEarliest(lists, pref, order, o);
    }
    if KeepsAll(pref, lists) {
      PreferredIsEarliest(lists, pref, order);
    }
    ok := true;
  }

  lemma Extend(lists: seq<seq<Name>>, pref: seq<Name>, order: seq<Name>, next: nat)
    requires Distinct(pref) && Greedy(lists, pref, order) && next < |pref|
    requires pref[next] !in order && Free(lists, order, pref[next])
    requires forall i :: 0 <= i < next && pref[i] !in order ==> !Free(lists, order, pref[i])
    ensures Greedy(lists, pref, order + [pref[next]])
    ensures |order| < |pref|
  {
    var o := order + [pref[next]];
    DistinctPrefix(pref, next);
    forall t | 0 <= t < |o| ensures Choice(lists, pref, o[..t], o[t]) {
      if t < |order| {
        assert o[..t] == order[..t] && o[t] == order[t];
      } else {
        assert o[..t] == order;
      }
    }
    GreedyDistinct(lists, pref, order);
    if |order| >= |pref| {
      TooMany(pref, order, pref[next]);
    }
  }

  lemma TooMany(pref: seq<Name>, order: seq<Name>, x: Name)
    requires Distinct(pref) && Distinct(order) && (forall y :: y in order ==> y in pref)
    requires x in pref && x !in order
    ensures |order| < |pref|
  {
    ElementsCount(pref);
    ElementsCount(order);
    var all, some := (set y | y in pref), (set y | y in order);
    assert some <= all - {x};
    SubsetSize(some, all - {x});
  }

  lemma SubsetSize(a: set<Name>, b: set<Name>)
    requires a <= b
    ensures |a| <= |b|
  {
    assert b == a + (b - a);
  }

  lemma MissingName(pref: seq<Name>, order: seq<Name>)
    requires Distinct(pref) && Distinct(order) && |order| < |pref|
    ensures exists x :: x in pref && x !in order
  {
    ElementsCount(pref);
    ElementsCount(order);
    if forall x :: x in pref ==> x in order {
      SubsetSize((set y | y in pref), (set y | y in order));
    }
  }

  /** The insertion order, when it keeps every list, comes first in its own dictionary order. */
  lemma PreferredIsEarliest(lists: seq<seq<Name>>, pref: seq<Name>, order: seq<Name>)
    requires Distinct(pref) && (forall x :: x in pref <==> Named(lists, x)) && KeepsAll(pref, lists)
    requires Greedy(lists, pref, order) && Solves(order, lists)
    ensures order == pref
  {
    GreedyEarliest(lists, pref, order, pref);
  }
}

/** Lists: no element twice, what a list and its multiset have in common, and sorting by a key. */
module Lists {
  ghost predicate Distinct<T>(s: seq<T>) { forall i, j :: 0 <= i < j < |s| ==> s[i] != s[j] }

  lemma InMultiset<T>(a: seq<T>, x: T) returns (i: nat)
    requires x in multiset(a)
    ensures i < |a| && a[i] == x
  {
    i :| i < |a| && a[i] == x;
  }

  lemma DropLast<T>(a: seq<T>)
    requires a != []
    ensures a == a[..|a| - 1] + [a[|a| - 1]]
    ensures multiset(a[..|a| - 1]) == multiset(a) - multiset{a[|a| - 1]}
  {
    assert a == a[..|a| - 1] + [a[|a| - 1]];
  }

  ghost predicate InKeyOrder<T>(s: seq<T>, key: T -> int) {
    forall i, j :: 0 <= i < j < |s| ==> key(s[i]) <= key(s[j])
  }

  lemma Inserted<T>(r: seq<T>, k: nat, x: T, key: T -> int)
    requires InKeyOrder(r, key) && k <= |r|
    requires (forall j :: 0 <= j < k ==> key(r[j]) <= key(x)) && (k < |r| ==> key(x) < key(r[k]))
    ensures InKeyOrder(r[..k] + [x] + r[k..], key)
  {
    var s := r[..k] + [x] + r[k..];
    assert forall i :: 0 <= i < |s| ==> s[i] == if i < k then r[i] else if i == k then x else r[i - 1];
    assert forall j :: k <= j < |r| ==> key(r[k]) <= key(r[j]);
  }

  lemma InsertedSame<T>(r: seq<T>, k: nat, s: seq<T>, i: nat)
    requires k <= |r| && i < |s| && multiset(r) == multiset(s[..i])
    ensures multiset(r[..k] + [s[i]] + r[k..]) == multiset(s[..i + 1])
  {
    assert s[..i + 1] == s[..i] + [s[i]];
    assert r == r[..k] + r[k..];
  }

  lemma NothingSorted<T>(s: seq<T>, key: T -> int)
    ensures multiset(s[..0]) == multiset([]) && InKeyOrder<T>([], key)
  {}

  /** The list in the order of its elements' keys, in place of a library sort. */
  method SortedBy<T>(s: seq<T>, key: T -> int) returns (r: seq<T>)
    ensures InKeyOrder(r, key) && multiset(r) == multiset(s)
  {
    hide *;
    r := [];
    NothingSorted(s, key);
    for i := 0 to |s|
      invariant InKeyOrder(r, key) && multiset(r) == multiset(s[..i])
    {
      var k := 0;
      while k < |r| && key(r[k]) <= key(s[i])
        invariant 0 <= k <= |r| && forall j :: 0 <= j < k ==> key(r[j]) <= key(s[i])
      {
        k := k + 1;
      }
      Inserted(r, k, s[i], key);
      InsertedSame(r, k, s, i);
      r := r[..k] + [s[i]] + r[k..];
    }
    assert s[..|s|] == s;
  }
}

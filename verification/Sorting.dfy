/** Array.prototype.sort with a numeric key: stable, smallest key first. */
module Sorting {
  predicate InOrder<T(!new)>(s: seq<T>, key: T -> int) { forall i, j :: 0 <= i < j < |s| ==> key(s[i]) <= key(s[j]) }

  /** `e` put after the last element whose key is not above its own. */
  function Insert<T>(e: T, s: seq<T>, key: T -> int): (r: seq<T>)
    ensures multiset(r) == multiset(s) + multiset{e} && |r| == |s| + 1
  {
    if s == [] || key(s[|s| - 1]) <= key(e) then s + [e]
    else
      assert s == s[..|s| - 1] + [s[|s| - 1]];
      Insert(e, s[..|s| - 1], key) + [s[|s| - 1]]
  }

  function SortBy<T>(s: seq<T>, key: T -> int): (r: seq<T>)
    ensures multiset(r) == multiset(s) && |r| == |s|
  {
    if s == [] then []
    else
      assert s == s[..|s| - 1] + [s[|s| - 1]];
      Insert(s[|s| - 1], SortBy(s[..|s| - 1], key), key)
  }

  lemma {:induction false} InsertKeepsOrder<T(!new)>(e: T, s: seq<T>, key: T -> int)
    requires InOrder(s, key)
    ensures InOrder(Insert(e, s, key), key)
  {
    if s != [] && key(s[|s| - 1]) > key(e) {
      var front := s[..|s| - 1];
      InsertKeepsOrder(e, front, key);
      var r := Insert(e, front, key);
      forall i | 0 <= i < |r|
        ensures key(r[i]) <= key(s[|s| - 1])
      {
        assert r[i] in multiset(r);
        assert r[i] in front || r[i] == e;
      }
    }
  }

  lemma {:induction false} SortByIsInOrder<T(!new)>(s: seq<T>, key: T -> int)
    ensures InOrder(SortBy(s, key), key)
  {
    if s == [] {
    } else {
      SortByIsInOrder(s[..|s| - 1], key);
      InsertKeepsOrder(s[|s| - 1], SortBy(s[..|s| - 1], key), key);
    }
  }

  /** The elements of one key, in their order. */
  function OfKey<T>(k: int, s: seq<T>, key: T -> int): seq<T> {
    if s == [] then [] else OfKey(k, s[..|s| - 1], key) + (if key(s[|s| - 1]) == k then [s[|s| - 1]] else [])
  }

  lemma OneMoreOfKey<T>(k: int, s: seq<T>, e: T, key: T -> int)
    ensures OfKey(k, s + [e], key) == OfKey(k, s, key) + if key(e) == k then [e] else []
  {
    assert (s + [e])[..|s|] == s;
  }

  lemma {:induction false} InsertKeepsKeys<T>(k: int, e: T, s: seq<T>, key: T -> int)
    ensures OfKey(k, Insert(e, s, key), key) == OfKey(k, s + [e], key)
  {
    OneMoreOfKey(k, s, e, key);
    if s == [] || key(s[|s| - 1]) <= key(e) {
    } else {
      var last := |s| - 1;
      InsertKeepsKeys(k, e, s[..last], key);
      OneMoreOfKey(k, Insert(e, s[..last], key), s[last], key);
      OneMoreOfKey(k, s[..last], e, key);
    }
  }

  /** The sort is stable: elements of one key stay in their order. */
  lemma {:induction false} SortIsStable<T>(k: int, s: seq<T>, key: T -> int)
    ensures OfKey(k, SortBy(s, key), key) == OfKey(k, s, key)
  {
    if s == [] {
    } else {
      var last := |s| - 1;
      SortIsStable(k, s[..last], key);
      InsertKeepsKeys(k, s[last], SortBy(s[..last], key), key);
      OneMoreOfKey(k, SortBy(s[..last], key), s[last], key);
    }
  }

  lemma SameElements<T>(s: seq<T>, key: T -> int)
    ensures forall e :: e in SortBy(s, key) <==> e in s
  {
    assert forall e :: e in SortBy(s, key) <==> e in multiset(SortBy(s, key));
    assert forall e :: e in s <==> e in multiset(s);
  }

  /** What is left over after the first `n` of a sorted list has no key below theirs. */
  lemma FirstAreLeast<T(!new)>(s: seq<T>, key: T -> int, n: nat)
    requires InOrder(s, key) && n <= |s|
    ensures forall e, f :: e in s && e !in s[..n] && f in s[..n] ==> key(f) <= key(e)
  {
    forall e, f | e in s && e !in s[..n] && f in s[..n]
      ensures key(f) <= key(e)
    {
      var i :| 0 <= i < |s| && s[i] == e;
      var j :| 0 <= j < n && s[..n][j] == f;
      assert forall k :: 0 <= k < n ==> s[k] == s[..n][k] && s[k] in s[..n];
    }
  }

  ghost predicate NoRepeats<T>(s: seq<T>) { forall i, j :: 0 <= i < j < |s| ==> s[i] != s[j] }

  lemma {:induction false} CountedTwice<T>(s: seq<T>, i: nat, j: nat)
    requires i < j < |s| && s[i] == s[j]
    ensures multiset(s)[s[i]] >= 2
  {
    assert s == s[..j] + [s[j]] + s[j + 1..];
    assert s[i] in s[..j];
  }

  lemma {:induction false} CountedOnce<T>(s: seq<T>, e: T)
    requires NoRepeats(s)
    ensures multiset(s)[e] <= 1
  {
    if s == [] {
    } else {
      var last := |s| - 1;
      assert s == s[..last] + [s[last]];
      CountedOnce(s[..last], e);
      if s[last] == e {
        assert e !in s[..last];
      }
    }
  }

  lemma PermutationKeepsNoRepeats<T>(a: seq<T>, b: seq<T>)
    requires NoRepeats(a) && multiset(a) == multiset(b)
    ensures NoRepeats(b)
  {
    forall i, j | 0 <= i < j < |b|
      ensures b[i] != b[j]
    {
      CountedOnce(a, b[i]);
      if b[i] == b[j] {
        CountedTwice(b, i, j);
      }
    }
  }
}

/** Ordering by a numeric key, largest first, and keeping the first `k`:
    what an `order_by("-field")[:k]` does to a query. Among equal keys the
    database may return any order, so the contracts below promise only a
    non-increasing order and that nothing left out outranks what was kept. */
module Ranking {

  /** Keys never increase along `s`. */
  predicate NonIncreasing<T>(s: seq<T>, key: T -> int) {
    forall i, j :: 0 <= i < j < |s| ==> key(s[i]) >= key(s[j])
  }

  /** Places `x` into a sequence ordered largest key first, after every
      element whose key is at least `x`'s. */
  function Insert<T>(x: T, s: seq<T>, key: T -> int): (r: seq<T>)
    ensures |r| == |s| + 1
    ensures r[0] == x || (s != [] && r[0] == s[0])
  {
    if s == [] then [x]
    else if key(s[0]) >= key(x) then [s[0]] + Insert(x, s[1..], key)
    else [x] + s
  }

  /** Inserting adds exactly `x`. */
  lemma {:induction false} InsertAdds<T>(x: T, s: seq<T>, key: T -> int)
    ensures multiset(Insert(x, s, key)) == multiset(s) + multiset{x}
  {
    if s != [] && key(s[0]) >= key(x) {
      InsertAdds(x, s[1..], key);
      assert s == [s[0]] + s[1..];
    }
  }

  /** Inserting into an ordered sequence keeps it ordered. */
  lemma {:induction false} InsertOrdered<T>(x: T, s: seq<T>, key: T -> int)
    requires NonIncreasing(s, key)
    ensures NonIncreasing(Insert(x, s, key), key)
  {
    if s != [] && key(s[0]) >= key(x) {
      var tail := s[1..];
      assert NonIncreasing(tail, key) by {
        forall i, j | 0 <= i < j < |tail| ensures key(tail[i]) >= key(tail[j]) {
          assert tail[i] == s[i + 1] && tail[j] == s[j + 1];
        }
      }
      InsertOrdered(x, tail, key);
      var rest := Insert(x, tail, key);
      assert key(s[0]) >= key(rest[0]) by {
        if rest[0] != x { assert key(s[0]) >= key(s[1]); }
      }
      var r := [s[0]] + rest;
      forall i, j | 0 <= i < j < |r| ensures key(r[i]) >= key(r[j]) {
        if i == 0 {
          if j > 1 { assert key(rest[0]) >= key(rest[j - 1]); }
        } else {
          assert r[i] == rest[i - 1] && r[j] == rest[j - 1];
        }
      }
    } else if s != [] {
      var r := [x] + s;
      forall i, j | 0 <= i < j < |r| ensures key(r[i]) >= key(r[j]) {
        if i == 0 {
          assert key(s[0]) >= key(s[j - 1]) || j == 1;
        } else {
          assert r[i] == s[i - 1] && r[j] == s[j - 1];
        }
      }
    }
  }

  /** `s` ordered largest key first (an insertion sort). */
  function SortDesc<T>(s: seq<T>, key: T -> int): (r: seq<T>)
    ensures NonIncreasing(r, key)
    ensures multiset(r) == multiset(s)
    ensures |r| == |s|
  {
    if s == [] then []
    else
      var init := s[..|s| - 1];
      assert s == init + [s[|s| - 1]];
      var sortedInit := SortDesc(init, key);
      InsertOrdered(s[|s| - 1], sortedInit, key);
      InsertAdds(s[|s| - 1], sortedInit, key);
      Insert(s[|s| - 1], sortedInit, key)
  }

  /** The `k` elements of `s` with the largest keys, largest first. */
  function Top<T>(s: seq<T>, key: T -> int, k: nat): (r: seq<T>)
    ensures |r| == if |s| <= k then |s| else k
    ensures NonIncreasing(r, key)
    ensures multiset(r) <= multiset(s)
    ensures |s| <= k ==> multiset(r) == multiset(s)
  {
    var sorted := SortDesc(s, key);
    var n := if |s| <= k then |s| else k;
    assert sorted == sorted[..n] + sorted[n..];
    assert multiset(sorted) == multiset(sorted[..n]) + multiset(sorted[n..]);
    sorted[..n]
  }

  /** Every element of `s` is either kept by `Top` or has a key no larger
      than any kept element: no element left out outranks one kept. */
  lemma TopIsTop<T>(s: seq<T>, key: T -> int, k: nat, x: T)
    requires x in s
    ensures var r := Top(s, key, k);
      x in r || forall i :: 0 <= i < |r| ==> key(r[i]) >= key(x)
  {
    var sorted := SortDesc(s, key);
    assert x in multiset(s);
    assert x in multiset(sorted);
    var j :| 0 <= j < |sorted| && sorted[j] == x;
    var n := if |s| <= k then |s| else k;
    assert Top(s, key, k) == sorted[..n];
    if j < n {
      assert sorted[..n][j] == x;
    }
  }

  /** An element is in `Top(s, key, k)` only if it is in `s`. */
  lemma TopMember<T>(s: seq<T>, key: T -> int, k: nat, y: T)
    requires y in Top(s, key, k)
    ensures y in s
  {
    var r := Top(s, key, k);
    assert y in multiset(r);
    assert y in multiset(s);
  }
}

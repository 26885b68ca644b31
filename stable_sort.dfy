/**
 * LINQ's `OrderBy(keySelector)`: a stable sort by an integer key. Elements
 * with equal keys keep their input order. `OrderByDescending(k)` is the same
 * sort by the negated key.
 */
module StableSort {

  /** Keys are non-decreasing along `s`. */
  predicate SortedBy<T>(s: seq<T>, key: T -> int) {
    forall i, j :: 0 <= i < j < |s| ==> key(s[i]) <= key(s[j])
  }

  /** The elements of `s` whose key is `k`, in their order in `s`. */
  function WithKey<T>(s: seq<T>, key: T -> int, k: int): seq<T>
    decreases |s|
  {
    if |s| == 0 then []
    else if key(s[0]) == k then [s[0]] + WithKey(s[1..], key, k)
    else WithKey(s[1..], key, k)
  }

  /** `x` placed before the first element of `s` whose key is not smaller. */
  function Insert<T>(x: T, s: seq<T>, key: T -> int): seq<T>
    decreases |s|
  {
    if |s| == 0 || key(x) <= key(s[0]) then [x] + s
    else [s[0]] + Insert(x, s[1..], key)
  }

  /** The stable sort. */
  function SortBy<T>(s: seq<T>, key: T -> int): (r: seq<T>)
    ensures |r| == |s| && multiset(r) == multiset(s)
    ensures SortedBy(r, key)
    ensures forall k :: WithKey(r, key, k) == WithKey(s, key, k)
    decreases |s|
  {
    if |s| == 0 then []
    else
      var rest := SortBy(s[1..], key);
      InsertFacts(s[0], rest, key);
      assert s == [s[0]] + s[1..];
      Insert(s[0], rest, key)
  }

  /** What `SortBy` needs of one insertion. */
  lemma InsertFacts<T>(x: T, s: seq<T>, key: T -> int)
    requires SortedBy(s, key)
    ensures |Insert(x, s, key)| == |s| + 1
    ensures multiset(Insert(x, s, key)) == multiset([x]) + multiset(s)
    ensures SortedBy(Insert(x, s, key), key)
    ensures forall k :: WithKey(Insert(x, s, key), key, k) == WithKey([x] + s, key, k)
  {
    InsertPermutes(x, s, key);
    InsertSorted(x, s, key);
    forall k ensures WithKey(Insert(x, s, key), key, k) == WithKey([x] + s, key, k) {
      InsertStable(x, s, key, k);
    }
  }

  lemma {:induction false} InsertPermutes<T>(x: T, s: seq<T>, key: T -> int)
    ensures |Insert(x, s, key)| == |s| + 1
    ensures multiset(Insert(x, s, key)) == multiset([x]) + multiset(s)
    decreases |s|
  {
    if |s| > 0 && key(x) > key(s[0]) {
      InsertPermutes(x, s[1..], key);
      assert s == [s[0]] + s[1..];
    }
  }

  /** The keys of a sorted sequence are bounded below by its head's. */
  lemma HeadIsLeast<T>(s: seq<T>, key: T -> int, y: T)
    requires SortedBy(s, key) && |s| > 0 && y in multiset(s)
    ensures key(s[0]) <= key(y)
  {
    var n :| 0 <= n < |s| && s[n] == y;
    assert n == 0 || key(s[0]) <= key(s[n]);
  }

  lemma {:induction false} InsertSorted<T>(x: T, s: seq<T>, key: T -> int)
    requires SortedBy(s, key)
    ensures SortedBy(Insert(x, s, key), key)
    decreases |s|
  {
    var r := Insert(x, s, key);
    if |s| == 0 || key(x) <= key(s[0]) {
      ConsSorted(x, s, key);
    } else {
      var t := s[1..];
      assert SortedBy(t, key) by {
        forall i, j | 0 <= i < j < |t| ensures key(t[i]) <= key(t[j]) {
          assert t[i] == s[i + 1] && t[j] == s[j + 1];
        }
      }
      InsertSorted(x, t, key);
      InsertPermutes(x, t, key);
      var u := Insert(x, t, key);
      assert s == [s[0]] + t;
      forall j | 0 <= j < |u| ensures key(s[0]) <= key(u[j]) {
        assert u[j] in multiset(u);
        if u[j] != x {
          assert u[j] in multiset(s);
          HeadIsLeast(s, key, u[j]);
        }
      }
      forall i, j | 0 <= i < j < |r| ensures key(r[i]) <= key(r[j]) {
        assert r[j] == u[j - 1];
        if i > 0 {
          assert r[i] == u[i - 1];
        }
      }
    }
  }

  /** A sorted sequence stays sorted behind an element keyed no higher than its head. */
  lemma ConsSorted<T>(x: T, s: seq<T>, key: T -> int)
    requires SortedBy(s, key) && (|s| == 0 || key(x) <= key(s[0]))
    ensures SortedBy([x] + s, key)
  {
    var r := [x] + s;
    forall i, j | 0 <= i < j < |r| ensures key(r[i]) <= key(r[j]) {
      if i > 0 {
        assert r[i] == s[i - 1] && r[j] == s[j - 1];
      } else {
        assert j - 1 == 0 || key(s[0]) <= key(s[j - 1]);
      }
    }
  }

  lemma {:induction false} InsertStable<T>(x: T, s: seq<T>, key: T -> int, k: int)
    requires SortedBy(s, key)
    ensures WithKey(Insert(x, s, key), key, k) == WithKey([x] + s, key, k)
    decreases |s|
  {
    assert ([x] + s)[1..] == s;
    if |s| > 0 && key(x) > key(s[0]) {
      var t := s[1..];
      assert SortedBy(t, key) by {
        forall i, j | 0 <= i < j < |t| ensures key(t[i]) <= key(t[j]) {
          assert t[i] == s[i + 1] && t[j] == s[j + 1];
        }
      }
      InsertStable(x, t, key, k);
      var r := Insert(x, s, key);
      assert r[1..] == Insert(x, t, key);
      assert ([x] + t)[1..] == t;
      if key(x) == k {
        assert key(s[0]) != k;
      }
    }
  }

  /** Every element keyed below `bound` comes before every element keyed `bound`
      or more. */
  lemma SortedSeparates<T>(r: seq<T>, key: T -> int, bound: int, i: nat, j: nat)
    requires SortedBy(r, key)
    requires i < |r| && j < |r| && key(r[i]) < bound && key(r[j]) >= bound
    ensures i < j
  {
  }
}

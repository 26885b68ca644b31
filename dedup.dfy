/**
 * The "add unless an element with the same path is already there" pattern of
 * `CustomBuildReport` (`!list.Any(a => a.path == path)`), and the byte sums
 * kept beside the lists.
 */
module Dedup {

  /** The keys of `s`, in order. */
  function Keys<T>(s: seq<T>, key: T -> string): (ks: seq<string>)
    ensures |ks| == |s| && forall i :: 0 <= i < |s| ==> ks[i] == key(s[i])
  {
    seq(|s|, i requires 0 <= i < |s| => key(s[i]))
  }

  /** `s` with every element dropped whose key an earlier element has. */
  function DedupBy<T>(s: seq<T>, key: T -> string): seq<T>
    decreases |s|
  {
    if |s| == 0 then []
    else
      var kept := DedupBy(s[..|s| - 1], key);
      if key(s[|s| - 1]) in Keys(kept, key) then kept else kept + [s[|s| - 1]]
  }

  lemma DedupSnoc<T>(s: seq<T>, x: T, key: T -> string)
    ensures DedupBy(s + [x], key) ==
      if key(x) in Keys(DedupBy(s, key), key) then DedupBy(s, key) else DedupBy(s, key) + [x]
  {
    assert (s + [x])[..|s|] == s;
  }

  predicate DistinctKeys<T>(s: seq<T>, key: T -> string) {
    forall i, j :: 0 <= i < j < |s| ==> key(s[i]) != key(s[j])
  }

  /** No two kept elements share a key. */
  lemma {:induction false} DedupDistinct<T>(s: seq<T>, key: T -> string)
    ensures DistinctKeys(DedupBy(s, key), key)
    decreases |s|
  {
    if |s| > 0 {
      DedupDistinct(s[..|s| - 1], key);
      var kept := DedupBy(s[..|s| - 1], key);
      var x := s[|s| - 1];
      if key(x) !in Keys(kept, key) {
        var r := kept + [x];
        forall i, j | 0 <= i < j < |r| ensures key(r[i]) != key(r[j]) {
          if j == |kept| {
            assert Keys(kept, key)[i] == key(r[i]);
          }
        }
      }
    }
  }

  /** A key is kept exactly when the input has it. */
  lemma {:induction false} DedupKeys<T>(s: seq<T>, key: T -> string, k: string)
    ensures k in Keys(DedupBy(s, key), key) <==> k in Keys(s, key)
    decreases |s|
  {
    if |s| > 0 {
      var p := s[..|s| - 1];
      DedupKeys(p, key, k);
      assert Keys(s, key) == Keys(p, key) + [key(s[|s| - 1])];
      var kept := DedupBy(p, key);
      if key(s[|s| - 1]) !in Keys(kept, key) {
        assert Keys(kept + [s[|s| - 1]], key) == Keys(kept, key) + [key(s[|s| - 1])];
      }
    }
  }

  /** Every kept element is the first element of the input with its key. */
  lemma {:induction false} DedupKeepsFirst<T>(s: seq<T>, key: T -> string, i: nat) returns (m: nat)
    requires i < |DedupBy(s, key)|
    ensures m < |s| && s[m] == DedupBy(s, key)[i]
    ensures forall j :: 0 <= j < m ==> key(s[j]) != key(s[m])
    decreases |s|
  {
    var p := s[..|s| - 1];
    var kept := DedupBy(p, key);
    var x := s[|s| - 1];
    if i < |kept| {
      m := DedupKeepsFirst(p, key, i);
      assert s[m] == p[m];
      assert forall j :: 0 <= j < m ==> s[j] == p[j];
    } else {
      assert key(x) !in Keys(kept, key);
      DedupKeys(p, key, key(x));
      m := |s| - 1;
      forall j | 0 <= j < m ensures key(s[j]) != key(s[m]) {
        assert Keys(p, key)[j] == key(s[j]);
      }
    }
  }

  /** Reordering keeps keys distinct. */
  lemma PermutationKeepsDistinct<T>(s: seq<T>, r: seq<T>, key: T -> string)
    requires DistinctKeys(s, key) && multiset(r) == multiset(s)
    ensures DistinctKeys(r, key)
  {
    forall i, j | 0 <= i < j < |r| ensures key(r[i]) != key(r[j]) {
      assert r[i] in multiset(s) && r[j] in multiset(s);
      if r[i] == r[j] {
        TwoCopies(r, i, j);
        var a, b := TwoPositions(s, r[i]);
      } else {
        OthersDiffer(s, r[i], r[j], key);
      }
    }
  }

  lemma OthersDiffer<T>(s: seq<T>, x: T, y: T, key: T -> string)
    requires DistinctKeys(s, key) && x in multiset(s) && y in multiset(s) && x != y
    ensures key(x) != key(y)
  {
    var a :| 0 <= a < |s| && s[a] == x;
    var b :| 0 <= b < |s| && s[b] == y;
    assert a != b;
  }

  lemma {:induction false} TwoCopies<T>(r: seq<T>, i: nat, j: nat)
    requires i < j < |r| && r[i] == r[j]
    ensures multiset(r)[r[i]] >= 2
    decreases |r|
  {
    var n := |r| - 1;
    assert r == r[..n] + [r[n]];
    if j < n {
      TwoCopies(r[..n], i, j);
    } else {
      assert r[i] in multiset(r[..n]) by { assert r[..n][i] == r[i]; }
    }
  }

  lemma {:induction false} TwoPositions<T>(s: seq<T>, x: T) returns (a: nat, b: nat)
    requires multiset(s)[x] >= 2
    ensures a < b < |s| && s[a] == x && s[b] == x
    decreases |s|
  {
    var n := |s| - 1;
    assert s == s[..n] + [s[n]];
    if s[n] == x && multiset(s[..n])[x] >= 1 {
      assert x in multiset(s[..n]);
      a :| 0 <= a < n && s[..n][a] == x;
      b := n;
    } else {
      a, b := TwoPositions(s[..n], x);
    }
  }

  /** The sum of `size` over `s`. */
  function SumBy<T>(s: seq<T>, size: T -> int): int
    decreases |s|
  {
    if |s| == 0 then 0 else SumBy(s[..|s| - 1], size) + size(s[|s| - 1])
  }

  lemma SumSnoc<T>(s: seq<T>, x: T, size: T -> int)
    ensures SumBy(s + [x], size) == SumBy(s, size) + size(x)
  {
    assert (s + [x])[..|s|] == s;
  }
}

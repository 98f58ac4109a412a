/**
 * Sort-then-truncate queries: `order_by('-field')[:n]`.
 * The database leaves the order among equal keys unspecified; this model
 * sorts stably, so equal keys keep their table order.
 */
module Ordering {
  import opened Common

  /** Keys never increase from left to right. */
  predicate SortedDesc<T>(s: seq<T>, key: T -> int)
  {
    forall i, j :: 0 <= i < j < |s| ==> key(s[i]) >= key(s[j])
  }

  /** Nothing in `s` left out of the selection `r` has a larger key than a selected element. */
  ghost predicate TopSelection<T>(s: seq<T>, r: seq<T>, key: T -> int)
  {
    forall t, u :: t in s && t !in r && u in r ==> key(t) <= key(u)
  }

  /** Every element of a rearrangement of `tail` plus `x` is bounded by `head`. */
  lemma BoundedBy<T>(head: T, tail: seq<T>, x: T, rest: seq<T>, key: T -> int)
    requires forall j :: 0 <= j < |tail| ==> key(tail[j]) <= key(head)
    requires key(x) <= key(head)
    requires multiset(rest) == multiset(tail) + multiset{x}
    ensures forall j :: 0 <= j < |rest| ==> key(rest[j]) <= key(head)
  {
    forall j | 0 <= j < |rest| ensures key(rest[j]) <= key(head) {
      var y := rest[j];
      assert y in multiset(rest);
      if y != x {
        assert y in multiset(tail);
        var k :| 0 <= k < |tail| && tail[k] == y;
      }
    }
  }

  /** Inserts `x` into a descending sequence, before the first element whose key is not larger. */
  function InsertDesc<T>(x: T, s: seq<T>, key: T -> int): (r: seq<T>)
    requires SortedDesc(s, key)
    ensures |r| == |s| + 1
    ensures multiset(r) == multiset(s) + multiset{x}
    ensures SortedDesc(r, key)
  {
    if s == [] || key(s[0]) <= key(x) then
      [x] + s
    else
      var rest := InsertDesc(x, s[1..], key);
      assert s == [s[0]] + s[1..];
      BoundedBy(s[0], s[1..], x, rest, key);
      [s[0]] + rest
  }

  /** `order_by('-key')`: a permutation of `s` with non-increasing keys. */
  function SortDesc<T>(s: seq<T>, key: T -> int): (r: seq<T>)
    ensures |r| == |s|
    ensures multiset(r) == multiset(s)
    ensures SortedDesc(r, key)
  {
    if s == [] then []
    else
      assert s == [s[0]] + s[1..];
      InsertDesc(s[0], SortDesc(s[1..], key), key)
  }

  /** Splitting a sequence splits its multiset. */
  lemma MultisetSplit<T>(s: seq<T>, k: nat)
    requires k <= |s|
    ensures multiset(s[..k]) + multiset(s[k..]) == multiset(s)
  {
    assert s == s[..k] + s[k..];
  }

  /** A prefix of a descending sequence is a top selection of it. */
  lemma PrefixIsTopSelection<T>(sorted: seq<T>, k: nat, key: T -> int)
    requires k <= |sorted|
    requires SortedDesc(sorted, key)
    ensures TopSelection(sorted, sorted[..k], key)
  {
    forall t, u | t in sorted && t !in sorted[..k] && u in sorted[..k] ensures key(t) <= key(u) {
      var a :| 0 <= a < |sorted| && sorted[a] == t;
      var b :| 0 <= b < k && sorted[..k][b] == u;
    }
  }

  /**
   * `order_by('-key')[:n]` selects a top-n: at most n elements drawn from
   * `s`, in non-increasing key order, and nothing left out outranks
   * anything selected.
   */
  lemma TopN<T>(s: seq<T>, key: T -> int, n: nat)
    ensures var r := Take(SortDesc(s, key), n);
      && |r| == Min(n, |s|)
      && SortedDesc(r, key)
      && multiset(r) <= multiset(s)
      && TopSelection(s, r, key)
  {
    var sorted := SortDesc(s, key);
    var k := Min(n, |s|);
    var r := Take(sorted, n);
    assert r == sorted[..k];
    MultisetSplit(sorted, k);
    assert TopSelection(s, r, key) by {
      PrefixIsTopSelection(sorted, k, key);
      forall t | t in s ensures t in sorted {
        assert t in multiset(s);
      }
    }
  }
}

/** The top-k selection of `heapq.nlargest(k, items, key)`, which Python documents as
    equivalent to `sorted(items, key=key, reverse=True)[:k]`. Python's sort is stable also
    when reversed, so items with equal keys keep their input order. Items are named here
    by their positions in the key list. */
module Ranking {

  /** Position i comes before position j in the stable descending order: a strictly
      larger key, or an equal key and an earlier position. */
  predicate Before(keys: seq<int>, i: nat, j: nat)
    requires i < |keys| && j < |keys|
  {
    keys[i] > keys[j] || (keys[i] == keys[j] && i < j)
  }

  predicate ValidPositions(keys: seq<int>, r: seq<nat>) {
    forall t :: 0 <= t < |r| ==> r[t] < |keys|
  }

  /** `r` lists positions of `keys` in the stable descending order, each at most once. */
  predicate Ranked(keys: seq<int>, r: seq<nat>) {
    && ValidPositions(keys, r)
    && forall p, q :: 0 <= p < q < |r| ==> Before(keys, r[p], r[q])
  }

  /** Every position of `keys` that `r` leaves out comes after every position in `r`. */
  predicate TopClosed(keys: seq<int>, r: seq<nat>)
    requires ValidPositions(keys, r)
  {
    forall t, j :: 0 <= t < |r| && 0 <= j < |keys| && j !in r ==> Before(keys, r[t], j)
  }

  /** Inserts position i into a ranked list just before the first entry it comes before. */
  function Insert(keys: seq<int>, r: seq<nat>, i: nat): (s: seq<nat>)
    requires i < |keys| && ValidPositions(keys, r)
    ensures multiset(s) == multiset(r) + multiset{i}
    ensures |s| == |r| + 1
    ensures forall x :: x in s <==> x in r || x == i
    ensures ValidPositions(keys, s)
  {
    if r == [] then [i]
    else if Before(keys, i, r[0]) then [i] + r
    else
      assert r == [r[0]] + r[1..];
      [r[0]] + Insert(keys, r[1..], i)
  }

  lemma {:induction false} InsertRanked(keys: seq<int>, r: seq<nat>, i: nat)
    requires i < |keys| && Ranked(keys, r) && i !in r
    ensures Ranked(keys, Insert(keys, r, i))
  {
    if r == [] {
    } else if Before(keys, i, r[0]) {
      forall q | 0 <= q < |r| ensures Before(keys, i, r[q]) {
        if q > 0 { assert Before(keys, r[0], r[q]); }
      }
      RankedCons(keys, i, r);
    } else {
      var rest := r[1..];
      assert r == [r[0]] + rest;
      InsertRanked(keys, rest, i);
      var tail := Insert(keys, rest, i);
      forall q | 0 <= q < |tail| ensures Before(keys, r[0], tail[q]) {
        var x := tail[q];
        assert x in tail;
        if x != i {
          var p :| 0 <= p < |rest| && rest[p] == x;
          assert r[p + 1] == x;
        }
      }
      RankedCons(keys, r[0], tail);
    }
  }

  /** A position that comes before every entry of a ranked list can head it. */
  lemma RankedCons(keys: seq<int>, x: nat, r: seq<nat>)
    requires x < |keys| && Ranked(keys, r)
    requires forall q :: 0 <= q < |r| ==> Before(keys, x, r[q])
    ensures Ranked(keys, [x] + r)
  {
    var s := [x] + r;
    forall p, q | 0 <= p < q < |s| ensures Before(keys, s[p], s[q]) {
      if p > 0 { assert s[p] == r[p - 1] && s[q] == r[q - 1]; }
    }
  }

  /** The positions 0 .. n-1 of `keys`, stably sorted by descending key. */
  function SortDesc(keys: seq<int>, n: nat): (s: seq<nat>)
    requires n <= |keys|
    ensures ValidPositions(keys, s)
    ensures |s| == n
  {
    if n == 0 then [] else Insert(keys, SortDesc(keys, n - 1), n - 1)
  }

  lemma {:induction false} SortDescRanked(keys: seq<int>, n: nat)
    requires n <= |keys|
    ensures Ranked(keys, SortDesc(keys, n))
  {
    if n > 0 {
      SortDescRanked(keys, n - 1);
      SortDescMembers(keys, n - 1);
      InsertRanked(keys, SortDesc(keys, n - 1), n - 1);
    }
  }

  lemma {:induction false} SortDescMembers(keys: seq<int>, n: nat)
    requires n <= |keys|
    ensures forall j: nat :: j in SortDesc(keys, n) <==> j < n
  {
    if n > 0 {
      SortDescMembers(keys, n - 1);
    }
  }

  function Min(a: nat, b: nat): nat {
    if a < b then a else b
  }

  /** `heapq.nlargest(k, ...)` on positions: the first k of the stable descending order.
      It returns min(k, n) distinct positions in descending key order, ties in input
      order, and every position left out comes after every position returned; when k
      covers the input, every position is returned. */
  function NLargest(k: nat, keys: seq<int>): (r: seq<nat>)
    ensures |r| == Min(k, |keys|)
    ensures Ranked(keys, r)
    ensures TopClosed(keys, r)
    ensures k >= |keys| ==> forall j :: 0 <= j < |keys| ==> j in r
  {
    var s := SortDesc(keys, |keys|);
    SortDescRanked(keys, |keys|);
    SortDescMembers(keys, |keys|);
    var r := s[..Min(k, |keys|)];
    assert forall j :: 0 <= j < |keys| && j !in r ==> j in s[|r|..] by {
      forall j | 0 <= j < |keys| && j !in r ensures j in s[|r|..] {
        assert j in s;
        var q :| 0 <= q < |s| && s[q] == j;
        assert q >= |r|;
        assert s[|r|..][q - |r|] == j;
      }
    }
    assert forall t, j :: 0 <= t < |r| && 0 <= j < |keys| && j !in r ==> Before(keys, r[t], j) by {
      forall t, j | 0 <= t < |r| && 0 <= j < |keys| && j !in r ensures Before(keys, r[t], j) {
        var q :| 0 <= q < |s| - |r| && s[|r|..][q] == j;
        assert s[t] == r[t] && s[|r| + q] == j;
      }
    }
    r
  }

  /** In a ranked list no entry occurs before its own position. */
  lemma RankedFresh(keys: seq<int>, a: seq<nat>, t: nat)
    requires Ranked(keys, a) && t < |a|
    ensures a[t] !in a[..t]
  {
    forall p | 0 <= p < t ensures a[..t][p] != a[t] {
      assert Before(keys, a[p], a[t]);
    }
  }

  /** In a ranked, top-closed list, entry t comes before every position not among
      the first t + 1 entries. */
  lemma RankedBeforeRest(keys: seq<int>, a: seq<nat>, t: nat, y: nat)
    requires Ranked(keys, a) && TopClosed(keys, a) && t < |a| && y < |keys|
    requires y !in a[..t] && y != a[t]
    ensures Before(keys, a[t], y)
  {
    if y in a {
      var p :| 0 <= p < |a| && a[p] == y;
      assert p >= t by {
        forall q | 0 <= q < t ensures a[q] != y { assert a[..t][q] == a[q]; }
      }
    }
  }

  /** Two ranked, top-closed lists of the same length agree position by position. */
  lemma {:induction false} TopListsAgree(keys: seq<int>, a: seq<nat>, b: seq<nat>, t: nat)
    requires Ranked(keys, a) && TopClosed(keys, a)
    requires Ranked(keys, b) && TopClosed(keys, b)
    requires |a| == |b| && t <= |a|
    ensures a[..t] == b[..t]
  {
    if t > 0 {
      TopListsAgree(keys, a, b, t - 1);
      var x, y := a[t - 1], b[t - 1];
      RankedFresh(keys, a, t - 1);
      RankedFresh(keys, b, t - 1);
      assert x != y ==> Before(keys, x, y) by {
        if x != y { RankedBeforeRest(keys, a, t - 1, y); }
      }
      assert x != y ==> Before(keys, y, x) by {
        if x != y { RankedBeforeRest(keys, b, t - 1, x); }
      }
      assert a[..t] == a[..t - 1] + [x] && b[..t] == b[..t - 1] + [y];
    }
  }

  /** `NLargest` is the only answer `sorted(..., reverse=True)[:k]` could give: any list of
      min(k, n) positions in stable descending order that leaves out only positions coming
      after it is `NLargest(k, keys)`. */
  lemma NLargestUnique(k: nat, keys: seq<int>, r: seq<nat>)
    requires Ranked(keys, r) && TopClosed(keys, r) && |r| == Min(k, |keys|)
    ensures r == NLargest(k, keys)
  {
    var s := NLargest(k, keys);
    TopListsAgree(keys, r, s, |r|);
    assert r == r[..|r|] && s == s[..|s|];
  }
}

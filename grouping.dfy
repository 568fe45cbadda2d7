/** The aggregation steps the reports share: `groupby(key).sum()` (one
    entry per distinct key, keys in ascending text order, each carrying the
    sum of its rows), and `sort_values(ascending=False)`. */
module Grouping {
  import opened Basics
  import opened Text

  /** One row of a grouped frame: a key and the summed amount of its rows. */
  datatype Group = Group(key: string, total: int)

  function Keys(g: seq<Group>): set<string>
  {
    set i | 0 <= i < |g| :: g[i].key
  }

  predicate KeysAscending(g: seq<Group>)
  {
    forall i, j :: 0 <= i < j < |g| ==> StrLess(g[i].key, g[j].key)
  }

  predicate DistinctKeys(g: seq<Group>)
  {
    forall i, j :: 0 <= i < j < |g| ==> g[i].key != g[j].key
  }

  /** The summed amount of the (key, amount) pairs whose key is `k`. */
  function SumFor(pairs: seq<Group>, k: string): int
  {
    if pairs == [] then 0
    else SumFor(pairs[..|pairs| - 1], k) + (if pairs[|pairs| - 1].key == k then pairs[|pairs| - 1].total else 0)
  }

  /** The sum of all amounts. */
  function SumTotals(g: seq<Group>): int
  {
    if g == [] then 0 else SumTotals(g[..|g| - 1]) + g[|g| - 1].total
  }

  lemma {:induction false} SumTotalsConcat(a: seq<Group>, b: seq<Group>)
    ensures SumTotals(a + b) == SumTotals(a) + SumTotals(b)
    decreases |b|
  {
    if b == [] {
      assert a + b == a;
    } else {
      assert (a + b)[..|a + b| - 1] == a + b[..|b| - 1];
      assert (a + b)[|a + b| - 1] == b[|b| - 1];
      SumTotalsConcat(a, b[..|b| - 1]);
    }
  }

  lemma SumTotalsCons(x: Group, g: seq<Group>)
    ensures SumTotals([x] + g) == x.total + SumTotals(g)
  {
    SumTotalsConcat([x], g);
    assert [x][..0] == [];
  }

  /** The amount recorded for key `k` (0 when there is none). */
  function Lookup(g: seq<Group>, k: string): int
  {
    if g == [] then 0 else if g[0].key == k then g[0].total else Lookup(g[1..], k)
  }

  lemma AscendingIsDistinct(g: seq<Group>)
    requires KeysAscending(g)
    ensures DistinctKeys(g)
  {
    forall i, j | 0 <= i < j < |g| ensures g[i].key != g[j].key {
      StrLessIrreflexive(g[i].key);
    }
  }

  lemma {:induction false} LookupAbsent(g: seq<Group>, k: string)
    requires k !in Keys(g)
    ensures Lookup(g, k) == 0
  {
    if g != [] {
      assert g[0].key in Keys(g);
      assert Keys(g[1..]) <= Keys(g) by {
        forall x | x in Keys(g[1..]) ensures x in Keys(g) {
          var i :| 0 <= i < |g[1..]| && g[1..][i].key == x;
          assert g[i + 1].key == x;
        }
      }
      LookupAbsent(g[1..], k);
    }
  }

  /** With distinct keys, each entry is what Lookup finds for its key. */
  lemma {:induction false} LookupAt(g: seq<Group>, i: nat)
    requires DistinctKeys(g) && i < |g|
    ensures Lookup(g, g[i].key) == g[i].total
  {
    if i > 0 {
      assert g[1..][i - 1] == g[i];
      LookupAt(g[1..], i - 1);
    }
  }

  lemma KeysCons(x: Group, g: seq<Group>)
    ensures Keys([x] + g) == {x.key} + Keys(g)
  {
    var s := [x] + g;
    forall k | k in Keys(s) ensures k in {x.key} + Keys(g) {
      var i :| 0 <= i < |s| && s[i].key == k;
      if i > 0 { assert s[i] == g[i - 1]; }
    }
    assert s[0].key == x.key;
    forall k | k in Keys(g) ensures k in Keys(s) {
      var i :| 0 <= i < |g| && g[i].key == k;
      assert s[i + 1] == g[i];
    }
  }

  lemma AscendingCons(x: Group, g: seq<Group>)
    requires KeysAscending(g)
    requires forall k :: k in Keys(g) ==> StrLess(x.key, k)
    ensures KeysAscending([x] + g)
  {
    var s := [x] + g;
    forall i, j | 0 <= i < j < |s| ensures StrLess(s[i].key, s[j].key) {
      assert s[j] == g[j - 1];
      assert g[j - 1].key in Keys(g);
      if i > 0 { assert s[i] == g[i - 1]; }
    }
  }

  /** A frame with ascending keys: its first key precedes all the others. */
  lemma AscendingTail(g: seq<Group>)
    requires KeysAscending(g) && g != []
    ensures g == [g[0]] + g[1..]
    ensures KeysAscending(g[1..])
    ensures forall x :: x in Keys(g[1..]) ==> StrLess(g[0].key, x)
  {
    assert g == [g[0]] + g[1..];
    forall x | x in Keys(g[1..]) ensures StrLess(g[0].key, x) {
      var j :| 0 <= j < |g[1..]| && g[1..][j].key == x;
      assert g[j + 1] == g[1..][j];
    }
  }

  /** Adds the amount `a` to key `k` of a grouped frame, keeping the keys in
      ascending order: a new key is placed before the first larger one. */
  function {:induction false} Insert(g: seq<Group>, k: string, a: int): (r: seq<Group>)
    requires KeysAscending(g)
    ensures KeysAscending(r)
    ensures Keys(r) == Keys(g) + {k}
  {
    if g == [] then
      KeysCons(Group(k, a), []);
      [Group(k, a)]
    else
      var head, tail := g[0], g[1..];
      AscendingTail(g);
      KeysCons(head, tail);
      if head.key == k then
        KeysCons(Group(k, head.total + a), tail);
        AscendingCons(Group(k, head.total + a), tail);
        [Group(k, head.total + a)] + tail
      else if StrLess(k, head.key) then
        KeysCons(Group(k, a), g);
        assert forall x :: x in Keys(g) ==> StrLess(k, x) by {
          forall x | x in Keys(g) ensures StrLess(k, x) {
            if x != head.key { StrLessTransitive(k, head.key, x); }
          }
        }
        AscendingCons(Group(k, a), g);
        [Group(k, a)] + g
      else
        StrLessTotal(k, head.key);
        var rest := Insert(tail, k, a);
        KeysCons(head, rest);
        AscendingCons(head, rest);
        [head] + rest
  }

  /** Insert adds `a` to the amount of `k` and leaves every other key's
      amount alone. */
  lemma {:induction false} InsertLookup(g: seq<Group>, k: string, a: int)
    requires KeysAscending(g)
    ensures forall x {:trigger Lookup(Insert(g, k, a), x)} ::
      Lookup(Insert(g, k, a), x) == Lookup(g, x) + (if x == k then a else 0)
  {
    var r := Insert(g, k, a);
    if g != [] {
      var head, tail := g[0], g[1..];
      AscendingTail(g);
      if head.key == k {
        assert r[1..] == tail;
      } else if StrLess(k, head.key) {
        assert r[1..] == g;
        assert k !in Keys(g) by {
          forall i | 0 <= i < |g| ensures g[i].key != k {
            if i > 0 {
              assert g[1..][i - 1] == g[i];
              assert g[i].key in Keys(tail);
              StrLessTransitive(k, head.key, g[i].key);
            }
            StrLessIrreflexive(k);
          }
        }
        LookupAbsent(g, k);
      } else {
        InsertLookup(tail, k, a);
        assert r[1..] == Insert(tail, k, a);
      }
    }
  }

  /** Insert adds `a` to the grand total. */
  lemma {:induction false} InsertTotal(g: seq<Group>, k: string, a: int)
    requires KeysAscending(g)
    ensures SumTotals(Insert(g, k, a)) == SumTotals(g) + a
  {
    if g == [] {
      SumTotalsCons(Group(k, a), []);
    } else {
      var head, tail := g[0], g[1..];
      AscendingTail(g);
      SumTotalsCons(head, tail);
      if head.key == k {
        SumTotalsCons(Group(k, head.total + a), tail);
      } else if StrLess(k, head.key) {
        SumTotalsCons(Group(k, a), g);
      } else {
        InsertTotal(tail, k, a);
        SumTotalsCons(head, Insert(tail, k, a));
      }
    }
  }

  lemma KeysSnoc(init: seq<Group>, last: Group)
    ensures Keys(init + [last]) == Keys(init) + {last.key}
  {
    var s := init + [last];
    forall x | x in Keys(s) ensures x in Keys(init) + {last.key} {
      var i :| 0 <= i < |s| && s[i].key == x;
      if i < |init| { assert init[i] == s[i]; }
    }
    forall x | x in Keys(init) ensures x in Keys(s) {
      var i :| 0 <= i < |init| && init[i].key == x;
      assert s[i] == init[i];
    }
    assert s[|init|] == last;
  }

  /** `groupby(key).sum()`: one entry per distinct key of `pairs`, keys in
      ascending order, each holding the sum of the amounts with that key. */
  function {:induction false} GroupSum(pairs: seq<Group>): (g: seq<Group>)
    ensures KeysAscending(g)
    ensures Keys(g) == Keys(pairs)
    ensures forall k {:trigger Lookup(g, k)} :: Lookup(g, k) == SumFor(pairs, k)
    ensures SumTotals(g) == SumTotals(pairs)
  {
    if pairs == [] then []
    else
      var init, last := pairs[..|pairs| - 1], pairs[|pairs| - 1];
      assert pairs == init + [last];
      KeysSnoc(init, last);
      var prior := GroupSum(init);
      InsertLookup(prior, last.key, last.total);
      InsertTotal(prior, last.key, last.total);
      Insert(prior, last.key, last.total)
  }

  /** Every entry of a grouped frame carries the sum of its key's amounts. */
  lemma GroupSumEntries(pairs: seq<Group>)
    ensures DistinctKeys(GroupSum(pairs))
    ensures forall i :: 0 <= i < |GroupSum(pairs)| ==> GroupSum(pairs)[i].total == SumFor(pairs, GroupSum(pairs)[i].key)
  {
    var g := GroupSum(pairs);
    AscendingIsDistinct(g);
    forall i | 0 <= i < |g| ensures g[i].total == SumFor(pairs, g[i].key) {
      LookupAt(g, i);
    }
  }

  /** With distinct keys there are as many entries as keys. */
  lemma {:induction false} DistinctKeysCount(g: seq<Group>)
    requires DistinctKeys(g)
    ensures |Keys(g)| == |g|
  {
    if g != [] {
      var tail := g[1..];
      assert g == [g[0]] + tail;
      KeysCons(g[0], tail);
      assert DistinctKeys(tail) by {
        forall i, j | 0 <= i < j < |tail| ensures tail[i].key != tail[j].key {
          assert tail[i] == g[i + 1] && tail[j] == g[j + 1];
        }
      }
      assert g[0].key !in Keys(tail) by {
        forall i | 0 <= i < |tail| ensures tail[i].key != g[0].key {
          assert tail[i] == g[i + 1];
        }
      }
      DistinctKeysCount(tail);
    }
  }

  // ---------------------------------------------------------------------
  // sort_values(ascending=False)

  predicate NonIncreasing<T>(s: seq<T>, w: T -> int)
  {
    forall i, j :: 0 <= i < j < |s| ==> w(s[i]) >= w(s[j])
  }

  /** Where `x` goes in a list sorted by non-increasing weight: after every
      heavier element, before the first one that is not heavier. */
  function InsertPosition<T>(x: T, s: seq<T>, w: T -> int): (p: nat)
    ensures p <= |s|
    ensures forall i :: 0 <= i < p ==> w(s[i]) > w(x)
    ensures p < |s| ==> w(s[p]) <= w(x)
  {
    if s == [] || w(s[0]) <= w(x) then 0 else 1 + InsertPosition(x, s[1..], w)
  }

  /** Placing `x` at its insert position keeps a sorted list sorted. */
  lemma SpliceSorted<T>(rest: seq<T>, x: T, w: T -> int, p: nat)
    requires NonIncreasing(rest, w) && p <= |rest|
    requires forall i :: 0 <= i < p ==> w(rest[i]) > w(x)
    requires p < |rest| ==> w(rest[p]) <= w(x)
    ensures NonIncreasing(rest[..p] + [x] + rest[p..], w)
  {
    var r := rest[..p] + [x] + rest[p..];
    forall i, j | 0 <= i < j < |r| ensures w(r[i]) >= w(r[j]) {
      if j < p {
        assert r[i] == rest[i] && r[j] == rest[j];
      } else if j == p {
        assert r[i] == rest[i] && r[j] == x;
      } else if i < p {
        assert r[i] == rest[i] && r[j] == rest[j - 1];
        assert w(rest[j - 1]) <= w(rest[p]);
      } else if i == p {
        assert r[i] == x && r[j] == rest[j - 1];
        assert w(rest[j - 1]) <= w(rest[p]);
      } else {
        assert r[i] == rest[i - 1] && r[j] == rest[j - 1];
      }
    }
  }

  /** Placing `x` anywhere in a list adds it to the list's elements. */
  lemma SpliceMultiset<T>(rest: seq<T>, x: T, p: nat)
    requires p <= |rest|
    ensures multiset(rest[..p] + [x] + rest[p..]) == multiset(rest) + multiset{x}
  {
    assert rest == rest[..p] + rest[p..];
  }

  /** The elements of `s` ordered by non-increasing weight `w`; elements of
      equal weight keep their order. */
  function {:induction false} SortDescending<T>(s: seq<T>, w: T -> int): (r: seq<T>)
    ensures |r| == |s|
    ensures multiset(r) == multiset(s)
    ensures NonIncreasing(r, w)
  {
    if s == [] then []
    else
      var x, rest := s[0], SortDescending(s[1..], w);
      var p := InsertPosition(x, rest, w);
      assert s == [x] + s[1..];
      SpliceMultiset(rest, x, p);
      SpliceSorted(rest, x, w, p);
      rest[..p] + [x] + rest[p..]
  }

  /** Two lists holding the same elements hold the same keys. */
  lemma PermutationKeys(a: seq<Group>, b: seq<Group>)
    requires multiset(a) == multiset(b)
    ensures Keys(a) == Keys(b)
  {
    forall k | k in Keys(a) ensures k in Keys(b) {
      var i :| 0 <= i < |a| && a[i].key == k;
      assert a[i] in multiset(b);
    }
    forall k | k in Keys(b) ensures k in Keys(a) {
      var j :| 0 <= j < |b| && b[j].key == k;
      assert b[j] in multiset(a);
    }
  }

  /** Sorting keeps the set of keys. */
  lemma SortKeys(g: seq<Group>, w: Group -> int)
    ensures Keys(SortDescending(g, w)) == Keys(g)
  {
    PermutationKeys(SortDescending(g, w), g);
  }

  lemma SpliceDistinct(rest: seq<Group>, x: Group, p: nat)
    requires DistinctKeys(rest) && x.key !in Keys(rest) && p <= |rest|
    ensures DistinctKeys(rest[..p] + [x] + rest[p..])
  {
    var r := rest[..p] + [x] + rest[p..];
    forall i, j | 0 <= i < j < |r| ensures r[i].key != r[j].key {
      if i != p && j != p {
        var i', j' := if i < p then i else i - 1, if j < p then j else j - 1;
        assert r[i] == rest[i'] && r[j] == rest[j'];
      } else if i == p {
        assert r[j] == rest[j - 1];
      } else {
        assert r[i] == rest[i];
      }
    }
  }

  /** Sorting a frame with distinct keys leaves the keys distinct. */
  lemma {:induction false} SortDistinct(g: seq<Group>, w: Group -> int)
    requires DistinctKeys(g)
    ensures DistinctKeys(SortDescending(g, w))
  {
    if g != [] {
      var x, tail := g[0], g[1..];
      assert DistinctKeys(tail) by {
        forall i, j | 0 <= i < j < |tail| ensures tail[i].key != tail[j].key {
          assert tail[i] == g[i + 1] && tail[j] == g[j + 1];
        }
      }
      assert x.key !in Keys(tail) by {
        forall i | 0 <= i < |tail| ensures tail[i].key != x.key {
          assert tail[i] == g[i + 1];
        }
      }
      SortDistinct(tail, w);
      SortKeys(tail, w);
      var rest := SortDescending(tail, w);
      SpliceDistinct(rest, x, InsertPosition(x, rest, w));
    }
  }

  /** Placing `x` anywhere in a list adds its amount to the total. */
  lemma SpliceTotal(rest: seq<Group>, x: Group, p: nat)
    requires p <= |rest|
    ensures SumTotals(rest[..p] + [x] + rest[p..]) == SumTotals(rest) + x.total
  {
    assert rest == rest[..p] + rest[p..];
    SumTotalsConcat(rest[..p], rest[p..]);
    SumTotalsConcat(rest[..p] + [x], rest[p..]);
    SumTotalsConcat(rest[..p], [x]);
    SumTotalsCons(x, []);
  }

  /** Sorting leaves the grand total unchanged. */
  lemma {:induction false} SortTotal(g: seq<Group>, w: Group -> int)
    ensures SumTotals(SortDescending(g, w)) == SumTotals(g)
  {
    if g != [] {
      var x, tail := g[0], g[1..];
      SortTotal(tail, w);
      var rest := SortDescending(tail, w);
      var p := InsertPosition(x, rest, w);
      assert SortDescending(g, w) == rest[..p] + [x] + rest[p..];
      SpliceTotal(rest, x, p);
      assert g == [x] + tail;
      SumTotalsCons(x, tail);
    }
  }

  /** A property every element of one list has, every element of a
      permutation of it has too. */
  lemma PermutationKeeps<T>(a: seq<T>, b: seq<T>, P: T -> bool)
    requires multiset(a) == multiset(b)
    requires forall i :: 0 <= i < |b| ==> P(b[i])
    ensures forall i :: 0 <= i < |a| ==> P(a[i])
  {
    forall i | 0 <= i < |a| ensures P(a[i]) {
      assert a[i] in multiset(b);
      var j :| 0 <= j < |b| && b[j] == a[i];
    }
  }

  /** A property every element has survives sorting. */
  lemma SortKeepsProperty<T>(s: seq<T>, w: T -> int, P: T -> bool)
    requires forall i :: 0 <= i < |s| ==> P(s[i])
    ensures forall i :: 0 <= i < |SortDescending(s, w)| ==> P(SortDescending(s, w)[i])
  {
    PermutationKeeps(SortDescending(s, w), s, P);
  }

  function Amount(g: Group): int
  {
    g.total
  }

  /** The frame with every amount replaced by its magnitude. */
  function Magnitudes(g: seq<Group>): (r: seq<Group>)
    ensures |r| == |g| && Keys(r) == Keys(g)
    ensures forall i :: 0 <= i < |g| ==> r[i] == Group(g[i].key, Abs(g[i].total))
  {
    var r := seq(|g|, i requires 0 <= i < |g| => Group(g[i].key, Abs(g[i].total)));
    assert forall i :: 0 <= i < |g| ==> r[i].key == g[i].key;
    r
  }

  /** With no positive amount, the magnitudes add up to minus the total. */
  lemma {:induction false} MagnitudesTotal(g: seq<Group>)
    requires forall i :: 0 <= i < |g| ==> g[i].total <= 0
    ensures SumTotals(Magnitudes(g)) == -SumTotals(g)
  {
    if g != [] {
      var init := g[..|g| - 1];
      MagnitudesTotal(init);
      assert Magnitudes(g)[..|g| - 1] == Magnitudes(init);
    }
  }

  /** The largest elements come first: once sorted, each of the first `m`
      weighs at least as much as each of the others. */
  lemma PrefixDominates<T>(s: seq<T>, w: T -> int, m: nat)
    requires NonIncreasing(s, w) && m <= |s|
    ensures NonIncreasing(s[..m], w)
    ensures multiset(s[..m]) <= multiset(s)
    ensures forall t, u :: t in s[..m] && u in multiset(s) - multiset(s[..m]) ==> w(t) >= w(u)
  {
    var top, others := s[..m], s[m..];
    assert NonIncreasing(top, w) by {
      forall i, j | 0 <= i < j < m ensures w(top[i]) >= w(top[j]) {
        assert top[i] == s[i] && top[j] == s[j];
      }
    }
    assert multiset(s) == multiset(top) + multiset(others) by {
      assert s == top + others;
    }
    forall t, u | t in top && u in multiset(others) ensures w(t) >= w(u) {
      var i :| 0 <= i < m && top[i] == t;
      var j :| 0 <= j < |others| && others[j] == u;
      assert s[i] == t && s[m + j] == u;
    }
  }

  /** Filtering a sorted list leaves it sorted. */
  lemma FilterNonIncreasing<T>(s: seq<T>, p: T -> bool, w: T -> int)
    requires NonIncreasing(s, w)
    ensures NonIncreasing(Filter(s, p), w)
  {
    FilterIsSubsequence(s, p);
    var r, ix := Filter(s, p), Kept(s, p);
    forall i, j | 0 <= i < j < |r| ensures w(r[i]) >= w(r[j]) {
      assert r[i] == s[ix[i]] && r[j] == s[ix[j]] && ix[i] < ix[j];
    }
  }

  /** Filtering a frame with distinct keys leaves them distinct. */
  lemma FilterDistinct(g: seq<Group>, p: Group -> bool)
    requires DistinctKeys(g)
    ensures DistinctKeys(Filter(g, p))
  {
    FilterIsSubsequence(g, p);
    var r, ix := Filter(g, p), Kept(g, p);
    forall i, j | 0 <= i < j < |r| ensures r[i].key != r[j].key {
      assert r[i] == g[ix[i]] && r[j] == g[ix[j]] && ix[i] < ix[j];
    }
  }

  /** The keys left after keeping the entries whose key is in `keep`. */
  lemma KeysOfFilter(g: seq<Group>, p: Group -> bool, keep: set<string>)
    requires forall x :: p(x) <==> x.key in keep
    ensures Keys(Filter(g, p)) == Keys(g) * keep
  {
    var r := Filter(g, p);
    FilterKeeps(g, p);
    forall k | k in Keys(r) ensures k in Keys(g) * keep {
      var i :| 0 <= i < |r| && r[i].key == k;
      assert r[i] in r;
      var j :| 0 <= j < |g| && g[j] == r[i];
    }
    forall k | k in Keys(g) * keep ensures k in Keys(r) {
      var j :| 0 <= j < |g| && g[j].key == k;
      assert g[j] in r;
      var i :| 0 <= i < |r| && r[i] == g[j];
    }
  }

  /** The keys left after dropping the entries whose key is in `drop`. */
  lemma KeysOfFilterOut(g: seq<Group>, p: Group -> bool, drop: set<string>)
    requires forall x :: p(x) <==> x.key !in drop
    ensures Keys(Filter(g, p)) == Keys(g) - drop
  {
    var r := Filter(g, p);
    FilterKeeps(g, p);
    forall k | k in Keys(r) ensures k in Keys(g) - drop {
      var i :| 0 <= i < |r| && r[i].key == k;
      assert r[i] in r;
      var j :| 0 <= j < |g| && g[j] == r[i];
    }
    forall k | k in Keys(g) - drop ensures k in Keys(r) {
      var j :| 0 <= j < |g| && g[j].key == k;
      assert g[j] in r;
      var i :| 0 <= i < |r| && r[i] == g[j];
    }
  }

  /** Splitting a frame by a condition and its negation splits its total. */
  lemma {:induction false} FilterSplitTotals(g: seq<Group>, p: Group -> bool, q: Group -> bool)
    requires forall x :: q(x) == !p(x)
    ensures SumTotals(Filter(g, p)) + SumTotals(Filter(g, q)) == SumTotals(g)
  {
    if g != [] {
      var init, last := g[..|g| - 1], g[|g| - 1];
      FilterSplitTotals(init, p, q);
      if p(last) {
        SumTotalsConcat(Filter(init, p), [last]);
      } else {
        SumTotalsConcat(Filter(init, q), [last]);
      }
      assert SumTotals([last]) == last.total;
    }
  }

  lemma {:induction false} SumTotalsNonNegative(g: seq<Group>)
    requires forall i :: 0 <= i < |g| ==> g[i].total >= 0
    ensures SumTotals(g) >= 0
  {
    if g != [] {
      SumTotalsNonNegative(g[..|g| - 1]);
    }
  }
}

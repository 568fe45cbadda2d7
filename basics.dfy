/** Small value-level helpers shared by the ledger model: an optional value,
    absolute value, rounding of an exact quotient, and an order-preserving
    filter over sequences. */
module Basics {

  datatype Option<+T> = None | Some(value: T)

  function Abs(x: int): nat
  {
    if x < 0 then -x else x
  }

  function Min(a: int, b: int): int
  {
    if a <= b then a else b
  }

  /** The quotient n / d rounded to the nearest integer, ties to the even
      neighbour (the rule Python's `round` applies to an exact value). */
  function DivRound(n: int, d: int): (q: int)
    requires d > 0
    ensures 2 * Abs(n - q * d) <= d
    ensures 2 * Abs(n - q * d) == d ==> q % 2 == 0
    ensures n >= 0 ==> q >= 0
    ensures n <= 0 ==> q <= 0
  {
    var f := n / d;
    var r := n % d;
    FloorDivision(n, d);
    if 2 * r < d then f
    else
      assert (f + 1) * d == f * d + d;
      if 2 * r > d then f + 1
      else if f % 2 == 0 then f
      else f + 1
  }

  /** Euclidean division by a positive divisor: the remainder is below the
      divisor, and the quotient has the sign of the dividend, or is -1 for
      a negative dividend smaller than the divisor. */
  lemma FloorDivision(n: int, d: int)
    requires d > 0
    ensures n == (n / d) * d + n % d && 0 <= n % d < d
    ensures n >= 0 ==> n / d >= 0
    ensures n < 0 ==> n / d < 0
  {
    var f, r := n / d, n % d;
    if f < 0 && n >= 0 {
      MultiplyBelow(f, d);
    }
    if f >= 0 && n < 0 {
      MultiplyAbove(f, d);
    }
  }

  /** Quotient and remainder are the only ones: `n == q * d + r` with
      `0 <= r < d` fixes both. */
  lemma DivisionUnique(n: int, d: int, q: int, r: int)
    requires d > 0 && 0 <= r < d && n == q * d + r
    ensures n / d == q && n % d == r
  {
    var f, s := n / d, n % d;
    FloorDivision(n, d);
    assert (q - f) * d == s - r;
    MultipleBounds(q - f, d);
  }

  /** A non-zero multiple of `d` is at least `d` away from zero. */
  lemma MultipleBounds(m: int, d: int)
    requires d > 0
    ensures m > 0 ==> m * d >= d
    ensures m < 0 ==> m * d <= -d
  {
    if m > 0 {
      MultiplyAbove(m - 1, d);
      assert m * d == (m - 1) * d + d;
    } else if m < 0 {
      MultiplyBelow(m, d);
    }
  }

  /** Going from `n - 1` to `n` raises the quotient by `d` by one exactly
      when `d` divides `n`. */
  lemma DivisionStep(n: int, d: int)
    requires d > 0
    ensures n / d - (n - 1) / d == (if n % d == 0 then 1 else 0)
  {
    var a, r := (n - 1) / d, (n - 1) % d;
    FloorDivision(n - 1, d);
    if r + 1 < d {
      DivisionUnique(n, d, a, r + 1);
    } else {
      assert n == (a + 1) * d + 0;
      DivisionUnique(n, d, a + 1, 0);
    }
  }

  lemma MultiplyBelow(f: int, d: int)
    requires f < 0 && d > 0
    ensures f * d <= -d
  {
    assert f * d == -((-f) * d);
    MultiplyAbove(-f - 1, d);
    assert (-f) * d == (-f - 1) * d + d;
  }

  lemma {:induction false} MultiplyAbove(f: int, d: int)
    requires f >= 0 && d > 0
    ensures f * d >= 0
    decreases f
  {
    if f > 0 {
      MultiplyAbove(f - 1, d);
      assert f * d == (f - 1) * d + d;
    }
  }

  /** The elements of `s` that satisfy `p`, in their original order. */
  function Filter<T>(s: seq<T>, p: T -> bool): (r: seq<T>)
    ensures |r| <= |s|
    ensures forall x :: x in r ==> x in s && p(x)
    ensures forall i :: 0 <= i < |r| ==> p(r[i])
  {
    if s == [] then []
    else
      var init := Filter(s[..|s| - 1], p);
      assert forall i :: 0 <= i < |s| - 1 ==> s[..|s| - 1][i] == s[i];
      if p(s[|s| - 1]) then init + [s[|s| - 1]] else init
  }

  /** Every element that satisfies the predicate is kept. */
  lemma {:induction false} FilterKeeps<T>(s: seq<T>, p: T -> bool)
    ensures forall i :: 0 <= i < |s| && p(s[i]) ==> s[i] in Filter(s, p)
  {
    if s != [] {
      var init := s[..|s| - 1];
      FilterKeeps(init, p);
      assert forall i :: 0 <= i < |init| ==> init[i] == s[i];
    }
  }

  /** The positions in `s` of the elements that satisfy `p`, ascending. */
  function Kept<T>(s: seq<T>, p: T -> bool): seq<nat>
  {
    if s == [] then []
    else
      var init := Kept(s[..|s| - 1], p);
      if p(s[|s| - 1]) then init + [|s| - 1] else init
  }

  predicate StrictlyAscending(ix: seq<nat>)
  {
    forall i, j :: 0 <= i < j < |ix| ==> ix[i] < ix[j]
  }

  /** Filter keeps an order-preserving subsequence of its input: the k-th
      kept element sits at the k-th position listed by Kept, and the
      positions ascend. */
  lemma {:induction false} FilterIsSubsequence<T>(s: seq<T>, p: T -> bool)
    ensures |Kept(s, p)| == |Filter(s, p)|
    ensures StrictlyAscending(Kept(s, p))
    ensures forall k :: 0 <= k < |Kept(s, p)| ==> Kept(s, p)[k] < |s| && Filter(s, p)[k] == s[Kept(s, p)[k]]
  {
    if s != [] {
      var n := |s| - 1;
      var init := s[..n];
      FilterIsSubsequence(init, p);
      var ki, fi := Kept(init, p), Filter(init, p);
      if p(s[n]) {
        assert Kept(s, p) == ki + [n];
        assert Filter(s, p) == fi + [s[n]];
      }
    }
  }

  /** Kept lists a position if and only if its element satisfies the
      predicate, so Filter drops exactly the elements that fail it. */
  lemma {:induction false} KeptExactly<T>(s: seq<T>, p: T -> bool)
    ensures forall i :: 0 <= i < |s| ==> (p(s[i]) <==> i in Kept(s, p))
  {
    if s != [] {
      var n := |s| - 1;
      var init := s[..n];
      KeptExactly(init, p);
      FilterIsSubsequence(init, p);
      var ki := Kept(init, p);
      var k := Kept(s, p);
      assert k == if p(s[n]) then ki + [n] else ki;
      forall i | 0 <= i < |s|
        ensures p(s[i]) <==> i in k
      {
        if i == n {
          if !p(s[n]) {
            assert forall j :: 0 <= j < |ki| ==> ki[j] < n;
          }
        } else {
          assert init[i] == s[i];
          assert p(s[i]) <==> i in ki;
        }
      }
    }
  }

  /** `r` is made of exactly the elements of `s` that satisfy `p`, in their
      order in `s`: some ascending list of positions of `s` yields `r`, and a
      position is listed if and only if its element satisfies `p`. */
  ghost predicate Selects<T>(r: seq<T>, s: seq<T>, p: T -> bool)
  {
    exists ix: seq<nat> :: SelectsAt(ix, r, s, p)
  }

  ghost predicate SelectsAt<T>(ix: seq<nat>, r: seq<T>, s: seq<T>, p: T -> bool)
  {
    && |ix| == |r|
    && StrictlyAscending(ix)
    && (forall k :: 0 <= k < |ix| ==> ix[k] < |s| && r[k] == s[ix[k]])
    && (forall i :: 0 <= i < |s| ==> (p(s[i]) <==> i in ix))
  }

  /** Filter selects. */
  lemma FilterSelects<T>(s: seq<T>, p: T -> bool)
    ensures Selects(Filter(s, p), s, p)
  {
    FilterIsSubsequence(s, p);
    KeptExactly(s, p);
    assert SelectsAt(Kept(s, p), Filter(s, p), s, p);
  }

  /** The positions a selection is read from are determined by the
      predicate: they are the ones Kept lists. */
  lemma {:induction false} PositionsUnique<T>(ix: seq<nat>, s: seq<T>, p: T -> bool)
    requires StrictlyAscending(ix)
    requires forall k :: 0 <= k < |ix| ==> ix[k] < |s|
    requires forall i :: 0 <= i < |s| ==> (p(s[i]) <==> i in ix)
    ensures ix == Kept(s, p)
  {
    PositionsBelow(ix, |s|);
    if s != [] {
      var n := |s| - 1;
      var rest := if p(s[n]) then ix[..|ix| - 1] else ix;
      PositionsOfInit(ix, s, p);
      PositionsUnique(rest, s[..n], p);
    }
  }

  /** Positions below `n` exist only when `n` is positive. */
  lemma PositionsBelow(ix: seq<nat>, n: int)
    requires forall k :: 0 <= k < |ix| ==> ix[k] < n
    ensures |ix| > 0 ==> n > 0
  {
    if |ix| > 0 {
      assert ix[0] < n;
    }
  }

  /** Dropping the last element of `s` drops its position, if listed, from
      the end of the ascending positions. */
  lemma PositionsOfInit<T>(ix: seq<nat>, s: seq<T>, p: T -> bool)
    requires s != [] && StrictlyAscending(ix)
    requires forall k :: 0 <= k < |ix| ==> ix[k] < |s|
    requires forall i :: 0 <= i < |s| ==> (p(s[i]) <==> i in ix)
    ensures var n := |s| - 1;
      var rest := if p(s[n]) then ix[..|ix| - 1] else ix;
      && StrictlyAscending(rest)
      && (forall k :: 0 <= k < |rest| ==> rest[k] < n)
      && (forall i :: 0 <= i < n ==> (p(s[..n][i]) <==> i in rest))
      && (p(s[n]) ==> ix == rest + [n])
  {
    var n := |s| - 1;
    var rest := if p(s[n]) then ix[..|ix| - 1] else ix;
    if p(s[n]) {
      assert n in ix;
      var j :| 0 <= j < |ix| && ix[j] == n;
      var last := ix[|ix| - 1];
      assert last < |s|;
      if j < |ix| - 1 {
        assert false;
      }
      assert ix == rest + [n];
      forall k | 0 <= k < |rest| ensures rest[k] < n {
        assert rest[k] == ix[k] < ix[|ix| - 1];
      }
    } else {
      forall k | 0 <= k < |rest| ensures rest[k] < n {
        assert rest[k] in ix;
      }
    }
    forall i | 0 <= i < n ensures p(s[..n][i]) <==> i in rest {
      assert s[..n][i] == s[i];
    }
  }

  /** A selection is unique: Selects determines its result, which is the
      one Filter computes. */
  lemma SelectsUnique<T>(r: seq<T>, s: seq<T>, p: T -> bool)
    requires Selects(r, s, p)
    ensures r == Filter(s, p)
  {
    var ix :| SelectsAt(ix, r, s, p);
    PositionsUnique(ix, s, p);
    FilterIsSubsequence(s, p);
  }

  /** Filtering depends only on the predicate's values on the input. */
  lemma {:induction false} FilterCongruence<T>(s: seq<T>, p: T -> bool, q: T -> bool)
    requires forall i :: 0 <= i < |s| ==> p(s[i]) == q(s[i])
    ensures Filter(s, p) == Filter(s, q)
  {
    if s != [] {
      var init := s[..|s| - 1];
      assert forall i :: 0 <= i < |init| ==> init[i] == s[i];
      FilterCongruence(init, p, q);
    }
  }

  lemma {:induction false} FilterEmpty<T>(s: seq<T>, p: T -> bool)
    ensures Filter(s, p) == [] <==> forall i :: 0 <= i < |s| ==> !p(s[i])
  {
    if s != [] {
      var init := s[..|s| - 1];
      FilterEmpty(init, p);
      assert forall i :: 0 <= i < |init| ==> init[i] == s[i];
    }
  }

  /** Filtering by a predicate that every element satisfies changes nothing. */
  lemma {:induction false} FilterAll<T>(s: seq<T>, p: T -> bool)
    requires forall i :: 0 <= i < |s| ==> p(s[i])
    ensures Filter(s, p) == s
  {
    if s != [] {
      var init := s[..|s| - 1];
      FilterAll(init, p);
      assert init + [s[|s| - 1]] == s;
    }
  }

  /** When exactly the first `n` elements satisfy `p`, filtering keeps
      those. */
  lemma {:induction false} FilterPrefix<T>(s: seq<T>, p: T -> bool, n: nat)
    requires n <= |s|
    requires forall i :: 0 <= i < |s| ==> (p(s[i]) <==> i < n)
    ensures Filter(s, p) == s[..n]
  {
    if |s| == n {
      FilterAll(s, p);
      assert s[..n] == s;
    } else {
      var init := s[..|s| - 1];
      forall i | 0 <= i < |init| ensures p(init[i]) <==> i < n {
        assert init[i] == s[i];
      }
      FilterPrefix(init, p, n);
      assert init[..n] == s[..n];
    }
  }
}

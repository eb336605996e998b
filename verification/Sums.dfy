/** Sums, filters and counts over sequences of records, and the few facts about them that the
    ledger, the detector and the history modules share. Both recurse from the end of the
    sequence, so that a loop that appends one record at a time follows the definition. */
module Sums {

  function Sum<T>(s: seq<T>, weight: T -> real): real {
    if s == [] then 0.0 else Sum(s[..|s| - 1], weight) + weight(s[|s| - 1])
  }

  function Filter<T>(s: seq<T>, keep: T -> bool): seq<T> {
    if s == [] then []
    else
      var rest := Filter(s[..|s| - 1], keep);
      if keep(s[|s| - 1]) then rest + [s[|s| - 1]] else rest
  }

  function Count<T>(s: seq<T>, keep: T -> bool): nat {
    |Filter(s, keep)|
  }

  /** The weight that counts: one for a kept record, zero for the others. */
  function Indicator<T>(keep: T -> bool): T -> real {
    (x: T) => if keep(x) then 1.0 else 0.0
  }

  function Abs(x: real): real {
    if x < 0.0 then -x else x
  }

  function Max(x: real, y: real): real {
    if x < y then y else x
  }

  // ---- appending, taking out, replacing ------------------------------------------------

  lemma SumSnoc<T(!new)>(s: seq<T>, x: T, weight: T -> real)
    ensures Sum(s + [x], weight) == Sum(s, weight) + weight(x)
  {
    assert (s + [x])[..|s|] == s;
  }

  lemma {:induction false} SumConcat<T(!new)>(s: seq<T>, t: seq<T>, weight: T -> real)
    ensures Sum(s + t, weight) == Sum(s, weight) + Sum(t, weight)
  {
    if t == [] {
      assert s + t == s;
    } else {
      var t' := t[..|t| - 1];
      assert s + t == (s + t') + [t[|t| - 1]];
      SumSnoc(s + t', t[|t| - 1], weight);
      SumConcat(s, t', weight);
    }
  }

  lemma SumSplitAt<T(!new)>(s: seq<T>, i: nat, weight: T -> real)
    requires i < |s|
    ensures Sum(s, weight) == Sum(s[..i], weight) + weight(s[i]) + Sum(s[i + 1..], weight)
  {
    assert s == s[..i] + [s[i]] + s[i + 1..];
    SumConcat(s[..i] + [s[i]], s[i + 1..], weight);
    SumSnoc(s[..i], s[i], weight);
  }

  lemma {:induction false} SumRemoved<T(!new)>(s: seq<T>, i: nat, weight: T -> real)
    requires i < |s|
    ensures Sum(s[..i] + s[i + 1..], weight) == Sum(s, weight) - weight(s[i])
  {
    SumSplitAt(s, i, weight);
    SumConcat(s[..i], s[i + 1..], weight);
  }

  lemma SumReplaced<T(!new)>(s: seq<T>, i: nat, x: T, weight: T -> real)
    requires i < |s|
    ensures Sum(s[i := x], weight) == Sum(s, weight) - weight(s[i]) + weight(x)
  {
    SumSplitAt(s, i, weight);
    SumSplitAt(s[i := x], i, weight);
    assert s[i := x][..i] == s[..i] && s[i := x][i + 1..] == s[i + 1..];
  }

  // ---- comparing sums ------------------------------------------------------------------

  lemma {:induction false} SumCongruent<T(!new)>(s: seq<T>, v: T -> real, w: T -> real)
    requires forall x :: x in s ==> v(x) == w(x)
    ensures Sum(s, v) == Sum(s, w)
  {
    if s != [] { SumCongruent(s[..|s| - 1], v, w); }
  }

  lemma {:induction false} SumZero<T(!new)>(s: seq<T>, weight: T -> real)
    requires forall x :: x in s ==> weight(x) == 0.0
    ensures Sum(s, weight) == 0.0
  {
    if s != [] { SumZero(s[..|s| - 1], weight); }
  }

  lemma {:induction false} SumNonNegative<T(!new)>(s: seq<T>, weight: T -> real)
    requires forall x :: x in s ==> weight(x) >= 0.0
    ensures Sum(s, weight) >= 0.0
  {
    if s != [] { SumNonNegative(s[..|s| - 1], weight); }
  }

  lemma {:induction false} SumPositive<T(!new)>(s: seq<T>, weight: T -> real)
    requires forall x :: x in s ==> weight(x) >= 0.0
    requires exists x :: x in s && weight(x) > 0.0
    ensures Sum(s, weight) > 0.0
  {
    var i :| 0 <= i < |s| && weight(s[i]) > 0.0;
    SumSplitAt(s, i, weight);
    SumNonNegative(s[..i], weight);
    SumNonNegative(s[i + 1..], weight);
  }

  lemma {:induction false} MemberWithin<T(!new)>(s: seq<T>, x: T, weight: T -> real)
    requires x in s && forall y :: y in s ==> weight(y) >= 0.0
    ensures Sum(s, weight) >= weight(x)
  {
    var i :| 0 <= i < |s| && s[i] == x;
    SumSplitAt(s, i, weight);
    SumNonNegative(s[..i], weight);
    SumNonNegative(s[i + 1..], weight);
  }

  /** If every record keeps at most the fraction `k` of what it had, so does the total. */
  lemma {:induction false} SumScaled<T(!new)>(s: seq<T>, before: T -> real, after: T -> real, k: real)
    requires forall x :: x in s ==> after(x) <= k * before(x)
    ensures Sum(s, after) <= k * Sum(s, before)
  {
    if s != [] { SumScaled(s[..|s| - 1], before, after, k); }
  }

  // ---- filters -------------------------------------------------------------------------

  lemma {:induction false} FilterMembers<T(!new)>(s: seq<T>, keep: T -> bool)
    ensures forall x :: x in Filter(s, keep) <==> x in s && keep(x)
  {
    if s != [] {
      FilterMembers(s[..|s| - 1], keep);
      assert s == s[..|s| - 1] + [s[|s| - 1]];
    }
  }

  lemma FilterSnoc<T(!new)>(s: seq<T>, x: T, keep: T -> bool)
    ensures Filter(s + [x], keep) == if keep(x) then Filter(s, keep) + [x] else Filter(s, keep)
  {
    assert (s + [x])[..|s|] == s;
  }

  lemma {:induction false} FilterConcat<T(!new)>(s: seq<T>, t: seq<T>, keep: T -> bool)
    ensures Filter(s + t, keep) == Filter(s, keep) + Filter(t, keep)
  {
    if t == [] {
      assert s + t == s;
    } else {
      var t' := t[..|t| - 1];
      assert s + t == (s + t') + [t[|t| - 1]];
      FilterSnoc(s + t', t[|t| - 1], keep);
      FilterConcat(s, t', keep);
    }
  }

  lemma {:induction false} FilterCongruent<T(!new)>(s: seq<T>, p: T -> bool, q: T -> bool)
    requires forall x :: x in s ==> p(x) == q(x)
    ensures Filter(s, p) == Filter(s, q)
  {
    if s != [] { FilterCongruent(s[..|s| - 1], p, q); }
  }

  lemma {:induction false} FilterAll<T(!new)>(s: seq<T>, keep: T -> bool)
    requires forall x :: x in s ==> keep(x)
    ensures Filter(s, keep) == s
  {
    if s != [] { FilterAll(s[..|s| - 1], keep); }
  }

  lemma {:induction false} FilterNone<T(!new)>(s: seq<T>, keep: T -> bool)
    requires forall x :: x in s ==> !keep(x)
    ensures Filter(s, keep) == []
  {
    if s != [] { FilterNone(s[..|s| - 1], keep); }
  }

  lemma {:induction false} FilterTwice<T(!new)>(s: seq<T>, p: T -> bool, q: T -> bool, both: T -> bool)
    requires forall x :: x in s ==> both(x) == (p(x) && q(x))
    ensures Filter(Filter(s, p), q) == Filter(s, both)
  {
    if s != [] {
      var rest, x := s[..|s| - 1], s[|s| - 1];
      FilterTwice(rest, p, q, both);
      FilterSnoc(Filter(rest, p), x, q);
    }
  }

  /** Splitting the records in two classes splits every sum over them. */
  lemma {:induction false} SumPartition<T(!new)>(s: seq<T>, p: T -> bool, q: T -> bool, weight: T -> real)
    requires forall x :: x in s ==> q(x) == !p(x)
    ensures Sum(s, weight) == Sum(Filter(s, p), weight) + Sum(Filter(s, q), weight)
  {
    if s != [] {
      var s', x := s[..|s| - 1], s[|s| - 1];
      SumPartition(s', p, q, weight);
      SumSnoc(Filter(s', p), x, weight);
      SumSnoc(Filter(s', q), x, weight);
    }
  }

  /** A sum over the kept records is a sum over all of them with the others weighing nothing. */
  lemma {:induction false} SumFiltered<T(!new)>(s: seq<T>, keep: T -> bool, weight: T -> real, masked: T -> real)
    requires forall x :: x in s ==> masked(x) == if keep(x) then weight(x) else 0.0
    ensures Sum(Filter(s, keep), weight) == Sum(s, masked)
  {
    if s != [] {
      var s', x := s[..|s| - 1], s[|s| - 1];
      SumFiltered(s', keep, weight, masked);
      SumSnoc(Filter(s', keep), x, weight);
    }
  }

  lemma {:induction false} CountIsSum<T(!new)>(s: seq<T>, keep: T -> bool)
    ensures Count(s, keep) as real == Sum(s, Indicator(keep))
  {
    if s != [] { CountIsSum(s[..|s| - 1], keep); }
  }

  // ---- double counting -----------------------------------------------------------------

  /** What key `k` gets of the records that belong to it. */
  function Share<K, T>(belongs: (K, T) -> bool, weight: T -> real, k: K): T -> real {
    (x: T) => if belongs(k, x) then weight(x) else 0.0
  }

  function PerKey<K, T>(rows: seq<T>, belongs: (K, T) -> bool, weight: T -> real): K -> real {
    (k: K) => Sum(rows, Share(belongs, weight, k))
  }

  ghost predicate Distinct<T>(s: seq<T>) {
    forall i, j :: 0 <= i < j < |s| ==> s[i] != s[j]
  }

  /** Some key owns record `x`. */
  ghost predicate Owned<K, T>(keys: seq<K>, x: T, belongs: (K, T) -> bool) {
    exists k :: k in keys && belongs(k, x)
  }

  lemma {:induction false} SumOneOwner<K(!new), T(!new)>(keys: seq<K>, x: T, belongs: (K, T) -> bool, weight: T -> real,
                                                         only: K -> real)
    requires Distinct(keys)
    requires forall k, l :: k in keys && l in keys && belongs(k, x) && belongs(l, x) ==> k == l
    requires forall k :: k in keys ==> only(k) == if belongs(k, x) then weight(x) else 0.0
    ensures Sum(keys, only) == if Owned(keys, x, belongs) then weight(x) else 0.0
  {
    if Owned(keys, x, belongs) {
      var i :| 0 <= i < |keys| && belongs(keys[i], x);
      SumSplitAt(keys, i, only);
      forall k | k in keys[..i] ensures only(k) == 0.0 { }
      forall k | k in keys[i + 1..] ensures only(k) == 0.0 { }
      SumZero(keys[..i], only);
      SumZero(keys[i + 1..], only);
    } else {
      SumZero(keys, only);
    }
  }

  /** Adding up key by key gives the total over the records, when every record belongs to exactly
      one of the keys. */
  lemma {:induction false} DoubleCount<K(!new), T(!new)>(keys: seq<K>, rows: seq<T>, belongs: (K, T) -> bool,
                                                         weight: T -> real)
    requires Distinct(keys)
    requires forall x, k, l :: x in rows && k in keys && l in keys && belongs(k, x) && belongs(l, x) ==> k == l
    requires forall x :: x in rows ==> Owned(keys, x, belongs)
    ensures Sum(keys, PerKey(rows, belongs, weight)) == Sum(rows, weight)
  {
    if rows == [] {
      SumZero(keys, PerKey(rows, belongs, weight));
    } else {
      var rows', x := rows[..|rows| - 1], rows[|rows| - 1];
      DoubleCount(keys, rows', belongs, weight);
      var only := (k: K) => if belongs(k, x) then weight(x) else 0.0;
      SumOneOwner(keys, x, belongs, weight, only);
      SumAdds(keys, PerKey(rows', belongs, weight), only, PerKey(rows, belongs, weight));
    }
  }

  lemma {:induction false} SumAdds<T(!new)>(s: seq<T>, v: T -> real, w: T -> real, both: T -> real)
    requires forall x :: x in s ==> both(x) == v(x) + w(x)
    ensures Sum(s, both) == Sum(s, v) + Sum(s, w)
  {
    if s != [] { SumAdds(s[..|s| - 1], v, w, both); }
  }
}

/** Sorting by a strict order: the built-in array sort, for lists whose elements are pairwise
    comparable. Also the order of strings by their characters. */
module Sorting {
  import opened Sums

  function Insert<T>(s: seq<T>, x: T, before: (T, T) -> bool): seq<T> {
    if s == [] then [x]
    else if before(x, s[0]) then [x] + s
    else [s[0]] + Insert(s[1..], x, before)
  }

  function Sort<T>(s: seq<T>, before: (T, T) -> bool): seq<T> {
    if s == [] then [] else Insert(Sort(s[..|s| - 1], before), s[|s| - 1], before)
  }

  ghost predicate Ordered<T>(s: seq<T>, before: (T, T) -> bool) {
    forall i, j :: 0 <= i < j < |s| ==> before(s[i], s[j])
  }

  ghost predicate Transitive<T(!new)>(before: (T, T) -> bool) {
    forall x, y, z :: before(x, y) && before(y, z) ==> before(x, z)
  }

  ghost predicate Comparable<T>(s: seq<T>, before: (T, T) -> bool) {
    forall i, j :: 0 <= i < j < |s| ==> before(s[i], s[j]) || before(s[j], s[i])
  }

  lemma {:induction false} InsertFacts<T(!new)>(s: seq<T>, x: T, before: (T, T) -> bool)
    requires Transitive(before) && Ordered(s, before)
    requires forall y :: y in s ==> before(x, y) || before(y, x)
    ensures Ordered(Insert(s, x, before), before)
    ensures forall y :: y in Insert(s, x, before) <==> y in s || y == x
    ensures |Insert(s, x, before)| == |s| + 1
  {
    if s != [] {
      assert forall i :: 0 < i < |s| ==> before(s[0], s[i]);
      if before(x, s[0]) {
        assert forall y :: y in s ==> before(x, y);
      } else {
        InsertFacts(s[1..], x, before);
        forall y | y in Insert(s[1..], x, before) ensures before(s[0], y) { }
      }
    }
  }

  lemma {:induction false} SortFacts<T(!new)>(s: seq<T>, before: (T, T) -> bool)
    requires Transitive(before) && Comparable(s, before)
    ensures Ordered(Sort(s, before), before)
    ensures forall y :: y in Sort(s, before) <==> y in s
    ensures |Sort(s, before)| == |s|
  {
    if s != [] {
      var rest, x := s[..|s| - 1], s[|s| - 1];
      SortFacts(rest, before);
      forall y | y in Sort(rest, before) ensures before(x, y) || before(y, x) {
        var i :| 0 <= i < |rest| && rest[i] == y;
        assert before(s[i], s[|s| - 1]) || before(s[|s| - 1], s[i]);
      }
      InsertFacts(Sort(rest, before), x, before);
    }
  }

  /** The keys of a map, each once, in an order of the runtime's choosing. */
  method KeysOf<K>(keys: set<K>) returns (list: seq<K>)
    ensures forall k :: k in list <==> k in keys
    ensures Distinct(list)
  {
    list := [];
    var left := keys;
    while left != {}
      invariant left <= keys
      invariant forall k :: k in list <==> k in keys && k !in left
      invariant Distinct(list)
      decreases left
    {
      var k :| k in left;
      list, left := list + [k], left - {k};
    }
  }

  // ---- strings --------------------------------------------------------------------------

  predicate LexLess(a: string, b: string) {
    if b == "" then false
    else if a == "" then true
    else if a[0] != b[0] then a[0] < b[0]
    else LexLess(a[1..], b[1..])
  }

  lemma {:induction false} LexTotal(a: string, b: string)
    ensures a == b || LexLess(a, b) || LexLess(b, a)
    ensures !(LexLess(a, b) && LexLess(b, a))
  {
    if a != "" && b != "" && a[0] == b[0] {
      LexTotal(a[1..], b[1..]);
      if a[1..] == b[1..] { assert a == [a[0]] + a[1..] == [b[0]] + b[1..] == b; }
    }
  }

  lemma {:induction false} LexTransitive(a: string, b: string, c: string)
    requires LexLess(a, b) && LexLess(b, c)
    ensures LexLess(a, c)
  {
    if a != "" && a[0] == b[0] && b[0] == c[0] { LexTransitive(a[1..], b[1..], c[1..]); }
  }

  /** The first difference decides, and a prefix comes before what it begins. */
  lemma {:induction false} LexByFirstDifference(a: string, b: string)
    ensures LexLess(a, b)
        <==> exists k :: 0 <= k <= |a| && k < |b| && a[..k] == b[..k] && (k == |a| || a[k] < b[k])
  {
    if a != [] && b != [] && a[0] == b[0] {
      LexByFirstDifference(a[1..], b[1..]);
      if k :| 0 <= k <= |a[1..]| && k < |b[1..]| && a[1..][..k] == b[1..][..k]
              && (k == |a[1..]| || a[1..][k] < b[1..][k]) {
        assert a[..k + 1] == [a[0]] + a[1..][..k] && b[..k + 1] == [b[0]] + b[1..][..k];
        assert k + 1 <= |a| && k + 1 < |b| && a[..k + 1] == b[..k + 1] && (k + 1 == |a| || a[k + 1] < b[k + 1]);
      }
      if k :| 0 <= k <= |a| && k < |b| && a[..k] == b[..k] && (k == |a| || a[k] < b[k]) {
        assert k > 0;
        assert a[1..][..k - 1] == a[..k][1..] && b[1..][..k - 1] == b[..k][1..];
      }
    } else if LexLess(a, b) {
      assert a[..0] == b[..0];
    }
  }
}

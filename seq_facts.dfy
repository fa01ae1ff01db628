/** General facts about sequences used by several modules. */
module SeqFacts {

  /** No element occurs twice. */
  predicate Distinct<T(==)>(s: seq<T>)
  {
    forall i, j :: 0 <= i < j < |s| ==> s[i] != s[j]
  }

  /** A sequence without repetitions has as many elements as the set of its elements. */
  lemma {:induction false} DistinctCard<T>(s: seq<T>)
    requires Distinct(s)
    ensures |set x | x in s| == |s|
  {
    if |s| > 0 {
      var init := s[..|s| - 1];
      var last := s[|s| - 1];
      assert Distinct(init);
      DistinctCard(init);
      assert s == init + [last];
      assert (set x | x in s) == (set x | x in init) + {last};
      assert last !in init by {
        forall i | 0 <= i < |init| ensures init[i] != last {
          assert s[i] == init[i];
        }
      }
    }
  }

  /** A subset has no more elements than its superset. */
  lemma SubsetCard<T>(a: set<T>, b: set<T>)
    requires a <= b
    ensures |a| <= |b|
  {
    assert b == a + (b - a);
  }
  // ------------------------------------------------------------------
  // Ordering by a string key (`Meta.ordering` on a character field)

  /** Lexicographic order on strings by character code, the order of a binary collation. */
  predicate StringLe(a: string, b: string)
  {
    if |a| == 0 then true
    else if |b| == 0 then false
    else if a[0] != b[0] then a[0] < b[0]
    else StringLe(a[1..], b[1..])
  }

  lemma {:induction false} StringLeReflexive(a: string)
    ensures StringLe(a, a)
  {
    if |a| > 0 {
      StringLeReflexive(a[1..]);
    }
  }

  lemma {:induction false} StringLeTotal(a: string, b: string)
    ensures StringLe(a, b) || StringLe(b, a)
  {
    if |a| > 0 && |b| > 0 && a[0] == b[0] {
      StringLeTotal(a[1..], b[1..]);
    }
  }

  lemma {:induction false} StringLeTransitive(a: string, b: string, c: string)
    requires StringLe(a, b) && StringLe(b, c)
    ensures StringLe(a, c)
  {
    if |a| > 0 && |b| > 0 && |c| > 0 && a[0] == b[0] && b[0] == c[0] {
      StringLeTransitive(a[1..], b[1..], c[1..]);
    }
  }

  /** The elements are in ascending order of their keys. */
  predicate SortedBy<T>(s: seq<T>, key: T -> string)
  {
    forall i, j :: 0 <= i < j < |s| ==> StringLe(key(s[i]), key(s[j]))
  }

  lemma ConsSortedBy<T>(x: T, s: seq<T>, key: T -> string)
    requires SortedBy(s, key)
    requires forall y :: y in s ==> StringLe(key(x), key(y))
    ensures SortedBy([x] + s, key)
  {
    var r := [x] + s;
    forall i, j | 0 <= i < j < |r|
      ensures StringLe(key(r[i]), key(r[j]))
    {
      assert r[j] == s[j - 1];
      if i > 0 {
        assert r[i] == s[i - 1];
      } else {
        assert s[j - 1] in s;
      }
    }
  }

  /** Appending a key no smaller than every key of a sorted list keeps it sorted. */
  lemma SnocSortedBy<T>(s: seq<T>, x: T, key: T -> string)
    requires SortedBy(s, key)
    requires forall y :: y in s ==> StringLe(key(y), key(x))
    ensures SortedBy(s + [x], key)
  {
    var r := s + [x];
    forall i, j | 0 <= i < j < |r|
      ensures StringLe(key(r[i]), key(r[j]))
    {
      assert r[i] == s[i];
      if j < |s| {
        assert r[j] == s[j];
      } else {
        assert s[i] in s;
      }
    }
  }

  /**
   * One step of a filter that walks a list from its end: if the kept
   * elements of all but the last are sorted whenever those are, keeping
   * the last one too leaves the kept elements sorted whenever the list is.
   */
  lemma SortedFilterStep<T>(s: seq<T>, r: seq<T>, key: T -> string)
    requires |s| > 0
    requires SortedBy(s[..|s| - 1], key) ==> SortedBy(r, key)
    requires forall y :: y in r ==> y in s[..|s| - 1]
    ensures SortedBy(s, key) ==> SortedBy(r + [s[|s| - 1]], key)
  {
    if SortedBy(s, key) {
      var init := s[..|s| - 1];
      assert forall k :: 0 <= k < |init| ==> init[k] == s[k];
      forall y | y in r
        ensures StringLe(key(y), key(s[|s| - 1]))
      {
        var k :| 0 <= k < |init| && init[k] == y;
      }
      SnocSortedBy(r, s[|s| - 1], key);
    }
  }

  lemma HeadIsLeast<T>(s: seq<T>, x: T, key: T -> string)
    requires SortedBy(s, key) && |s| > 0 && StringLe(key(x), key(s[0]))
    ensures forall y :: y in s ==> StringLe(key(x), key(y))
  {
    forall y | y in s
      ensures StringLe(key(x), key(y))
    {
      var k :| 0 <= k < |s| && s[k] == y;
      if k > 0 {
        StringLeTransitive(key(x), key(s[0]), key(s[k]));
      }
    }
  }

  /** A lower bound on `x` and on every element of a list bounds every element of a permutation of both. */
  lemma BoundedBelow<T>(a: T, x: T, tail: seq<T>, rest: seq<T>, key: T -> string)
    requires multiset(rest) == multiset(tail) + multiset{x}
    requires StringLe(key(a), key(x)) && forall y :: y in tail ==> StringLe(key(a), key(y))
    ensures forall y :: y in rest ==> StringLe(key(a), key(y))
  {
    forall y | y in rest
      ensures StringLe(key(a), key(y))
    {
      assert y in multiset(rest);
      if y != x {
        assert y in multiset(tail);
      }
    }
  }

  /** `x` placed before the first element whose key is larger (ahead of equal keys). */
  function InsertBy<T>(x: T, s: seq<T>, key: T -> string): (r: seq<T>)
    requires SortedBy(s, key)
    ensures SortedBy(r, key)
    ensures multiset(r) == multiset(s) + multiset{x}
  {
    if |s| == 0 then [x]
    else if StringLe(key(x), key(s[0])) then
      HeadIsLeast(s, x, key);
      ConsSortedBy(x, s, key);
      [x] + s
    else
      var tail := s[1..];
      var rest := InsertBy(x, tail, key);
      assert s == [s[0]] + tail;
      StringLeTotal(key(x), key(s[0]));
      StringLeReflexive(key(s[0]));
      HeadIsLeast(s, s[0], key);
      BoundedBelow(s[0], x, tail, rest, key);
      ConsSortedBy(s[0], rest, key);
      [s[0]] + rest
  }

  /**
   * A query ordered by a string key: the list reordered so that the keys
   * ascend, with equal keys left in their original order.
   */
  function SortBy<T>(s: seq<T>, key: T -> string): (r: seq<T>)
    ensures SortedBy(r, key)
    ensures multiset(r) == multiset(s)
  {
    if |s| == 0 then []
    else
      assert s == [s[0]] + s[1..];
      InsertBy(s[0], SortBy(s[1..], key), key)
  }

  /** Reordering neither adds nor drops an element. */
  lemma SortByMembers<T>(s: seq<T>, key: T -> string)
    ensures forall y :: y in SortBy(s, key) <==> y in s
  {
    forall y
      ensures y in SortBy(s, key) <==> y in s
    {
      assert y in SortBy(s, key) <==> y in multiset(SortBy(s, key));
      assert y in s <==> y in multiset(s);
    }
  }
}

/** The library's stable sort and sums over sequences. */
module Sorting {
  /** The library's sort, for some order. */
  function Sorted<T>(s: seq<T>, less: (T, T) -> bool): seq<T> {
    if s == [] then [] else Inserted(Sorted(s[..|s| - 1], less), s[|s| - 1], less)
  }

  function Inserted<T>(s: seq<T>, x: T, less: (T, T) -> bool): seq<T> {
    if s == [] || !less(x, s[|s| - 1]) then s + [x] else Inserted(s[..|s| - 1], x, less) + [s[|s| - 1]]
  }

  lemma {:induction false} InsertedIsPermutation<T>(s: seq<T>, x: T, less: (T, T) -> bool)
    ensures |Inserted(s, x, less)| == |s| + 1 && multiset(Inserted(s, x, less)) == multiset(s) + multiset{x}
  {
    if s != [] && less(x, s[|s| - 1]) {
      InsertedIsPermutation(s[..|s| - 1], x, less);
      assert s == s[..|s| - 1] + [s[|s| - 1]];
    }
  }

  lemma {:induction false} SortedIsPermutation<T>(s: seq<T>, less: (T, T) -> bool)
    ensures |Sorted(s, less)| == |s| && multiset(Sorted(s, less)) == multiset(s)
  {
    if s != [] {
      SortedIsPermutation(s[..|s| - 1], less);
      InsertedIsPermutation(Sorted(s[..|s| - 1], less), s[|s| - 1], less);
      assert s == s[..|s| - 1] + [s[|s| - 1]];
    }
  }

  lemma PrefixGrows<T>(s: seq<T>, k: nat)
    requires k < |s|
    ensures s[..k + 1] == s[..k] + [s[k]]
  {
  }

  function Total<T>(s: seq<T>, weight: T -> nat): nat {
    if s == [] then 0 else Total(s[..|s| - 1], weight) + weight(s[|s| - 1])
  }

  lemma {:induction false} InsertedTotal<T>(s: seq<T>, x: T, less: (T, T) -> bool, weight: T -> nat)
    ensures Total(Inserted(s, x, less), weight) == Total(s, weight) + weight(x)
  {
    if s != [] && less(x, s[|s| - 1]) {
      InsertedTotal(s[..|s| - 1], x, less, weight);
      var rest := Inserted(s[..|s| - 1], x, less);
      assert (rest + [s[|s| - 1]])[..|rest|] == rest;
    } else {
      assert (s + [x])[..|s|] == s;
    }
  }

  lemma {:induction false} SortedTotal<T>(s: seq<T>, less: (T, T) -> bool, weight: T -> nat)
    ensures Total(Sorted(s, less), weight) == Total(s, weight)
  {
    if s != [] {
      SortedTotal(s[..|s| - 1], less, weight);
      InsertedTotal(Sorted(s[..|s| - 1], less), s[|s| - 1], less, weight);
    }
  }

  lemma {:induction false} TotalConcat<T>(a: seq<T>, b: seq<T>, weight: T -> nat)
    ensures Total(a + b, weight) == Total(a, weight) + Total(b, weight)
  {
    if b == [] {
      assert a + b == a;
    } else {
      TotalConcat(a, b[..|b| - 1], weight);
      assert (a + b)[..|a + b| - 1] == a + b[..|b| - 1];
    }
  }

  lemma SameMembers<T>(s: seq<T>, less: (T, T) -> bool)
    ensures forall x :: x in Sorted(s, less) <==> x in s
  {
    SortedIsPermutation(s, less);
    forall x
      ensures x in Sorted(s, less) <==> x in s
    {
      assert x in Sorted(s, less) <==> x in multiset(Sorted(s, less));
      assert x in s <==> x in multiset(s);
    }
  }

  /** What a comparison function must be for a sort by it to mean anything. */
  ghost predicate StrictWeakOrder<T(!new)>(less: (T, T) -> bool) {
    && (forall x, y :: less(x, y) ==> !less(y, x))
    && forall x, y, z :: less(x, z) ==> less(x, y) || less(y, z)
  }

  ghost predicate Ordered<T>(s: seq<T>, less: (T, T) -> bool) {
    forall i, j :: 0 <= i < j < |s| ==> !less(s[j], s[i])
  }

  lemma {:induction false} InsertedIsOrdered<T(!new)>(s: seq<T>, x: T, less: (T, T) -> bool)
    requires StrictWeakOrder(less) && Ordered(s, less)
    ensures Ordered(Inserted(s, x, less), less)
  {
    if s == [] || !less(x, s[|s| - 1]) {
      forall i | 0 <= i < |s|
        ensures !less(x, s[i])
      {
        assert i < |s| - 1 ==> !less(s[|s| - 1], s[i]);
      }
    } else {
      var init, last := s[..|s| - 1], s[|s| - 1];
      InsertedIsOrdered(init, x, less);
      InsertedIsPermutation(init, x, less);
      var rest := Inserted(init, x, less);
      forall i | 0 <= i < |rest|
        ensures !less(last, rest[i])
      {
        assert rest[i] in multiset(rest);
        if rest[i] != x {
          assert rest[i] in init;
        }
      }
    }
  }

  lemma {:induction false} SortedIsOrdered<T(!new)>(s: seq<T>, less: (T, T) -> bool)
    requires StrictWeakOrder(less)
    ensures Ordered(Sorted(s, less), less)
  {
    if s != [] {
      SortedIsOrdered(s[..|s| - 1], less);
      InsertedIsOrdered(Sorted(s[..|s| - 1], less), s[|s| - 1], less);
    }
  }
}

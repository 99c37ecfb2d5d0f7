/**
 * First-occurrence de-duplication, shared by JavaScript's `[...new Set(xs)]`
 * and PHP's `array_unique` (both keep the first occurrence of each value, in
 * the original order).
 */
module Dedup {

  predicate NoDuplicates<T(==)>(xs: seq<T>) {
    forall i, j :: 0 <= i < j < |xs| ==> xs[i] != xs[j]
  }

  /** The elements of `xs` not in `seen`, each kept at its first occurrence. */
  function UniqueFrom<T(==)>(xs: seq<T>, seen: set<T>): seq<T> {
    if xs == [] then []
    else if xs[0] in seen then UniqueFrom(xs[1..], seen)
    else [xs[0]] + UniqueFrom(xs[1..], seen + {xs[0]})
  }

  function Unique<T(==)>(xs: seq<T>): seq<T> {
    UniqueFrom(xs, {})
  }

  lemma {:induction false} UniqueFromMembers<T>(xs: seq<T>, seen: set<T>)
    ensures forall x :: x in UniqueFrom(xs, seen) <==> x in xs && x !in seen
  {
    if xs != [] {
      UniqueFromMembers(xs[1..], seen);
      UniqueFromMembers(xs[1..], seen + {xs[0]});
      assert forall x :: x in xs <==> x == xs[0] || x in xs[1..];
    }
  }

  lemma {:induction false} UniqueFromNoDuplicates<T>(xs: seq<T>, seen: set<T>)
    ensures NoDuplicates(UniqueFrom(xs, seen))
  {
    if xs != [] && xs[0] !in seen {
      var rest := UniqueFrom(xs[1..], seen + {xs[0]});
      UniqueFromNoDuplicates(xs[1..], seen + {xs[0]});
      UniqueFromMembers(xs[1..], seen + {xs[0]});
      assert xs[0] !in rest;
    } else if xs != [] {
      UniqueFromNoDuplicates(xs[1..], seen);
    }
  }

  /** Unique(xs) lists each element of `xs` exactly once. */
  lemma UniqueIsDeduplication<T>(xs: seq<T>)
    ensures NoDuplicates(Unique(xs))
    ensures forall x :: x in Unique(xs) <==> x in xs
  {
    UniqueFromNoDuplicates(xs, {});
    UniqueFromMembers(xs, {});
  }

  lemma {:induction false} UniqueFromAppend<T>(xs: seq<T>, ys: seq<T>, seen: set<T>)
    ensures UniqueFrom(xs + ys, seen) == UniqueFrom(xs, seen) + UniqueFrom(ys, seen + set x | x in xs)
  {
    if xs == [] {
      assert xs + ys == ys;
      assert (set x | x in xs) == {};
      assert seen + {} == seen;
    } else {
      assert (xs + ys)[1..] == xs[1..] + ys;
      assert (xs + ys)[0] == xs[0];
      if xs[0] in seen {
        UniqueFromAppend(xs[1..], ys, seen);
        assert seen + (set x | x in xs[1..]) == seen + (set x | x in xs);
      } else {
        UniqueFromAppend(xs[1..], ys, seen + {xs[0]});
        assert seen + {xs[0]} + (set x | x in xs[1..]) == seen + (set x | x in xs);
      }
    }
  }

  /**
   * De-duplicating a concatenation keeps the de-duplicated first part as a
   * prefix and then adds only the elements of the second part not seen before.
   */
  lemma UniqueAppend<T>(xs: seq<T>, ys: seq<T>)
    ensures Unique(xs + ys) == Unique(xs) + UniqueFrom(ys, set x | x in xs)
  {
    UniqueFromAppend(xs, ys, {});
    assert {} + (set x | x in xs) == set x | x in xs;
  }

  lemma {:induction false} UniqueFromOfDistinct<T>(xs: seq<T>, seen: set<T>)
    requires NoDuplicates(xs)
    requires forall x :: x in xs ==> x !in seen
    ensures UniqueFrom(xs, seen) == xs
  {
    if xs != [] {
      var tail := xs[1..];
      assert NoDuplicates(tail) by {
        forall i, j | 0 <= i < j < |tail| ensures tail[i] != tail[j] {
          assert tail[i] == xs[i + 1] && tail[j] == xs[j + 1];
        }
      }
      forall x | x in tail ensures x !in seen + {xs[0]} {
        var k :| 0 <= k < |tail| && tail[k] == x;
        assert xs[k + 1] == x;
        assert x in xs;
      }
      UniqueFromOfDistinct(tail, seen + {xs[0]});
    }
  }

  /** A list without duplicates is left as it is. */
  lemma UniqueOfDistinct<T>(xs: seq<T>)
    requires NoDuplicates(xs)
    ensures Unique(xs) == xs
  {
    UniqueFromOfDistinct(xs, {});
  }

  /** The loop the source's de-duplication runs, proved against Unique. */
  method Deduplicate<T(==)>(xs: seq<T>) returns (r: seq<T>)
    ensures r == Unique(xs)
    ensures NoDuplicates(r)
  {
    r := [];
    var seen: set<T> := {};
    var i := 0;
    while i < |xs|
      invariant 0 <= i <= |xs|
      invariant r + UniqueFrom(xs[i..], seen) == Unique(xs)
    {
      assert xs[i..][1..] == xs[i + 1..];
      if xs[i] !in seen {
        r := r + [xs[i]];
        seen := seen + {xs[i]};
      }
      i := i + 1;
    }
    assert xs[i..] == [];
    UniqueIsDeduplication(xs);
  }
}

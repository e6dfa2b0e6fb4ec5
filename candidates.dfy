/**
 * Completion candidates: the `(display, actual)` tuples a completer cycles
 * through, the order Python's tuple comparison puts them in, and the sort
 * that `lookup.sort()` performs.
 */
module Candidates {
  import opened Text

  /** One `(display, actual)` tuple: what the user sees and what is meant. */
  datatype Candidate = Candidate(display: string, actual: string)

  /**
   * Python's `<=` on 2-tuples of strings: by display, ties broken by actual.
   * A tuple is never above one with a greater display, and one with a
   * strictly smaller display is below whatever the actual halves are.
   */
  function CandLe(x: Candidate, y: Candidate): (r: bool)
    ensures r ==> StrLe(x.display, y.display)
    ensures StrLe(x.display, y.display) && !StrLe(y.display, x.display) ==> r
  {
    StrLeReflexive(x.display);
    if x.display != y.display then StrLe(x.display, y.display) else StrLe(x.actual, y.actual)
  }

  lemma CandLeReflexive(x: Candidate)
    ensures CandLe(x, x)
  {
    StrLeReflexive(x.actual);
  }

  lemma CandLeTotal(x: Candidate, y: Candidate)
    ensures CandLe(x, y) || CandLe(y, x)
  {
    StrLeTotal(x.display, y.display);
    StrLeTotal(x.actual, y.actual);
  }

  lemma CandLeTransitive(x: Candidate, y: Candidate, z: Candidate)
    requires CandLe(x, y) && CandLe(y, z)
    ensures CandLe(x, z)
  {
    if x.display == y.display && y.display == z.display {
      StrLeTransitive(x.actual, y.actual, z.actual);
    } else if x.display == y.display {
    } else if y.display == z.display {
    } else {
      StrLeTransitive(x.display, y.display, z.display);
      if x.display == z.display {
        StrLeAntisymmetric(x.display, y.display);
      }
    }
  }

  lemma CandLeAntisymmetric(x: Candidate, y: Candidate)
    requires CandLe(x, y) && CandLe(y, x)
    ensures x == y
  {
    if x.display != y.display {
      StrLeAntisymmetric(x.display, y.display);
    } else {
      StrLeAntisymmetric(x.actual, y.actual);
    }
  }

  /** Every earlier element is `<=` every later one. */
  predicate Sorted(s: seq<Candidate>)
  {
    forall i, j :: 0 <= i < j < |s| ==> CandLe(s[i], s[j])
  }

  /** `y` is `<=` every element of `s`. */
  predicate LowerBound(y: Candidate, s: seq<Candidate>)
  {
    forall k :: 0 <= k < |s| ==> CandLe(y, s[k])
  }

  /** Places `x` into the sorted `s` after every element smaller than it. */
  function Insert(x: Candidate, s: seq<Candidate>): (r: seq<Candidate>)
    requires Sorted(s)
    ensures multiset(r) == multiset(s) + multiset{x}
    ensures Sorted(r)
  {
    if s == [] then [x]
    else if CandLe(x, s[0]) then
      assert LowerBound(x, s) by {
        forall k | 0 < k < |s| ensures CandLe(x, s[k]) {
          CandLeTransitive(x, s[0], s[k]);
        }
      }
      LowerBoundSorted(x, s);
      [x] + s
    else
      var rest := Insert(x, s[1..]);
      CandLeTotal(x, s[0]);
      assert LowerBound(s[0], rest) by {
        forall k | 0 <= k < |rest| ensures CandLe(s[0], rest[k]) {
          assert rest[k] in multiset(rest);
          if rest[k] != x {
            assert rest[k] in multiset(s[1..]);
            var j :| 0 <= j < |s[1..]| && s[1..][j] == rest[k];
            assert s[1..][j] == s[j + 1];
          }
        }
      }
      assert s == [s[0]] + s[1..];
      LowerBoundSorted(s[0], rest);
      [s[0]] + rest
  }

  /** A lower bound of a sorted sequence can be put in front of it. */
  lemma LowerBoundSorted(y: Candidate, s: seq<Candidate>)
    requires Sorted(s) && LowerBound(y, s)
    ensures Sorted([y] + s)
  {
    var r := [y] + s;
    forall i, j | 0 <= i < j < |r| ensures CandLe(r[i], r[j]) {
      if i > 0 {
        assert r[i] == s[i - 1] && r[j] == s[j - 1];
      } else {
        assert r[j] == s[j - 1];
      }
    }
  }

  /** `list.sort()`: a sorted permutation of its argument. */
  function Sort(s: seq<Candidate>): (r: seq<Candidate>)
    ensures multiset(r) == multiset(s)
    ensures |r| == |s|
    ensures Sorted(r)
  {
    if s == [] then []
    else
      assert s == [s[0]] + s[1..];
      Insert(s[0], Sort(s[1..]))
  }

  /**
   * Two sorted sequences holding the same elements are equal: the sorted
   * result does not depend on the order the elements arrived in.
   */
  lemma {:induction false} SortedUnique(a: seq<Candidate>, b: seq<Candidate>)
    requires Sorted(a) && Sorted(b)
    requires multiset(a) == multiset(b)
    ensures a == b
  {
    if a == [] {
      assert |b| == |multiset(b)| == 0;
    } else {
      SameHeads(a, b);
      SortedUnique(a[1..], b[1..]);
      assert a == [a[0]] + a[1..];
      assert b == [b[0]] + b[1..];
    }
  }

  /** Two non-empty sorted sequences with the same elements share their head, and their tails agree in turn. */
  lemma SameHeads(a: seq<Candidate>, b: seq<Candidate>)
    requires Sorted(a) && Sorted(b) && a != []
    requires multiset(a) == multiset(b)
    ensures b != [] && a[0] == b[0]
    ensures Sorted(a[1..]) && Sorted(b[1..]) && multiset(a[1..]) == multiset(b[1..])
  {
    assert |b| == |multiset(b)| == |multiset(a)| > 0;
    HeadIsLeast(a, b[0]);
    HeadIsLeast(b, a[0]);
    CandLeAntisymmetric(a[0], b[0]);
    RestMultiset(a);
    RestMultiset(b);
    SortedTail(a);
    SortedTail(b);
  }

  lemma SortedTail(s: seq<Candidate>)
    requires Sorted(s) && s != []
    ensures Sorted(s[1..])
  {
    forall i, j | 0 <= i < j < |s| - 1 ensures CandLe(s[1..][i], s[1..][j]) {
      assert s[1..][i] == s[i + 1] && s[1..][j] == s[j + 1];
    }
  }

  /** The head of a sorted sequence is `<=` each of its elements. */
  lemma HeadIsLeast(s: seq<Candidate>, x: Candidate)
    requires Sorted(s) && x in multiset(s)
    ensures CandLe(s[0], x)
  {
    var j :| 0 <= j < |s| && s[j] == x;
    if j == 0 {
      CandLeReflexive(x);
    }
  }

  /** Dropping the head removes one copy of it. */
  lemma RestMultiset(s: seq<Candidate>)
    requires s != []
    ensures multiset(s[1..]) == multiset(s) - multiset{s[0]}
  {
    assert s == [s[0]] + s[1..];
  }

  /** Sorting depends only on which elements there are, not on their order. */
  lemma SortIgnoresOrder(a: seq<Candidate>, b: seq<Candidate>)
    requires multiset(a) == multiset(b)
    ensures Sort(a) == Sort(b)
  {
    SortedUnique(Sort(a), Sort(b));
  }
}

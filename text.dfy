/**
 * The string operations the prompt relies on, with Python 2 `str` semantics
 * restricted to 7-bit text: `lower()`, `startswith`, clamped slicing, and the
 * code-point order that `<` and `list.sort()` use on strings.
 */
module Text {

  /** `c.lower()` for one character: only 'A'..'Z' change. */
  function LowerChar(c: char): (r: char)
    ensures !('A' <= r <= 'Z')
    ensures !('A' <= c <= 'Z') ==> r == c
    ensures 'A' <= c <= 'Z' ==> 'a' <= r <= 'z' && r as int - c as int == 'a' as int - 'A' as int
  {
    if 'A' <= c <= 'Z' then (c as int - 'A' as int + 'a' as int) as char else c
  }

  /** `s.lower()`. */
  function Lower(s: string): (r: string)
    ensures |r| == |s|
    ensures forall i :: 0 <= i < |s| ==> r[i] == LowerChar(s[i])
  {
    seq(|s|, i requires 0 <= i < |s| => LowerChar(s[i]))
  }

  /** Lower-casing twice is lower-casing once. */
  lemma LowerIdempotent(s: string)
    ensures Lower(Lower(s)) == Lower(s)
  {
    assert forall i :: 0 <= i < |s| ==> Lower(Lower(s))[i] == Lower(s)[i];
  }

  /** `s.startswith(p)`: `p` is no longer than `s` and agrees with it character by character. */
  function StartsWith(s: string, p: string): (r: bool)
    ensures r <==> |p| <= |s| && forall i :: 0 <= i < |p| ==> s[i] == p[i]
  {
    |p| <= |s| && s[..|p|] == p
  }

  /** `s[:n]` for a non-negative `n`: Python clamps the bound to the length. */
  function Take(s: string, n: nat): (r: string)
    ensures |r| == if n <= |s| then n else |s|
    ensures StartsWith(s, r)
  {
    if n <= |s| then s[..n] else s
  }

  /**
   * `a <= b` on Python strings: lexicographic on code points, a proper
   * prefix sorting first.
   */
  function StrLe(a: string, b: string): (r: bool)
    ensures StartsWith(b, a) ==> r
    ensures r && a != [] ==> b != [] && a[0] <= b[0]
  {
    if a == [] then true
    else if b == [] then false
    else if a[0] != b[0] then a[0] < b[0]
    else StrLe(a[1..], b[1..])
  }

  /** Position `i` is where `a` and `b` first differ, with `a` the smaller there. */
  predicate FirstDiffBelow(a: string, b: string, i: int)
  {
    0 <= i < |a| && i < |b| && a[..i] == b[..i] && a[i] < b[i]
  }

  /**
   * The order is the lexicographic one: `a <= b` exactly when `a` is a
   * prefix of `b` or, at the first position where they differ, `a` has the
   * smaller character.
   */
  lemma {:induction false} StrLeLexicographic(a: string, b: string)
    ensures StrLe(a, b) <==> StartsWith(b, a) || exists i :: FirstDiffBelow(a, b, i)
  {
    if a == [] || b == [] {
    } else if a[0] != b[0] {
      if a[0] < b[0] {
        assert FirstDiffBelow(a, b, 0);
      }
    } else {
      StrLeLexicographic(a[1..], b[1..]);
      assert StartsWith(b, a) <==> StartsWith(b[1..], a[1..]) by {
        if StartsWith(b[1..], a[1..]) {
          assert forall i :: 1 <= i < |a| ==> b[i] == b[1..][i - 1];
        }
      }
      if j :| FirstDiffBelow(a[1..], b[1..], j) {
        assert a[..j + 1] == [a[0]] + a[1..][..j];
        assert b[..j + 1] == [b[0]] + b[1..][..j];
        assert FirstDiffBelow(a, b, j + 1);
      }
      if i :| FirstDiffBelow(a, b, i) {
        assert i > 0;
        assert a[1..][..i - 1] == a[..i][1..];
        assert b[1..][..i - 1] == b[..i][1..];
        assert FirstDiffBelow(a[1..], b[1..], i - 1);
      }
    }
  }

  lemma {:induction false} StrLeReflexive(a: string)
    ensures StrLe(a, a)
  {
    if a != [] {
      StrLeReflexive(a[1..]);
    }
  }

  lemma {:induction false} StrLeTotal(a: string, b: string)
    ensures StrLe(a, b) || StrLe(b, a)
  {
    if a != [] && b != [] && a[0] == b[0] {
      StrLeTotal(a[1..], b[1..]);
    }
  }

  lemma {:induction false} StrLeTransitive(a: string, b: string, c: string)
    requires StrLe(a, b) && StrLe(b, c)
    ensures StrLe(a, c)
  {
    if a != [] && b != [] && c != [] && a[0] == b[0] && b[0] == c[0] {
      StrLeTransitive(a[1..], b[1..], c[1..]);
    }
  }

  lemma {:induction false} StrLeAntisymmetric(a: string, b: string)
    requires StrLe(a, b) && StrLe(b, a)
    ensures a == b
  {
    if a != [] && b != [] {
      StrLeAntisymmetric(a[1..], b[1..]);
      assert a == [a[0]] + a[1..];
      assert b == [b[0]] + b[1..];
    }
  }
}

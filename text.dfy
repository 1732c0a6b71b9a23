/**
 * Strings as Python treats them: the substring test behind `sub in text`
 * and the code-point order behind `<=` on str; and in-order selections from
 * lists of strings.
 */
module Text {

  /** `p` occurs in `s` starting at index `i`. */
  predicate OccursAt(s: string, p: string, i: nat)
  {
    i + |p| <= |s| && s[i..i + |p|] == p
  }

  /** Python's `p in s` for two strings: case-sensitive substring test. */
  predicate Contains(s: string, p: string)
  {
    exists i: nat | i <= |s| :: OccursAt(s, p, i)
  }

  /** A witness position is enough to show containment. */
  lemma ContainsAt(s: string, p: string, i: nat)
    requires i + |p| <= |s| && s[i..i + |p|] == p
    ensures Contains(s, p)
  {
    assert OccursAt(s, p, i);
  }

  /** A pattern longer than the text never occurs in it. */
  lemma TooLongNotContained(s: string, p: string)
    requires |p| > |s|
    ensures !Contains(s, p)
  {
  }

  /**
   * Python's `a <= b` on str: lexicographic order on code points, a proper
   * prefix coming first.
   */
  predicate LexLe(a: string, b: string)
    decreases |a|
  {
    |a| == 0 || (|b| > 0 && (a[0] < b[0] || (a[0] == b[0] && LexLe(a[1..], b[1..]))))
  }

  /** Any two strings are ordered one way or the other. */
  lemma {:induction false} LexLeTotal(a: string, b: string)
    ensures LexLe(a, b) || LexLe(b, a)
    decreases |a|
  {
    if |a| > 0 && |b| > 0 && a[0] == b[0] {
      LexLeTotal(a[1..], b[1..]);
    }
  }

  /** The order is transitive, so sorting by it is well defined. */
  lemma {:induction false} LexLeTransitive(a: string, b: string, c: string)
    requires LexLe(a, b) && LexLe(b, c)
    ensures LexLe(a, c)
    decreases |a|
  {
    if |a| > 0 && a[0] == b[0] && b[0] == c[0] {
      LexLeTransitive(a[1..], b[1..], c[1..]);
    }
  }

  // ---- lists of strings ----

  /** `xs` appears in `ys` in the same order, possibly with gaps. */
  predicate IsSubsequence(xs: seq<string>, ys: seq<string>)
    decreases |ys|
  {
    xs == [] || (ys != [] && ((xs[0] == ys[0] && IsSubsequence(xs[1..], ys[1..])) || IsSubsequence(xs, ys[1..])))
  }

  /** No value occurs twice. */
  predicate Distinct(xs: seq<string>)
  {
    forall i, j :: 0 <= i < j < |xs| ==> xs[i] != xs[j]
  }

  /** Whatever is selected comes from the list selected from. */
  lemma {:induction false} SubsequenceMembers(xs: seq<string>, ys: seq<string>, x: string)
    requires IsSubsequence(xs, ys) && x in xs
    ensures x in ys
    decreases |ys|
  {
    if xs[0] == ys[0] && IsSubsequence(xs[1..], ys[1..]) {
      if x != xs[0] {
        SubsequenceMembers(xs[1..], ys[1..], x);
      }
    } else {
      SubsequenceMembers(xs, ys[1..], x);
    }
  }

  /** An in-order selection from a list without repeats has no repeats. */
  lemma {:induction false} SubsequenceOfDistinct(xs: seq<string>, ys: seq<string>)
    requires IsSubsequence(xs, ys) && Distinct(ys)
    ensures Distinct(xs)
    decreases |ys|
  {
    if xs != [] {
      assert Distinct(ys[1..]) by {
        forall i, j | 0 <= i < j < |ys[1..]| ensures ys[1..][i] != ys[1..][j] {
          assert ys[1..][i] == ys[i + 1] && ys[1..][j] == ys[j + 1];
        }
      }
      if xs[0] == ys[0] && IsSubsequence(xs[1..], ys[1..]) {
        SubsequenceOfDistinct(xs[1..], ys[1..]);
        forall j | 0 < j < |xs| ensures xs[0] != xs[j] {
          assert xs[j] == xs[1..][j - 1];
          SubsequenceMembers(xs[1..], ys[1..], xs[j]);
          var k :| 0 <= k < |ys[1..]| && ys[1..][k] == xs[j];
          assert ys[k + 1] == xs[j];
        }
        forall i, j | 0 <= i < j < |xs| ensures xs[i] != xs[j] {
          if i > 0 {
            assert xs[i] == xs[1..][i - 1] && xs[j] == xs[1..][j - 1];
          }
        }
      } else {
        SubsequenceOfDistinct(xs, ys[1..]);
      }
    }
  }

  /** Within a list without repeats, a value occurs at most once. */
  lemma {:induction false} DistinctCountsOnce(xs: seq<string>, x: string)
    requires Distinct(xs)
    ensures multiset(xs)[x] <= 1
  {
    if xs != [] {
      assert xs == [xs[0]] + xs[1..];
      assert Distinct(xs[1..]) by {
        forall i, j | 0 <= i < j < |xs[1..]| ensures xs[1..][i] != xs[1..][j] {
          assert xs[1..][i] == xs[i + 1] && xs[1..][j] == xs[j + 1];
        }
      }
      DistinctCountsOnce(xs[1..], x);
      if xs[0] == x {
        assert x !in xs[1..] by {
          forall j | 0 <= j < |xs[1..]| ensures xs[1..][j] != x {
            assert xs[1..][j] == xs[j + 1];
          }
        }
      }
    }
  }
}

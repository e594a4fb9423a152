/**
 * Python's ordering of `str` values, which is the order pandas uses to sort
 * the `Date` column and to order the keys of a `groupby`: code point by code
 * point, and a proper prefix before any longer string.
 */
module Lex {

  /** `a <= b` on Python strings. */
  predicate LexLe(a: string, b: string)
  {
    if |a| == 0 then true
    else if |b| == 0 then false
    else if a[0] != b[0] then a[0] < b[0]
    else LexLe(a[1..], b[1..])
  }

  /** `a < b` on Python strings. */
  predicate LexLt(a: string, b: string)
  {
    LexLe(a, b) && a != b
  }

  lemma {:induction false} LeReflexive(a: string)
    ensures LexLe(a, a)
  {
    if |a| > 0 {
      LeReflexive(a[1..]);
    }
  }

  lemma {:induction false} LeTotal(a: string, b: string)
    ensures LexLe(a, b) || LexLe(b, a)
  {
    if |a| > 0 && |b| > 0 && a[0] == b[0] {
      LeTotal(a[1..], b[1..]);
    }
  }

  lemma {:induction false} LeAntisymmetric(a: string, b: string)
    requires LexLe(a, b) && LexLe(b, a)
    ensures a == b
  {
    if |a| > 0 && |b| > 0 {
      LeAntisymmetric(a[1..], b[1..]);
      assert a == [a[0]] + a[1..];
      assert b == [b[0]] + b[1..];
    }
  }

  lemma {:induction false} LeTransitive(a: string, b: string, c: string)
    requires LexLe(a, b) && LexLe(b, c)
    ensures LexLe(a, c)
  {
    if |a| > 0 && a[0] == b[0] && b[0] == c[0] {
      LeTransitive(a[1..], b[1..], c[1..]);
    }
  }

  lemma LtTransitive(a: string, b: string, c: string)
    requires LexLt(a, b) && LexLt(b, c)
    ensures LexLt(a, c)
  {
    LeTransitive(a, b, c);
    if a == c {
      LeAntisymmetric(a, b);
    }
  }

  /** Strings are totally ordered: `a < b` exactly when not `b <= a`. */
  lemma LtIffNotLe(a: string, b: string)
    ensures LexLt(a, b) <==> !LexLe(b, a)
  {
    LeTotal(a, b);
    LeReflexive(a);
    if LexLe(a, b) && LexLe(b, a) {
      LeAntisymmetric(a, b);
    }
  }

  /**
   * Comparing two strings that begin with pieces of the same length: the
   * first pieces decide unless they are equal.
   */
  lemma {:induction false} LeConcat(a1: string, b1: string, a2: string, b2: string)
    requires |a1| == |a2|
    ensures LexLe(a1 + b1, a2 + b2) == if a1 == a2 then LexLe(b1, b2) else LexLe(a1, a2)
  {
    if |a1| == 0 {
      assert a1 + b1 == b1 && a2 + b2 == b2;
    } else {
      assert (a1 + b1)[0] == a1[0] && (a2 + b2)[0] == a2[0];
      assert (a1 + b1)[1..] == a1[1..] + b1;
      assert (a2 + b2)[1..] == a2[1..] + b2;
      LeConcat(a1[1..], b1, a2[1..], b2);
      assert a1 == [a1[0]] + a1[1..];
      assert a2 == [a2[0]] + a2[1..];
    }
  }
}

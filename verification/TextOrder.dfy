/** Dictionary order on texts, the last tie-break of a vote. */
module TextOrder {

  predicate AtMost(a: string, b: string)
  {
    a == [] || (b != [] && (a[0] < b[0] || (a[0] == b[0] && AtMost(a[1..], b[1..]))))
  }

  lemma {:induction false} AtMostTotal(a: string, b: string)
    ensures AtMost(a, b) || AtMost(b, a)
  {
    if a != [] && b != [] {
      AtMostTotal(a[1..], b[1..]);
    }
  }

  lemma {:induction false} AtMostAntisymmetric(a: string, b: string)
    requires AtMost(a, b) && AtMost(b, a)
    ensures a == b
  {
    if a != [] && b != [] {
      AtMostAntisymmetric(a[1..], b[1..]);
      assert a == [a[0]] + a[1..] && b == [b[0]] + b[1..];
    }
  }

  lemma {:induction false} AtMostTransitive(a: string, b: string, c: string)
    requires AtMost(a, b) && AtMost(b, c)
    ensures AtMost(a, c)
  {
    if a != [] && b != [] && c != [] && a[0] == b[0] == c[0] {
      AtMostTransitive(a[1..], b[1..], c[1..]);
    }
  }

  /** The texts differ first at place i, and a has the smaller character there. */
  ghost predicate SmallerAt(a: string, b: string, i: int)
  {
    0 <= i < |a| && i < |b| && a[i] < b[i] && forall k | 0 <= k < i :: a[k] == b[k]
  }

  /** In dictionary order a comes no later than b: it is a prefix, or smaller where they first differ. */
  lemma {:induction false} AtMostMeaning(a: string, b: string)
    ensures AtMost(a, b) <==> a <= b || exists i :: SmallerAt(a, b, i)
  {
    if a != [] && b != [] {
      var s, t := a[1..], b[1..];
      AtMostMeaning(s, t);
      if a[0] < b[0] {
        assert SmallerAt(a, b, 0);
      } else if a[0] == b[0] {
        assert a == [a[0]] + s && b == [b[0]] + t;
        if s <= t {
          assert t == s + t[|s|..];
          assert b == a + t[|s|..];
        }
        if i :| SmallerAt(s, t, i) {
          assert forall k | 0 < k < i + 1 :: a[k] == s[k - 1] == t[k - 1] == b[k];
          assert SmallerAt(a, b, i + 1);
        }
        if i :| SmallerAt(a, b, i) {
          assert SmallerAt(s, t, i - 1);
        }
      }
    }
  }
}

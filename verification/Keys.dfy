/** Object keys and their order.

A key is a byte string; a `char` of the model is one byte of the key, and keys are compared the
way Go compares strings: byte by byte, a proper prefix being smaller. */
module Keys {

  type Key = string

  /** `a < b` in the byte order of Go strings. */
  predicate Less(a: Key, b: Key) {
    b != [] && (a == [] || a[0] < b[0] || (a[0] == b[0] && Less(a[1..], b[1..])))
  }

  /** Nothing precedes itself. */
  lemma LessIrreflexive(a: Key)
    ensures !Less(a, a)
  {
  }

  lemma {:induction false} LessTransitive(a: Key, b: Key, c: Key)
    requires Less(a, b) && Less(b, c)
    ensures Less(a, c)
  {
    if a != [] && a[0] == b[0] && b[0] == c[0] {
      LessTransitive(a[1..], b[1..], c[1..]);
    }
  }

  lemma {:induction false} LessTotal(a: Key, b: Key)
    ensures Less(a, b) || a == b || Less(b, a)
  {
    if a != [] && b != [] && a[0] == b[0] {
      LessTotal(a[1..], b[1..]);
      assert a == [a[0]] + a[1..] && b == [b[0]] + b[1..];
    }
  }

  lemma LessAsymmetric(a: Key, b: Key)
    requires Less(a, b)
    ensures !Less(b, a) && a != b
  {
    LessIrreflexive(a);
    if Less(b, a) {
      LessTransitive(a, b, a);
    }
  }

  /** `strings.HasPrefix(k, p)`. */
  predicate HasPrefix(k: Key, p: Key) {
    p <= k
  }

  lemma {:induction false} PrefixNotGreater(p: Key, k: Key)
    requires HasPrefix(k, p)
    ensures p == k || Less(p, k)
  {
    if p != [] {
      PrefixNotGreater(p[1..], k[1..]);
    }
  }

  /** Everything under a prefix compares with a key outside it the way the prefix itself does. */
  lemma {:induction false} OutsidePrefix(p: Key, k: Key, x: Key)
    requires HasPrefix(k, p) && !HasPrefix(x, p)
    ensures Less(p, x) ==> Less(k, x)
    ensures Less(x, p) ==> Less(x, k)
  {
    if x != [] && p != [] && p[0] == x[0] {
      assert p[1..] <= k[1..];
      assert !(p[1..] <= x[1..]) by {
        assert p == [p[0]] + p[1..] && x == [x[0]] + x[1..];
      }
      OutsidePrefix(p[1..], k[1..], x[1..]);
    }
  }
}

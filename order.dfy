/**
 * Go's `<` on strings, which Go compares byte by byte.  On UTF-8 this is the
 * same as comparing code points one by one, which is what `Less` does.
 */
module Order {
  /** `a < b` in Go: a proper prefix is smaller, otherwise the first difference decides. */
  predicate Less(a: string, b: string)
    ensures Less(a, b) ==> a != b
    ensures |a| < |b| && a == b[..|a|] ==> Less(a, b)
    decreases |a|
  {
    if a == [] then b != []
    else if b == [] then false
    else if a[0] != b[0] then a[0] < b[0]
    else Less(a[1..], b[1..])
  }

  lemma {:induction false} LessIrreflexive(a: string)
    ensures !Less(a, a)
    decreases |a|
  {
    if a != [] { LessIrreflexive(a[1..]); }
  }

  lemma {:induction false} LessTransitive(a: string, b: string, c: string)
    requires Less(a, b) && Less(b, c)
    ensures Less(a, c)
    decreases |a|
  {
    if a != [] && a[0] == b[0] && b[0] == c[0] {
      LessTransitive(a[1..], b[1..], c[1..]);
    }
  }

  /** Any two distinct strings are ordered one way, and not both. */
  lemma {:induction false} LessTotal(a: string, b: string)
    ensures a != b <==> (Less(a, b) || Less(b, a))
    ensures !(Less(a, b) && Less(b, a))
    decreases |a|
  {
    if a != [] && b != [] && a[0] == b[0] {
      LessTotal(a[1..], b[1..]);
      assert a == [a[0]] + a[1..] && b == [b[0]] + b[1..];
    } else if a == b {
      LessIrreflexive(a);
    }
  }
}

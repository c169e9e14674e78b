/** The string operations the core relies on: JavaScript's default string
    ordering (used by `Array.prototype.sort`), and the literal prefix and
    suffix tests, ignoring case, that the user-chat query performs. */
module Text {

  /** Strict lexicographic order, comparing character by character; a proper
      prefix sorts first. */
  predicate Less(a: string, b: string) {
    if b == [] then false
    else if a == [] then true
    else if a[0] != b[0] then a[0] < b[0]
    else Less(a[1..], b[1..])
  }

  predicate LessEq(a: string, b: string) {
    a == b || Less(a, b)
  }

  lemma {:induction false} LessIrreflexive(a: string)
    ensures !Less(a, a)
  {
    if a != [] {
      LessIrreflexive(a[1..]);
    }
  }

  lemma {:induction false} LessAsymmetric(a: string, b: string)
    ensures Less(a, b) ==> !Less(b, a)
  {
    if a != [] && b != [] && a[0] == b[0] {
      LessAsymmetric(a[1..], b[1..]);
    }
  }

  lemma {:induction false} LessTransitive(a: string, b: string, c: string)
    requires Less(a, b) && Less(b, c)
    ensures Less(a, c)
  {
    if a != [] && b != [] && c != [] && a[0] == b[0] && b[0] == c[0] {
      LessTransitive(a[1..], b[1..], c[1..]);
    }
  }

  lemma {:induction false} LessTotal(a: string, b: string)
    ensures a == b || Less(a, b) || Less(b, a)
  {
    if a != [] && b != [] && a[0] == b[0] {
      LessTotal(a[1..], b[1..]);
      if a[1..] == b[1..] {
        assert a == [a[0]] + a[1..] && b == [b[0]] + b[1..];
      }
    }
  }

  /** ASCII case folding: upper-case letters map to lower-case ones. */
  function Fold(c: char): char {
    if 'A' <= c <= 'Z' then (c as int + 32) as char else c
  }

  predicate SameIgnoringCase(a: string, b: string) {
    |a| == |b| && forall i :: 0 <= i < |a| ==> Fold(a[i]) == Fold(b[i])
  }

  /** `p` matches the beginning of `s`, ignoring case (the regex `^p` with flag `i`). */
  predicate StartsWithIgnoringCase(s: string, p: string) {
    |p| <= |s| && SameIgnoringCase(s[..|p|], p)
  }

  /** `p` matches the end of `s`, ignoring case (the regex `p$` with flag `i`). */
  predicate EndsWithIgnoringCase(s: string, p: string) {
    |p| <= |s| && SameIgnoringCase(s[|s| - |p|..], p)
  }
}

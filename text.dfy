/**
 * Text helpers shared by the frame-rate reader and the sensor rules.
 * Case folding is modelled for ASCII letters only.
 */
module Text {

  /** Upper-case of one character (ASCII letters only). */
  function UpperChar(c: char): char
  {
    if 'a' <= c <= 'z' then (c as int - 32) as char else c
  }

  /** `s.ToUpper()` / `ToUpperInvariant`, character by character. */
  function Upper(s: string): string
  {
    seq(|s|, k requires 0 <= k < |s| => UpperChar(s[k]))
  }

  /** `a.Equals(b, StringComparison.OrdinalIgnoreCase)`. */
  predicate EqualsIgnoreCase(a: string, b: string)
  {
    Upper(a) == Upper(b)
  }

  /** `sub` occurs in `s` starting at index `k`. */
  predicate OccursAt(s: string, sub: string, k: int)
  {
    0 <= k <= |s| - |sub| && s[k..k + |sub|] == sub
  }

  /** Ordinal `s.Contains(sub)`. */
  predicate Contains(s: string, sub: string)
  {
    exists k | 0 <= k <= |s| :: OccursAt(s, sub, k)
  }

  /** Ignoring case is an equivalence that differs from equality only in the case of letters. */
  lemma EqualsIgnoreCaseMeaning(a: string, b: string)
    ensures EqualsIgnoreCase(a, b) <==>
      |a| == |b| && forall k :: 0 <= k < |a| ==> UpperChar(a[k]) == UpperChar(b[k])
  {
    if |a| == |b| && forall k :: 0 <= k < |a| ==> UpperChar(a[k]) == UpperChar(b[k]) {
      assert forall k :: 0 <= k < |a| ==> Upper(a)[k] == Upper(b)[k];
    }
    if EqualsIgnoreCase(a, b) {
      assert |Upper(a)| == |a| && |Upper(b)| == |b|;
      forall k | 0 <= k < |a| ensures UpperChar(a[k]) == UpperChar(b[k]) {
        assert Upper(a)[k] == Upper(b)[k];
      }
    }
  }
}

/** Java's `String.equalsIgnoreCase`, as used to compare strategy names.
    Case folding covers the ASCII letters only: every strategy name is an
    upper-case ASCII word. */
module Text {

  function UpperAscii(c: char): char {
    if 'a' <= c <= 'z' then (c as int - 32) as char else c
  }

  function LowerAscii(c: char): char {
    if 'A' <= c <= 'Z' then (c as int + 32) as char else c
  }

  /** The per-character rule of `String.regionMatches` with case ignored:
      equal, equal once upper-cased, or equal once upper- then lower-cased. */
  predicate CharsMatchIgnoringCase(a: char, b: char) {
    || a == b
    || UpperAscii(a) == UpperAscii(b)
    || LowerAscii(UpperAscii(a)) == LowerAscii(UpperAscii(b))
  }

  /** `s.equalsIgnoreCase(t)` for a non-null `t`. */
  predicate EqualsIgnoreCase(s: string, t: string) {
    |s| == |t| && forall i :: 0 <= i < |s| ==> CharsMatchIgnoringCase(s[i], t[i])
  }

  /** The string upper-cased letter by letter: the reference the comparison is checked against. */
  function Upper(s: string): string {
    seq(|s|, i requires 0 <= i < |s| => UpperAscii(s[i]))
  }

  lemma CharsMatchIffSameUpper(a: char, b: char)
    ensures CharsMatchIgnoringCase(a, b) <==> UpperAscii(a) == UpperAscii(b)
  {
  }

  /** Ignoring case, two strings are equal exactly when their upper-cased forms are. */
  lemma EqualsIgnoreCaseIffSameUpper(s: string, t: string)
    ensures EqualsIgnoreCase(s, t) <==> Upper(s) == Upper(t)
  {
    if EqualsIgnoreCase(s, t) {
      forall i | 0 <= i < |s|
        ensures Upper(s)[i] == Upper(t)[i]
      {
        CharsMatchIffSameUpper(s[i], t[i]);
      }
    }
    if Upper(s) == Upper(t) {
      assert |s| == |Upper(s)| == |Upper(t)| == |t|;
      forall i | 0 <= i < |s|
        ensures CharsMatchIgnoringCase(s[i], t[i])
      {
        assert Upper(s)[i] == Upper(t)[i];
        CharsMatchIffSameUpper(s[i], t[i]);
      }
    }
  }
}

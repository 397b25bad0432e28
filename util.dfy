/** The static helper class `Util`: a minimum-content check on a nullable string. */
module Util {
  import opened Php

  /** `Util::hasContentString($to_check, $min_chars)`: false for null, otherwise whether
      `trim($to_check)` still has at least `min_chars` characters. */
  function HasContentString(toCheck: Option<string>, minChars: int := 0): (r: bool)
    ensures toCheck.None? ==> !r
    ensures r ==> toCheck.Some?
    ensures minChars <= 0 ==> (r <==> toCheck.Some?)
  {
    !(toCheck.None? || |Trim(toCheck.value)| < minChars)
  }

  /** `HasContentString` counts the characters left once the ends are stripped: given the
      infix `s[i..j]` that is bordered only by trim characters and neither starts nor ends
      with one, a string has content `m` exactly when that infix has at least `m` characters. */
  lemma {:induction false} HasContentStringInfix(s: string, m: int, i: nat, j: nat)
    requires i <= j <= |s| && AllTrimChars(s[..i]) && AllTrimChars(s[j..]) && IsTrimmed(s[i..j])
    ensures HasContentString(Some(s), m) <==> j - i >= m
  {
    TrimUnique(s, i, j);
  }

  /** With the default minimum of 0 every non-null string has content, even "" and "  ". */
  lemma DefaultMinimumAcceptsAnyString(s: string)
    ensures HasContentString(Some(s))
  {
  }

  /** Lowering the minimum never turns a true answer into a false one. */
  lemma HasContentStringMonotone(toCheck: Option<string>, m: int, m': int)
    requires m' <= m && HasContentString(toCheck, m)
    ensures HasContentString(toCheck, m')
  {
  }

  /** Surrounding whitespace does not matter: `hasContentString($s, $m) == hasContentString(trim($s), $m)`. */
  lemma {:induction false} HasContentStringTrimInvariant(s: string, m: int)
    ensures HasContentString(Some(s), m) == HasContentString(Some(Trim(s)), m)
  {
    TrimIdempotent(s);
  }
}

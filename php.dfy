/** The few PHP built-ins the page helper relies on, as pure functions.
    A PHP string is a byte string; here it is a `string` with one `char` per byte. */
module Php {

  /** A PHP argument that may be `null`. */
  datatype Option<T> = None | Some(value: T)

  /** The characters PHP's `trim` strips when no character list is given:
      space, tab, line feed, carriage return, NUL and vertical tab. */
  predicate IsTrimChar(c: char) {
    c == ' ' || c == '\t' || c == '\n' || c == '\r' || c == '\0' || c == '\U{B}'
  }

  /** Every character of `s` is one that `trim` strips. */
  predicate AllTrimChars(s: string) {
    forall k :: 0 <= k < |s| ==> IsTrimChar(s[k])
  }

  /** `s` neither starts nor ends with a character that `trim` strips. */
  predicate IsTrimmed(s: string) {
    s == [] || (!IsTrimChar(s[0]) && !IsTrimChar(s[|s| - 1]))
  }

  /** Strips leading trim characters: the longest suffix of `s` that does not start with one. */
  function TrimStart(s: string): (r: string)
    ensures |r| <= |s| && r == s[|s| - |r|..]
    ensures AllTrimChars(s[..|s| - |r|])
    ensures r == [] || !IsTrimChar(r[0])
  {
    if |s| > 0 && IsTrimChar(s[0]) then
      var r := TrimStart(s[1..]);
      assert s[..|s| - |r|] == [s[0]] + s[1..][..|s| - 1 - |r|];
      r
    else
      s
  }

  /** Strips trailing trim characters: the longest prefix of `s` that does not end with one. */
  function TrimEnd(s: string): (r: string)
    ensures |r| <= |s| && r == s[..|r|]
    ensures AllTrimChars(s[|r|..])
    ensures r == [] || !IsTrimChar(r[|r| - 1])
  {
    if |s| > 0 && IsTrimChar(s[|s| - 1]) then
      var r := TrimEnd(s[..|s| - 1]);
      assert s[|r|..] == s[..|s| - 1][|r|..] + [s[|s| - 1]];
      r
    else
      s
  }

  /** PHP `trim($s)`: the infix of `s` left after stripping trim characters from both ends. */
  function Trim(s: string): (r: string)
    ensures IsTrimmed(r)
    ensures |r| <= |s|
  {
    TrimEnd(TrimStart(s))
  }

  /** Stripping is idempotent: a trimmed string is left as it is. */
  lemma {:induction false} TrimOfTrimmed(s: string)
    requires IsTrimmed(s)
    ensures Trim(s) == s
  {
    assert TrimStart(s) == s;
    assert TrimEnd(s) == s;
  }

  /** `trim(trim($s)) == trim($s)`. */
  lemma {:induction false} TrimIdempotent(s: string)
    ensures Trim(Trim(s)) == Trim(s)
  {
    TrimOfTrimmed(Trim(s));
  }

  /** Unpacks `AllTrimChars` of a prefix into facts about `s` itself. */
  lemma PrefixTrimChars(s: string, a: nat)
    requires a <= |s| && AllTrimChars(s[..a])
    ensures forall k :: 0 <= k < a ==> IsTrimChar(s[k])
  {
    forall k | 0 <= k < a ensures IsTrimChar(s[k]) { assert s[..a][k] == s[k]; }
  }

  /** Unpacks `AllTrimChars` of a suffix into facts about `s` itself. */
  lemma SuffixTrimChars(s: string, b: nat)
    requires b <= |s| && AllTrimChars(s[b..])
    ensures forall k :: b <= k < |s| ==> IsTrimChar(s[k])
  {
    forall k | b <= k < |s| ensures IsTrimChar(s[k]) { assert s[b..][k - b] == s[k]; }
  }

  /** Where `Trim(s)` sits in `s`, with everything outside it stated character by character. */
  lemma TrimSpan(s: string) returns (i: nat, j: nat)
    ensures i <= j <= |s| && Trim(s) == s[i..j]
    ensures forall k :: 0 <= k < i ==> IsTrimChar(s[k])
    ensures forall k :: j <= k < |s| ==> IsTrimChar(s[k])
  {
    var t := TrimStart(s);
    var r := TrimEnd(t);
    i := |s| - |t|;
    j := i + |r|;
    assert t == s[i..];
    assert r == t[..|r|];
    assert t[..|r|] == s[i..j];
    PrefixTrimChars(s, i);
    assert s[j..] == t[|r|..];
    SuffixTrimChars(s, j);
  }

  /** Two spans of `s` whose outsides are all trim characters and whose end characters
      are not are the same span; an empty one is only possible when the other is empty. */
  lemma SpanUnique(s: string, i: nat, j: nat, i': nat, j': nat)
    requires i <= j <= |s| && i' <= j' <= |s|
    requires forall k :: 0 <= k < i ==> IsTrimChar(s[k])
    requires forall k :: j <= k < |s| ==> IsTrimChar(s[k])
    requires forall k :: 0 <= k < i' ==> IsTrimChar(s[k])
    requires forall k :: j' <= k < |s| ==> IsTrimChar(s[k])
    requires i < j ==> !IsTrimChar(s[i]) && !IsTrimChar(s[j - 1])
    requires i' < j' ==> !IsTrimChar(s[i']) && !IsTrimChar(s[j' - 1])
    ensures j - i == j' - i' && (i < j ==> i == i')
  {
  }

  /** `Trim`'s contract determines its result: any infix of `s` that is bordered only by
      trim characters and is itself trimmed is `Trim(s)`. */
  lemma {:induction false} TrimUnique(s: string, i: nat, j: nat)
    requires i <= j <= |s| && AllTrimChars(s[..i]) && AllTrimChars(s[j..]) && IsTrimmed(s[i..j])
    ensures Trim(s) == s[i..j]
  {
    var i', j' := TrimSpan(s);
    PrefixTrimChars(s, i);
    SuffixTrimChars(s, j);
    assert i < j ==> s[i..j][0] == s[i] && s[i..j][j - i - 1] == s[j - 1];
    assert i' < j' ==> s[i'..j'][0] == s[i'] && s[i'..j'][j' - i' - 1] == s[j' - 1];
    SpanUnique(s, i, j, i', j');
  }
}

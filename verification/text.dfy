/** The Python string operations the core relies on: `str.endswith` and
    `str.strip()` with no argument. */
module Text {

  /** `s.endswith(suffix)`. */
  predicate EndsWith(s: string, suffix: string) {
    |suffix| <= |s| && s[|s| - |suffix|..] == suffix
  }

  /** The characters for which Python's `str.isspace()` holds, i.e. the ones
      `str.strip()` removes when called without an argument. */
  predicate IsSpace(c: char) {
    || '\t' <= c <= '\r'          // tab, line feed, vertical tab, form feed, carriage return
    || '\U{1c}' <= c <= '\U{20}'  // file/group/record/unit separators and space
    || c == '\U{85}' || c == '\U{a0}' || c == '\U{1680}'
    || '\U{2000}' <= c <= '\U{200a}'
    || c == '\U{2028}' || c == '\U{2029}' || c == '\U{202f}' || c == '\U{205f}'
    || c == '\U{3000}'
  }

  predicate AllSpace(s: string) {
    forall k :: 0 <= k < |s| ==> IsSpace(s[k])
  }

  /** Neither end of `s` is white space. */
  predicate Stripped(s: string) {
    |s| > 0 ==> !IsSpace(s[0]) && !IsSpace(s[|s| - 1])
  }

  /** Reference definition of `s.strip()`: `r` is a slice of `s` that starts and
      ends with a non-space character and is surrounded only by white space. */
  ghost predicate StripsTo(s: string, r: string) {
    exists i, j :: 0 <= i <= j <= |s| && StripsAt(s, r, i, j)
  }

  ghost predicate StripsAt(s: string, r: string, i: int, j: int)
    requires 0 <= i <= j <= |s|
  {
    r == s[i..j] && AllSpace(s[..i]) && AllSpace(s[j..]) && Stripped(r)
  }

  /** `s.lstrip()`: drops the leading white space. */
  function TrimLeft(s: string): (r: string)
    ensures |r| <= |s| && r == s[|s| - |r|..]
    ensures AllSpace(s[..|s| - |r|])
    ensures |r| > 0 ==> !IsSpace(r[0])
  {
    if |s| > 0 && IsSpace(s[0]) then TrimLeft(s[1..]) else s
  }

  /** `s.rstrip()`: drops the trailing white space. */
  function TrimRight(s: string): (r: string)
    ensures |r| <= |s| && r == s[..|r|]
    ensures AllSpace(s[|r|..])
    ensures |r| > 0 ==> !IsSpace(r[|r| - 1])
  {
    if |s| > 0 && IsSpace(s[|s| - 1]) then TrimRight(s[..|s| - 1]) else s
  }

  /** `s.strip()`. */
  function Strip(s: string): (r: string)
    ensures StripsTo(s, r)
    ensures Stripped(r)
  {
    var left := TrimLeft(s);
    var r := TrimRight(left);
    var i := |s| - |left|;
    var j := i + |r|;
    assert s[i..j] == r by {
      assert left == s[i..];
    }
    assert AllSpace(s[j..]) by {
      assert s[j..] == left[|r|..];
    }
    assert StripsAt(s, r, i, j);
    r
  }

  /** `StripsTo` admits one result only, so it pins `Strip` down completely. */
  lemma {:induction false} StripsToUnique(s: string, r1: string, r2: string)
    requires StripsTo(s, r1) && StripsTo(s, r2)
    ensures r1 == r2
  {
    var i1, j1 :| 0 <= i1 <= j1 <= |s| && StripsAt(s, r1, i1, j1);
    var i2, j2 :| 0 <= i2 <= j2 <= |s| && StripsAt(s, r2, i2, j2);
    StripsAtFacts(s, r1, i1, j1);
    StripsAtFacts(s, r2, i2, j2);
    // An empty result means that every character of s is white space, so the
    // other result is empty too; otherwise both slices start at the first and
    // end after the last non-space character.
  }

  /** What `StripsAt` says, character by character. */
  lemma StripsAtFacts(s: string, r: string, i: int, j: int)
    requires 0 <= i <= j <= |s| && StripsAt(s, r, i, j)
    ensures r == s[i..j]
    ensures forall k :: 0 <= k < i ==> IsSpace(s[k])
    ensures forall k :: j <= k < |s| ==> IsSpace(s[k])
    ensures i < j ==> !IsSpace(s[i]) && !IsSpace(s[j - 1])
  {
  }

  /** Stripping twice is stripping once. */
  lemma StripIdempotent(s: string)
    ensures Strip(Strip(s)) == Strip(s)
  {
  }
}

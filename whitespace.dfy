/** Python's `str.strip()` with no argument: remove whitespace from both ends. */
module Whitespace {

  /** The code points `str.isspace()` accepts: the ASCII controls TAB..CR and FS..US,
      SPACE, NEL, NO-BREAK SPACE, OGHAM SPACE MARK, the spaces U+2000..U+200A, the line and
      paragraph separators, NARROW NO-BREAK SPACE, MEDIUM MATHEMATICAL SPACE and
      IDEOGRAPHIC SPACE. */
  predicate IsSpace(ch: char) {
    var n := ch as int;
    || 0x09 <= n <= 0x0D
    || 0x1C <= n <= 0x20
    || n == 0x85
    || n == 0xA0
    || n == 0x1680
    || 0x2000 <= n <= 0x200A
    || n == 0x2028
    || n == 0x2029
    || n == 0x202F
    || n == 0x205F
    || n == 0x3000
  }

  /** Drops leading whitespace. */
  function TrimStart(s: string): string {
    if |s| > 0 && IsSpace(s[0]) then TrimStart(s[1..]) else s
  }

  /** Drops trailing whitespace. */
  function TrimEnd(s: string): string {
    if |s| > 0 && IsSpace(s[|s| - 1]) then TrimEnd(s[..|s| - 1]) else s
  }

  /** How many characters `strip` removes from the front of `s`. */
  function Leading(s: string): nat {
    if |s| > 0 && IsSpace(s[0]) then 1 + Leading(s[1..]) else 0
  }

  /** `TrimStart` keeps the suffix of `s` that starts at its first non-space character. */
  lemma {:induction false} TrimStartKeepsSuffix(s: string)
    ensures Leading(s) <= |s| && TrimStart(s) == s[Leading(s)..]
    ensures forall i | 0 <= i < Leading(s) :: IsSpace(s[i])
    ensures TrimStart(s) == [] || !IsSpace(TrimStart(s)[0])
  {
    if |s| > 0 && IsSpace(s[0]) {
      TrimStartKeepsSuffix(s[1..]);
    }
  }

  /** `TrimEnd` keeps the prefix of `s` that ends at its last non-space character. */
  lemma {:induction false} TrimEndKeepsPrefix(s: string)
    ensures |TrimEnd(s)| <= |s| && TrimEnd(s) == s[..|TrimEnd(s)|]
    ensures forall i | |TrimEnd(s)| <= i < |s| :: IsSpace(s[i])
    ensures TrimEnd(s) == [] || !IsSpace(TrimEnd(s)[|TrimEnd(s)| - 1])
  {
    if |s| > 0 && IsSpace(s[|s| - 1]) {
      TrimEndKeepsPrefix(s[..|s| - 1]);
    }
  }

  /** `s.strip()`: never longer than `s` (StripIsTrimmedSlice says which slice it is). */
  function Strip(s: string): (r: string)
    ensures |r| <= |s|
  {
    TrimStartKeepsSuffix(s);
    TrimEndKeepsPrefix(TrimStart(s));
    TrimEnd(TrimStart(s))
  }

  /** The stripped line is the slice of `s` between its leading and its trailing run of
      whitespace, and it neither starts nor ends with whitespace. */
  lemma StripIsTrimmedSlice(s: string)
    ensures Leading(s) + |Strip(s)| <= |s|
    ensures Strip(s) == s[Leading(s)..Leading(s) + |Strip(s)|]
    ensures forall i | 0 <= i < Leading(s) :: IsSpace(s[i])
    ensures forall i | Leading(s) + |Strip(s)| <= i < |s| :: IsSpace(s[i])
    ensures Strip(s) == [] || (!IsSpace(Strip(s)[0]) && !IsSpace(Strip(s)[|Strip(s)| - 1]))
  {
    var t := TrimStart(s);
    var r := TrimEnd(t);
    TrimStartKeepsSuffix(s);
    TrimEndKeepsPrefix(t);
    assert t == s[Leading(s)..];
    assert r == t[..|r|];
    forall i | Leading(s) + |r| <= i < |s|
      ensures IsSpace(s[i])
    {
      assert s[i] == t[i - Leading(s)];
    }
    if r != [] {
      assert r[0] == t[0];
    }
  }

  /** Stripping twice is stripping once. */
  lemma StripIdempotent(s: string)
    ensures Strip(Strip(s)) == Strip(s)
  {
    var t := TrimStart(s);
    var r := TrimEnd(t);
    TrimStartKeepsSuffix(s);
    TrimEndKeepsPrefix(t);
    if r != [] {
      assert r[0] == t[0];
    }
    assert TrimStart(r) == r;
    assert TrimEnd(r) == r;
  }
}

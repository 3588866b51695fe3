/** `String.prototype.trim`, which the shorten action applies to both the
    URL field and the alias field before checking them. */
module Text {

  /** The characters `trim` removes: ECMAScript's WhiteSpace (tab, vertical
      tab, form feed, the byte order mark and every space separator of
      category Zs) and LineTerminator (LF, CR, U+2028, U+2029). */
  predicate IsTrimmable(c: char) {
    || c == '\t' || c == '\n' || c == '\U{000B}' || c == '\U{000C}' || c == '\r'
    || c == ' ' || c == '\U{00A0}' || c == '\U{1680}'
    || ('\U{2000}' <= c <= '\U{200A}')
    || c == '\U{2028}' || c == '\U{2029}' || c == '\U{202F}' || c == '\U{205F}'
    || c == '\U{3000}' || c == '\U{FEFF}'
  }

  predicate AllTrimmable(s: string) {
    forall k :: 0 <= k < |s| ==> IsTrimmable(s[k])
  }

  /** Number of trimmable characters at the start of `s`. */
  function LeadingCount(s: string): (n: nat)
    ensures n <= |s|
    ensures AllTrimmable(s[..n])
    ensures n < |s| ==> !IsTrimmable(s[n])
  {
    if s == [] || !IsTrimmable(s[0]) then 0
    else
      var m := LeadingCount(s[1..]);
      assert s[..m + 1] == [s[0]] + s[1..][..m];
      1 + m
  }

  /** Number of trimmable characters at the end of `s`. */
  function TrailingCount(s: string): (n: nat)
    ensures n <= |s|
    ensures AllTrimmable(s[|s| - n..])
    ensures n < |s| ==> !IsTrimmable(s[|s| - 1 - n])
  {
    if s == [] || !IsTrimmable(s[|s| - 1]) then 0
    else
      var t := s[..|s| - 1];
      var m := TrailingCount(t);
      assert s[|s| - (m + 1)..] == t[|t| - m..] + [s[|s| - 1]];
      1 + m
  }

  /** The bounds of the text that `trim` keeps: everything outside them is
      trimmable, and the kept text starts and ends with a character that is
      not. */
  function TrimBounds(s: string): (b: (nat, nat))
    ensures b.0 <= b.1 <= |s|
    ensures AllTrimmable(s[..b.0]) && AllTrimmable(s[b.1..])
    ensures b.0 < b.1 ==> !IsTrimmable(s[b.0]) && !IsTrimmable(s[b.1 - 1])
    ensures b.0 == b.1 ==> AllTrimmable(s)
  {
    var a := LeadingCount(s);
    if a == |s| then
      assert s[..a] == s;
      (a, a)
    else
      var z := TrailingCount(s);
      assert a < |s| - z;
      (a, |s| - z)
  }

  /** `trim`: `s` with leading and trailing white space and line terminators
      removed. */
  function Trim(s: string): (r: string)
    ensures |r| <= |s|
    ensures r == [] <==> AllTrimmable(s)
    ensures r != [] ==> !IsTrimmable(r[0]) && !IsTrimmable(r[|r| - 1])
    ensures r == s[TrimBounds(s).0..TrimBounds(s).1]
  {
    var b := TrimBounds(s);
    if b.0 < b.1 then
      assert !AllTrimmable(s) by { assert !IsTrimmable(s[b.0]); }
      s[b.0..b.1]
    else
      s[b.0..b.1]
  }

  /** Trimming is idempotent. */
  lemma TrimIdempotent(s: string)
    ensures Trim(Trim(s)) == Trim(s)
  {
  }

  /** Text that neither starts nor ends with a trimmable character is left
      alone. */
  lemma TrimOfUntrimmable(s: string)
    requires s != [] && !IsTrimmable(s[0]) && !IsTrimmable(s[|s| - 1])
    ensures Trim(s) == s
  {
  }
}

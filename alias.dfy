/** The custom-alias check of the shorten action (linkshort/app.js:255-256):
    an empty alias means "let the service choose"; a non-empty one must
    match `/^[A-Za-z0-9_]{5,30}$/`. */
module Alias {

  const MinLength := 5
  const MaxLength := 30

  /** The character class `[A-Za-z0-9_]`. */
  predicate IsAliasChar(c: char) {
    ('A' <= c <= 'Z') || ('a' <= c <= 'z') || ('0' <= c <= '9') || c == '_'
  }

  /** The reference shape of a custom alias: between 5 and 30 characters,
      each a letter, a digit or an underscore. */
  predicate WellFormed(s: string) {
    MinLength <= |s| <= MaxLength && forall k :: 0 <= k < |s| ==> IsAliasChar(s[k])
  }

  /** How many characters the greedy repetition `[A-Za-z0-9_]{..max}` takes
      from the front of `s`: as many class characters as there are, but no
      more than `max`. */
  function GreedyRun(s: string, max: nat): (n: nat)
    ensures n <= max && n <= |s|
    ensures forall k :: 0 <= k < n ==> IsAliasChar(s[k])
    ensures n < max && n < |s| ==> !IsAliasChar(s[n])
  {
    if max == 0 || s == [] || !IsAliasChar(s[0]) then 0
    else 1 + GreedyRun(s[1..], max - 1)
  }

  /** The backtracking of the repetition: the count `k` is tried first,
      then `k - 1`, and so on down to 5; a count succeeds when the end
      anchor `$` holds after it, that is, when it equals `|s|`. Below 5
      the repetition cannot match at all. */
  predicate Backtrack(s: string, k: nat)
    decreases k
  {
    if k < MinLength then false
    else k == |s| || Backtrack(s, k - 1)
  }

  /** Backtracking from `k` succeeds exactly when the whole input is
      between 5 and `k` characters long. */
  lemma {:induction false} BacktrackIff(s: string, k: nat)
    ensures Backtrack(s, k) <==> MinLength <= |s| <= k
  {
    if MinLength <= k && k != |s| {
      BacktrackIff(s, k - 1);
    }
  }

  /** `/^[A-Za-z0-9_]{5,30}$/.test(s)` as the engine runs it: the repetition
      first takes `GreedyRun(s, 30)` characters, then backtracks. It accepts
      exactly the well-formed aliases. */
  function PatternTest(s: string): (ok: bool)
    ensures ok <==> WellFormed(s)
  {
    var n := GreedyRun(s, MaxLength);
    BacktrackIff(s, n);
    Backtrack(s, n)
  }

  /** `!(al && !PATTERN.test(al))`: the alias field passes when it is empty,
      or when it is 5 to 30 letters, digits and underscores. */
  function Accepted(al: string): (ok: bool)
    ensures ok <==> al == [] || WellFormed(al)
  {
    al == [] || PatternTest(al)
  }

  /** A two-character alias is refused. */
  lemma ShortAliasRejected()
    ensures !Accepted("ab")
  {
  }

  /** "valid_alias1" (12 characters) is accepted. */
  lemma TwelveCharacterAliasAccepted()
    ensures Accepted("valid_alias1")
  {
    var s := "valid_alias1";
    forall k | 0 <= k < |s| ensures IsAliasChar(s[k]) {
      assert s[k] in "adilsv_1";
    }
    assert WellFormed(s);
  }
}

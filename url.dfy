/** `normalizeUrl` (linkshort/app.js:31-39): make sure the input carries an
    `http://` or `https://` scheme, then hand it to the browser's URL parser
    and return its serialisation, or nothing when the parser throws. */
module Url {
  import opened Wrappers

  /** Case folding as a non-Unicode `/i` regular expression applies it to the
      letters of "http" and "https": ASCII upper case to lower case. (A
      non-ASCII character is never folded onto an ASCII one in that mode.) */
  function FoldAscii(c: char): (d: char)
    ensures 'A' <= c <= 'Z' ==> 'a' <= d <= 'z' && d as int == c as int + 32
    ensures !('A' <= c <= 'Z') ==> d == c
  {
    if 'A' <= c <= 'Z' then (c as int + 32) as char else c
  }

  /** `u` starts with the lower-case literal `lit`, ignoring ASCII case. */
  predicate StartsWithFolded(u: string, lit: string) {
    |lit| <= |u| && forall k :: 0 <= k < |lit| ==> FoldAscii(u[k]) == lit[k]
  }

  /** The reference reading of `/^https?:\/\//i.test(u)`: `u` begins with
      "http://" or "https://" in any mix of letter case. */
  predicate HasHttpScheme(u: string) {
    StartsWithFolded(u, "http://") || StartsWithFolded(u, "https://")
  }

  /** The matcher for a run of literal pattern characters under `/i`: either
      the rest of the input after the literal, or no match. */
  function Consume(u: string, lit: string): (r: Option<string>)
    requires forall k :: 0 <= k < |lit| ==> FoldAscii(lit[k]) == lit[k]
    ensures r.Some? <==> StartsWithFolded(u, lit)
    ensures r.Some? ==> r.value == u[|lit|..]
  {
    if lit == [] then Some(u)
    else if u != [] && FoldAscii(u[0]) == lit[0] then
      var rest := Consume(u[1..], lit[1..]);
      assert StartsWithFolded(u, lit) ==> forall k :: 0 <= k < |lit| - 1 ==> FoldAscii(u[1..][k]) == lit[1..][k] by {
        if StartsWithFolded(u, lit) {
          forall k | 0 <= k < |lit| - 1 ensures FoldAscii(u[1..][k]) == lit[1..][k] {
            assert FoldAscii(u[k + 1]) == lit[k + 1];
          }
        }
      }
      rest
    else
      None
  }

  /** `/^https?:\/\//i.test(u)` as the regular expression engine runs it:
      "http", then the optional "s" (tried first, as `?` is greedy), then
      "://"; when "s" is taken but "://" does not follow, it backtracks and
      tries again without the "s". It accepts exactly the inputs with an
      "http://" or "https://" prefix in any letter case. */
  function SchemeTest(u: string): (ok: bool)
    ensures ok <==> HasHttpScheme(u)
  {
    match Consume(u, "http")
    case None => false
    case Some(rest) =>
      (match Consume(rest, "s")
       case Some(afterS) => Consume(afterS, "://").Some?
       case None => false)
      || Consume(rest, "://").Some?
  }

  /** The prefix step (line 33): an input with an http/https scheme in any
      letter case is kept as it is; any other input gets "https://" in
      front. Either way the result has an http/https scheme. */
  function WithScheme(u: string): (r: string)
    ensures HasHttpScheme(u) ==> r == u
    ensures !HasHttpScheme(u) ==> r == "https://" + u
    ensures HasHttpScheme(r)
  {
    if SchemeTest(u) then u
    else
      var r := "https://" + u;
      assert StartsWithFolded(r, "https://") by {
        forall k | 0 <= k < 8 ensures FoldAscii(r[k]) == "https://"[k] {
          assert r[k] == "https://"[k];
        }
      }
      r
  }

  /** The prefix step is idempotent. */
  lemma WithSchemeIdempotent(u: string)
    ensures WithScheme(WithScheme(u)) == WithScheme(u)
  {
  }

  /** A bare host name gets the secure scheme in front. */
  lemma ExampleComGetsScheme()
    ensures WithScheme("example.com") == "https://example.com"
  {
    var u := "example.com";
    assert FoldAscii(u[0]) == 'e' && "http://"[0] == 'h' && "https://"[0] == 'h';
    assert "https://" + u == "https://example.com";
  }

  /** `normalizeUrl(u)`: the URL parser's serialisation (`url.href`) of the
      scheme-prefixed input, or `None` (JavaScript `null`) when the parser
      throws. The parser itself, the URL Standard's basic URL parser, is the
      parameter `parse`; `None` from it stands for the thrown TypeError. */
  function NormalizeUrl(u: string, parse: string -> Option<string>): (r: Option<string>)
    ensures HasHttpScheme(u) ==> r == parse(u)
    ensures !HasHttpScheme(u) ==> r == parse("https://" + u)
  {
    parse(WithScheme(u))
  }
}

/** The JSONP exchange with is.gd / v.gd (`shortenWithIsGd`,
    linkshort/app.js:52-80) without the script element: the query
    parameters it builds, and how the reply handed to the callback, or the
    script's load error, settles the request. */
module Remote {
  import opened Wrappers

  // ---- Query parameters (URLSearchParams)

  /** A URLSearchParams list: name/value pairs in order. */
  type Params = seq<(string, string)>

  /** Where the first pair named `name` sits, or `|p|` when there is none. */
  function FirstIndex(p: Params, name: string): (i: nat)
    ensures i <= |p|
    ensures forall j :: 0 <= j < i ==> p[j].0 != name
    ensures i < |p| ==> p[i].0 == name
  {
    if p == [] || p[0].0 == name then 0
    else 1 + FirstIndex(p[1..], name)
  }

  /** `params.get(name)`: the value of the first pair with that name, or
      `None` (`null`) when no pair has it. */
  function Get(p: Params, name: string): (r: Option<string>)
    ensures r.Some? <==> FirstIndex(p, name) < |p|
    ensures r.Some? ==> r.value == p[FirstIndex(p, name)].1
  {
    if p == [] then None
    else if p[0].0 == name then Some(p[0].1)
    else
      var r := Get(p[1..], name);
      assert forall i :: 1 <= i < |p| ==> p[i] == p[1..][i - 1];
      assert FirstIndex(p, name) == 1 + FirstIndex(p[1..], name);
      r
  }

  /** The pairs whose name is not `name`, in their order. */
  function Without(p: Params, name: string): (r: Params)
    ensures |r| <= |p|
    ensures forall i :: 0 <= i < |r| ==> r[i].0 != name
  {
    if p == [] then []
    else if p[0].0 == name then Without(p[1..], name)
    else [p[0]] + Without(p[1..], name)
  }

  /** How many pairs are named `name`. */
  function Occurrences(p: Params, name: string): (n: nat)
    ensures n <= |p|
    ensures n == 0 <==> Get(p, name).None?
  {
    if p == [] then 0
    else (if p[0].0 == name then 1 else 0) + Occurrences(p[1..], name)
  }

  /** Removing the pairs of some other name does not change what `get`
      returns for `name`. */
  lemma {:induction false} GetWithout(p: Params, other: string, name: string)
    requires other != name
    ensures Get(Without(p, other), name) == Get(p, name)
  {
    if p != [] {
      GetWithout(p[1..], other, name);
    }
  }

  /** `set` on a list that holds a pair with `name`: the first such pair
      takes the new value where it stands, and the later ones are removed. */
  function Replace(p: Params, name: string, value: string): (r: Params)
    requires Get(p, name).Some?
    ensures Without(r, name) == Without(p, name)
    ensures Occurrences(r, name) == 1
    ensures Get(r, name) == Some(value)
  {
    if p[0].0 == name then
      var rest := Without(p[1..], name);
      WithoutIdle(rest, name);
      [(name, value)] + rest
    else
      [p[0]] + Replace(p[1..], name, value)
  }

  /** `Replace` keeps the pairs before the first `name` as they are, writes
      the new value in that pair's place, and drops the later `name` pairs. */
  lemma {:induction false} ReplaceInPlace(p: Params, name: string, value: string)
    requires Get(p, name).Some?
    ensures var i := FirstIndex(p, name);
      Replace(p, name, value) == p[..i] + ([(name, value)] + Without(p[i + 1..], name))
  {
    if p[0].0 != name {
      ReplaceStep(p, name, value);
      var q := p[1..];
      ReplaceInPlace(q, name, value);
      var i := FirstIndex(q, name);
      ConsSlices(p, i, [(name, value)] + Without(q[i + 1..], name));
    } else {
      assert FirstIndex(p, name) == 0 && p[..0] == [];
    }
  }

  /** One unfolding of `Replace` past a pair of another name. */
  lemma ReplaceStep(p: Params, name: string, value: string)
    requires Get(p, name).Some? && p[0].0 != name
    ensures Get(p[1..], name).Some?
    ensures FirstIndex(p, name) == 1 + FirstIndex(p[1..], name)
    ensures Replace(p, name, value) == [p[0]] + Replace(p[1..], name, value)
  {
  }

  /** Slicing one element further into `p` than into `p[1..]`. */
  lemma ConsSlices(p: Params, i: nat, tail: Params)
    requires i < |p| - 1
    ensures [p[0]] + (p[1..][..i] + tail) == p[..1 + i] + tail
    ensures p[1..][i + 1..] == p[1 + i + 1..]
  {
    assert p[..1 + i] == [p[0]] + p[1..][..i];
  }

  /** Removing a name that does not occur changes nothing. */
  lemma {:induction false} WithoutIdle(p: Params, name: string)
    requires forall i :: 0 <= i < |p| ==> p[i].0 != name
    ensures Without(p, name) == p
    ensures Occurrences(p, name) == 0
  {
    if p != [] {
      assert forall i :: 0 <= i < |p| - 1 ==> p[1..][i].0 != name by {
        forall i | 0 <= i < |p| - 1 ensures p[1..][i].0 != name {
          assert p[1..][i] == p[i + 1];
        }
      }
      WithoutIdle(p[1..], name);
      assert p == [p[0]] + p[1..];
    }
  }

  /** Appending a pair of a name not yet present. */
  lemma {:induction false} AppendFresh(p: Params, name: string, value: string)
    requires Get(p, name).None?
    ensures Without(p + [(name, value)], name) == Without(p, name)
    ensures Occurrences(p + [(name, value)], name) == 1
    ensures Get(p + [(name, value)], name) == Some(value)
    ensures forall other :: other != name ==> Get(p + [(name, value)], other) == Get(p, other)
  {
    if p != [] {
      assert (p + [(name, value)])[1..] == p[1..] + [(name, value)];
      AppendFresh(p[1..], name, value);
    }
  }

  /** `params.set(name, value)`: afterwards exactly one pair carries `name`
      and `get` returns `value` for it; the pairs of every other name, and
      their order, are as before. */
  function Set(p: Params, name: string, value: string): (r: Params)
    ensures Get(p, name).None? ==> r == p + [(name, value)]
    ensures var i := FirstIndex(p, name);
      i < |p| ==> r == p[..i] + ([(name, value)] + Without(p[i + 1..], name))
    ensures Without(r, name) == Without(p, name)
    ensures Occurrences(r, name) == 1
    ensures Get(r, name) == Some(value)
  {
    if Get(p, name).Some? then
      ReplaceInPlace(p, name, value);
      Replace(p, name, value)
    else
      AppendFresh(p, name, value);
      p + [(name, value)]
  }

  /** `set` leaves what `get` returns for every other name alone. */
  lemma SetKeepsOthers(p: Params, name: string, value: string, other: string)
    requires other != name
    ensures Get(Set(p, name, value), other) == Get(p, other)
  {
    GetWithout(Set(p, name, value), name, other);
    GetWithout(p, name, other);
  }

  /** The five parameter names are pairwise different. */
  lemma NamesDistinct()
    ensures "format" != "callback" && "format" != "url" && "format" != "shorturl" && "format" != "logstats"
    ensures "callback" != "url" && "callback" != "shorturl" && "callback" != "logstats"
    ensures "url" != "shorturl" && "url" != "logstats" && "shorturl" != "logstats"
  {
  }

  /** The three parameters every request starts with (line 69). */
  function BaseParams(callback: string, longUrl: string): (r: Params)
    ensures Get(r, "format") == Some("json")
    ensures Get(r, "callback") == Some(callback)
    ensures Get(r, "url") == Some(longUrl)
    ensures Get(r, "shorturl").None? && Get(r, "logstats").None?
    ensures |r| == 3
  {
    NamesDistinct();
    var r := [("format", "json"), ("callback", callback), ("url", longUrl)];
    assert Get(r[1..][1..], "url") == Some(longUrl);
    r
  }

  /** The base parameters plus `shorturl` when an alias is given
      (line 70: `if (alias)`, a non-empty string). */
  function AliasParams(callback: string, longUrl: string, alias: string): (r: Params)
    ensures Get(r, "format") == Some("json")
    ensures Get(r, "callback") == Some(callback)
    ensures Get(r, "url") == Some(longUrl)
    ensures Get(r, "shorturl") == if alias != "" then Some(alias) else None
    ensures Get(r, "logstats").None?
    ensures |r| == 3 + (if alias != "" then 1 else 0)
  {
    var base := BaseParams(callback, longUrl);
    if alias == "" then base
    else
      NamesDistinct();
      AddFresh(base, "shorturl", alias)
  }

  /** The parameters of one shorten request (lines 69-71): `format=json`,
      the callback name and the target URL, then `shorturl` when an alias is
      given and `logstats=1` when the statistics flag is set. */
  function BuildParams(callback: string, longUrl: string, alias: string, logstats: bool): (r: Params)
    ensures Get(r, "format") == Some("json")
    ensures Get(r, "callback") == Some(callback)
    ensures Get(r, "url") == Some(longUrl)
    ensures Get(r, "shorturl") == if alias != "" then Some(alias) else None
    ensures Get(r, "logstats") == if logstats then Some("1") else None
    ensures |r| == 3 + (if alias != "" then 1 else 0) + (if logstats then 1 else 0)
  {
    var withAlias := AliasParams(callback, longUrl, alias);
    if !logstats then withAlias
    else
      NamesDistinct();
      AddFresh(withAlias, "logstats", "1")
  }

  /** `set` of a name not yet present: the pair is appended at the end. */
  function AddFresh(p: Params, name: string, value: string): (r: Params)
    requires Get(p, name).None?
    ensures r == Set(p, name, value)
    ensures r == p + [(name, value)]
    ensures Get(r, name) == Some(value)
    ensures forall other :: other != name ==> Get(r, other) == Get(p, other)
  {
    AppendFresh(p, name, value);
    Set(p, name, value)
  }

  // ---- The reply

  /** The object handed to the JSONP callback; a field is `None` when it is
      missing. Only string-valued fields are modelled. */
  datatype ReplyData = ReplyData(shorturl: Option<string>, errormessage: Option<string>)

  /** What becomes of the injected script: it runs the callback with some
      `data` (`None` for `null` / `undefined`), it fails to load
      (`script.onerror`), or it loads without ever calling back. */
  datatype Transport = Delivered(data: Option<ReplyData>) | LoadFailed | NoCallback

  /** How the returned promise settles: resolved with a short URL, rejected
      with an error message, or never. */
  datatype Outcome = Resolved(shortUrl: string) | Rejected(message: string) | Pending

  /** JavaScript truthiness of an optional string field. */
  predicate Truthy(f: Option<string>) {
    f.Some? && f.value != ""
  }

  /** The callback body (lines 57-63): a truthy `shorturl` resolves with it,
      whatever else the reply holds; failing that, a truthy `errormessage`
      rejects with that message; anything else rejects with
      "Unknown error". The callback always settles the promise. */
  function Classify(data: Option<ReplyData>): (o: Outcome)
    ensures !o.Pending?
    ensures o.Resolved? <==> data.Some? && Truthy(data.value.shorturl)
    ensures o.Resolved? ==> o.shortUrl == data.value.shorturl.value
    ensures o.Rejected? && data.Some? && Truthy(data.value.errormessage) ==> o.message == data.value.errormessage.value
    ensures o.Rejected? && !(data.Some? && Truthy(data.value.errormessage)) ==> o.message == "Unknown error"
  {
    if data.Some? && Truthy(data.value.shorturl) then Resolved(data.value.shorturl.value)
    else if data.Some? && Truthy(data.value.errormessage) then Rejected(data.value.errormessage.value)
    else Rejected("Unknown error")
  }

  /** The settled promise: the callback's classification, "Network error"
      when the script fails to load, and no settlement when nothing calls
      back. A resolved short URL and a rejection message are never empty. */
  function Settle(t: Transport): (o: Outcome)
    ensures o.Pending? <==> t.NoCallback?
    ensures o.Resolved? ==> o.shortUrl != ""
    ensures o.Rejected? ==> o.message != ""
    ensures t.Delivered? ==> o == Classify(t.data)
    ensures t.LoadFailed? ==> o == Rejected("Network error")
  {
    match t
    case Delivered(data) => Classify(data)
    case LoadFailed => Rejected("Network error")
    case NoCallback => Pending
  }

  /** A non-empty `shorturl` wins over any `errormessage`. */
  lemma ShortUrlWins(s: string, e: Option<string>)
    requires s != ""
    ensures Classify(Some(ReplyData(Some(s), e))) == Resolved(s)
  {
  }

  /** The request the script element would issue: the chosen service domain
      (`is.gd` or `v.gd`) and the query parameters for `/create.php`. */
  datatype Request = Request(domain: string, params: Params)
}

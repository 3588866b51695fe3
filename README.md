# LinkShort, modelled in Dafny

LinkShort is a one-page browser client for the is.gd / v.gd URL shorteners.
The user enters a long URL and can add a custom alias and ask for click
statistics. The page checks the input and sends a JSONP request to the
chosen service. When it gets a short URL back, it shows it and records it in
a history list kept in local storage. A light/dark theme is also kept in
local storage.

This project models the rules underneath that UI:

- `Text`: `String.prototype.trim`, applied to both input fields.
- `Url`: the scheme step of `normalizeUrl`. The case-insensitive
  `^https?://` test is modelled as a small backtracking matcher and proved
  equal to a plain prefix definition. The browser's URL parser is a
  parameter.
- `Alias`: the `^[A-Za-z0-9_]{5,30}$` check. It is modelled the way the
  regular-expression engine runs it: a greedy repeat, then backtracking one
  count at a time down to 5 until the end anchor holds. It is proved equal
  to "5 to 30 letters, digits or underscores".
- `Remote`: the request parameters as a `URLSearchParams` list (`get` and
  `set` with their real semantics), and how the JSONP reply, or the script's
  load error, settles the request.
- `History`: the `ls_history` entries and the "unshift, then keep 50" rule.
- `Theme`: `applyTheme`, the toggle's choice and the startup default.
- `App`: the class `LinkShort`. It holds the two storage keys and the body
  class as fields. Its methods are the page's handlers: load, theme toggle,
  get/save/clear history, and the shorten action with its early returns.

Things the page gets from the browser are parameters of the methods:

- the URL parser, as `parse: string -> Option<string>` (`None` means it threw);
- the remote service, as `respond: Request -> Transport`;
- the random callback name;
- `Date.now()`;
- the answer to `confirm`;
- the `prefers-color-scheme` media query.

Three points of the code's behaviour are easy to misread:

- **Scheme check.** The prefix step puts `https://` in front of every input
  that does not start with `http://` or `https://` in some letter case.
  That includes inputs with another scheme, such as `ftp://x`.
- **Failure cases.** Besides network and service errors, a reply can
  reject with "Unknown error", and a request can also never settle.
- **Trailing slash.** `new URL(...).href` adds a trailing slash to a bare
  host. The URL parser is not modelled, so that slash is not either. What
  the model proves is that the parser receives `https://example.com` for
  the input `example.com`.

Strings are sequences of Unicode scalar values, while JavaScript counts
UTF-16 code units. None of the modelled checks can tell the two apart:

- the characters `trim` removes are all in the Basic Multilingual Plane;
- the scheme test looks only at ASCII characters;
- an alias that passes is ASCII.

## Model

| member | source | states |
|---|---|---|
| `Text.TrimBounds` | linkshort/app.js:248 | everything before and after the kept bounds is JavaScript white space or a line terminator, and the kept text starts and ends with a character that is not |
| `Text.Trim` | linkshort/app.js:248 | the result is the input between its trim bounds; it is empty exactly when the input is all white space; otherwise it neither starts nor ends with white space |
| `Text.TrimIdempotent` | linkshort/app.js:255 | trimming an already trimmed field changes nothing |
| `Text.TrimOfUntrimmable` | linkshort/app.js:248 | text that neither starts nor ends with white space is returned unchanged |
| `Url.FoldAscii` | linkshort/app.js:33 | the `/i` flag maps each ASCII upper-case letter to the lower-case letter 32 code points above it and leaves every other character alone |
| `Url.Consume` | linkshort/app.js:33 | matching a literal ignoring case succeeds exactly when the input starts with it in any letter case, and leaves the rest of the input |
| `Url.SchemeTest` | linkshort/app.js:33 | the backtracking evaluation of `^https?:\/\/` with `/i` (the optional "s" is tried first, then without it) accepts exactly the inputs that start with "http://" or "https://" in any letter case |
| `Url.WithScheme` | linkshort/app.js:33 | an input with an http/https scheme in any case is kept unchanged; any other input gets "https://" in front; the result always has an http/https scheme |
| `Url.WithSchemeIdempotent` | linkshort/app.js:33 | applying the prefix step twice is the same as applying it once |
| `Url.ExampleComGetsScheme` | linkshort/app.js:33 | "example.com" becomes "https://example.com" before parsing |
| `Url.NormalizeUrl` | linkshort/app.js:31-39 | the parser is given the input itself when it has an http/https scheme and "https://" + input otherwise; a parser failure gives `None` (`null`) instead of an exception |
| `Alias.GreedyRun` | linkshort/app.js:256 | the greedy repeat takes a prefix of class characters, at most the bound, and stops only at the bound, the end of the input or a character outside `[A-Za-z0-9_]` |
| `Alias.BacktrackIff` | linkshort/app.js:256 | backtracking the repeat count down from k to 5, succeeding when the count equals the input length, succeeds exactly when the input is 5 to k characters long |
| `Alias.PatternTest` | linkshort/app.js:256 | the engine-style evaluation of `^[A-Za-z0-9_]{5,30}$` (greedy run, then backtracking to the end anchor) accepts exactly the strings of 5 to 30 letters, digits and underscores |
| `Alias.Accepted` | linkshort/app.js:256 | the alias passes if and only if it is empty or is 5 to 30 characters, all in `[A-Za-z0-9_]` |
| `Alias.ShortAliasRejected` | linkshort/app.js:256 | the two-character alias "ab" is refused |
| `Alias.TwelveCharacterAliasAccepted` | linkshort/app.js:256 | "valid_alias1" is accepted |
| `Remote.FirstIndex` | linkshort/app.js:70-71 | the position of the first pair with a name: no earlier pair has it, and it is the list's length when no pair has it |
| `Remote.Get` | linkshort/app.js:69-71 | `get` finds a value exactly when some pair has the name, and the value is that of the FIRST such pair |
| `Remote.Replace` | linkshort/app.js:70-71 | `set` on a name that is present leaves exactly one pair with that name, carrying the new value, and the pairs of other names unchanged and in order |
| `Remote.ReplaceInPlace` | linkshort/app.js:70-71 | `set` on a present name writes the new value into the first pair with that name, where it stands; the pairs before it are unchanged, and later pairs with that name are removed |
| `Remote.Set` | linkshort/app.js:70-71 | after `set`, exactly one pair carries the name and `get` returns the new value; a new name is appended at the end; a present name takes the value in the place of its first pair, and its later pairs go; the pairs of other names and their order are unchanged |
| `Remote.SetKeepsOthers` | linkshort/app.js:70-71 | `set` does not change what `get` returns for any other name |
| `Remote.BaseParams` | linkshort/app.js:69 | the initial parameters are `format=json`, `callback` and `url`, with no `shorturl` and no `logstats` |
| `Remote.AliasParams` | linkshort/app.js:69-70 | the base parameters, plus `shorturl` with the alias exactly when the alias is non-empty; no `logstats` |
| `Remote.AddFresh` | linkshort/app.js:70-71 | `set` of a name not yet present appends the pair at the end, and `get` of every other name is unchanged |
| `Remote.BuildParams` | linkshort/app.js:69-71 | `format=json`, `callback` and `url` are always present; `shorturl` is present (with the alias) if and only if the alias is non-empty; `logstats=1` is present if and only if statistics are requested; there are no other pairs |
| `Remote.Classify` | linkshort/app.js:57-63 | the callback always settles the promise: it resolves exactly when `shorturl` is truthy, and then with that value; otherwise it rejects with a truthy `errormessage`, or else with "Unknown error" |
| `Remote.Settle` | linkshort/app.js:55-77 | a reply handed to the callback settles as the callback classifies it; a script load error rejects with "Network error"; the promise stays pending only when nothing calls back; a resolved short URL and every rejection message are non-empty |
| `Remote.ShortUrlWins` | linkshort/app.js:57-58 | a non-empty `shorturl` resolves whatever `errormessage` says |
| `History.Read` | linkshort/app.js:169-175 | a stored list reads as itself; a missing key and unparseable content both read as the empty list |
| `History.Prepend` | linkshort/app.js:176-180 | after a save the history has min(old length + 1, 50) entries, the new item at index 0, and old entry i at index i + 1 for every kept i |
| `History.SaveAll` | linkshort/app.js:176-180 | after N saves (N > 0) the history has min(old length + N, 50) entries: the saved items first, newest first, then the old entries in their order as far as 50 slots reach |
| `Theme.Name` | linkshort/app.js:24-25 | the stored name is "light" exactly for the light theme |
| `Theme.BodyClass` | linkshort/app.js:15 | `applyTheme` shows light exactly for the value 'light'; any other value clears the class (dark) |
| `Theme.Shown` | linkshort/app.js:20 | the page shows light exactly when the body class is "light" |
| `Theme.Flip` | linkshort/app.js:24 | the toggle always picks the other theme |
| `Theme.Initial` | linkshort/app.js:16-17 | a non-empty stored value wins; otherwise the system preference decides between 'light' and 'dark' |
| `Theme.NameRoundTrip` | linkshort/app.js:15-25 | applying a stored theme name, directly or on the next page load, shows that theme again |
| `Theme.FlipInvolutive` | linkshort/app.js:24 | toggling twice returns to the starting theme |
| `App.UrlRejected` | linkshort/app.js:250 | the normalised URL is rejected exactly when it is `null` or the empty string |
| `App.LinkShort.constructor` | linkshort/app.js:16-18 | on page load, the stored or system theme is applied, the body class is "light" or empty, and neither storage key is written |
| `App.LinkShort.ShownTheme` | linkshort/app.js:20-24 | the page's theme is light exactly when the body class is "light" |
| `App.LinkShort.ToggleTheme` | linkshort/app.js:23-27 | the shown theme flips, the new theme's name is stored, the body class stays "light" or empty, and the history key is not touched |
| `App.LinkShort.GetHistory` | linkshort/app.js:169-175 | returns the stored list, or the empty list when the key is missing or unreadable |
| `App.LinkShort.SaveHistory` | linkshort/app.js:176-180 | the key now holds the old history with the item put in front and cut to 50 entries; nothing else changes |
| `App.LinkShort.ClearHistory` | linkshort/app.js:204-209 | once confirmed, the key is removed and the history reads as empty; if not confirmed, nothing changes |
| `App.LinkShort.HandleShorten` | linkshort/app.js:247-274 | the trimmed URL is checked first, then the trimmed alias; if either is rejected, nothing is sent and the history is unchanged; otherwise the request carries the normalised URL, the alias and the flag; a resolved request saves an entry with the normalised URL, the short URL and the clock; any other outcome leaves the history unchanged |

## Left out

- All DOM construction and rendering (lines 83-166, 181-203, 213-244): the result pill, the copy, share and statistics buttons, the QR code, the history list, toasts, the about modal and the key handlers. They hold no logic beyond what is modelled. An exception thrown while rendering a result is not modelled either, so the model always saves the entry for a resolved request.
- `setToggleVisual` (lines 19-22, 27) and the button's disabled state and label (lines 262-263, 271-272): these attributes only mirror state for the UI.
- Script injection, the global callback registration and removal, and the Promise/async flow (lines 52-80, 264-273). The exchange is reduced to the value `Transport`, and one press of the button runs to completion.
- Serialising the parameters into the script URL (`https://${domain}/create.php?` plus `params.toString()`, line 73): this is the browser's form-urlencoded serialiser. The model keeps the domain and the ordered pairs.
- The WHATWG URL parser behind `new URL(u).href` (line 34): it is the parameter `parse`. Its serialisation, such as the added trailing slash, is not modelled.
- `randomAlias` and the random callback name (lines 40-45, 54): they come from `Math.random`. The callback name is a parameter.
- `JSON.stringify` / `JSON.parse` of the history (lines 171, 179): storage holds the entry sequence directly, and content that fails to parse is the `Unreadable` slot. Content that parses to something other than an array (which would make `saveHistory` throw) is not modelled.
- `Remote.Classify`: reply fields are modelled as optional strings. A non-string `shorturl` or `errormessage` (which JavaScript would pass on or convert with `String`) is not modelled.
- The error banner's fallback text `'An error occurred'` (line 269) is not modelled. `Remote.Settle` proves that every rejection message is non-empty, so the fallback is never shown.
- `matchMedia`, `Date.now()`, `confirm`: they are ambient browser state. They appear as the parameters `prefersLight`, `now` and `confirmed`.

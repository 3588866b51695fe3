/** The page's persistent state and its handlers (linkshort/app.js): the two
    local-storage keys, the body's theme class, the theme toggle, the
    history handlers and the shorten action. */
module App {
  import opened Wrappers
  import Text
  import Url
  import Alias
  import Remote
  import History
  import Theme

  /** What one press of "Shorten" comes to. */
  datatype ShortenStatus =
    | InvalidUrl                       // "Invalid URL" notice, nothing sent
    | InvalidAlias                     // "Invalid alias format" notice, nothing sent
    | Sent(request: Remote.Request, outcome: Remote.Outcome)

  /** `if (!norm)` (line 250): the normalised URL is rejected when it is
      falsy, that is, `null` or the empty string. */
  function UrlRejected(norm: Option<string>): (rejected: bool)
    ensures rejected <==> norm.None? || norm.value == ""
  {
    !Remote.Truthy(norm)
  }

  class LinkShort {
    /** localStorage 'ls_history' */
    var historySlot: History.Slot
    /** localStorage 'ls_theme' (`None`: never stored) */
    var themeSlot: Option<string>
    /** document.body.className */
    var bodyClass: string

    /** Page load (lines 16-18): the stored theme, or else the system
        preference, is applied; neither storage key is written. */
    constructor (storedHistory: History.Slot, storedTheme: Option<string>, prefersLight: bool)
      ensures bodyClass == "light" || bodyClass == ""
      ensures historySlot == storedHistory && themeSlot == storedTheme
      ensures bodyClass == Theme.BodyClass(Theme.Initial(storedTheme, prefersLight))
    {
      historySlot := storedHistory;
      themeSlot := storedTheme;
      bodyClass := Theme.BodyClass(Theme.Initial(storedTheme, prefersLight));
    }

    /** The theme the page shows (`classList.contains('light')`, line 24). */
    function ShownTheme(): (t: Theme.Theme)
      reads this
      ensures t == Theme.Light <==> bodyClass == "light"
    {
      Theme.Shown(bodyClass)
    }

    /** `themeToggle.onclick` (lines 23-27): the shown theme flips, and the
        new theme's name is stored. Like every `applyTheme`, it leaves the
        body class "light" or empty. */
    method ToggleTheme()
      modifies this`themeSlot, this`bodyClass
      ensures bodyClass == "light" || bodyClass == ""
      ensures ShownTheme() == Theme.Flip(old(ShownTheme()))
      ensures themeSlot == Some(Theme.Name(ShownTheme()))
    {
      var t := if bodyClass == "light" then "dark" else "light";
      themeSlot := Some(t);
      bodyClass := Theme.BodyClass(t);
    }

    /** `getHistory()` (lines 169-175). */
    method GetHistory() returns (hist: seq<History.Entry>)
      ensures historySlot.Stored? ==> hist == historySlot.entries
      ensures !historySlot.Stored? ==> hist == []
    {
      hist := History.Read(historySlot);
    }

    /** `saveHistory(item)` (lines 176-180): read the list, put the item in
        front, write back the first 50. */
    method SaveHistory(item: History.Entry)
      modifies this`historySlot
      ensures historySlot == History.Stored(History.Prepend(item, History.Read(old(historySlot))))
    {
      var hist := GetHistory();
      hist := [item] + hist;
      historySlot := History.Stored(hist[..History.Min(|hist|, History.Capacity)]);
    }

    /** `clearHistory.onclick` (lines 204-209): when the user confirms, the
        key is removed and the history reads as empty; otherwise nothing
        changes. */
    method ClearHistory(confirmed: bool)
      modifies this`historySlot
      ensures confirmed ==> historySlot == History.Absent && History.Read(historySlot) == []
      ensures !confirmed ==> historySlot == old(historySlot)
    {
      if confirmed {
        historySlot := History.Absent;
      }
    }

    /** `handleShorten()` (lines 247-274). `rawUrl` and `rawAlias` are the
        two fields' contents, `domain` the chosen service, `logstats` the
        statistics box, `callback` the random callback name, `parse` the
        browser's URL parser, `respond` what becomes of the request, and
        `now` the clock. The URL is checked first, then the alias; only a
        resolved request writes history, with the normalised URL. */
    method HandleShorten(rawUrl: string, rawAlias: string, domain: string, logstats: bool,
                         callback: string, parse: string -> Option<string>,
                         respond: Remote.Request -> Remote.Transport, now: int)
      returns (status: ShortenStatus)
      modifies this`historySlot
      ensures var norm := Url.NormalizeUrl(Text.Trim(rawUrl), parse);
        UrlRejected(norm) ==> status == InvalidUrl
      ensures var norm := Url.NormalizeUrl(Text.Trim(rawUrl), parse);
        !UrlRejected(norm) && !Alias.Accepted(Text.Trim(rawAlias)) ==> status == InvalidAlias
      ensures var norm := Url.NormalizeUrl(Text.Trim(rawUrl), parse);
        var al := Text.Trim(rawAlias);
        !UrlRejected(norm) && Alias.Accepted(al) ==>
          var req := Remote.Request(domain, Remote.BuildParams(callback, norm.value, al, logstats));
          status == Sent(req, Remote.Settle(respond(req)))
      ensures status.Sent? && status.outcome.Resolved? ==>
        var entry := History.Entry(Url.NormalizeUrl(Text.Trim(rawUrl), parse).value, status.outcome.shortUrl, now);
        historySlot == History.Stored(History.Prepend(entry, History.Read(old(historySlot))))
      ensures !(status.Sent? && status.outcome.Resolved?) ==> historySlot == old(historySlot)
    {
      var raw := Text.Trim(rawUrl);
      var norm := Url.NormalizeUrl(raw, parse);
      if UrlRejected(norm) {
        return InvalidUrl;
      }
      var al := Text.Trim(rawAlias);
      if al != "" && !Alias.PatternTest(al) {
        return InvalidAlias;
      }
      var request := Remote.Request(domain, Remote.BuildParams(callback, norm.value, al, logstats));
      var outcome := Remote.Settle(respond(request));
      if outcome.Resolved? {
        SaveHistory(History.Entry(norm.value, outcome.shortUrl, now));
      }
      status := Sent(request, outcome);
    }
  }
}

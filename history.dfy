/** The shortening history kept under the local-storage key `ls_history`
    (linkshort/app.js:168-180, 204-209): a newest-first list of entries,
    capped at 50. */
module History {

  /** One successful shortening: the normalised long URL, the short URL the
      service returned, and the time in epoch milliseconds. */
  datatype Entry = Entry(longUrl: string, shortUrl: string, ts: int)

  /** What the storage key holds: nothing (never written, or removed by
      "clear"), a list of entries, or text that `JSON.parse` rejects. */
  datatype Slot = Absent | Stored(entries: seq<Entry>) | Unreadable

  /** The most entries `saveHistory` keeps (`hist.slice(0, 50)`). */
  const Capacity: nat := 50

  function Min(a: nat, b: nat): nat {
    if a <= b then a else b
  }

  /** `getHistory()`: the stored list; a missing key reads as `'[]'`, and
      text that does not parse reads as the empty list too. */
  function Read(slot: Slot): (h: seq<Entry>)
    ensures slot.Stored? ==> h == slot.entries
    ensures !slot.Stored? ==> h == []
  {
    match slot
    case Absent => []
    case Stored(entries) => entries
    case Unreadable => []
  }

  /** `hist.unshift(item)` followed by `hist.slice(0, 50)`: the new item comes
      first, every kept old entry moves one place down, and at most 50
      entries remain (the oldest fall off the end). */
  function Prepend(item: Entry, h: seq<Entry>): (r: seq<Entry>)
    ensures |r| == Min(|h| + 1, Capacity)
    ensures r[0] == item
    ensures forall i :: 0 <= i < |r| - 1 ==> r[i + 1] == h[i]
  {
    var hist := [item] + h;
    hist[..Min(|hist|, Capacity)]
  }

  /** The history after saving `items` one after another (oldest of them
      first), starting from `h`: after at least one save it holds
      min(|h| + N, 50) entries, the
      saved items first, newest first, followed by the old entries in their
      order, as far as the 50 slots reach. After 51 saves the first item
      saved is gone. */
  function SaveAll(h: seq<Entry>, items: seq<Entry>): (r: seq<Entry>)
    ensures items == [] ==> r == h
    ensures items != [] ==> |r| == Min(|h| + |items|, Capacity)
    ensures forall i :: 0 <= i < Min(|items|, Capacity) ==> r[i] == items[|items| - 1 - i]
    ensures forall j :: 0 <= j < |h| && |items| + j < Capacity ==> r[|items| + j] == h[j]
  {
    if items == [] then h
    else
      var front := items[..|items| - 1];
      var prev := SaveAll(h, front);
      var r := Prepend(items[|items| - 1], prev);
      assert forall i :: 0 < i < Min(|items|, Capacity) ==> r[i] == items[|items| - 1 - i] by {
        forall i | 0 < i < Min(|items|, Capacity) ensures r[i] == items[|items| - 1 - i] {
          assert r[i] == prev[i - 1];
          assert front[|front| - 1 - (i - 1)] == items[|items| - 1 - i];
        }
      }
      assert forall j :: 0 <= j < |h| && |items| + j < Capacity ==> r[|items| + j] == h[j] by {
        forall j | 0 <= j < |h| && |items| + j < Capacity ensures r[|items| + j] == h[j] {
          assert r[|items| + j] == prev[|front| + j];
        }
      }
      r
  }
}

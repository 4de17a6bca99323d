/** The Python program (`main.py`): its duration parser (a match at the start
    of the text only), its formatter (a list of parts joined by spaces), its
    listing loop (`while True` with `break`), its per-item fetch and its summing
    loop. HTTP and JSON decoding are abstracted into `Page` and `Details`. */
module PythonMain {
  import opened Wrappers
  import opened Decimal
  import opened PlaylistUrl
  import opened Iso8601
  import opened DurationFormat
  import opened Pagination
  import opened Totals

  /** The most whole seconds a `timedelta` holds: 999999999 days and 23:59:59. */
  const TimedeltaMax: nat := 999999999 * 86400 + 86399

  /** `timedelta(seconds=n)`: an OverflowError (None) past its range. */
  function Timedelta(n: nat): (r: Option<nat>)
    ensures r.Some? <==> n <= TimedeltaMax
    ensures r.Some? ==> r.value == n
  {
    if n <= TimedeltaMax then Some(n) else None
  }

  /** `parse_iso8601_duration`: `pattern.match` anchors the pattern at the
      start only, so text after the matched part is ignored; with no match
      (no leading "PT") the result is zero seconds, and `timedelta` raises
      (None) past its range. */
  function ParseIso8601Duration(s: string): (r: Option<nat>)
    ensures r != Some(0) ==> |s| >= 2 && s[..2] == "PT"
    ensures r.Some? ==> r.value <= TimedeltaMax
  {
    match MatchPrefix(s)
    case Some(g) => Timedelta(TotalSeconds(g))
    case None => Some(0)
  }

  /** Without a leading "PT" nothing matches and the result is 0; otherwise the
      result is the value of the longest prefix of the text in the grammar. */
  lemma ParseLongestPrefix(s: string)
    ensures !(|s| >= 2 && s[..2] == "PT") ==> ParseIso8601Duration(s) == Some(0)
    ensures |s| >= 2 && s[..2] == "PT" ==>
      exists g :: ValidGroups(g) && Spell(g) <= s && ParseIso8601Duration(s) == Timedelta(TotalSeconds(g)) &&
        forall g' :: ValidGroups(g') && Spell(g') <= s ==> |Spell(g')| <= |Spell(g)|
  {
    var m := MatchPrefix(s);
    if m.Some? {
      forall g' | ValidGroups(g') && Spell(g') <= s
        ensures |Spell(g')| <= |Spell(m.value)|
      {
        MatchPrefixLongest(s, g');
      }
    }
  }

  /** A text of the grammar followed by a tail that cannot continue the match
      (empty, starting with a non-digit, or after a seconds group) parses to
      the value of the text alone. */
  lemma ParseIgnoresTail(g: Groups, t: string)
    requires ValidGroups(g)
    requires t == [] || !IsDigit(t[0]) || g.seconds.Some?
    ensures ParseIso8601Duration(Spell(g) + t) == Timedelta(TotalSeconds(g))
  {
    MatchSpelledTail(g, t);
  }

  /** `format_duration`: the units by chained `divmod`, a part for each unit
      that is shown, joined by single spaces. The text is exactly the
      `Formatted` one. */
  method FormatDuration(totalSeconds: nat) returns (text: string)
    ensures text == Formatted(totalSeconds)
  {
    var days, remainder := totalSeconds / 86400, totalSeconds % 86400;
    var hours;
    hours, remainder := remainder / 3600, remainder % 3600;
    var minutes, seconds := remainder / 60, remainder % 60;

    var parts: seq<string> := [];
    if days != 0 {
      parts := parts + [Show(days) + "d"];
    }
    if hours != 0 || days != 0 {
      parts := parts + [Show(hours) + "h"];
    }
    if minutes != 0 || hours != 0 || days != 0 {
      parts := parts + [Show(minutes) + "m"];
    }
    parts := parts + [Show(seconds) + "s"];

    ghost var all := AllSegments(Decompose(totalSeconds));
    assert parts == all[Omitted(Decompose(totalSeconds))..];
    text := Join(parts);
  }

  /** One page of `fetch_playlist_items`: a non-200 status raises, a page
      without `items` counts as empty, and each item's id is appended to the
      ids gathered so far, in order. */
  method ReadPage(videoIds: seq<string>, response: Page) returns (r: Result<seq<string>, ListError>)
    ensures r == Prepend(videoIds, PageIds(response, false))
  {
    if response.status != 200 {
      return Failure(HttpStatus(response.status));
    }
    var items := if response.items.Some? then response.items.value else [];
    var ids := videoIds;
    for j := 0 to |items|
      invariant ids == videoIds + items[..j]
    {
      ids := ids + [items[j]];
    }
    assert items[..|items|] == items;
    return Success(ids);
  }

  /** `fetch_playlist_items`: requests pages, the first with an empty token and
      each later one with the previous page's token, appending every page's ids
      (none for a page without `items`) and stopping after the first page whose
      token is missing or empty; a non-200 page raises. */
  method FetchPlaylistItems(pages: seq<Page>) returns (result: Result<seq<string>, ListError>, requests: seq<string>)
    ensures result == Listing(pages, false)
    ensures |requests| == if StopIndex(pages, false) < |pages| then StopIndex(pages, false) + 1 else |pages|
    ensures forall k :: 0 <= k < |requests| ==> requests[k] == RequestToken(pages, k)
  {
    var videoIds: seq<string> := [];
    var nextPageToken := "";
    var i := 0;
    requests := [];
    while true
      invariant i <= StopIndex(pages, false)
      invariant videoIds == Flatten(pages[..i])
      invariant nextPageToken == RequestToken(pages, i)
      invariant |requests| == i
      invariant forall k :: 0 <= k < i ==> requests[k] == RequestToken(pages, k)
      decreases |pages| - i
    {
      if i == |pages| {
        ListingExhausted(pages, false);
        result := Failure(Exhausted);
        return;
      }
      requests := requests + [nextPageToken];
      assert forall k :: 0 <= k <= i ==> requests[k] == RequestToken(pages, k);
      var response := pages[i];
      var read := ReadPage(videoIds, response);
      if read.Failure? {
        ListingEndsAt(pages, i, false);
        result := read;
        return;
      }
      PageAppends(pages, i, false);
      videoIds := read.value;
      nextPageToken := NextToken(response);
      i := i + 1;
      if nextPageToken == "" {
        ListingEndsAt(pages, i - 1, false);
        assert Listing(pages, false) == Success(videoIds);
        break;
      }
    }
    result := Success(videoIds);
  }

  /** The summing loop of `main`: each id's duration is added to the total;
      a fetch that raises, or an addition that overflows the `timedelta`, is
      reported by its id and the loop goes on. */
  method SumDurations(videoIds: seq<string>, lookup: string -> Details) returns (total: nat, failed: seq<string>)
    ensures total == Total(Outcomes(videoIds, lookup, ParseIso8601Duration), TimedeltaMax)
    ensures failed == Skipped(videoIds, Outcomes(videoIds, lookup, ParseIso8601Duration), TimedeltaMax)
  {
    ghost var outcomes := Outcomes(videoIds, lookup, ParseIso8601Duration);
    total := 0;
    failed := [];
    for i := 0 to |videoIds|
      invariant total == Total(outcomes[..i], TimedeltaMax)
      invariant failed == Skipped(videoIds[..i], outcomes[..i], TimedeltaMax)
    {
      assert outcomes[..i + 1][..i] == outcomes[..i] && videoIds[..i + 1][..i] == videoIds[..i];
      var duration := FetchDuration(lookup(videoIds[i]), ParseIso8601Duration);
      if duration.Some? && total + duration.value <= TimedeltaMax {
        total := total + duration.value;
      } else {
        failed := failed + [videoIds[i]];
      }
    }
    assert outcomes[..|videoIds|] == outcomes && videoIds[..|videoIds|] == videoIds;
  }

  /** `main` after its argument check: an unusable URL stops the run; a failed
      listing is reported; otherwise the total and the failed ids. */
  method CountPlaylist(url: string, pages: seq<Page>, lookup: string -> Details) returns (report: Report)
    ensures ExtractPlaylistId(url) == "" ==> report == InvalidUrl
    ensures ExtractPlaylistId(url) != "" && Listing(pages, false).Failure? ==>
      report == ListingFailed(Listing(pages, false).error)
    ensures ExtractPlaylistId(url) != "" && Listing(pages, false).Success? ==>
      var ids := Listing(pages, false).value;
      report == Counted(Total(Outcomes(ids, lookup, ParseIso8601Duration), TimedeltaMax), Skipped(ids, Outcomes(ids, lookup, ParseIso8601Duration), TimedeltaMax))
  {
    var playlistId := ExtractPlaylistId(url);
    if playlistId == "" {
      return InvalidUrl;
    }
    var listed, _ := FetchPlaylistItems(pages);
    if listed.Failure? {
      return ListingFailed(listed.error);
    }
    var total, failed := SumDurations(listed.value, lookup);
    report := Counted(total, failed);
  }
}

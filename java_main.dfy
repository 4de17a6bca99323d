/** The Java program (`Main.java`): its duration parser (whole-text match), its
    formatter (a `StringBuilder` with trailing spaces, then `trim()`), its
    listing loop (a do-while over pages), its per-item fetch and its summing
    loop. HTTP and JSON decoding are abstracted into `Page` and `Details`. */
module JavaMain {
  import opened Wrappers
  import opened Decimal
  import opened PlaylistUrl
  import opened Iso8601
  import opened DurationFormat
  import opened Pagination
  import opened Totals

  /** The most seconds a `Duration` built from a `long` holds. */
  const LongMax: nat := 9223372036854775807

  /** `parseISO8601Duration`: `matcher.matches()` demands that the pattern cover
      the whole text, anything else giving zero seconds; `Integer.parseInt`
      throws (None) for a group whose value does not fit an `int`. Only a text
      the pattern matches in full gives anything but zero seconds. */
  function ParseIso8601Duration(s: string): (r: Option<nat>)
    ensures r != Some(0) ==> Matches(s)
  {
    match MatchPrefix(s)
    case Some(g) =>
      if |Spell(g)| != |s| then Some(0)
      else
        assert Spell(g) == s;
        if FitsInt(g) then Some(TotalSeconds(g)) else None
    case None => Some(0)
  }

  /** A text of the grammar parses to hours * 3600 + minutes * 60 + seconds,
      an absent group counting 0, unless a group overflows an `int`. */
  lemma ParseWholeMatch(g: Groups)
    requires ValidGroups(g)
    ensures ParseIso8601Duration(Spell(g)) == if FitsInt(g) then Some(TotalSeconds(g)) else None
  {
    MatchSpelled(g);
  }

  /** Java's `String.trim()`: drops every leading and trailing character whose
      code is at most that of a space. */
  function Trim(s: string): (r: string)
    ensures r == [] || (r[0] > ' ' && r[|r| - 1] > ' ')
    ensures |s| > 0 && s[0] > ' ' && s[|s| - 1] > ' ' ==> r == s
    ensures exists i, j :: 0 <= i <= j <= |s| && r == s[i..j] && Blank(s, 0, i) && Blank(s, j, |s|)
  {
    TrimSpan(s);
    TrimEnd(TrimStart(s))
  }

  /** What the two passes leave is a slice of `s` with only blanks around it. */
  lemma TrimSpan(s: string)
    ensures var r := TrimEnd(TrimStart(s));
      exists i, j :: 0 <= i <= j <= |s| && r == s[i..j] && Blank(s, 0, i) && Blank(s, j, |s|)
  {
    var t := TrimStart(s);
    var r := TrimEnd(t);
    SliceOfSuffix(s, t, r);
  }

  /** A blank-bounded prefix of a suffix left after dropping blanks is a
      blank-bounded slice. */
  lemma SliceOfSuffix(s: string, t: string, r: string)
    requires |t| <= |s| && t == s[|s| - |t|..] && Blank(s, 0, |s| - |t|)
    requires |r| <= |t| && r == t[..|r|] && Blank(t, |r|, |t|)
    ensures exists i, j :: 0 <= i <= j <= |s| && r == s[i..j] && Blank(s, 0, i) && Blank(s, j, |s|)
  {
    var i := |s| - |t|;
    var j := i + |r|;
    assert r == s[i..j];
    assert Blank(s, j, |s|) by {
      forall k | j <= k < |s| ensures s[k] <= ' ' {
        assert s[k] == t[k - i];
      }
    }
  }

  /** Every character of `s[i..j]` is at most a space. */
  predicate Blank(s: string, i: nat, j: nat)
    requires i <= j <= |s|
  {
    forall k :: i <= k < j ==> s[k] <= ' '
  }

  function TrimStart(s: string): (r: string)
    ensures |r| <= |s| && r == s[|s| - |r|..]
    ensures Blank(s, 0, |s| - |r|)
    ensures r == [] || r[0] > ' '
    ensures |s| > 0 && s[0] > ' ' ==> r == s
    decreases |s|
  {
    if s != [] && s[0] <= ' ' then TrimStart(s[1..]) else s
  }

  function TrimEnd(s: string): (r: string)
    ensures |r| <= |s| && r == s[..|r|]
    ensures Blank(s, |r|, |s|)
    ensures r == [] || r[|r| - 1] > ' '
    ensures |s| > 0 && s[|s| - 1] > ' ' ==> r == s
    ensures |r| > 0 ==> r[0] == s[0]
    decreases |s|
  {
    if s != [] && s[|s| - 1] <= ' ' then TrimEnd(s[..|s| - 1]) else s
  }

  /** `formatDuration`: the units by division and remainder, each present
      segment appended with a trailing space, the seconds last, then trimmed.
      The text is exactly the `Formatted` one. */
  method FormatDuration(totalSeconds: nat) returns (text: string)
    ensures text == Formatted(totalSeconds)
  {
    var days := totalSeconds / (24 * 3600);
    var hours := (totalSeconds % (24 * 3600)) / 3600;
    var minutes := (totalSeconds % 3600) / 60;
    var seconds := totalSeconds % 60;

    ghost var all := AllSegments(Breakdown(days, hours, minutes, seconds));
    var sb := "";
    if days > 0 {
      sb := sb + Show(days) + "d ";
      assert sb == all[0] + " ";
    }
    ghost var sb1 := sb;
    if hours > 0 || days > 0 {
      sb := sb + Show(hours) + "h ";
      assert sb == sb1 + (all[1] + " ");
    }
    ghost var sb2 := sb;
    if minutes > 0 || hours > 0 || days > 0 {
      sb := sb + Show(minutes) + "m ";
      assert sb == sb2 + (all[2] + " ");
    }
    ghost var sb3 := sb;
    sb := sb + Show(seconds) + "s";
    assert sb == sb3 + all[3];

    assert sb == Formatted(totalSeconds) by {
      JavaUnits(totalSeconds);
      SegmentsByRule(Decompose(totalSeconds));
    }
    TrimKeepsFormatted(totalSeconds);
    text := Trim(sb);
  }

  /** Trimming leaves the formatted text alone: it opens with a digit and
      ends with 's'. */
  lemma TrimKeepsFormatted(total: nat)
    ensures Trim(Formatted(total)) == Formatted(total)
  {
    FormattedStartsWithDigit(total);
    FormattedSpacing(total);
  }

  /** The units `formatDuration` computes are the normal breakdown. */
  lemma JavaUnits(total: nat)
    ensures Decompose(total) == Breakdown(total / (24 * 3600), total % (24 * 3600) / 3600, total % 3600 / 60, total % 60)
  {
    assert total % (24 * 3600) % 3600 == total % 3600;
    DecomposeUnique(total, Breakdown(total / (24 * 3600), total % (24 * 3600) / 3600, total % 3600 / 60, total % 60));
  }

  /** One page of `fetchPlaylistItems`: a non-200 status throws, a page
      without an `items` array throws, otherwise each item's id is appended
      to the ids gathered so far, in order. */
  method ReadPage(videoIds: seq<string>, response: Page) returns (r: Result<seq<string>, ListError>)
    ensures r == Prepend(videoIds, PageIds(response, true))
  {
    if response.status != 200 {
      return Failure(HttpStatus(response.status));
    }
    if response.items.None? {
      return Failure(MissingItems);
    }
    var items := response.items.value;
    var ids := videoIds;
    var j := 0;
    while j < |items|
      invariant 0 <= j <= |items|
      invariant ids == videoIds + items[..j]
    {
      ids := ids + [items[j]];
      j := j + 1;
    }
    assert items[..|items|] == items;
    return Success(ids);
  }

  /** `fetchPlaylistItems`: requests pages, the first with an empty token and
      each later one with the previous page's token, appending every page's ids
      until a page's token is empty; a non-200 page or a page without `items`
      aborts the call. */
  method FetchPlaylistItems(pages: seq<Page>) returns (result: Result<seq<string>, ListError>, requests: seq<string>)
    ensures result == Listing(pages, true)
    ensures |requests| == if StopIndex(pages, true) < |pages| then StopIndex(pages, true) + 1 else |pages|
    ensures forall k :: 0 <= k < |requests| ==> requests[k] == RequestToken(pages, k)
  {
    var videoIds: seq<string> := [];
    var nextPageToken := "";
    var i := 0;
    requests := [];
    while true
      invariant i <= StopIndex(pages, true)
      invariant videoIds == Flatten(pages[..i])
      invariant nextPageToken == RequestToken(pages, i)
      invariant |requests| == i
      invariant forall k :: 0 <= k < i ==> requests[k] == RequestToken(pages, k)
      decreases |pages| - i
    {
      if i == |pages| {
        ListingExhausted(pages, true);
        result := Failure(Exhausted);
        return;
      }
      requests := requests + [nextPageToken];
      assert forall k :: 0 <= k <= i ==> requests[k] == RequestToken(pages, k);
      var response := pages[i];
      var read := ReadPage(videoIds, response);
      if read.Failure? {
        ListingEndsAt(pages, i, true);
        result := read;
        return;
      }
      PageAppends(pages, i, true);
      videoIds := read.value;
      nextPageToken := NextToken(response);
      i := i + 1;
      if nextPageToken == "" {
        ListingEndsAt(pages, i - 1, true);
        result := Success(videoIds);
        return;
      }
    }
  }

  /** The summing loop of `main`: each id's duration is added to the total;
      a fetch that throws, or a `Duration.plus` that overflows a `long`, is
      reported by its id and the loop goes on. */
  method SumDurations(videoIds: seq<string>, lookup: string -> Details) returns (total: nat, failed: seq<string>)
    ensures total == Total(Outcomes(videoIds, lookup, ParseIso8601Duration), LongMax)
    ensures failed == Skipped(videoIds, Outcomes(videoIds, lookup, ParseIso8601Duration), LongMax)
  {
    ghost var outcomes := Outcomes(videoIds, lookup, ParseIso8601Duration);
    total := 0;
    failed := [];
    for i := 0 to |videoIds|
      invariant total == Total(outcomes[..i], LongMax)
      invariant failed == Skipped(videoIds[..i], outcomes[..i], LongMax)
    {
      assert outcomes[..i + 1][..i] == outcomes[..i] && videoIds[..i + 1][..i] == videoIds[..i];
      var duration := FetchDuration(lookup(videoIds[i]), ParseIso8601Duration);
      if duration.Some? && total + duration.value <= LongMax {
        total := total + duration.value;
      } else {
        failed := failed + [videoIds[i]];
      }
    }
    assert outcomes[..|videoIds|] == outcomes && videoIds[..|videoIds|] == videoIds;
  }

  /** `main` after its argument check: an unusable URL stops the run; a failed
      listing is reported; otherwise the total and the failed ids. */
  method CountPlaylist(url: string, pages: seq<Page>, lookup: string -> Details) returns (report: Report)
    ensures ExtractPlaylistId(url) == "" ==> report == InvalidUrl
    ensures ExtractPlaylistId(url) != "" && Listing(pages, true).Failure? ==>
      report == ListingFailed(Listing(pages, true).error)
    ensures ExtractPlaylistId(url) != "" && Listing(pages, true).Success? ==>
      var ids := Listing(pages, true).value;
      report == Counted(Total(Outcomes(ids, lookup, ParseIso8601Duration), LongMax), Skipped(ids, Outcomes(ids, lookup, ParseIso8601Duration), LongMax))
  {
    var playlistId := ExtractPlaylistId(url);
    if playlistId == "" {
      return InvalidUrl;
    }
    var listed, _ := FetchPlaylistItems(pages);
    if listed.Failure? {
      return ListingFailed(listed.error);
    }
    var total, failed := SumDurations(listed.value, lookup);
    report := Counted(total, failed);
  }
}

# YouTube playlist time counter — verified model

The program takes a YouTube playlist URL. It extracts the playlist identifier and lists the playlist's
videos page by page. Then it fetches each video's ISO 8601 duration (`PT#H#M#S`), adds the
durations up, and prints the total as `"<d>d <h>h <m>m <s>s"`. It exists twice: a Java program
(`Main.java`) and a Python script (`main.py`). This project models both, routine by routine:

- **the identifier extractor**: the leftmost search for `[?&]list=([a-zA-Z0-9_-]+)`. It is the same
  in both programs, because Java's `Matcher.find` and Python's `re.search` agree on this pattern.
  It is written as a hand-made scanner (`PlaylistUrl`).
- **the duration parser**: the grammar `PT(?:(\d+)H)?(?:(\d+)M)?(?:(\d+)S)?`, written as capture
  groups (`Iso8601.Groups`) and the text they spell (`Iso8601.Spell`), and a greedy scanner
  (`Iso8601.MatchPrefix`). The scanner is proved to find the groups of every text of the grammar,
  and to find the longest prefix of the grammar. From this:
  - Java's `matches()` is modelled as a scan that must cover the whole text;
  - Python's `pattern.match` is modelled as the scan's prefix.
  - Java's `Integer.parseInt` throws for values above 2147483647.
  - Python's `timedelta` raises past 999999999 days.
  - In both programs that exception skips the video.
- **the duration formatter**: the breakdown into days, hours, minutes and seconds
  (`DurationFormat.Decompose`), and the rule for which segments are shown. The text is specified as
  `DurationFormat.Formatted`. Java builds it with a `StringBuilder` and `trim()`; Python builds it
  with a list of parts and `" ".join`. Both are methods proved to produce exactly `Formatted`. The
  text is read back to the same number of seconds.
- **the listing loop**: a Java do-while and a Python `while True` over an abstract sequence of page
  responses (`Pagination.Page`). Both are proved against `Pagination.Listing`, a page-by-page
  definition with a closed form. The loops also record the page token sent with each request.
- **the summing loop in `main`**: each video's fetch is abstracted as a function from the id to its
  details response (`Totals.Details`). A failure, or an addition that would overflow the duration
  type, leaves the total unchanged. That video is reported and the loop goes on (`Totals.Total`,
  `Totals.Skipped`). When nothing overflows, the total equals the plain sum of the fetched durations.
- **the run** after the argument check (`JavaMain.CountPlaylist`, `PythonMain.CountPlaylist`): an
  invalid URL, a failed listing, or the total with the ids that failed.

`Dialects` states where the two programs agree and where they differ:
- `"PT1H junk"` and `"PT1S1H"`;
- a page without `items`;
- numbers past Java's `int`.

`Examples` pins down concrete cases.

Modules: `Wrappers`, `Decimal`, `PlaylistUrl`, `Iso8601`, `DurationFormat`, `Pagination`, `Totals`,
`JavaMain`, `PythonMain`, `Dialects`, `Examples`.

Two details of the code matter:
- The extractor matches `?list=` or `&list=` anywhere in the text, not only as a query parameter.
  It returns the leading run of identifier characters, so `&list=PL!x` gives `PL`.
- Python's parser gives 0 when the text does not start with "PT", and the match fails exactly then
  (`PythonMain.ParseLongestPrefix`). "PT" and "PT0S" also give 0, and an oversized value raises.

## Model

| member | source | states |
|---|---|---|
| Decimal.Show | src/main/java/np/com/sudanchapagain/youtube_playlist_time_counter/Main.java:99-102 | the number written by `append(long)` is a non-empty run of ASCII digits, with no leading zero unless it is 0 |
| Decimal.ValueOfShow | main.py:77-82 | reading back the digits written for `n` gives `n` |
| PlaylistUrl.RunEnd | src/main/java/np/com/sudanchapagain/youtube_playlist_time_counter/Main.java:19 | the greedy `[a-zA-Z0-9_-]+` stops at the end of the text or at the first non-identifier character, and everything before it is an identifier character |
| PlaylistUrl.SearchFrom | src/main/java/np/com/sudanchapagain/youtube_playlist_time_counter/Main.java:19-24 | scanning from `k`: "" exactly when no position from `k` on matches; otherwise the capture at the first matching position |
| PlaylistUrl.ExtractPlaylistId | src/main/java/np/com/sudanchapagain/youtube_playlist_time_counter/Main.java:18-25 | "" exactly when no `?list=`/`&list=` is followed by an identifier character; otherwise the capture at the leftmost such occurrence, so an earlier failed occurrence does not stop the search (`re.search` in main.py:11-13 behaves the same) |
| PlaylistUrl.ExtractedIsMaximalRun | src/main/java/np/com/sudanchapagain/youtube_playlist_time_counter/Main.java:19-22 | a non-empty result consists of identifier characters only, follows `?list=` or `&list=` directly, and is followed by the end of the text or a non-identifier character |
| PlaylistUrl.RunIsMaximal | src/main/java/np/com/sudanchapagain/youtube_playlist_time_counter/Main.java:19 | the capture at any matching position is such a maximal run |
| Iso8601.DigitsEnd | src/main/java/np/com/sudanchapagain/youtube_playlist_time_counter/Main.java:58 | the greedy `\d+` covers digits only and stops at the end or at a non-digit |
| Iso8601.ScanGroup | src/main/java/np/com/sudanchapagain/youtube_playlist_time_counter/Main.java:58 | an optional group `(?:(\d+)U)?` yields a numeral or nothing, and the text it covers stands in the input at that position |
| Iso8601.MatchPrefix | main.py:43-44 | the pattern matches at the start exactly when the text begins with "PT"; the groups found are numerals and the text they spell is a prefix of the input |
| Iso8601.MatchSpelledTail | main.py:43-44 | for any groups, the scan of their text followed by a tail that does not begin with a digit (or any tail once the seconds group is present) finds exactly those groups |
| Iso8601.MatchSpelled | src/main/java/np/com/sudanchapagain/youtube_playlist_time_counter/Main.java:58-60 | the scan of any text of the grammar finds the groups that spell it |
| Iso8601.SpellInjective | src/main/java/np/com/sudanchapagain/youtube_playlist_time_counter/Main.java:58 | the grammar is unambiguous: different groups spell different texts |
| Iso8601.MatchPrefixLongest | main.py:43-44 | no prefix of the input in the grammar is longer than the one the scan finds, so the greedy scan is the match a backtracking engine returns |
| JavaMain.ParseWholeMatch | src/main/java/np/com/sudanchapagain/youtube_playlist_time_counter/Main.java:57-64 | a text of the grammar parses to hours·3600 + minutes·60 + seconds, an absent group counting 0, unless a group's value exceeds an `int`, where `parseInt` throws |
| JavaMain.ParseIso8601Duration | src/main/java/np/com/sudanchapagain/youtube_playlist_time_counter/Main.java:57-67 | only a text the pattern matches in full (`matches()`) gives anything but zero seconds; any other text gives `Duration.ZERO`. Its value on such a text is stated by `ParseWholeMatch` |
| JavaMain.Trim | src/main/java/np/com/sudanchapagain/youtube_playlist_time_counter/Main.java:104 | `trim()` returns a slice `s[i..j]` of its input with only characters ≤ ' ' before `i` and after `j`, and none at either end of the result; a text whose ends are both above ' ' is returned unchanged |
| JavaMain.JavaUnits | src/main/java/np/com/sudanchapagain/youtube_playlist_time_counter/Main.java:93-96 | `/ (24*3600)`, `% (24*3600) / 3600`, `% 3600 / 60` and `% 60` give the unique normal breakdown |
| JavaMain.TrimKeepsFormatted | src/main/java/np/com/sudanchapagain/youtube_playlist_time_counter/Main.java:104 | the final `trim()` does not change the formatted text |
| JavaMain.FormatDuration | src/main/java/np/com/sudanchapagain/youtube_playlist_time_counter/Main.java:90-105 | the `StringBuilder` with trailing spaces, trimmed, produces exactly `Formatted(totalSeconds)` |
| Totals.FetchDuration | src/main/java/np/com/sudanchapagain/youtube_playlist_time_counter/Main.java:69-88 | fails for a non-200 status or no items; otherwise the first item's duration, read by the program's own parser, which can itself throw. `fetch_video_duration` (main.py:55-66) is the same with the Python parser |
| Totals.Outcomes | src/main/java/np/com/sudanchapagain/youtube_playlist_time_counter/Main.java:132-134 | one fetch outcome per id, in list order; main.py:110-112 does the same |
| JavaMain.ReadPage | src/main/java/np/com/sudanchapagain/youtube_playlist_time_counter/Main.java:38-48 | a non-200 page throws, a page without `items` throws (`getJSONArray`), otherwise the page's ids are appended in order |
| JavaMain.FetchPlaylistItems | src/main/java/np/com/sudanchapagain/youtube_playlist_time_counter/Main.java:27-55 | the do-while returns `Listing(pages, true)`; it makes exactly as many requests as pages up to the stopping one, the first with "" and each later one with the previous page's token |
| JavaMain.SumDurations | src/main/java/np/com/sudanchapagain/youtube_playlist_time_counter/Main.java:131-138 | the total is `Total` of the outcomes under `Long.MAX_VALUE` and the reported ids are `Skipped`: failures and overflowing additions, in order |
| JavaMain.CountPlaylist | src/main/java/np/com/sudanchapagain/youtube_playlist_time_counter/Main.java:118-138 | an empty id stops the run; a failed listing is reported with its error; otherwise the total and failed ids of the listed videos |
| PythonMain.Timedelta | main.py:52 | `timedelta` accepts a number of seconds exactly when it is within its range, and then holds it unchanged |
| PythonMain.ParseIso8601Duration | main.py:42-52 | anything but zero seconds needs a leading "PT", and every value it returns is within the `timedelta` range. Its value is stated by `ParseLongestPrefix` and `ParseIgnoresTail` |
| PythonMain.ParseLongestPrefix | main.py:42-52 | without a leading "PT" the result is 0; otherwise it is the value of the longest prefix of the text in the grammar, or an exception when that value passes the `timedelta` range |
| PythonMain.ParseIgnoresTail | main.py:43-52 | text of the grammar followed by a tail that does not begin with a digit (or any tail once the seconds group is present) parses to the value of that text alone, hours·3600 + minutes·60 + seconds, or raises when that passes the `timedelta` range |
| PythonMain.FormatDuration | main.py:69-84 | chained `divmod`, a list of parts and `" ".join` produce exactly `Formatted(totalSeconds)` |
| PythonMain.ReadPage | main.py:28-34 | a non-200 page raises, a page without `items` counts as empty, otherwise the page's ids are appended in order |
| PythonMain.FetchPlaylistItems | main.py:16-39 | the `while True` loop returns `Listing(pages, false)`; it makes exactly as many requests as pages up to the stopping one, the first with "" and each later one with the previous page's token |
| PythonMain.SumDurations | main.py:106-115 | the total is `Total` of the outcomes under the `timedelta` maximum and the reported ids are `Skipped`: failures and overflowing additions, in order |
| PythonMain.CountPlaylist | main.py:97-115 | an empty id stops the run; a failed listing is reported with its error; otherwise the total and failed ids of the listed videos |
| DurationFormat.Decompose | main.py:70-73 | the breakdown recombines to the total with hours < 24, minutes < 60 and seconds < 60 |
| DurationFormat.DecomposeUnique | src/main/java/np/com/sudanchapagain/youtube_playlist_time_counter/Main.java:93-96 | any breakdown with those bounds that recombines to the total is that breakdown |
| DurationFormat.Omitted | src/main/java/np/com/sudanchapagain/youtube_playlist_time_counter/Main.java:99-101 | the dropped leading units are exactly the zero ones before the first non-zero unit; seconds are never dropped |
| DurationFormat.SegmentsByRule | src/main/java/np/com/sudanchapagain/youtube_playlist_time_counter/Main.java:98-102 | the joined segments equal the builder's text: each shown segment before the seconds followed by one space, then the seconds segment |
| DurationFormat.SplitJoin | main.py:84 | splitting the joined parts on " " gives back the parts |
| DurationFormat.JoinSpacing | main.py:84 | joining non-empty words with " " gives a text with no leading, trailing or doubled space |
| DurationFormat.FormattedSpacing | src/main/java/np/com/sudanchapagain/youtube_playlist_time_counter/Main.java:98-104 | the text is single-spaced with no leading or trailing space and ends with 's' |
| DurationFormat.FormattedStartsWithDigit | src/main/java/np/com/sudanchapagain/youtube_playlist_time_counter/Main.java:99-102 | the text begins with a digit |
| DurationFormat.FormattedUnderMinute | main.py:82-84 | under a minute the text is the seconds numeral followed by 's' only |
| DurationFormat.FormattedUnits | main.py:75-82 | 'd' appears iff days > 0, 'h' iff days or hours > 0, 'm' iff days, hours or minutes > 0, and 's' always |
| DurationFormat.UnitPresent | src/main/java/np/com/sudanchapagain/youtube_playlist_time_counter/Main.java:99-102 | a unit's letter appears exactly when its segment is not dropped |
| DurationFormat.ReadShown | main.py:77-82 | a segment "<n><unit>" reads back as n times the unit's seconds |
| DurationFormat.FormattedReadsBack | main.py:69-84 | reading the formatted text back gives the original number of seconds, so formatting loses nothing |
| Pagination.PageIds | src/main/java/np/com/sudanchapagain/youtube_playlist_time_counter/Main.java:38-48 | a page fails exactly for a non-200 status or, when `items` is required, a missing `items`; otherwise it yields its items, or none when `items` is absent |
| Pagination.StopIndex | src/main/java/np/com/sudanchapagain/youtube_playlist_time_counter/Main.java:50-52 | the stopping page is the first that fails or has an empty token; every earlier page continues |
| Pagination.ListingClosedForm | src/main/java/np/com/sudanchapagain/youtube_playlist_time_counter/Main.java:31-52 | the page-by-page listing equals: the ids of every page up to the stopping one, in order, or the stopping page's error, or running out of pages |
| Pagination.ListingEndsAt | src/main/java/np/com/sudanchapagain/youtube_playlist_time_counter/Main.java:38-52 | when page i is the first that does not continue, the listing is the earlier pages' ids followed by page i's ids or replaced by its error |
| Pagination.ListingIgnoresLaterPages | main.py:36-38 | responses after the stopping page never affect the result |
| Pagination.StopIndexPrefix | main.py:36-38 | appending responses after the stopping page does not move it |
| Pagination.PageAppends | main.py:33-34 | reading one more good page appends its ids to the ids so far |
| Totals.DurationText | main.py:58-65 | the duration text exists exactly when the status is 200 and there is at least one item; it is the first item's |
| Totals.SumAppend | main.py:110-112 | the sum over a concatenation is the sum of the sums |
| Totals.SumSkipsFailure | src/main/java/np/com/sudanchapagain/youtube_playlist_time_counter/Main.java:132-137 | a failed item anywhere contributes nothing and the later items still count |
| Totals.SumCountsEachSuccess | main.py:110-112 | every fetched duration is part of the sum |
| Totals.FailedIdsAreFailures | main.py:111-114 | exactly the ids of failed fetches are reported |
| Totals.Total | src/main/java/np/com/sudanchapagain/youtube_playlist_time_counter/Main.java:131-138 | the running total never passes the limit of the duration type and never exceeds the plain sum of fetched durations |
| Totals.WithinLimit | main.py:108-114 | when the plain sum fits the limit, the total is that sum and exactly the failed fetches are reported |
| Dialects.ParsersAgreeOnWholeMatch | src/main/java/np/com/sudanchapagain/youtube_playlist_time_counter/Main.java:60-64 | on texts of the grammar the two parsers give the same value, except that Java throws where a group exceeds an `int` |
| Dialects.IntGroupsFitTimedelta | main.py:52 | groups within Java's `int` range never pass the `timedelta` range |
| Dialects.PythonParsesMatchedPrefix | main.py:44 | the Python result is the Java result for the prefix the pattern matches |
| Dialects.ParsersDifferOnTrailingText | main.py:43-44 | "PT1H junk" gives 0 in Java and 3600 in Python; "PT1S1H" gives 0 in Java and 1 in Python |
| Dialects.ParsersDifferOnHugeNumber | src/main/java/np/com/sudanchapagain/youtube_playlist_time_counter/Main.java:61-63 | for a seconds value past `Integer.MAX_VALUE` Java fails while Python reads the value, within the `timedelta` range |
| Dialects.ListingsDifferOnMissingItems | src/main/java/np/com/sudanchapagain/youtube_playlist_time_counter/Main.java:43 | a page without `items` aborts the Java listing but is an empty page for Python |
| Dialects.ListingsAgreeWithItems | main.py:32 | when every page has `items`, the two listings are the same |
| Examples.ExtractStopsAtNonIdChar | src/main/java/np/com/sudanchapagain/youtube_playlist_time_counter/Main.java:19-22 | "?v=x&list=PL&i=2" yields "PL" |
| Examples.ExtractSkipsEmptyOccurrence | main.py:12-13 | "?list=&list=Q" yields "Q" |
| Examples.ExtractWithoutList | main.py:13 | "?v=x" yields "" |
| Examples.ParseHours | src/main/java/np/com/sudanchapagain/youtube_playlist_time_counter/Main.java:61-64 | "PT2H" parses to 7200 |
| Examples.ParseSeconds | src/main/java/np/com/sudanchapagain/youtube_playlist_time_counter/Main.java:63-64 | "PT90S" parses to 90 |
| Examples.ParseEmptyDuration | src/main/java/np/com/sudanchapagain/youtube_playlist_time_counter/Main.java:61-64 | "PT" parses to 0 |
| Examples.ParseGarbage | src/main/java/np/com/sudanchapagain/youtube_playlist_time_counter/Main.java:66 | "garbage" and "P1D" parse to 0 |
| Examples.FormatZero | main.py:82-84 | 0 seconds is "0s" |
| Examples.FormatSecondsOnly | main.py:82-84 | 59 seconds is "59s" |
| Examples.FormatMinute | src/main/java/np/com/sudanchapagain/youtube_playlist_time_counter/Main.java:101-104 | 60 seconds is "1m 0s" |
| Examples.FormatHour | src/main/java/np/com/sudanchapagain/youtube_playlist_time_counter/Main.java:100-104 | 3661 seconds is "1h 1m 1s" |
| Examples.FormatDay | src/main/java/np/com/sudanchapagain/youtube_playlist_time_counter/Main.java:99-104 | 90000 seconds is "1d 1h 0m 0s" |
| Examples.ParseThenFormat | src/main/java/np/com/sudanchapagain/youtube_playlist_time_counter/Main.java:57-105 | "PT1H1M1S" parses to 3661, which formats as "1h 1m 1s" |
| Examples.ThreePages | main.py:19-38 | three pages with tokens "A", "B" and none list all their ids in order, in both the Python and the Java listing, requesting with "", "A" and "B" |
| Examples.MiddleItemFails | main.py:110-114 | a failed middle item adds nothing and is the only one reported |
| Examples.OverflowingItemSkipped | src/main/java/np/com/sudanchapagain/youtube_playlist_time_counter/Main.java:133-137 | an addition past the limit is skipped and reported, and later items are still added |

## Left out

- HTTP requests and JSON decoding (`httpClient.send`, `requests.get`, `org.json`, `response.json()`)
  are external calls. A listing response is given as a `Page`: status, optional item ids, optional
  next-page token. A details response is given as a `Details`: status, and the duration strings of
  its items. A details body without `items` appears as no durations, which both programs treat as a
  failure. The page size (50), the API key and the URLs are not modelled.
- The responses are a finite sequence. When every page carries a non-empty token, the model stops
  with `Exhausted`. This case does not exist in the programs, which would keep requesting.
- The per-video fetch is a deterministic function of the id. Repeated ids therefore get the same
  outcome, and network variability is not modelled.
- Console output, the usage and error messages, and the argument-count check in `main` are I/O and
  are not modelled. `CountPlaylist` starts from the URL argument, and its report stands for what is
  printed.
- The speed projection (`printDurationAtSpeed`, `print_duration_at_speed`) divides by a
  floating-point speed and is not modelled.
- Python's `\d` also matches non-ASCII Unicode decimal digits, and `int()` reads them. The model
  only knows ASCII digits.
- Python's `timedelta` keeps microseconds. Every value here is a whole number of seconds, so
  `int(duration.total_seconds())` is exact.
- `Duration.ofHours(h).plusMinutes(m).plusSeconds(s)` cannot overflow once each group fits an
  `int`, so only `Integer.parseInt` and `Duration.plus` carry a limit in the Java model.
- The JSON field names (`contentDetails`, `videoId`, `duration`, `nextPageToken`) are not modelled.
  A present but null `nextPageToken` is treated as an absent one.
- build.gradle.kts is build configuration and not part of this model.

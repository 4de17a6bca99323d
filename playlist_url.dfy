/** The playlist-id extractor: a leftmost search for `[?&]list=([a-zA-Z0-9_-]+)`
    in a URL, returning the captured identifier or "" when there is no match.
    Java's `Matcher.find` and Python's `re.search` agree on this pattern, so one
    definition serves both programs. */
module PlaylistUrl {
  /** The character class `[a-zA-Z0-9_-]`. */
  predicate IsIdChar(c: char) {
    'a' <= c <= 'z' || 'A' <= c <= 'Z' || '0' <= c <= '9' || c == '_' || c == '-'
  }

  /** The pattern matches starting at `k`: `?` or `&`, then `list=`, then at
      least one identifier character. */
  predicate MatchesAt(url: string, k: nat) {
    k + 6 < |url| && (url[k] == '?' || url[k] == '&') && url[k + 1..k + 6] == "list=" && IsIdChar(url[k + 6])
  }

  predicate NoMatchIn(url: string, lo: nat, hi: nat) {
    forall j :: lo <= j < hi ==> !MatchesAt(url, j)
  }

  /** End of the maximal run of identifier characters starting at `j`
      (the greedy `+`). */
  function RunEnd(url: string, j: nat): (e: nat)
    requires j <= |url|
    ensures j <= e <= |url|
    ensures forall i :: j <= i < e ==> IsIdChar(url[i])
    ensures e == |url| || !IsIdChar(url[e])
    decreases |url| - j
  {
    if j < |url| && IsIdChar(url[j]) then RunEnd(url, j + 1) else j
  }

  /** Group 1 of a match starting at `k`. */
  function Capture(url: string, k: nat): string
    requires MatchesAt(url, k)
  {
    url[k + 6..RunEnd(url, k + 6)]
  }

  /** The scan from position `k` onwards. */
  function SearchFrom(url: string, k: nat): (r: string)
    requires k <= |url|
    ensures r == "" <==> NoMatchIn(url, k, |url|)
    ensures forall i :: k <= i && MatchesAt(url, i) && NoMatchIn(url, k, i) ==> r == Capture(url, i)
    ensures r != "" ==> exists i :: k <= i < |url| && MatchesAt(url, i) && NoMatchIn(url, k, i) && r == Capture(url, i)
    decreases |url| - k
  {
    if k == |url| then ""
    else if MatchesAt(url, k) then Capture(url, k)
    else SearchFrom(url, k + 1)
  }

  /** `extractPlaylistID` / `extract_playlist_id`: "" exactly when no position
      matches; otherwise the capture at the leftmost matching position, so an
      earlier `?list=` or `&list=` not followed by an identifier character does
      not stop the search. */
  function ExtractPlaylistId(url: string): (r: string)
    ensures r == "" <==> NoMatchIn(url, 0, |url|)
    ensures forall i :: MatchesAt(url, i) && NoMatchIn(url, 0, i) ==> r == Capture(url, i)
  {
    SearchFrom(url, 0)
  }

  /** A non-empty result is a maximal run of identifier characters that directly
      follows a `?list=` or `&list=` in the URL. */
  lemma ExtractedIsMaximalRun(url: string)
    ensures ExtractPlaylistId(url) != "" ==> IsMaximalRunAfterKey(url, ExtractPlaylistId(url))
  {
    var r := SearchFrom(url, 0);
    if r != "" {
      var k: nat :| MatchesAt(url, k) && r == Capture(url, k);
      RunIsMaximal(url, k);
    }
  }

  /** `r` consists of identifier characters, directly follows a `?list=` or
      `&list=` in `url`, and cannot be extended to the right. */
  ghost predicate IsMaximalRunAfterKey(url: string, r: string) {
    (forall i :: 0 <= i < |r| ==> IsIdChar(r[i])) &&
    exists k: nat :: MatchesAt(url, k) && k + 6 + |r| <= |url| && url[k + 6..k + 6 + |r|] == r &&
      (k + 6 + |r| == |url| || !IsIdChar(url[k + 6 + |r|]))
  }

  lemma RunIsMaximal(url: string, k: nat)
    requires MatchesAt(url, k)
    ensures IsMaximalRunAfterKey(url, Capture(url, k))
  {
    var r, e := Capture(url, k), RunEnd(url, k + 6);
    assert |r| == e - (k + 6);
    assert forall i :: 0 <= i < |r| ==> r[i] == url[k + 6 + i];
  }
}

/** Concrete inputs and their results. */
module Examples {
  import opened Wrappers
  import opened Decimal
  import opened PlaylistUrl
  import opened Iso8601
  import opened DurationFormat
  import opened Pagination
  import opened Totals
  import JavaMain
  import PythonMain

  /** The identifier ends at the first character outside the class. */
  lemma ExtractStopsAtNonIdChar()
    ensures ExtractPlaylistId("?v=x&list=PL&i=2") == "PL"
  {
    var u := "?v=x&list=PL&i=2";
    assert !MatchesAt(u, 0) by { assert u[1..6][0] != 'l'; }
    assert forall j :: 0 < j < 4 ==> u[j] != '?' && u[j] != '&';
    assert MatchesAt(u, 4) && NoMatchIn(u, 0, 4);
    assert RunEnd(u, 12) == 12;
    assert RunEnd(u, 11) == 12;
    assert RunEnd(u, 10) == 12;
    assert u[10..12] == "PL";
  }

  /** An earlier `?list=` without an identifier does not stop the search. */
  lemma ExtractSkipsEmptyOccurrence()
    ensures ExtractPlaylistId("?list=&list=Q") == "Q"
  {
    var u := "?list=&list=Q";
    assert !IsIdChar(u[6]);
    assert forall j :: 0 < j < 6 ==> u[j] != '?' && u[j] != '&';
    assert NoMatchIn(u, 0, 6);
    assert u[7..12] == "list=";
    assert MatchesAt(u, 6);
    assert RunEnd(u, 12) == 13;
    assert Capture(u, 6) == u[12..13] == "Q";
  }

  lemma ExtractWithoutList()
    ensures ExtractPlaylistId("?v=x") == ""
  {
  }

  lemma ParseHours()
    ensures JavaMain.ParseIso8601Duration("PT2H") == Some(7200)
  {
    var two := Groups(Some("2"), None, None);
    assert Spell(two) == "PT2H";
    assert Value("2") == 2;
    JavaMain.ParseWholeMatch(two);
  }

  lemma ParseSeconds()
    ensures JavaMain.ParseIso8601Duration("PT90S") == Some(90)
  {
    var ninety := Groups(None, None, Some("90"));
    assert Spell(ninety) == "PT90S";
    assert Value("90") == 90;
    JavaMain.ParseWholeMatch(ninety);
  }

  lemma ParseEmptyDuration()
    ensures JavaMain.ParseIso8601Duration("PT") == Some(0)
  {
    var empty := Groups(None, None, None);
    assert Spell(empty) == "PT";
    JavaMain.ParseWholeMatch(empty);
  }

  lemma ParseGarbage()
    ensures JavaMain.ParseIso8601Duration("garbage") == Some(0)
    ensures JavaMain.ParseIso8601Duration("P1D") == Some(0)
  {
    assert "garbage"[..2] != "PT" by { assert "garbage"[0] != 'P'; }
    assert "P1D"[..2] != "PT" by { assert "P1D"[1] != 'T'; }
  }

  lemma ShowZero()
    ensures Show(0) + "s" == "0s"
  {
  }

  lemma FormatZero()
    ensures Formatted(0) == "0s"
  {
    FormattedUnderMinute(0);
    ShowZero();
  }

  lemma FormatSecondsOnly()
    ensures Formatted(59) == "59s"
  {
    assert Decompose(59) == Breakdown(0, 0, 0, 59);
    var all := AllSegments(Breakdown(0, 0, 0, 59));
    assert all[3] == "59s" && all[3..] == [all[3]];
  }

  lemma FormatMinute()
    ensures Formatted(60) == "1m 0s"
  {
    assert Decompose(60) == Breakdown(0, 0, 1, 0);
    var all := AllSegments(Breakdown(0, 0, 1, 0));
    assert all[2] == "1m" && all[3] == "0s" && all[2..] == [all[2], all[3]];
    JoinCons("1m", ["0s"]);
  }

  lemma FormatHour()
    ensures Formatted(3661) == "1h 1m 1s"
  {
    assert Decompose(3661) == Breakdown(0, 1, 1, 1);
    var all := AllSegments(Breakdown(0, 1, 1, 1));
    assert all[1] == "1h" && all[2] == "1m" && all[3] == "1s" && all[1..] == [all[1], all[2], all[3]];
    JoinCons("1h", ["1m", "1s"]);
    JoinCons("1m", ["1s"]);
  }

  lemma FormatDay()
    ensures Formatted(90000) == "1d 1h 0m 0s"
  {
    assert Decompose(90000) == Breakdown(1, 1, 0, 0);
    var all := AllSegments(Breakdown(1, 1, 0, 0));
    assert all[0] == "1d" && all[1] == "1h" && all[2] == "0m" && all[3] == "0s";
    assert all[0..] == [all[0], all[1], all[2], all[3]];
    JoinCons("1d", ["1h", "0m", "0s"]);
    JoinCons("1h", ["0m", "0s"]);
    JoinCons("0m", ["0s"]);
  }

  /** Parsing and then formatting a duration with all three groups. */
  lemma ParseThenFormat()
    ensures JavaMain.ParseIso8601Duration("PT1H1M1S") == Some(3661)
    ensures Formatted(3661) == "1h 1m 1s"
  {
    var g := Groups(Some("1"), Some("1"), Some("1"));
    assert Spell(g) == "PT1H1M1S";
    assert Value("1") == 1;
    JavaMain.ParseWholeMatch(g);
    FormatHour();
  }

  /** Three pages chained by tokens A and B, the last without a token: three
      requests, with tokens "", "A" and "B", and every id in order. */
  lemma ThreePages(a: seq<string>, b: seq<string>, c: seq<string>)
    ensures var pages := [Page(200, Some(a), Some("A")), Page(200, Some(b), Some("B")), Page(200, Some(c), None)];
      StopIndex(pages, true) == 2 && Listing(pages, true) == Success(a + b + c) &&
      Listing(pages, false) == Success(a + b + c) &&
      RequestToken(pages, 1) == "A" && RequestToken(pages, 2) == "B"
  {
    var pages := [Page(200, Some(a), Some("A")), Page(200, Some(b), Some("B")), Page(200, Some(c), None)];
    assert pages[1..][1..] == [pages[2]];
    assert Listing(pages[1..][1..], true) == Success(c);
    assert Listing(pages[1..], true) == Success(b + c);
    assert Listing(pages[1..][1..], false) == Success(c);
    assert Listing(pages[1..], false) == Success(b + c);
    assert a + (b + c) == a + b + c;
    assert StopIndex(pages[1..][1..], true) == 0;
  }

  /** Three items where the second fails: the total is the other two, and the
      second item's id is reported. */
  lemma MiddleItemFails(x: nat, z: nat)
    ensures SumSucceeded([Some(x), None, Some(z)]) == x + z
    ensures FailedIds(["v1", "v2", "v3"], [Some(x), None, Some(z)]) == ["v2"]
  {
    var o: seq<Option<nat>> := [Some(x), None, Some(z)];
    var ids := ["v1", "v2", "v3"];
    assert o[..2] == [Some(x), None] && o[..2][..1] == [Some(x)] && o[..2][..1][..0] == [];
    assert SumSucceeded(o[..2][..1]) == x;
    assert SumSucceeded(o[..2]) == x;
    assert ids[..2] == ["v1", "v2"] && ids[..2][..1] == ["v1"] && ids[..2][..1][..0] == [];
    assert FailedIds(ids[..2][..1], o[..2][..1]) == [];
    assert FailedIds(ids[..2], o[..2]) == ["v2"];
  }

  /** An addition that would pass the limit is skipped and reported; the
      items after it are still added. */
  lemma OverflowingItemSkipped(limit: nat)
    requires limit > 0
    ensures Total([Some(limit), Some(1), None, Some(0)], limit) == limit
    ensures Skipped(["v1", "v2", "v3", "v4"], [Some(limit), Some(1), None, Some(0)], limit) == ["v2", "v3"]
  {
    var o: seq<Option<nat>> := [Some(limit), Some(1), None, Some(0)];
    var ids := ["v1", "v2", "v3", "v4"];
    assert o[..3] == [Some(limit), Some(1), None] && o[..3][..2] == [Some(limit), Some(1)];
    assert o[..3][..2][..1] == [Some(limit)] && o[..3][..2][..1][..0] == [];
    assert Total(o[..3][..2][..1], limit) == limit;
    assert Total(o[..3][..2], limit) == limit;
    assert Total(o[..3], limit) == limit;
    assert ids[..3] == ["v1", "v2", "v3"] && ids[..3][..2] == ["v1", "v2"];
    assert ids[..3][..2][..1] == ["v1"] && ids[..3][..2][..1][..0] == [];
    assert Skipped(ids[..3][..2][..1], o[..3][..2][..1], limit) == [];
    assert Skipped(ids[..3][..2], o[..3][..2], limit) == ["v2"];
    assert Skipped(ids[..3], o[..3], limit) == ["v2", "v3"];
  }
}

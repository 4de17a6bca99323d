/** Where the two programs agree and where they differ. */
module Dialects {
  import opened Wrappers
  import opened Decimal
  import opened Iso8601
  import opened Pagination
  import JavaMain
  import PythonMain

  /** On a text of the grammar the two parsers agree, unless a number
      overflows Java's `int`. */
  lemma ParsersAgreeOnWholeMatch(g: Groups)
    requires ValidGroups(g)
    ensures JavaMain.ParseIso8601Duration(Spell(g)) ==
      if FitsInt(g) then PythonMain.ParseIso8601Duration(Spell(g)) else None
  {
    MatchSpelled(g);
    if FitsInt(g) {
      IntGroupsFitTimedelta(g);
    }
  }

  /** Groups that fit Java's `int` never pass the `timedelta` range. */
  lemma IntGroupsFitTimedelta(g: Groups)
    requires ValidGroups(g) && FitsInt(g)
    ensures TotalSeconds(g) <= PythonMain.TimedeltaMax
  {
    var h, m, s := GroupValue(g.hours), GroupValue(g.minutes), GroupValue(g.seconds);
    assert h * 3600 <= IntMax * 3600;
    assert m * 60 <= IntMax * 60;
  }

  /** The Python parser reads what the Java parser reads from the prefix the
      pattern matches. */
  lemma PythonParsesMatchedPrefix(s: string)
    requires MatchPrefix(s).Some? && FitsInt(MatchPrefix(s).value)
    ensures JavaMain.ParseIso8601Duration(Spell(MatchPrefix(s).value)) == PythonMain.ParseIso8601Duration(s)
  {
    JavaMain.ParseWholeMatch(MatchPrefix(s).value);
    IntGroupsFitTimedelta(MatchPrefix(s).value);
  }

  /** Trailing text: the whole-text Java match rejects what the Python prefix
      match reads. */
  lemma ParsersDifferOnTrailingText()
    ensures JavaMain.ParseIso8601Duration("PT1H junk") == Some(0)
    ensures PythonMain.ParseIso8601Duration("PT1H junk") == Some(3600)
    ensures JavaMain.ParseIso8601Duration("PT1S1H") == Some(0)
    ensures PythonMain.ParseIso8601Duration("PT1S1H") == Some(1)
  {
    var hour := Groups(Some("1"), None, None);
    assert Spell(hour) + " junk" == "PT1H junk";
    MatchSpelledTail(hour, " junk");
    assert Value("1") == 1;
    var second := Groups(None, None, Some("1"));
    assert Spell(second) + "1H" == "PT1S1H";
    MatchSpelledTail(second, "1H");
  }

  /** A number past Java's `int` range: `Integer.parseInt` throws, so the Java
      program skips the video, while Python's `int` reads it as long as the
      `timedelta` holds it. */
  lemma ParsersDifferOnHugeNumber(n: nat)
    requires IntMax < n
    ensures JavaMain.ParseIso8601Duration("PT" + Show(n) + "S") == None
    ensures PythonMain.ParseIso8601Duration("PT" + Show(n) + "S") ==
      if n <= PythonMain.TimedeltaMax then Some(n) else None
  {
    var huge := Groups(None, None, Some(Show(n)));
    assert Spell(huge) == "PT" + Show(n) + "S";
    ValueOfShow(n);
    JavaMain.ParseWholeMatch(huge);
    MatchSpelled(huge);
  }

  /** A page without an `items` array: fatal for Java's `getJSONArray`, an
      empty page for Python's `data.get("items", [])`. */
  lemma ListingsDifferOnMissingItems(token: Option<string>)
    ensures var p := Page(200, None, token);
      Listing([p], true) == Failure(MissingItems) &&
      (token.None? || token == Some("") ==> Listing([p], false) == Success([]))
  {
  }

  /** Apart from missing `items`, the two listings agree. */
  lemma {:induction false} ListingsAgreeWithItems(pages: seq<Page>)
    requires forall k :: 0 <= k < |pages| ==> pages[k].items.Some?
    ensures Listing(pages, true) == Listing(pages, false)
    decreases |pages|
  {
    if pages != [] {
      ListingsAgreeWithItems(pages[1..]);
    }
  }
}

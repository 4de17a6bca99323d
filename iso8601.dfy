/** The duration grammar `PT(?:(\d+)H)?(?:(\d+)M)?(?:(\d+)S)?` shared by both
    programs: its capture groups, the text a match covers, the number of seconds
    a match denotes, and a greedy left-to-right scanner that finds the match a
    backtracking regex engine finds at the start of a string. */
module Iso8601 {
  import opened Wrappers
  import opened Decimal

  /** The three capture groups: the digits before `H`, `M` and `S`, each absent
      when its optional group did not take part in the match. */
  datatype Groups = Groups(hours: Option<string>, minutes: Option<string>, seconds: Option<string>)

  predicate GroupOk(o: Option<string>) {
    o.Some? ==> IsNumeral(o.value)
  }

  predicate ValidGroups(g: Groups) {
    GroupOk(g.hours) && GroupOk(g.minutes) && GroupOk(g.seconds)
  }

  /** The text one optional group `(?:(\d+)U)?` covers. */
  function Piece(o: Option<string>, unit: char): string {
    if o.Some? then o.value + [unit] else ""
  }

  /** The whole text a match with groups `g` covers. */
  function Spell(g: Groups): string {
    "PT" + Piece(g.hours, 'H') + Piece(g.minutes, 'M') + Piece(g.seconds, 'S')
  }

  /** The language of the pattern: texts it matches in full. */
  ghost predicate Matches(s: string) {
    exists g :: ValidGroups(g) && Spell(g) == s
  }

  /** An absent group counts as 0. */
  function GroupValue(o: Option<string>): nat
    requires GroupOk(o)
  {
    if o.Some? then Value(o.value) else 0
  }

  /** hours * 3600 + minutes * 60 + seconds. */
  function TotalSeconds(g: Groups): nat
    requires ValidGroups(g)
  {
    GroupValue(g.hours) * 3600 + GroupValue(g.minutes) * 60 + GroupValue(g.seconds)
  }

  /** The largest value of a Java `int`. */
  const IntMax: nat := 2147483647

  /** Every group's value fits a Java `int`, so `Integer.parseInt` accepts it. */
  predicate FitsInt(g: Groups)
    requires ValidGroups(g)
  {
    GroupValue(g.hours) <= IntMax && GroupValue(g.minutes) <= IntMax && GroupValue(g.seconds) <= IntMax
  }

  /** End of the maximal run of digits starting at `i` (the greedy `\d+`). */
  function DigitsEnd(s: string, i: nat): (e: nat)
    requires i <= |s|
    ensures i <= e <= |s|
    ensures forall j :: i <= j < e ==> IsDigit(s[j])
    ensures e == |s| || !IsDigit(s[e])
    decreases |s| - i
  {
    if i < |s| && IsDigit(s[i]) then DigitsEnd(s, i + 1) else i
  }

  /** One optional group `(?:(\d+)U)?` tried at position `i`: it takes part
      when a digit run there is followed by the unit letter. Backtracking into a
      shorter digit run cannot help, since the character after it is a digit. */
  function ScanGroup(s: string, i: nat, unit: char): (r: Option<string>)
    requires i <= |s|
    ensures GroupOk(r)
    ensures i + |Piece(r, unit)| <= |s| && s[i..i + |Piece(r, unit)|] == Piece(r, unit)
  {
    var e := DigitsEnd(s, i);
    if i < e < |s| && s[e] == unit then
      assert s[i..e + 1] == s[i..e] + [unit];
      Some(s[i..e])
    else None
  }

  /** The match the pattern makes at the start of `s`, if any. */
  function MatchPrefix(s: string): (r: Option<Groups>)
    ensures r.Some? <==> |s| >= 2 && s[..2] == "PT"
    ensures r.Some? ==> ValidGroups(r.value) && Spell(r.value) <= s
  {
    if |s| < 2 || s[..2] != "PT" then None
    else
      var h := ScanGroup(s, 2, 'H');
      var i := 2 + |Piece(h, 'H')|;
      var m := ScanGroup(s, i, 'M');
      var j := i + |Piece(m, 'M')|;
      var sec := ScanGroup(s, j, 'S');
      var k := j + |Piece(sec, 'S')|;
      PrefixGrows(s, "PT", Piece(h, 'H'));
      PrefixGrows(s, "PT" + Piece(h, 'H'), Piece(m, 'M'));
      PrefixGrows(s, "PT" + Piece(h, 'H') + Piece(m, 'M'), Piece(sec, 'S'));
      Some(Groups(h, m, sec))
  }

  /** A prefix followed in `s` by the text `b` grows into a longer prefix. */
  lemma PrefixGrows(s: string, a: string, b: string)
    requires a <= s && |a| + |b| <= |s| && s[|a|..|a| + |b|] == b
    ensures a + b <= s
  {
    assert s[..|a| + |b|] == s[..|a|] + s[|a|..|a| + |b|];
  }

  /** The digit run at `i` ends exactly where a known numeral ends, when a
      non-digit follows it. */
  lemma {:induction false} DigitsEndAt(s: string, i: nat, d: string)
    requires AllDigits(d) && i + |d| < |s| && s[i..i + |d|] == d && !IsDigit(s[i + |d|])
    ensures DigitsEnd(s, i) == i + |d|
    decreases |d|
  {
    if d != [] {
      assert s[i] == d[0];
      assert s[i + 1..i + 1 + |d[1..]|] == d[1..];
      DigitsEndAt(s, i + 1, d[1..]);
    }
  }

  /** Where a numeral followed by a unit letter stands at `i`, the group of that
      unit takes part with exactly that numeral and every other group is absent. */
  lemma ScanFinds(s: string, i: nat, d: string, unit: char)
    requires IsNumeral(d) && !IsDigit(unit)
    requires i + |d| < |s| && s[i..i + |d| + 1] == d + [unit]
    ensures forall u :: ScanGroup(s, i, u) == (if u == unit then Some(d) else None)
  {
    assert s[i..i + |d|] == s[i..i + |d| + 1][..|d|];
    DigitsEndAt(s, i, d);
  }

  /** With no digit at `i`, no group takes part there. */
  lemma ScanNoDigit(s: string, i: nat, unit: char)
    requires i <= |s| && (i == |s| || !IsDigit(s[i]))
    ensures ScanGroup(s, i, unit) == None
  {
  }

  /** Where a present group's text stands at `i`, the scan there finds that
      group for its own unit and nothing for any other unit. */
  lemma PieceAt(s: string, i: nat, o: Option<string>, unit: char, rest: string)
    requires GroupOk(o) && o.Some? && !IsDigit(unit)
    requires i <= |s| && s[i..] == Piece(o, unit) + rest
    ensures forall u :: ScanGroup(s, i, u) == (if u == unit then o else None)
  {
    assert s[i..i + |o.value| + 1] == o.value + [unit];
    ScanFinds(s, i, o.value, unit);
  }

  /** The scan for hours finds the hours group of a spelled text. */
  lemma ScanHours(g: Groups, t: string)
    requires ValidGroups(g)
    requires t == [] || !IsDigit(t[0]) || g.seconds.Some?
    ensures ScanGroup(Spell(g) + t, 2, 'H') == g.hours
  {
    var s := Spell(g) + t;
    var p1, p2, p3 := Piece(g.hours, 'H'), Piece(g.minutes, 'M'), Piece(g.seconds, 'S');
    assert s[2..] == p1 + p2 + p3 + t;
    if g.hours.Some? {
      PieceAt(s, 2, g.hours, 'H', p2 + p3 + t);
    } else if g.minutes.Some? {
      PieceAt(s, 2, g.minutes, 'M', p3 + t);
    } else if g.seconds.Some? {
      PieceAt(s, 2, g.seconds, 'S', t);
    } else {
      ScanNoDigit(s, 2, 'H');
    }
  }

  /** The scan for minutes, after the hours group, finds the minutes group. */
  lemma ScanMinutes(g: Groups, t: string)
    requires ValidGroups(g)
    requires t == [] || !IsDigit(t[0]) || g.seconds.Some?
    ensures var i := 2 + |Piece(g.hours, 'H')|;
      i <= |Spell(g) + t| && ScanGroup(Spell(g) + t, i, 'M') == g.minutes
  {
    var s := Spell(g) + t;
    var p1, p2, p3 := Piece(g.hours, 'H'), Piece(g.minutes, 'M'), Piece(g.seconds, 'S');
    var i := 2 + |p1|;
    assert s[i..] == p2 + p3 + t;
    if g.minutes.Some? {
      PieceAt(s, i, g.minutes, 'M', p3 + t);
    } else if g.seconds.Some? {
      PieceAt(s, i, g.seconds, 'S', t);
    } else {
      ScanNoDigit(s, i, 'M');
    }
  }

  /** The scan for seconds, after the first two groups, finds the seconds group. */
  lemma ScanSeconds(g: Groups, t: string)
    requires ValidGroups(g)
    requires t == [] || !IsDigit(t[0]) || g.seconds.Some?
    ensures var j := 2 + |Piece(g.hours, 'H')| + |Piece(g.minutes, 'M')|;
      j <= |Spell(g) + t| && ScanGroup(Spell(g) + t, j, 'S') == g.seconds
  {
    var s := Spell(g) + t;
    var p1, p2, p3 := Piece(g.hours, 'H'), Piece(g.minutes, 'M'), Piece(g.seconds, 'S');
    var j := 2 + |p1| + |p2|;
    assert s[j..] == p3 + t;
    if g.seconds.Some? {
      PieceAt(s, j, g.seconds, 'S', t);
    } else {
      ScanNoDigit(s, j, 'S');
    }
  }

  /** The scanner recovers the groups of any text the pattern matches, also
      when that text is followed by a tail that cannot extend the match. */
  lemma MatchSpelledTail(g: Groups, t: string)
    requires ValidGroups(g)
    requires t == [] || !IsDigit(t[0]) || g.seconds.Some?
    ensures MatchPrefix(Spell(g) + t) == Some(g)
  {
    var s := Spell(g) + t;
    assert s[..2] == "PT";
    ScanHours(g, t);
    ScanMinutes(g, t);
    ScanSeconds(g, t);
    MatchPrefixOf(s, g);
  }

  /** The scanner's result, given what each of its three steps finds. */
  lemma MatchPrefixOf(s: string, g: Groups)
    requires |s| >= 2 && s[..2] == "PT"
    requires ScanGroup(s, 2, 'H') == g.hours
    requires 2 + |Piece(g.hours, 'H')| <= |s| && ScanGroup(s, 2 + |Piece(g.hours, 'H')|, 'M') == g.minutes
    requires 2 + |Piece(g.hours, 'H')| + |Piece(g.minutes, 'M')| <= |s|
    requires ScanGroup(s, 2 + |Piece(g.hours, 'H')| + |Piece(g.minutes, 'M')|, 'S') == g.seconds
    ensures MatchPrefix(s) == Some(g)
  {
  }

  /** Completeness and soundness of the scanner for whole texts: it finds
      exactly the groups a text of the language was spelled from. */
  lemma MatchSpelled(g: Groups)
    requires ValidGroups(g)
    ensures MatchPrefix(Spell(g)) == Some(g)
  {
    MatchSpelledTail(g, []);
    assert Spell(g) + [] == Spell(g);
  }

  /** The pattern is unambiguous: a text is spelled by one set of groups only. */
  lemma SpellInjective(g1: Groups, g2: Groups)
    requires ValidGroups(g1) && ValidGroups(g2) && Spell(g1) == Spell(g2)
    ensures g1 == g2
  {
    MatchSpelled(g1);
    MatchSpelled(g2);
  }

  /** The scanner's match at the start of `s` is the longest: no text of the
      language that is a prefix of `s` is longer. This is why the greedy scan
      agrees with a backtracking engine's first match for this pattern. */
  lemma MatchPrefixLongest(s: string, g: Groups)
    requires ValidGroups(g) && Spell(g) <= s
    ensures MatchPrefix(s).Some? && |Spell(g)| <= |Spell(MatchPrefix(s).value)|
  {
    var t := s[|Spell(g)|..];
    assert s == Spell(g) + t;
    assert s[..2] == "PT";
    if t == [] || !IsDigit(t[0]) || g.seconds.Some? {
      MatchSpelledTail(g, t);
    } else {
      ScanBeforeDigits(g, t);
      var r := MatchPrefix(s).value;
      assert |Spell(r)| >= 2 + |Piece(r.hours, 'H')| + |Piece(r.minutes, 'M')|;
    }
  }

  /** A present hours or minutes group is found by the scanner whatever
      follows the spelled text. */
  lemma ScanBeforeDigits(g: Groups, t: string)
    requires ValidGroups(g)
    ensures var s, i := Spell(g) + t, 2 + |Piece(g.hours, 'H')|;
      i <= |s| &&
      (g.hours.Some? || g.minutes.Some? ==> ScanGroup(s, 2, 'H') == g.hours) &&
      (g.minutes.Some? ==> ScanGroup(s, i, 'M') == g.minutes)
  {
    var s := Spell(g) + t;
    var p1, p2, p3 := Piece(g.hours, 'H'), Piece(g.minutes, 'M'), Piece(g.seconds, 'S');
    assert s[2..] == p1 + p2 + p3 + t;
    if g.hours.Some? {
      PieceAt(s, 2, g.hours, 'H', p2 + p3 + t);
    } else if g.minutes.Some? {
      PieceAt(s, 2, g.minutes, 'M', p3 + t);
    }
    if g.minutes.Some? {
      assert s[2 + |p1|..] == p2 + p3 + t;
      PieceAt(s, 2 + |p1|, g.minutes, 'M', p3 + t);
    }
  }
}

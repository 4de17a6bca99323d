/** How a number of seconds is shown: split into days, hours, minutes and
    seconds, leading zero units dropped (never the seconds), the segments
    joined by single spaces. Both programs' formatters are proved to produce
    `Formatted`; this module states and proves what that text is. */
module DurationFormat {
  import opened Wrappers
  import opened Decimal

  datatype Breakdown = Breakdown(days: nat, hours: nat, minutes: nat, seconds: nat)

  /** Every unit below days is under its carry limit. */
  predicate Normal(b: Breakdown) {
    b.hours < 24 && b.minutes < 60 && b.seconds < 60
  }

  function Recombine(b: Breakdown): nat {
    b.days * 86400 + b.hours * 3600 + b.minutes * 60 + b.seconds
  }

  /** Chained division with remainder by 86400, 3600 and 60. */
  function Decompose(total: nat): (b: Breakdown)
    ensures Normal(b) && Recombine(b) == total
  {
    var days, rest := total / 86400, total % 86400;
    var hours, rest' := rest / 3600, rest % 3600;
    Breakdown(days, hours, rest' / 60, rest' % 60)
  }

  /** A normal breakdown of a total is the one `Decompose` gives: any other way
      of computing the four units that keeps them in range agrees with it. */
  lemma DecomposeUnique(total: nat, b: Breakdown)
    requires Normal(b) && Recombine(b) == total
    ensures b == Decompose(total)
  {
    var rest := b.hours * 3600 + b.minutes * 60 + b.seconds;
    assert rest < 86400;
    assert total == b.days * 86400 + rest;
    assert total / 86400 == b.days && total % 86400 == rest;
    var rest' := b.minutes * 60 + b.seconds;
    assert rest' < 3600;
    assert rest / 3600 == b.hours && rest % 3600 == rest';
  }

  /** All four segments, largest unit first. */
  function AllSegments(b: Breakdown): seq<string> {
    [Show(b.days) + "d", Show(b.hours) + "h", Show(b.minutes) + "m", Show(b.seconds) + "s"]
  }

  /** How many leading segments are dropped: a unit is left out exactly when it
      and every larger unit are zero, and the seconds are never left out. */
  function Omitted(b: Breakdown): (n: nat)
    ensures n <= 3
    ensures forall k :: 0 <= k < n ==> [b.days, b.hours, b.minutes][k] == 0
    ensures n < 3 ==> [b.days, b.hours, b.minutes][n] != 0
  {
    if b.days > 0 then 0 else if b.hours > 0 then 1 else if b.minutes > 0 then 2 else 3
  }

  function Segments(b: Breakdown): seq<string> {
    AllSegments(b)[Omitted(b)..]
  }

  /** The parts separated by single spaces (Python's `" ".join`). */
  function Join(parts: seq<string>): string
    decreases |parts|
  {
    if |parts| == 0 then ""
    else if |parts| == 1 then parts[0]
    else parts[0] + " " + Join(parts[1..])
  }

  lemma JoinCons(w: string, ws: seq<string>)
    requires ws != []
    ensures Join([w] + ws) == w + " " + Join(ws)
  {
    assert ([w] + ws)[1..] == ws;
  }

  /** The segments joined as a builder does it: each present segment before
      the seconds, followed by a space, then the seconds segment. */
  lemma SegmentsByRule(b: Breakdown)
    ensures var all := AllSegments(b);
      Join(Segments(b)) ==
        (if b.days > 0 then all[0] + " " else "") +
        (if b.days > 0 || b.hours > 0 then all[1] + " " else "") +
        (if b.days > 0 || b.hours > 0 || b.minutes > 0 then all[2] + " " else "") +
        all[3]
  {
    var all := AllSegments(b);
    var d, h, m, s := all[0], all[1], all[2], all[3];
    assert Join([s]) == s;
    if b.days > 0 {
      JoinCons(m, [s]);
      JoinCons(h, [m, s]);
      JoinCons(d, [h, m, s]);
      assert all[0..] == [d, h, m, s];
    } else if b.hours > 0 {
      JoinCons(m, [s]);
      JoinCons(h, [m, s]);
      assert all[1..] == [h, m, s];
    } else if b.minutes > 0 {
      JoinCons(m, [s]);
      assert all[2..] == [m, s];
    } else {
      assert all[3..] == [s];
    }
  }

  /** The text shown for a total number of seconds. */
  function Formatted(total: nat): string {
    Join(Segments(Decompose(total)))
  }

  /** The text cut at every space (Python's `str.split(" ")`). */
  function Split(s: string): (r: seq<string>)
    ensures |r| > 0
    decreases |s|
  {
    if s == [] then [""]
    else
      var rest := Split(s[1..]);
      if s[0] == ' ' then [""] + rest else [[s[0]] + rest[0]] + rest[1..]
  }

  /** No leading or trailing space, and no two spaces in a row. */
  predicate SingleSpaced(s: string) {
    |s| > 0 && s[0] != ' ' && s[|s| - 1] != ' ' &&
    forall i :: 0 < i < |s| && s[i] == ' ' ==> s[i - 1] != ' '
  }

  predicate Word(w: string) {
    w != "" && ' ' !in w
  }

  lemma {:induction false} SplitWord(a: string)
    requires ' ' !in a
    ensures Split(a) == [a]
    decreases |a|
  {
    if a != [] {
      SplitWord(a[1..]);
      assert [a[0]] + a[1..] == a;
    }
  }

  lemma {:induction false} SplitAtSpace(a: string, b: string)
    requires ' ' !in a
    ensures Split(a + " " + b) == [a] + Split(b)
    decreases |a|
  {
    if a == [] {
      assert a + " " + b == [' '] + b;
      assert (a + " " + b)[1..] == b;
    } else {
      assert (a + " " + b)[1..] == a[1..] + " " + b;
      SplitAtSpace(a[1..], b);
      assert [a[0]] + a[1..] == a;
    }
  }

  /** Splitting undoes joining words. */
  lemma {:induction false} SplitJoin(ws: seq<string>)
    requires |ws| > 0 && forall i :: 0 <= i < |ws| ==> ' ' !in ws[i]
    ensures Split(Join(ws)) == ws
    decreases |ws|
  {
    if |ws| == 1 {
      SplitWord(ws[0]);
    } else {
      SplitJoin(ws[1..]);
      SplitAtSpace(ws[0], Join(ws[1..]));
      assert [ws[0]] + ws[1..] == ws;
    }
  }

  /** Joining non-empty words gives single spacing. */
  lemma {:induction false} JoinSpacing(ws: seq<string>)
    requires |ws| > 0 && forall i :: 0 <= i < |ws| ==> Word(ws[i])
    ensures SingleSpaced(Join(ws))
    decreases |ws|
  {
    if |ws| == 1 {
      assert forall i :: 0 <= i < |ws[0]| ==> ws[0][i] != ' ';
    } else {
      var w, j := ws[0], Join(ws[1..]);
      JoinSpacing(ws[1..]);
      var s := w + " " + j;
      assert forall i :: 0 <= i < |w| ==> s[i] == w[i] && w[i] != ' ';
      assert forall i :: |w| < i < |s| ==> s[i] == j[i - |w| - 1];
      forall i | 0 < i < |s| && s[i] == ' '
        ensures s[i - 1] != ' '
      {
        if i > |w| + 1 {
          assert j[i - |w| - 1] == ' ';
        }
      }
    }
  }

  /** A letter other than a space occurs in joined words exactly when it occurs
      in one of them. */
  lemma {:induction false} JoinContains(ws: seq<string>, c: char)
    requires c != ' '
    ensures c in Join(ws) <==> exists i :: 0 <= i < |ws| && c in ws[i]
    decreases |ws|
  {
    if |ws| > 1 {
      JoinContains(ws[1..], c);
      assert forall i :: 1 <= i < |ws| ==> ws[1..][i - 1] == ws[i];
    }
  }

  lemma {:induction false} JoinLast(ws: seq<string>)
    requires |ws| > 0 && ws[|ws| - 1] != ""
    ensures |Join(ws)| > 0 && Join(ws)[|Join(ws)| - 1] == ws[|ws| - 1][|ws[|ws| - 1]| - 1]
    decreases |ws|
  {
    if |ws| > 1 {
      JoinLast(ws[1..]);
    }
  }

  lemma SegmentsAreWords(b: Breakdown)
    ensures forall i :: 0 <= i < |AllSegments(b)| ==> Word(AllSegments(b)[i])
  {
    var units := "dhms";
    var ns := [b.days, b.hours, b.minutes, b.seconds];
    forall i | 0 <= i < 4
      ensures Word(AllSegments(b)[i])
    {
      assert AllSegments(b)[i] == Show(ns[i]) + [units[i]];
      NumeralExcludes(Show(ns[i]), ' ');
    }
  }

  /** The text is single-spaced and ends with the seconds unit. */
  lemma FormattedSpacing(total: nat)
    ensures SingleSpaced(Formatted(total))
    ensures Formatted(total)[|Formatted(total)| - 1] == 's'
  {
    var b := Decompose(total);
    SegmentsAreWords(b);
    JoinSpacing(Segments(b));
    JoinLast(Segments(b));
  }

  /** The text opens with a digit: the numeral of its largest present unit. */
  lemma FormattedStartsWithDigit(total: nat)
    ensures |Formatted(total)| > 0 && IsDigit(Formatted(total)[0])
  {
    var b := Decompose(total);
    var segs := Segments(b);
    var all := AllSegments(b);
    var ns := [b.days, b.hours, b.minutes, b.seconds];
    var n := Omitted(b);
    assert segs[0] == all[n] == Show(ns[n]) + [all[n][|all[n]| - 1]];
    if |segs| > 1 {
      JoinCons(segs[0], segs[1..]);
      assert [segs[0]] + segs[1..] == segs;
    }
  }

  /** Under a minute only the seconds segment is written, so the text is the numeral and 's'. */
  lemma FormattedUnderMinute(total: nat)
    requires total < 60
    ensures Formatted(total) == Show(total) + "s"
  {
    var b := Breakdown(0, 0, 0, total);
    DecomposeUnique(total, b);
    var all := AllSegments(b);
    assert all[3..] == [all[3]];
  }

  /** Which segments appear: days exactly when days > 0, hours exactly when
      days or hours are non-zero, minutes exactly when any of days, hours and
      minutes is non-zero; the seconds segment always appears. */
  lemma FormattedUnits(total: nat)
    ensures var b, f := Decompose(total), Formatted(total);
      ('d' in f <==> b.days > 0) &&
      ('h' in f <==> b.days > 0 || b.hours > 0) &&
      ('m' in f <==> b.days > 0 || b.hours > 0 || b.minutes > 0) &&
      's' in f
  {
    var b := Decompose(total);
    UnitPresent(b, 0);
    UnitPresent(b, 1);
    UnitPresent(b, 2);
    UnitPresent(b, 3);
  }

  /** The letter of unit `i` (days, hours, minutes, seconds) occurs in the
      joined segments exactly when segment `i` is not left out. */
  lemma UnitPresent(b: Breakdown, i: nat)
    requires i < 4
    ensures "dhms"[i] in Join(Segments(b)) <==> Omitted(b) <= i
  {
    var c := "dhms"[i];
    var all, segs := AllSegments(b), Segments(b);
    var ns := [b.days, b.hours, b.minutes, b.seconds];
    forall j | 0 <= j < 4
      ensures c in all[j] <==> j == i
    {
      assert all[j] == Show(ns[j]) + ["dhms"[j]];
      if j != i {
        NumeralExcludes(Show(ns[j]), c);
      }
    }
    JoinContains(segs, c);
    assert forall j :: 0 <= j < |segs| ==> segs[j] == all[j + Omitted(b)];
    if Omitted(b) <= i {
      assert c in segs[i - Omitted(b)];
    }
  }

  /** The number of seconds one unit stands for. */
  function UnitSeconds(u: char): Option<nat> {
    match u
    case 'd' => Some(86400)
    case 'h' => Some(3600)
    case 'm' => Some(60)
    case 's' => Some(1)
    case _ => None
  }

  /** A segment "<numeral><unit>" read back as seconds. */
  function ReadSegment(w: string): Option<nat> {
    if |w| >= 2 && IsNumeral(w[..|w| - 1]) && UnitSeconds(w[|w| - 1]).Some? then
      Some(Value(w[..|w| - 1]) * UnitSeconds(w[|w| - 1]).value)
    else None
  }

  function ReadSegments(ws: seq<string>): Option<nat>
    decreases |ws|
  {
    if ws == [] then Some(0)
    else match (ReadSegment(ws[0]), ReadSegments(ws[1..]))
      case (Some(x), Some(y)) => Some(x + y)
      case _ => None
  }

  /** The inverse reading of a shown duration: split at spaces and add up. */
  function ReadFormatted(s: string): Option<nat> {
    ReadSegments(Split(s))
  }

  lemma ReadShown(n: nat, u: char)
    requires UnitSeconds(u).Some?
    ensures ReadSegment(Show(n) + [u]) == Some(n * UnitSeconds(u).value)
  {
    var w := Show(n) + [u];
    assert w[..|w| - 1] == Show(n);
    ValueOfShow(n);
  }

  /** Reading the shown text back gives the total: no information is lost,
      because every omitted unit is zero. */
  lemma FormattedReadsBack(total: nat)
    ensures ReadFormatted(Formatted(total)) == Some(total)
  {
    var b := Decompose(total);
    var all := AllSegments(b);
    SegmentsAreWords(b);
    SplitJoin(Segments(b));
    ReadShown(b.days, 'd');
    ReadShown(b.hours, 'h');
    ReadShown(b.minutes, 'm');
    ReadShown(b.seconds, 's');
    var v3 := b.seconds;
    var v2 := b.minutes * 60 + v3;
    var v1 := b.hours * 3600 + v2;
    assert all[3..][1..] == [];
    assert ReadSegments(all[3..]) == Some(v3);
    assert all[2..][1..] == all[3..];
    assert ReadSegments(all[2..]) == Some(v2);
    assert all[1..][1..] == all[2..];
    assert ReadSegments(all[1..]) == Some(v1);
    assert all[0..][1..] == all[1..];
    assert ReadSegments(all[0..]) == Some(total);
  }
}

/** `parse_date_string`: a `M/D` or `M/D/Y` token to a calendar date. */
module DateParse {
  import opened Outcomes
  import opened Seqs
  import opened Text
  import opened Numerals
  import opened Dates

  /** The year a two-part token is given. */
  const DefaultYear: int := 2025

  /** Why a token did not become a date: the wrong number of `/` parts,
      a part `int()` rejects, or a value `datetime()` rejects. */
  datatype ParseError =
    | InvalidFormat(literal: string)
    | NotAnInteger(literal: string)
    | OutOfRange(cause: DateError)

  /** The year rule: a year from 0 to 99 means 20YY, a negative year is
      also raised by 2000, and a year from 100 on is left alone; the last
      two digits are always kept. */
  function ExpandYear(y: int): (r: int)
    ensures r % 100 == y % 100
    ensures 0 <= y < 100 ==> 2000 <= r < 2100
    ensures y >= 100 ==> r == y
    ensures y < 0 ==> r == y + 2000
  {
    if y < 100 then y + 2000 else y
  }

  /** `map(int, parts)`: the integers, or the first part `int()` rejects. */
  function ToInts(parts: seq<string>): (r: Result<seq<int>, ParseError>)
    ensures r.Ok? ==> |r.value| == |parts|
    ensures r.Ok? ==> forall i :: 0 <= i < |parts| ==> PyInt(parts[i]) == Some(r.value[i])
    ensures r.Err? ==> exists i :: 0 <= i < |parts| && PyInt(parts[i]).None? && r.error == NotAnInteger(parts[i])
                                 && (forall j :: 0 <= j < i ==> PyInt(parts[j]).Some?)
  {
    match MapAll(PyInt, parts)
    case Ok(vs) => Ok(vs)
    case Err(p) =>
      ghost var i :| 0 <= i < |parts| && p == parts[i] && PyInt(parts[i]).None? && AllSome(PyInt, parts[..i]);
      assert forall j :: 0 <= j < i ==> parts[..i][j] == parts[j];
      Err(NotAnInteger(p))
  }

  /** The `/`-separated parts of a token after surrounding whitespace is
      stripped. */
  function SlashParts(s: string): seq<string>
  {
    Split(Strip(s, Whitespace), {'/'})
  }

  /** `parse_date_string(s)`. */
  function ParseDateString(s: string): (r: Result<Date, ParseError>)
    ensures r.Ok? ==> ValidDate(r.value)
    ensures |SlashParts(s)| != 2 && |SlashParts(s)| != 3 ==> r == Err(InvalidFormat(s))
    ensures |SlashParts(s)| == 2 && r.Ok? ==> r.value.year == DefaultYear
  {
    var parts := SlashParts(s);
    if |parts| == 2 || |parts| == 3 then
      match ToInts(parts)
      case Err(e) => Err(e)
      case Ok(vs) =>
        var year := if |parts| == 2 then DefaultYear else ExpandYear(vs[2]);
        Lift(MakeDate(year, vs[0], vs[1]))
    else Err(InvalidFormat(s))
  }

  /** A `datetime()` failure as a parse failure. */
  function Lift(r: Result<Date, DateError>): Result<Date, ParseError>
  {
    match r
    case Err(e) => Err(OutOfRange(e))
    case Ok(d) => Ok(d)
  }

  /** Parsing digit groups joined by `/`: the values go to `datetime()`
      unchanged, except that a third group is expanded as a year. */
  lemma ParseOfGroups(groups: seq<string>)
    requires |groups| == 2 || |groups| == 3
    requires forall i :: 0 <= i < |groups| ==> |groups[i]| > 0 && AllDigits(groups[i])
    ensures ParseDateString(JoinWith(groups, "/")) == Lift(MakeDate(
      if |groups| == 2 then DefaultYear else ExpandYear(DigitsValue(groups[2])),
      DigitsValue(groups[0]), DigitsValue(groups[1])))
  {
    SlashPartsOfDigits(groups);
  }

  /** A token of digits and slashes: surrounding whitespace is not
      involved and the parts are exactly the digit groups, each read as its
      decimal value. */
  lemma SlashPartsOfDigits(groups: seq<string>)
    requires |groups| >= 1
    requires forall i :: 0 <= i < |groups| ==> |groups[i]| > 0 && AllDigits(groups[i])
    ensures SlashParts(JoinWith(groups, "/")) == groups
    ensures ToInts(groups).Ok?
    ensures forall i :: 0 <= i < |groups| ==> ToInts(groups).value[i] == DigitsValue(groups[i])
  {
    StripDigitJoin(groups);
    SplitDigitJoin(groups);
    forall i | 0 <= i < |groups|
      ensures PyInt(groups[i]) == Some(DigitsValue(groups[i]) as int)
    {
      PyIntOfDigits(groups[i]);
    }
    ToIntsAllSome(groups);
  }

  lemma StripDigitJoin(groups: seq<string>)
    requires |groups| >= 1
    requires forall i :: 0 <= i < |groups| ==> |groups[i]| > 0 && AllDigits(groups[i])
    ensures Strip(JoinWith(groups, "/"), Whitespace) == JoinWith(groups, "/")
  {
    var t := JoinWith(groups, "/");
    JoinEnds(groups);
    DigitNotSpace(t[0]);
    DigitNotSpace(t[|t| - 1]);
    StripUnpadded(t, Whitespace);
  }

  lemma SplitDigitJoin(groups: seq<string>)
    requires |groups| >= 1
    requires forall i :: 0 <= i < |groups| ==> |groups[i]| > 0 && AllDigits(groups[i])
    ensures Split(JoinWith(groups, "/"), {'/'}) == groups
  {
    forall i | 0 <= i < |groups|
      ensures NoneIn(groups[i], {'/'})
    {
    }
    assert "/" == ['/'];
    SplitJoin(groups, '/', {'/'});
  }

  /** `map(int, parts)` succeeds when `int()` accepts every part. */
  lemma ToIntsAllSome(parts: seq<string>)
    requires forall i :: 0 <= i < |parts| ==> PyInt(parts[i]).Some?
    ensures ToInts(parts).Ok?
  {
  }

  /** A `/`-join of digit groups starts and ends with a digit. */
  lemma JoinEnds(groups: seq<string>)
    requires |groups| >= 1
    requires forall i :: 0 <= i < |groups| ==> |groups[i]| > 0 && AllDigits(groups[i])
    ensures |JoinWith(groups, "/")| > 0
    ensures IsDigit(JoinWith(groups, "/")[0])
    ensures IsDigit(JoinWith(groups, "/")[|JoinWith(groups, "/")| - 1])
  {
    JoinWithEnds(groups, "/");
  }

  /** `M/D` written in digits: a real date in the default year, or an
      out-of-range error; never another date. */
  lemma ParseMonthDay(ms: string, ds: string)
    requires |ms| > 0 && AllDigits(ms) && |ds| > 0 && AllDigits(ds)
    ensures var r := ParseDateString(ms + "/" + ds);
      var d := Date(DefaultYear, DigitsValue(ms), DigitsValue(ds));
      && (r.Ok? <==> ValidDate(d))
      && (r.Ok? ==> r.value == d)
      && (r.Err? ==> r.error.OutOfRange?)
  {
    ParseTwoGroups(ms, ds);
  }

  /** `M/D/Y` written in digits: year `Y` below 100 means `2000 + Y`, any
      other year is kept; a date that does not exist is an out-of-range
      error rather than a nearby date. */
  lemma ParseMonthDayYear(ms: string, ds: string, ys: string)
    requires |ms| > 0 && AllDigits(ms) && |ds| > 0 && AllDigits(ds) && |ys| > 0 && AllDigits(ys)
    ensures var r := ParseDateString(ms + "/" + ds + "/" + ys);
      var y := DigitsValue(ys);
      var d := Date(if y < 100 then 2000 + y else y, DigitsValue(ms), DigitsValue(ds));
      && (r.Ok? <==> ValidDate(d))
      && (r.Ok? ==> r.value == d)
      && (r.Err? ==> r.error.OutOfRange?)
  {
    ParseThreeGroups(ms, ds, ys);
  }

  /** `M/D` in digits reaches `datetime()` as the default year and the two
      values. */
  lemma ParseTwoGroups(ms: string, ds: string)
    requires |ms| > 0 && AllDigits(ms) && |ds| > 0 && AllDigits(ds)
    ensures ParseDateString(ms + "/" + ds) == Lift(MakeDate(DefaultYear, DigitsValue(ms), DigitsValue(ds)))
  {
    JoinTwo(ms, ds, "/");
    ParseOfGroups([ms, ds]);
  }

  /** `M/D/Y` in digits reaches `datetime()` as the expanded year and the
      two values. */
  lemma ParseThreeGroups(ms: string, ds: string, ys: string)
    requires |ms| > 0 && AllDigits(ms) && |ds| > 0 && AllDigits(ds) && |ys| > 0 && AllDigits(ys)
    ensures ParseDateString(ms + "/" + ds + "/" + ys) == Lift(MakeDate(ExpandYear(DigitsValue(ys)), DigitsValue(ms), DigitsValue(ds)))
  {
    JoinThree(ms, ds, ys, "/");
    ParseOfGroups([ms, ds, ys]);
  }

  /** `int()` accepts a negative year, and a year below 100 is raised by
      2000 whatever its sign: `M/D/-Y` reaches `datetime()` with the year
      2000 - Y. */
  lemma ParseNegativeYear(ms: string, ds: string, ys: string)
    requires |ms| > 0 && AllDigits(ms) && |ds| > 0 && AllDigits(ds) && |ys| > 0 && AllDigits(ys)
    ensures ParseDateString(ms + "/" + ds + "/" + ("-" + ys))
      == Lift(MakeDate(2000 - DigitsValue(ys), DigitsValue(ms), DigitsValue(ds)))
  {
    var t := ms + "/" + ds + "/" + ("-" + ys);
    NegativeYearParts(ms, ds, ys);
    var parts := SlashParts(t);
    NegativeYearValues(parts, ys);
    ParseOfValues(t);
    var vs := ToInts(parts).value;
    assert vs[0] == DigitsValue(ms) && vs[1] == DigitsValue(ds) && ExpandYear(vs[2]) == 2000 - DigitsValue(ys);
  }

  /** A three-part token that `int()` accepts throughout reaches
      `datetime()` as month, day and expanded year. */
  lemma ParseOfValues(s: string)
    requires |SlashParts(s)| == 3 && ToInts(SlashParts(s)).Ok?
    ensures var vs := ToInts(SlashParts(s)).value;
      ParseDateString(s) == Lift(MakeDate(ExpandYear(vs[2]), vs[0], vs[1]))
  {
  }

  /** `int()` reads the three groups of `M/D/-Y` as M, D and -Y. */
  lemma NegativeYearValues(parts: seq<string>, ys: string)
    requires |parts| == 3 && |ys| > 0 && AllDigits(ys) && parts[2] == "-" + ys
    requires forall i :: 0 <= i < 2 ==> |parts[i]| > 0 && AllDigits(parts[i])
    ensures ToInts(parts).Ok?
    ensures ToInts(parts).value[0] == DigitsValue(parts[0]) && ToInts(parts).value[1] == DigitsValue(parts[1])
    ensures ToInts(parts).value[2] == -(DigitsValue(ys) as int)
  {
    forall i | 0 <= i < 3
      ensures PyInt(parts[i]) == Some(if i < 2 then DigitsValue(parts[i]) as int else -(DigitsValue(ys) as int))
    {
      if i < 2 {
        PyIntOfDigits(parts[i]);
      } else {
        PyIntOfNegative(ys);
      }
    }
    ToIntsAllSome(parts);
    var vs := ToInts(parts).value;
    assert PyInt(parts[0]) == Some(vs[0]) && PyInt(parts[1]) == Some(vs[1]) && PyInt(parts[2]) == Some(vs[2]);
  }

  /** The parts of `M/D/-Y` are its three groups, the last with its sign. */
  lemma NegativeYearParts(ms: string, ds: string, ys: string)
    requires |ms| > 0 && AllDigits(ms) && |ds| > 0 && AllDigits(ds) && |ys| > 0 && AllDigits(ys)
    ensures SlashParts(ms + "/" + ds + "/" + ("-" + ys)) == [ms, ds, "-" + ys]
  {
    var groups := [ms, ds, "-" + ys];
    var t := ms + "/" + ds + "/" + ("-" + ys);
    JoinThree(ms, ds, "-" + ys, "/");
    assert t[0] == ms[0] && t[|t| - 1] == ys[|ys| - 1];
    DigitNotSpace(t[0]);
    DigitNotSpace(t[|t| - 1]);
    StripUnpadded(t, Whitespace);
    forall i | 0 <= i < |groups|
      ensures NoneIn(groups[i], {'/'})
    {
    }
    assert "/" == ['/'];
    SplitJoin(groups, '/', {'/'});
  }

  /** The `M/D/YYYY` rendering of a date. */
  function FormatDate(d: Date): string
    requires d.month >= 0 && d.day >= 0 && d.year >= 0
  {
    NatToString(d.month) + "/" + NatToString(d.day) + "/" + NatToString(d.year)
  }

  /** Rendering a real date from year 100 on and parsing it back gives the
      same date. */
  lemma ParseFormatRoundTrip(d: Date)
    requires ValidDate(d) && d.year >= 100
    ensures ParseDateString(FormatDate(d)) == Ok(d)
  {
    ParseMonthDayYear(NatToString(d.month), NatToString(d.day), NatToString(d.year));
  }

  /** A token with fewer than two or more than three parts is a format
      error that reports the token itself. */
  lemma ParsePartCount(groups: seq<string>)
    requires |groups| == 1 || |groups| >= 4
    requires forall i :: 0 <= i < |groups| ==> |groups[i]| > 0 && AllDigits(groups[i])
    ensures ParseDateString(JoinWith(groups, "/")) == Err(InvalidFormat(JoinWith(groups, "/")))
  {
    SlashPartsOfDigits(groups);
  }

  /** A month outside 1..12 in `M/D` is rejected whatever the day, in
      the default year. */
  lemma ParseBadMonth(ms: string, ds: string)
    requires |ms| > 0 && AllDigits(ms) && |ds| > 0 && AllDigits(ds)
    requires !(1 <= DigitsValue(ms) <= 12)
    ensures ParseDateString(ms + "/" + ds) == Err(OutOfRange(MonthOutOfRange(DigitsValue(ms))))
  {
    ParseTwoGroups(ms, ds);
  }

  /** February 29 does not exist in the default year 2025: `2/29` is a
      day error rather than March 1. */
  lemma ParseLeapDayDefaultYear()
    ensures ParseDateString("2/29") == Err(OutOfRange(DayOutOfRange(29)))
  {
    var ms, ds := "2", "29";
    assert ds[..1] == "2";
    assert DigitsValue(ms) == 2 && DigitsValue(ds) == 29;
    assert ms + "/" + ds == "2/29";
    ParseBadDay(ms, ds);
  }

  /** `2/29/24` is February 29 of the leap year 2024. */
  lemma ParseLeapDayLeapYear()
    ensures ParseDateString("2/29/24") == Ok(Date(2024, 2, 29))
  {
    LeapDayParts();
    ParseMonthDayYear("2", "29", "24");
  }

  /** The groups of `2/29/24`, their values, and the date they name. */
  lemma LeapDayParts()
    ensures "2" + "/" + "29" + "/" + "24" == "2/29/24"
    ensures DigitsValue("2") == 2 && DigitsValue("29") == 29 && DigitsValue("24") == 24
    ensures ValidDate(Date(2024, 2, 29))
  {
    assert "29"[..1] == "2" && "24"[..1] == "2";
    assert IsLeapYear(2024);
  }

  /** A day past the end of its month in the default year is a day error. */
  lemma ParseBadDay(ms: string, ds: string)
    requires |ms| > 0 && AllDigits(ms) && |ds| > 0 && AllDigits(ds)
    requires 1 <= DigitsValue(ms) <= 12 && DigitsValue(ds) > DaysInMonth(DefaultYear, DigitsValue(ms))
    ensures ParseDateString(ms + "/" + ds) == Err(OutOfRange(DayOutOfRange(DigitsValue(ds))))
  {
    ParseTwoGroups(ms, ds);
  }

  /** `int()` does not skip U+001C, though `strip()` does: a separator
      between the month and the slash makes the month part a `ValueError`,
      and the token is refused. */
  lemma ParseRejectsSeparator(ms: string, ds: string)
    requires |ms| > 0 && AllDigits(ms) && |ds| > 0 && AllDigits(ds)
    ensures ParseDateString(ms + "\U{1C}" + "/" + ds) == Err(NotAnInteger(ms + "\U{1C}"))
  {
    SeparatorTokenParts(ms, ds);
    PyIntRejectsSeparator(ms);
  }

  /** The parts of such a token: the month with its separator, then the day. */
  lemma SeparatorTokenParts(ms: string, ds: string)
    requires |ms| > 0 && AllDigits(ms) && |ds| > 0 && AllDigits(ds)
    ensures SlashParts(ms + "\U{1C}" + "/" + ds) == [ms + "\U{1C}", ds]
  {
    var m := ms + "\U{1C}";
    var t := m + "/" + ds;
    assert t == m + ['/'] + ds;
    assert t[0] == ms[0] && t[|t| - 1] == ds[|ds| - 1];
    DigitNotSpace(t[0]);
    DigitNotSpace(t[|t| - 1]);
    StripUnpadded(t, Whitespace);
    assert forall k :: 0 <= k < |m| ==> m[k] == '\U{1C}' || IsDigit(m[k]);
    SplitAfterPiece(m, '/', ds, {'/'});
    SplitNoSeparator(ds, {'/'});
  }
}

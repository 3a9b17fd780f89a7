/** `util.date_standardiser`: read a date written either as an ISO 8601 calendar date
    (optionally followed by a time of day, which is discarded) or as `DD/Mon/YYYY`, and
    write it back as `YYYY-MM-DD`. The ISO grammar is tried first; a string neither
    grammar accepts, or one naming a day the calendar does not have, is an error. */
module DateStandardiser {
  import opened Wrappers
  import opened Digits
  import opened Calendar

  /** The ValueError raised by `strptime` once `fromisoformat` has also failed. */
  datatype DateError = Unparseable(text: string)

  /** Ten characters, dashes at positions 4 and 7 and ASCII digits everywhere else. */
  predicate IsCanonical(s: string) {
    && |s| == 10
    && s[4] == '-' && s[7] == '-'
    && forall i | 0 <= i < 10 && i != 4 && i != 7 :: IsDigit(s[i])
  }

  /** `s` starts with `YYYY-MM-DD` in digits and dashes (calendar validity aside). */
  predicate HasIsoDatePrefix(s: string) {
    && |s| >= 10
    && AllDigits(s[0..4]) && s[4] == '-'
    && AllDigits(s[5..7]) && s[7] == '-'
    && AllDigits(s[8..10])
  }

  predicate TwoDigitsBelow(s: string, bound: nat) {
    |s| == 2 && AllDigits(s) && ValueOf(s) < bound
  }

  /** A time-of-day tail `(T| )HH:MM` or `(T| )HH:MM:SS` with a valid hour, minute and second. */
  predicate IsTimeSuffix(t: string) {
    && (|t| == 6 || |t| == 9)
    && (t[0] == 'T' || t[0] == ' ')
    && TwoDigitsBelow(t[1..3], 24)
    && t[3] == ':'
    && TwoDigitsBelow(t[4..6], 60)
    && (|t| == 9 ==> t[6] == ':' && TwoDigitsBelow(t[7..9], 60))
  }

  /** The calendar fields written in the first ten characters of an ISO-prefixed string. */
  function IsoFields(s: string): Date
    requires HasIsoDatePrefix(s)
  {
    Date(ValueOf(s[0..4]), ValueOf(s[5..7]), ValueOf(s[8..10]))
  }

  /** `datetime.fromisoformat(s).date()` on the modelled subset of ISO 8601. */
  function ParseIsoDate(s: string): (r: Option<Date>)
    ensures r.Some? ==> ValidDate(r.value)
    ensures r.Some? <==> HasIsoDatePrefix(s) && ValidDate(IsoFields(s)) && (|s| == 10 || IsTimeSuffix(s[10..]))
  {
    if !HasIsoDatePrefix(s) || !(|s| == 10 || IsTimeSuffix(s[10..])) then None
    else if ValidDate(IsoFields(s)) then Some(IsoFields(s))
    else None
  }

  /** `date.strftime('%Y-%m-%d')`, with the year zero-padded to four digits. */
  function FormatDate(d: Date): (s: string)
    requires ValidDate(d)
    ensures IsCanonical(s)
  {
    Pow10Small();
    var s := Padded(d.year, 4) + "-" + Padded(d.month, 2) + "-" + Padded(d.day, 2);
    assert forall i | 0 <= i < 4 :: s[i] == Padded(d.year, 4)[i];
    assert forall i | 5 <= i < 7 :: s[i] == Padded(d.month, 2)[i - 5];
    assert forall i | 8 <= i < 10 :: s[i] == Padded(d.day, 2)[i - 8];
    s
  }

  const MonthAbbreviations: seq<string> :=
    ["jan", "feb", "mar", "apr", "may", "jun", "jul", "aug", "sep", "oct", "nov", "dec"]

  /** The English abbreviations as they are usually written, `Jan` .. `Dec`. */
  const MonthTitles: seq<string> :=
    ["Jan", "Feb", "Mar", "Apr", "May", "Jun", "Jul", "Aug", "Sep", "Oct", "Nov", "Dec"]

  function LowerAscii(c: char): char {
    if 'A' <= c <= 'Z' then (c as int + 32) as char else c
  }

  function Lower(s: string): (r: string)
    ensures |r| == |s|
    ensures forall i | 0 <= i < |s| :: r[i] == LowerAscii(s[i])
  {
    seq(|s|, i requires 0 <= i < |s| => LowerAscii(s[i]))
  }

  /** Position of `t` among the month abbreviations from index `k` on, as a month number. */
  function FindMonth(t: string, k: nat): (r: Option<int>)
    requires k <= 12
    ensures r.Some? ==> k < r.value <= 12 && MonthAbbreviations[r.value - 1] == t
    ensures r.None? ==> forall j | k <= j < 12 :: MonthAbbreviations[j] != t
    decreases 12 - k
  {
    if k == 12 then None
    else if MonthAbbreviations[k] == t then Some(k + 1)
    else FindMonth(t, k + 1)
  }

  /** The month named by a `%b` field: three letters matched case-insensitively. */
  function MonthOfToken(t: string): (r: Option<int>)
    ensures r.Some? ==> 1 <= r.value <= 12 && |t| == 3 && Lower(t) == MonthAbbreviations[r.value - 1]
    ensures r.None? ==> forall j | 0 <= j < 12 :: Lower(t) != MonthAbbreviations[j]
  {
    FindMonth(Lower(t), 0)
  }

  /** The digits of a `%d` field: the field itself, or what follows its leading space. */
  function DayDigits(t: string): string {
    if |t| > 0 && t[0] == ' ' then t[1..] else t
  }

  /** The day named by a `%d` field: `1`..`9`, `01`..`31`, or a space and `1`..`9`. */
  function DayOfToken(t: string): (r: Option<int>)
    ensures r.Some? ==> 1 <= r.value <= 31
    ensures r.Some? ==> |t| == 1 || |t| == 2
    ensures r.Some? ==> AllDigits(DayDigits(t)) && r.value == ValueOf(DayDigits(t))
  {
    if |t| == 1 && IsDigit(t[0]) && t[0] != '0' then
      assert t[..0] == [];
      Some(DigitValue(t[0]))
    else if |t| == 2 && t[0] == ' ' && IsDigit(t[1]) && t[1] != '0' then
      assert t[1..][..0] == [];
      Some(DigitValue(t[1]))
    else if |t| == 2 && AllDigits(t) && 1 <= ValueOf(t) <= 31 then Some(ValueOf(t))
    else None
  }

  /** `datetime.strptime(s, '%d/%b/%Y').date()`: the whole string must match. */
  function ParseDayMonYear(s: string): (r: Option<Date>)
    ensures r.Some? ==> ValidDate(r.value)
    ensures r.Some? ==> (|s| == 10 && s[1] == '/') || (|s| == 11 && s[2] == '/')
    ensures r.Some? ==>
      && s[|s| - 5] == '/'
      && DayOfToken(s[..|s| - 9]).Some? && MonthOfToken(s[|s| - 8..|s| - 5]).Some?
      && AllDigits(s[|s| - 4..])
      && r.value == Date(ValueOf(s[|s| - 4..]), MonthOfToken(s[|s| - 8..|s| - 5]).value, DayOfToken(s[..|s| - 9]).value)
  {
    if |s| != 10 && |s| != 11 then None
    else
      var slash := |s| - 9;
      if s[slash] != '/' || s[slash + 4] != '/' then None
      else
        var day := DayOfToken(s[..slash]);
        var month := MonthOfToken(s[slash + 1..slash + 4]);
        var yearText := s[slash + 5..];
        if day.None? || month.None? || !AllDigits(yearText) then None
        else
          var d := Date(ValueOf(yearText), month.value, day.value);
          if ValidDate(d) then Some(d) else None
  }

  /** `util.date_standardiser`. */
  function Standardise(s: string): (r: Result<string, DateError>)
    ensures r.Success? ==> IsCanonical(r.value)
    ensures r.Success? <==> ParseIsoDate(s).Some? || ParseDayMonYear(s).Some?
    ensures r.Failure? ==> r.error == Unparseable(s)
  {
    match ParseIsoDate(s)
    case Some(d) => Success(FormatDate(d))
    case None =>
      match ParseDayMonYear(s)
      case Some(d) => Success(FormatDate(d))
      case None => Failure(Unparseable(s))
  }

  // ---------------------------------------------------------------------------
  // Properties

  /** The two grammars never both accept a string, so trying ISO first loses nothing. */
  lemma GrammarsDisjoint(s: string)
    ensures ParseIsoDate(s).None? || ParseDayMonYear(s).None?
  {
  }

  /** The fields read back from a formatted date are the date itself. */
  lemma {:induction false} FormatFields(d: Date)
    requires ValidDate(d)
    ensures HasIsoDatePrefix(FormatDate(d)) && IsoFields(FormatDate(d)) == d
  {
    Pow10Small();
    var s := FormatDate(d);
    assert s[0..4] == Padded(d.year, 4);
    assert s[5..7] == Padded(d.month, 2);
    assert s[8..10] == Padded(d.day, 2);
    ValueOfPadded(d.year, 4);
    ValueOfPadded(d.month, 2);
    ValueOfPadded(d.day, 2);
  }

  /** Printing and then parsing a valid date gives the date back. */
  lemma {:induction false} IsoRoundTrip(d: Date)
    requires ValidDate(d)
    ensures ParseIsoDate(FormatDate(d)) == Some(d)
  {
    FormatFields(d);
  }

  /** Formatting the fields of an ISO-prefixed string reproduces its first ten characters. */
  lemma {:induction false} FieldsFormat(s: string)
    requires HasIsoDatePrefix(s) && ValidDate(IsoFields(s))
    ensures FormatDate(IsoFields(s)) == s[..10]
  {
    Pow10Small();
    PaddedValueOf(s[0..4]);
    PaddedValueOf(s[5..7]);
    PaddedValueOf(s[8..10]);
    assert s[..10] == s[0..4] + "-" + s[5..7] + "-" + s[8..10];
  }

  /** A valid `YYYY-MM-DD` string is returned unchanged. */
  lemma {:induction false} CanonicalUnchanged(d: Date)
    requires ValidDate(d)
    ensures Standardise(FormatDate(d)) == Success(FormatDate(d))
  {
    IsoRoundTrip(d);
  }

  /** A string in canonical shape is either returned unchanged or rejected. */
  lemma {:induction false} CanonicalShapeFixed(s: string)
    requires IsCanonical(s)
    ensures Standardise(s).Success? ==> Standardise(s).value == s
    ensures Standardise(s).Success? <==> ValidDate(IsoFields(s))
  {
    assert AllDigits(s[0..4]) && AllDigits(s[5..7]) && AllDigits(s[8..10]);
    assert HasIsoDatePrefix(s);
    if ValidDate(IsoFields(s)) {
      FieldsFormat(s);
      assert s[..10] == s;
    }
  }

  /** Standardising is idempotent: its output standardises to itself. */
  lemma {:induction false} Idempotent(s: string)
    requires Standardise(s).Success?
    ensures Standardise(Standardise(s).value) == Standardise(s)
  {
    var d := if ParseIsoDate(s).Some? then ParseIsoDate(s).value else ParseDayMonYear(s).value;
    assert Standardise(s).value == FormatDate(d);
    CanonicalUnchanged(d);
  }

  /** A time of day after an ISO date is discarded: the result is that of the date alone. */
  lemma {:induction false} TimeDiscarded(date: string, time: string)
    requires |date| == 10 && HasIsoDatePrefix(date)
    requires IsTimeSuffix(time)
    ensures Standardise(date + time).Success? <==> Standardise(date).Success?
    ensures Standardise(date).Success? ==> Standardise(date + time).value == Standardise(date).value
  {
    var s := date + time;
    assert s[0..4] == date[0..4] && s[5..7] == date[5..7] && s[8..10] == date[8..10];
    assert s[4] == date[4] && s[7] == date[7];
    assert s[10..] == time;
    assert HasIsoDatePrefix(s) && IsoFields(s) == IsoFields(date);
    assert IsDigit(date[0..4][1]);
  }

  /** `Standardise` of a ten-character ISO date, its result with a time appended, spelled out. */
  lemma {:induction false} IsoDateWithTime(d: Date, time: string)
    requires ValidDate(d) && IsTimeSuffix(time)
    ensures Standardise(FormatDate(d) + time) == Success(FormatDate(d))
  {
    FormatFields(d);
    TimeDiscarded(FormatDate(d), time);
    CanonicalUnchanged(d);
  }

  /** `DD/Mon/YYYY` with the usual spelling of the month maps to `YYYY-MM-DD`. */
  lemma {:induction false} DayMonYearMapped(d: Date)
    requires ValidDate(d)
    ensures Standardise(Padded2(d.day) + "/" + MonthTitles[d.month - 1] + "/" + Padded4(d.year))
         == Success(FormatDate(d))
  {
    var s := Padded2(d.day) + "/" + MonthTitles[d.month - 1] + "/" + Padded4(d.year);
    DayMonYearParses(d);
    GrammarsDisjoint(s);
  }

  /** Every spelling `strptime` accepts, whatever the day's padding and the month's case,
      maps to the `YYYY-MM-DD` of the date its fields name. */
  lemma {:induction false} DayMonYearSpellings(dayText: string, monthText: string, d: Date)
    requires ValidDate(d)
    requires DayOfToken(dayText) == Some(d.day) && MonthOfToken(monthText) == Some(d.month)
    ensures Standardise(dayText + "/" + monthText + "/" + Padded4(d.year)) == Success(FormatDate(d))
  {
    var yearText := Padded4(d.year);
    var s := dayText + "/" + monthText + "/" + yearText;
    var n := |dayText|;
    assert |monthText| == 3 && |yearText| == 4;
    assert |s| == n + 9 && s[n] == '/' && s[n + 4] == '/';
    assert s[..n] == dayText;
    assert s[n + 1..n + 4] == monthText;
    assert s[n + 5..] == yearText;
    PaddedYearReads(d.year);
    DayMonYearFields(s, d.day, d.month, d.year);
    GrammarsDisjoint(s);
  }

  /** The `DD/Mon/YYYY` spelling of a date reads back as that date. */
  lemma DayMonYearParses(d: Date)
    requires ValidDate(d)
    ensures ParseDayMonYear(Padded2(d.day) + "/" + MonthTitles[d.month - 1] + "/" + Padded4(d.year)) == Some(d)
  {
    var dayText := Padded2(d.day);
    var yearText := Padded4(d.year);
    var s := dayText + "/" + MonthTitles[d.month - 1] + "/" + yearText;
    assert |s| == 11 && s[2] == '/' && s[6] == '/';
    assert s[..2] == dayText;
    assert s[3..6] == MonthTitles[d.month - 1];
    assert s[7..] == yearText;
    PaddedDayReads(d.day);
    PaddedYearReads(d.year);
    MonthTitleLowers(d.month);
    DayMonYearFields(s, d.day, d.month, d.year);
  }

  lemma PaddedDayReads(day: int)
    requires 1 <= day <= 31
    ensures DayOfToken(Padded2(day)) == Some(day)
  {
    Pow10Small();
    ValueOfPadded(day, 2);
    assert IsDigit(Padded2(day)[0]);
  }

  lemma PaddedYearReads(year: int)
    requires 0 <= year < 10000
    ensures ValueOf(Padded4(year)) == year
  {
    Pow10Small();
    ValueOfPadded(year, 4);
  }

  function Padded2(n: nat): (s: string)
    requires n < 100
    ensures |s| == 2 && AllDigits(s)
  {
    Pow10Small();
    Padded(n, 2)
  }

  function Padded4(n: nat): (s: string)
    requires n < 10000
    ensures |s| == 4 && AllDigits(s)
  {
    Pow10Small();
    Padded(n, 4)
  }

  lemma MonthTitleLowers(m: int)
    requires 1 <= m <= 12
    ensures Lower(MonthTitles[m - 1]) == MonthAbbreviations[m - 1]
    ensures MonthOfToken(MonthTitles[m - 1]) == Some(m)
  {
    var t := MonthTitles[m - 1];
    assert Lower(t) == [LowerAscii(t[0]), LowerAscii(t[1]), LowerAscii(t[2])];
    assert Lower(t) == MonthAbbreviations[m - 1];
    forall j | 0 <= j < 12 && j != m - 1
      ensures MonthAbbreviations[j] != MonthAbbreviations[m - 1]
    {
      assert MonthAbbreviations[j][0] != MonthAbbreviations[m - 1][0]
          || MonthAbbreviations[j][1] != MonthAbbreviations[m - 1][1]
          || MonthAbbreviations[j][2] != MonthAbbreviations[m - 1][2];
    }
  }

  /** The calendar fields of an ISO-prefixed string, digit by digit. */
  lemma IsoFieldsDigits(s: string)
    requires HasIsoDatePrefix(s)
    ensures IsoFields(s) == Date(
      1000 * DigitValue(s[0]) + 100 * DigitValue(s[1]) + 10 * DigitValue(s[2]) + DigitValue(s[3]),
      10 * DigitValue(s[5]) + DigitValue(s[6]),
      10 * DigitValue(s[8]) + DigitValue(s[9]))
  {
    ValueOfFour(s[0..4]);
    ValueOfTwo(s[5..7]);
    ValueOfTwo(s[8..10]);
  }

  /** A `DD/Mon/YYYY` string whose three fields read as given parses to those fields when
      they form a date of the calendar, and to nothing otherwise. */
  lemma DayMonYearFields(s: string, day: int, month: int, year: int)
    requires |s| == 10 || |s| == 11
    requires s[|s| - 9] == '/' && s[|s| - 5] == '/'
    requires DayOfToken(s[..|s| - 9]) == Some(day) && MonthOfToken(s[|s| - 8..|s| - 5]) == Some(month)
    requires AllDigits(s[|s| - 4..]) && ValueOf(s[|s| - 4..]) == year
    ensures ParseDayMonYear(s) == if ValidDate(Date(year, month, day)) then Some(Date(year, month, day)) else None
  {
  }

  /** A ten-character ISO date naming a day the calendar does not have is an error: the
      `DD/Mon/YYYY` grammar cannot rescue it, since its second character is a digit. */
  lemma IsoRejected(s: string)
    requires |s| == 10 && HasIsoDatePrefix(s) && !ValidDate(IsoFields(s))
    ensures Standardise(s).Failure?
  {
    assert ParseIsoDate(s).None?;
    assert IsDigit(s[0..4][1]);
    assert ParseDayMonYear(s).None?;
  }

  /** Worked cases: days the calendar does not have and month 13 are errors. */
  lemma RejectsThirtyFirstOfAprilIso()
    ensures Standardise("2021-04-31").Failure?
  {
    var s := "2021-04-31";
    assert AllDigits(s[0..4]) && AllDigits(s[5..7]) && AllDigits(s[8..10]);
    IsoFieldsDigits(s);
    assert IsoFields(s) == Date(2021, 4, 31);
    IsoRejected(s);
  }

  lemma RejectsLeapDayOfCommonYearIso()
    ensures Standardise("2019-02-29").Failure?
  {
    var s := "2019-02-29";
    assert AllDigits(s[0..4]) && AllDigits(s[5..7]) && AllDigits(s[8..10]);
    IsoFieldsDigits(s);
    assert IsoFields(s) == Date(2019, 2, 29);
    assert !IsLeapYear(2019);
    IsoRejected(s);
  }

  lemma RejectsMonthThirteen()
    ensures Standardise("2020-13-01").Failure?
  {
    var s := "2020-13-01";
    assert AllDigits(s[0..4]) && AllDigits(s[5..7]) && AllDigits(s[8..10]);
    IsoFieldsDigits(s);
    assert IsoFields(s) == Date(2020, 13, 1);
    IsoRejected(s);
  }

  lemma RejectsThirtyFirstOfApril()
    ensures Standardise("31/Apr/2020").Failure?
  {
    var s := "31/Apr/2020";
    assert s[..2] == "31";
    assert s[3..6] == "Apr" == MonthTitles[3];
    assert s[7..] == "2020";
    assert !HasIsoDatePrefix(s) by { assert !IsDigit(s[0..4][2]); }
    ValueOfTwo("31");
    assert DayOfToken("31") == Some(31);
    MonthTitleLowers(4);
    ValueOfFour("2020");
    DayMonYearFields(s, 31, 4, 2020);
  }

  lemma RejectsLeapDayOfCommonYear()
    ensures Standardise("29/Feb/2019").Failure?
  {
    var s := "29/Feb/2019";
    assert s[..2] == "29";
    assert s[3..6] == "Feb" == MonthTitles[1];
    assert s[7..] == "2019";
    assert !HasIsoDatePrefix(s) by { assert !IsDigit(s[0..4][2]); }
    ValueOfTwo("29");
    assert DayOfToken("29") == Some(29);
    MonthTitleLowers(2);
    ValueOfFour("2019");
    assert !IsLeapYear(2019);
    DayMonYearFields(s, 29, 2, 2019);
  }

  lemma RejectsForeignStrings()
    ensures Standardise("05/Foo/2020").Failure?
    ensures Standardise("hello").Failure?
  {
    var s := "05/Foo/2020";
    assert s[3..6] == "Foo";
    assert !HasIsoDatePrefix(s) by { assert !IsDigit(s[0..4][2]); }
    assert Lower("Foo") == "foo";
    assert MonthOfToken(s[3..6]).None?;
    assert !HasIsoDatePrefix("hello");
  }

  lemma FormatExample()
    ensures FormatDate(Date(2020, 3, 5)) == "2020-03-05"
  {
    var t := "2020-03-05";
    assert AllDigits(t[0..4]) && AllDigits(t[5..7]) && AllDigits(t[8..10]);
    IsoFieldsDigits(t);
    assert IsoFields(t) == Date(2020, 3, 5);
    FieldsFormat(t);
    assert t[..10] == t;
  }

  /** Worked cases: a leap day, an Excel timestamp and two `DD/Mon/YYYY` spellings. */
  lemma AcceptsLeapDay()
    ensures Standardise("2020-02-29") == Success("2020-02-29")
  {
    var s := "2020-02-29";
    assert AllDigits(s[0..4]) && AllDigits(s[5..7]) && AllDigits(s[8..10]);
    IsoFieldsDigits(s);
    assert IsoFields(s) == Date(2020, 2, 29);
    assert IsLeapYear(2020);
    FieldsFormat(s);
    assert s[..10] == s;
    CanonicalShapeFixed(s);
  }

  lemma MidnightIsTime()
    ensures IsTimeSuffix(" 00:00:00")
  {
    var t := " 00:00:00";
    assert t[1..3] == "00" && t[4..6] == "00" && t[7..9] == "00";
    ValueOfTwo("00");
  }

  lemma AcceptsFifthOfJanuary()
    ensures Standardise("2020-01-05") == Success("2020-01-05")
  {
    var s := "2020-01-05";
    assert AllDigits(s[0..4]) && AllDigits(s[5..7]) && AllDigits(s[8..10]);
    IsoFieldsDigits(s);
    assert IsoFields(s) == Date(2020, 1, 5);
    CanonicalShapeFixed(s);
  }

  lemma AcceptsTimestamp()
    ensures Standardise("2020-01-05 00:00:00") == Success("2020-01-05")
  {
    var date, time := "2020-01-05", " 00:00:00";
    assert date + time == "2020-01-05 00:00:00";
    assert HasIsoDatePrefix(date) by {
      assert date[0..4] == "2020" && date[5..7] == "01" && date[8..10] == "05";
    }
    AcceptsFifthOfJanuary();
    MidnightIsTime();
    TimeDiscarded(date, time);
  }

  lemma AcceptsDayMonYear()
    ensures Standardise("05/Mar/2020") == Success("2020-03-05")
  {
    var s := "05/Mar/2020";
    assert s[..2] == "05";
    assert s[3..6] == "Mar" == MonthTitles[2];
    assert s[7..] == "2020";
    assert !HasIsoDatePrefix(s) by { assert !IsDigit(s[0..4][2]); }
    ValueOfTwo("05");
    assert DayOfToken("05") == Some(5);
    MonthTitleLowers(3);
    ValueOfFour("2020");
    DayMonYearFields(s, 5, 3, 2020);
    FormatExample();
  }

  lemma AcceptsShortLowerCaseDay()
    ensures Standardise("5/mar/2020") == Success("2020-03-05")
  {
    var s := "5/mar/2020";
    assert s[..1] == "5";
    assert s[2..5] == "mar";
    assert s[6..] == "2020";
    assert !HasIsoDatePrefix(s) by { assert !IsDigit(s[0..4][1]); }
    assert DayOfToken("5") == Some(5);
    assert Lower("mar") == "mar";
    assert MonthOfToken("mar") == Some(3);
    ValueOfFour("2020");
    DayMonYearFields(s, 5, 3, 2020);
    FormatExample();
  }

  /** `strptime`'s `%d` also takes a space before a one-digit day. */
  lemma AcceptsSpacePaddedDay()
    ensures Standardise(" 5/Jan/2020") == Success("2020-01-05")
  {
    assert " 5" + "/" + "Jan" + "/" + "2020" == " 5/Jan/2020";
    SpacePaddedFive();
    MonthTitleLowers(1);
    YearTwentyTwenty();
    DayMonYearSpellings(" 5", "Jan", Date(2020, 1, 5));
    FifthOfJanuaryFormat();
  }

  lemma SpacePaddedFive()
    ensures DayOfToken(" 5") == Some(5)
  {
    assert [' ', '5'][1..] == "5";
  }

  lemma YearTwentyTwenty()
    ensures Padded4(2020) == "2020"
  {
    ValueOfFour("2020");
    PaddedValueOf("2020");
  }

  lemma FifthOfJanuaryFormat()
    ensures FormatDate(Date(2020, 1, 5)) == "2020-01-05"
  {
    var t := "2020-01-05";
    assert AllDigits(t[0..4]) && AllDigits(t[5..7]) && AllDigits(t[8..10]);
    IsoFieldsDigits(t);
    assert IsoFields(t) == Date(2020, 1, 5);
    FieldsFormat(t);
    assert t[..10] == t;
  }
}

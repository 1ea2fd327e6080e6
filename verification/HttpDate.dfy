/** The http-date form: parsing accepts exactly what formatting writes. */
module HttpDate {
  import opened Common
  import opened Calendar
  import opened TimestampSpec
  import opened TimestampProps

  // ----- month names -----

  function NameCode(s: string): int
    requires |s| == 3
  {
    s[0] as int * 65536 + s[1] as int * 256 + s[2] as int
  }

  lemma FirstCodes()
    ensures NameCode(MONTHS[0]) == 4874606 && NameCode(MONTHS[1]) == 4613474 && NameCode(MONTHS[2]) == 5071218
    ensures NameCode(MONTHS[3]) == 4288626 && NameCode(MONTHS[4]) == 5071225 && NameCode(MONTHS[5]) == 4879726
  {
  }

  lemma LastCodes()
    ensures NameCode(MONTHS[6]) == 4879724 && NameCode(MONTHS[7]) == 4289895 && NameCode(MONTHS[8]) == 5465456
    ensures NameCode(MONTHS[9]) == 5202804 && NameCode(MONTHS[10]) == 5140342 && NameCode(MONTHS[11]) == 4482403
  {
  }

  lemma MonthsDiffer(a: nat, b: nat)
    requires a < 12 && b < 12 && MONTHS[a] == MONTHS[b]
    ensures a == b
  {
    FirstCodes();
    LastCodes();
    assert |MONTHS[a]| == 3;
    hide NameCode;
  }

  lemma {:induction false} MonthNamed(k: nat, i: nat)
    requires 1 <= k <= i <= 12
    ensures MonthNumber(MONTHS[k - 1], i) == k
    decreases i
  {
    if MONTHS[i - 1] == MONTHS[k - 1] {
      MonthsDiffer(i - 1, k - 1);
    } else {
      MonthNamed(k, i - 1);
    }
  }

  lemma {:induction false} NumberedMonth(name: string, i: nat)
    requires i <= 12
    ensures MonthNumber(name, i) > 0 ==> MONTHS[MonthNumber(name, i) - 1] == name
    decreases i
  {
    if i > 0 && MONTHS[i - 1] != name {
      NumberedMonth(name, i - 1);
    }
  }

  lemma NameLengths(w: nat, m: nat)
    ensures (w < 7 ==> |WEEKDAYS[w]| == 3) && (m < 12 ==> |MONTHS[m]| == 3)
  {
  }

  // ----- the layout -----

  function Day(weekday: string, day: nat): string {
    weekday + ", " + Padded(day, 2) + " "
  }

  function MonthYear(month: string, year: nat): string {
    month + " " + Padded(year, 4) + " "
  }

  lemma DayLayout(weekday: string, day: nat, t: string)
    requires |weekday| == 3 && day < 100 && t == Day(weekday, day)
    ensures |t| == 8 && t[0..3] == weekday && t[3..5] == ", " && t[5..7] == Padded(day, 2) && t[7] == ' '
  {
    TwoDigits(day);
    hide Padded;
  }

  lemma MonthLayout(month: string, year: nat, t: string)
    requires |month| == 3 && year < 10000 && t == MonthYear(month, year)
    ensures |t| == 9 && t[0..3] == month && t[3] == ' ' && t[4..8] == Padded(year, 4) && t[8] == ' '
  {
    FourDigits(year);
    hide Padded;
  }

  function HttpDateText(weekday: string, c: Civil): string
    requires CivilOk(c) && 0 <= c.date.year <= 9999
  {
    Day(weekday, c.date.day) + MonthYear(MONTHS[c.date.month - 1], c.date.year) + Clock(c) + " GMT"
  }

  /** Where the fields of an http-date stand. */
  lemma Layout(weekday: string, c: Civil, t: string)
    requires CivilOk(c) && 0 <= c.date.year <= 9999 && |weekday| == 3 && t == HttpDateText(weekday, c)
    ensures |t| == 29 && t[..3] == weekday && t[3..5] == ", " && t[7] == ' ' && t[11] == ' ' && t[16] == ' ' && t[19] == ':' && t[22] == ':'
    ensures t[25..] == " GMT" && t[5..7] == Padded(c.date.day, 2) && t[8..11] == MONTHS[c.date.month - 1]
    ensures t[12..16] == Padded(c.date.year, 4) && t[17..19] == Padded(c.hour, 2) && t[20..22] == Padded(c.minute, 2) &&
            t[23..25] == Padded(c.second, 2)
  {
    NameLengths(0, c.date.month - 1);
    var a, b, k := Day(weekday, c.date.day), MonthYear(MONTHS[c.date.month - 1], c.date.year), Clock(c);
    DayLayout(weekday, c.date.day, a);
    MonthLayout(MONTHS[c.date.month - 1], c.date.year, b);
    ClockLayout(c);
    hide Padded, Clock, Day, MonthYear;
    var ab := a + b;
    Before(a, b, 0, 3);
    Before(a, b, 3, 5);
    Before(a, b, 5, 7);
    Inside(a, b, 0, 3);
    Inside(a, b, 4, 8);
    LayoutTail(ab, k, t);
  }

  /** The same, from the first seventeen characters on. */
  lemma LayoutTail(ab: string, k: string, t: string)
    requires |ab| == 17 && |k| == 8 && t == ab + k + " GMT"
    ensures |t| == 29 && t[..17] == ab && t[17..25] == k && t[25..] == " GMT"
    ensures forall i, j | 0 <= i <= j <= 17 :: t[i..j] == ab[i..j]
    ensures forall i, j | 0 <= i <= j <= 8 :: t[17 + i..17 + j] == k[i..j]
    ensures t[7] == ab[7] && t[11] == ab[11] && t[16] == ab[16] && t[19] == k[2] && t[22] == k[5]
    ensures t[..3] == ab[0..3] && t[17..19] == k[0..2] && t[20..22] == k[3..5] && t[23..25] == k[6..8]
  {
    forall i, j | 0 <= i <= j <= 17
      ensures t[i..j] == ab[i..j]
    {
    }
    forall i, j | 0 <= i <= j <= 8
      ensures t[17 + i..17 + j] == k[i..j]
    {
    }
  }

  // ----- reading what was written -----

  lemma HttpDateForm(ms: int)
    requires 0 <= Decompose(ms).date.year <= 9999 && CivilOk(Decompose(ms))
    ensures FormatHttpDate(ms) == HttpDateText(WEEKDAYS[Weekday(ms / DAY)], Decompose(ms))
  {
    hide Decompose, Clock, Padded;
    var c := Decompose(ms);
    var w, m := WEEKDAYS[Weekday(ms / DAY)], MONTHS[c.date.month - 1];
    Flatten(w, Padded(c.date.day, 2), m, Padded(c.date.year, 4), Clock(c));
  }

  lemma Flatten(w: string, d: string, m: string, y: string, k: string)
    ensures w + ", " + d + " " + m + " " + y + " " + k + " GMT" == (w + ", " + d + " ") + (m + " " + y + " ") + k + " GMT"
  {
    assert w + ", " + d + " " + m + " " + y + " " == (w + ", " + d + " ") + (m + " " + y + " ");
  }

  /** A well-laid-out http-date reads as its fields; it is accepted when they are valid and the weekday is theirs. */
  lemma LayoutReads(weekday: string, c: Civil, t: string)
    requires CivilOk(c) && 0 <= c.date.year <= 9999 && c.millisecond == 0 && t == HttpDateText(weekday, c)
    requires weekday == WEEKDAYS[Weekday(EpochDays(c.date))]
    ensures ParseHttpDate(t) == Ok(Compose(c))
  {
    NameLengths(Weekday(EpochDays(c.date)), 0);
    Layout(weekday, c, t);
    hide Padded, HttpDateText, Compose, EpochDays;
    FieldReads(t, 5, c.date.day, 2);
    FieldReads(t, 12, c.date.year, 4);
    FieldReads(t, 17, c.hour, 2);
    FieldReads(t, 20, c.minute, 2);
    FieldReads(t, 23, c.second, 2);
    MonthNamed(c.date.month, 12);
    hide DigitsAt, MonthNumber;
    assert c == Civil(Date(c.date.year, c.date.month, c.date.day), c.hour, c.minute, c.second, 0);
  }

  /** The day and the fields of an instant are those of its whole second. */
  lemma WholeSecond(ms: int)
    ensures Decompose(ms / SECOND * SECOND) == Decompose(ms).(millisecond := 0) && ms / SECOND * SECOND / DAY == ms / DAY
    ensures Compose(Decompose(ms).(millisecond := 0)) == ms / SECOND * SECOND
  {
    ComposeDecompose(ms);
    var c := Decompose(ms);
    SecondPart(ms);
    assert Compose(c.(millisecond := 0)) == ms - c.millisecond;
    DecomposeCompose(c.(millisecond := 0));
    hide Compose, Decompose, ValidDate;
  }

  lemma SecondPart(ms: int)
    ensures Decompose(ms).millisecond == ms % SECOND && ms - ms % SECOND == ms / SECOND * SECOND
    ensures ms / SECOND * SECOND / DAY == ms / DAY
  {
    var days, r := ms / DAY, ms % DAY;
    var s, q := r / SECOND, r % SECOND;
    assert ms == SECOND * (86400 * days + s) + q;
    assert ms / SECOND == 86400 * days + s;
    hide DateOf;
  }

  /** Every instant of the years 0000 to 9999, written as an http-date, is read back to its second. */
  lemma {:induction false} HttpDateRoundTrip(ms: int)
    requires MIN_MS <= ms <= MAX_MS
    ensures ParseHttpDate(FormatHttpDate(ms)) == Ok(ms / SECOND * SECOND)
  {
    hide FormatHttpDate, HttpDateText, Decompose, Compose, ParseHttpDate, EpochDays;
    Window(ms);
    ComposeDecompose(ms);
    HttpDateForm(ms);
    WholeSecond(ms);
    var c := Decompose(ms);
    DayOfDate(ms);
    SameText(WEEKDAYS[Weekday(ms / DAY)], c);
    LayoutReads(WEEKDAYS[Weekday(ms / DAY)], c.(millisecond := 0), FormatHttpDate(ms));
  }

  lemma DayOfDate(ms: int)
    ensures EpochDays(Decompose(ms).date) == ms / DAY
  {
    EpochDaysOfDate(ms / DAY);
    hide EpochDays, DateOf;
  }

  lemma SameText(weekday: string, c: Civil)
    requires CivilOk(c) && 0 <= c.date.year <= 9999
    ensures HttpDateText(weekday, c) == HttpDateText(weekday, c.(millisecond := 0))
  {
    hide Day, MonthYear, Padded;
  }

  // ----- only that is read -----

  lemma DigitsWritten(text: string, pos: nat, count: nat)
    requires count > 0 && DigitsAt(text, pos, count).Some?
    ensures text[pos..pos + count] == Padded(DigitsAt(text, pos, count).value, count)
    ensures DigitsAt(text, pos, count).value < Power10(count)
  {
    ReadsPadded(text[pos..pos + count]);
    hide Padded, ReadDigits, Power10;
  }

  /** Five fields cut out of a text, put together again. */
  lemma Reassemble(t: string, y: nat, d: nat, h: nat, mi: nat, s: nat, weekday: string, month: string)
    requires |t| == 29 && t[..3] == weekday && t[3..5] == ", " && t[7] == ' ' && t[8..11] == month && t[11] == ' ' && t[16] == ' ' &&
             t[19] == ':' && t[22] == ':' && t[25..] == " GMT"
    requires t[5..7] == Padded(d, 2) && t[12..16] == Padded(y, 4) && t[17..19] == Padded(h, 2) && t[20..22] == Padded(mi, 2) &&
             t[23..25] == Padded(s, 2)
    ensures t == Day(weekday, d) + MonthYear(month, y) + (Padded(h, 2) + ":" + Padded(mi, 2) + ":" + Padded(s, 2)) + " GMT"
  {
    hide Padded;
    assert t[..8] == Day(weekday, d) by {
      assert t[..8] == t[..3] + t[3..5] + t[5..7] + [t[7]];
    }
    assert t[8..17] == MonthYear(month, y) by {
      assert t[8..17] == t[8..11] + [t[11]] + t[12..16] + [t[16]];
    }
    assert t[17..25] == Padded(h, 2) + ":" + Padded(mi, 2) + ":" + Padded(s, 2) by {
      assert t[17..25] == t[17..19] + [t[19]] + t[20..22] + [t[22]] + t[23..25];
    }
    hide Day, MonthYear;
    assert t == t[..8] + t[8..17] + t[17..25] + t[25..];
  }

  lemma Thousands()
    ensures Power10(4) == 10000 && Power10(2) == 100
  {
    assert Power10(3) == 1000;
  }

  /** Whatever parses is the http-date text of the fields it is composed from. */
  lemma ParsedText(t: string) returns (c: Civil)
    requires ParseHttpDate(t).Ok?
    ensures CivilOk(c) && 0 <= c.date.year <= 9999 && c.millisecond == 0 && ParseHttpDate(t) == Ok(Compose(c))
    ensures t == HttpDateText(WEEKDAYS[Weekday(EpochDays(c.date))], c)
  {
    hide DigitsAt, Padded, Compose, EpochDays, MonthNumber, Power10;
    var d, y := DigitsAt(t, 5, 2).value, DigitsAt(t, 12, 4).value;
    var h, mi, s := DigitsAt(t, 17, 2).value, DigitsAt(t, 20, 2).value, DigitsAt(t, 23, 2).value;
    c := Civil(Date(y, MonthNumber(t[8..11], 12), d), h, mi, s, 0);
    DigitsWritten(t, 5, 2);
    DigitsWritten(t, 12, 4);
    DigitsWritten(t, 17, 2);
    DigitsWritten(t, 20, 2);
    DigitsWritten(t, 23, 2);
    Thousands();
    NumberedMonth(t[8..11], 12);
    hide ParseHttpDate;
    Reassemble(t, y, d, h, mi, s, WEEKDAYS[Weekday(EpochDays(c.date))], MONTHS[c.date.month - 1]);
  }

  lemma HttpDateCanonical(t: string, ms: int)
    requires ParseHttpDate(t) == Ok(ms)
    ensures MIN_MS <= ms <= MAX_MS && ms % SECOND == 0 && t == FormatHttpDate(ms)
  {
    hide ParseHttpDate, HttpDateText, FormatHttpDate, Compose, Decompose, EpochDays, Weekday, CivilOk;
    var c := ParsedText(t);
    DecomposeCompose(c);
    Window(ms);
    SecondOf(ms);
    DayOfDate(ms);
    HttpDateForm(ms);
  }

  /** An http-date is accepted exactly when it is the text of a whole second of the years 0000 to 9999, which it yields. */
  lemma {:induction false} HttpDateAccepts(t: string, ms: int)
    ensures ParseHttpDate(t) == Ok(ms) <==> MIN_MS <= ms <= MAX_MS && ms % SECOND == 0 && t == FormatHttpDate(ms)
  {
    hide ParseHttpDate, FormatHttpDate;
    if ParseHttpDate(t) == Ok(ms) {
      HttpDateCanonical(t, ms);
    }
    if MIN_MS <= ms <= MAX_MS && ms % SECOND == 0 && t == FormatHttpDate(ms) {
      HttpDateRoundTrip(ms);
    }
  }

  lemma SecondOf(ms: int)
    ensures Decompose(ms).millisecond == ms % SECOND
  {
    SecondPart(ms);
  }
}

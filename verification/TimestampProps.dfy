/** Formatting and parsing are inverse, on every instant of the years 0000 to 9999. */
module TimestampProps {
  import opened Common
  import opened Calendar
  import opened TimestampSpec

  // ----- instants and fields -----

  lemma TimeParts(ms: int)
    requires 0 <= ms < DAY
    ensures ms / 3600000 * 3600000 + ms % 3600000 / 60000 * 60000 + ms % 60000 / 1000 * 1000 + ms % 1000 == ms
    ensures 0 <= ms / 3600000 < 24 && 0 <= ms % 3600000 / 60000 < 60 && 0 <= ms % 60000 / 1000 < 60
  {
    var h, r := ms / 3600000, ms % 3600000;
    var m, q := r / 60000, r % 60000;
    assert ms == 3600000 * h + r && r == 60000 * m + q;
    SameRest(h, m, q);
  }

  lemma SameRest(h: int, m: int, q: int)
    requires 0 <= q < 60000
    ensures (3600000 * h + 60000 * m + q) % 60000 == q && (3600000 * h + 60000 * m + q) % 1000 == q % 1000
  {
    assert 3600000 * h + 60000 * m + q == 60000 * (60 * h + m) + q;
    assert 3600000 * h + 60000 * m + q == 1000 * (3600 * h + 60 * m) + q;
  }

  /** Composing the fields of an instant gives it back. */
  lemma {:induction false} ComposeDecompose(ms: int)
    ensures CivilOk(Decompose(ms)) && 0 <= Decompose(ms).millisecond < 1000 && Compose(Decompose(ms)) == ms
  {
    EpochDaysOfDate(ms / DAY);
    TimeParts(ms % DAY);
    hide EpochDays, DateOf;
  }

  function InDay(c: Civil): int {
    (c.hour * 3600 + c.minute * 60 + c.second) * SECOND + c.millisecond
  }

  lemma TimeOfDayOf(c: Civil)
    requires CivilOk(c) && 0 <= c.millisecond < 1000
    ensures 0 <= InDay(c) < DAY && TimeOfDay(c.date, InDay(c)) == c
  {
    hide ValidDate;
    ClockParts(c.hour, c.minute, c.second, c.millisecond);
  }

  /** Decomposing what valid fields compose to gives them back. */
  lemma {:induction false} DecomposeCompose(c: Civil)
    requires CivilOk(c) && 0 <= c.millisecond < 1000
    ensures Decompose(Compose(c)) == c
  {
    assert Compose(c) == EpochDays(c.date) * DAY + InDay(c);
    TimeOfDayOf(c);
    DateOfEpochDays(c.date);
    hide EpochDays, DateOf, ValidDate, InDay, TimeOfDay, Compose;
    DayAndRest(EpochDays(c.date), InDay(c));
  }

  lemma DayAndRest(days: int, inDay: int)
    requires 0 <= inDay < DAY
    ensures (days * DAY + inDay) / DAY == days && (days * DAY + inDay) % DAY == inDay
  {
  }

  lemma ClockParts(h: int, m: int, s: int, ms: int)
    requires 0 <= h < 24 && 0 <= m < 60 && 0 <= s < 60 && 0 <= ms < 1000
    ensures var t := (h * 3600 + m * 60 + s) * SECOND + ms;
            t / 3600000 == h && t % 3600000 / 60000 == m && t % 60000 / 1000 == s && t % 1000 == ms
  {
    var r := m * 60000 + s * 1000 + ms;
    var t := h * 3600000 + r;
    assert t / 3600000 == h && t % 3600000 == r;
    assert r / 60000 == m;
    SameRest(h, m, s * 1000 + ms);
    assert (s * 1000 + ms) / 1000 == s && (s * 1000 + ms) % 1000 == ms;
  }

  lemma Boundaries()
    ensures DaysBeforeYear(0) == 0 && DaysBeforeYear(10000) == 3652425
  {
  }

  lemma YearOfDate(days: int)
    ensures var y := DateOf(days).year; DaysBeforeYear(y) <= days + EPOCH < DaysBeforeYear(y + 1)
  {
    hide DaysBeforeYear, YearOf, MonthOf, DaysBeforeMonth;
  }

  lemma YearBounds(y: int, k: int)
    requires DaysBeforeYear(y) <= k < DaysBeforeYear(y + 1)
    ensures 0 <= y <= 9999 <==> 0 <= k < 3652425
  {
    hide DaysBeforeYear;
    Boundaries();
    if y < 0 {
      YearsGrow(y + 1, 0);
    } else {
      YearsGrow(0, y);
    }
    if y <= 9999 {
      YearsGrow(y + 1, 10000);
    } else {
      YearsGrow(10000, y);
    }
  }

  /** The instants of the years 0000 to 9999. */
  lemma {:induction false} Window(ms: int)
    ensures MIN_MS <= ms <= MAX_MS <==> 0 <= Decompose(ms).date.year <= 9999
  {
    hide DateOf, DaysBeforeYear;
    YearOfDate(ms / DAY);
    YearBounds(DateOf(ms / DAY).year, ms / DAY + EPOCH);
  }

  // ----- digits -----

  lemma TwoDigits(n: nat)
    requires n < 100
    ensures Padded(n, 2) == [Digit(n / 10), Digit(n % 10)]
  {
    assert Padded(n / 10, 1) == [Digit(n / 10)];
  }

  lemma ThreeDigits(n: nat)
    requires n < 1000
    ensures Padded(n, 3) == [Digit(n / 100), Digit(n / 10 % 10), Digit(n % 10)]
  {
    TwoDigits(n / 10);
    assert n / 10 / 10 == n / 100;
  }

  lemma FourDigits(n: nat)
    requires n < 10000
    ensures Padded(n, 4) == [Digit(n / 1000), Digit(n / 100 % 10), Digit(n / 10 % 10), Digit(n % 10)]
  {
    ThreeDigits(n / 10);
    assert n / 10 / 100 == n / 1000 && n / 10 / 10 == n / 100;
  }

  lemma {:induction false} PaddedReads(n: nat, width: nat)
    ensures (forall c | c in Padded(n, width) :: IsDigit(c)) && ReadDigits(Padded(n, width)) == n
    decreases n, width
  {
    var s := Padded(n, width);
    if n < 10 && width <= 1 {
      assert s[..0] == "" && s[0] == Digit(n);
    } else {
      var init := Padded(n / 10, if width == 0 then 0 else width - 1);
      PaddedReads(n / 10, if width == 0 then 0 else width - 1);
      assert s[..|s| - 1] == init;
    }
  }

  /** Digits written into a text are read back where they stand. */
  lemma FieldReads(text: string, pos: nat, n: nat, width: nat)
    requires pos + width <= |text| && text[pos..pos + width] == Padded(n, width)
    ensures DigitsAt(text, pos, width) == Some(n)
  {
    PaddedReads(n, width);
    hide Padded, ReadDigits;
  }

  /** Every digit string of a width is the padded form of its value. */
  lemma {:induction false} ReadsPadded(s: string)
    requires s != "" && forall c | c in s :: IsDigit(c)
    ensures Padded(ReadDigits(s), |s|) == s && ReadDigits(s) < Power10(|s|)
    decreases |s|
  {
    var init, last := s[..|s| - 1], s[|s| - 1];
    assert last in s;
    assert s == init + [last];
    assert Digit(DigitValue(last)) == last;
    if init != "" {
      ReadsPadded(init);
      assert (ReadDigits(init) * 10 + DigitValue(last)) / 10 == ReadDigits(init);
    } else {
      assert ReadDigits(init) == 0;
    }
  }

  function Power10(n: nat): nat {
    if n == 0 then 1 else 10 * Power10(n - 1)
  }

  // ----- the date-time form -----

  /** The letter between date and clock is read in either case. */
  predicate Separator(sep: string) {
    sep == "T" || sep == "t"
  }

  function DateTimeHead(c: Civil, sep: string): string
    requires CivilOk(c) && 0 <= c.date.year <= 9999
  {
    Padded(c.date.year, 4) + "-" + Padded(c.date.month, 2) + "-" + Padded(c.date.day, 2) + sep + Clock(c)
  }

  lemma ClockLayout(c: Civil)
    requires CivilOk(c)
    ensures |Clock(c)| == 8 && Clock(c)[2] == ':' && Clock(c)[5] == ':'
    ensures Clock(c)[0..2] == Padded(c.hour, 2) && Clock(c)[3..5] == Padded(c.minute, 2) && Clock(c)[6..8] == Padded(c.second, 2)
  {
    TwoDigits(c.hour);
    TwoDigits(c.minute);
    TwoDigits(c.second);
    hide Padded;
  }

  lemma DateLayout(c: Civil, sep: string, t: string)
    requires CivilOk(c) && 0 <= c.date.year <= 9999 && Separator(sep)
    requires t == Padded(c.date.year, 4) + "-" + Padded(c.date.month, 2) + "-" + Padded(c.date.day, 2) + sep
    ensures |t| == 11 && t[4] == '-' && t[7] == '-' && [t[10]] == sep
    ensures t[0..4] == Padded(c.date.year, 4) && t[5..7] == Padded(c.date.month, 2) && t[8..10] == Padded(c.date.day, 2)
  {
    FourDigits(c.date.year);
    TwoDigits(c.date.month);
    TwoDigits(c.date.day);
    hide Padded;
  }

  lemma Inside(a: string, b: string, i: nat, j: nat)
    requires i <= j <= |b|
    ensures (a + b)[|a| + i..|a| + j] == b[i..j]
  {
  }

  lemma Before(a: string, b: string, i: nat, j: nat)
    requires i <= j <= |a|
    ensures (a + b)[i..j] == a[i..j]
  {
  }

  /** Where the fields of the fixed part stand. */
  lemma HeadLayout(c: Civil, sep: string, tail: string, t: string)
    requires CivilOk(c) && 0 <= c.date.year <= 9999 && Separator(sep) && t == DateTimeHead(c, sep) + tail
    ensures |DateTimeHead(c, sep)| == 19 && t[4] == '-' && t[7] == '-' && [t[10]] == sep && t[13] == ':' && t[16] == ':'
    ensures t[0..4] == Padded(c.date.year, 4) && t[5..7] == Padded(c.date.month, 2) && t[8..10] == Padded(c.date.day, 2)
    ensures t[11..13] == Padded(c.hour, 2) && t[14..16] == Padded(c.minute, 2) && t[17..19] == Padded(c.second, 2)
  {
    var date := Padded(c.date.year, 4) + "-" + Padded(c.date.month, 2) + "-" + Padded(c.date.day, 2) + sep;
    var clock := Clock(c);
    DateLayout(c, sep, date);
    ClockLayout(c);
    hide Padded, Clock, ValidDate;
    var head := date + clock;
    assert DateTimeHead(c, sep) == head;
    hide DateTimeHead;
    Before(date, clock, 0, 4);
    Before(date, clock, 5, 7);
    Before(date, clock, 8, 10);
    Inside(date, clock, 0, 2);
    Inside(date, clock, 3, 5);
    Inside(date, clock, 6, 8);
    Before(head, tail, 0, 4);
    Before(head, tail, 5, 7);
    Before(head, tail, 8, 10);
    Before(head, tail, 11, 13);
    Before(head, tail, 14, 16);
    Before(head, tail, 17, 19);
  }

  /** The fixed part of a date-time is read back field by field. */
  lemma HeadReads(c: Civil, sep: string, tail: string)
    requires CivilOk(c) && 0 <= c.date.year <= 9999 && Separator(sep) && tail != ""
    ensures |DateTimeHead(c, sep)| == 19 && DateTimeFields(DateTimeHead(c, sep) + tail) == Some(c.(millisecond := 0))
  {
    hide Padded, DateTimeHead, DigitsAt;
    var t := DateTimeHead(c, sep) + tail;
    HeadLayout(c, sep, tail, t);
    FieldReads(t, 0, c.date.year, 4);
    FieldReads(t, 5, c.date.month, 2);
    FieldReads(t, 8, c.date.day, 2);
    FieldReads(t, 11, c.hour, 2);
    FieldReads(t, 14, c.minute, 2);
    FieldReads(t, 17, c.second, 2);
  }

  lemma FractionForm(ms: nat)
    requires 0 < ms < 1000
    ensures var a, b, c := Digit(ms / 100), Digit(ms / 10 % 10), Digit(ms % 10);
            Fraction(ms) == if ms % 10 != 0 then ['.', a, b, c] else if ms / 10 % 10 != 0 then ['.', a, b] else ['.', a]
  {
    ThreeDigits(ms);
    Hundreds(ms);
    TrimThree(ms / 100, ms / 10 % 10, ms % 10);
    assert "." + Padded(ms, 3) == ['.', Digit(ms / 100), Digit(ms / 10 % 10), Digit(ms % 10)];
    hide TrimZeros, Padded, Digit;
  }

  lemma FractionDigits(a: nat, b: nat, c: nat, f: string, head: string, tail: string)
    requires a < 10 && b < 10 && c < 10 && tail != "" && !IsDigit(tail[0])
    requires f == if c != 0 then ['.', Digit(a), Digit(b), Digit(c)] else if b != 0 then ['.', Digit(a), Digit(b)] else ['.', Digit(a)]
    ensures FractionAt(head + f + tail, |head|) == Some((a * 100 + b * 10 + c, |head| + |f|))
  {
    var text := head + f + tail;
    forall i | 0 <= i < |f|
      ensures text[|head| + i] == f[i]
    {
    }
    assert text[|head| + |f|] == tail[0];
    EndOfDigits(text, |head| + 1, |head| + |f|);
    hide DigitsEnd;
  }

  /** The trimmed fraction is a dot and one to three digits that read as the milliseconds. */
  lemma FractionReads(ms: nat, head: string, tail: string)
    requires ms < 1000 && tail != "" && !IsDigit(tail[0]) && tail[0] != '.'
    ensures FractionAt(head + Fraction(ms) + tail, |head|) == Some((ms, |head| + |Fraction(ms)|))
  {
    if ms == 0 {
      assert (head + "" + tail)[|head|] == tail[0];
    } else {
      FractionForm(ms);
      Hundreds(ms);
      FractionDigits(ms / 100, ms / 10 % 10, ms % 10, Fraction(ms), head, tail);
      hide Fraction, FractionAt, Digit;
    }
  }

  lemma Hundreds(ms: nat)
    requires ms < 1000
    ensures ms / 100 * 100 + ms / 10 % 10 * 10 + ms % 10 == ms
  {
    assert ms / 10 / 10 == ms / 100;
  }

  lemma TrimThree(a: nat, b: nat, c: nat)
    requires a < 10 && b < 10 && c < 10 && (a > 0 || b > 0 || c > 0)
    ensures TrimZeros(['.', Digit(a), Digit(b), Digit(c)]) ==
            if c != 0 then ['.', Digit(a), Digit(b), Digit(c)] else if b != 0 then ['.', Digit(a), Digit(b)] else ['.', Digit(a)]
  {
    TrimOne(['.', Digit(a), Digit(b)], c);
    TrimOne(['.', Digit(a)], b);
    TrimOne(['.'], a);
    assert ['.', Digit(a), Digit(b), Digit(c)] == ['.', Digit(a), Digit(b)] + [Digit(c)];
    assert ['.', Digit(a), Digit(b)] == ['.', Digit(a)] + [Digit(b)];
    assert ['.', Digit(a)] == ['.'] + [Digit(a)];
    hide TrimZeros, Digit;
  }

  lemma TrimOne(s: string, d: nat)
    requires d < 10
    ensures TrimZeros(s + [Digit(d)]) == if d == 0 then TrimZeros(s) else s + [Digit(d)]
  {
    assert (s + [Digit(d)])[..|s|] == s;
  }

  lemma {:induction false} EndOfDigits(text: string, pos: nat, end: nat)
    requires pos <= end < |text| && !IsDigit(text[end]) && forall i | pos <= i < end :: IsDigit(text[i])
    ensures DigitsEnd(text, pos) == end
    decreases end - pos
  {
    if pos < end {
      EndOfDigits(text, pos + 1, end);
    }
  }

  /** A date-time is parsed from what its parts parse to. */
  lemma DateTimeParts(text: string, c: Civil, ms: nat, pos: nat, offset: int, end: nat)
    requires DateTimeFields(text) == Some(c) && FractionAt(text, 19) == Some((ms, pos)) && OffsetAt(text, pos) == Some((offset, end))
    requires |text| >= 19 && CivilOk(c) && end == |text|
    ensures ParseDateTime(text) == Ok(Compose(c.(millisecond := ms)) - offset)
  {
    hide DateTimeFields, FractionAt, OffsetAt, Compose, CivilOk;
  }

  /** Every instant of the years 0000 to 9999, written as a date-time, is read back exactly. */
  lemma {:induction false} DateTimeRoundTrip(ms: int)
    requires MIN_MS <= ms <= MAX_MS
    ensures ParseDateTime(FormatDateTime(ms)) == Ok(ms)
  {
    hide FormatDateTime, DateTimeHead, Fraction, DateTimeFields, FractionAt, DigitsAt, ValidDate, Decompose, Compose, ParseDateTime;
    var c := Decompose(ms);
    Window(ms);
    ComposeDecompose(ms);
    var f := Fraction(c.millisecond);
    var head := DateTimeHead(c, "T");
    DateTimeText(ms);
    HeadReads(c, "T", f + "Z");
    FractionReads(c.millisecond, head, "Z");
    var text := head + f + "Z";
    assert text == head + (f + "Z");
    assert OffsetAt(text, |head| + |f|) == Some((0, |text|));
    DateTimeParts(text, c.(millisecond := 0), c.millisecond, |head| + |f|, 0, |text|);
    assert c.(millisecond := 0).(millisecond := c.millisecond) == c;
  }

  lemma DateTimeText(ms: int)
    requires 0 <= Decompose(ms).date.year <= 9999 && CivilOk(Decompose(ms)) && 0 <= Decompose(ms).millisecond < 1000
    ensures var c := Decompose(ms); FormatDateTime(ms) == DateTimeHead(c, "T") + (Fraction(c.millisecond) + "Z")
  {
    hide Decompose, Clock, Padded, Fraction;
  }

  /** An offset can carry a date-time out of the window: InWindowUnlessOffset says exactly when. */
  lemma {:induction false} OffsetLeavesWindow()
    ensures ParseDateTime("0000-01-01T00:00:00+00:01") == Ok(MIN_MS - 60000)
  {
    hide FractionAt, OffsetAt, DateTimeFields, DigitsAt, EpochDays, ParseDateTime, Clock, Padded;
    var c := Civil(Date(0, 1, 1), 0, 0, 0, 0);
    YearZeroHead(c);
    YearZeroDay();
    HeadReads(c, "T", "+00:01");
    YearZeroOffset(DateTimeHead(c, "T") + "+00:01");
    DateTimeParts(DateTimeHead(c, "T") + "+00:01", c, 0, 19, 60000, 25);
  }

  lemma YearZeroDay()
    ensures EpochDays(Date(0, 1, 1)) == -EPOCH
  {
    Boundaries();
    hide DaysBeforeYear;
  }

  lemma YearZeroHead(c: Civil)
    requires c == Civil(Date(0, 1, 1), 0, 0, 0, 0)
    ensures DateTimeHead(c, "T") + "+00:01" == "0000-01-01T00:00:00+00:01"
  {
    FourDigits(0);
    TwoDigits(0);
    TwoDigits(1);
    hide Padded;
  }

  lemma YearZeroOffset(text: string)
    requires text == "0000-01-01T00:00:00+00:01"
    ensures FractionAt(text, 19) == Some((0, 19)) && OffsetAt(text, 19) == Some((60000, 25))
  {
    TwoDigits(0);
    TwoDigits(1);
    assert text[20..22] == "00" && text[23..25] == "01";
    FieldReads(text, 20, 0, 2);
    FieldReads(text, 23, 1, 2);
    hide DigitsAt, Padded;
  }

  lemma FourDigitYear(text: string)
    requires DateTimeFields(text).Some?
    ensures 0 <= DateTimeFields(text).value.date.year <= 9999 && DateTimeFields(text).value.millisecond == 0
  {
    var digits := text[0..4];
    ReadsPadded(digits);
    assert Power10(4) == 10000 by {
      assert Power10(3) == 1000;
    }
    hide ReadDigits, Padded;
  }

  lemma MillisBelow(text: string, pos: nat)
    requires pos <= |text| && FractionAt(text, pos).Some?
    ensures FractionAt(text, pos).value.0 < 1000
  {
    hide DigitsEnd;
  }

  lemma OffsetBelow(text: string, pos: nat)
    requires OffsetAt(text, pos).Some?
    ensures -86340000 <= OffsetAt(text, pos).value.0 <= 86340000
    ensures OffsetAt(text, pos).value.1 == |text| && text[|text| - 1] in "Zz" ==> OffsetAt(text, pos).value.0 == 0
  {
    if DigitsAt(text, pos + 4, 2).Some? {
      OffsetLast(text, pos);
    }
    hide DigitsAt;
  }

  lemma OffsetLast(text: string, pos: nat)
    requires DigitsAt(text, pos + 4, 2).Some?
    ensures pos + 6 <= |text| && IsDigit(text[pos + 5])
  {
    assert text[pos + 5] in text[pos + 4..pos + 6];
  }

  /** The fields of a date-time with its fraction, and its offset, when it parses. */
  function LocalTime(text: string): (c: Civil)
    requires ParseDateTime(text).Ok?
  {
    DateTimeFields(text).value.(millisecond := FractionAt(text, 19).value.0)
  }

  function LocalOffset(text: string): int
    requires ParseDateTime(text).Ok?
  {
    OffsetAt(text, FractionAt(text, 19).value.1).value.0
  }

  lemma LocalParts(text: string)
    requires ParseDateTime(text).Ok?
    ensures var c := LocalTime(text);
            CivilOk(c) && 0 <= c.date.year <= 9999 && 0 <= c.millisecond < 1000 && -DAY < LocalOffset(text) < DAY &&
            ParseDateTime(text) == Ok(Compose(c) - LocalOffset(text))
    ensures text != "" && (text[|text| - 1] in "Zz" ==> LocalOffset(text) == 0)
  {
    hide DateTimeFields, FractionAt, OffsetAt, Compose, ValidDate;
    FourDigitYear(text);
    MillisBelow(text, 19);
    OffsetBelow(text, FractionAt(text, 19).value.1);
  }

  /** The first and the last day of the window, by number and by date. */
  lemma EdgeDays(c: Date)
    requires ValidDate(c) && 0 <= c.year <= 9999
    ensures 0 <= EpochDays(c) + EPOCH < 3652425
    ensures EpochDays(c) + EPOCH == 0 <==> c == Date(0, 1, 1)
    ensures EpochDays(c) + EPOCH == 3652424 <==> c == Date(9999, 12, 31)
  {
    hide EpochDays, DateOf, DaysBeforeYear;
    InYear(c);
    Boundaries();
    YearsGrow(0, c.year);
    YearsGrow(c.year + 1, 10000);
    var first, last := Date(0, 1, 1), Date(9999, 12, 31);
    FirstDay(first);
    LastDay(last);
    DateOfEpochDays(c);
    DateOfEpochDays(first);
    DateOfEpochDays(last);
  }

  lemma FirstDay(c: Date)
    requires c == Date(0, 1, 1)
    ensures ValidDate(c) && EpochDays(c) == -EPOCH
  {
    hide DaysBeforeYear, DaysBeforeMonth, EpochDays;
    Boundaries();
    MonthTable(c.year);
    DayNumber(c, 0);
  }

  lemma LastDay(c: Date)
    requires c == Date(9999, 12, 31)
    ensures ValidDate(c) && EpochDays(c) == 3652424 - EPOCH
  {
    hide DaysBeforeYear, DaysBeforeMonth, EpochDays;
    Boundaries();
    YearLength(c.year);
    MonthTable(c.year);
    DayNumber(c, 334);
  }

  lemma DayNumber(c: Date, before: int)
    requires ValidDate(c) && DaysBeforeMonth(c.year, c.month) == before
    ensures EpochDays(c) == DaysBeforeYear(c.year) + before + c.day - 1 - EPOCH
  {
    hide DaysBeforeYear, DaysBeforeMonth;
  }

  lemma DayCarry(days: int, inDay: int, offset: int)
    requires 0 <= inDay < DAY && -DAY < offset < DAY && 0 <= days + EPOCH < 3652425
    ensures MIN_MS <= days * DAY + inDay - offset <= MAX_MS <==>
            !(days + EPOCH == 0 && inDay < offset) && !(days + EPOCH == 3652424 && inDay - offset >= DAY)
  {
  }

  /**
   * An accepted date-time yields an instant of the years 0000 to 9999 exactly unless its offset carries it back past
   * the first midnight or on past the last: a fact of the date, the clock and the offset in the text.
   */
  lemma {:induction false} InWindowUnlessOffset(text: string, ms: int)
    requires ParseDateTime(text) == Ok(ms)
    ensures var c, offset := LocalTime(text), LocalOffset(text);
            MIN_MS <= ms <= MAX_MS <==>
            !(c.date == Date(0, 1, 1) && InDay(c) < offset) && !(c.date == Date(9999, 12, 31) && InDay(c) - offset >= DAY)
  {
    hide ParseDateTime, LocalTime, LocalOffset, EpochDays, ValidDate, TimeOfDay;
    LocalParts(text);
    var c, offset := LocalTime(text), LocalOffset(text);
    EdgeDays(c.date);
    TimeOfDayOf(c);
    hide InDay;
    ComposeInDay(c);
    DayCarry(EpochDays(c.date), InDay(c), offset);
  }

  lemma ComposeInDay(c: Civil)
    requires ValidDate(c.date)
    ensures Compose(c) == EpochDays(c.date) * DAY + InDay(c)
  {
  }

  /** Without an offset a date-time stays in the window; with one it leaves it by less than a day. */
  lemma {:induction false} ParsedNearWindow(text: string, ms: int)
    requires ParseDateTime(text) == Ok(ms)
    ensures MIN_MS - DAY < ms < MAX_MS + DAY
    ensures text[|text| - 1] in "Zz" ==> MIN_MS <= ms <= MAX_MS
  {
    hide ParseDateTime, LocalTime, LocalOffset, EpochDays, ValidDate, TimeOfDay;
    LocalParts(text);
    InWindowUnlessOffset(text, ms);
    var c := LocalTime(text);
    EdgeDays(c.date);
    TimeOfDayOf(c);
    hide InDay;
    ComposeInDay(c);
  }

  // ----- the epoch-seconds form -----

  /** The milliseconds a decimal numeral stands for exactly: sign, whole seconds, at most three fraction digits. */
  function ExactMillis(sign: string, whole: string, fraction: string): int
    requires (forall c | c in whole :: IsDigit(c)) && (forall c | c in fraction :: IsDigit(c)) && |fraction| <= 3
  {
    var magnitude := ReadDigits(whole) * SECOND + ReadDigits(fraction) * (if |fraction| == 1 then 100 else if |fraction| == 2 then 10 else 1);
    if sign == "-" then -magnitude else magnitude
  }

  /** The epoch-seconds text of any instant is a decimal numeral of exactly that instant, before the epoch as after it. */
  lemma {:induction false} EpochSecondsExact(ms: int) returns (sign: string, whole: string, fraction: string)
    ensures (forall c | c in whole :: IsDigit(c)) && (forall c | c in fraction :: IsDigit(c)) && |fraction| <= 3 && whole != ""
    ensures FormatEpochSeconds(ms) == sign + whole + (if fraction == "" then "" else "." + fraction)
    ensures ExactMillis(sign, whole, fraction) == ms && (sign == "-" <==> ms < 0) && (sign == "" <==> ms >= 0)
  {
    var magnitude := if ms < 0 then -ms else ms;
    sign := if ms < 0 then "-" else "";
    whole := Padded(magnitude / SECOND, 1);
    PaddedReads(magnitude / SECOND, 1);
    var r := magnitude % SECOND;
    if r == 0 {
      fraction := "";
    } else {
      FractionForm(r);
      fraction := Fraction(r)[1..];
      FractionValue(r, fraction);
      assert Fraction(r) == "." + fraction;
    }
    assert magnitude == magnitude / SECOND * SECOND + r;
    hide Padded, Fraction, ReadDigits;
  }

  lemma FractionValue(r: nat, fraction: string)
    requires 0 < r < 1000
    requires var a, b, c := Digit(r / 100), Digit(r / 10 % 10), Digit(r % 10);
             fraction == if r % 10 != 0 then [a, b, c] else if r / 10 % 10 != 0 then [a, b] else [a]
    ensures forall c | c in fraction :: IsDigit(c)
    ensures ReadDigits(fraction) * (if |fraction| == 1 then 100 else if |fraction| == 2 then 10 else 1) == r
  {
    Hundreds(r);
    var a, b, c := Digit(r / 100), Digit(r / 10 % 10), Digit(r % 10);
    assert [a, b, c][..2] == [a, b] && [a, b][..1] == [a] && [a][..0] == [];
    assert ReadDigits([a]) == r / 100;
    assert ReadDigits([a, b]) == r / 100 * 10 + r / 10 % 10;
  }
}

/** The timestamp code: taking instants apart, and the loops that write and read their text. */
module Timestamp {
  import opened Common
  import opened Calendar
  import opened TimestampSpec
  import opened TimestampProps

  /** `FloorDiv`, on top of a division toward zero. */
  function FloorDiv(a: int, b: int): int
    requires b > 0
  {
    TruncDiv(a, b) - if TruncMod(a, b) != 0 && a < 0 then 1 else 0
  }

  /** It rounds down, for instants before the epoch too. */
  lemma FloorDivRoundsDown(a: int, b: int)
    requires b > 0
    ensures FloorDiv(a, b) * b <= a < (FloorDiv(a, b) + 1) * b && FloorDiv(a, b) == a / b
  {
    if a < 0 {
      var n := -a;
      assert n == n / b * b + n % b;
      if n % b == 0 {
        ExactQuotient(a, b, -(n / b), 0);
      } else {
        ExactQuotient(a, b, -(n / b) - 1, b - n % b);
      }
    } else {
      assert a == a / b * b + a % b;
    }
  }

  lemma ExactQuotient(a: int, b: int, q: int, r: int)
    requires b > 0 && a == q * b + r && 0 <= r < b
    ensures a / b == q && q * b <= a < (q + 1) * b
  {
    assert a == a / b * b + a % b;
    if a / b < q {
      AtLeast(q - a / b, b);
    }
    if a / b > q {
      AtLeast(a / b - q, b);
    }
  }

  lemma AtLeast(k: int, b: int)
    requires k >= 1 && b > 0
    ensures k * b >= b
  {
  }

  method TakeApart(ms: int) returns (c: Civil)
    ensures c == Decompose(ms)
  {
    hide DateOf;
    FloorDivRoundsDown(ms, DAY);
    var days := FloorDiv(ms, DAY);
    var msOfDay := ms - days * DAY;
    assert msOfDay == ms % DAY;
    hide FloorDiv;
    c := Civil(DateOf(days), 0, 0, 0, 0);
    c := c.(hour := msOfDay / (3600 * SECOND));
    msOfDay := msOfDay % (3600 * SECOND);
    c := c.(minute := msOfDay / (60 * SECOND));
    msOfDay := msOfDay % (60 * SECOND);
    Nested(ms % DAY);
    c := c.(second := msOfDay / SECOND, millisecond := msOfDay % SECOND);
  }

  lemma Nested(r: int)
    requires r >= 0
    ensures r % 3600000 % 60000 == r % 60000 && r % 60000 % 1000 == r % 1000
  {
    MinuteRest(r / 3600000, r % 3600000);
    SecondRest(r / 60000, r % 60000);
  }

  lemma MinuteRest(hours: nat, rest: nat)
    ensures (3600000 * hours + rest) % 60000 == rest % 60000
  {
    assert 3600000 * hours + rest == 60000 * (60 * hours + rest / 60000) + rest % 60000;
  }

  lemma SecondRest(minutes: nat, rest: nat)
    ensures (60000 * minutes + rest) % 1000 == rest % 1000
  {
    assert 60000 * minutes + rest == 1000 * (60 * minutes + rest / 1000) + rest % 1000;
  }

  /** Appends the fraction with its trailing zeros taken off one by one. */
  method AppendFraction(out: string, ms: nat) returns (out': string)
    requires ms < 1000
    ensures out' == out + Fraction(ms)
  {
    hide Padded;
    if ms == 0 {
      return out;
    }
    var fraction := "." + Padded(ms, 3);
    while fraction != "" && fraction[|fraction| - 1] == '0'
      invariant TrimZeros(fraction) == Fraction(ms)
      decreases |fraction|
    {
      fraction := fraction[..|fraction| - 1];
    }
    return out + fraction;
  }

  /** Exactly count digits at pos. */
  method ParseDigits(text: string, pos: nat, count: nat) returns (r: Option<nat>)
    ensures r == DigitsAt(text, pos, count)
  {
    if pos + count > |text| {
      return None;
    }
    ghost var field := text[pos..pos + count];
    var value := 0;
    for i := 0 to count
      invariant forall c | c in field[..i] :: IsDigit(c)
      invariant value == ReadDigits(field[..i])
    {
      var c := text[pos + i];
      assert field[i] == c && c in field;
      if !IsDigit(c) {
        return None;
      }
      assert field[..i + 1][..i] == field[..i];
      value := value * 10 + DigitValue(c);
    }
    assert field[..count] == field;
    return Some(value);
  }

  /** The fraction's digits: the first three make the milliseconds, the rest are passed over. */
  method ParseFraction(text: string, start: nat) returns (ms: nat, end: nat)
    requires start <= |text|
    ensures end == DigitsEnd(text, start) && ms == FractionMillis(text, start, end)
  {
    end, ms := start, 0;
    var scale := 100;
    while end < |text| && IsDigit(text[end])
      invariant start <= end <= |text| && forall i | start <= i < end :: IsDigit(text[i])
      invariant DigitsEnd(text, start) == DigitsEnd(text, end)
      invariant ms == FractionMillis(text, start, end)
      invariant scale == if end == start then 100 else if end == start + 1 then 10 else if end == start + 2 then 1 else 0
    {
      if end - start < 3 {
        ms := ms + DigitValue(text[end]) * scale;
        scale := scale / 10;
      }
      end := end + 1;
    }
  }

  method ParseOffset(text: string, pos: nat) returns (r: Option<(int, nat)>)
    ensures r == OffsetAt(text, pos)
  {
    hide DigitsAt;
    if pos < |text| && (text[pos] == 'Z' || text[pos] == 'z') {
      return Some((0, pos + 1));
    }
    if pos < |text| && (text[pos] == '+' || text[pos] == '-') {
      var negative := text[pos] == '-';
      var oh := ParseDigits(text, pos + 1, 2);
      var om := ParseDigits(text, pos + 4, 2);
      if oh.None? || pos + 3 >= |text| || text[pos + 3] != ':' || om.None? || oh.value > 23 || om.value > 59 {
        return None;
      }
      var offset := (oh.value * 3600 + om.value * 60) * SECOND;
      if negative {
        offset := -offset;
      }
      return Some((offset, pos + 6));
    }
    return None;
  }

  method ReadDateTime(text: string) returns (r: Outcome<int>)
    ensures r == ParseDateTime(text)
  {
    hide DigitsAt, DigitsEnd, FractionMillis, OffsetAt, Compose, ValidDate;
    var year := ParseDigits(text, 0, 4);
    if year.None? || |text| < 20 || text[4] != '-' || text[7] != '-' || (text[10] != 'T' && text[10] != 't') || text[13] != ':' ||
       text[16] != ':' {
      return InvalidDateTime(text);
    }
    var month := ParseDigits(text, 5, 2);
    var day := ParseDigits(text, 8, 2);
    var hour := ParseDigits(text, 11, 2);
    var minute := ParseDigits(text, 14, 2);
    var second := ParseDigits(text, 17, 2);
    if month.None? || day.None? || hour.None? || minute.None? || second.None? {
      return InvalidDateTime(text);
    }
    var c := Civil(Date(year.value, month.value, day.value), hour.value, minute.value, second.value, 0);
    assert DateTimeFields(text) == Some(c);
    hide DateTimeFields;
    var pos := 19;
    if text[pos] == '.' {
      var ms, end := ParseFraction(text, pos + 1);
      if end == pos + 1 {
        return InvalidDateTime(text);
      }
      c := c.(millisecond := ms);
      pos := end;
    }
    assert FractionAt(text, 19) == Some((c.millisecond, pos));
    hide FractionAt;
    var offset := ParseOffset(text, pos);
    if offset.None? || offset.value.1 != |text| || !CivilOk(c) {
      return InvalidDateTime(text);
    }
    return Ok(Compose(c) - offset.value.0);
  }

  /** The number of a month name; the last of equal names would win. */
  method FindMonth(name: string) returns (month: nat)
    ensures month == MonthNumber(name, 12)
  {
    month := 0;
    for i := 0 to 12
      invariant month == MonthNumber(name, i)
    {
      if MONTHS[i] == name {
        month := i + 1;
      }
    }
  }

  method ReadHttpDate(text: string) returns (r: Outcome<int>)
    ensures r == ParseHttpDate(text)
  {
    hide DigitsAt, MonthNumber, Compose, ValidDate, EpochDays, Weekday;
    if |text| != 29 || text[3..5] != ", " || text[7] != ' ' || text[11] != ' ' || text[16] != ' ' || text[19] != ':' ||
       text[22] != ':' || text[25..] != " GMT" {
      return InvalidHttpDate(text);
    }
    var day := ParseDigits(text, 5, 2);
    var year := ParseDigits(text, 12, 4);
    var hour := ParseDigits(text, 17, 2);
    var minute := ParseDigits(text, 20, 2);
    var second := ParseDigits(text, 23, 2);
    if day.None? || year.None? || hour.None? || minute.None? || second.None? {
      return InvalidHttpDate(text);
    }
    var month := FindMonth(text[8..11]);
    var c := Civil(Date(year.value, month, day.value), hour.value, minute.value, second.value, 0);
    if month == 0 || !CivilOk(c) {
      MonthZero(c);
      return InvalidHttpDate(text);
    }
    if WEEKDAYS[Weekday(EpochDays(c.date))] != text[..3] {
      return InvalidHttpDate(text);
    }
    return Ok(Compose(c));
  }

  lemma MonthZero(c: Civil)
    ensures c.date.month == 0 ==> !CivilOk(c)
  {
  }

  method FormatInstant(ms: int, format: TimestampFormat) returns (out: string)
    ensures out == match format
                   case EpochSeconds => FormatEpochSeconds(ms)
                   case DateTime => FormatDateTime(ms)
                   case HttpDate => FormatHttpDate(ms)
  {
    hide Padded, Fraction, Decompose, Weekday, Clock;
    ComposeDecompose(ms);
    match format
    case EpochSeconds =>
      var magnitude := if ms < 0 then -ms else ms;
      out := if ms < 0 then "-" else "";
      out := out + Padded(magnitude / SECOND, 1);
      out := AppendFraction(out, magnitude % SECOND);
    case DateTime =>
      var c := TakeApart(ms);
      out := PaddedYear(c.date.year) + "-" + Padded(c.date.month, 2) + "-" + Padded(c.date.day, 2) + "T" + Clock(c);
      out := AppendFraction(out, c.millisecond);
      out := out + "Z";
    case HttpDate =>
      var c := TakeApart(ms);
      FloorDivRoundsDown(ms, DAY);
      var weekday := Weekday(FloorDiv(ms, DAY));
      out := WEEKDAYS[weekday] + ", " + Padded(c.date.day, 2) + " " + MONTHS[c.date.month - 1] + " " + PaddedYear(c.date.year) +
             " " + Clock(c) + " GMT";
  }
}

/** Timestamps: instants taken apart into calendar fields, and their text forms in both directions. */
module TimestampSpec {
  import opened Common
  import opened Calendar

  datatype TimestampFormat = EpochSeconds | DateTime | HttpDate

  const SECOND: int := 1000
  const DAY: int := 86400000

  const MIN_MS: int := -62167219200000
  const MAX_MS: int := 253402300799999

  /** Division as C++ does it, toward zero. */
  function TruncDiv(a: int, b: int): int
    requires b > 0
  {
    if a >= 0 then a / b else -(-a / b)
  }

  function TruncMod(a: int, b: int): int
    requires b > 0
  {
    a - b * TruncDiv(a, b)
  }

  datatype Civil = Civil(date: Date, hour: int, minute: int, second: int, millisecond: int)

  /** `CivilTime::ok`; the milliseconds are not checked. */
  predicate CivilOk(c: Civil) {
    ValidDate(c.date) && 0 <= c.hour < 24 && 0 <= c.minute < 60 && 0 <= c.second < 60
  }

  function Compose(c: Civil): int
    requires ValidDate(c.date)
  {
    EpochDays(c.date) * DAY + (c.hour * 3600 + c.minute * 60 + c.second) * SECOND + c.millisecond
  }

  /** The fields of a millisecond of the day. */
  function TimeOfDay(date: Date, ms: int): Civil {
    Civil(date, ms / 3600000, ms % 3600000 / 60000, ms % 60000 / 1000, ms % 1000)
  }

  /** The calendar fields of an instant; negative instants round down to their day. */
  function Decompose(ms: int): (c: Civil)
    ensures ValidDate(c.date)
  {
    TimeOfDay(DateOf(ms / DAY), ms % DAY)
  }

  // ----- writing -----

  function Digit(d: int): (c: char)
    requires 0 <= d < 10
    ensures '0' <= c <= '9'
  {
    (48 + d) as char
  }

  /** At least width digits, as `%0<width>d` prints them. */
  function Padded(n: nat, width: nat): string
    decreases n, width
  {
    if n < 10 && width <= 1 then [Digit(n)]
    else Padded(n / 10, if width == 0 then 0 else width - 1) + [Digit(n % 10)]
  }

  function PaddedYear(year: int): string {
    if year < 0 then "-" + Padded(-year, 3) else Padded(year, 4)
  }

  predicate IsDigit(c: char) {
    '0' <= c <= '9'
  }

  function DigitValue(c: char): (d: int)
    requires IsDigit(c)
    ensures 0 <= d < 10
  {
    c as int - 48
  }

  function TrimZeros(s: string): string {
    if s != "" && s[|s| - 1] == '0' then TrimZeros(s[..|s| - 1]) else s
  }

  /** `AppendFraction`. */
  function Fraction(ms: nat): string {
    if ms == 0 then "" else TrimZeros("." + Padded(ms, 3))
  }

  /** hh:mm:ss */
  function Clock(c: Civil): string
    requires 0 <= c.hour && 0 <= c.minute && 0 <= c.second
  {
    Padded(c.hour, 2) + ":" + Padded(c.minute, 2) + ":" + Padded(c.second, 2)
  }

  function FormatDateTime(ms: int): string {
    var c := Decompose(ms);
    PaddedYear(c.date.year) + "-" + Padded(c.date.month, 2) + "-" + Padded(c.date.day, 2) + "T" + Clock(c) +
    Fraction(c.millisecond) + "Z"
  }

  const WEEKDAYS: seq<string> := ["Sun", "Mon", "Tue", "Wed", "Thu", "Fri", "Sat"]

  const MONTHS: seq<string> := ["Jan", "Feb", "Mar", "Apr", "May", "Jun", "Jul", "Aug", "Sep", "Oct", "Nov", "Dec"]

  function FormatHttpDate(ms: int): string {
    var c := Decompose(ms);
    WEEKDAYS[Weekday(ms / DAY)] + ", " + Padded(c.date.day, 2) + " " + MONTHS[c.date.month - 1] + " " +
    PaddedYear(c.date.year) + " " + Clock(c) + " GMT"
  }

  /** The epoch-seconds form: the sign, whole seconds of the magnitude, and its fraction. */
  function FormatEpochSeconds(ms: int): string {
    var magnitude := if ms < 0 then -ms else ms;
    (if ms < 0 then "-" else "") + Padded(magnitude / SECOND, 1) + Fraction(magnitude % SECOND)
  }

  // ----- reading -----

  function ReadDigits(s: string): (n: nat)
    requires forall c | c in s :: IsDigit(c)
  {
    if s == "" then 0 else assert s[|s| - 1] in s; ReadDigits(s[..|s| - 1]) * 10 + DigitValue(s[|s| - 1])
  }

  /** `ParseDigits`: exactly count digits at pos. */
  function DigitsAt(text: string, pos: nat, count: nat): Option<nat> {
    if pos + count <= |text| && forall c | c in text[pos..pos + count] :: IsDigit(c) then
      Some(ReadDigits(text[pos..pos + count]))
    else None
  }

  /** The fields of the fixed part of a date-time, its punctuation in place. */
  function DateTimeFields(text: string): Option<Civil> {
    if |text| < 20 || text[4] != '-' || text[7] != '-' || (text[10] != 'T' && text[10] != 't') || text[13] != ':' || text[16] != ':' then None
    else
      match (DigitsAt(text, 0, 4), DigitsAt(text, 5, 2), DigitsAt(text, 8, 2), DigitsAt(text, 11, 2), DigitsAt(text, 14, 2),
             DigitsAt(text, 17, 2))
      case (Some(y), Some(mo), Some(d), Some(h), Some(mi), Some(s)) => Some(Civil(Date(y, mo, d), h, mi, s, 0))
      case _ => None
  }

  /** Where the digits from pos on end. */
  function DigitsEnd(text: string, pos: nat): (e: nat)
    requires pos <= |text|
    ensures pos <= e <= |text| && forall i | pos <= i < e :: IsDigit(text[i])
    ensures e < |text| ==> !IsDigit(text[e])
    decreases |text| - pos
  {
    if pos < |text| && IsDigit(text[pos]) then DigitsEnd(text, pos + 1) else pos
  }

  /** The milliseconds of a fraction: its first three digits, missing ones counting as zeros. */
  function FractionMillis(text: string, pos: nat, end: nat): nat
    requires pos <= end <= |text| && forall i | pos <= i < end :: IsDigit(text[i])
  {
    (if pos < end then DigitValue(text[pos]) * 100 else 0) + (if pos + 1 < end then DigitValue(text[pos + 1]) * 10 else 0) +
    if pos + 2 < end then DigitValue(text[pos + 2]) else 0
  }

  /** The fraction, if there is one, and where it ends. */
  function FractionAt(text: string, pos: nat): (r: Option<(nat, nat)>)
    requires pos <= |text|
    ensures r.Some? ==> pos <= r.value.1 <= |text|
  {
    if pos < |text| && text[pos] == '.' then
      var end := DigitsEnd(text, pos + 1);
      if end == pos + 1 then None else Some((FractionMillis(text, pos + 1, end), end))
    else Some((0, pos))
  }

  /** The offset in milliseconds and where it ends. */
  function OffsetAt(text: string, pos: nat): Option<(int, nat)> {
    if pos < |text| && (text[pos] == 'Z' || text[pos] == 'z') then Some((0, pos + 1))
    else if pos < |text| && (text[pos] == '+' || text[pos] == '-') then
      match (DigitsAt(text, pos + 1, 2), DigitsAt(text, pos + 4, 2))
      case (Some(oh), Some(om)) =>
        if pos + 3 < |text| && text[pos + 3] == ':' && oh <= 23 && om <= 59 then
          Some((if text[pos] == '-' then -(oh * 3600 + om * 60) * SECOND else (oh * 3600 + om * 60) * SECOND, pos + 6))
        else None
      case _ => None
    else None
  }

  function InvalidDateTime(text: string): Outcome<int> {
    Err("timestamp: invalid date-time: " + text)
  }

  function ParseDateTime(text: string): Outcome<int> {
    match DateTimeFields(text)
    case None => InvalidDateTime(text)
    case Some(c) =>
      match FractionAt(text, 19)
      case None => InvalidDateTime(text)
      case Some((ms, pos)) =>
        match OffsetAt(text, pos)
        case None => InvalidDateTime(text)
        case Some((offset, end)) =>
          if end != |text| || !CivilOk(c) then InvalidDateTime(text) else Ok(Compose(c.(millisecond := ms)) - offset)
  }

  function InvalidHttpDate(text: string): Outcome<int> {
    Err("timestamp: invalid http-date: " + text)
  }

  /** The number of a month name, 0 for none. */
  function MonthNumber(name: string, i: nat): (m: nat)
    requires i <= 12
    ensures m <= 12
    decreases i
  {
    if i == 0 then 0 else if MONTHS[i - 1] == name then i else MonthNumber(name, i - 1)
  }

  function ParseHttpDate(text: string): Outcome<int> {
    if |text| != 29 || text[3..5] != ", " || text[7] != ' ' || text[11] != ' ' || text[16] != ' ' || text[19] != ':' ||
       text[22] != ':' || text[25..] != " GMT" then InvalidHttpDate(text)
    else
      match (DigitsAt(text, 5, 2), DigitsAt(text, 12, 4), DigitsAt(text, 17, 2), DigitsAt(text, 20, 2), DigitsAt(text, 23, 2))
      case (Some(d), Some(y), Some(h), Some(mi), Some(s)) =>
        var c := Civil(Date(y, MonthNumber(text[8..11], 12), d), h, mi, s, 0);
        if !CivilOk(c) || WEEKDAYS[Weekday(EpochDays(c.date))] != text[..3] then InvalidHttpDate(text) else Ok(Compose(c))
      case _ => InvalidHttpDate(text)
  }
}

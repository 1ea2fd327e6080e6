/** The date-time form: exactly which texts parse, and what each of them yields. */
module DateTime {
  import opened Common
  import opened Calendar
  import opened TimestampSpec
  import opened TimestampProps

  /** A date-time with the choices its reader leaves: the case of letters, any fraction, and the offset. */
  datatype Spelling = Spelling(c: Civil, separator: string, fraction: string, zone: Zone)

  datatype Zone = Zulu(letter: string) | Offset(negative: bool, hours: nat, minutes: nat)

  predicate LegalZone(z: Zone) {
    match z
    case Zulu(letter) => letter == "Z" || letter == "z"
    case Offset(_, hours, minutes) => hours <= 23 && minutes <= 59
  }

  /** Valid fields of a four-digit year without milliseconds; the fraction is any digits, or none. */
  predicate Legal(sp: Spelling) {
    CivilOk(sp.c) && 0 <= sp.c.date.year <= 9999 && sp.c.millisecond == 0 && Separator(sp.separator) && LegalZone(sp.zone) &&
    forall d | d in sp.fraction :: IsDigit(d)
  }

  function WriteZone(z: Zone): string {
    match z
    case Zulu(letter) => letter
    case Offset(negative, hours, minutes) => (if negative then "-" else "+") + Padded(hours, 2) + ":" + Padded(minutes, 2)
  }

  function WriteFraction(digits: string): string {
    if digits == "" then "" else "." + digits
  }

  function Write(sp: Spelling): string
    requires Legal(sp)
  {
    DateTimeHead(sp.c, sp.separator) + WriteFraction(sp.fraction) + WriteZone(sp.zone)
  }

  /** Digits past the third are dropped, missing ones are zeros. */
  function Millis(digits: string): nat
    requires forall d | d in digits :: IsDigit(d)
  {
    FractionMillis(digits, 0, |digits|)
  }

  function ZoneMillis(z: Zone): int {
    match z
    case Zulu(_) => 0
    case Offset(negative, hours, minutes) =>
      if negative then -(hours * 3600 + minutes * 60) * SECOND else (hours * 3600 + minutes * 60) * SECOND
  }

  function Meaning(sp: Spelling): int
    requires Legal(sp)
  {
    Compose(sp.c.(millisecond := Millis(sp.fraction))) - ZoneMillis(sp.zone)
  }

  // ----- every spelling is read -----

  lemma ZoneStart(z: Zone)
    requires LegalZone(z)
    ensures WriteZone(z) != "" && !IsDigit(WriteZone(z)[0]) && WriteZone(z)[0] != '.'
  {
    hide Padded;
  }

  /** The digits of a fraction have the same value wherever they stand. */
  lemma SameMillis(text: string, pos: nat, digits: string)
    requires pos + |digits| <= |text| && text[pos..pos + |digits|] == digits && forall d | d in digits :: IsDigit(d)
    ensures forall i | pos <= i < pos + |digits| :: IsDigit(text[i])
    ensures FractionMillis(text, pos, pos + |digits|) == Millis(digits)
  {
    forall i | pos <= i < pos + |digits|
      ensures IsDigit(text[i]) && text[i] == digits[i - pos]
    {
      assert text[i] == text[pos..pos + |digits|][i - pos];
    }
  }

  lemma FractionRead(head: string, digits: string, tail: string)
    requires tail != "" && !IsDigit(tail[0]) && tail[0] != '.' && forall d | d in digits :: IsDigit(d)
    ensures var f := WriteFraction(digits);
            FractionAt(head + f + tail, |head|) == Some((Millis(digits), |head| + |f|))
  {
    var f := WriteFraction(digits);
    var text := head + f + tail;
    if digits == "" {
      assert text[|head|] == tail[0];
    } else {
      assert text[|head|] == '.' && text[|head| + |f|] == tail[0];
      assert text[|head| + 1..|head| + |f|] == digits;
      SameMillis(text, |head| + 1, digits);
      EndOfDigits(text, |head| + 1, |head| + |f|);
      hide Millis, FractionMillis, DigitsEnd;
    }
  }

  lemma ZoneRead(head: string, z: Zone)
    requires LegalZone(z)
    ensures OffsetAt(head + WriteZone(z), |head|) == Some((ZoneMillis(z), |head| + |WriteZone(z)|))
  {
    var text := head + WriteZone(z);
    if z.Offset? {
      TwoDigits(z.hours);
      TwoDigits(z.minutes);
      OffsetText(head, if z.negative then "-" else "+", Padded(z.hours, 2), Padded(z.minutes, 2), text);
      FieldReads(text, |head| + 1, z.hours, 2);
      FieldReads(text, |head| + 4, z.minutes, 2);
    }
    hide DigitsAt, Padded;
  }

  lemma OffsetText(head: string, sign: string, h: string, m: string, text: string)
    requires |sign| == 1 && |h| == 2 && |m| == 2 && text == head + (sign + h + ":" + m)
    ensures |text| == |head| + 6 && text[|head|] == sign[0] && text[|head| + 3] == ':'
    ensures text[|head| + 1..|head| + 3] == h && text[|head| + 4..|head| + 6] == m
  {
  }

  lemma {:induction false} SpellingParses(sp: Spelling)
    requires Legal(sp)
    ensures ParseDateTime(Write(sp)) == Ok(Meaning(sp))
  {
    hide DateTimeHead, WriteFraction, WriteZone, FractionAt, OffsetAt, DateTimeFields, ZoneMillis, Millis, Compose, LegalZone,
      ValidDate, ParseDateTime;
    var head, f, z := DateTimeHead(sp.c, sp.separator), WriteFraction(sp.fraction), WriteZone(sp.zone);
    ZoneStart(sp.zone);
    HeadReads(sp.c, sp.separator, f + z);
    FractionRead(head, sp.fraction, z);
    ZoneRead(head + f, sp.zone);
    assert head + f + z == head + (f + z);
    DateTimeParts(Write(sp), sp.c, Millis(sp.fraction), |head| + |f|, ZoneMillis(sp.zone), |Write(sp)|);
  }

  // ----- nothing else is -----

  lemma HeadOf(text: string) returns (c: Civil, sep: string)
    requires DateTimeFields(text).Some? && CivilOk(DateTimeFields(text).value)
    ensures c == DateTimeFields(text).value && 0 <= c.date.year <= 9999 && c.millisecond == 0 && Separator(sep)
    ensures |text| >= 20 && text[..19] == DateTimeHead(c, sep)
  {
    FourDigitYear(text);
    hide DigitsAt, Padded, ValidDate, Power10;
    c := DateTimeFields(text).value;
    sep := [text[10]];
    DigitsBack(text, 0, 4);
    DigitsBack(text, 5, 2);
    DigitsBack(text, 8, 2);
    DigitsBack(text, 11, 2);
    DigitsBack(text, 14, 2);
    DigitsBack(text, 17, 2);
    hide DateTimeFields;
    HeadPieces(text);
  }

  lemma DigitsBack(text: string, pos: nat, count: nat)
    requires count > 0 && DigitsAt(text, pos, count).Some?
    ensures pos + count <= |text| && text[pos..pos + count] == Padded(DigitsAt(text, pos, count).value, count)
  {
    ReadsPadded(text[pos..pos + count]);
    hide Padded, ReadDigits, Power10;
  }

  lemma HeadPieces(t: string)
    requires |t| >= 19 && t[4] == '-' && t[7] == '-' && t[13] == ':' && t[16] == ':'
    ensures t[..19] == t[0..4] + "-" + t[5..7] + "-" + t[8..10] + [t[10]] + (t[11..13] + ":" + t[14..16] + ":" + t[17..19])
  {
    assert t[..11] == t[0..4] + [t[4]] + t[5..7] + [t[7]] + t[8..10] + [t[10]];
    assert t[11..19] == t[11..13] + [t[13]] + t[14..16] + [t[16]] + t[17..19];
    assert t[..19] == t[..11] + t[11..19];
  }

  lemma FractionOf(text: string, pos: nat) returns (digits: string)
    requires pos <= |text| && FractionAt(text, pos).Some?
    ensures var (ms, end) := FractionAt(text, pos).value;
            (forall d | d in digits :: IsDigit(d)) && text[pos..end] == WriteFraction(digits) && ms == Millis(digits)
  {
    var (ms, end) := FractionAt(text, pos).value;
    if pos < |text| && text[pos] == '.' {
      digits := text[pos + 1..end];
      assert text[pos..end] == [text[pos]] + digits;
      SameMillis(text, pos + 1, digits);
      hide Millis, FractionMillis;
    } else {
      digits := "";
    }
  }

  lemma ZoneOf(text: string, pos: nat) returns (z: Zone)
    requires OffsetAt(text, pos).Some? && OffsetAt(text, pos).value.1 == |text|
    ensures LegalZone(z) && pos <= |text| && text[pos..] == WriteZone(z) && ZoneMillis(z) == OffsetAt(text, pos).value.0
  {
    hide DigitsAt, Padded;
    if text[pos] == 'Z' || text[pos] == 'z' {
      z := Zulu([text[pos]]);
    } else {
      DigitsBack(text, pos + 1, 2);
      DigitsBack(text, pos + 4, 2);
      z := Offset(text[pos] == '-', DigitsAt(text, pos + 1, 2).value, DigitsAt(text, pos + 4, 2).value);
      assert text[pos..] == [text[pos]] + text[pos + 1..pos + 3] + [text[pos + 3]] + text[pos + 4..pos + 6];
    }
  }

  /** Whatever parses is a spelling of what it yields. */
  lemma {:induction false} ParsedSpelling(text: string) returns (sp: Spelling)
    requires ParseDateTime(text).Ok?
    ensures Legal(sp) && Write(sp) == text && ParseDateTime(text) == Ok(Meaning(sp))
  {
    hide DateTimeHead, WriteFraction, WriteZone, FractionAt, OffsetAt, DateTimeFields, ZoneMillis, Millis, Compose, LegalZone,
      ValidDate;
    var c, sep := HeadOf(text);
    var digits := FractionOf(text, 19);
    var (ms, pos) := FractionAt(text, 19).value;
    var zone := ZoneOf(text, pos);
    sp := Spelling(c, sep, digits, zone);
    assert text == text[..19] + text[19..pos] + text[pos..];
  }

  /** A date-time is accepted exactly when it is a spelling of the instant it yields. */
  lemma {:induction false} AcceptsSpellings(text: string, ms: int)
    ensures ParseDateTime(text) == Ok(ms) <==> exists sp | Legal(sp) :: Write(sp) == text && Meaning(sp) == ms
  {
    hide ParseDateTime, Write, Meaning, Legal;
    if ParseDateTime(text) == Ok(ms) {
      var sp := ParsedSpelling(text);
    }
    forall sp | Legal(sp) && Write(sp) == text && Meaning(sp) == ms
      ensures ParseDateTime(text) == Ok(ms)
    {
      SpellingParses(sp);
    }
  }
}

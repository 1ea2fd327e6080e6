/** A line is one JSON object that says what was logged. */
module AccessLogProps {
  import opened Common
  import opened AccessLogSpec

  // ----- UTF-8: the check is exact -----

  lemma TwoBytes(c: int)
    requires Scalar(c) && 0x80 <= c < 0x800
    ensures var r := EncodeScalar(c); |r| == 2 && 0xC2 <= r[0] <= 0xDF && Continues(r[1])
  {
  }

  lemma ThreeBytes(c: int)
    requires Scalar(c) && 0x800 <= c < 0x10000
    ensures var r := EncodeScalar(c);
            |r| == 3 && 0xE0 <= r[0] <= 0xEF && Continues(r[1]) && Continues(r[2]) &&
            (r[0] == 0xE0 ==> r[1] >= 0xA0) && (r[0] == 0xED ==> r[1] <= 0x9F)
  {
    assert c / 4096 * 4096 + c / 64 % 64 * 64 + c % 64 == c;
  }

  lemma FourBytes(c: int)
    requires Scalar(c) && 0x10000 <= c
    ensures var r := EncodeScalar(c);
            |r| == 4 && 0xF0 <= r[0] <= 0xF4 && Continues(r[1]) && Continues(r[2]) && Continues(r[3]) &&
            (r[0] == 0xF0 ==> r[1] >= 0x90) && (r[0] == 0xF4 ==> r[1] <= 0x8F)
  {
    assert c / 262144 * 262144 + c / 4096 % 64 * 4096 + c / 64 % 64 * 64 + c % 64 == c;
  }

  /** Every encoding of a scalar value is a sequence. */
  lemma {:induction false} EncodingsAreSequences(c: int, rest: Bytes)
    requires Scalar(c) && c >= 0x80
    ensures EncodeScalar(c)[0] >= 0x80 && SequenceLength(EncodeScalar(c) + rest) == |EncodeScalar(c)|
  {
    if c < 0x800 {
      TwoBytes(c);
    } else if c < 0x10000 {
      ThreeBytes(c);
    } else {
      FourBytes(c);
    }
    hide EncodeScalar;
    var r := EncodeScalar(c);
    assert forall k | 0 <= k < |r| :: (r + rest)[k] == r[k];
  }

  /** The scalar value of a sequence. */
  function Decoded(s: Bytes): int
    requires s != [] && SequenceLength(s) > 0
  {
    if SequenceLength(s) == 2 then (s[0] as int - 0xC0) * 64 + (s[1] as int - 0x80)
    else if SequenceLength(s) == 3 then (s[0] as int - 0xE0) * 4096 + (s[1] as int - 0x80) * 64 + (s[2] as int - 0x80)
    else (s[0] as int - 0xF0) * 262144 + (s[1] as int - 0x80) * 4096 + (s[2] as int - 0x80) * 64 + (s[3] as int - 0x80)
  }

  lemma Places2(a: nat, b: nat)
    requires b < 64
    ensures (a * 64 + b) / 64 == a && (a * 64 + b) % 64 == b
  {
  }

  /** Every sequence encodes a scalar value. */
  lemma {:induction false} SequencesAreEncodings(s: Bytes)
    requires s != [] && SequenceLength(s) > 0
    ensures Scalar(Decoded(s)) && Decoded(s) >= 0x80 && EncodeScalar(Decoded(s)) == s[..SequenceLength(s)]
  {
    var n, c := SequenceLength(s), Decoded(s);
    if n == 2 {
      Places2(s[0] as int - 0xC0, s[1] as int - 0x80);
    } else if n == 3 {
      var top := (s[0] as int - 0xE0) * 64 + (s[1] as int - 0x80);
      assert c == top * 64 + (s[2] as int - 0x80) && c / 4096 == c / 64 / 64;
      Places2(top, s[2] as int - 0x80);
      Places2(s[0] as int - 0xE0, s[1] as int - 0x80);
    } else {
      var top := (s[0] as int - 0xF0) * 64 + (s[1] as int - 0x80);
      var mid := top * 64 + (s[2] as int - 0x80);
      assert c == mid * 64 + (s[3] as int - 0x80) && c / 4096 == c / 64 / 64 && c / 262144 == c / 64 / 64 / 64;
      Places2(mid, s[3] as int - 0x80);
      Places2(top, s[2] as int - 0x80);
      Places2(s[0] as int - 0xF0, s[1] as int - 0x80);
    }
  }

  /** What is found at a non-ASCII byte is exactly an encoding of a scalar value, if there is one. */
  lemma {:induction false} Utf8IsExact(s: Bytes, n: nat)
    requires s != [] && s[0] >= 0x80 && n > 0
    ensures SequenceLength(s) == n <==>
            exists c | Scalar(c) && c >= 0x80 :: |EncodeScalar(c)| == n && n <= |s| && s[..n] == EncodeScalar(c)
  {
    hide SequenceLength, EncodeScalar, Decoded;
    if SequenceLength(s) == n {
      SequencesAreEncodings(s);
    }
    forall c | Scalar(c) && c >= 0x80 && |EncodeScalar(c)| == n && n <= |s| && s[..n] == EncodeScalar(c)
      ensures SequenceLength(s) == n
    {
      EncodingsAreSequences(c, s[n..]);
      assert EncodeScalar(c) + s[n..] == s;
    }
  }

  /** A sequence is one whatever follows it. */
  lemma SequenceAlone(s: Bytes, rest: Bytes)
    requires s != [] && SequenceLength(s) > 0
    ensures SequenceLength(s[..SequenceLength(s)] + rest) == SequenceLength(s)
  {
    var n := SequenceLength(s);
    var t := s[..n] + rest;
    assert forall k | 0 <= k < n :: t[k] == s[k];
  }

  // ----- what is logged for a text -----

  lemma ReplacementSequence(rest: Bytes)
    ensures SequenceLength(REPLACEMENT + rest) == 3 && REPLACEMENT[0] >= 0x80
  {
  }

  /** A step's text is what it says and needs nothing from what follows. */
  lemma StepValid(s: Bytes, rest: Bytes)
    requires s != []
    ensures ValidUtf8(Step(s).2 + rest) <==> ValidUtf8(rest)
  {
    hide SequenceLength;
    var r := Step(s).2;
    if s[0] < 0x80 {
      assert ([s[0]] + rest)[1..] == rest;
    } else if SequenceLength(s) == 0 {
      ReplacementSequence(rest);
      assert (REPLACEMENT + rest)[3..] == rest;
    } else {
      SequenceAlone(s, rest);
      assert (r + rest)[SequenceLength(s)..] == rest;
    }
  }

  /** What is logged is well-formed, and it is the text itself exactly when that is. */
  lemma {:induction false} RepairedIsValid(s: Bytes)
    ensures ValidUtf8(Repaired(s)) && (Repaired(s) == s <==> ValidUtf8(s))
    decreases |s|
  {
    hide Step, SequenceLength;
    if s != [] {
      var rest := s[Step(s).0..];
      RepairedIsValid(rest);
      StepValid(s, Repaired(rest));
      if ValidUtf8(s) {
        StepOfValid(s);
        assert s == s[..Step(s).0] + rest;
      }
    }
  }

  lemma StepOfValid(s: Bytes)
    requires s != [] && ValidUtf8(s)
    ensures ValidUtf8(s[Step(s).0..]) && Step(s).2 == s[..Step(s).0]
  {
    hide SequenceLength;
    if s[0] < 0x80 {
      assert s[..1] == [s[0]];
    }
  }

  // ----- strings come back -----

  lemma HexBack(d: nat)
    requires d < 16
    ensures HexDigit(Hex(d)) == d
  {
  }

  lemma EscapeBack(c: Byte, rest: Bytes)
    requires c < 0x80
    ensures var s := EscapedAscii(c) + rest; s != [] && s[0] != QUOTE && ReadChar(s) == Some(([c], rest))
  {
    hide EncodeScalar;
    var s := EscapedAscii(c) + rest;
    if |EscapedAscii(c)| == 6 {
      ControlBack(c, rest);
    } else if |EscapedAscii(c)| == 2 {
      assert s[1..][1..] == rest;
    } else {
      assert s[1..] == rest;
    }
  }

  lemma ControlBack(c: Byte, rest: Bytes)
    requires c < 0x20
    ensures var s := [BACKSLASH, 117, 48, 48, Hex(c / 16), Hex(c % 16)] + rest;
            ReadChar(s) == Some(([c], rest)) && s[0] != QUOTE
  {
    var s := [BACKSLASH, 117, 48, 48, Hex(c / 16), Hex(c % 16)] + rest;
    HexBack(c / 16);
    HexBack(c % 16);
    var t := s[1..];
    var digits := t[1..];
    assert digits[0] == 48 && digits[1] == 48 && digits[2] == Hex(c / 16) && digits[3] == Hex(c % 16);
    assert forall k | 0 <= k < 4 :: HexDigit(digits[k]) >= 0;
    assert Unit(digits) == c / 16 * 16 + c % 16 == c;
    assert t[5..] == rest && EncodeScalar(c) == [c];
  }

  lemma SequenceBack(s: Bytes, rest: Bytes)
    requires s != [] && SequenceLength(s) > 0 && s[0] >= 0x80
    ensures var t := s[..SequenceLength(s)] + rest; t[0] != QUOTE && ReadChar(t) == Some((s[..SequenceLength(s)], rest))
  {
    SequenceAlone(s, rest);
    hide SequenceLength;
  }

  lemma StepBack(s: Bytes, rest: Bytes)
    requires s != []
    ensures var t := Step(s).1 + rest; t != [] && t[0] != QUOTE && ReadChar(t) == Some((Step(s).2, rest))
  {
    if s[0] < 0x80 {
      EscapeBack(s[0], rest);
    } else if SequenceLength(s) == 0 {
      ReplacementSequence(rest);
      assert (REPLACEMENT + rest)[..3] == REPLACEMENT && (REPLACEMENT + rest)[3..] == rest;
    } else {
      SequenceBack(s, rest);
    }
  }

  /** An escaped text reads back as the repaired text. */
  lemma {:induction false} CharsBack(s: Bytes, rest: Bytes)
    ensures ReadChars(Escaped(s) + [QUOTE] + rest) == Some((Repaired(s), rest))
    decreases |s|
  {
    hide Step, ReadChar;
    if s == [] {
      assert Escaped(s) + [QUOTE] + rest == [QUOTE] + rest;
      assert ([QUOTE] + rest)[1..] == rest;
    } else {
      var later := s[Step(s).0..];
      CharsBack(later, rest);
      var after := Escaped(later) + [QUOTE] + rest;
      assert Escaped(s) + [QUOTE] + rest == Step(s).1 + after;
      StepBack(s, after);
    }
  }

  lemma StringBack(s: Bytes, rest: Bytes)
    ensures ReadString(Quoted(s) + rest) == Some((Repaired(s), rest))
  {
    hide ReadChars, Escaped;
    CharsBack(s, rest);
    assert Quoted(s) + rest == [QUOTE] + (Escaped(s) + [QUOTE] + rest);
    assert (Quoted(s) + rest)[1..] == Escaped(s) + [QUOTE] + rest;
  }

  // ----- numbers come back -----

  lemma {:induction false} DigitsBack(n: nat, rest: Bytes)
    requires rest == [] || !Digit(rest[0])
    ensures ReadDigits(Decimal(n) + rest, 0) == (n, rest)
    ensures Decimal(n)[0] == 48 ==> n == 0
  {
    MoreDigits(n, 0, rest);
    FirstDigit(n);
  }

  lemma {:induction false} FirstDigit(n: nat)
    ensures Decimal(n)[0] == 48 <==> n == 0
  {
    if n >= 10 {
      FirstDigit(n / 10);
    }
  }

  /** Shift(value, n): value with n's digits behind it. */
  function Shift(value: nat, n: nat): nat {
    if n < 10 then value * 10 + n else Shift(value, n / 10) * 10 + n % 10
  }

  lemma {:induction false} ShiftZero(n: nat)
    ensures Shift(0, n) == n
  {
    if n >= 10 {
      ShiftZero(n / 10);
    }
  }

  lemma {:induction false} ReadOn(n: nat, value: nat, rest: Bytes)
    ensures ReadDigits(Decimal(n) + rest, value) == ReadDigits(rest, Shift(value, n))
    decreases n
  {
    if n < 10 {
      assert ([48 + n] + rest)[1..] == rest;
    } else {
      var last: Bytes := [48 + n % 10];
      assert Decimal(n) + rest == Decimal(n / 10) + (last + rest);
      ReadOn(n / 10, value, last + rest);
      assert (last + rest)[1..] == rest;
    }
  }

  lemma MoreDigits(n: nat, value: nat, rest: Bytes)
    requires value == 0 && (rest == [] || !Digit(rest[0]))
    ensures ReadDigits(Decimal(n) + rest, value) == (n, rest)
  {
    ReadOn(n, value, rest);
    ShiftZero(n);
  }

  lemma NumberBack(n: int, rest: Bytes)
    requires rest == [] || !Digit(rest[0])
    ensures ReadNumber(NumberText(n) + rest) == Some((n, rest))
    ensures NumberText(n)[0] == MINUS || Digit(NumberText(n)[0])
  {
    hide ReadDigits, Decimal;
    var m := if n < 0 then -n else n;
    DigitsBack(m, rest);
    OneDigitOrMore(m);
    var digits := Decimal(m) + rest;
    if n < 0 {
      assert (NumberText(n) + rest)[0] == MINUS && (NumberText(n) + rest)[1..] == digits;
    } else {
      assert NumberText(n) + rest == digits;
    }
  }

  lemma OneDigitOrMore(n: nat)
    ensures |Decimal(n)| == 1 <==> n < 10
  {
  }

  // ----- the object comes back -----

  function RepairedValue(v: Value): Value {
    match v case Text(s) => Text(Repaired(s)) case _ => v
  }

  function RepairedMembers(ms: seq<Member>): (r: seq<Member>)
    ensures |r| == |ms| && forall k | 0 <= k < |ms| :: r[k] == Member(Repaired(ms[k].key), RepairedValue(ms[k].value))
  {
    if ms == [] then [] else [Member(Repaired(ms[0].key), RepairedValue(ms[0].value))] + RepairedMembers(ms[1..])
  }

  /** What stands behind a value. */
  predicate Ends(rest: Bytes) { rest != [] && (rest[0] == COMMA || rest[0] == CLOSE) }

  lemma ValueBack(v: Value, rest: Bytes)
    requires Ends(rest)
    ensures ReadValue(ValueText(v) + rest) == Some((RepairedValue(v), rest))
  {
    hide ReadString, ReadNumber, NumberText, Quoted;
    match v
    case Text(s) =>
      StringBack(s, rest);
      QuotedStarts(s);
    case Number(n) =>
      NumberBack(n, rest);
      NotAWord(NumberText(n), rest);
    case Truth(b) =>
      var word := if b then TrueText() else FalseText();
      assert (word + rest)[..|word|] == word && (word + rest)[|word|..] == rest;
      assert b || !Starts(word + rest, TrueText()) by {
        assert (word + rest)[0] == word[0] && (word + rest)[..4][0] == word[0];
      }
  }

  lemma QuotedStarts(s: Bytes)
    ensures Quoted(s) != [] && Quoted(s)[0] == QUOTE
  {
  }

  lemma NotAWord(number: Bytes, rest: Bytes)
    requires number != [] && (number[0] == MINUS || Digit(number[0]))
    ensures var s := number + rest; s[0] != QUOTE && !Starts(s, TrueText()) && !Starts(s, FalseText())
  {
    var s := number + rest;
    assert |s| >= 4 ==> s[..4][0] == s[0];
    assert |s| >= 5 ==> s[..5][0] == s[0];
  }

  lemma MemberBack(m: Member, rest: Bytes)
    requires Ends(rest)
    ensures ReadMember(MemberText(m) + rest) == Some((Member(Repaired(m.key), RepairedValue(m.value)), rest))
  {
    hide ReadString, ReadValue, ValueText, Quoted, Repaired;
    var after := [COLON] + (ValueText(m.value) + rest);
    assert MemberText(m) + rest == Quoted(m.key) + after;
    StringBack(m.key, after);
    assert after[1..] == ValueText(m.value) + rest;
    ValueBack(m.value, rest);
  }

  lemma {:induction false} MembersBack(ms: seq<Member>, rest: Bytes)
    requires ms != []
    ensures ReadMembers(MemberTexts(ms) + [CLOSE] + rest) == Some((RepairedMembers(ms), rest))
    decreases |ms|
  {
    hide ReadMember, MemberText, Repaired, RepairedValue;
    var m := Member(Repaired(ms[0].key), RepairedValue(ms[0].value));
    if |ms| == 1 {
      var after := [CLOSE] + rest;
      assert MemberTexts(ms) + [CLOSE] + rest == MemberText(ms[0]) + after && after[1..] == rest;
      MemberBack(ms[0], after);
      assert RepairedMembers(ms) == [m];
    } else {
      MembersBack(ms[1..], rest);
      var later := MemberTexts(ms[1..]) + [CLOSE] + rest;
      var after := [COMMA] + later;
      assert MemberTexts(ms) + [CLOSE] + rest == MemberText(ms[0]) + after && after[1..] == later;
      MemberBack(ms[0], after);
      assert RepairedMembers(ms) == [m] + RepairedMembers(ms[1..]);
    }
  }

  lemma {:induction false} LineBack(ms: seq<Member>)
    requires ms != []
    ensures ReadObject(Line(ms)) == Some(RepairedMembers(ms))
  {
    hide ReadMembers, MemberTexts;
    MembersBack(ms, []);
    var s := Line(ms);
    assert s[1..] == MemberTexts(ms) + [CLOSE] + [];
    TextsNotEmpty(ms);
  }

  lemma TextsNotEmpty(ms: seq<Member>)
    requires ms != []
    ensures |MemberTexts(ms)| > 1
  {
    assert |Quoted(ms[0].key)| >= 2;
  }

  // ----- the whole line -----

  const LENGTHS: seq<nat> := [11, 6, 5, 6, 11, 13, 14, 6, 13, 13, 8]
  const FIRSTS: string := "htrsdrrccht"

  /** The built-in keys differ in length or first letter. */
  lemma BuiltInsDiffer(j: nat, k: nat)
    requires j < k < 11
    ensures BuiltInKeys()[j] != BuiltInKeys()[k]
  {
    hide HttpMethodKey, TargetKey, RouteKey, StatusKey, DurationUsKey, RequestBytesKey, ResponseBytesKey, ClientKey, ClientSourceKey, HandlerThrewKey, TraceIdKey;
    BuiltInShape(j);
    BuiltInShape(k);
    hide BuiltInKeys;
    assert LENGTHS[j] != LENGTHS[k] || FIRSTS[j] != FIRSTS[k];
  }

  lemma BuiltInShape(k: nat)
    requires k < 11
    ensures Keyed(BuiltInKeys()[k], LENGTHS[k], FIRSTS[k])
  {
    hide HttpMethodKey, TargetKey, RouteKey, StatusKey, DurationUsKey, RequestBytesKey, ResponseBytesKey, ClientKey, ClientSourceKey, HandlerThrewKey, TraceIdKey;
  }

  lemma {:induction false} AsciiValid(s: Bytes)
    requires AllAscii(s)
    ensures ValidUtf8(s)
  {
    if s != [] {
      AsciiValid(s[1..]);
    }
  }

  lemma KeysStay(o: Observation, extra: Extra, k: nat)
    requires KeysOk(extra) && k < |Members(o, extra)|
    ensures RepairedMembers(Members(o, extra))[k].key == Members(o, extra)[k].key
  {
    hide BuiltInKeys, BuiltInValues, ValidUtf8, Repaired;
    var m := Members(o, extra)[k];
    if k < 11 {
      BuiltInShape(k);
      assert m.key == BuiltInKeys()[k];
      AsciiValid(m.key);
    } else {
      assert m == ExtraMembers(extra)[k - 11];
    }
    RepairedIsValid(m.key);
  }

  lemma KeysDiffer(o: Observation, extra: Extra, j: nat, k: nat)
    requires KeysOk(extra) && j < k < |Members(o, extra)|
    ensures Members(o, extra)[j].key != Members(o, extra)[k].key
  {
    hide BuiltInKeys, BuiltInValues, ValidUtf8;
    var ms := Members(o, extra);
    if k < 11 {
      BuiltInsDiffer(j, k);
      assert ms[j].key == BuiltInKeys()[j] && ms[k].key == BuiltInKeys()[k];
    } else {
      assert ms[k] == ExtraMembers(extra)[k - 11];
      if j < 11 {
        assert ms[j].key == BuiltInKeys()[j];
      } else {
        assert ms[j] == ExtraMembers(extra)[j - 11];
      }
    }
  }

  /** What the reader finds in place k. */
  function LoggedMember(o: Observation, extra: Extra, k: nat): Member
    requires k < 11 + |extra|
  {
    if k < 11 then Member(BuiltInKeys()[k], RepairedValue(BuiltInValues(o)[k]))
    else Member(extra[k - 11].0, Text(Repaired(extra[k - 11].1)))
  }

  /** The line is exactly one object. Its keys are distinct and as given; its values are the fields, texts repaired. */
  lemma {:induction false} LogBack(o: Observation, extra: Extra)
    requires Formatted(o, extra).Some?
    ensures var r := ReadObject(Formatted(o, extra).value);
            r.Some? && |r.value| == 11 + |extra| &&
            (forall k: nat | k < 11 + |extra| :: r.value[k] == LoggedMember(o, extra, k)) &&
            forall j: nat, k: nat | j < k < 11 + |extra| :: r.value[j].key != r.value[k].key
  {
    hide ReadObject, Line, Members, RepairedMembers, BuiltInKeys, BuiltInValues, KeysOk, Repaired, RepairedValue;
    var ms := Members(o, extra);
    MembersSize(o, extra);
    LineBack(ms);
    forall k: nat | k < |ms|
      ensures RepairedMembers(ms)[k] == LoggedMember(o, extra, k)
    {
      MemberLogged(o, extra, k);
    }
    forall j: nat, k: nat | j < k < |ms|
      ensures RepairedMembers(ms)[j].key != RepairedMembers(ms)[k].key
    {
      KeysStay(o, extra, j);
      KeysStay(o, extra, k);
      KeysDiffer(o, extra, j, k);
    }
  }

  lemma MembersSize(o: Observation, extra: Extra)
    ensures |Members(o, extra)| == 11 + |extra|
  {
    hide BuiltInKeys, BuiltInValues;
  }

  lemma MemberLogged(o: Observation, extra: Extra, k: nat)
    requires KeysOk(extra) && k < |Members(o, extra)|
    ensures |Members(o, extra)| == 11 + |extra| && RepairedMembers(Members(o, extra))[k] == LoggedMember(o, extra, k)
  {
    hide BuiltInKeys, BuiltInValues, KeysOk, Repaired, RepairedValue, RepairedMembers, ExtraMembers, Paired;
    MembersSize(o, extra);
    KeysStay(o, extra, k);
    MemberGiven(o, extra, k);
    if k >= 11 {
      TextRepaired(extra[k - 11].1);
    }
  }

  lemma TextRepaired(s: Bytes)
    ensures RepairedValue(Text(s)) == Text(Repaired(s))
  {
  }

  lemma MemberGiven(o: Observation, extra: Extra, k: nat)
    requires k < |Members(o, extra)| && |Members(o, extra)| == 11 + |extra|
    ensures Members(o, extra)[k] ==
            if k < 11 then Member(BuiltInKeys()[k], BuiltInValues(o)[k]) else Member(extra[k - 11].0, Text(extra[k - 11].1))
  {
    hide BuiltInKeys, BuiltInValues;
    if k >= 11 {
      assert Members(o, extra)[k] == ExtraMembers(extra)[k - 11];
    }
  }

  // ----- one line -----

  predicate Printable(s: Bytes) {
    forall i | 0 <= i < |s| :: s[i] >= 0x20
  }

  lemma SequencePrintable(s: Bytes)
    requires s != [] && s[0] >= 0x80
    ensures Printable(s[..SequenceLength(s)])
  {
  }

  lemma {:induction false} EscapedPrintable(s: Bytes)
    ensures Printable(Escaped(s))
    decreases |s|
  {
    hide SequenceLength;
    if s != [] {
      if s[0] >= 0x80 {
        SequencePrintable(s);
      }
      assert Printable(Step(s).1);
      EscapedPrintable(s[Step(s).0..]);
    }
  }

  lemma DecimalPrintable(n: nat)
    ensures Printable(Decimal(n))
  {
  }

  lemma MemberPrintable(m: Member)
    ensures Printable(MemberText(m))
  {
    hide Escaped, Decimal;
    EscapedPrintable(m.key);
    match m.value
    case Text(s) => EscapedPrintable(s);
    case Number(n) => DecimalPrintable(if n < 0 then -n else n);
    case Truth(b) =>
  }

  lemma {:induction false} TextsPrintable(ms: seq<Member>)
    ensures Printable(MemberTexts(ms))
  {
    hide MemberText;
    if ms != [] {
      MemberPrintable(ms[0]);
      TextsPrintable(ms[1..]);
    }
  }

  /** Whatever is logged, there is no control byte in the line: one record, one line. */
  lemma {:induction false} OneLine(o: Observation, extra: Extra)
    requires Formatted(o, extra).Some?
    ensures Printable(Formatted(o, extra).value)
  {
    hide Members, KeysOk, MemberTexts;
    TextsPrintable(Members(o, extra));
  }
}

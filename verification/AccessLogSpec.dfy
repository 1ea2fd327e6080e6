/** Access-log lines: UTF-8, string escapes, the line itself, and a reader of JSON objects to hold it against. */
module AccessLogSpec {
  import opened Common

  const QUOTE: Byte := 34
  const BACKSLASH: Byte := 92
  const COMMA: Byte := 44
  const COLON: Byte := 58
  const OPEN: Byte := 123
  const CLOSE: Byte := 125
  const MINUS: Byte := 45

  // ----- UTF-8 as RFC 3629 defines it -----

  predicate Scalar(c: int) { 0 <= c <= 0x10FFFF && !(0xD800 <= c <= 0xDFFF) }

  function EncodeScalar(c: int): (r: Bytes)
    requires Scalar(c)
    ensures 1 <= |r| <= 4
  {
    if c < 0x80 then [c]
    else if c < 0x800 then [0xC0 + c / 64, 0x80 + c % 64]
    else if c < 0x10000 then [0xE0 + c / 4096, 0x80 + c / 64 % 64, 0x80 + c % 64]
    else [0xF0 + c / 262144, 0x80 + c / 4096 % 64, 0x80 + c / 64 % 64, 0x80 + c % 64]
  }

  // ----- UTF-8 as the code checks it -----

  predicate Continues(c: Byte) { 0x80 <= c <= 0xBF }

  /** The length of the sequence at the start of s, 0 when there is none; s starts with a non-ASCII byte. */
  function SequenceLength(s: Bytes): (n: nat)
    requires s != []
    ensures n <= |s| && n <= 4
  {
    var lead := s[0];
    if 0xC2 <= lead <= 0xDF then Checked(s, 2, 0x80, 0xBF)
    else if 0xE0 <= lead <= 0xEF then Checked(s, 3, if lead == 0xE0 then 0xA0 else 0x80, if lead == 0xED then 0x9F else 0xBF)
    else if 0xF0 <= lead <= 0xF4 then Checked(s, 4, if lead == 0xF0 then 0x90 else 0x80, if lead == 0xF4 then 0x8F else 0xBF)
    else 0
  }

  function Checked(s: Bytes, length: nat, low: Byte, high: Byte): (n: nat)
    requires 2 <= length <= 4
    ensures n == 0 || (n == length && n <= |s|)
  {
    if length > |s| || s[1] < low || s[1] > high then 0
    else if (length > 2 && !Continues(s[2])) || (length > 3 && !Continues(s[3])) then 0
    else length
  }

  // ----- escaping -----

  function Hex(d: nat): Byte
    requires d < 16
  {
    if d < 10 then 48 + d else 87 + d
  }

  function EscapedAscii(c: Byte): Bytes
    requires c < 0x80
  {
    if c == QUOTE || c == BACKSLASH then [BACKSLASH, c]
    else if c == 8 then [BACKSLASH, 98]
    else if c == 12 then [BACKSLASH, 102]
    else if c == 10 then [BACKSLASH, 110]
    else if c == 13 then [BACKSLASH, 114]
    else if c == 9 then [BACKSLASH, 116]
    else if c < 0x20 then [BACKSLASH, 117, 48, 48, Hex(c / 16), Hex(c % 16)]
    else [c]
  }

  /** U+FFFD */
  const REPLACEMENT: Bytes := [0xEF, 0xBF, 0xBD]

  /** What is read at the start of s: how many bytes, and what stands for them. */
  function Step(s: Bytes): (r: (nat, Bytes, Bytes))
    requires s != []
    ensures 0 < r.0 <= |s|
  {
    if s[0] < 0x80 then (1, EscapedAscii(s[0]), [s[0]])
    else
      var n := SequenceLength(s);
      if n == 0 then (1, REPLACEMENT, REPLACEMENT) else (n, s[..n], s[..n])
  }

  /** The text between the quotes. */
  function Escaped(s: Bytes): Bytes {
    if s == [] then [] else Step(s).1 + Escaped(s[Step(s).0..])
  }

  /** The text that is logged: every byte that belongs to no sequence replaced. */
  function Repaired(s: Bytes): Bytes {
    if s == [] then [] else Step(s).2 + Repaired(s[Step(s).0..])
  }

  predicate ValidUtf8(s: Bytes) {
    s == [] || (if s[0] < 0x80 then ValidUtf8(s[1..]) else SequenceLength(s) > 0 && ValidUtf8(s[SequenceLength(s)..]))
  }

  // ----- the line -----

  datatype Value = Text(text: Bytes) | Number(number: int) | Truth(truth: bool)

  datatype Member = Member(key: Bytes, value: Value)

  function Quoted(s: Bytes): Bytes { [QUOTE] + Escaped(s) + [QUOTE] }

  function NumberText(n: int): Bytes {
    if n < 0 then [MINUS] + Decimal(-n) else Decimal(n)
  }

  function TrueText(): Bytes { [116, 114, 117, 101] }

  function FalseText(): Bytes { [102, 97, 108, 115, 101] }

  function ValueText(v: Value): Bytes {
    match v
    case Text(s) => Quoted(s)
    case Number(n) => NumberText(n)
    case Truth(b) => if b then TrueText() else FalseText()
  }

  function MemberText(m: Member): Bytes { Quoted(m.key) + [COLON] + ValueText(m.value) }

  function MemberTexts(ms: seq<Member>): Bytes {
    if ms == [] then []
    else if |ms| == 1 then MemberText(ms[0])
    else MemberText(ms[0]) + [COMMA] + MemberTexts(ms[1..])
  }

  function Line(ms: seq<Member>): Bytes { [OPEN] + MemberTexts(ms) + [CLOSE] }

  datatype Observation = Observation(
    method_: Bytes, target: Bytes, operation: Bytes, status: int, durationUs: int, requestBytes: nat, responseBytes: nat,
    client: Bytes, clientSource: Bytes, handlerThrew: bool, traceId: Bytes)

  /** A key of ASCII letters, told apart from the others by its length and its first letter. */
  predicate Keyed(key: Bytes, length: nat, first: char) {
    |key| == length && length > 0 && key[0] == first as int && AllAscii(key)
  }

  function HttpMethodKey(): (key: Bytes)
    ensures Keyed(key, 11, 'h')
  {
    hide Ascii, AllAscii;
    Ascii("http_method")
  }

  function TargetKey(): (key: Bytes)
    ensures Keyed(key, 6, 't')
  {
    hide Ascii, AllAscii;
    Ascii("target")
  }

  function RouteKey(): (key: Bytes)
    ensures Keyed(key, 5, 'r')
  {
    hide Ascii, AllAscii;
    Ascii("route")
  }

  function StatusKey(): (key: Bytes)
    ensures Keyed(key, 6, 's')
  {
    hide Ascii, AllAscii;
    Ascii("status")
  }

  function DurationUsKey(): (key: Bytes)
    ensures Keyed(key, 11, 'd')
  {
    hide Ascii, AllAscii;
    Ascii("duration_us")
  }

  function RequestBytesKey(): (key: Bytes)
    ensures Keyed(key, 13, 'r')
  {
    hide Ascii, AllAscii;
    Ascii("request_bytes")
  }

  function ResponseBytesKey(): (key: Bytes)
    ensures Keyed(key, 14, 'r')
  {
    hide Ascii, AllAscii;
    Ascii("response_bytes")
  }

  function ClientKey(): (key: Bytes)
    ensures Keyed(key, 6, 'c')
  {
    hide Ascii, AllAscii;
    Ascii("client")
  }

  function ClientSourceKey(): (key: Bytes)
    ensures Keyed(key, 13, 'c')
  {
    hide Ascii, AllAscii;
    Ascii("client_source")
  }

  function HandlerThrewKey(): (key: Bytes)
    ensures Keyed(key, 13, 'h')
  {
    hide Ascii, AllAscii;
    Ascii("handler_threw")
  }

  function TraceIdKey(): (key: Bytes)
    ensures Keyed(key, 8, 't')
  {
    hide Ascii, AllAscii;
    Ascii("trace_id")
  }

  /** The keys that are always there, in the order of the line. */
  function BuiltInKeys(): (keys: seq<Bytes>)
    ensures |keys| == 11
  {
    [HttpMethodKey(), TargetKey(), RouteKey(), StatusKey(), DurationUsKey(), RequestBytesKey(),
     ResponseBytesKey(), ClientKey(), ClientSourceKey(), HandlerThrewKey(), TraceIdKey()]
  }

  function Unmatched(): Bytes { Ascii("unmatched") }

  function BuiltInValues(o: Observation): (vs: seq<Value>)
    ensures |vs| == 11
  {
    [Text(o.method_), Text(o.target), Text(if o.operation == [] then Unmatched() else o.operation), Number(o.status),
     Number(o.durationUs), Number(o.requestBytes), Number(o.responseBytes), Text(o.client), Text(o.clientSource),
     Truth(o.handlerThrew), Text(o.traceId)]
  }

  function Paired(keys: seq<Bytes>, values: seq<Value>): (ms: seq<Member>)
    requires |keys| == |values|
    ensures |ms| == |keys| && forall k | 0 <= k < |keys| :: ms[k] == Member(keys[k], values[k])
  {
    if keys == [] then [] else [Member(keys[0], values[0])] + Paired(keys[1..], values[1..])
  }

  type Extra = seq<(Bytes, Bytes)>

  function ExtraMembers(extra: Extra): (ms: seq<Member>)
    ensures |ms| == |extra| && forall k | 0 <= k < |extra| :: ms[k] == Member(extra[k].0, Text(extra[k].1))
  {
    if extra == [] then [] else [Member(extra[0].0, Text(extra[0].1))] + ExtraMembers(extra[1..])
  }

  function Members(o: Observation, extra: Extra): seq<Member> {
    Paired(BuiltInKeys(), BuiltInValues(o)) + ExtraMembers(extra)
  }

  /** What the program insists on about extra keys; it aborts otherwise. */
  predicate KeysOk(extra: Extra) {
    (forall k | 0 <= k < |extra| :: extra[k].0 != [] && ValidUtf8(extra[k].0) && extra[k].0 !in BuiltInKeys()) &&
    forall j, k | 0 <= j < k < |extra| :: extra[j].0 != extra[k].0
  }

  /** `FormatAccessLog`: the line, or nothing when the program aborts. */
  function Formatted(o: Observation, extra: Extra): Option<Bytes> {
    if KeysOk(extra) then Some(Line(Members(o, extra))) else None
  }

  // ----- reading JSON (RFC 8259) -----

  function HexDigit(c: Byte): int {
    if 48 <= c <= 57 then c - 48 else if 65 <= c <= 70 then c - 55 else if 97 <= c <= 102 then c - 87 else -1
  }

  /** The code unit of four hexadecimal digits, or -1. */
  function Unit(s: Bytes): int {
    if |s| < 4 || (exists k | 0 <= k < 4 :: HexDigit(s[k]) < 0) then -1
    else HexDigit(s[0]) * 4096 + HexDigit(s[1]) * 256 + HexDigit(s[2]) * 16 + HexDigit(s[3])
  }

  /** The character an escape stands for and what follows; pairs of surrogate escapes are not read. */
  function ReadEscape(s: Bytes): Option<(Bytes, Bytes)> {
    if s == [] then None
    else if s[0] == QUOTE || s[0] == BACKSLASH || s[0] == 47 then Some(([s[0]], s[1..]))
    else if s[0] == 98 then Some(([8], s[1..]))
    else if s[0] == 102 then Some(([12], s[1..]))
    else if s[0] == 110 then Some(([10], s[1..]))
    else if s[0] == 114 then Some(([13], s[1..]))
    else if s[0] == 116 then Some(([9], s[1..]))
    else if s[0] == 117 && Unit(s[1..]) >= 0 && Scalar(Unit(s[1..])) then Some((EncodeScalar(Unit(s[1..])), s[5..]))
    else None
  }

  /** One character of a string. */
  function ReadChar(s: Bytes): (r: Option<(Bytes, Bytes)>)
    requires s != []
    ensures r.Some? ==> |r.value.1| < |s|
  {
    if s[0] == BACKSLASH then ReadEscape(s[1..])
    else if s[0] < 0x20 then None
    else if s[0] < 0x80 then Some(([s[0]], s[1..]))
    else if SequenceLength(s) == 0 then None
    else Some((s[..SequenceLength(s)], s[SequenceLength(s)..]))
  }

  /** The rest of a string after its opening quote. */
  function ReadChars(s: Bytes): (r: Option<(Bytes, Bytes)>)
    ensures r.Some? ==> |r.value.1| < |s|
    decreases |s|
  {
    if s == [] then None
    else if s[0] == QUOTE then Some(([], s[1..]))
    else
      match ReadChar(s)
      case None => None
      case Some((c, after)) =>
        match ReadChars(after)
        case None => None
        case Some((text, rest)) => Some((c + text, rest))
  }

  function ReadString(s: Bytes): (r: Option<(Bytes, Bytes)>)
    ensures r.Some? ==> |r.value.1| < |s|
  {
    if s == [] || s[0] != QUOTE then None else ReadChars(s[1..])
  }

  predicate Digit(c: Byte) { 48 <= c <= 57 }

  /** All digits there are. */
  function ReadDigits(s: Bytes, value: nat): (r: (nat, Bytes))
    ensures |r.1| <= |s| && (s != [] && Digit(s[0]) ==> |r.1| < |s|)
    decreases |s|
  {
    if s != [] && Digit(s[0]) then ReadDigits(s[1..], value * 10 + (s[0] - 48)) else (value, s)
  }

  function ReadNumber(s: Bytes): (r: Option<(int, Bytes)>)
    ensures r.Some? ==> |r.value.1| < |s|
  {
    var negative := s != [] && s[0] == MINUS;
    var digits := if negative then s[1..] else s;
    if digits == [] || !Digit(digits[0]) || (digits[0] == 48 && |digits| > 1 && Digit(digits[1])) then None
    else
      var (value, rest) := ReadDigits(digits, 0);
      Some((if negative then 0 - value else value, rest))
  }

  predicate Starts(s: Bytes, p: Bytes) { |p| <= |s| && s[..|p|] == p }

  function ReadValue(s: Bytes): (r: Option<(Value, Bytes)>)
    ensures r.Some? ==> |r.value.1| < |s|
  {
    if s != [] && s[0] == QUOTE then
      match ReadString(s) case None => None case Some((text, rest)) => Some((Text(text), rest))
    else if Starts(s, TrueText()) then Some((Truth(true), s[4..]))
    else if Starts(s, FalseText()) then Some((Truth(false), s[5..]))
    else match ReadNumber(s) case None => None case Some((n, rest)) => Some((Number(n), rest))
  }

  function ReadMember(s: Bytes): (r: Option<(Member, Bytes)>)
    ensures r.Some? ==> |r.value.1| < |s|
  {
    match ReadString(s)
    case None => None
    case Some((key, after)) =>
      if after == [] || after[0] != COLON then None
      else match ReadValue(after[1..]) case None => None case Some((value, rest)) => Some((Member(key, value), rest))
  }

  /** The members up to the closing brace, and what follows it. */
  function ReadMembers(s: Bytes): (r: Option<(seq<Member>, Bytes)>)
    decreases |s|
  {
    match ReadMember(s)
    case None => None
    case Some((m, after)) =>
      if after != [] && after[0] == CLOSE then Some(([m], after[1..]))
      else if after != [] && after[0] == COMMA then
        match ReadMembers(after[1..]) case None => None case Some((ms, rest)) => Some(([m] + ms, rest))
      else None
  }

  /** Exactly one object and nothing after it. */
  function ReadObject(s: Bytes): Option<seq<Member>> {
    if s == [] || s[0] != OPEN then None
    else if |s| == 2 && s[1] == CLOSE then Some([])
    else match ReadMembers(s[1..]) case None => None case Some((ms, rest)) => if rest == [] then Some(ms) else None
  }
}

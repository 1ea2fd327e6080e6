/** Request targets: percent escapes, query strings, and splitting a target into decoded parts. */
module UriSpec {
  import opened Common

  const SLASH: Byte := 47
  const PERCENT: Byte := 37
  const QUESTION: Byte := 63
  const AMPERSAND: Byte := 38
  const EQUALS: Byte := 61

  const BAD_ESCAPE: string := "uri: malformed percent escape"
  const BAD_TARGET: string := "uri: request target must start with '/'"

  // ----- percent escapes -----

  predicate Unreserved(c: Byte) {
    65 <= c <= 90 || 97 <= c <= 122 || 48 <= c <= 57 || c == 45 || c == 95 || c == 46 || c == 126
  }

  function HexDigit(d: nat): Byte
    requires d < 16
  {
    if d < 10 then 48 + d else 55 + d
  }

  function HexValue(c: Byte): int {
    if 48 <= c <= 57 then c - 48 else if 65 <= c <= 70 then c - 55 else if 97 <= c <= 102 then c - 87 else -1
  }

  function EncodeByte(c: Byte, keepSlash: bool): (r: Bytes)
    ensures r != []
  {
    if Unreserved(c) || (keepSlash && c == SLASH) then [c] else [PERCENT, HexDigit(c / 16), HexDigit(c % 16)]
  }

  function Encode(s: Bytes, keepSlash: bool): Bytes {
    if s == [] then [] else EncodeByte(s[0], keepSlash) + Encode(s[1..], keepSlash)
  }

  function EscapeAt(s: Bytes, i: nat): int {
    if i < |s| then HexValue(s[i]) else -1
  }

  function PercentDecode(s: Bytes): Outcome<Bytes>
    decreases |s|
  {
    if s == [] then Ok([])
    else if s[0] != PERCENT then
      var rest :- PercentDecode(s[1..]);
      Ok([s[0]] + rest)
    else
      var high, low := EscapeAt(s, 1), EscapeAt(s, 2);
      if high < 0 || low < 0 then Err(BAD_ESCAPE)
      else
        var rest :- PercentDecode(s[3..]);
        Ok([high * 16 + low] + rest)
  }

  // ----- splitting and joining -----

  function Split(s: Bytes, sep: Byte): (r: seq<Bytes>)
    ensures r != []
    decreases |s|
  {
    match Find(s, [sep])
    case None => [s]
    case Some(k) => [s[..k]] + Split(s[k + 1..], sep)
  }

  function Join(parts: seq<Bytes>, sep: Byte): Bytes {
    if parts == [] then [] else if |parts| == 1 then parts[0] else parts[0] + [sep] + Join(parts[1..], sep)
  }

  function DecodeAll(parts: seq<Bytes>): Outcome<seq<Bytes>> {
    if parts == [] then Ok([])
    else
      var first :- PercentDecode(parts[0]);
      var rest :- DecodeAll(parts[1..]);
      Ok([first] + rest)
  }

  // ----- request targets -----

  type Parameter = (Bytes, Bytes)

  datatype Target = Target(segments: seq<Bytes>, query: seq<Parameter>)

  /** The path without its leading slash; a trailing slash leaves an empty segment. */
  function ParsePath(path: Bytes): Outcome<seq<Bytes>> {
    if path == [] then Ok([]) else DecodeAll(Split(path, SLASH))
  }

  function ParseParameter(pair: Bytes): Outcome<Parameter> {
    var eq := Find(pair, [EQUALS]);
    var key :- PercentDecode(if eq.None? then pair else pair[..eq.value]);
    var value :- PercentDecode(if eq.None? then [] else pair[eq.value + 1..]);
    Ok((key, value))
  }

  function ParseParameters(pairs: seq<Bytes>): Outcome<seq<Parameter>> {
    if pairs == [] then Ok([])
    else if pairs[0] == [] then ParseParameters(pairs[1..])
    else
      var first :- ParseParameter(pairs[0]);
      var rest :- ParseParameters(pairs[1..]);
      Ok([first] + rest)
  }

  function ParseQuery(query: Bytes): Outcome<seq<Parameter>> {
    ParseParameters(Split(query, AMPERSAND))
  }

  function ParseTarget(target: Bytes): Outcome<Target> {
    var question := Find(target, [QUESTION]);
    var path := if question.None? then target else target[..question.value];
    var query := if question.None? then [] else target[question.value + 1..];
    if path == [] || path[0] != SLASH then Err(BAD_TARGET)
    else
      var segments :- ParsePath(path[1..]);
      var parameters :- ParseQuery(query);
      Ok(Target(segments, parameters))
  }

  // ----- query strings -----

  /** One `Add` or `AddFlag`, before encoding. */
  datatype Param = Valued(key: Bytes, value: Bytes) | Flag(key: Bytes)

  function ParamText(p: Param): Bytes {
    match p
    case Valued(key, value) => Encode(key, false) + [EQUALS] + Encode(value, false)
    case Flag(key) => Encode(key, false)
  }

  function ParamTexts(ps: seq<Param>): seq<Bytes> {
    if ps == [] then [] else [ParamText(ps[0])] + ParamTexts(ps[1..])
  }

  function QueryText(ps: seq<Param>): Bytes {
    if ps == [] then [] else [QUESTION] + Join(ParamTexts(ps), AMPERSAND)
  }
}

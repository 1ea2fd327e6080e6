/** HTTP/1.1 messages: the request writer, and the reader as functions of the chunks a connection delivers. */
module Http1Spec {
  import opened Common

  const CR: Byte := 13
  const LF: Byte := 10
  const SPACE: Byte := 32
  const TAB: Byte := 9
  const COLON: Byte := 58

  const CRLF: Bytes := [CR, LF]
  const BLANK: Bytes := [CR, LF, CR, LF]

  /** The reader gives up on a header section that has not ended within so many bytes. */
  const MAX_HEADER: nat := 65536

  /** How much one read asks for. */
  const READ_SIZE: nat := 8192

  const MAX_U64: nat := 0xFFFF_FFFF_FFFF_FFFF

  // ----- header fields -----

  datatype Field = Field(name: Bytes, value: Bytes)

  function Lower(c: Byte): Byte {
    if 65 <= c <= 90 then c + 32 else c
  }

  predicate SameName(a: Bytes, b: Bytes) {
    |a| == |b| && forall i | 0 <= i < |a| :: Lower(a[i]) == Lower(b[i])
  }

  /** Every value of a name, in order. */
  function Values(fields: seq<Field>, name: Bytes): seq<Bytes> {
    if fields == [] then []
    else (if SameName(fields[0].name, name) then [fields[0].value] else []) + Values(fields[1..], name)
  }

  predicate Blank(c: Byte) { c == SPACE || c == TAB }

  function TrimLeft(s: Bytes): Bytes {
    if s != [] && Blank(s[0]) then TrimLeft(s[1..]) else s
  }

  function TrimRight(s: Bytes): Bytes {
    if s != [] && Blank(s[|s| - 1]) then TrimRight(s[..|s| - 1]) else s
  }

  function Trim(s: Bytes): Bytes { TrimRight(TrimLeft(s)) }

  predicate ValidName(name: Bytes) {
    name != [] && forall c | c in name :: c > 32 && c != 127 && c != COLON
  }

  predicate ValidValue(value: Bytes) {
    forall c | c in value :: c == TAB || (c >= 32 && c != 127)
  }

  predicate ValidLineField(field: Bytes) {
    forall c | c in field :: c > 32 && c != 127
  }

  // ----- the head of a message -----

  datatype Message = Message(startLine: Bytes, headers: seq<Field>, body: Bytes)

  const MALFORMED: string := "http: malformed header line"
  const CONFLICTING: string := "http: conflicting content-length"
  const TRANSFER_ENCODING: string := "http: transfer-encoding is not supported"
  const INVALID_LENGTH: string := "http: invalid content-length"
  const TOO_LARGE: string := "http: headers too large"
  const READ_FAILED: string := "http: read failed"
  const CLOSED_MID_HEADERS: string := "http: connection closed mid-headers"
  const CLOSED_MID_BODY: string := "http: connection closed mid-body"
  const EXCESS: string := "http: excess body bytes"

  function Text(s: Bytes): string {
    seq(|s|, i requires 0 <= i < |s| => s[i] as char)
  }

  function BodyTooLarge(cap: nat): string {
    "http: response body exceeds max_response_bytes (" + Text(Decimal(cap)) + " bytes)"
  }

  function ParseField(line: Bytes): Outcome<Field> {
    match Find(line, [COLON])
    case None => Err(MALFORMED)
    case Some(colon) => Ok(Field(line[..colon], Trim(line[colon + 1..])))
  }

  /** The lines of a header block; the last one has no line end of its own. */
  function ParseFields(block: Bytes): Outcome<seq<Field>>
    decreases |block|
  {
    if block == [] then Ok([])
    else
      match Find(block, CRLF)
      case None => var field :- ParseField(block); Ok([field])
      case Some(eol) =>
        var field :- ParseField(block[..eol]);
        var fields :- ParseFields(block[eol + 2..]);
        Ok([field] + fields)
  }

  function ParseHead(head: Bytes): Outcome<(Bytes, seq<Field>)> {
    match Find(head, CRLF)
    case None => Ok((head, []))
    case Some(eol) =>
      var fields :- ParseFields(head[eol + 2..]);
      Ok((head[..eol], fields))
  }

  // ----- what frames the body -----

  /** What follows the head: nothing that counts, so many bytes, everything, or what happened to come with it. */
  datatype Framing = NoBody | Sized(n: nat) | ToEnd | Surplus

  function ContentLength(): Bytes { Ascii("content-length") }

  function TransferEncoding(): Bytes { Ascii("transfer-encoding") }

  predicate AllDigits(s: Bytes) {
    forall i | 0 <= i < |s| :: 48 <= s[i] <= 57
  }

  function NumberOf(s: Bytes): nat
    requires AllDigits(s)
  {
    if s == [] then 0 else NumberOf(s[..|s| - 1]) * 10 + (s[|s| - 1] - 48)
  }

  /** `strtoull`: what does not fit becomes the largest number that does. */
  function Clamped(n: nat): nat {
    if n > MAX_U64 then MAX_U64 else n
  }

  /** Which framing the caller asked for. */
  datatype Mode = Mode(untilEof: bool, hasBody: bool, cap: nat)

  function FramingOf(fields: seq<Field>, mode: Mode): Outcome<Framing> {
    var lengths := Values(fields, ContentLength());
    if |lengths| > 1 then Err(CONFLICTING)
    else if Values(fields, TransferEncoding()) != [] then Err(TRANSFER_ENCODING)
    else if !mode.hasBody then Ok(NoBody)
    else if lengths != [] then
      if lengths[0] == [] || !AllDigits(lengths[0]) then Err(INVALID_LENGTH)
      else if Clamped(NumberOf(lengths[0])) > mode.cap then Err(BodyTooLarge(mode.cap))
      else Ok(Sized(Clamped(NumberOf(lengths[0]))))
    else if mode.untilEof then Ok(ToEnd)
    else Ok(Surplus)
  }

  // ----- reading chunk by chunk -----

  /** What `recv` says once the chunks are used up: end of stream, or an error. */
  datatype Ending = Closed | Broken

  /** Reads until the buffer holds a blank line. */
  function ReadHead(buffer: Bytes, chunks: seq<Bytes>, ending: Ending): (r: Outcome<(Bytes, seq<Bytes>)>)
    ensures r.Ok? ==> Find(r.value.0, BLANK).Some?
    decreases |chunks|
  {
    if Find(buffer, BLANK).Some? then Ok((buffer, chunks))
    else if |buffer| > MAX_HEADER then Err(TOO_LARGE)
    else if chunks == [] then Err(if ending.Broken? then READ_FAILED else CLOSED_MID_HEADERS)
    else ReadHead(buffer + chunks[0], chunks[1..], ending)
  }

  function ReadSized(body: Bytes, n: nat, chunks: seq<Bytes>): Outcome<Bytes>
    decreases |chunks|
  {
    if |body| >= n then if |body| == n then Ok(body) else Err(EXCESS)
    else if chunks == [] then Err(CLOSED_MID_BODY)
    else ReadSized(body + chunks[0], n, chunks[1..])
  }

  function ReadToEnd(body: Bytes, cap: nat, chunks: seq<Bytes>, ending: Ending): Outcome<Bytes>
    decreases |chunks|
  {
    if |body| > cap then Err(BodyTooLarge(cap))
    else if chunks == [] then if ending.Broken? then Err(READ_FAILED) else Ok(body)
    else ReadToEnd(body + chunks[0], cap, chunks[1..], ending)
  }

  function ReadBody(framing: Framing, body: Bytes, cap: nat, chunks: seq<Bytes>, ending: Ending): Outcome<Bytes> {
    match framing
    case NoBody => Ok([])
    case Sized(n) => ReadSized(body, n, chunks)
    case ToEnd => ReadToEnd(body, cap, chunks, ending)
    case Surplus => Ok(body)
  }

  /** The rest of the work once the head is in the buffer. */
  function ReadOn(buffer: Bytes, chunks: seq<Bytes>, ending: Ending, mode: Mode): Outcome<Message>
    requires Find(buffer, BLANK).Some?
  {
    var end := Find(buffer, BLANK).value;
    var (line, fields) :- ParseHead(buffer[..end]);
    var framing :- FramingOf(fields, mode);
    var body :- ReadBody(framing, buffer[end + 4..], mode.cap, chunks, ending);
    Ok(Message(line, fields, body))
  }

  function ReadMessage(chunks: seq<Bytes>, ending: Ending, mode: Mode): Outcome<Message> {
    var (buffer, rest) :- ReadHead([], chunks, ending);
    ReadOn(buffer, rest, ending, mode)
  }

  /** The chunks a connection may deliver for the bytes s: no read is empty or longer than asked for. */
  predicate Slices(chunks: seq<Bytes>, s: Bytes) {
    Concat(chunks) == s && forall k | 0 <= k < |chunks| :: 0 < |chunks[k]| <= READ_SIZE
  }

  function Concat(chunks: seq<Bytes>): Bytes {
    if chunks == [] then [] else chunks[0] + Concat(chunks[1..])
  }

  // ----- writing -----

  datatype Request = Request(method_: Bytes, target: Bytes, headers: seq<Field>, body: Bytes)

  const BAD_METHOD: string := "http: request method contains forbidden bytes or is empty"
  const BAD_TARGET: string := "http: request target contains forbidden bytes"

  function BadHeader(name: Bytes): string {
    "http: request header \"" + Text(name) + "\" contains forbidden bytes"
  }

  predicate Safe(f: Field) { ValidName(f.name) && ValidValue(f.value) }

  /** The name of the first header that must not be written. */
  function UnsafeHeader(fields: seq<Field>): (r: Option<Bytes>)
    ensures r.None? <==> forall k | 0 <= k < |fields| :: Safe(fields[k])
  {
    if fields == [] then None
    else if !Safe(fields[0]) then Some(fields[0].name)
    else
      assert forall k | 1 <= k < |fields| :: fields[k] == fields[1..][k - 1];
      UnsafeHeader(fields[1..])
  }

  function StartLine(r: Request): Bytes {
    r.method_ + [SPACE] + r.target + Version()
  }

  function Version(): (v: Bytes)
    ensures v != [] && v[0] == SPACE && CR !in v
  {
    hide Ascii;
    Ascii(" HTTP/1.1")
  }

  /** The fields on the wire: the transport's own, then the caller's. host is the host and port. */
  function SentFields(r: Request, host: Bytes): seq<Field> {
    [Field(Host(), host)] +
    (if Values(r.headers, ContentLength()) == [] then [Field(ContentLength(), Decimal(|r.body|))] else []) +
    [CloseField()] + r.headers
  }

  function Host(): Bytes { Ascii("host") }

  function CloseField(): Field { Field(Ascii("connection"), Ascii("close")) }

  function FieldLine(f: Field): Bytes { f.name + [COLON, SPACE] + f.value }

  function FieldLines(fields: seq<Field>): Bytes {
    if fields == [] then [] else FieldLine(fields[0]) + CRLF + FieldLines(fields[1..])
  }

  function Wire(r: Request, host: Bytes): Bytes {
    StartLine(r) + CRLF + FieldLines(SentFields(r, host)) + CRLF + r.body
  }

  /** What `Send` puts on the wire, or why it refuses. */
  function Written(r: Request, host: Bytes): Outcome<Bytes> {
    if r.method_ == [] || !ValidLineField(r.method_) then Err(BAD_METHOD)
    else if !ValidLineField(r.target) then Err(BAD_TARGET)
    else
      match UnsafeHeader(r.headers)
      case Some(name) => Err(BadHeader(name))
      case None => Ok(Wire(r, host))
  }

  /** Method and target of a request line. */
  function ParseRequestLine(line: Bytes): Option<(Bytes, Bytes)> {
    match Find(line, [SPACE])
    case None => None
    case Some(first) =>
      match FindFrom(line, [SPACE], first + 1)
      case None => None
      case Some(second) => Some((line[..first], line[first + 1..second]))
  }
}

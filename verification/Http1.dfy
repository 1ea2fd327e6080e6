/** `ReadHttp1Message` over a connection, the headers it fills in, and the request writer. */
module Http1 {
  import opened Common
  import opened Http1Spec
  import opened Http1Slicing
  import opened Http1RoundTrip

  /** What is left for `recv` to deliver. */
  class Connection {
    var chunks: seq<Bytes>
    const ending: Ending

    constructor (chunks: seq<Bytes>, ending: Ending)
      ensures this.chunks == chunks && this.ending == ending
    {
      this.chunks, this.ending := chunks, ending;
    }

    /** received is the number of bytes, 0 at the end of the stream, negative for an error. */
    method Read() returns (received: int, bytes: Bytes)
      requires Reads(chunks)
      modifies this`chunks
      ensures Reads(chunks)
      ensures if old(chunks) == [] then chunks == [] && bytes == [] && received == (if ending.Broken? then -1 else 0)
              else bytes == old(chunks)[0] && received == |bytes| && received > 0 && chunks == old(chunks)[1..]
    {
      if chunks == [] {
        return if ending.Broken? then -1 else 0, [];
      }
      bytes := chunks[0];
      received := |bytes|;
      chunks := chunks[1..];
    }
  }

  /** `Headers`: fields in order, names compared without regard to case. */
  class Headers {
    var entries: seq<Field>

    constructor ()
      ensures entries == []
    {
      entries := [];
    }

    method Add(name: Bytes, value: Bytes)
      modifies this
      ensures entries == old(entries) + [Field(name, value)]
    {
      entries := entries + [Field(name, value)];
    }

    method GetAll(name: Bytes) returns (values: seq<Bytes>)
      ensures values == Values(entries, name)
    {
      hide SameName;
      values := [];
      for i := 0 to |entries|
        invariant values == Values(entries[..i], name)
      {
        assert entries[..i + 1] == entries[..i] + [entries[i]];
        ValuesOfBoth(entries[..i], [entries[i]], name);
        OneValue(entries[i], name);
        if SameName(entries[i].name, name) {
          values := values + [entries[i].value];
        }
      }
      assert entries[..|entries|] == entries;
    }

    method Get(name: Bytes) returns (value: Option<Bytes>)
      ensures value == if Values(entries, name) == [] then None else Some(Values(entries, name)[0])
    {
      hide SameName;
      for i := 0 to |entries|
        invariant Values(entries, name) == Values(entries[i..], name)
      {
        assert entries[i..][1..] == entries[i + 1..];
        if SameName(entries[i].name, name) {
          return Some(entries[i].value);
        }
      }
      return None;
    }
  }

  method TrimBlanks(text: Bytes) returns (value: Bytes)
    ensures value == Trim(text)
  {
    value := text;
    while value != [] && Blank(value[0])
      invariant TrimLeft(value) == TrimLeft(text)
      decreases |value|
    {
      value := value[1..];
    }
    while value != [] && Blank(value[|value| - 1])
      invariant TrimRight(value) == TrimRight(TrimLeft(text))
      decreases |value|
    {
      value := value[..|value| - 1];
    }
  }

  method ReadHeadBytes(connection: Connection) returns (r: Outcome<(Bytes, nat)>)
    requires Reads(connection.chunks)
    modifies connection
    ensures Reads(connection.chunks)
    ensures match ReadHead([], old(connection.chunks), connection.ending)
            case Err(e) => r == Err(e)
            case Ok((buffer, rest)) => r.Ok? && r.value.0 == buffer && Find(buffer, BLANK) == Some(r.value.1) && rest == connection.chunks
  {
    hide Find;
    var buffer: Bytes := [];
    var headerEnd := None;
    NothingFound();
    while headerEnd.None?
      invariant Reads(connection.chunks) && headerEnd == Find(buffer, BLANK)
      invariant ReadHead(buffer, connection.chunks, connection.ending) == ReadHead([], old(connection.chunks), connection.ending)
      decreases |connection.chunks|, headerEnd.None?
    {
      if |buffer| > MAX_HEADER {
        return Err(TOO_LARGE);
      }
      var received, bytes := connection.Read();
      if received < 0 {
        return Err(READ_FAILED);
      }
      if received == 0 {
        return Err(CLOSED_MID_HEADERS);
      }
      buffer := buffer + bytes;
      headerEnd := Find(buffer, BLANK);
    }
    return Ok((buffer, headerEnd.value));
  }

  lemma NothingFound()
    ensures Find([], BLANK).None?
  {
  }

  lemma FieldFirst(block: Bytes, line: Bytes, rest: Bytes)
    requires block != []
    requires match Find(block, CRLF)
             case None => line == block && rest == []
             case Some(eol) => eol + 2 <= |block| && line == block[..eol] && rest == block[eol + 2..]
    ensures ParseFields(block) ==
            match ParseField(line) case Err(e) => Err(e) case Ok(field) => Prepend([field], ParseFields(rest))
  {
    hide Find, ParseField;
    if Find(block, CRLF).None? && ParseField(line).Ok? {
      assert ParseFields([]) == Ok([]) && [ParseField(line).value] + [] == [ParseField(line).value];
    }
  }

  /** One header line: the name up to the colon, the value trimmed. */
  method AddLine(headers: Headers, line: Bytes) returns (ok: bool)
    modifies headers
    ensures match ParseField(line)
            case Err(e) => !ok && e == MALFORMED
            case Ok(field) => ok && headers.entries == old(headers.entries) + [field]
  {
    hide Find, Trim;
    var colon := Find(line, [COLON]);
    if colon.None? {
      return false;
    }
    var value := TrimBlanks(line[colon.value + 1..]);
    headers.Add(line[..colon.value], value);
    return true;
  }

  method FillBlock(headers: Headers, all: Bytes) returns (ok: bool)
    requires headers.entries == []
    modifies headers
    ensures match ParseFields(all)
            case Err(e) => !ok && e == MALFORMED
            case Ok(fields) => ok && headers.entries == fields
  {
    hide ParseFields, Find, ParseField;
    var block := all;
    PrependTwice([], [], ParseFields(all));
    while block != []
      invariant ParseFields(all) == Prepend(headers.entries, ParseFields(block))
      decreases |block|
    {
      var eol := Find(block, CRLF);
      var line := if eol.None? then block else block[..eol.value];
      var rest := if eol.None? then [] else block[eol.value + 2..];
      FieldFirst(block, line, rest);
      ghost var done := headers.entries;
      ok := AddLine(headers, line);
      if !ok {
        return;
      }
      PrependTwice(done, [ParseField(line).value], ParseFields(rest));
      block := rest;
    }
    NothingLeft(headers.entries);
    ok := true;
  }

  method FillHeaders(headers: Headers, head: Bytes) returns (r: Outcome<Bytes>)
    requires headers.entries == []
    modifies headers
    ensures match ParseHead(head)
            case Err(e) => r == Err(e)
            case Ok((line, fields)) => r == Ok(line) && headers.entries == fields
  {
    hide ParseFields, Find;
    var lineEnd := Find(head, CRLF);
    if lineEnd.None? {
      return Ok(head);
    }
    var ok := FillBlock(headers, head[lineEnd.value + 2..]);
    return if ok then Ok(head[..lineEnd.value]) else Err(MALFORMED);
  }

  lemma NothingLeft(done: seq<Field>)
    ensures ParseFields([]) == Ok([]) && Prepend(done, ParseFields([])) == Ok(done)
  {
    assert done + [] == done;
  }

  /** The body loops: until the declared length, or to the end of the stream. */
  method ReadSizedBody(connection: Connection, start: Bytes, n: nat) returns (r: Outcome<Bytes>)
    requires Reads(connection.chunks)
    modifies connection
    ensures r == ReadSized(start, n, old(connection.chunks))
  {
    var body := start;
    while |body| < n
      invariant Reads(connection.chunks) && ReadSized(body, n, connection.chunks) == ReadSized(start, n, old(connection.chunks))
      decreases |connection.chunks|
    {
      var received, bytes := connection.Read();
      if received <= 0 {
        return Err(CLOSED_MID_BODY);
      }
      body := body + bytes;
    }
    return if |body| != n then Err(EXCESS) else Ok(body);
  }

  method ReadEndlessBody(connection: Connection, start: Bytes, cap: nat) returns (r: Outcome<Bytes>)
    requires Reads(connection.chunks)
    modifies connection
    ensures r == ReadToEnd(start, cap, old(connection.chunks), connection.ending)
  {
    hide BodyTooLarge;
    var body := start;
    while true
      invariant Reads(connection.chunks)
      invariant ReadToEnd(body, cap, connection.chunks, connection.ending) ==
                ReadToEnd(start, cap, old(connection.chunks), connection.ending)
      decreases |connection.chunks|
    {
      if |body| > cap {
        return Err(BodyTooLarge(cap));
      }
      var received, bytes := connection.Read();
      if received < 0 {
        return Err(READ_FAILED);
      }
      if received == 0 {
        return Ok(body);
      }
      body := body + bytes;
    }
  }

  /** The checks made before a body length is trusted. */
  method CheckFraming(headers: Headers, mode: Mode) returns (r: Outcome<Framing>)
    ensures r == FramingOf(headers.entries, mode)
  {
    hide Values, BodyTooLarge, NumberOf, ContentLength, TransferEncoding;
    var lengths := headers.GetAll(ContentLength());
    if |lengths| > 1 {
      return Err(CONFLICTING);
    }
    var encodings := headers.GetAll(TransferEncoding());
    if encodings != [] {
      return Err(TRANSFER_ENCODING);
    }
    if !mode.hasBody {
      return Ok(NoBody);
    }
    var length := headers.Get(ContentLength());
    if length.None? {
      return Ok(if mode.untilEof then ToEnd else Surplus);
    }
    if length.value == [] || !AllDigits(length.value) {
      return Err(INVALID_LENGTH);
    }
    var n := Clamped(NumberOf(length.value));
    return if n > mode.cap then Err(BodyTooLarge(mode.cap)) else Ok(Sized(n));
  }

  method ReadHttp1Message(connection: Connection, mode: Mode) returns (r: Outcome<Message>)
    requires Reads(connection.chunks)
    modifies connection
    ensures r == ReadMessage(old(connection.chunks), connection.ending, mode)
  {
    hide Find, FramingOf, ParseHead, ReadHead, ReadSized, ReadToEnd;
    var found :- ReadHeadBytes(connection);
    var (buffer, end) := found;
    var headers := new Headers();
    var startLine :- FillHeaders(headers, buffer[..end]);
    var framing :- CheckFraming(headers, mode);
    var body := buffer[end + 4..];
    match framing {
      case NoBody => body := [];
      case Sized(n) => body :- ReadSizedBody(connection, body, n);
      case ToEnd => body :- ReadEndlessBody(connection, body, mode.cap);
      case Surplus =>
    }
    return Ok(Message(startLine, headers.entries, body));
  }

  lemma {:induction false} FieldLinesSnoc(fields: seq<Field>, f: Field)
    ensures FieldLines(fields + [f]) == FieldLines(fields) + FieldLine(f) + CRLF
  {
    if fields == [] {
      assert fields + [f] == [f] && FieldLines([f][1..]) == [];
    } else {
      assert (fields + [f])[1..] == fields[1..] + [f];
      FieldLinesSnoc(fields[1..], f);
    }
  }

  /** `FindUnsafeHeader` */
  method FindUnsafeHeader(fields: seq<Field>) returns (name: Option<Bytes>)
    ensures name == UnsafeHeader(fields)
  {
    hide Safe;
    for i := 0 to |fields|
      invariant UnsafeHeader(fields) == UnsafeHeader(fields[i..])
    {
      assert fields[i..][1..] == fields[i + 1..];
      if !Safe(fields[i]) {
        return Some(fields[i].name);
      }
    }
    return None;
  }

  /** The request writer of `SocketHttpClient::Send`; host is the host and port. */
  method WriteRequest(request: Request, host: Bytes) returns (r: Outcome<Bytes>)
    ensures r == Written(request, host)
  {
    hide Values, ValidLineField, UnsafeHeader, FieldLines;
    if request.method_ == [] || !ValidLineField(request.method_) {
      return Err(BAD_METHOD);
    }
    if !ValidLineField(request.target) {
      return Err(BAD_TARGET);
    }
    var unsafe := FindUnsafeHeader(request.headers);
    if unsafe.Some? {
      return Err(BadHeader(unsafe.value));
    }
    var wire := Splice(request, host);
    return Ok(wire);
  }

  method Splice(request: Request, host: Bytes) returns (wire: Bytes)
    ensures wire == Wire(request, host)
  {
    hide Values, FieldLines, StartLine, ContentLength, Host, CloseField, FieldLine;
    wire := StartLine(request) + CRLF;
    ghost var sent: seq<Field> := [];
    NoLines();
    wire, sent := AppendField(wire, sent, request, Field(Host(), host));
    if Values(request.headers, ContentLength()) == [] {
      wire, sent := AppendField(wire, sent, request, Field(ContentLength(), Decimal(|request.body|)));
    }
    wire, sent := AppendField(wire, sent, request, CloseField());
    ghost var own := sent;
    assert own == [Field(Host(), host)] + OwnLength(request) + [CloseField()];
    for i := 0 to |request.headers|
      invariant sent == own + request.headers[..i] && wire == StartLine(request) + CRLF + FieldLines(sent)
    {
      wire, sent := AppendField(wire, sent, request, request.headers[i]);
    }
    SentParts(request, host);
    assert sent == SentFields(request, host);
    wire := wire + CRLF + request.body;
  }

  lemma NoLines()
    ensures FieldLines([]) == []
  {
  }

  method AppendField(wire: Bytes, ghost sent: seq<Field>, request: Request, f: Field) returns (wire': Bytes, ghost sent': seq<Field>)
    requires wire == StartLine(request) + CRLF + FieldLines(sent)
    ensures sent' == sent + [f] && wire' == StartLine(request) + CRLF + FieldLines(sent')
  {
    hide FieldLines, StartLine;
    FieldLinesSnoc(sent, f);
    wire' := wire + f.name + [COLON, SPACE] + f.value + CRLF;
    sent' := sent + [f];
    assert wire' == wire + FieldLine(f) + CRLF;
  }
}

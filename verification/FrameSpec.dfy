/** The event-stream frame: its layout as functions, in both directions. */
module FrameSpec {
  import opened Common
  import opened Crc32
  import opened WireInts

  type Uuid = s: Octets | |s| == 16 witness [0, 0, 0, 0, 0, 0, 0, 0, 0, 0, 0, 0, 0, 0, 0, 0]

  datatype HeaderValue =
    | VBool(b: bool)
    | VByte(i8: Int8)
    | VShort(i16: Int16)
    | VInt(i32: Int32)
    | VLong(i64: Int64)
    | VBlob(blob: Octets)
    | VString(text: Octets)
    | VTimestamp(ms: Int64)
    | VUuid(uuid: Uuid)

  datatype Header = Header(name: Octets, value: HeaderValue)

  datatype Message = Message(headers: seq<Header>, payload: Octets)

  const PRELUDE: nat := 12
  const OVERHEAD: nat := 16
  const MAX_HEADERS: nat := 128 * 1024
  const MAX_MESSAGE: nat := 16 * 1024 * 1024

  // ----- header values -----

  /** The type tag and the value; None for a string or blob whose length does not fit 16 bits. */
  function EncodeValue(v: HeaderValue): (r: Option<Octets>)
    ensures r.Some? ==> r.value != []
  {
    Powers();
    match v
    case VBool(b) => Some([if b then 0 else 1])
    case VByte(x) => Some([2] + WriteSigned(x, 1))
    case VShort(x) => Some([3] + WriteSigned(x, 2))
    case VInt(x) => Some([4] + WriteSigned(x, 4))
    case VLong(x) => Some([5] + WriteSigned(x, 8))
    case VBlob(s) => if |s| > 0xFFFF then None else Some([6] + BigEndian(|s|, 2) + s)
    case VString(s) => if |s| > 0xFFFF then None else Some([7] + BigEndian(|s|, 2) + s)
    case VTimestamp(x) => Some([8] + WriteSigned(x, 8))
    case VUuid(s) => Some([9] + s)
  }

  /** A 16-bit length and that many bytes. */
  function Counted(s: Octets): (r: Option<(Octets, Octets)>)
    ensures r.Some? ==> |r.value.1| + |r.value.0| + 2 == |s|
  {
    match Fixed(s, 2)
    case None => None
    case Some((count, rest)) => Fixed(rest, FromBigEndian(count))
  }

  function DecodeValue(s: Octets): (r: Option<(HeaderValue, Octets)>)
    ensures r.Some? ==> |r.value.1| < |s|
  {
    Powers();
    if s == [] then None
    else
      var t := s[1..];
      match FromOctet(s[0])
      case 0 => Some((VBool(true), t))
      case 1 => Some((VBool(false), t))
      case 2 => (match Fixed(t, 1) case None => None case Some((b, rest)) => Some((VByte(ReadSigned(b)), rest)))
      case 3 => (match Fixed(t, 2) case None => None case Some((b, rest)) => Some((VShort(ReadSigned(b)), rest)))
      case 4 => (match Fixed(t, 4) case None => None case Some((b, rest)) => Some((VInt(ReadSigned(b)), rest)))
      case 5 => (match Fixed(t, 8) case None => None case Some((b, rest)) => Some((VLong(ReadSigned(b)), rest)))
      case 6 => (match Counted(t) case None => None case Some((b, rest)) => Some((VBlob(b), rest)))
      case 7 => (match Counted(t) case None => None case Some((b, rest)) => Some((VString(b), rest)))
      case 8 => (match Fixed(t, 8) case None => None case Some((b, rest)) => Some((VTimestamp(ReadSigned(b)), rest)))
      case 9 => (match Fixed(t, 16) case None => None case Some((b, rest)) => Some((VUuid(b), rest)))
      case _ => None
  }

  // ----- header blocks -----

  const BAD_NAME: string := "eventstream: header name must be 1..255 bytes"
  const BAD_VALUE: string := "eventstream: header value over 64 KiB: "

  /** Bytes as they appear in an error's text. */
  function Chars(s: Octets): (r: string)
    ensures |r| == |s|
  {
    seq(|s|, i requires 0 <= i < |s| => FromOctet(s[i]) as char)
  }

  function EncodeHeader(h: Header): (r: Outcome<Octets>)
    ensures r.Ok? ==> r.value != []
  {
    if h.name == [] || |h.name| > 255 then Err(BAD_NAME)
    else
      match EncodeValue(h.value)
      case None => Err(BAD_VALUE + Chars(h.name))
      case Some(v) => Ok([ToOctet(|h.name|)] + h.name + v)
  }

  function EncodeHeaders(hs: seq<Header>): Outcome<Octets> {
    if hs == [] then Ok([])
    else
      var first :- EncodeHeader(hs[0]);
      var rest :- EncodeHeaders(hs[1..]);
      Ok(first + rest)
  }

  const MALFORMED_NAME: string := "eventstream: malformed header name"
  const MALFORMED_VALUE: string := "eventstream: malformed header value"

  function DecodeHeader(s: Octets): (r: Outcome<(Header, Octets)>)
    requires s != []
    ensures r.Ok? ==> |r.value.1| < |s|
  {
    var n := FromOctet(s[0]);
    if n == 0 || |s| - 1 < n then Err(MALFORMED_NAME)
    else
      match DecodeValue(s[1 + n..])
      case None => Err(MALFORMED_VALUE)
      case Some((v, rest)) => Ok((Header(s[1..1 + n], v), rest))
  }

  function DecodeHeaders(s: Octets): Outcome<seq<Header>>
    decreases |s|
  {
    if s == [] then Ok([])
    else
      var (h, rest) :- DecodeHeader(s);
      var hs :- DecodeHeaders(rest);
      Ok([h] + hs)
  }

  // ----- frames -----

  const HEADERS_TOO_LARGE: string := "eventstream: header block over the 128 KiB limit"
  const MESSAGE_TOO_LARGE: string := "eventstream: message over the 16 MiB limit"

  function CrcBytes(crc: bv32): (r: Octets)
    ensures |r| == 4
  {
    [((crc >> 24) & 0xFF) as Octet, ((crc >> 16) & 0xFF) as Octet, ((crc >> 8) & 0xFF) as Octet, (crc & 0xFF) as Octet]
  }

  function WithCrc(s: Octets): Octets {
    s + CrcBytes(Crc(s))
  }

  function Prelude(total: nat, headers: nat): (r: Octets)
    ensures |r| == PRELUDE
  {
    WithCrc(BigEndian(total, 4) + BigEndian(headers, 4))
  }

  function FrameOf(block: Octets, payload: Octets): (r: Octets)
    ensures |r| == OVERHEAD + |block| + |payload|
  {
    WithCrc(Prelude(OVERHEAD + |block| + |payload|, |block|) + block + payload)
  }

  function Encode(m: Message): Outcome<Octets> {
    var block :- EncodeHeaders(m.headers);
    if |block| > MAX_HEADERS then Err(HEADERS_TOO_LARGE)
    else if OVERHEAD + |block| + |m.payload| > MAX_MESSAGE then Err(MESSAGE_TOO_LARGE)
    else Ok(FrameOf(block, m.payload))
  }

  const BAD_PRELUDE_CRC: string := "eventstream: prelude CRC mismatch"
  const BAD_LENGTHS: string := "eventstream: declared lengths out of bounds"
  const BAD_MESSAGE_CRC: string := "eventstream: message CRC mismatch"

  function ReadCrc(s: Octets): bv32
    requires |s| == 4
  {
    (((s[0] as bv32) << 24) | ((s[1] as bv32) << 16)) | (((s[2] as bv32) << 8) | (s[3] as bv32))
  }

  function Total(buffer: Octets): nat
    requires |buffer| >= PRELUDE
  {
    FromBigEndian(buffer[..4])
  }

  function HeadersLength(buffer: Octets): nat
    requires |buffer| >= PRELUDE
  {
    FromBigEndian(buffer[4..8])
  }

  predicate LengthsOk(total: nat, headers: nat) {
    OVERHEAD <= total <= MAX_MESSAGE && headers <= MAX_HEADERS && headers <= total - OVERHEAD
  }

  /** A message decoded from the front of the buffer with its frame's length; None asks for more bytes. */
  function Decode(buffer: Octets): (r: Outcome<Option<(Message, nat)>>)
    ensures r.Ok? && r.value.Some? ==> OVERHEAD <= r.value.value.1 <= |buffer|
  {
    if |buffer| < PRELUDE then Ok(None)
    else if Crc(buffer[..8]) != ReadCrc(buffer[8..12]) then Err(BAD_PRELUDE_CRC)
    else
      var total, headers := Total(buffer), HeadersLength(buffer);
      if !LengthsOk(total, headers) then Err(BAD_LENGTHS)
      else if |buffer| < total then Ok(None)
      else if Crc(buffer[..total - 4]) != ReadCrc(buffer[total - 4..total]) then Err(BAD_MESSAGE_CRC)
      else
        var hs :- DecodeHeaders(buffer[PRELUDE..PRELUDE + headers]);
        Ok(Some((Message(hs, buffer[PRELUDE + headers..total - 4]), total)))
  }
}

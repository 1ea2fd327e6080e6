/** The frame codec is a bijection, is incremental, and lets no single changed byte through. */
module FrameProps {
  import opened Common
  import opened Crc32
  import opened FrameSpec
  import opened WireInts

  // ----- values and headers, both ways -----

  lemma ReadCounted(s: Octets, rest: Octets)
    requires |s| <= 0xFFFF
    ensures Counted(BigEndian(|s|, 2) + s + rest) == Some((s, rest))
  {
    hide BigEndian, FromBigEndian, Pow256, Fixed;
    Powers();
    ReadWritten(|s|, 2);
    assert BigEndian(|s|, 2) + s + rest == BigEndian(|s|, 2) + (s + rest);
    FixedOf(BigEndian(|s|, 2), s + rest);
    FixedOf(s, rest);
  }

  lemma ReadSignedValue(v: int, n: nat, rest: Octets)
    requires 0 < n && -(Pow256(n) / 2) <= v < Pow256(n) / 2
    ensures Fixed(WriteSigned(v, n) + rest, n) == Some((WriteSigned(v, n), rest))
    ensures ReadSigned(WriteSigned(v, n)) == v
  {
    FixedOf(WriteSigned(v, n), rest);
    SignedRoundTrip(v, n);
  }

  /** A written value is read back, whatever follows it. */
  lemma ValueRoundTrip(v: HeaderValue, rest: Octets)
    ensures EncodeValue(v).Some? ==> DecodeValue(EncodeValue(v).value + rest) == Some((v, rest))
  {
    hide WriteSigned, ReadSigned, BigEndian, Fixed, Counted, Pow256;
    Powers();
    if EncodeValue(v).Some? {
      var s := EncodeValue(v).value + rest;
      match v
      case VBool(_) => assert s[1..] == rest;
      case VByte(x) => ReadSignedValue(x, 1, rest); assert s[1..] == WriteSigned(x, 1) + rest;
      case VShort(x) => ReadSignedValue(x, 2, rest); assert s[1..] == WriteSigned(x, 2) + rest;
      case VInt(x) => ReadSignedValue(x, 4, rest); assert s[1..] == WriteSigned(x, 4) + rest;
      case VLong(x) => ReadSignedValue(x, 8, rest); assert s[1..] == WriteSigned(x, 8) + rest;
      case VBlob(b) => ReadCounted(b, rest); assert s[1..] == BigEndian(|b|, 2) + b + rest;
      case VString(b) => ReadCounted(b, rest); assert s[1..] == BigEndian(|b|, 2) + b + rest;
      case VTimestamp(x) => ReadSignedValue(x, 8, rest); assert s[1..] == WriteSigned(x, 8) + rest;
      case VUuid(b) => FixedOf(b, rest); assert s[1..] == b + rest;
    }
  }

  lemma WriteCounted(s: Octets)
    ensures Counted(s).Some? ==>
              var (b, rest) := Counted(s).value; |b| <= 0xFFFF && s == BigEndian(|b|, 2) + b + rest
  {
    Powers();
    if Counted(s).Some? {
      WriteRead(s[..2]);
      assert s == s[..2] + s[2..];
    }
  }

  lemma WriteFixed(s: Octets, n: nat)
    requires n > 0
    ensures Fixed(s, n).Some? ==>
              var (b, rest) := Fixed(s, n).value; WriteSigned(ReadSigned(b), n) == b && s == b + rest
  {
    if Fixed(s, n).Some? {
      UnsignedRoundTrip(Fixed(s, n).value.0);
    }
  }

  /** Whatever is read as a value is how that value is written. */
  lemma ValueCanonical(s: Octets)
    ensures DecodeValue(s).Some? ==>
              var (v, rest) := DecodeValue(s).value; EncodeValue(v).Some? && s == EncodeValue(v).value + rest
  {
    hide WriteSigned, ReadSigned, BigEndian, Fixed, Counted, Pow256;
    Powers();
    if DecodeValue(s).Some? {
      var t := s[1..];
      assert s == [s[0]] + t;
      IntOfOctet(s[0]);
      match FromOctet(s[0])
      case 0 =>
      case 1 =>
      case 2 => WriteFixed(t, 1);
      case 3 => WriteFixed(t, 2);
      case 4 => WriteFixed(t, 4);
      case 5 => WriteFixed(t, 8);
      case 6 => WriteCounted(t);
      case 7 => WriteCounted(t);
      case 8 => WriteFixed(t, 8);
      case 9 =>
    }
  }

  lemma HeaderRoundTrip(h: Header, rest: Octets)
    ensures EncodeHeader(h).Ok? ==> DecodeHeader(EncodeHeader(h).value + rest) == Ok((h, rest))
  {
    hide EncodeValue, DecodeValue, ToOctet, FromOctet;
    if EncodeHeader(h).Ok? {
      var v := EncodeValue(h.value).value;
      var s := EncodeHeader(h).value + rest;
      OctetOfInt(|h.name|);
      ValueRoundTrip(h.value, rest);
      assert s[1..1 + |h.name|] == h.name && s[1 + |h.name|..] == v + rest;
    }
  }

  lemma HeaderCanonical(s: Octets)
    requires s != []
    ensures DecodeHeader(s).Ok? ==>
              var (h, rest) := DecodeHeader(s).value; EncodeHeader(h).Ok? && s == EncodeHeader(h).value + rest
  {
    hide EncodeValue, DecodeValue, ToOctet, FromOctet;
    if DecodeHeader(s).Ok? {
      var n := FromOctet(s[0]);
      IntOfOctet(s[0]);
      ValueCanonical(s[1 + n..]);
      assert s == [s[0]] + s[1..1 + n] + s[1 + n..];
    }
  }

  lemma {:induction false} HeadersRoundTrip(hs: seq<Header>)
    ensures EncodeHeaders(hs).Ok? ==> DecodeHeaders(EncodeHeaders(hs).value) == Ok(hs)
    decreases |hs|
  {
    hide EncodeHeader, DecodeHeader;
    if hs != [] && EncodeHeaders(hs).Ok? {
      HeadersRoundTrip(hs[1..]);
      HeaderRoundTrip(hs[0], EncodeHeaders(hs[1..]).value);
      assert hs == [hs[0]] + hs[1..];
    }
  }

  lemma {:induction false} HeadersCanonical(s: Octets)
    ensures DecodeHeaders(s).Ok? ==> EncodeHeaders(DecodeHeaders(s).value) == Ok(s)
    decreases |s|
  {
    hide EncodeHeader, DecodeHeader;
    if s != [] && DecodeHeaders(s).Ok? {
      HeaderCanonical(s);
      var (h, rest) := DecodeHeader(s).value;
      HeadersCanonical(rest);
      var hs := DecodeHeaders(rest).value;
      assert ([h] + hs)[1..] == hs;
    }
  }

  // ----- checksums in place -----

  lemma CrcField(crc: bv32)
    ensures ReadCrc(CrcBytes(crc)) == crc
  {
    CrcBits(crc);
  }

  lemma CrcBits(crc: bv32)
    ensures (((((crc >> 24) & 0xFF) as Octet as bv32) << 24) | ((((crc >> 16) & 0xFF) as Octet as bv32) << 16)) |
            (((((crc >> 8) & 0xFF) as Octet as bv32) << 8) | ((crc & 0xFF) as Octet as bv32)) == crc
  {
  }

  lemma FieldOfCrc(s: Octets)
    requires |s| == 4
    ensures CrcBytes(ReadCrc(s)) == s
  {
    FieldBits(s[0], s[1], s[2], s[3]);
    assert s == [s[0], s[1], s[2], s[3]];
  }

  lemma FieldBits(a: Octet, b: Octet, c: Octet, d: Octet)
    ensures var crc := (((a as bv32) << 24) | ((b as bv32) << 16)) | (((c as bv32) << 8) | (d as bv32));
            ((crc >> 24) & 0xFF) as Octet == a && ((crc >> 16) & 0xFF) as Octet == b &&
            ((crc >> 8) & 0xFF) as Octet == c && (crc & 0xFF) as Octet == d
  {
  }

  /** A body followed by a field passes the check exactly when the field is the body's own checksum. */
  lemma CheckPasses(s: Octets)
    requires |s| >= 4
    ensures Crc(s[..|s| - 4]) == ReadCrc(s[|s| - 4..]) <==> s == WithCrc(s[..|s| - 4])
  {
    hide Crc, CrcBytes, ReadCrc;
    var body, field := s[..|s| - 4], s[|s| - 4..];
    CrcField(Crc(body));
    FieldOfCrc(field);
    assert s == body + field;
    if s == WithCrc(body) {
      assert field == WithCrc(body)[|body|..] == CrcBytes(Crc(body));
    }
  }

  // ----- the frame -----

  /** When decoding succeeds the buffer starts with exactly the frame of what was decoded, and conversely. */
  ghost predicate StartsWithFrame(buffer: Octets, block: Octets, payload: Octets) {
    |block| <= MAX_HEADERS && OVERHEAD + |block| + |payload| <= MAX_MESSAGE && FrameOf(block, payload) <= buffer
  }

  lemma {:induction false} FrameParts(block: Octets, payload: Octets)
    ensures var f, total := FrameOf(block, payload), OVERHEAD + |block| + |payload|;
            f[..8] == BigEndian(total, 4) + BigEndian(|block|, 4) &&
            f[..12] == Prelude(total, |block|) &&
            f[..total - 4] == Prelude(total, |block|) + block + payload &&
            f[12..12 + |block|] == block && f[12 + |block|..total - 4] == payload && f == WithCrc(f[..total - 4])
  {
    hide Crc, CrcBytes, BigEndian;
  }

  lemma {:induction false} FrameFields(block: Octets, payload: Octets, buffer: Octets)
    requires StartsWithFrame(buffer, block, payload)
    ensures var total := OVERHEAD + |block| + |payload|;
            |buffer| >= total && Total(buffer) == total && HeadersLength(buffer) == |block| &&
            Crc(buffer[..8]) == ReadCrc(buffer[8..12]) && Crc(buffer[..total - 4]) == ReadCrc(buffer[total - 4..total]) &&
            buffer[PRELUDE..PRELUDE + |block|] == block && buffer[PRELUDE + |block|..total - 4] == payload
  {
    hide Crc, CrcBytes, BigEndian, ReadCrc, FrameOf, FromBigEndian, WithCrc, Prelude;
    var f, total := FrameOf(block, payload), OVERHEAD + |block| + |payload|;
    FrameParts(block, payload);
    Powers();
    assert buffer[..total] == f;
    assert buffer[..4] == f[..8][..4] && buffer[4..8] == f[..8][4..] && buffer[..8] == f[..8];
    ReadWritten(total, 4);
    ReadWritten(|block|, 4);
    PreludePasses(total, |block|);
    assert buffer[8..12] == f[..12][8..] && f[..12][..8] == f[..8];
    CheckPasses(f);
    assert buffer[total - 4..total] == f[total - 4..] && buffer[..total - 4] == f[..total - 4];
    assert buffer[PRELUDE..PRELUDE + |block|] == f[12..12 + |block|];
    assert buffer[PRELUDE + |block|..total - 4] == f[12 + |block|..total - 4];
  }

  lemma PreludePasses(total: nat, headers: nat)
    ensures var p := Prelude(total, headers); Crc(p[..8]) == ReadCrc(p[8..])
  {
    hide Crc, CrcBytes, ReadCrc;
    var p := Prelude(total, headers);
    assert p[..8] == BigEndian(total, 4) + BigEndian(headers, 4);
    CheckPasses(p);
  }

  /** Decoding a frame with anything after it decodes its header block and takes its exact length. */
  lemma {:induction false} DecodeFrame(block: Octets, payload: Octets, buffer: Octets)
    requires StartsWithFrame(buffer, block, payload)
    ensures Decode(buffer) ==
            match DecodeHeaders(block)
            case Err(e) => Err(e)
            case Ok(hs) => Ok(Some((Message(hs, payload), OVERHEAD + |block| + |payload|)))
  {
    hide Crc, ReadCrc, Total, HeadersLength, DecodeHeaders, FrameOf;
    FrameFields(block, payload, buffer);
  }

  /** An encoded message followed by any bytes decodes to that message and its exact length. */
  lemma {:induction false} RoundTrip(m: Message, rest: Octets)
    requires Encode(m).Ok?
    ensures Decode(Encode(m).value + rest) == Ok(Some((m, |Encode(m).value|)))
  {
    hide Decode, EncodeHeaders, DecodeHeaders, FrameOf;
    var block := EncodeHeaders(m.headers).value;
    HeadersRoundTrip(m.headers);
    assert FrameOf(block, m.payload) <= Encode(m).value + rest;
    DecodeFrame(block, m.payload, Encode(m).value + rest);
  }

  /** What an accepted prelude and message checksum say about the bytes. */
  lemma {:induction false} AcceptedIsFrame(buffer: Octets, total: nat, headers: nat)
    requires PRELUDE <= |buffer| && LengthsOk(total, headers) && total <= |buffer|
    requires total == Total(buffer) && headers == HeadersLength(buffer)
    requires Crc(buffer[..8]) == ReadCrc(buffer[8..12])
    requires Crc(buffer[..total - 4]) == ReadCrc(buffer[total - 4..total])
    ensures buffer[..total] == FrameOf(buffer[PRELUDE..PRELUDE + headers], buffer[PRELUDE + headers..total - 4])
  {
    hide Crc, CrcBytes, ReadCrc, BigEndian, FromBigEndian, WithCrc;
    var block, payload := buffer[PRELUDE..PRELUDE + headers], buffer[PRELUDE + headers..total - 4];
    WriteRead(buffer[..4]);
    WriteRead(buffer[4..8]);
    assert buffer[..8] == buffer[..4] + buffer[4..8];
    var p, f := buffer[..12], buffer[..total];
    assert p[..8] == buffer[..8] && p[8..] == buffer[8..12];
    CheckPasses(p);
    assert p == Prelude(total, headers);
    assert f[..total - 4] == buffer[..total - 4] && f[total - 4..] == buffer[total - 4..total];
    CheckPasses(f);
    assert f[..total - 4] == p + block + payload;
  }

  /** Whatever decodes is how the decoded message encodes. */
  lemma {:induction false} Canonical(buffer: Octets)
    requires Decode(buffer).Ok? && Decode(buffer).value.Some?
    ensures var (m, n) := Decode(buffer).value.value; n <= |buffer| && Encode(m) == Ok(buffer[..n])
  {
    hide Crc, ReadCrc, DecodeHeaders, EncodeHeaders, FrameOf, Total, HeadersLength;
    var (m, n) := Decode(buffer).value.value;
    var headers := HeadersLength(buffer);
    assert n == Total(buffer);
    AcceptedIsFrame(buffer, n, headers);
    HeadersCanonical(buffer[PRELUDE..PRELUDE + headers]);
  }

  /** Every strict prefix of a frame asks for more bytes: it is never an error and never a message. */
  lemma {:induction false} PrefixAsksForMore(m: Message, k: nat)
    requires Encode(m).Ok? && k < |Encode(m).value|
    ensures Decode(Encode(m).value[..k]) == Ok(None)
  {
    hide Crc, ReadCrc, EncodeHeaders, FrameOf, DecodeHeaders, FromBigEndian;
    var f := Encode(m).value;
    var block := EncodeHeaders(m.headers).value;
    FrameFields(block, m.payload, f);
    if k >= PRELUDE {
      assert f[..k][..8] == f[..8] && f[..k][8..12] == f[8..12] && f[..k][..4] == f[..4] && f[..k][4..8] == f[4..8];
    }
  }

  /** One changed byte anywhere in a frame is always an error, whatever follows the frame. */
  lemma {:induction false} AnyChangedByteIsAnError(m: Message, i: nat, b: Octet, rest: Octets)
    requires Encode(m).Ok? && i < |Encode(m).value| && Encode(m).value[i] != b
    ensures Decode(Encode(m).value[i := b] + rest).Err?
  {
    hide Crc, ReadCrc, EncodeHeaders, FrameOf, DecodeHeaders, FromBigEndian;
    var f := Encode(m).value;
    var block := EncodeHeaders(m.headers).value;
    var total := |f|;
    FrameFields(block, m.payload, f);
    var buffer := f[i := b] + rest;
    if i < 12 {
      assert f[..12][..8] == f[..8] && f[..12][8..] == f[8..12];
      FieldChanged(f[..12], i, b);
      assert buffer[..8] == f[..12][i := b][..8] && buffer[8..12] == f[..12][i := b][8..];
    } else {
      assert buffer[..8] == f[..8] && buffer[8..12] == f[8..12] && buffer[..4] == f[..4] && buffer[4..8] == f[4..8];
      assert f[total - 4..] == f[total - 4..total];
      FieldChanged(f, i, b);
      assert buffer[..total - 4] == f[i := b][..total - 4] && buffer[total - 4..total] == f[i := b][total - 4..];
    }
  }

  /** A checksummed string does not survive one changed byte, in the body or in the field. */
  lemma FieldChanged(s: Octets, i: nat, b: Octet)
    requires |s| >= 4 && Crc(s[..|s| - 4]) == ReadCrc(s[|s| - 4..]) && i < |s| && s[i] != b
    ensures var t := s[i := b]; Crc(t[..|s| - 4]) != ReadCrc(t[|s| - 4..])
  {
    hide Crc, ReadCrc, CrcBytes;
    var n, t := |s| - 4, s[i := b];
    if i < n {
      CrcDetects(s[..n], i, b);
      assert t[..n] == s[..n][i := b] && t[n..] == s[n..];
    } else {
      assert t[..n] == s[..n];
      FieldOfCrc(s[n..]);
      FieldOfCrc(t[n..]);
      assert s[n..][i - n] != t[n..][i - n];
    }
  }

  // ----- the transport loop -----

  /** What the documented loop over an accumulated buffer yields: the messages, the bytes left, or the stream's error. */
  datatype Stream = Stream(messages: seq<Message>, buffer: Octets, error: Option<string>)

  function Drain(s: Stream): (r: Stream)
    ensures s.messages <= r.messages
    decreases |s.buffer|
  {
    if s.error.Some? then s
    else
      match Decode(s.buffer)
      case Err(e) => Stream(s.messages, s.buffer, Some(e))
      case Ok(None) => s
      case Ok(Some((m, n))) => Drain(Stream(s.messages + [m], s.buffer[n..], None))
  }

  /** Bytes arrive; a dead stream takes no more. */
  function Feed(s: Stream, chunk: Octets): Stream {
    if s.error.Some? then s else Drain(Stream(s.messages, s.buffer + chunk, None))
  }

  function FeedAll(s: Stream, chunks: seq<Octets>): Stream
    decreases |chunks|
  {
    if chunks == [] then s else FeedAll(Feed(s, chunks[0]), chunks[1..])
  }

  function Concat(chunks: seq<Octets>): Octets {
    if chunks == [] then [] else chunks[0] + Concat(chunks[1..])
  }

  /** An answer does not change when more bytes arrive behind it. */
  lemma {:induction false} DecodeStable(buffer: Octets, more: Octets)
    requires Decode(buffer).Err? || Decode(buffer).value.Some?
    ensures Decode(buffer + more) == Decode(buffer)
  {
    hide Crc, ReadCrc, DecodeHeaders, FromBigEndian;
    var all := buffer + more;
    assert all[..8] == buffer[..8] && all[8..12] == buffer[8..12] && all[..4] == buffer[..4] && all[4..8] == buffer[4..8];
    var total, headers := Total(buffer), HeadersLength(buffer);
    if LengthsOk(total, headers) && total <= |buffer| {
      assert all[..total - 4] == buffer[..total - 4] && all[total - 4..total] == buffer[total - 4..total];
      assert all[PRELUDE..PRELUDE + headers] == buffer[PRELUDE..PRELUDE + headers];
      assert all[PRELUDE + headers..total - 4] == buffer[PRELUDE + headers..total - 4];
    }
  }

  /** Messages and error agree; the bytes left agree unless the stream died. */
  predicate Same(a: Stream, b: Stream) {
    a.messages == b.messages && a.error == b.error && (a.error.None? ==> a.buffer == b.buffer)
  }

  /** Draining before or after more bytes arrive gives the same stream. */
  lemma {:induction false} DrainThenFeed(s: Stream, more: Octets)
    requires s.error.None?
    ensures Same(Feed(Drain(s), more), Drain(Stream(s.messages, s.buffer + more, None)))
    decreases |s.buffer|
  {
    hide Decode;
    match Decode(s.buffer)
    case Err(e) => DecodeStable(s.buffer, more);
    case Ok(None) =>
    case Ok(Some((m, n))) =>
      DecodeStable(s.buffer, more);
      assert (s.buffer + more)[n..] == s.buffer[n..] + more;
      DrainThenFeed(Stream(s.messages + [m], s.buffer[n..], None), more);
  }

  lemma {:induction false} FeedSame(a: Stream, b: Stream, chunks: seq<Octets>)
    requires Same(a, b)
    ensures Same(FeedAll(a, chunks), FeedAll(b, chunks))
    decreases |chunks|
  {
    hide Drain;
    if chunks != [] {
      FeedSame(Feed(a, chunks[0]), Feed(b, chunks[0]), chunks[1..]);
    }
  }

  /** However the bytes are sliced, feeding the slices is draining their concatenation. */
  lemma {:induction false} SlicingDoesNotMatter(messages: seq<Message>, buffer: Octets, chunks: seq<Octets>)
    ensures Same(FeedAll(Drain(Stream(messages, buffer, None)), chunks), Drain(Stream(messages, buffer + Concat(chunks), None)))
    decreases |chunks|
  {
    hide Drain, Feed;
    if chunks == [] {
      assert buffer + Concat(chunks) == buffer;
    } else {
      var s := Stream(messages, buffer, None);
      DrainThenFeed(s, chunks[0]);
      var joined := Stream(messages, buffer + chunks[0], None);
      FeedSame(Feed(Drain(s), chunks[0]), Drain(joined), chunks[1..]);
      SlicingDoesNotMatter(messages, buffer + chunks[0], chunks[1..]);
      assert buffer + chunks[0] + Concat(chunks[1..]) == buffer + Concat(chunks);
    }
  }

  function EncodeAll(ms: seq<Message>): Octets
    requires forall k | 0 <= k < |ms| :: Encode(ms[k]).Ok?
  {
    if ms == [] then [] else Encode(ms[0]).value + EncodeAll(ms[1..])
  }

  lemma {:induction false} DrainFrames(done: seq<Message>, ms: seq<Message>)
    requires forall k | 0 <= k < |ms| :: Encode(ms[k]).Ok?
    ensures Drain(Stream(done, EncodeAll(ms), None)) == Stream(done + ms, [], None)
    decreases |ms|
  {
    hide Decode, Encode;
    if ms == [] {
      assert Decode([]) == Ok(None) by {
        EmptyAsksForMore();
      }
      assert done + ms == done;
    } else {
      var f, rest := Encode(ms[0]).value, EncodeAll(ms[1..]);
      RoundTrip(ms[0], rest);
      assert (f + rest)[|f|..] == rest;
      DrainFrames(done + [ms[0]], ms[1..]);
      assert done + [ms[0]] + ms[1..] == done + ms;
    }
  }

  lemma EmptyAsksForMore()
    ensures Decode([]) == Ok(None)
  {
  }

  /** Frames sent back to back arrive as exactly the messages sent, under every slicing of the bytes. */
  lemma {:induction false} StreamRoundTrip(ms: seq<Message>, chunks: seq<Octets>)
    requires (forall k | 0 <= k < |ms| :: Encode(ms[k]).Ok?) && Concat(chunks) == EncodeAll(ms)
    ensures FeedAll(Stream([], [], None), chunks) == Stream(ms, [], None)
  {
    hide Decode, Encode, Drain;
    assert Drain(Stream([], [], None)) == Stream([], [], None) by {
      DrainFrames([], []);
    }
    SlicingDoesNotMatter([], [], chunks);
    assert [] + Concat(chunks) == EncodeAll(ms);
    DrainFrames([], ms);
    assert [] + ms == ms;
  }
}

/** `EncodeMessage` and `DecodeMessage`: the loops that write and read a frame. */
module Frame {
  import opened Common
  import opened Crc32
  import opened FrameSpec
  import opened WireInts

  /** The header block, appended header by header; nothing partial survives an error. */
  method EncodeBlock(hs: seq<Header>) returns (r: Outcome<Octets>)
    ensures r == EncodeHeaders(hs)
  {
    hide EncodeHeader;
    var block: Octets := [];
    assert hs[0..] == hs;
    PrependTwice(block, [], EncodeHeaders(hs));
    for i := 0 to |hs|
      invariant EncodeHeaders(hs) == Prepend(block, EncodeHeaders(hs[i..]))
    {
      assert hs[i..][1..] == hs[i + 1..];
      var first := EncodeHeader(hs[i]);
      if first.Err? {
        return Err(first.error);
      }
      PrependTwice(block, first.value, EncodeHeaders(hs[i + 1..]));
      block := block + first.value;
    }
    assert block + [] == block;
    return Ok(block);
  }

  method EncodeMessage(m: Message) returns (r: Outcome<Octets>)
    ensures r == Encode(m)
  {
    hide EncodeHeaders, BigEndian, Crc, CrcBytes;
    var block :- EncodeBlock(m.headers);
    if |block| > MAX_HEADERS {
      return Err(HEADERS_TOO_LARGE);
    }
    var total := OVERHEAD + |block| + |m.payload|;
    if total > MAX_MESSAGE {
      return Err(MESSAGE_TOO_LARGE);
    }
    var frame := AppendBigEndian([], total, 4);
    frame := AppendBigEndian(frame, |block|, 4);
    assert frame == BigEndian(total, 4) + BigEndian(|block|, 4);
    var crc := Checksum(frame);
    frame := frame + CrcBytes(crc);
    frame := frame + block + m.payload;
    crc := Checksum(frame);
    frame := frame + CrcBytes(crc);
    return Ok(frame);
  }

  /** The `fixed` helper: the next n bytes, if the block still holds them. */
  method TakeFixed(block: Octets, cursor: nat, n: nat) returns (r: Option<Octets>, cursor': nat)
    requires cursor <= |block|
    ensures cursor <= cursor' <= |block|
    ensures match Fixed(block[cursor..], n)
            case None => r == None
            case Some((b, rest)) => r == Some(b) && rest == block[cursor'..]
  {
    if |block| - cursor < n {
      return None, cursor;
    }
    assert block[cursor..][..n] == block[cursor..cursor + n] && block[cursor..][n..] == block[cursor + n..];
    return Some(block[cursor..cursor + n]), cursor + n;
  }

  method TakeCounted(block: Octets, cursor: nat) returns (r: Option<Octets>, cursor': nat)
    requires cursor <= |block|
    ensures cursor <= cursor' <= |block|
    ensures match Counted(block[cursor..])
            case None => r == None
            case Some((b, rest)) => r == Some(b) && rest == block[cursor'..]
  {
    hide Fixed;
    r, cursor' := TakeFixed(block, cursor, 2);
    if r.Some? {
      var count := ReadBigEndian(r.value);
      r, cursor' := TakeFixed(block, cursor', count);
    }
  }

  /** Reads one value at the cursor and moves the cursor past it. */
  method ReadValue(block: Octets, cursor: nat) returns (r: Option<HeaderValue>, cursor': nat)
    requires cursor <= |block|
    ensures cursor <= cursor' <= |block|
    ensures match DecodeValue(block[cursor..])
            case None => r == None
            case Some((v, rest)) => r == Some(v) && rest == block[cursor'..]
  {
    hide Fixed, Counted, ReadSigned, FromOctet;
    Powers();
    if cursor >= |block| {
      return None, cursor;
    }
    var tag := FromOctet(block[cursor]);
    cursor' := cursor + 1;
    assert block[cursor..][1..] == block[cursor'..];
    var bytes;
    if tag == 0 || tag == 1 {
      return Some(VBool(tag == 0)), cursor';
    } else if tag == 6 || tag == 7 {
      bytes, cursor' := TakeCounted(block, cursor');
    } else if tag > 9 {
      return None, cursor';
    } else {
      var width := if tag == 2 then 1 else if tag == 3 then 2 else if tag == 4 then 4 else if tag == 9 then 16 else 8;
      bytes, cursor' := TakeFixed(block, cursor', width);
    }
    if bytes.None? {
      return None, cursor';
    }
    r := Some(match tag
              case 2 => VByte(ReadSigned(bytes.value))
              case 3 => VShort(ReadSigned(bytes.value))
              case 4 => VInt(ReadSigned(bytes.value))
              case 5 => VLong(ReadSigned(bytes.value))
              case 6 => VBlob(bytes.value)
              case 7 => VString(bytes.value)
              case 8 => VTimestamp(ReadSigned(bytes.value))
              case _ => VUuid(bytes.value));
  }

  method DecodeBlock(block: Octets) returns (r: Outcome<seq<Header>>)
    ensures r == DecodeHeaders(block)
  {
    hide DecodeValue, FromOctet;
    var hs: seq<Header> := [];
    var cursor := 0;
    assert block[0..] == block;
    PrependTwice(hs, [], DecodeHeaders(block));
    while cursor < |block|
      invariant cursor <= |block|
      invariant DecodeHeaders(block) == Prepend(hs, DecodeHeaders(block[cursor..]))
      decreases |block| - cursor
    {
      ghost var s := block[cursor..];
      var h;
      h, cursor := ReadHeader(block, cursor);
      if h.Err? {
        return Err(h.error);
      }
      DecodeFirst(s);
      PrependTwice(hs, [h.value], DecodeHeaders(block[cursor..]));
      hs := hs + [h.value];
    }
    assert hs + [] == hs;
    return Ok(hs);
  }

  lemma DecodeFirst(s: Octets)
    requires s != [] && DecodeHeader(s).Ok?
    ensures DecodeHeaders(s) == Prepend([DecodeHeader(s).value.0], DecodeHeaders(DecodeHeader(s).value.1))
  {
    hide DecodeHeader;
  }

  /** One turn of the header loop. */
  method ReadHeader(block: Octets, cursor: nat) returns (r: Outcome<Header>, cursor': nat)
    requires cursor < |block|
    ensures cursor < cursor' <= |block|
    ensures match DecodeHeader(block[cursor..])
            case Err(e) => r == Err(e)
            case Ok((h, rest)) => r == Ok(h) && rest == block[cursor'..]
  {
    hide DecodeValue, FromOctet;
    ghost var s := block[cursor..];
    var nameLength := FromOctet(block[cursor]);
    cursor' := cursor + 1;
    if nameLength == 0 || |block| - cursor' < nameLength {
      return Err(MALFORMED_NAME), cursor';
    }
    var name := block[cursor'..cursor' + nameLength];
    cursor' := cursor' + nameLength;
    assert s[1..1 + nameLength] == name && s[1 + nameLength..] == block[cursor'..];
    var value;
    value, cursor' := ReadValue(block, cursor');
    if value.None? {
      return Err(MALFORMED_VALUE), cursor';
    }
    return Ok(Header(name, value.value)), cursor';
  }

  method DecodeMessage(buffer: Octets) returns (r: Outcome<Option<(Message, nat)>>)
    ensures r == Decode(buffer)
  {
    hide Crc, ReadCrc, DecodeHeaders, FromBigEndian;
    if |buffer| < PRELUDE {
      return Ok(None);
    }
    var crc := Checksum(buffer[..8]);
    if crc != ReadCrc(buffer[8..12]) {
      return Err(BAD_PRELUDE_CRC);
    }
    var total := ReadBigEndian(buffer[..4]);
    var headers := ReadBigEndian(buffer[4..8]);
    if total > MAX_MESSAGE || total < OVERHEAD || headers > MAX_HEADERS || headers > total - OVERHEAD {
      return Err(BAD_LENGTHS);
    }
    if |buffer| < total {
      return Ok(None);
    }
    crc := Checksum(buffer[..total - 4]);
    if crc != ReadCrc(buffer[total - 4..total]) {
      return Err(BAD_MESSAGE_CRC);
    }
    var hs :- DecodeBlock(buffer[PRELUDE..PRELUDE + headers]);
    return Ok(Some((Message(hs, buffer[PRELUDE + headers..total - 4]), total)));
  }
}

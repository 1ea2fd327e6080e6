/** Base64 (section 4 of RFC 4648): the encoder, the strict decoder, and the proof that they are inverse. */
module Base64 {
  import opened Common

  const PAD: Byte := 61

  const BAD_LENGTH: string := "base64: length must be a multiple of 4"
  const MISPLACED: string := "base64: misplaced padding"
  const INVALID: string := "base64: invalid character"
  const TRAILING: string := "base64: non-canonical trailing bits"

  // ----- the alphabet -----

  function Letter(v: nat): (c: Byte)
    requires v < 64
    ensures c != PAD
  {
    if v < 26 then 65 + v else if v < 52 then 71 + v else if v < 62 then v - 4 else if v == 62 then 43 else 47
  }

  function LetterValue(c: Byte): (v: int)
    ensures -1 <= v < 64
  {
    if 65 <= c <= 90 then c - 65
    else if 97 <= c <= 122 then c - 71
    else if 48 <= c <= 57 then c + 4
    else if c == 43 then 62
    else if c == 47 then 63
    else -1
  }

  lemma LetterBack(v: nat, c: Byte)
    requires v < 64
    ensures LetterValue(Letter(v)) == v && (LetterValue(c) == v <==> c == Letter(v)) && LetterValue(PAD) == -1
  {
  }

  // ----- encoding -----

  /** The four digits of a 24-bit group. */
  function Sextets(group: nat): (r: seq<nat>)
    requires group < 0x100_0000
    ensures |r| == 4 && forall k | 0 <= k < 4 :: r[k] < 64
  {
    [group / 262144, group / 4096 % 64, group / 64 % 64, group % 64]
  }

  function Group(bytes: Bytes): (g: nat)
    requires 1 <= |bytes| <= 3
    ensures g < 0x100_0000
  {
    var first: nat, second: nat, third: nat := bytes[0], if |bytes| > 1 then bytes[1] else 0, if |bytes| > 2 then bytes[2] else 0;
    first * 65536 + second * 256 + third
  }

  /** One to three bytes as four characters. */
  function EncodeGroup(bytes: Bytes): (r: Bytes)
    requires 1 <= |bytes| <= 3
    ensures |r| == 4
  {
    var d := Sextets(Group(bytes));
    [Letter(d[0]), Letter(d[1]), if |bytes| > 1 then Letter(d[2]) else PAD, if |bytes| > 2 then Letter(d[3]) else PAD]
  }

  function Encode(bytes: Bytes): Bytes {
    if bytes == [] then []
    else if |bytes| <= 3 then EncodeGroup(bytes)
    else EncodeGroup(bytes[..3]) + Encode(bytes[3..])
  }

  // ----- decoding -----

  /** The characters of a group from j on, added to what was read before. */
  function ReadDigits(s: Bytes, last: bool, j: nat, padding: nat, group: nat): (r: Outcome<(nat, nat)>)
    requires |s| == 4 && j <= 4
    decreases 4 - j
  {
    if j == 4 then Ok((padding, group))
    else if s[j] == PAD then
      if !last || j < 2 || (j == 2 && s[3] != PAD) then Err(MISPLACED)
      else ReadDigits(s, last, j + 1, padding + 1, group * 64)
    else if LetterValue(s[j]) < 0 then Err(INVALID)
    else ReadDigits(s, last, j + 1, padding, group * 64 + LetterValue(s[j]))
  }

  /** The first 3 - padding bytes of a group. */
  function BytesOf(padding: nat, group: nat): Bytes {
    [group / 65536 % 256] + (if padding < 2 then [group / 256 % 256] else []) + (if padding < 1 then [group % 256] else [])
  }

  function DecodeGroup(s: Bytes, last: bool): Outcome<Bytes>
    requires |s| == 4
  {
    var (padding, group) :- ReadDigits(s, last, 0, 0, 0);
    if (padding == 1 && group % 256 != 0) || (padding == 2 && group % 65536 != 0) then Err(TRAILING)
    else Ok(BytesOf(padding, group))
  }

  function DecodeGroups(text: Bytes): Outcome<Bytes>
    requires |text| % 4 == 0
    decreases |text|
  {
    if text == [] then Ok([])
    else
      var first :- DecodeGroup(text[..4], |text| == 4);
      var rest :- DecodeGroups(text[4..]);
      Ok(first + rest)
  }

  function Decode(text: Bytes): Outcome<Bytes> {
    if |text| % 4 != 0 then Err(BAD_LENGTH) else DecodeGroups(text)
  }

  // ----- inverse -----

  /** What four characters come to: their digits, padding counting as zero. */
  function DigitAt(c: Byte): nat {
    if LetterValue(c) < 0 then 0 else LetterValue(c)
  }

  predicate WellPadded(s: Bytes, last: bool)
    requires |s| == 4
  {
    LetterValue(s[0]) >= 0 && LetterValue(s[1]) >= 0 &&
    (LetterValue(s[2]) >= 0 || (last && s[2] == PAD && s[3] == PAD)) &&
    (LetterValue(s[3]) >= 0 || (last && s[3] == PAD))
  }

  lemma DigitsRead(s: Bytes, last: bool)
    requires |s| == 4
    ensures var r := ReadDigits(s, last, 0, 0, 0);
            (r.Ok? <==> WellPadded(s, last)) &&
            (r.Ok? ==> r.value == (AsCount(s[2] == PAD) + AsCount(s[3] == PAD),
                                   DigitAt(s[0]) * 262144 + DigitAt(s[1]) * 4096 + DigitAt(s[2]) * 64 + DigitAt(s[3])))
  {
    LetterBack(0, 0);
    var a, b, c, d := DigitAt(s[0]), DigitAt(s[1]), DigitAt(s[2]), DigitAt(s[3]);
    hide LetterValue;
    assert ReadDigits(s, last, 0, 0, 0).Ok? ==> LetterValue(s[0]) >= 0 && LetterValue(s[1]) >= 0;
    if LetterValue(s[0]) >= 0 && LetterValue(s[1]) >= 0 {
      assert ReadDigits(s, last, 0, 0, 0) == ReadDigits(s, last, 1, 0, a) == ReadDigits(s, last, 2, 0, a * 64 + b);
    }
  }

  /** Digits and bytes of one group determine each other. */
  lemma Places(a: nat, b: nat, c: nat, d: nat)
    requires a < 64 && b < 64 && c < 64 && d < 64
    ensures var g := a * 262144 + b * 4096 + c * 64 + d;
            g < 0x100_0000 && Sextets(g) == [a, b, c, d] && g / 65536 % 256 == g / 65536
  {
    var g := a * 262144 + b * 4096 + c * 64 + d;
    Digit64(a * 4096 + b * 64 + c, d);
    Digit64(a * 64 + b, c);
    Digit64(a, b);
    assert g / 64 == a * 4096 + b * 64 + c && g / 4096 == g / 64 / 64 && g / 262144 == g / 64 / 64 / 64;
  }

  lemma Digit64(high: nat, low: nat)
    requires low < 64
    ensures (high * 64 + low) / 64 == high && (high * 64 + low) % 64 == low
  {
  }

  lemma GroupParts(bytes: Bytes)
    requires 1 <= |bytes| <= 3
    ensures var g := Group(bytes);
            BytesOf(3 - |bytes|, g) == bytes && (|bytes| < 3 ==> g % 256 == 0) && (|bytes| < 2 ==> g % 65536 == 0)
    ensures var d := Sextets(Group(bytes));
            d[0] * 262144 + d[1] * 4096 + d[2] * 64 + d[3] == Group(bytes) && (|bytes| < 3 ==> d[3] == 0) && (|bytes| < 2 ==> d[2] == 0)
  {
    var first: nat, second: nat, low: nat := bytes[0], if |bytes| > 1 then bytes[1] else 0, if |bytes| > 2 then bytes[2] else 0;
    GroupBytes(Group(bytes), first, second, low);
    GroupDigits(Group(bytes));
    LowDigits(Group(bytes));
    hide Group;
  }

  lemma GroupBytes(g: nat, first: nat, second: nat, low: nat)
    requires first < 256 && second < 256 && low < 256 && g == first * 65536 + second * 256 + low
    ensures g / 65536 % 256 == first && g / 256 % 256 == second && g % 256 == low && (second == 0 && low == 0 ==> g % 65536 == 0)
  {
    Digit256(first * 256 + second, low);
    Digit256(first, second);
    assert g / 65536 == g / 256 / 256;
  }

  lemma GroupDigits(g: nat)
    requires g < 0x100_0000
    ensures var d := Sextets(g); d[0] * 262144 + d[1] * 4096 + d[2] * 64 + d[3] == g
  {
    assert g / 262144 == g / 64 / 64 / 64 && g / 4096 == g / 64 / 64;
  }

  lemma LowDigits(g: nat)
    ensures g % 256 == 0 ==> g % 64 == 0
    ensures g % 65536 == 0 ==> g / 64 % 64 == 0
  {
    if g % 65536 == 0 {
      var k := g / 65536;
      assert g == k * 16 * 64 * 64 && g / 64 == k * 16 * 64;
    }
  }

  lemma Digit256(high: nat, low: nat)
    requires low < 256
    ensures (high * 256 + low) / 256 == high && (high * 256 + low) % 256 == low
  {
  }

  /** A group of bytes comes back from its characters, padded only at the end. */
  lemma GroupBack(bytes: Bytes, last: bool)
    requires 1 <= |bytes| <= 3 && (|bytes| < 3 ==> last)
    ensures DecodeGroup(EncodeGroup(bytes), last) == Ok(bytes)
  {
    var s := EncodeGroup(bytes);
    var d := Sextets(Group(bytes));
    LetterBack(d[0], 0);
    LetterBack(d[1], 0);
    LetterBack(d[2], 0);
    LetterBack(d[3], 0);
    DigitsRead(s, last);
    GroupParts(bytes);
    hide LetterValue, Letter, ReadDigits, Group, Sextets, BytesOf;
    assert DigitAt(s[0]) == d[0] && DigitAt(s[1]) == d[1] && DigitAt(s[2]) == d[2] && DigitAt(s[3]) == d[3];
  }

  /** Characters that decode are the encoding of what they decode to. */
  lemma GroupCanonical(s: Bytes, last: bool)
    requires |s| == 4 && DecodeGroup(s, last).Ok?
    ensures var bytes := DecodeGroup(s, last).value;
            1 <= |bytes| <= 3 && (|bytes| < 3 ==> last) && EncodeGroup(bytes) == s
  {
    DigitsRead(s, last);
    var a, b, c, d := DigitAt(s[0]), DigitAt(s[1]), DigitAt(s[2]), DigitAt(s[3]);
    var group := a * 262144 + b * 4096 + c * 64 + d;
    var padding := AsCount(s[2] == PAD) + AsCount(s[3] == PAD);
    Places(a, b, c, d);
    LetterBack(a, s[0]);
    LetterBack(b, s[1]);
    LetterBack(c, s[2]);
    LetterBack(d, s[3]);
    SameGroup(padding, group);
    hide LetterValue, Letter, ReadDigits, Sextets, BytesOf, Group;
  }

  lemma SameGroup(padding: nat, group: nat)
    requires padding <= 2 && group < 0x100_0000 && (padding == 1 ==> group % 256 == 0) && (padding == 2 ==> group % 65536 == 0)
    ensures |BytesOf(padding, group)| == 3 - padding && Group(BytesOf(padding, group)) == group
  {
    assert group / 65536 < 256 && group / 65536 == group / 256 / 256;
    assert group == group / 256 * 256 + group % 256 && group / 256 == group / 256 / 256 * 256 + group / 256 % 256;
    if padding == 2 {
      assert group == group / 65536 * 65536;
    }
  }

  lemma {:induction false} RoundTrip(bytes: Bytes)
    ensures Decode(Encode(bytes)) == Ok(bytes) && |Encode(bytes)| == (|bytes| + 2) / 3 * 4
    decreases |bytes|
  {
    hide DecodeGroup, EncodeGroup;
    if bytes == [] {
    } else if |bytes| <= 3 {
      GroupBack(bytes, true);
      var s := EncodeGroup(bytes);
      assert s[..4] == s && s[4..] == [] && bytes + [] == bytes;
      assert DecodeGroups(s[4..]) == Ok([]) && DecodeGroups(s) == Ok(bytes);
    } else {
      RoundTrip(bytes[3..]);
      var s, rest := EncodeGroup(bytes[..3]), Encode(bytes[3..]);
      assert |rest| > 0;
      GroupBack(bytes[..3], false);
      assert (s + rest)[..4] == s && (s + rest)[4..] == rest && bytes[..3] + bytes[3..] == bytes;
    }
  }

  lemma {:induction false} Canonical(text: Bytes)
    requires Decode(text).Ok?
    ensures Encode(Decode(text).value) == text
    decreases |text|
  {
    hide DecodeGroup, EncodeGroup;
    if text != [] {
      var s, rest := text[..4], text[4..];
      var first, others := DecodeGroup(s, |text| == 4).value, DecodeGroups(rest).value;
      GroupCanonical(s, |text| == 4);
      Canonical(rest);
      assert s + rest == text;
      if rest == [] {
        assert first + others == first;
      } else {
        assert (first + others)[..3] == first && (first + others)[3..] == others;
      }
    }
  }

  /** A text decodes to some bytes exactly when it is their encoding. */
  lemma {:induction false} AcceptsEncodings(text: Bytes, bytes: Bytes)
    ensures Decode(text) == Ok(bytes) <==> text == Encode(bytes)
  {
    hide Decode, Encode;
    RoundTrip(bytes);
    if Decode(text).Ok? {
      Canonical(text);
    }
  }

  // ----- the loops -----

  lemma {:induction false} EncodeMore(done: Bytes, rest: Bytes)
    requires |done| % 3 == 0
    ensures Encode(done + rest) == Encode(done) + Encode(rest)
    decreases |done|
  {
    hide EncodeGroup;
    if done == [] {
      assert done + rest == rest;
    } else {
      assert (done + rest)[..3] == done[..3] && (done + rest)[3..] == done[3..] + rest;
      EncodeMore(done[3..], rest);
      assert |done| == 3 ==> done[..3] == done && done[3..] == [];
      assert |done + rest| == 3 ==> rest == [] && done + rest == done;
    }
  }

  method EncodeBytes(bytes: Bytes) returns (out: Bytes)
    ensures out == Encode(bytes)
  {
    hide EncodeGroup, Encode;
    out := [];
    var i := 0;
    NothingEncoded();
    assert bytes[..0] == [];
    while i + 3 <= |bytes|
      invariant i <= |bytes| && i % 3 == 0 && out == Encode(bytes[..i])
    {
      EncodeMore(bytes[..i], bytes[i..i + 3]);
      OneGroup(bytes[i..i + 3]);
      assert bytes[..i + 3] == bytes[..i] + bytes[i..i + 3];
      out := out + EncodeGroup(bytes[i..i + 3]);
      i := i + 3;
    }
    assert bytes == bytes[..i] + bytes[i..] && (i == |bytes| ==> bytes[..i] == bytes);
    if i < |bytes| {
      EncodeMore(bytes[..i], bytes[i..]);
      OneGroup(bytes[i..]);
      out := out + EncodeGroup(bytes[i..]);
    }
  }

  lemma NothingEncoded()
    ensures Encode([]) == []
  {
  }

  lemma OneGroup(bytes: Bytes)
    requires 1 <= |bytes| <= 3
    ensures Encode(bytes) == EncodeGroup(bytes)
  {
  }

  method DecodeText(text: Bytes) returns (r: Outcome<Bytes>)
    ensures r == Decode(text)
  {
    hide BytesOf;
    if |text| % 4 != 0 {
      return Err(BAD_LENGTH);
    }
    var out: Bytes := [];
    var i := 0;
    assert text[0..] == text;
    PrependTwice([], [], DecodeGroups(text));
    while i < |text|
      invariant i <= |text| && i % 4 == 0
      invariant DecodeGroups(text) == Prepend(out, DecodeGroups(text[i..]))
    {
      var last := i + 4 == |text|;
      var four := text[i..i + 4];
      assert text[i..][..4] == four && text[i..][4..] == text[i + 4..];
      var bytes :- DecodeFour(four, last);
      PrependTwice(out, bytes, DecodeGroups(text[i + 4..]));
      out := out + bytes;
      i := i + 4;
    }
    assert text[i..] == [] && out + [] == out;
    return Ok(out);
  }

  method DecodeFour(s: Bytes, last: bool) returns (r: Outcome<Bytes>)
    requires |s| == 4
    ensures r == DecodeGroup(s, last)
  {
    hide LetterValue, BytesOf;
    var padding, group := 0, 0;
    for j := 0 to 4
      invariant padding >= 0 && group >= 0 && ReadDigits(s, last, 0, 0, 0) == ReadDigits(s, last, j, padding, group)
    {
      if s[j] == PAD {
        if !last || j < 2 || (j == 2 && s[3] != PAD) {
          return Err(MISPLACED);
        }
        padding := padding + 1;
        group := group * 64;
      } else {
        var value := LetterValue(s[j]);
        if value < 0 {
          return Err(INVALID);
        }
        group := group * 64 + value;
      }
    }
    if (padding == 1 && group % 256 != 0) || (padding == 2 && group % 65536 != 0) {
      return Err(TRAILING);
    }
    return Ok(BytesOf(padding, group));
  }
}

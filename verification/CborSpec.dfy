/** CBOR (RFC 8949) as the runtime writes and reads it: documents, the encoder, and the decoder as functions. */
module CborSpec {
  import opened Common
  import opened Crc32
  import opened WireInts
  import opened TimestampSpec

  // ----- documents -----

  /** A double is its 64-bit pattern. */
  type Bits = x: int | 0 <= x < 0x1_0000_0000_0000_0000

  /** A map is the ordered container it is in C++: entries in strictly ascending order of their keys. */
  datatype Document =
    | DNull
    | DBool(b: bool)
    | DInt(i: Int64)
    | DDouble(bits: Bits)
    | DText(text: Octets)
    | DBlob(blob: Octets)
    | DTime(ms: Int64, format: TimestampFormat)
    | DList(items: seq<Document>)
    | DMap(entries: seq<Entry>)

  datatype Entry = Entry(key: Octets, value: Document)

  /** The floating-point conversions the codec relies on and this model does not look into. */
  datatype Floats = Floats(half: nat -> Bits, single: nat -> Bits, ofMillis: int -> Bits, toMillis: Bits -> Outcome<Int64>)

  /** `std::less` on strings: bytes compare as unsigned, a prefix comes first. */
  predicate Less(a: Octets, b: Octets)
    decreases |a|
  {
    if b == [] then false
    else if a == [] then true
    else if a[0] == b[0] then Less(a[1..], b[1..])
    else FromOctet(a[0]) < FromOctet(b[0])
  }

  predicate Sorted(es: seq<Entry>) {
    forall i, j | 0 <= i < j < |es| :: Less(es[i].key, es[j].key)
  }

  /** `insert_or_assign`. */
  function Assign(es: seq<Entry>, e: Entry): seq<Entry> {
    if es == [] then [e]
    else if es[0].key == e.key then [e] + es[1..]
    else if Less(e.key, es[0].key) then [e] + es
    else [es[0]] + Assign(es[1..], e)
  }

  function AssignAll(es: seq<Entry>, more: seq<Entry>): seq<Entry>
    decreases |more|
  {
    if more == [] then es else AssignAll(Assign(es, more[0]), more[1..])
  }

  // ----- the head of an item -----

  datatype Major = Unsigned | Negative | ByteString | TextString | Array | Map | Tag | Simple {
    function Code(): (r: nat)
      ensures r < 8
    {
      match this
      case Unsigned => 0
      case Negative => 1
      case ByteString => 2
      case TextString => 3
      case Array => 4
      case Map => 5
      case Tag => 6
      case Simple => 7
    }
  }

  function MajorOf(code: nat): Major
    requires code < 8
  {
    match code
    case 0 => Major.Unsigned
    case 1 => Negative
    case 2 => ByteString
    case 3 => TextString
    case 4 => Array
    case 5 => Map
    case 6 => Tag
    case _ => Simple
  }

  /** The initial byte: three bits of major type, five of additional information. */
  function Initial(major: Major, info: nat): Octet
    requires info < 32
  {
    ToOctet(major.Code() * 32 + info)
  }

  function MajorPart(b: Octet): Major {
    MajorOf(FromOctet(b) / 32)
  }

  function InfoPart(b: Octet): (r: nat)
    ensures r < 32
  {
    FromOctet(b) % 32
  }

  /** How many bytes the argument takes after the initial byte. */
  datatype Width = W0 | W1 | W2 | W4 | W8 {
    function Size(): (r: nat)
      ensures r <= 8
    {
      match this
      case W0 => 0
      case W1 => 1
      case W2 => 2
      case W4 => 4
      case W8 => 8
    }

    /** The additional information that announces it. */
    function Info(): (r: nat)
      requires this != W0
      ensures 24 <= r < 28
    {
      match this
      case W1 => 24
      case W2 => 25
      case W4 => 26
      case W8 => 27
    }

    predicate Fits(value: nat) {
      if this == W0 then value < 24 else value < Pow256(Size())
    }
  }

  function Head(major: Major, value: nat, w: Width): (r: Octets)
    requires w.Fits(value)
    ensures |r| == 1 + w.Size()
  {
    if w == W0 then [Initial(major, value)] else [Initial(major, w.Info())] + BigEndian(value, w.Size())
  }

  const TWO64: nat := 0x1_0000_0000_0000_0000
  const MAX_INT64: nat := 0x7FFF_FFFF_FFFF_FFFF

  /** The smallest width, as `WriteTypeAndValue` picks it. */
  function Smallest(value: nat): (w: Width)
    requires value < TWO64
    ensures w.Fits(value)
  {
    Powers();
    if value < 24 then W0
    else if value <= 0xFF then W1
    else if value <= 0xFFFF then W2
    else if value <= 0xFFFF_FFFF then W4
    else W8
  }

  // ----- encoding -----

  function TypeAndValue(major: Major, value: nat): Octets
    requires value < TWO64
  {
    Head(major, value, Smallest(value))
  }

  function EncodeInt(v: Int64): Octets {
    if v >= 0 then TypeAndValue(Major.Unsigned, v) else TypeAndValue(Negative, -(v + 1))
  }

  function EncodeDouble(bits: Bits): Octets {
    Powers();
    Head(Simple, bits, W8)
  }

  function EncodeText(s: Octets): Octets
    requires |s| < TWO64
  {
    TypeAndValue(TextString, |s|) + s
  }

  /** What a container can hold: sizes fit 64 bits, and map keys are in order. */
  predicate Storable(d: Document)
    decreases d, 1
  {
    match d
    case DText(s) => |s| < TWO64
    case DBlob(s) => |s| < TWO64
    case DList(items) => |items| < TWO64 && AllStorable(items)
    case DMap(es) => |es| < TWO64 && Sorted(es) && EntriesStorable(es)
    case _ => true
  }

  predicate AllStorable(items: seq<Document>)
    decreases items
  {
    items == [] || (Storable(items[0]) && AllStorable(items[1..]))
  }

  predicate EntriesStorable(es: seq<Entry>)
    decreases es
  {
    es == [] || (|es[0].key| < TWO64 && Storable(es[0].value) && EntriesStorable(es[1..]))
  }

  function Encode(d: Document, f: Floats): (r: Octets)
    requires Storable(d)
    ensures r != []
    decreases d, 1
  {
    match d
    case DNull => [Initial(Simple, 22)]
    case DBool(b) => [Initial(Simple, if b then 21 else 20)]
    case DInt(i) => EncodeInt(i)
    case DDouble(bits) => EncodeDouble(bits)
    case DText(s) => EncodeText(s)
    case DBlob(s) => TypeAndValue(ByteString, |s|) + s
    case DTime(ms, _) =>
      TypeAndValue(Tag, 1) + if ms % 1000 == 0 then EncodeInt(ms / 1000) else EncodeDouble(f.ofMillis(ms))
    case DList(items) => TypeAndValue(Array, |items|) + EncodeAll(items, f)
    case DMap(es) => TypeAndValue(Map, |es|) + EncodeEntries(es, f)
  }

  function EncodeAll(items: seq<Document>, f: Floats): Octets
    requires AllStorable(items)
    decreases items
  {
    if items == [] then [] else Encode(items[0], f) + EncodeAll(items[1..], f)
  }

  function EncodeEntries(es: seq<Entry>, f: Floats): Octets
    requires EntriesStorable(es)
    decreases es
  {
    if es == [] then [] else EncodeText(es[0].key) + Encode(es[0].value, f) + EncodeEntries(es[1..], f)
  }

  // ----- decoding -----

  const MAX_DEPTH: nat := 64

  const TOO_DEEP: string := "cbor: nesting too deep"
  const TRUNCATED: string := "cbor: truncated input"
  const TRUNCATED_ARGUMENT: string := "cbor: truncated argument"
  const RESERVED_INFO: string := "cbor: reserved additional-information value"
  const TRUNCATED_STRING: string := "cbor: truncated string"
  const UNTERMINATED: string := "cbor: unterminated indefinite string"
  const MIXED_TYPES: string := "cbor: mixed types in indefinite string"
  const NESTED_CHUNK: string := "cbor: nested indefinite string chunk"
  const TRUNCATED_CHUNK: string := "cbor: truncated string chunk"
  const INDEFINITE_INTEGER: string := "cbor: indefinite length on integer"
  const INTEGER_RANGE: string := "cbor: integer exceeds int64 range"
  const KEY_NOT_TEXT: string := "cbor: map key is not a text string"
  const INDEFINITE_TAG: string := "cbor: indefinite length on tag"
  const NOT_A_NUMBER: string := "cbor: tag 1 content is not a number"
  const TRUNCATED_FLOAT: string := "cbor: truncated float"
  const UNSUPPORTED_SIMPLE: string := "cbor: unsupported simple value"
  const TRAILING: string := "cbor: trailing bytes after value"
  const SECONDS_RANGE: string := "timestamp: epoch-seconds out of representable range (year 0000-9999)"
  const INSTANT_RANGE: string := "timestamp: instant out of representable range (year 0000-9999)"

  predicate IsBreak(b: Octet) {
    b == 0xFF
  }

  /** A definite argument, or the indefinite-length mark. */
  datatype Argument = Definite(value: nat) | Indefinite

  function WidthOf(info: nat): Width
    requires 24 <= info < 28
  {
    match info
    case 24 => W1
    case 25 => W2
    case 26 => W4
    case _ => W8
  }

  function ReadArgument(info: nat, s: Octets): (r: Outcome<(Argument, Octets)>)
    requires info < 32
    ensures r.Ok? ==> |r.value.1| <= |s|
    ensures r.Ok? && r.value.0.Definite? ==> r.value.0.value < TWO64
  {
    Powers();
    if info < 24 then Ok((Definite(info), s))
    else if info < 28 then
      match Fixed(s, WidthOf(info).Size())
      case None => Err(TRUNCATED_ARGUMENT)
      case Some((bytes, rest)) => WriteRead(bytes); Ok((Definite(FromBigEndian(bytes)), rest))
    else if info == 31 then Ok((Indefinite, s))
    else Err(RESERVED_INFO)
  }

  function Chunks(major: Major, s: Octets): (r: Outcome<(Octets, Octets)>)
    ensures r.Ok? ==> |r.value.1| < |s|
    decreases |s|
  {
    if s == [] then Err(UNTERMINATED)
    else if IsBreak(s[0]) then Ok(([], s[1..]))
    else if MajorPart(s[0]) != major then Err(MIXED_TYPES)
    else
      var (n, t) :- ReadArgument(InfoPart(s[0]), s[1..]);
      if n.Indefinite? then Err(NESTED_CHUNK)
      else
        match Fixed(t, n.value)
        case None => Err(TRUNCATED_CHUNK)
        case Some((chunk, u)) =>
          var (more, rest) :- Chunks(major, u);
          Ok((chunk + more, rest))
  }

  function StringBody(major: Major, n: Argument, s: Octets): (r: Outcome<(Octets, Octets)>)
    ensures r.Ok? ==> |r.value.1| <= |s|
  {
    if n.Indefinite? then Chunks(major, s)
    else
      match Fixed(s, n.value)
      case None => Err(TRUNCATED_STRING)
      case Some(r) => Ok(r)
  }

  /** `FromEpochSecondsChecked` of an integer: every step of it is exact on doubles inside the window. */
  function SecondsToMillis(seconds: Int64): Outcome<Int64> {
    if seconds < -62167219200 || seconds > 253402300800 then Err(SECONDS_RANGE)
    else if seconds * 1000 > MAX_MS then Err(INSTANT_RANGE)
    else Ok(seconds * 1000)
  }

  function Tagged(tag: nat, inner: Document, f: Floats): Outcome<Document> {
    if tag != 1 then Ok(inner)
    else if inner.DInt? then
      var ms :- SecondsToMillis(inner.i);
      Ok(DTime(ms, EpochSeconds))
    else if inner.DDouble? then
      var ms :- f.toMillis(inner.bits);
      Ok(DTime(ms, EpochSeconds))
    else Err(NOT_A_NUMBER)
  }

  function Integer(major: Major, n: Argument): Outcome<Document> {
    if n.Indefinite? then Err(INDEFINITE_INTEGER)
    else if n.value > MAX_INT64 then Err(INTEGER_RANGE)
    else if major.Unsigned? then Ok(DInt(n.value))
    else Ok(DInt(-1 - n.value))
  }

  function FloatOf(w: Width, bits: nat, f: Floats): Bits
    requires w.Fits(bits) && (w == W2 || w == W4 || w == W8)
  {
    Powers();
    if w == W2 then f.half(bits) else if w == W4 then f.single(bits) else bits
  }

  function SimpleValue(info: nat, s: Octets, f: Floats): (r: Outcome<(Document, Octets)>)
    requires info < 32
    ensures r.Ok? ==> |r.value.1| <= |s|
  {
    if info == 20 then Ok((DBool(false), s))
    else if info == 21 then Ok((DBool(true), s))
    else if info == 22 || info == 23 then Ok((DNull, s))
    else if 25 <= info < 28 then
      match Fixed(s, WidthOf(info).Size())
      case None => Err(TRUNCATED_FLOAT)
      case Some((bytes, rest)) => WriteRead(bytes); Ok((DDouble(FloatOf(WidthOf(info), FromBigEndian(bytes), f)), rest))
    else Err(UNSUPPORTED_SIMPLE)
  }

  /** One value off the front, with what is left. */
  function Value(s: Octets, depth: nat, f: Floats): (r: Outcome<(Document, Octets)>)
    ensures r.Ok? ==> |r.value.1| < |s|
    decreases depth, 0
  {
    if depth == 0 then Err(TOO_DEEP)
    else if s == [] then Err(TRUNCATED)
    else
      var major, info := MajorPart(s[0]), InfoPart(s[0]);
      if major.Simple? then SimpleValue(info, s[1..], f)
      else
        var (n, t) :- ReadArgument(info, s[1..]);
        Body(major, n, t, depth - 1, f)
  }

  /** What follows the head of anything but a simple value; depth is what is left for the values inside. */
  function Body(major: Major, n: Argument, s: Octets, depth: nat, f: Floats): (r: Outcome<(Document, Octets)>)
    requires !major.Simple?
    ensures r.Ok? ==> |r.value.1| <= |s|
    decreases depth, if n.Definite? then n.value + 2 else |s| + 3
  {
    match major
    case Unsigned =>
      var d :- Integer(major, n);
      Ok((d, s))
    case Negative =>
      var d :- Integer(major, n);
      Ok((d, s))
    case ByteString =>
      var (bytes, rest) :- StringBody(major, n, s);
      Ok((DBlob(bytes), rest))
    case TextString =>
      var (text, rest) :- StringBody(major, n, s);
      Ok((DText(text), rest))
    case Array =>
      var (items, rest) :- if n.Definite? then Items(s, n.value, depth, f) else ItemsToBreak(s, depth, f);
      Ok((DList(items), rest))
    case Map =>
      var (es, rest) :- if n.Definite? then Entries(s, n.value, depth, f) else EntriesToBreak(s, depth, f);
      Ok((DMap(AssignAll([], es)), rest))
    case Tag =>
      if n.Indefinite? then Err(INDEFINITE_TAG)
      else
        var (inner, rest) :- Value(s, depth, f);
        var d :- Tagged(n.value, inner, f);
        Ok((d, rest))
  }

  function Items(s: Octets, n: nat, depth: nat, f: Floats): (r: Outcome<(seq<Document>, Octets)>)
    ensures r.Ok? ==> |r.value.1| + n <= |s| && |r.value.0| == n
    decreases depth, 1 + n
  {
    if n == 0 then Ok(([], s))
    else
      var (item, t) :- Value(s, depth, f);
      var (items, rest) :- Items(t, n - 1, depth, f);
      Ok(([item] + items, rest))
  }

  function ItemsToBreak(s: Octets, depth: nat, f: Floats): (r: Outcome<(seq<Document>, Octets)>)
    ensures r.Ok? ==> |r.value.1| + |r.value.0| < |s|
    decreases depth, 1 + |s|
  {
    if s != [] && IsBreak(s[0]) then Ok(([], s[1..]))
    else
      var (item, t) :- Value(s, depth, f);
      var (items, rest) :- ItemsToBreak(t, depth, f);
      Ok(([item] + items, rest))
  }

  /** One key and its value; the key must be text. */
  function OneEntry(s: Octets, depth: nat, f: Floats): (r: Outcome<(Entry, Octets)>)
    ensures r.Ok? ==> |r.value.1| + 2 <= |s|
    decreases depth, 1
  {
    var (key, t) :- Value(s, depth, f);
    if !key.DText? then Err(KEY_NOT_TEXT)
    else
      var (value, rest) :- Value(t, depth, f);
      Ok((Entry(key.text, value), rest))
  }

  function Entries(s: Octets, n: nat, depth: nat, f: Floats): (r: Outcome<(seq<Entry>, Octets)>)
    ensures r.Ok? ==> |r.value.1| + 2 * n <= |s| && |r.value.0| == n
    decreases depth, 1 + n
  {
    if n == 0 then Ok(([], s))
    else
      var (e, t) :- OneEntry(s, depth, f);
      var (es, rest) :- Entries(t, n - 1, depth, f);
      Ok(([e] + es, rest))
  }

  function EntriesToBreak(s: Octets, depth: nat, f: Floats): (r: Outcome<(seq<Entry>, Octets)>)
    ensures r.Ok? ==> |r.value.1| + |r.value.0| < |s|
    decreases depth, 2 + |s|
  {
    if s != [] && IsBreak(s[0]) then Ok(([], s[1..]))
    else
      var (e, t) :- OneEntry(s, depth, f);
      var (es, rest) :- EntriesToBreak(t, depth, f);
      Ok(([e] + es, rest))
  }

  function Decode(s: Octets, f: Floats): Outcome<Document> {
    var (d, rest) :- Value(s, MAX_DEPTH, f);
    if rest != [] then Err(TRAILING) else Ok(d)
  }
}

/** Every way to spell a CBOR value, what each means, and that the decoder accepts exactly these. */
module CborSpelling {
  import opened Common
  import opened Crc32
  import opened WireInts
  import opened CborSpec

  /** A CBOR item with the choices the format leaves its writer: argument widths, definite lengths or breaks, chunks. */
  datatype Spelling =
    | SInteger(negative: bool, value: nat, w: Width)
    | SString(text: bool, body: StringForm)
    | SArray(items: seq<Spelling>, length: Length)
    | SMap(pairs: seq<Pair>, length: Length)
    | STag(tag: nat, w: Width, inner: Spelling)
    | SSimple(info: nat)
    | SFloat(w: Width, bits: nat)

  datatype Pair = Pair(key: Spelling, value: Spelling)

  datatype StringForm = Whole(w: Width, bytes: Octets) | Chunked(chunks: seq<Chunk>)

  datatype Chunk = Chunk(w: Width, bytes: Octets)

  datatype Length = Counted(w: Width) | ToBreak

  // ----- which spellings there are -----

  predicate LegalBody(b: StringForm) {
    match b
    case Whole(w, bytes) => w.Fits(|bytes|)
    case Chunked(chunks) => forall c | c in chunks :: c.w.Fits(|c.bytes|)
  }

  predicate LegalLength(n: nat, l: Length) {
    l.Counted? ==> l.w.Fits(n)
  }

  predicate Legal(sp: Spelling)
    decreases sp, 1
  {
    match sp
    case SInteger(_, value, w) => w.Fits(value)
    case SString(_, body) => LegalBody(body)
    case SArray(items, l) => LegalLength(|items|, l) && AllLegal(items)
    case SMap(pairs, l) => LegalLength(|pairs|, l) && PairsLegal(pairs)
    case STag(tag, w, inner) => w.Fits(tag) && Legal(inner)
    case SSimple(info) => 20 <= info < 24
    case SFloat(w, bits) => (w == W2 || w == W4 || w == W8) && w.Fits(bits)
  }

  predicate AllLegal(items: seq<Spelling>)
    decreases items
  {
    items == [] || (Legal(items[0]) && AllLegal(items[1..]))
  }

  predicate PairsLegal(pairs: seq<Pair>)
    decreases pairs
  {
    pairs == [] || (PairLegal(pairs[0]) && PairsLegal(pairs[1..]))
  }

  predicate PairLegal(p: Pair)
    decreases p
  {
    Legal(p.key) && Legal(p.value)
  }

  function Max(a: nat, b: nat): nat {
    if a > b then a else b
  }

  /** How many values deep it goes. */
  function Height(sp: Spelling): (r: nat)
    ensures r >= 1
    decreases sp, 1
  {
    match sp
    case SArray(items, _) => 1 + Heights(items)
    case SMap(pairs, _) => 1 + PairHeights(pairs)
    case STag(_, _, inner) => 1 + Height(inner)
    case _ => 1
  }

  function Heights(items: seq<Spelling>): nat
    decreases items
  {
    if items == [] then 0 else Max(Height(items[0]), Heights(items[1..]))
  }

  function PairHeights(pairs: seq<Pair>): nat
    decreases pairs
  {
    if pairs == [] then 0 else Max(PairHeight(pairs[0]), PairHeights(pairs[1..]))
  }

  function PairHeight(p: Pair): nat
    decreases p
  {
    Max(Height(p.key), Height(p.value))
  }

  // ----- how it is written -----

  const BREAK: Octet := 0xFF

  function StringMajor(text: bool): Major {
    if text then TextString else ByteString
  }

  function WriteChunks(major: Major, chunks: seq<Chunk>): Octets
    requires forall c | c in chunks :: c.w.Fits(|c.bytes|)
  {
    if chunks == [] then [BREAK]
    else
      assert chunks[0] in chunks;
      Head(major, |chunks[0].bytes|, chunks[0].w) + chunks[0].bytes + WriteChunks(major, chunks[1..])
  }

  /** The initial byte of an item of indefinite length. */
  function Open(major: Major): Octet {
    Initial(major, 31)
  }

  function WriteString(major: Major, b: StringForm): Octets
    requires LegalBody(b)
  {
    match b
    case Whole(w, bytes) => Head(major, |bytes|, w) + bytes
    case Chunked(chunks) => [Open(major)] + WriteChunks(major, chunks)
  }

  /** The head of a container and what closes it. */
  function LengthHead(major: Major, n: nat, l: Length): Octets
    requires LegalLength(n, l)
  {
    match l
    case Counted(w) => Head(major, n, w)
    case ToBreak => [Open(major)]
  }

  function Closing(l: Length): Octets {
    if l.ToBreak? then [BREAK] else []
  }

  function Write(sp: Spelling): (r: Octets)
    requires Legal(sp)
    decreases sp, 1
  {
    match sp
    case SInteger(negative, value, w) => Head(if negative then Negative else Major.Unsigned, value, w)
    case SString(text, body) => WriteString(StringMajor(text), body)
    case SArray(items, l) => LengthHead(Array, |items|, l) + (WriteAll(items) + Closing(l))
    case SMap(pairs, l) => LengthHead(Map, |pairs|, l) + (WritePairs(pairs) + Closing(l))
    case STag(tag, w, inner) => Head(Tag, tag, w) + Write(inner)
    case SSimple(info) => [Initial(Simple, info)]
    case SFloat(w, bits) => Head(Simple, bits, w)
  }

  function WriteAll(items: seq<Spelling>): Octets
    requires AllLegal(items)
    decreases items
  {
    if items == [] then [] else Write(items[0]) + WriteAll(items[1..])
  }

  function WritePairs(pairs: seq<Pair>): Octets
    requires PairsLegal(pairs)
    decreases pairs
  {
    if pairs == [] then [] else WritePair(pairs[0]) + WritePairs(pairs[1..])
  }

  function WritePair(p: Pair): Octets
    requires PairLegal(p)
    decreases p
  {
    Write(p.key) + Write(p.value)
  }

  // ----- what it means -----

  function Joined(chunks: seq<Chunk>): Octets {
    if chunks == [] then [] else chunks[0].bytes + Joined(chunks[1..])
  }

  function Text(b: StringForm): Octets {
    match b
    case Whole(_, bytes) => bytes
    case Chunked(chunks) => Joined(chunks)
  }

  /** The document a spelling stands for, or why there is none. Widths, breaks and chunks play no part. */
  function Meaning(sp: Spelling, f: Floats): Outcome<Document>
    requires Legal(sp)
    decreases sp, 1
  {
    match sp
    case SInteger(negative, value, _) =>
      if value > MAX_INT64 then Err(INTEGER_RANGE) else Ok(DInt(if negative then -1 - value else value))
    case SString(text, body) => Ok(if text then DText(Text(body)) else DBlob(Text(body)))
    case SArray(items, _) =>
      var ds :- Meanings(items, f);
      Ok(DList(ds))
    case SMap(pairs, _) =>
      var es :- PairMeanings(pairs, f);
      Ok(DMap(AssignAll([], es)))
    case STag(tag, _, inner) =>
      var d :- Meaning(inner, f);
      Tagged(tag, d, f)
    case SSimple(info) => Ok(if info == 20 then DBool(false) else if info == 21 then DBool(true) else DNull)
    case SFloat(w, bits) => Ok(DDouble(FloatOf(w, bits, f)))
  }

  function Meanings(items: seq<Spelling>, f: Floats): (r: Outcome<seq<Document>>)
    requires AllLegal(items)
    ensures r.Ok? ==> |r.value| == |items|
    decreases items
  {
    if items == [] then Ok([])
    else
      var d :- Meaning(items[0], f);
      var ds :- Meanings(items[1..], f);
      Ok([d] + ds)
  }

  function PairMeaning(p: Pair, f: Floats): Outcome<Entry>
    requires PairLegal(p)
    decreases p
  {
    var key :- Meaning(p.key, f);
    if !key.DText? then Err(KEY_NOT_TEXT)
    else
      var value :- Meaning(p.value, f);
      Ok(Entry(key.text, value))
  }

  function PairMeanings(pairs: seq<Pair>, f: Floats): (r: Outcome<seq<Entry>>)
    requires PairsLegal(pairs)
    ensures r.Ok? ==> |r.value| == |pairs|
    decreases pairs
  {
    if pairs == [] then Ok([])
    else
      var e :- PairMeaning(pairs[0], f);
      var es :- PairMeanings(pairs[1..], f);
      Ok([e] + es)
  }

  // ----- heads -----

  lemma InitialParts(major: Major, info: nat)
    requires info < 32
    ensures MajorPart(Initial(major, info)) == major && InfoPart(Initial(major, info)) == info
    ensures IsBreak(Initial(major, info)) <==> major.Simple? && info == 31
  {
    OctetOfInt(major.Code() * 32 + info);
    Parts(major, info);
    BreakByte(Initial(major, info));
    hide ToOctet, FromOctet;
  }

  lemma Parts(major: Major, info: nat)
    requires info < 32
    ensures (major.Code() * 32 + info) / 32 == major.Code() && (major.Code() * 32 + info) % 32 == info
    ensures MajorOf(major.Code()) == major && (major.Code() == 7 <==> major.Simple?)
  {
  }

  lemma BreakByte(b: Octet)
    ensures IsBreak(b) <==> FromOctet(b) == 255
  {
  }

  lemma PartsInitial(b: Octet)
    ensures Initial(MajorPart(b), InfoPart(b)) == b
  {
    var x := FromOctet(b);
    assert MajorOf(x / 32).Code() == x / 32;
    assert x / 32 * 32 + x % 32 == x;
    IntOfOctet(b);
    hide ToOctet, FromOctet;
  }

  lemma ReadDirect(major: Major, value: nat, rest: Octets)
    requires value < 24
    ensures var s := [Initial(major, value)] + rest; s[1..] == rest && ReadArgument(value, rest) == Ok((Definite(value), rest))
  {
  }

  lemma ReadWide(value: nat, w: Width, rest: Octets)
    requires w != W0 && value < Pow256(w.Size())
    ensures ReadArgument(w.Info(), BigEndian(value, w.Size()) + rest) == Ok((Definite(value), rest))
  {
    hide BigEndian, FromBigEndian, Pow256, Fixed;
    ReadWritten(value, w.Size());
    FixedOf(BigEndian(value, w.Size()), rest);
    assert WidthOf(w.Info()) == w;
  }

  /** Reading the argument of a written head. */
  lemma ReadHead(major: Major, value: nat, w: Width, rest: Octets)
    requires w.Fits(value)
    ensures var s := Head(major, value, w) + rest;
            s != [] && MajorPart(s[0]) == major && !IsBreak(s[0]) &&
            ReadArgument(InfoPart(s[0]), s[1..]) == Ok((Definite(value), rest))
  {
    hide BigEndian, FromBigEndian, Pow256, Initial, MajorPart, InfoPart, IsBreak, ReadArgument;
    var s := Head(major, value, w) + rest;
    if w == W0 {
      InitialParts(major, value);
      ReadDirect(major, value, rest);
    } else {
      InitialParts(major, w.Info());
      ReadWide(value, w, rest);
      assert s[1..] == BigEndian(value, w.Size()) + rest;
    }
  }

  lemma ReadOpen(major: Major, rest: Octets)
    requires !major.Simple?
    ensures var s := [Open(major)] + rest;
            s != [] && MajorPart(s[0]) == major && !IsBreak(s[0]) && ReadArgument(InfoPart(s[0]), s[1..]) == Ok((Indefinite, rest))
  {
    InitialParts(major, 31);
    assert ([Open(major)] + rest)[1..] == rest;
  }

  /** Every argument that is read was written by some head. */
  lemma HeadOf(s: Octets) returns (w: Width)
    requires s != [] && ReadArgument(InfoPart(s[0]), s[1..]).Ok?
    requires ReadArgument(InfoPart(s[0]), s[1..]).value.0.Definite?
    ensures var (n, rest) := ReadArgument(InfoPart(s[0]), s[1..]).value;
            w.Fits(n.value) && s == Head(MajorPart(s[0]), n.value, w) + rest
  {
    hide Pow256, BigEndian, FromBigEndian, FromOctet, ToOctet;
    var info := InfoPart(s[0]);
    var (n, rest) := ReadArgument(info, s[1..]).value;
    PartsInitial(s[0]);
    hide InfoPart, MajorPart, Initial;
    if info < 24 {
      w := W0;
      assert s == [s[0]] + s[1..];
    } else {
      w := WidthOf(info);
      var bytes := Fixed(s[1..], w.Size()).value.0;
      WriteRead(bytes);
      assert s == [s[0]] + (bytes + rest);
      assert s == [s[0]] + bytes + rest;
    }
  }
}

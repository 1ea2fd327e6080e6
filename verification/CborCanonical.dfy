/** The spelling the encoder picks; encoding then decoding, and no encoding inside another. */
module CborCanonical {
  import opened Common
  import opened Crc32
  import opened WireInts
  import opened TimestampSpec
  import opened CborSpec
  import opened CborSpelling
  import opened CborProps
  import opened CborRoundTrip

  // ----- the order of keys -----

  lemma {:induction false} LessIsStrict(a: Octets, b: Octets)
    ensures !(Less(a, b) && Less(b, a)) && (Less(a, b) || Less(b, a) || a == b) && !Less(a, a)
  {
    if a != [] {
      LessIsStrict(a[1..], a[1..]);
      if b != [] {
        if a[0] == b[0] {
          LessIsStrict(a[1..], b[1..]);
          assert a == [a[0]] + a[1..] && b == [b[0]] + b[1..];
        } else {
          Distinct(a[0], b[0]);
        }
      }
    }
    hide FromOctet;
  }

  lemma Distinct(a: Octet, b: Octet)
    ensures FromOctet(a) == FromOctet(b) ==> a == b
  {
    IntOfOctet(a);
    IntOfOctet(b);
  }

  /** A key above all others goes to the end. */
  lemma {:induction false} AssignLast(es: seq<Entry>, e: Entry)
    requires forall i | 0 <= i < |es| :: Less(es[i].key, e.key)
    ensures Assign(es, e) == es + [e]
  {
    if es != [] {
      LessIsStrict(es[0].key, e.key);
      hide Less;
      AssignLast(es[1..], e);
      assert es == [es[0]] + es[1..];
    }
  }

  lemma {:induction false} AssignSorted(es: seq<Entry>, more: seq<Entry>)
    requires Sorted(es + more)
    ensures AssignAll(es, more) == es + more
    decreases |more|
  {
    hide Less, Assign;
    if more == [] {
      assert es + more == es;
    } else {
      var all := es + more;
      forall i | 0 <= i < |es|
        ensures Less(es[i].key, more[0].key)
      {
        assert all[i] == es[i] && all[|es|] == more[0];
      }
      AssignLast(es, more[0]);
      assert es + [more[0]] + more[1..] == all;
      AssignSorted(es + [more[0]], more[1..]);
    }
  }

  // ----- the encoder's spelling -----

  function CanonInt(v: Int64): Spelling {
    if v >= 0 then SInteger(false, v, Smallest(v)) else SInteger(true, -(v + 1), Smallest(-(v + 1)))
  }

  function CanonText(s: Octets): Spelling
    requires |s| < TWO64
  {
    SString(true, Whole(Smallest(|s|), s))
  }

  function Canon(d: Document, f: Floats): Spelling
    requires Storable(d)
    decreases d, 1
  {
    match d
    case DNull => SSimple(22)
    case DBool(b) => SSimple(if b then 21 else 20)
    case DInt(i) => CanonInt(i)
    case DDouble(bits) => SFloat(W8, bits)
    case DText(s) => CanonText(s)
    case DBlob(s) => SString(false, Whole(Smallest(|s|), s))
    case DTime(ms, _) => STag(1, W0, if ms % 1000 == 0 then CanonInt(ms / 1000) else SFloat(W8, f.ofMillis(ms)))
    case DList(items) => SArray(CanonAll(items, f), Counted(Smallest(|items|)))
    case DMap(es) => SMap(CanonEntries(es, f), Counted(Smallest(|es|)))
  }

  function CanonAll(items: seq<Document>, f: Floats): (r: seq<Spelling>)
    requires AllStorable(items)
    ensures |r| == |items|
    decreases items
  {
    if items == [] then [] else [Canon(items[0], f)] + CanonAll(items[1..], f)
  }

  function CanonEntry(e: Entry, f: Floats): Pair
    requires |e.key| < TWO64 && Storable(e.value)
    decreases e
  {
    Pair(CanonText(e.key), Canon(e.value, f))
  }

  function CanonEntries(es: seq<Entry>, f: Floats): (r: seq<Pair>)
    requires EntriesStorable(es)
    ensures |r| == |es|
    decreases es
  {
    if es == [] then [] else [CanonEntry(es[0], f)] + CanonEntries(es[1..], f)
  }

  /** How many values deep a document is on the wire; a timestamp is a tag around a number. */
  function Levels(d: Document): nat
    decreases d, 1
  {
    match d
    case DTime(_, _) => 2
    case DList(items) => 1 + AllLevels(items)
    case DMap(es) => 1 + EntryLevels(es)
    case _ => 1
  }

  function AllLevels(items: seq<Document>): nat
    decreases items
  {
    if items == [] then 0 else Max(Levels(items[0]), AllLevels(items[1..]))
  }

  function EntryLevels(es: seq<Entry>): nat
    decreases es
  {
    if es == [] then 0 else Max(Max(1, Levels(es[0].value)), EntryLevels(es[1..]))
  }

  /** The wire does not carry a timestamp's format. */
  function Normal(d: Document): Document
    decreases d, 1
  {
    match d
    case DTime(ms, _) => DTime(ms, EpochSeconds)
    case DList(items) => DList(AllNormal(items))
    case DMap(es) => DMap(EntriesNormal(es))
    case _ => d
  }

  function AllNormal(items: seq<Document>): (r: seq<Document>)
    ensures |r| == |items|
    decreases items
  {
    if items == [] then [] else [Normal(items[0])] + AllNormal(items[1..])
  }

  function EntriesNormal(es: seq<Entry>): (r: seq<Entry>)
    ensures |r| == |es| && forall i | 0 <= i < |r| :: r[i].key == es[i].key
    decreases es
  {
    if es == [] then [] else [Entry(es[0].key, Normal(es[0].value))] + EntriesNormal(es[1..])
  }

  /** Whole seconds survive inside the years 0000 to 9999; a fraction when the doubles carry it there and back. */
  predicate TimeSurvives(ms: Int64, f: Floats) {
    if ms % 1000 == 0 then MIN_MS <= ms <= MAX_MS else f.toMillis(f.ofMillis(ms)) == Ok(ms)
  }

  predicate TimesSurvive(d: Document, f: Floats)
    decreases d, 1
  {
    match d
    case DTime(ms, _) => TimeSurvives(ms, f)
    case DList(items) => AllSurvive(items, f)
    case DMap(es) => EntriesSurvive(es, f)
    case _ => true
  }

  predicate AllSurvive(items: seq<Document>, f: Floats)
    decreases items
  {
    items == [] || (TimesSurvive(items[0], f) && AllSurvive(items[1..], f))
  }

  predicate EntriesSurvive(es: seq<Entry>, f: Floats)
    decreases es
  {
    es == [] || (TimesSurvive(es[0].value, f) && EntriesSurvive(es[1..], f))
  }

  // ----- the encoder writes it -----

  lemma CanonIntWritten(v: Int64, f: Floats)
    ensures var sp := CanonInt(v); Legal(sp) && Write(sp) == EncodeInt(v) && Height(sp) == 1 && Meaning(sp, f) == Ok(DInt(v))
  {
    hide Smallest, Head;
  }

  lemma DoubleWritten(bits: Bits, f: Floats)
    ensures var sp := SFloat(W8, bits);
            Legal(sp) && Write(sp) == EncodeDouble(bits) && Height(sp) == 1 && Meaning(sp, f) == Ok(DDouble(bits))
  {
    Powers();
    hide Head;
  }

  lemma TimeWritten(ms: Int64, format: TimestampFormat, f: Floats)
    ensures var d := DTime(ms, format); var sp := Canon(d, f);
            Legal(sp) && Write(sp) == Encode(d, f) && Height(sp) == 2 &&
            (Meaning(sp, f) == Ok(Normal(d)) <==> TimeSurvives(ms, f))
  {
    hide Smallest, Head, EncodeInt, EncodeDouble;
    var d := DTime(ms, format);
    assert Smallest(1) == W0 by { SmallestOne(); }
    if ms % 1000 == 0 {
      CanonIntWritten(ms / 1000, f);
      hide CanonInt;
    } else {
      DoubleWritten(f.ofMillis(ms), f);
    }
  }

  lemma SmallestOne()
    ensures Smallest(1) == W0
  {
  }

  lemma {:induction false} CanonWritten(d: Document, f: Floats)
    requires Storable(d)
    ensures var sp := Canon(d, f);
            Legal(sp) && Write(sp) == Encode(d, f) && Height(sp) == Levels(d) &&
            (Meaning(sp, f) == Ok(Normal(d)) <==> TimesSurvive(d, f))
    decreases d, 1
  {
    hide Smallest, Head, EncodeInt, EncodeDouble;
    match d
    case DInt(i) => CanonIntWritten(i, f);
    case DDouble(bits) => DoubleWritten(bits, f);
    case DTime(ms, format) => TimeWritten(ms, format, f);
    case DList(items) => AllCanonWritten(items, f);
    case DMap(es) => MapCanonWritten(es, f);
    case _ =>
  }

  lemma {:induction false} MapCanonWritten(es: seq<Entry>, f: Floats)
    requires Storable(DMap(es))
    ensures var sp := Canon(DMap(es), f);
            Legal(sp) && Write(sp) == Encode(DMap(es), f) && Height(sp) == Levels(DMap(es)) &&
            (Meaning(sp, f) == Ok(Normal(DMap(es))) <==> TimesSurvive(DMap(es), f))
    decreases es, 2
  {
    EntriesCanonWritten(es, f);
    var pairs := CanonEntries(es, f);
    if PairMeanings(pairs, f).Ok? {
      var got := PairMeanings(pairs, f).value;
      SortedLike(es, got);
      AssignSorted([], got);
      assert [] + got == got;
    }
    hide Smallest, Head, Sorted, AssignAll, PairMeanings, WritePairs, EncodeEntries, PairHeights, EntryLevels, CanonEntries,
      EntriesNormal, EntriesSurvive;
  }

  lemma SortedLike(es: seq<Entry>, other: seq<Entry>)
    requires Sorted(es) && |other| == |es| && forall i | 0 <= i < |es| :: other[i].key == es[i].key
    ensures Sorted([] + other)
  {
    hide Less;
    assert [] + other == other;
  }

  lemma {:induction false} AllCanonWritten(items: seq<Document>, f: Floats)
    requires AllStorable(items)
    ensures var sps := CanonAll(items, f);
            AllLegal(sps) && WriteAll(sps) == EncodeAll(items, f) && Heights(sps) == AllLevels(items) &&
            (Meanings(sps, f) == Ok(AllNormal(items)) <==> AllSurvive(items, f))
    decreases items
  {
    if items != [] {
      CanonWritten(items[0], f);
      AllCanonWritten(items[1..], f);
      var sps := CanonAll(items, f);
      assert sps[0] == Canon(items[0], f) && sps[1..] == CanonAll(items[1..], f);
      if Meanings(sps, f).Ok? {
        var ds, ns := Meanings(sps, f).value, AllNormal(items);
        assert ds[0] == Meaning(sps[0], f).value && ds[1..] == Meanings(sps[1..], f).value;
        assert ns[0] == Normal(items[0]) && ns[1..] == AllNormal(items[1..]);
      }
      hide Canon, Encode, Write, Meaning, Height, Levels, Normal, TimesSurvive, Storable, Legal;
    }
  }

  lemma TextWritten(s: Octets, f: Floats)
    requires |s| < TWO64
    ensures var sp := CanonText(s); Legal(sp) && Write(sp) == EncodeText(s) && Height(sp) == 1 && Meaning(sp, f) == Ok(DText(s))
  {
    hide Smallest, Head;
  }

  lemma EntryWritten(e: Entry, f: Floats)
    requires |e.key| < TWO64 && Storable(e.value)
    ensures var p := CanonEntry(e, f);
            PairLegal(p) && WritePair(p) == EncodeText(e.key) + Encode(e.value, f) && PairHeight(p) == Max(1, Levels(e.value)) &&
            (PairMeaning(p, f).Ok? ==> PairMeaning(p, f).value.key == e.key) &&
            (PairMeaning(p, f) == Ok(Entry(e.key, Normal(e.value))) <==> TimesSurvive(e.value, f))
    decreases e
  {
    TextWritten(e.key, f);
    CanonWritten(e.value, f);
    hide CanonText, Canon, Encode, Write, Meaning, Height, Levels, Normal, TimesSurvive, Storable, Legal;
  }

  lemma {:induction false} EntriesCanonWritten(es: seq<Entry>, f: Floats)
    requires EntriesStorable(es)
    ensures var ps := CanonEntries(es, f);
            PairsLegal(ps) && WritePairs(ps) == EncodeEntries(es, f) && PairHeights(ps) == EntryLevels(es) &&
            (PairMeanings(ps, f).Ok? ==> forall i | 0 <= i < |es| :: PairMeanings(ps, f).value[i].key == es[i].key) &&
            (PairMeanings(ps, f) == Ok(EntriesNormal(es)) <==> EntriesSurvive(es, f))
    decreases es, 1
  {
    if es != [] {
      EntryWritten(es[0], f);
      EntriesCanonWritten(es[1..], f);
      var ps := CanonEntries(es, f);
      assert ps[0] == CanonEntry(es[0], f) && ps[1..] == CanonEntries(es[1..], f);
      if PairMeanings(ps, f).Ok? {
        var got, ns := PairMeanings(ps, f).value, EntriesNormal(es);
        assert got[0] == PairMeaning(ps[0], f).value && got[1..] == PairMeanings(ps[1..], f).value;
        assert ns[0] == Entry(es[0].key, Normal(es[0].value)) && ns[1..] == EntriesNormal(es[1..]);
        forall i | 0 <= i < |es|
          ensures got[i].key == es[i].key
        {
          if i > 0 {
            assert got[i] == got[1..][i - 1] && es[i] == es[1..][i - 1];
          }
        }
      }
      hide CanonEntry, Encode, EncodeText, WritePair, PairMeaning, PairHeight, Levels, Normal, TimesSurvive, Storable, PairLegal;
    }
  }

  // ----- the theorems -----

  /** Decoding an encoded document returns it, but for timestamp formats, exactly up to 64 levels and surviving times. */
  lemma {:induction false} RoundTrip(d: Document, f: Floats)
    requires Storable(d)
    ensures Decode(Encode(d, f), f) == Ok(Normal(d)) <==> Levels(d) <= MAX_DEPTH && TimesSurvive(d, f)
    ensures Levels(d) > MAX_DEPTH ==> Decode(Encode(d, f), f).Err?
  {
    CanonWritten(d, f);
    DecodeSpelling(Canon(d, f), f);
    hide Canon, Encode, Decode, Write, Meaning, Height, Levels, Normal, TimesSurvive, Storable, Legal;
  }

  // ----- at most one spelling -----

  /** Two heads at the front of one sequence are the same head. */
  lemma SameHead(a: Major, v: nat, w: Width, x: Octets, b: Major, u: nat, w': Width, y: Octets)
    requires w.Fits(v) && w'.Fits(u) && Head(a, v, w) + x == Head(b, u, w') + y
    ensures a == b && v == u && w == w' && x == y
  {
    ReadHead(a, v, w, x);
    ReadHead(b, u, w', y);
    HeadInfo(a, v, w, x);
    HeadInfo(b, u, w', y);
    hide ReadArgument, MajorPart, InfoPart, Head, IsBreak;
  }

  /** The additional information of a head. */
  function InfoOf(v: nat, w: Width): nat {
    if w == W0 then v else w.Info()
  }

  lemma HeadInfo(major: Major, v: nat, w: Width, x: Octets)
    requires w.Fits(v)
    ensures var s := Head(major, v, w) + x; MajorPart(s[0]) == major && InfoPart(s[0]) == InfoOf(v, w)
  {
    InitialParts(major, InfoOf(v, w));
    hide MajorPart, InfoPart, Initial, BigEndian, Pow256;
  }

  function MajorOfSpelling(sp: Spelling): Major {
    match sp
    case SInteger(negative, _, _) => if negative then Negative else Major.Unsigned
    case SString(text, _) => StringMajor(text)
    case SArray(_, _) => Array
    case SMap(_, _) => Map
    case STag(_, _, _) => Tag
    case SSimple(_) => Simple
    case SFloat(_, _) => Simple
  }

  function LengthInfo(n: nat, l: Length): nat {
    if l.ToBreak? then 31 else InfoOf(n, l.w)
  }

  function InfoOfSpelling(sp: Spelling): nat {
    match sp
    case SInteger(_, value, w) => InfoOf(value, w)
    case SString(_, body) => if body.Chunked? then 31 else InfoOf(|body.bytes|, body.w)
    case SArray(items, l) => LengthInfo(|items|, l)
    case SMap(pairs, l) => LengthInfo(|pairs|, l)
    case STag(tag, w, _) => InfoOf(tag, w)
    case SSimple(info) => info
    case SFloat(w, bits) => InfoOf(bits, w)
  }

  lemma FirstByte(major: Major, info: nat, s: Octets)
    requires info < 32 && s != [] && s[0] == Initial(major, info)
    ensures MajorPart(s[0]) == major && InfoPart(s[0]) == info
  {
    InitialParts(major, info);
    hide MajorPart, InfoPart, Initial;
  }

  /** The first byte tells the kind of item and how its argument is written. */
  lemma SpellingInfo(sp: Spelling, x: Octets)
    requires Legal(sp)
    ensures var s := Write(sp) + x; s != [] && MajorPart(s[0]) == MajorOfSpelling(sp) && InfoPart(s[0]) == InfoOfSpelling(sp)
  {
    hide BigEndian, Pow256, WriteAll, WritePairs, WriteChunks, Initial, MajorPart, InfoPart, StringMajor;
    var s := Write(sp) + x;
    FirstByteOf(sp);
    hide Write;
    FirstByte(MajorOfSpelling(sp), InfoOfSpelling(sp), s);
  }

  lemma FirstByteOf(sp: Spelling)
    requires Legal(sp)
    ensures InfoOfSpelling(sp) < 32 && Write(sp) != [] && Write(sp)[0] == Initial(MajorOfSpelling(sp), InfoOfSpelling(sp))
  {
    hide BigEndian, Pow256, WriteAll, WritePairs, WriteChunks, Initial, StringMajor;
  }

  lemma SamePrefix<T>(a: seq<T>, x: seq<T>, b: seq<T>, y: seq<T>)
    requires a + x == b + y && |a| == |b|
    ensures a == b && x == y
  {
    assert (a + x)[..|a|] == a && (b + y)[..|a|] == b && (a + x)[|a|..] == x && (b + y)[|a|..] == y;
  }

  lemma ChunkStarts(major: Major, chunks: seq<Chunk>, x: Octets)
    requires !major.Simple? && chunks != [] && forall c | c in chunks :: c.w.Fits(|c.bytes|)
    ensures (WriteChunks(major, chunks) + x)[0] != BREAK
  {
    assert chunks[0] in chunks;
    ChunkInFront(major, chunks, x);
    ReadHead(major, |chunks[0].bytes|, chunks[0].w, chunks[0].bytes + (WriteChunks(major, chunks[1..]) + x));
    hide Head, ReadArgument, MajorPart, InfoPart;
  }

  lemma {:induction false} ChunksUnambiguous(major: Major, a: seq<Chunk>, x: Octets, b: seq<Chunk>, y: Octets)
    requires !major.Simple? && (forall c | c in a :: c.w.Fits(|c.bytes|)) && (forall c | c in b :: c.w.Fits(|c.bytes|))
    requires WriteChunks(major, a) + x == WriteChunks(major, b) + y
    ensures a == b && x == y
    decreases |a| + |b|
  {
    if a == [] && b == [] {
      SamePrefix([BREAK], x, [BREAK], y);
    } else if a == [] || b == [] {
      ChunkStarts(major, if a == [] then b else a, if a == [] then y else x);
      hide Head, MajorPart, InfoPart;
      assert false;
    } else {
      assert a[0] in a && b[0] in b;
      ChunkInFront(major, a, x);
      ChunkInFront(major, b, y);
      var s, t := WriteChunks(major, a[1..]) + x, WriteChunks(major, b[1..]) + y;
      SameHead(major, |a[0].bytes|, a[0].w, a[0].bytes + s, major, |b[0].bytes|, b[0].w, b[0].bytes + t);
      SamePrefix(a[0].bytes, s, b[0].bytes, t);
      hide WriteChunks, Head;
      ChunksUnambiguous(major, a[1..], x, b[1..], y);
      assert a == [a[0]] + a[1..] && b == [b[0]] + b[1..];
    }
  }

  lemma StringUnambiguous(a: Spelling, x: Octets, b: Spelling, y: Octets)
    requires Legal(a) && Legal(b) && a.SString? && b.SString? && a.text == b.text && a.body.Whole? == b.body.Whole?
    requires Write(a) + x == Write(b) + y
    ensures a == b && x == y
  {
    var major := StringMajor(a.text);
    hide Head, WriteChunks, Open;
    if a.body.Whole? {
      var n, m := |a.body.bytes|, |b.body.bytes|;
      Regroup(Head(major, n, a.body.w), a.body.bytes, x);
      Regroup(Head(major, m, b.body.w), b.body.bytes, y);
      SameHead(major, n, a.body.w, a.body.bytes + x, major, m, b.body.w, b.body.bytes + y);
      SamePrefix(a.body.bytes, x, b.body.bytes, y);
    } else {
      var s, t := WriteChunks(major, a.body.chunks), WriteChunks(major, b.body.chunks);
      Regroup([Open(major)], s, x);
      Regroup([Open(major)], t, y);
      SamePrefix([Open(major)], s + x, [Open(major)], t + y);
      ChunksUnambiguous(major, a.body.chunks, x, b.body.chunks, y);
    }
  }

  /** The head of a container in front of what it holds. */
  lemma SameLength(major: Major, n: nat, l: Length, s: Octets, m: nat, k: Length, t: Octets)
    requires LegalLength(n, l) && LegalLength(m, k) && l.ToBreak? == k.ToBreak?
    requires LengthHead(major, n, l) + s == LengthHead(major, m, k) + t
    ensures l == k && s == t && (l.Counted? ==> n == m)
  {
    hide Head, Open;
    if l.Counted? {
      SameHead(major, n, l.w, s, major, m, k.w, t);
    } else {
      SamePrefix([Open(major)], s, [Open(major)], t);
    }
  }

  predicate BreakFirst(s: Octets) {
    s != [] && IsBreak(s[0])
  }

  /** No byte sequence starts with two different spellings. */
  lemma {:induction false} Unambiguous(a: Spelling, x: Octets, b: Spelling, y: Octets)
    requires Legal(a) && Legal(b) && Write(a) + x == Write(b) + y
    ensures a == b && x == y
    decreases a, 1
  {
    SpellingInfo(a, x);
    SpellingInfo(b, y);
    SameKind(a, b);
    hide Head, MajorPart, InfoPart, LengthHead, WriteAll, WritePairs, Open, WriteString;
    match a
    case SInteger(_, value, w) =>
      SameHead(MajorOfSpelling(a), value, w, x, MajorOfSpelling(b), b.value, b.w, y);
    case SString(_, _) => StringUnambiguous(a, x, b, y);
    case SArray(items, l) => ArrayUnambiguous(items, l, x, b.items, b.length, y);
    case SMap(pairs, l) => MapUnambiguous(pairs, l, x, b.pairs, b.length, y);
    case STag(tag, w, inner) =>
      Regroup(Head(Tag, tag, w), Write(inner), x);
      Regroup(Head(Tag, b.tag, b.w), Write(b.inner), y);
      SameHead(Tag, tag, w, Write(inner) + x, Tag, b.tag, b.w, Write(b.inner) + y);
      Unambiguous(inner, x, b.inner, y);
    case SSimple(info) => SamePrefix(Write(a), x, Write(b), y);
    case SFloat(w, bits) => SameHead(Simple, bits, w, x, Simple, b.bits, b.w, y);
  }

  lemma SameKind(a: Spelling, b: Spelling)
    requires Legal(a) && Legal(b) && MajorOfSpelling(a) == MajorOfSpelling(b) && InfoOfSpelling(a) == InfoOfSpelling(b)
    ensures match a
            case SInteger(negative, _, _) => b.SInteger? && b.negative == negative
            case SString(text, body) => b.SString? && b.text == text && b.body.Whole? == body.Whole?
            case SArray(_, l) => b.SArray? && b.length.ToBreak? == l.ToBreak?
            case SMap(_, l) => b.SMap? && b.length.ToBreak? == l.ToBreak?
            case STag(_, _, _) => b.STag?
            case SSimple(info) => b == a
            case SFloat(w, _) => b.SFloat?
  {
    hide AllLegal, PairsLegal, Pow256;
  }

  lemma ArrayUnambiguous(a: seq<Spelling>, l: Length, x: Octets, b: seq<Spelling>, k: Length, y: Octets)
    requires Legal(SArray(a, l)) && Legal(SArray(b, k)) && l.ToBreak? == k.ToBreak?
    requires Write(SArray(a, l)) + x == Write(SArray(b, k)) + y
    ensures a == b && l == k && x == y
    decreases a, 2
  {
    hide Head, Open, WriteAll, LengthHead;
    Regroup(LengthHead(Array, |a|, l), WriteAll(a) + Closing(l), x);
    Regroup(LengthHead(Array, |b|, k), WriteAll(b) + Closing(k), y);
    SameLength(Array, |a|, l, WriteAll(a) + Closing(l) + x, |b|, k, WriteAll(b) + Closing(k) + y);
    Regroup(WriteAll(a), Closing(l), x);
    Regroup(WriteAll(b), Closing(k), y);
    AllUnambiguous(a, Closing(l) + x, b, Closing(k) + y);
    SamePrefix(Closing(l), x, Closing(k), y);
  }

  lemma ItemsStart(items: seq<Spelling>)
    requires items != [] && AllLegal(items)
    ensures WriteAll(items) != [] && !BreakFirst(WriteAll(items))
  {
    Starts(items[0]);
    hide Write, IsBreak;
  }

  lemma PairsStart(pairs: seq<Pair>)
    requires pairs != [] && PairsLegal(pairs)
    ensures WritePairs(pairs) != [] && !BreakFirst(WritePairs(pairs))
  {
    Starts(pairs[0].key);
    assert WritePairs(pairs) == Write(pairs[0].key) + Write(pairs[0].value) + WritePairs(pairs[1..]);
    hide Write, IsBreak;
  }

  lemma {:induction false} AllUnambiguous(a: seq<Spelling>, x: Octets, b: seq<Spelling>, y: Octets)
    requires AllLegal(a) && AllLegal(b) && WriteAll(a) + x == WriteAll(b) + y
    requires |a| == |b| || (BreakFirst(x) && BreakFirst(y))
    ensures a == b && x == y
    decreases a, 1
  {
    hide Write, Legal;
    if a == [] || b == [] {
      assert [] + x == x && [] + y == y;
      if a != [] || b != [] {
        ItemsStart(if a == [] then b else a);
        assert false;
      }
    } else {
      Regroup(Write(a[0]), WriteAll(a[1..]), x);
      Regroup(Write(b[0]), WriteAll(b[1..]), y);
      Unambiguous(a[0], WriteAll(a[1..]) + x, b[0], WriteAll(b[1..]) + y);
      AllUnambiguous(a[1..], x, b[1..], y);
      assert a == [a[0]] + a[1..] && b == [b[0]] + b[1..];
    }
  }

  lemma MapUnambiguous(a: seq<Pair>, l: Length, x: Octets, b: seq<Pair>, k: Length, y: Octets)
    requires Legal(SMap(a, l)) && Legal(SMap(b, k)) && l.ToBreak? == k.ToBreak?
    requires Write(SMap(a, l)) + x == Write(SMap(b, k)) + y
    ensures a == b && l == k && x == y
    decreases a, 2
  {
    hide Head, Open, WritePairs, LengthHead;
    Regroup(LengthHead(Map, |a|, l), WritePairs(a) + Closing(l), x);
    Regroup(LengthHead(Map, |b|, k), WritePairs(b) + Closing(k), y);
    SameLength(Map, |a|, l, WritePairs(a) + Closing(l) + x, |b|, k, WritePairs(b) + Closing(k) + y);
    Regroup(WritePairs(a), Closing(l), x);
    Regroup(WritePairs(b), Closing(k), y);
    PairsUnambiguous(a, Closing(l) + x, b, Closing(k) + y);
    SamePrefix(Closing(l), x, Closing(k), y);
  }

  lemma {:induction false} PairsUnambiguous(a: seq<Pair>, x: Octets, b: seq<Pair>, y: Octets)
    requires PairsLegal(a) && PairsLegal(b) && WritePairs(a) + x == WritePairs(b) + y
    requires |a| == |b| || (BreakFirst(x) && BreakFirst(y))
    ensures a == b && x == y
    decreases a, 1
  {
    hide Write, Legal;
    if a == [] || b == [] {
      assert [] + x == x && [] + y == y;
      if a != [] || b != [] {
        PairsStart(if a == [] then b else a);
        assert false;
      }
    } else {
      Regroup(WritePair(a[0]), WritePairs(a[1..]), x);
      Regroup(WritePair(b[0]), WritePairs(b[1..]), y);
      PairUnambiguous(a[0], WritePairs(a[1..]) + x, b[0], WritePairs(b[1..]) + y);
      hide WritePair;
      PairsUnambiguous(a[1..], x, b[1..], y);
      assert a == [a[0]] + a[1..] && b == [b[0]] + b[1..];
    }
  }

  lemma {:induction false} PairUnambiguous(a: Pair, x: Octets, b: Pair, y: Octets)
    requires PairLegal(a) && PairLegal(b) && WritePair(a) + x == WritePair(b) + y
    ensures a == b && x == y
    decreases a, 1
  {
    Regroup(Write(a.key), Write(a.value), x);
    Regroup(Write(b.key), Write(b.value), y);
    Unambiguous(a.key, Write(a.value) + x, b.key, Write(b.value) + y);
    Unambiguous(a.value, x, b.value, y);
  }

  /** No encoding is a proper prefix of another, whatever the documents' heights and times. */
  lemma {:induction false} PrefixFree(a: Document, b: Document, more: Octets, f: Floats)
    requires Storable(a) && Storable(b) && Encode(b, f) == Encode(a, f) + more
    ensures more == []
  {
    CanonWritten(a, f);
    CanonWritten(b, f);
    hide Encode, Write, Canon, Legal, Storable, Levels, Normal, TimesSurvive, Meaning, Height;
    assert Write(Canon(b, f)) + [] == Write(Canon(b, f));
    Unambiguous(Canon(a, f), more, Canon(b, f), []);
  }
}

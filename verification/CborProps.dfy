/** The decoder reads exactly the spellings, and the encoder writes one of them. */
module CborProps {
  import opened Common
  import opened Crc32
  import opened WireInts
  import opened CborSpec
  import opened CborSpelling

  /** A result with what is left behind it. */
  function Then<T>(r: Outcome<T>, rest: Octets): Outcome<(T, Octets)> {
    match r
    case Err(e) => Err(e)
    case Ok(v) => Ok((v, rest))
  }

  lemma Regroup<T>(a: seq<T>, b: seq<T>, c: seq<T>)
    ensures a + b + c == a + (b + c)
  {
  }

  // ----- one step of the decoder -----

  lemma ValueStep(s: Octets, depth: nat, f: Floats, major: Major, n: Argument, t: Octets)
    requires depth > 0 && s != [] && !major.Simple? && MajorPart(s[0]) == major
    requires ReadArgument(InfoPart(s[0]), s[1..]) == Ok((n, t))
    ensures Value(s, depth, f) == Body(major, n, t, depth - 1, f)
  {
    hide ReadArgument, MajorPart, InfoPart, Body;
  }

  lemma TooShallow(s: Octets, f: Floats)
    ensures Value(s, 0, f) == Err(TOO_DEEP)
  {
  }

  /** An element in front of a result. */
  function With<T>(x: T, r: Outcome<(seq<T>, Octets)>): Outcome<(seq<T>, Octets)> {
    match r
    case Err(e) => Err(e)
    case Ok((xs, rest)) => Ok(([x] + xs, rest))
  }

  lemma ItemsStep(s: Octets, n: nat, depth: nat, f: Floats)
    requires n > 0
    ensures var first := Value(s, depth, f);
            Items(s, n, depth, f) == if first.Err? then Err(first.error) else With(first.value.0, Items(first.value.1, n - 1, depth, f))
  {
    hide Value;
  }

  lemma ItemsToBreakStep(s: Octets, depth: nat, f: Floats)
    requires s != [] && !IsBreak(s[0])
    ensures var first := Value(s, depth, f);
            ItemsToBreak(s, depth, f) == if first.Err? then Err(first.error) else With(first.value.0, ItemsToBreak(first.value.1, depth, f))
  {
    hide Value, IsBreak;
  }

  lemma EntriesStep(s: Octets, n: nat, depth: nat, f: Floats)
    requires n > 0
    ensures var first := OneEntry(s, depth, f);
            Entries(s, n, depth, f) == if first.Err? then Err(first.error) else With(first.value.0, Entries(first.value.1, n - 1, depth, f))
  {
    hide OneEntry;
  }

  lemma EntriesToBreakStep(s: Octets, depth: nat, f: Floats)
    requires s != [] && !IsBreak(s[0])
    ensures var first := OneEntry(s, depth, f);
            EntriesToBreak(s, depth, f) == if first.Err? then Err(first.error) else With(first.value.0, EntriesToBreak(first.value.1, depth, f))
  {
    hide OneEntry, IsBreak;
  }

  lemma AtBreak(rest: Octets, depth: nat, f: Floats)
    ensures ItemsToBreak([BREAK] + rest, depth, f) == Ok(([], rest)) && EntriesToBreak([BREAK] + rest, depth, f) == Ok(([], rest))
  {
    assert ([BREAK] + rest)[1..] == rest;
  }

  // ----- strings -----

  lemma ChunksStep(major: Major, s: Octets, n: nat, chunk: Octets, u: Octets)
    requires s != [] && MajorPart(s[0]) == major && !IsBreak(s[0])
    requires ReadArgument(InfoPart(s[0]), s[1..]) == Ok((Definite(n), chunk + u)) && |chunk| == n
    ensures Chunks(major, s) ==
            match Chunks(major, u) {
              case Err(e) => Err(e)
              case Ok((more, rest)) => Ok((chunk + more, rest))
            }
  {
    FixedOf(chunk, u);
    hide ReadArgument, MajorPart, InfoPart, IsBreak;
  }

  lemma {:induction false} ReadChunks(major: Major, chunks: seq<Chunk>, rest: Octets)
    requires !major.Simple? && forall c | c in chunks :: c.w.Fits(|c.bytes|)
    ensures Chunks(major, WriteChunks(major, chunks) + rest) == Ok((Joined(chunks), rest))
  {
    if chunks == [] {
      assert ([BREAK] + rest)[1..] == rest;
    } else {
      var c := chunks[0];
      assert c in chunks;
      ReadChunks(major, chunks[1..], rest);
      var tail := WriteChunks(major, chunks[1..]) + rest;
      ChunkInFront(major, chunks, rest);
      ReadHead(major, |c.bytes|, c.w, c.bytes + tail);
      hide Head, ReadArgument, MajorPart, InfoPart, IsBreak, Chunks, WriteChunks;
      ChunksStep(major, Head(major, |c.bytes|, c.w) + (c.bytes + tail), |c.bytes|, c.bytes, tail);
    }
  }

  lemma ChunkInFront(major: Major, chunks: seq<Chunk>, rest: Octets)
    requires chunks != [] && forall c | c in chunks :: c.w.Fits(|c.bytes|)
    ensures chunks[0].w.Fits(|chunks[0].bytes|)
    ensures WriteChunks(major, chunks) + rest ==
            Head(major, |chunks[0].bytes|, chunks[0].w) + (chunks[0].bytes + (WriteChunks(major, chunks[1..]) + rest))
  {
    var c := chunks[0];
    assert c in chunks;
    var h, more := Head(major, |c.bytes|, c.w), WriteChunks(major, chunks[1..]);
    assert WriteChunks(major, chunks) == h + c.bytes + more;
    Regroup(h + c.bytes, more, rest);
    Regroup(h, c.bytes, more + rest);
    hide WriteChunks, Head;
  }

  lemma ReadString(text: bool, body: StringForm, rest: Octets, depth: nat, f: Floats)
    requires Legal(SString(text, body)) && depth > 0
    ensures Value(Write(SString(text, body)) + rest, depth, f) == Then(Meaning(SString(text, body), f), rest)
  {
    var major := StringMajor(text);
    hide Head, Open, Value, ReadArgument, MajorPart, InfoPart, IsBreak, Chunks;
    match body
    case Whole(w, bytes) =>
      var s := Head(major, |bytes|, w) + (bytes + rest);
      assert WriteString(major, body) + rest == s;
      ReadHead(major, |bytes|, w, bytes + rest);
      ValueStep(s, depth, f, major, Definite(|bytes|), bytes + rest);
      FixedOf(bytes, rest);
      StringBodies(text, Definite(|bytes|), bytes + rest, depth - 1, f);
    case Chunked(chunks) =>
      var t := WriteChunks(major, chunks) + rest;
      assert WriteString(major, body) + rest == [Open(major)] + t;
      ReadOpen(major, t);
      ValueStep([Open(major)] + t, depth, f, major, Indefinite, t);
      ReadChunks(major, chunks, rest);
      StringBodies(text, Indefinite, t, depth - 1, f);
  }

  lemma StringBodies(text: bool, n: Argument, s: Octets, depth: nat, f: Floats)
    ensures Body(StringMajor(text), n, s, depth, f) ==
            match StringBody(StringMajor(text), n, s) {
              case Err(e) => Err(e)
              case Ok((bytes, rest)) => Ok((if text then DText(bytes) else DBlob(bytes), rest))
            }
  {
    hide StringBody;
  }

  // ----- the other leaves -----

  lemma ReadInteger(negative: bool, value: nat, w: Width, rest: Octets, depth: nat, f: Floats)
    requires w.Fits(value) && depth > 0
    ensures Value(Head(if negative then Negative else Major.Unsigned, value, w) + rest, depth, f) ==
            Then(Meaning(SInteger(negative, value, w), f), rest)
  {
    var major := if negative then Negative else Major.Unsigned;
    ReadHead(major, value, w, rest);
    hide Head, Value, ReadArgument, MajorPart, InfoPart, IsBreak;
    ValueStep(Head(major, value, w) + rest, depth, f, major, Definite(value), rest);
  }

  lemma SimpleStep(s: Octets, depth: nat, f: Floats)
    requires depth > 0 && s != [] && MajorPart(s[0]).Simple?
    ensures Value(s, depth, f) == SimpleValue(InfoPart(s[0]), s[1..], f)
  {
    hide MajorPart, InfoPart, SimpleValue;
  }

  lemma ReadSimple(info: nat, rest: Octets, depth: nat, f: Floats)
    requires 20 <= info < 24 && depth > 0
    ensures Value([Initial(Simple, info)] + rest, depth, f) == Then(Meaning(SSimple(info), f), rest)
  {
    var s := [Initial(Simple, info)] + rest;
    InitialParts(Simple, info);
    SimpleStep(s, depth, f);
    assert s[1..] == rest;
    hide Value, Initial, MajorPart, InfoPart;
  }

  lemma ReadFloat(w: Width, bits: nat, rest: Octets, depth: nat, f: Floats)
    requires Legal(SFloat(w, bits)) && depth > 0
    ensures Value(Head(Simple, bits, w) + rest, depth, f) == Then(Meaning(SFloat(w, bits), f), rest)
  {
    hide Value, Initial, MajorPart, InfoPart, BigEndian, FromBigEndian, Fixed, FloatOf, Pow256;
    var s := Head(Simple, bits, w) + rest;
    InitialParts(Simple, w.Info());
    SimpleStep(s, depth, f);
    assert s[1..] == BigEndian(bits, w.Size()) + rest;
    FixedOf(BigEndian(bits, w.Size()), rest);
    ReadWritten(bits, w.Size());
    assert WidthOf(w.Info()) == w;
  }

  // ----- what the decoder makes of a spelling -----

  lemma Starts(sp: Spelling)
    requires Legal(sp)
    ensures Write(sp) != [] && !IsBreak(Write(sp)[0])
  {
    hide MajorPart, InfoPart, Initial, BigEndian, Pow256, IsBreak;
    match sp
    case SInteger(negative, value, w) => ReadHead(if negative then Negative else Major.Unsigned, value, w, []);
    case SString(text, body) =>
      if body.Whole? {
        ReadHead(StringMajor(text), |body.bytes|, body.w, []);
      } else {
        InitialParts(StringMajor(text), 31);
      }
    case SArray(items, l) =>
      if l.Counted? {
        ReadHead(Array, |items|, l.w, []);
      } else {
        InitialParts(Array, 31);
      }
    case SMap(pairs, l) =>
      if l.Counted? {
        ReadHead(Map, |pairs|, l.w, []);
      } else {
        InitialParts(Map, 31);
      }
    case STag(tag, w, inner) => ReadHead(Tag, tag, w, []);
    case SSimple(info) => InitialParts(Simple, info);
    case SFloat(w, bits) => InitialParts(Simple, w.Info());
  }

  /** What a spelling of some height yields at a depth. */
  ghost predicate Reads<T(!new)>(r: Outcome<(T, Octets)>, meaning: Outcome<T>, rest: Octets, height: nat, depth: nat) {
    if height <= depth then r == Then(meaning, rest) else r.Err?
  }

  /** The decoder reads a spelling as its meaning, or refuses it when it nests deeper than allowed. */
  lemma {:induction false} ValueOf(sp: Spelling, rest: Octets, depth: nat, f: Floats)
    requires Legal(sp)
    ensures Reads(Value(Write(sp) + rest, depth, f), Meaning(sp, f), rest, Height(sp), depth)
    decreases sp, 1
  {
    if depth == 0 {
      TooShallow(Write(sp) + rest, f);
      hide Write, Meaning, Value;
    } else {
      hide Value, Initial, Head;
      match sp {
        case SInteger(negative, value, w) => ReadInteger(negative, value, w, rest, depth, f);
        case SString(text, body) => ReadString(text, body, rest, depth, f);
        case SArray(items, l) => ArrayOf(items, l, rest, depth, f);
        case SMap(pairs, l) => MapOf(pairs, l, rest, depth, f);
        case STag(tag, w, inner) => TagOf(tag, w, inner, rest, depth, f);
        case SSimple(info) => ReadSimple(info, rest, depth, f);
        case SFloat(w, bits) => ReadFloat(w, bits, rest, depth, f);
      }
    }
  }

  /** What a tag makes of a value read inside it. */
  function TagAround(tag: nat, inner: Outcome<(Document, Octets)>, f: Floats): Outcome<(Document, Octets)> {
    match inner
    case Err(e) => Err(e)
    case Ok((d, rest)) => Then(Tagged(tag, d, f), rest)
  }

  lemma TagStep(tag: nat, s: Octets, depth: nat, f: Floats)
    ensures Body(Tag, Definite(tag), s, depth, f) == TagAround(tag, Value(s, depth, f), f)
  {
    hide Value, Tagged;
  }

  lemma TagMeaning(tag: nat, w: Width, inner: Spelling, rest: Octets, f: Floats)
    requires Legal(STag(tag, w, inner))
    ensures Write(STag(tag, w, inner)) + rest == Head(Tag, tag, w) + (Write(inner) + rest)
    ensures Height(STag(tag, w, inner)) == 1 + Height(inner)
    ensures Then(Meaning(STag(tag, w, inner), f), rest) == TagAround(tag, Then(Meaning(inner, f), rest), f)
  {
    Regroup(Head(Tag, tag, w), Write(inner), rest);
    hide Head, Tagged;
  }

  lemma TagOf(tag: nat, w: Width, inner: Spelling, rest: Octets, depth: nat, f: Floats)
    requires Legal(STag(tag, w, inner)) && depth > 0
    ensures var sp := STag(tag, w, inner);
            Reads(Value(Write(sp) + rest, depth, f), Meaning(sp, f), rest, Height(sp), depth)
    decreases inner, 2
  {
    var t := Write(inner) + rest;
    ValueOf(inner, rest, depth - 1, f);
    ReadHead(Tag, tag, w, t);
    TagMeaning(tag, w, inner, rest, f);
    hide Head, Value, ReadArgument, MajorPart, InfoPart, IsBreak, Tagged, Write, Meaning, Height, Body, Reads, TagAround, Then;
    ValueStep(Head(Tag, tag, w) + t, depth, f, Tag, Definite(tag), t);
    TagStep(tag, t, depth - 1, f);
    TagReads(tag, w, inner, Value(t, depth - 1, f), rest, depth, f);
  }

  lemma TagReads(tag: nat, w: Width, inner: Spelling, v: Outcome<(Document, Octets)>, rest: Octets, depth: nat, f: Floats)
    requires Legal(STag(tag, w, inner)) && depth > 0
    requires Reads(v, Meaning(inner, f), rest, Height(inner), depth - 1)
    ensures Reads(TagAround(tag, v, f), Meaning(STag(tag, w, inner), f), rest, Height(STag(tag, w, inner)), depth)
  {
    TagMeaning(tag, w, inner, rest, f);
    hide Head, Tagged, Write, Meaning, Height, Then;
  }

  lemma ArrayOf(items: seq<Spelling>, l: Length, rest: Octets, depth: nat, f: Floats)
    requires Legal(SArray(items, l)) && depth > 0
    ensures var sp := SArray(items, l);
            Reads(Value(Write(sp) + rest, depth, f), Meaning(sp, f), rest, Height(sp), depth)
    decreases items, 2
  {
    var sp := SArray(items, l);
    hide Head, Open, Value, ReadArgument, MajorPart, InfoPart, IsBreak, Items, ItemsToBreak, Heights, Meanings, WriteAll;
    match l
    case Counted(w) =>
      var t := WriteAll(items) + rest;
      ItemsOf(items, rest, depth - 1, f);
      ReadHead(Array, |items|, w, t);
      assert Write(sp) + rest == Head(Array, |items|, w) + t;
      ValueStep(Head(Array, |items|, w) + t, depth, f, Array, Definite(|items|), t);
    case ToBreak =>
      var t := WriteAll(items) + ([BREAK] + rest);
      ItemsToBreakOf(items, rest, depth - 1, f);
      ReadOpen(Array, t);
      assert Write(sp) + rest == [Open(Array)] + t;
      ValueStep([Open(Array)] + t, depth, f, Array, Indefinite, t);
  }

  lemma ItemsUnfold(items: seq<Spelling>, rest: Octets, after: Octets, f: Floats)
    requires items != [] && AllLegal(items)
    ensures WriteAll(items) + after == Write(items[0]) + (WriteAll(items[1..]) + after)
    ensures Heights(items) == Max(Height(items[0]), Heights(items[1..]))
    ensures var first := Meaning(items[0], f);
            Then(Meanings(items, f), rest) ==
            if first.Err? then Err(first.error) else With(first.value, Then(Meanings(items[1..], f), rest))
  {
    Regroup(Write(items[0]), WriteAll(items[1..]), after);
    hide Write, Meaning, Height, Max;
  }

  lemma {:induction false} ItemsOf(items: seq<Spelling>, rest: Octets, depth: nat, f: Floats)
    requires AllLegal(items)
    ensures Reads(Items(WriteAll(items) + rest, |items|, depth, f), Meanings(items, f), rest, Heights(items), depth)
    decreases items, 1
  {
    if items == [] {
      assert WriteAll(items) + rest == rest;
    } else {
      var t := WriteAll(items[1..]) + rest;
      ValueOf(items[0], t, depth, f);
      ItemsOf(items[1..], rest, depth, f);
      var s := Write(items[0]) + t;
      ItemsUnfold(items, rest, rest, f);
      ItemsStep(s, |items|, depth, f);
      hide Value, Items, Write, Meaning, Height, WriteAll, Meanings, Heights;
    }
  }

  lemma {:induction false} ItemsToBreakOf(items: seq<Spelling>, rest: Octets, depth: nat, f: Floats)
    requires AllLegal(items)
    ensures Reads(ItemsToBreak(WriteAll(items) + ([BREAK] + rest), depth, f), Meanings(items, f), rest, Heights(items), depth)
    decreases items, 1
  {
    if items == [] {
      assert WriteAll(items) + ([BREAK] + rest) == [BREAK] + rest;
      AtBreak(rest, depth, f);
    } else {
      var t := WriteAll(items[1..]) + ([BREAK] + rest);
      ValueOf(items[0], t, depth, f);
      ItemsToBreakOf(items[1..], rest, depth, f);
      Starts(items[0]);
      var s := Write(items[0]) + t;
      ItemsUnfold(items, rest, [BREAK] + rest, f);
      ItemsToBreakStep(s, depth, f);
      hide Value, ItemsToBreak, Write, Meaning, Height, WriteAll, Meanings, Heights;
    }
  }

  lemma MapOf(pairs: seq<Pair>, l: Length, rest: Octets, depth: nat, f: Floats)
    requires Legal(SMap(pairs, l)) && depth > 0
    ensures var sp := SMap(pairs, l);
            Reads(Value(Write(sp) + rest, depth, f), Meaning(sp, f), rest, Height(sp), depth)
    decreases pairs, 2
  {
    var sp := SMap(pairs, l);
    hide Head, Open, Value, ReadArgument, MajorPart, InfoPart, IsBreak, Entries, EntriesToBreak, PairHeights, PairMeanings,
      WritePairs, AssignAll;
    match l
    case Counted(w) =>
      var t := WritePairs(pairs) + rest;
      EntriesOf(pairs, rest, depth - 1, f);
      ReadHead(Map, |pairs|, w, t);
      assert Write(sp) + rest == Head(Map, |pairs|, w) + t;
      ValueStep(Head(Map, |pairs|, w) + t, depth, f, Map, Definite(|pairs|), t);
    case ToBreak =>
      var t := WritePairs(pairs) + ([BREAK] + rest);
      EntriesToBreakOf(pairs, rest, depth - 1, f);
      ReadOpen(Map, t);
      assert Write(sp) + rest == [Open(Map)] + t;
      ValueStep([Open(Map)] + t, depth, f, Map, Indefinite, t);
  }

  lemma {:induction false} OneEntryOf(p: Pair, rest: Octets, depth: nat, f: Floats)
    requires PairLegal(p)
    ensures Reads(OneEntry(WritePair(p) + rest, depth, f), PairMeaning(p, f), rest, PairHeight(p), depth)
    decreases p, 1
  {
    var t := Write(p.value) + rest;
    ValueOf(p.key, t, depth, f);
    ValueOf(p.value, rest, depth, f);
    assert WritePair(p) + rest == Write(p.key) + t;
    hide Value, Write, Meaning, Height;
  }

  lemma PairsUnfold(pairs: seq<Pair>, rest: Octets, after: Octets, f: Floats)
    requires pairs != [] && PairsLegal(pairs)
    ensures WritePairs(pairs) + after == WritePair(pairs[0]) + (WritePairs(pairs[1..]) + after)
    ensures PairHeights(pairs) == Max(PairHeight(pairs[0]), PairHeights(pairs[1..]))
    ensures var first := PairMeaning(pairs[0], f);
            Then(PairMeanings(pairs, f), rest) ==
            if first.Err? then Err(first.error) else With(first.value, Then(PairMeanings(pairs[1..], f), rest))
  {
    Regroup(WritePair(pairs[0]), WritePairs(pairs[1..]), after);
    hide WritePair, PairMeaning, PairHeight, Max;
  }

  lemma {:induction false} EntriesOf(pairs: seq<Pair>, rest: Octets, depth: nat, f: Floats)
    requires PairsLegal(pairs)
    ensures Reads(Entries(WritePairs(pairs) + rest, |pairs|, depth, f), PairMeanings(pairs, f), rest, PairHeights(pairs), depth)
    decreases pairs, 1
  {
    if pairs == [] {
      assert WritePairs(pairs) + rest == rest;
    } else {
      hide Entries, WritePair, WritePairs, PairMeanings, PairHeights, PairHeight, PairMeaning, OneEntry;
      var t := WritePairs(pairs[1..]) + rest;
      OneEntryOf(pairs[0], t, depth, f);
      EntriesOf(pairs[1..], rest, depth, f);
      PairsUnfold(pairs, rest, rest, f);
      EntriesStep(WritePair(pairs[0]) + t, |pairs|, depth, f);
    }
  }

  lemma {:induction false} EntriesToBreakOf(pairs: seq<Pair>, rest: Octets, depth: nat, f: Floats)
    requires PairsLegal(pairs)
    ensures Reads(EntriesToBreak(WritePairs(pairs) + ([BREAK] + rest), depth, f), PairMeanings(pairs, f), rest, PairHeights(pairs), depth)
    decreases pairs, 1
  {
    if pairs == [] {
      assert WritePairs(pairs) + ([BREAK] + rest) == [BREAK] + rest;
      AtBreak(rest, depth, f);
    } else {
      var t := WritePairs(pairs[1..]) + ([BREAK] + rest);
      OneEntryOf(pairs[0], t, depth, f);
      EntriesToBreakOf(pairs[1..], rest, depth, f);
      Starts(pairs[0].key);
      var s := WritePair(pairs[0]) + t;
      PairsUnfold(pairs, rest, [BREAK] + rest, f);
      EntriesToBreakStep(s, depth, f);
      hide OneEntry, EntriesToBreak, WritePair, PairMeaning, PairHeight, WritePairs, PairMeanings, PairHeights;
    }
  }
}

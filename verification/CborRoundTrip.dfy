/** What the CBOR codec guarantees as a whole: it accepts exactly the spellings, and encoding then decoding is the identity. */
module CborRoundTrip {
  import opened Common
  import opened Crc32
  import opened WireInts
  import opened CborSpec
  import opened CborSpelling
  import opened CborProps

  // ----- whatever is decoded was spelled -----

  lemma OpenOf(s: Octets)
    requires s != [] && ReadArgument(InfoPart(s[0]), s[1..]).Ok?
    requires ReadArgument(InfoPart(s[0]), s[1..]).value.0.Indefinite?
    ensures s == [Open(MajorPart(s[0]))] + ReadArgument(InfoPart(s[0]), s[1..]).value.1
  {
    PartsInitial(s[0]);
    assert s == [s[0]] + s[1..];
    hide Initial, MajorPart, InfoPart;
  }

  lemma {:induction false} ChunksSpelled(major: Major, s: Octets) returns (chunks: seq<Chunk>)
    requires !major.Simple? && Chunks(major, s).Ok?
    ensures forall c | c in chunks :: c.w.Fits(|c.bytes|)
    ensures var (bytes, rest) := Chunks(major, s).value; s == WriteChunks(major, chunks) + rest && Joined(chunks) == bytes
    decreases |s|
  {
    hide ReadArgument, MajorPart, InfoPart, Head;
    if IsBreak(s[0]) {
      chunks := [];
      assert s == [BREAK] + s[1..];
    } else {
      var (n, t) := ReadArgument(InfoPart(s[0]), s[1..]).value;
      var w := HeadOf(s);
      var (chunk, u) := Fixed(t, n.value).value;
      var more := ChunksSpelled(major, u);
      chunks := [Chunk(w, chunk)] + more;
      assert chunks[1..] == more;
      var rest := Chunks(major, u).value.1;
      ChunkInFront(major, chunks, rest);
      hide WriteChunks, Chunks;
    }
  }

  lemma StringSpelled(major: Major, s: Octets) returns (body: StringForm)
    requires s != [] && MajorPart(s[0]) == major && !major.Simple? && ReadArgument(InfoPart(s[0]), s[1..]).Ok?
    requires var (n, t) := ReadArgument(InfoPart(s[0]), s[1..]).value; StringBody(major, n, t).Ok?
    ensures var (n, t) := ReadArgument(InfoPart(s[0]), s[1..]).value;
            var (bytes, rest) := StringBody(major, n, t).value;
            LegalBody(body) && s == WriteString(major, body) + rest && Text(body) == bytes
  {
    hide ReadArgument, MajorPart, InfoPart, Head, Chunks, WriteChunks, Open;
    var (n, t) := ReadArgument(InfoPart(s[0]), s[1..]).value;
    var (bytes, rest) := StringBody(major, n, t).value;
    if n.Definite? {
      var w := HeadOf(s);
      body := Whole(w, bytes);
      Regroup(Head(major, n.value, w), bytes, rest);
    } else {
      OpenOf(s);
      var chunks := ChunksSpelled(major, t);
      body := Chunked(chunks);
      Regroup([Open(major)], WriteChunks(major, chunks), rest);
    }
  }

  lemma SimpleSpelled(s: Octets, f: Floats) returns (sp: Spelling)
    requires s != [] && MajorPart(s[0]).Simple? && SimpleValue(InfoPart(s[0]), s[1..], f).Ok?
    ensures var (d, rest) := SimpleValue(InfoPart(s[0]), s[1..], f).value;
            Legal(sp) && Height(sp) == 1 && s == Write(sp) + rest && Meaning(sp, f) == Ok(d)
  {
    hide MajorPart, InfoPart, BigEndian, FromBigEndian, Pow256, Initial, FloatOf;
    var info := InfoPart(s[0]);
    PartsInitial(s[0]);
    if info < 24 {
      sp := SSimple(info);
      assert s == [s[0]] + s[1..];
    } else {
      var w := WidthOf(info);
      var (bytes, rest) := Fixed(s[1..], w.Size()).value;
      WriteRead(bytes);
      sp := SFloat(w, FromBigEndian(bytes));
      assert s == [s[0]] + (bytes + rest);
      Regroup([s[0]], bytes, rest);
    }
  }

  /** Whatever the decoder accepts is a spelling, of a height it allows, of what it returned. */
  lemma {:induction false} ValueSpelled(s: Octets, depth: nat, f: Floats) returns (sp: Spelling)
    requires Value(s, depth, f).Ok?
    ensures var (d, rest) := Value(s, depth, f).value;
            Legal(sp) && Height(sp) <= depth && s == Write(sp) + rest && Meaning(sp, f) == Ok(d)
    decreases depth, 0, 0
  {
    var major := MajorPart(s[0]);
    if major.Simple? {
      sp := SimpleSpelled(s, f);
      hide SimpleValue, Write, Meaning, Height;
    } else {
      var (n, t) := ReadArgument(InfoPart(s[0]), s[1..]).value;
      ValueStep(s, depth, f, major, n, t);
      hide Value, ReadArgument, InfoPart, MajorPart;
      sp := BodySpelled(s, depth - 1, f);
      hide Body;
    }
  }

  lemma {:induction false} BodySpelled(s: Octets, depth: nat, f: Floats) returns (sp: Spelling)
    requires s != [] && !MajorPart(s[0]).Simple? && ReadArgument(InfoPart(s[0]), s[1..]).Ok?
    requires var (n, t) := ReadArgument(InfoPart(s[0]), s[1..]).value; Body(MajorPart(s[0]), n, t, depth, f).Ok?
    ensures var (n, t) := ReadArgument(InfoPart(s[0]), s[1..]).value;
            var (d, rest) := Body(MajorPart(s[0]), n, t, depth, f).value;
            Legal(sp) && Height(sp) <= depth + 1 && s == Write(sp) + rest && Meaning(sp, f) == Ok(d)
    decreases depth, 4, 0
  {
    hide ReadArgument, MajorPart, InfoPart, Head, Items, ItemsToBreak, Entries, EntriesToBreak, Value, StringBody, WriteString, Tagged,
      AssignAll, Text;
    var major := MajorPart(s[0]);
    var (n, t) := ReadArgument(InfoPart(s[0]), s[1..]).value;
    if major.Unsigned? || major.Negative? {
      var w := HeadOf(s);
      sp := SInteger(major.Negative?, n.value, w);
    } else if major.ByteString? || major.TextString? {
      var body := StringSpelled(major, s);
      sp := SString(major.TextString?, body);
    } else if major.Tag? {
      var w := HeadOf(s);
      var inner := ValueSpelled(t, depth, f);
      sp := STag(n.value, w, inner);
      TagStep(n.value, t, depth, f);
      TagMeaning(n.value, w, inner, Value(t, depth, f).value.1, f);
      hide Write, Meaning, Height, Body;
    } else if major.Array? {
      sp := ArraySpelled(s, depth, f);
    } else {
      sp := MapSpelled(s, depth, f);
    }
  }

  lemma EmptyFails(s: Octets, depth: nat, f: Floats)
    ensures s == [] ==> Value(s, depth, f).Err? && OneEntry(s, depth, f).Err?
  {
  }

  lemma {:induction false} ItemsSpelled(s: Octets, n: nat, depth: nat, f: Floats) returns (items: seq<Spelling>)
    requires Items(s, n, depth, f).Ok?
    ensures var (ds, rest) := Items(s, n, depth, f).value;
            |items| == n && AllLegal(items) && Heights(items) <= depth && s == WriteAll(items) + rest && Meanings(items, f) == Ok(ds)
    decreases depth, 2, |s|
  {
    if n == 0 {
      items := [];
      assert s == [] + s;
    } else {
      ItemsStep(s, n, depth, f);
      var first := Value(s, depth, f).value;
      var sp := ValueSpelled(s, depth, f);
      var more := ItemsSpelled(first.1, n - 1, depth, f);
      items := [sp] + more;
      assert items[0] == sp && items[1..] == more;
      var rest := Items(first.1, n - 1, depth, f).value.1;
      ItemsUnfold(items, rest, rest, f);
      hide Value, Items, Write, Meaning, Height, WriteAll, Meanings, Heights;
    }
  }

  lemma {:induction false} ItemsToBreakSpelled(s: Octets, depth: nat, f: Floats) returns (items: seq<Spelling>)
    requires ItemsToBreak(s, depth, f).Ok?
    ensures var (ds, rest) := ItemsToBreak(s, depth, f).value;
            AllLegal(items) && Heights(items) <= depth && s == WriteAll(items) + ([BREAK] + rest) && Meanings(items, f) == Ok(ds)
    decreases depth, 2, |s|
  {
    if s != [] && IsBreak(s[0]) {
      items := [];
      assert s == [BREAK] + s[1..];
      assert s == [] + s;
    } else {
      EmptyFails(s, depth, f);
      ItemsToBreakStep(s, depth, f);
      var first := Value(s, depth, f).value;
      var sp := ValueSpelled(s, depth, f);
      var more := ItemsToBreakSpelled(first.1, depth, f);
      items := [sp] + more;
      assert items[0] == sp && items[1..] == more;
      var rest := ItemsToBreak(first.1, depth, f).value.1;
      ItemsUnfold(items, rest, [BREAK] + rest, f);
      hide Value, ItemsToBreak, Write, Meaning, Height, WriteAll, Meanings, Heights, IsBreak;
    }
  }

  lemma {:induction false} OneEntrySpelled(s: Octets, depth: nat, f: Floats) returns (p: Pair)
    requires OneEntry(s, depth, f).Ok?
    ensures var (e, rest) := OneEntry(s, depth, f).value;
            PairLegal(p) && PairHeight(p) <= depth && s == WritePair(p) + rest && PairMeaning(p, f) == Ok(e)
    decreases depth, 1, 0
  {
    var first := Value(s, depth, f).value;
    var key := ValueSpelled(s, depth, f);
    var value := ValueSpelled(first.1, depth, f);
    p := Pair(key, value);
    Regroup(Write(key), Write(value), OneEntry(s, depth, f).value.1);
    hide Value, Write, Meaning, Height;
  }

  lemma {:induction false} EntriesSpelled(s: Octets, n: nat, depth: nat, f: Floats) returns (pairs: seq<Pair>)
    requires Entries(s, n, depth, f).Ok?
    ensures var (ds, rest) := Entries(s, n, depth, f).value;
            |pairs| == n && PairsLegal(pairs) && PairHeights(pairs) <= depth && s == WritePairs(pairs) + rest && PairMeanings(pairs, f) == Ok(ds)
    decreases depth, 2, |s|
  {
    if n == 0 {
      pairs := [];
      assert s == [] + s;
    } else {
      EntriesStep(s, n, depth, f);
      var first := OneEntry(s, depth, f).value;
      var sp := OneEntrySpelled(s, depth, f);
      var more := EntriesSpelled(first.1, n - 1, depth, f);
      pairs := [sp] + more;
      assert pairs[0] == sp && pairs[1..] == more;
      var rest := Entries(first.1, n - 1, depth, f).value.1;
      PairsUnfold(pairs, rest, rest, f);
      hide OneEntry, Entries, WritePair, PairMeaning, PairHeight, WritePairs, PairMeanings, PairHeights;
    }
  }

  lemma {:induction false} EntriesToBreakSpelled(s: Octets, depth: nat, f: Floats) returns (pairs: seq<Pair>)
    requires EntriesToBreak(s, depth, f).Ok?
    ensures var (ds, rest) := EntriesToBreak(s, depth, f).value;
            PairsLegal(pairs) && PairHeights(pairs) <= depth && s == WritePairs(pairs) + ([BREAK] + rest) && PairMeanings(pairs, f) == Ok(ds)
    decreases depth, 2, |s|
  {
    if s != [] && IsBreak(s[0]) {
      pairs := [];
      assert s == [BREAK] + s[1..];
      assert s == [] + s;
    } else {
      EmptyFails(s, depth, f);
      EntriesToBreakStep(s, depth, f);
      var first := OneEntry(s, depth, f).value;
      var sp := OneEntrySpelled(s, depth, f);
      var more := EntriesToBreakSpelled(first.1, depth, f);
      pairs := [sp] + more;
      assert pairs[0] == sp && pairs[1..] == more;
      var rest := EntriesToBreak(first.1, depth, f).value.1;
      PairsUnfold(pairs, rest, [BREAK] + rest, f);
      hide OneEntry, EntriesToBreak, WritePair, PairMeaning, PairHeight, WritePairs, PairMeanings, PairHeights, IsBreak;
    }
  }

  lemma {:induction false} ArraySpelled(s: Octets, depth: nat, f: Floats) returns (sp: Spelling)
    requires s != [] && MajorPart(s[0]) == Array && ReadArgument(InfoPart(s[0]), s[1..]).Ok?
    requires var (n, t) := ReadArgument(InfoPart(s[0]), s[1..]).value; Body(Array, n, t, depth, f).Ok?
    ensures var (n, t) := ReadArgument(InfoPart(s[0]), s[1..]).value;
            var (d, rest) := Body(Array, n, t, depth, f).value;
            Legal(sp) && Height(sp) <= depth + 1 && s == Write(sp) + rest && Meaning(sp, f) == Ok(d)
    decreases depth, 3, 0
  {
    hide ReadArgument, MajorPart, InfoPart, Head, Open, Items, ItemsToBreak, WriteAll, Meanings, Heights;
    var (n, t) := ReadArgument(InfoPart(s[0]), s[1..]).value;
    if n.Definite? {
      var w := HeadOf(s);
      var items := ItemsSpelled(t, n.value, depth, f);
      sp := SArray(items, Counted(w));
      var rest := Items(t, n.value, depth, f).value.1;
      assert Write(sp) == Head(Array, n.value, w) + WriteAll(items);
      Regroup(Head(Array, n.value, w), WriteAll(items), rest);
    } else {
      OpenOf(s);
      var items := ItemsToBreakSpelled(t, depth, f);
      sp := SArray(items, ToBreak);
      var rest := ItemsToBreak(t, depth, f).value.1;
      Regroup([Open(Array)], WriteAll(items) + [BREAK], rest);
      Regroup(WriteAll(items), [BREAK], rest);
    }
  }

  lemma {:induction false} MapSpelled(s: Octets, depth: nat, f: Floats) returns (sp: Spelling)
    requires s != [] && MajorPart(s[0]) == Map && ReadArgument(InfoPart(s[0]), s[1..]).Ok?
    requires var (n, t) := ReadArgument(InfoPart(s[0]), s[1..]).value; Body(Map, n, t, depth, f).Ok?
    ensures var (n, t) := ReadArgument(InfoPart(s[0]), s[1..]).value;
            var (d, rest) := Body(Map, n, t, depth, f).value;
            Legal(sp) && Height(sp) <= depth + 1 && s == Write(sp) + rest && Meaning(sp, f) == Ok(d)
    decreases depth, 3, 0
  {
    hide ReadArgument, MajorPart, InfoPart, Head, Open, Entries, EntriesToBreak, WritePairs, PairMeanings, PairHeights, AssignAll;
    var (n, t) := ReadArgument(InfoPart(s[0]), s[1..]).value;
    if n.Definite? {
      var w := HeadOf(s);
      var pairs := EntriesSpelled(t, n.value, depth, f);
      sp := SMap(pairs, Counted(w));
      var rest := Entries(t, n.value, depth, f).value.1;
      assert Write(sp) == Head(Map, n.value, w) + WritePairs(pairs);
      Regroup(Head(Map, n.value, w), WritePairs(pairs), rest);
    } else {
      OpenOf(s);
      var pairs := EntriesToBreakSpelled(t, depth, f);
      sp := SMap(pairs, ToBreak);
      var rest := EntriesToBreak(t, depth, f).value.1;
      Regroup([Open(Map)], WritePairs(pairs) + [BREAK], rest);
      Regroup(WritePairs(pairs), [BREAK], rest);
    }
  }

  /** The decoder returns a document exactly when the input is a spelling of it that nests at most 64 deep. */
  lemma {:induction false} AcceptsSpellings(s: Octets, d: Document, f: Floats)
    ensures Decode(s, f) == Ok(d) <==>
            exists sp | Legal(sp) :: Height(sp) <= MAX_DEPTH && Write(sp) == s && Meaning(sp, f) == Ok(d)
  {
    if Decode(s, f) == Ok(d) {
      var sp := ValueSpelled(s, MAX_DEPTH, f);
      hide Value, Write, Meaning, Height;
      assert Write(sp) + [] == Write(sp);
    }
    forall sp | Legal(sp) && Height(sp) <= MAX_DEPTH && Write(sp) == s && Meaning(sp, f) == Ok(d)
      ensures Decode(s, f) == Ok(d)
    {
      DecodeSpelling(sp, f);
      hide Decode, Write, Meaning, Height;
    }
  }

  lemma DecodeSpelling(sp: Spelling, f: Floats)
    requires Legal(sp)
    ensures if Height(sp) <= MAX_DEPTH then Decode(Write(sp), f) == Meaning(sp, f) else Decode(Write(sp), f).Err?
  {
    assert Write(sp) + [] == Write(sp);
    ValueOf(sp, [], MAX_DEPTH, f);
    hide Value, Write, Meaning, Height;
  }

  // ----- the form does not matter -----

  /** The same item up to argument widths, definite or indefinite lengths, and the chunks of strings. */
  predicate Alike(a: Spelling, b: Spelling)
    decreases a, 1
  {
    match a
    case SInteger(negative, value, _) => b.SInteger? && b.negative == negative && b.value == value
    case SString(text, body) => b.SString? && b.text == text && Text(b.body) == Text(body)
    case SArray(items, _) => b.SArray? && AllAlike(items, b.items)
    case SMap(pairs, _) => b.SMap? && PairsAlike(pairs, b.pairs)
    case STag(tag, _, inner) => b.STag? && b.tag == tag && Alike(inner, b.inner)
    case SSimple(info) => b == a
    case SFloat(w, bits) => b == a
  }

  predicate AllAlike(a: seq<Spelling>, b: seq<Spelling>)
    decreases a
  {
    if a == [] then b == [] else b != [] && Alike(a[0], b[0]) && AllAlike(a[1..], b[1..])
  }

  predicate PairsAlike(a: seq<Pair>, b: seq<Pair>)
    decreases a
  {
    if a == [] then b == [] else b != [] && PairAlike(a[0], b[0]) && PairsAlike(a[1..], b[1..])
  }

  predicate PairAlike(a: Pair, b: Pair)
    decreases a
  {
    Alike(a.key, b.key) && Alike(a.value, b.value)
  }

  lemma {:induction false} AlikeMeans(a: Spelling, b: Spelling, f: Floats)
    requires Legal(a) && Legal(b) && Alike(a, b)
    ensures Meaning(a, f) == Meaning(b, f) && Height(a) == Height(b)
    decreases a, 1
  {
    hide Text, Tagged, FloatOf, AssignAll;
    match a
    case SArray(items, _) => AllAlikeMean(items, b.items, f);
    case SMap(pairs, _) => PairsAlikeMean(pairs, b.pairs, f);
    case STag(_, _, inner) => AlikeMeans(inner, b.inner, f);
    case _ =>
  }

  lemma {:induction false} AllAlikeMean(a: seq<Spelling>, b: seq<Spelling>, f: Floats)
    requires AllLegal(a) && AllLegal(b) && AllAlike(a, b)
    ensures Meanings(a, f) == Meanings(b, f) && Heights(a) == Heights(b)
    decreases a
  {
    if a != [] {
      AlikeMeans(a[0], b[0], f);
      AllAlikeMean(a[1..], b[1..], f);
      hide Alike, Meaning, Height;
    }
  }

  lemma {:induction false} PairsAlikeMean(a: seq<Pair>, b: seq<Pair>, f: Floats)
    requires PairsLegal(a) && PairsLegal(b) && PairsAlike(a, b)
    ensures PairMeanings(a, f) == PairMeanings(b, f) && PairHeights(a) == PairHeights(b)
    decreases a
  {
    if a != [] {
      PairAlikeMean(a[0], b[0], f);
      PairsAlikeMean(a[1..], b[1..], f);
      hide PairAlike, PairMeaning, PairHeight;
    }
  }

  lemma {:induction false} PairAlikeMean(a: Pair, b: Pair, f: Floats)
    requires PairLegal(a) && PairLegal(b) && PairAlike(a, b)
    ensures PairMeaning(a, f) == PairMeaning(b, f) && PairHeight(a) == PairHeight(b)
    decreases a
  {
    AlikeMeans(a.key, b.key, f);
    AlikeMeans(a.value, b.value, f);
    hide Alike, Meaning, Height;
  }

  /** Rewriting lengths as breaks, strings as any chunks, or arguments wider does not change what is decoded. */
  lemma {:induction false} FormDoesNotMatter(a: Spelling, b: Spelling, f: Floats)
    requires Legal(a) && Legal(b) && Alike(a, b)
    ensures Decode(Write(a), f) == Decode(Write(b), f) || (Decode(Write(a), f).Err? && Decode(Write(b), f).Err?)
    ensures Height(a) <= MAX_DEPTH ==> Decode(Write(a), f) == Decode(Write(b), f)
  {
    AlikeMeans(a, b, f);
    DecodeSpelling(a, f);
    DecodeSpelling(b, f);
    hide Decode, Write, Meaning, Height, Alike;
  }

  // ----- no blow-up -----

  /** The values in a document and the bytes in its strings. */
  function Weight(d: Document): (r: nat)
    ensures r >= 1
    decreases d, 1
  {
    match d
    case DText(s) => 1 + |s|
    case DBlob(s) => 1 + |s|
    case DList(items) => 1 + Weights(items)
    case DMap(es) => 1 + EntryWeights(es)
    case _ => 1
  }

  function Weights(items: seq<Document>): nat
    decreases items
  {
    if items == [] then 0 else Weight(items[0]) + Weights(items[1..])
  }

  function EntryWeights(es: seq<Entry>): nat
    decreases es
  {
    if es == [] then 0 else EntryWeight(es[0]) + EntryWeights(es[1..])
  }

  function EntryWeight(e: Entry): nat
    decreases e
  {
    1 + |e.key| + Weight(e.value)
  }

  lemma {:induction false} AssignWeight(es: seq<Entry>, e: Entry)
    ensures EntryWeights(Assign(es, e)) <= EntryWeights(es) + EntryWeight(e)
  {
    hide EntryWeight, Less;
    if es == [] {
      assert [e][1..] == [];
    } else if es[0].key == e.key {
      assert ([e] + es[1..])[1..] == es[1..];
    } else if Less(e.key, es[0].key) {
      assert ([e] + es)[1..] == es;
    } else {
      AssignWeight(es[1..], e);
      assert ([es[0]] + Assign(es[1..], e))[1..] == Assign(es[1..], e);
    }
  }

  lemma {:induction false} AssignAllWeight(es: seq<Entry>, more: seq<Entry>)
    ensures EntryWeights(AssignAll(es, more)) <= EntryWeights(es) + EntryWeights(more)
    decreases |more|
  {
    hide EntryWeight, Assign;
    if more != [] {
      AssignWeight(es, more[0]);
      AssignAllWeight(Assign(es, more[0]), more[1..]);
    }
  }

  lemma {:induction false} ChunksWeigh(major: Major, chunks: seq<Chunk>)
    requires forall c | c in chunks :: c.w.Fits(|c.bytes|)
    ensures |Joined(chunks)| <= |WriteChunks(major, chunks)| - 1
  {
    if chunks != [] {
      assert chunks[0] in chunks;
      ChunksWeigh(major, chunks[1..]);
      hide Head;
    }
  }

  lemma {:induction false} MeaningWeighs(sp: Spelling, f: Floats)
    requires Legal(sp) && Meaning(sp, f).Ok?
    ensures Weight(Meaning(sp, f).value) <= |Write(sp)|
    decreases sp, 1
  {
    hide Head, FloatOf;
    match sp
    case SString(text, body) =>
      if body.Chunked? {
        ChunksWeigh(StringMajor(text), body.chunks);
      }
    case SArray(items, _) => AllWeigh(items, f);
    case SMap(pairs, _) =>
      PairsWeigh(pairs, f);
      AssignAllWeight([], PairMeanings(pairs, f).value);
    case STag(_, _, inner) => MeaningWeighs(inner, f);
    case _ =>
  }

  lemma {:induction false} AllWeigh(items: seq<Spelling>, f: Floats)
    requires AllLegal(items) && Meanings(items, f).Ok?
    ensures Weights(Meanings(items, f).value) <= |WriteAll(items)|
    decreases items
  {
    if items != [] {
      MeaningWeighs(items[0], f);
      AllWeigh(items[1..], f);
      var ds := Meanings(items, f).value;
      assert ds[1..] == Meanings(items[1..], f).value;
      hide Meaning, Weight, Write;
    }
  }

  lemma {:induction false} PairsWeigh(pairs: seq<Pair>, f: Floats)
    requires PairsLegal(pairs) && PairMeanings(pairs, f).Ok?
    ensures EntryWeights(PairMeanings(pairs, f).value) <= |WritePairs(pairs)|
    decreases pairs
  {
    if pairs != [] {
      PairWeighs(pairs[0], f);
      PairsWeigh(pairs[1..], f);
      var es := PairMeanings(pairs, f).value;
      assert es[1..] == PairMeanings(pairs[1..], f).value;
      hide PairMeaning, EntryWeight, WritePair;
    }
  }

  lemma {:induction false} PairWeighs(p: Pair, f: Floats)
    requires PairLegal(p) && PairMeaning(p, f).Ok?
    ensures EntryWeight(PairMeaning(p, f).value) <= |WritePair(p)|
    decreases p
  {
    MeaningWeighs(p.key, f);
    MeaningWeighs(p.value, f);
    assert Weight(Meaning(p.key, f).value) == 1 + |Meaning(p.key, f).value.text|;
    hide Meaning, Weight, Write;
  }

  /** A decoded document never weighs more than the bytes it came from, whatever lengths those declare. */
  lemma {:induction false} DecodeIsLinear(s: Octets, f: Floats)
    requires Decode(s, f).Ok?
    ensures Weight(Decode(s, f).value) <= |s|
  {
    var sp := ValueSpelled(s, MAX_DEPTH, f);
    MeaningWeighs(sp, f);
    hide Value, Write, Meaning, Height, Weight;
  }
}

/** The CBOR codec as code: the encoder appends to its output, the decoder moves a position over its input. */
module Cbor {
  import opened Common
  import opened Crc32
  import opened WireInts
  import opened CborSpec
  import opened CborSpelling
  import opened CborProps

  // ----- encoding -----

  method WriteTypeAndValue(out: Octets, major: Major, value: nat) returns (out': Octets)
    requires value < TWO64
    ensures out' == out + TypeAndValue(major, value)
  {
    hide BigEndian, Initial;
    if value < 24 {
      return out + [Initial(major, value)];
    }
    var w := if value <= 0xFF then W1 else if value <= 0xFFFF then W2 else if value <= 0xFFFF_FFFF then W4 else W8;
    out' := out + [Initial(major, w.Info())];
    out' := AppendBigEndian(out', value, w.Size());
    Regroup(out, [Initial(major, w.Info())], BigEndian(value, w.Size()));
  }

  method WriteInt(out: Octets, value: Int64) returns (out': Octets)
    ensures out' == out + EncodeInt(value)
  {
    hide TypeAndValue;
    if value >= 0 {
      out' := WriteTypeAndValue(out, Major.Unsigned, value);
    } else {
      out' := WriteTypeAndValue(out, Negative, -(value + 1));
    }
  }

  method WriteDouble(out: Octets, bits: Bits) returns (out': Octets)
    ensures out' == out + EncodeDouble(bits)
  {
    hide BigEndian, Initial;
    out' := out + [Initial(Simple, 27)];
    out' := AppendBigEndian(out', bits, 8);
    Regroup(out, [Initial(Simple, 27)], BigEndian(bits, 8));
  }

  method EncodeValue(out: Octets, d: Document, f: Floats) returns (out': Octets)
    requires Storable(d)
    ensures out' == out + Encode(d, f)
    decreases d, 1
  {
    hide TypeAndValue, EncodeInt, EncodeDouble, EncodeAll, EncodeEntries, Initial;
    match d
    case DNull => out' := out + [Initial(Simple, 22)];
    case DBool(b) => out' := out + [Initial(Simple, if b then 21 else 20)];
    case DInt(i) => out' := WriteInt(out, i);
    case DDouble(bits) => out' := WriteDouble(out, bits);
    case DText(s) =>
      out' := WriteTypeAndValue(out, TextString, |s|);
      out' := out' + s;
      Regroup(out, TypeAndValue(TextString, |s|), s);
    case DBlob(s) =>
      out' := WriteTypeAndValue(out, ByteString, |s|);
      out' := out' + s;
      Regroup(out, TypeAndValue(ByteString, |s|), s);
    case DTime(ms, _) =>
      out' := WriteTypeAndValue(out, Tag, 1);
      Regroup(out, TypeAndValue(Tag, 1), if ms % 1000 == 0 then EncodeInt(ms / 1000) else EncodeDouble(f.ofMillis(ms)));
      if ms % 1000 == 0 {
        out' := WriteInt(out', ms / 1000);
      } else {
        out' := WriteDouble(out', f.ofMillis(ms));
      }
    case DList(items) =>
      out' := WriteTypeAndValue(out, Array, |items|);
      Regroup(out, TypeAndValue(Array, |items|), EncodeAll(items, f));
      out' := EncodeItems(out', items, f);
    case DMap(es) =>
      out' := WriteTypeAndValue(out, Map, |es|);
      Regroup(out, TypeAndValue(Map, |es|), EncodeEntries(es, f));
      out' := EncodeMap(out', es, f);
  }

  lemma NextItem(items: seq<Document>, i: nat, out: Octets, f: Floats)
    requires i < |items| && AllStorable(items[i..])
    ensures Storable(items[i]) && AllStorable(items[i + 1..])
    ensures out + EncodeAll(items[i..], f) == out + Encode(items[i], f) + EncodeAll(items[i + 1..], f)
  {
    assert items[i..][1..] == items[i + 1..] && items[i..][0] == items[i];
    Regroup(out, Encode(items[i], f), EncodeAll(items[i + 1..], f));
    hide Encode, Storable;
  }

  method EncodeItems(out: Octets, items: seq<Document>, f: Floats) returns (out': Octets)
    requires AllStorable(items)
    ensures out' == out + EncodeAll(items, f)
    decreases items, 2
  {
    hide Encode, EncodeAll, Storable, AllStorable;
    out' := out;
    assert items[0..] == items;
    for i := 0 to |items|
      invariant AllStorable(items[i..])
      invariant out + EncodeAll(items, f) == out' + EncodeAll(items[i..], f)
    {
      NextItem(items, i, out', f);
      out' := EncodeValue(out', items[i], f);
    }
    NoItems(out', items[|items|..], f);
  }

  lemma NoItems(out: Octets, items: seq<Document>, f: Floats)
    requires items == []
    ensures AllStorable(items) && out + EncodeAll(items, f) == out
  {
  }

  lemma NextEntry(es: seq<Entry>, i: nat, out: Octets, f: Floats)
    requires i < |es| && EntriesStorable(es[i..])
    ensures |es[i].key| < TWO64 && Storable(es[i].value) && EntriesStorable(es[i + 1..])
    ensures out + EncodeEntries(es[i..], f) ==
            out + TypeAndValue(TextString, |es[i].key|) + es[i].key + Encode(es[i].value, f) + EncodeEntries(es[i + 1..], f)
  {
    var e, rest := es[i], EncodeEntries(es[i + 1..], f);
    assert es[i..][1..] == es[i + 1..] && es[i..][0] == e;
    var head := TypeAndValue(TextString, |e.key|);
    assert EncodeEntries(es[i..], f) == head + e.key + Encode(e.value, f) + rest;
    hide Encode, Storable, TypeAndValue, EncodeEntries;
    Regroup(out, head + e.key + Encode(e.value, f), rest);
    Regroup(out, head + e.key, Encode(e.value, f));
    Regroup(out, head, e.key);
  }

  method EncodeMap(out: Octets, es: seq<Entry>, f: Floats) returns (out': Octets)
    requires EntriesStorable(es)
    ensures out' == out + EncodeEntries(es, f)
    decreases es, 2
  {
    hide Encode, EncodeEntries, Storable, EntriesStorable, TypeAndValue;
    out' := out;
    assert es[0..] == es;
    for i := 0 to |es|
      invariant EntriesStorable(es[i..])
      invariant out + EncodeEntries(es, f) == out' + EncodeEntries(es[i..], f)
    {
      NextEntry(es, i, out', f);
      out' := WriteTypeAndValue(out', TextString, |es[i].key|);
      out' := out' + es[i].key;
      assert es[i] in es;
      out' := EncodeValue(out', es[i].value, f);
    }
    NoEntries(out', es[|es|..], f);
  }

  lemma NoEntries(out: Octets, es: seq<Entry>, f: Floats)
    requires es == []
    ensures EntriesStorable(es) && out + EncodeEntries(es, f) == out
  {
  }

  // ----- decoding -----

  /** What a loop gathered so far in front of what the rest of the input yields. */
  function Onto<T>(done: seq<T>, r: Outcome<(seq<T>, Octets)>): Outcome<(seq<T>, Octets)> {
    match r
    case Err(e) => Err(e)
    case Ok((xs, rest)) => Ok((done + xs, rest))
  }

  lemma OntoOne<T>(done: seq<T>, x: T, r: Outcome<(seq<T>, Octets)>)
    ensures Onto(done, With(x, r)) == Onto(done + [x], r)
  {
    if r.Ok? {
      Regroup(done, [x], r.value.0);
    }
  }

  lemma OntoNone<T>(done: seq<T>, rest: Octets)
    ensures Onto(done, Ok(([], rest))) == Ok((done, rest))
    ensures forall r: Outcome<(seq<T>, Octets)> :: Onto([], r) == r
  {
    assert done + [] == done;
    forall r: Outcome<(seq<T>, Octets)>
      ensures Onto([], r) == r
    {
      assert r.Ok? ==> [] + r.value.0 == r.value.0;
    }
  }

  /** The chunk or chunks gathered so far in front of the rest of the string. */
  function OntoBytes(done: Octets, r: Outcome<(Octets, Octets)>): Outcome<(Octets, Octets)> {
    Onto(done, r)
  }

  /** What the loop over a container of this length still has to read after i items. */
  function ItemsLeft(s: Octets, n: Argument, i: nat, depth: nat, f: Floats): Outcome<(seq<Document>, Octets)>
    requires n.Definite? ==> i <= n.value
  {
    if n.Definite? then Items(s, n.value - i, depth, f) else ItemsToBreak(s, depth, f)
  }

  function EntriesLeft(s: Octets, n: Argument, i: nat, depth: nat, f: Floats): Outcome<(seq<Entry>, Octets)>
    requires n.Definite? ==> i <= n.value
  {
    if n.Definite? then Entries(s, n.value - i, depth, f) else EntriesToBreak(s, depth, f)
  }

  predicate AtBreak(s: Octets) {
    s != [] && IsBreak(s[0])
  }

  lemma BreakEnds(s: Octets, depth: nat, f: Floats)
    requires AtBreak(s)
    ensures ItemsToBreak(s, depth, f) == Ok(([], s[1..])) && EntriesToBreak(s, depth, f) == Ok(([], s[1..]))
  {
    hide IsBreak;
  }

  lemma NothingLeft(s: Octets, depth: nat, f: Floats)
    ensures Items(s, 0, depth, f) == Ok(([], s)) && Entries(s, 0, depth, f) == Ok(([], s))
  {
  }

  lemma ItemNext(s: Octets, n: Argument, i: nat, depth: nat, f: Floats)
    requires if n.Definite? then i < n.value else !AtBreak(s)
    ensures var first := Value(s, depth, f);
            ItemsLeft(s, n, i, depth, f) ==
            if first.Err? then Err(first.error) else With(first.value.0, ItemsLeft(first.value.1, n, i + 1, depth, f))
  {
    hide Value, IsBreak;
  }

  lemma EntryNext(s: Octets, n: Argument, i: nat, depth: nat, f: Floats)
    requires if n.Definite? then i < n.value else !AtBreak(s)
    ensures var first := OneEntry(s, depth, f);
            EntriesLeft(s, n, i, depth, f) ==
            if first.Err? then Err(first.error) else With(first.value.0, EntriesLeft(first.value.1, n, i + 1, depth, f))
  {
    hide OneEntry, IsBreak;
  }

  lemma {:induction false} AssignOneMore(es: seq<Entry>, more: seq<Entry>, e: Entry)
    ensures AssignAll(es, more + [e]) == Assign(AssignAll(es, more), e)
    decreases |more|
  {
    hide Assign;
    if more == [] {
      assert more + [e] == [e] && [e][1..] == [];
    } else {
      assert (more + [e])[1..] == more[1..] + [e];
      AssignOneMore(Assign(es, more[0]), more[1..], e);
    }
  }

  lemma OntoChunk(done: Octets, chunk: Octets, r: Outcome<(Octets, Octets)>)
    ensures OntoBytes(done, OntoBytes(chunk, r)) == OntoBytes(done + chunk, r)
  {
    if r.Ok? {
      Regroup(done, chunk, r.value.0);
    }
  }

  class Decoder {
    const data: Octets
    const floats: Floats
    var pos: nat

    constructor (data: Octets, floats: Floats)
      ensures this.data == data && this.floats == floats && pos == 0
    {
      this.data, this.floats, pos := data, floats, 0;
    }

    predicate Valid()
      reads this
    {
      pos <= |data|
    }

    /** The bytes not yet read. */
    function Rest(): Octets
      requires Valid()
      reads this
    {
      data[pos..]
    }

    lemma Step(k: nat)
      requires Valid() && pos + k <= |data|
      ensures Rest()[k..] == data[pos + k..] && Rest()[..k] == data[pos..pos + k]
    {
    }

    method Take() returns (b: Option<Octet>)
      requires Valid()
      modifies this
      ensures Valid()
      ensures if old(Rest()) == [] then b.None? && pos == old(pos) else b == Some(old(Rest())[0]) && Rest() == old(Rest())[1..]
    {
      if pos >= |data| {
        return None;
      }
      b := Some(data[pos]);
      pos := pos + 1;
    }

    method TakeBigEndian(bytes: nat) returns (value: Option<nat>)
      requires Valid()
      modifies this
      ensures Valid() && pos >= old(pos)
      ensures match Fixed(old(Rest()), bytes)
              case None => value.None? && pos == old(pos)
              case Some((b, rest)) => value == Some(FromBigEndian(b)) && Rest() == rest
      ensures value.Some? ==> value.value < Pow256(bytes)
    {
      if pos + bytes > |data| {
        return None;
      }
      Step(bytes);
      ghost var field := data[pos..pos + bytes];
      var v := 0;
      for i := 0 to bytes
        invariant pos == old(pos) + i
        invariant v == FromBigEndian(field[..i])
      {
        assert field[..i + 1][..i] == field[..i] && field[i] == data[pos];
        v := v * 256 + FromOctet(data[pos]);
        pos := pos + 1;
      }
      assert field[..bytes] == field;
      WriteRead(field);
      return Some(v);
    }

    /** The next n bytes. */
    method TakeBytes(n: nat) returns (bytes: Option<Octets>)
      requires Valid()
      modifies this
      ensures Valid() && pos >= old(pos)
      ensures match Fixed(old(Rest()), n)
              case None => bytes.None? && pos == old(pos)
              case Some((b, rest)) => bytes == Some(b) && Rest() == rest
    {
      if n > |data| - pos {
        return None;
      }
      Step(n);
      bytes := Some(data[pos..pos + n]);
      pos := pos + n;
    }

    method ReadArgument(info: nat) returns (r: Outcome<Argument>)
      requires Valid() && info < 32
      modifies this
      ensures Valid() && pos >= old(pos)
      ensures match CborSpec.ReadArgument(info, old(Rest()))
              case Err(e) => r == Err(e)
              case Ok((n, rest)) => r == Ok(n) && Rest() == rest
    {
      hide Fixed, FromBigEndian, Pow256;
      if info < 24 {
        return Ok(Definite(info));
      }
      if info < 28 {
        var value := TakeBigEndian(WidthOf(info).Size());
        if value.None? {
          return Err(TRUNCATED_ARGUMENT);
        }
        return Ok(Definite(value.value));
      }
      if info == 31 {
        return Ok(Indefinite);
      }
      return Err(RESERVED_INFO);
    }

    /** One chunk of an indefinite string, or nothing at its break. */
    method DecodeChunk(major: Major) returns (r: Outcome<Option<Octets>>)
      requires Valid()
      modifies this
      ensures Valid() && pos >= old(pos) && (r.Ok? ==> pos > old(pos))
      ensures match r
              case Err(e) => Chunks(major, old(Rest())) == Err(e)
              case Ok(None) => Chunks(major, old(Rest())) == Ok(([], Rest()))
              case Ok(Some(chunk)) => Chunks(major, old(Rest())) == OntoBytes(chunk, Chunks(major, Rest()))
    {
      hide CborSpec.ReadArgument, MajorPart, InfoPart, IsBreak, Fixed;
      var initial := Take();
      if initial.None? {
        return Err(UNTERMINATED);
      }
      if IsBreak(initial.value) {
        return Ok(None);
      }
      if MajorPart(initial.value) != major {
        return Err(MIXED_TYPES);
      }
      var length := ReadArgument(InfoPart(initial.value));
      if length.Err? {
        return Err(length.error);
      }
      if length.value.Indefinite? {
        return Err(NESTED_CHUNK);
      }
      var chunk := TakeBytes(length.value.value);
      if chunk.None? {
        return Err(TRUNCATED_CHUNK);
      }
      return Ok(chunk);
    }

    method DecodeChunkedString(major: Major, n: Argument) returns (r: Outcome<Octets>)
      requires Valid()
      modifies this
      ensures Valid() && pos >= old(pos)
      ensures match StringBody(major, n, old(Rest()))
              case Err(e) => r == Err(e)
              case Ok((bytes, rest)) => r == Ok(bytes) && Rest() == rest
    {
      hide Chunks;
      if n.Definite? {
        var bytes := TakeBytes(n.value);
        if bytes.None? {
          return Err(TRUNCATED_STRING);
        }
        return Ok(bytes.value);
      }
      var out: Octets := [];
      OntoNone<Octet>(out, []);
      while true
        invariant Valid() && pos >= old(pos)
        invariant Chunks(major, old(Rest())) == OntoBytes(out, Chunks(major, Rest()))
        decreases |data| - pos
      {
        var chunk := DecodeChunk(major);
        if chunk.Err? {
          return Err(chunk.error);
        }
        if chunk.value.None? {
          OntoNone(out, Rest());
          return Ok(out);
        }
        OntoChunk(out, chunk.value.value, Chunks(major, Rest()));
        out := out + chunk.value.value;
      }
    }

    /** `DecodeValue`, with the cases that loop in methods of their own. */
    method DecodeValue(depth: nat) returns (r: Outcome<Document>)
      requires Valid()
      modifies this
      ensures Valid() && pos >= old(pos)
      ensures match Value(old(Rest()), depth, floats)
              case Err(e) => r == Err(e)
              case Ok((d, rest)) => r == Ok(d) && Rest() == rest
      decreases depth, 0
    {
      hide CborSpec.ReadArgument, MajorPart, InfoPart, Fixed, FromBigEndian, Items, ItemsToBreak, Entries, EntriesToBreak, StringBody,
        SimpleValue, Tagged, Integer, AssignAll;
      if depth == 0 {
        return Err(TOO_DEEP);
      }
      var initial := Take();
      if initial.None? {
        return Err(TRUNCATED);
      }
      var major, info := MajorPart(initial.value), InfoPart(initial.value);
      if major.Simple? {
        r := DecodeSimple(info);
        return;
      }
      var n := ReadArgument(info);
      if n.Err? {
        return Err(n.error);
      }
      match major {
        case Unsigned => r := Integer(major, n.value);
        case Negative => r := Integer(major, n.value);
        case ByteString =>
          var bytes := DecodeChunkedString(major, n.value);
          r := if bytes.Err? then Err(bytes.error) else Ok(DBlob(bytes.value));
        case TextString =>
          var text := DecodeChunkedString(major, n.value);
          r := if text.Err? then Err(text.error) else Ok(DText(text.value));
        case Array => r := DecodeArray(n.value, depth - 1);
        case Map => r := DecodeMap(n.value, depth - 1);
        case Tag =>
          if n.value.Indefinite? {
            return Err(INDEFINITE_TAG);
          }
          var inner := DecodeValue(depth - 1);
          r := if inner.Err? then Err(inner.error) else Tagged(n.value.value, inner.value, floats);
      }
    }

    method DecodeSimple(info: nat) returns (r: Outcome<Document>)
      requires Valid() && info < 32
      modifies this
      ensures Valid() && pos >= old(pos)
      ensures match SimpleValue(info, old(Rest()), floats)
              case Err(e) => r == Err(e)
              case Ok((d, rest)) => r == Ok(d) && Rest() == rest
    {
      hide Fixed, FromBigEndian, Pow256, FloatOf;
      if info == 20 || info == 21 {
        return Ok(DBool(info == 21));
      }
      if info == 22 || info == 23 {
        return Ok(DNull);
      }
      if 25 <= info < 28 {
        var bits := TakeBigEndian(WidthOf(info).Size());
        if bits.None? {
          return Err(TRUNCATED_FLOAT);
        }
        return Ok(DDouble(FloatOf(WidthOf(info), bits.value, floats)));
      }
      return Err(UNSUPPORTED_SIMPLE);
    }

    method DecodeArray(n: Argument, depth: nat) returns (r: Outcome<Document>)
      requires Valid()
      modifies this
      ensures Valid() && pos >= old(pos)
      ensures match Body(Array, n, old(Rest()), depth, floats)
              case Err(e) => r == Err(e)
              case Ok((d, rest)) => r == Ok(d) && Rest() == rest
      decreases depth, 1
    {
      hide Items, ItemsToBreak, Value, IsBreak;
      var list: seq<Document> := [];
      var i := 0;
      OntoNone<Document>(list, []);
      while n.Indefinite? || i < n.value
        invariant Valid() && pos >= old(pos) && (n.Definite? ==> i <= n.value)
        invariant ItemsLeft(old(Rest()), n, 0, depth, floats) == Onto(list, ItemsLeft(Rest(), n, i, depth, floats))
        decreases |data| - pos
      {
        ghost var before := Rest();
        if n.Indefinite? && pos < |data| && IsBreak(data[pos]) {
          BreakEnds(before, depth, floats);
          pos := pos + 1;
          OntoNone(list, Rest());
          return Ok(DList(list));
        }
        ItemNext(before, n, i, depth, floats);
        var item := DecodeValue(depth);
        if item.Err? {
          return Err(item.error);
        }
        OntoOne(list, item.value, ItemsLeft(Rest(), n, i + 1, depth, floats));
        list := list + [item.value];
        i := i + 1;
      }
      NothingLeft(Rest(), depth, floats);
      OntoNone(list, Rest());
      return Ok(DList(list));
    }

    method DecodeMap(n: Argument, depth: nat) returns (r: Outcome<Document>)
      requires Valid()
      modifies this
      ensures Valid() && pos >= old(pos)
      ensures match Body(Map, n, old(Rest()), depth, floats)
              case Err(e) => r == Err(e)
              case Ok((d, rest)) => r == Ok(d) && Rest() == rest
      decreases depth, 1
    {
      hide Entries, EntriesToBreak, Value, IsBreak, AssignAll, Assign;
      var map_: seq<Entry> := [];
      ghost var done: seq<Entry> := [];
      var i := 0;
      OntoNone<Entry>(done, []);
      NoneAssigned();
      while n.Indefinite? || i < n.value
        invariant Valid() && pos >= old(pos) && (n.Definite? ==> i <= n.value)
        invariant EntriesLeft(old(Rest()), n, 0, depth, floats) == Onto(done, EntriesLeft(Rest(), n, i, depth, floats))
        invariant map_ == AssignAll([], done)
        decreases |data| - pos
      {
        ghost var before := Rest();
        if n.Indefinite? && pos < |data| && IsBreak(data[pos]) {
          BreakEnds(before, depth, floats);
          pos := pos + 1;
          OntoNone(done, Rest());
          return Ok(DMap(map_));
        }
        EntryNext(before, n, i, depth, floats);
        var key := DecodeValue(depth);
        if key.Err? {
          return Err(key.error);
        }
        if !key.value.DText? {
          return Err(KEY_NOT_TEXT);
        }
        var value := DecodeValue(depth);
        if value.Err? {
          return Err(value.error);
        }
        ghost var entry := Entry(key.value.text, value.value);
        OntoOne(done, entry, EntriesLeft(Rest(), n, i + 1, depth, floats));
        AssignOneMore([], done, entry);
        map_ := Assign(map_, Entry(key.value.text, value.value));
        done := done + [entry];
        i := i + 1;
      }
      NothingLeft(Rest(), depth, floats);
      OntoNone(done, Rest());
      return Ok(DMap(map_));
    }

    method DecodeDocument() returns (r: Outcome<Document>)
      requires pos == 0
      modifies this
      ensures Valid()
      ensures r == Decode(data, floats)
    {
      hide Value;
      r := DecodeValue(MAX_DEPTH);
      if r.Ok? && pos != |data| {
        return Err(TRAILING);
      }
    }
  }

  lemma NoneAssigned()
    ensures AssignAll([], []) == []
  {
  }
}

/** What is encoded comes back: escapes, split texts and query strings. */
module UriProps {
  import opened Common
  import opened UriSpec

  // ----- percent escapes -----

  lemma HexRoundTrip(c: Byte)
    ensures HexValue(HexDigit(c / 16)) == c / 16 && HexValue(HexDigit(c % 16)) == c % 16
  {
  }

  lemma DecodeByte(c: Byte, keepSlash: bool, rest: Bytes)
    ensures PercentDecode(EncodeByte(c, keepSlash) + rest) ==
            match PercentDecode(rest) case Err(e) => Err(e) case Ok(t) => Ok([c] + t)
  {
    var s := EncodeByte(c, keepSlash) + rest;
    if s[0] == PERCENT {
      HexRoundTrip(c);
      assert s[3..] == rest && s[1] == HexDigit(c / 16) && s[2] == HexDigit(c % 16);
      assert c / 16 * 16 + c % 16 == c;
    } else {
      assert s[1..] == rest;
    }
  }

  /** Decoding undoes both ways of encoding, for all bytes. */
  lemma {:induction false} DecodeEncode(s: Bytes, keepSlash: bool)
    ensures PercentDecode(Encode(s, keepSlash)) == Ok(s)
  {
    if s != [] {
      DecodeEncode(s[1..], keepSlash);
      DecodeByte(s[0], keepSlash, Encode(s[1..], keepSlash));
      assert s == [s[0]] + s[1..];
    }
  }

  /** The bytes of an encoded text. */
  predicate Coded(c: Byte, slash: bool) {
    Unreserved(c) || c == PERCENT || (slash && c == SLASH)
  }

  predicate AllCoded(s: Bytes, slash: bool) {
    forall i | 0 <= i < |s| :: Coded(s[i], slash)
  }

  lemma {:induction false} EncodeCoded(s: Bytes, keepSlash: bool)
    ensures AllCoded(Encode(s, keepSlash), keepSlash) && (Encode(s, keepSlash) == [] <==> s == [])
  {
    if s != [] {
      EncodeCoded(s[1..], keepSlash);
      var c := s[0];
      assert Unreserved(HexDigit(c / 16)) && Unreserved(HexDigit(c % 16));
      assert AllCoded(EncodeByte(c, keepSlash), keepSlash);
    }
  }

  lemma {:induction false} EncodeBoth(a: Bytes, b: Bytes, keepSlash: bool)
    ensures Encode(a + b, keepSlash) == Encode(a, keepSlash) + Encode(b, keepSlash)
  {
    if a == [] {
      assert a + b == b;
    } else {
      assert (a + b)[1..] == a[1..] + b;
      EncodeBoth(a[1..], b, keepSlash);
    }
  }

  // ----- splitting and joining -----

  predicate Free(s: Bytes, sep: Byte) {
    forall i | 0 <= i < |s| :: s[i] != sep
  }

  lemma OneByteAt(s: Bytes, sep: Byte, i: nat)
    ensures Occurs(s, [sep], i) <==> i < |s| && s[i] == sep
  {
    if i < |s| {
      assert s[i..i + 1] == [s[i]];
    }
  }

  lemma FreeHasNone(s: Bytes, sep: Byte)
    ensures Find(s, [sep]).None? <==> Free(s, sep)
    ensures Find(s, [sep]).Some? ==>
              var k := Find(s, [sep]).value; k < |s| && s[k] == sep && Free(s[..k], sep)
  {
    forall i: nat
      ensures Occurs(s, [sep], i) <==> i < |s| && s[i] == sep
    {
      OneByteAt(s, sep, i);
    }
  }

  lemma FirstSep(a: Bytes, sep: Byte, b: Bytes)
    requires Free(a, sep)
    ensures Find(a + [sep] + b, [sep]) == Some(|a|)
  {
    var s := a + [sep] + b;
    forall i: nat
      ensures Occurs(s, [sep], i) <==> i < |s| && s[i] == sep
    {
      OneByteAt(s, sep, i);
    }
    assert s[|a|] == sep && forall i | 0 <= i < |a| :: s[i] == a[i];
    FirstIs(s, [sep], |a|);
  }

  lemma SplitFirst(a: Bytes, sep: Byte, b: Bytes)
    requires Free(a, sep)
    ensures Split(a + [sep] + b, sep) == [a] + Split(b, sep) && Split(a, sep) == [a]
  {
    hide Find;
    FirstSep(a, sep, b);
    FreeHasNone(a, sep);
    var s := a + [sep] + b;
    assert s[..|a|] == a && s[|a| + 1..] == b;
  }

  predicate AllFree(parts: seq<Bytes>, sep: Byte) {
    forall k | 0 <= k < |parts| :: Free(parts[k], sep)
  }

  lemma {:induction false} SplitJoin(parts: seq<Bytes>, sep: Byte)
    requires parts != [] && AllFree(parts, sep)
    ensures Split(Join(parts, sep), sep) == parts
    decreases |parts|
  {
    hide Split;
    if |parts| == 1 {
      SplitFirst(parts[0], sep, []);
    } else {
      SplitJoin(parts[1..], sep);
      SplitFirst(parts[0], sep, Join(parts[1..], sep));
    }
  }

  lemma {:induction false} JoinSplit(s: Bytes, sep: Byte)
    ensures Join(Split(s, sep), sep) == s && AllFree(Split(s, sep), sep)
    decreases |s|
  {
    FreeHasNone(s, sep);
    hide Find;
    match Find(s, [sep])
    case None =>
    case Some(k) =>
      JoinSplit(s[k + 1..], sep);
      assert Split(s, sep)[1..] == Split(s[k + 1..], sep);
      assert s == s[..k] + [sep] + s[k + 1..];
  }

  // ----- query strings -----

  /** What a parameter comes back as: a flag has an empty value, and a flag without a key is not seen. */
  function Decoded(ps: seq<Param>): seq<Parameter> {
    if ps == [] then []
    else
      (match ps[0]
       case Valued(key, value) => [(key, value)]
       case Flag(key) => if key == [] then [] else [(key, [])]) + Decoded(ps[1..])
  }

  lemma CodedFree(s: Bytes)
    requires AllCoded(s, false)
    ensures Free(s, AMPERSAND) && Free(s, EQUALS) && Free(s, QUESTION) && Free(s, SLASH)
  {
  }

  lemma ParamBack(p: Param)
    ensures ParamText(p) != [] ==>
              ParseParameter(ParamText(p)) == Ok(if p.Valued? then (p.key, p.value) else (p.key, []))
    ensures Free(ParamText(p), AMPERSAND) && (ParamText(p) == [] <==> p.Flag? && p.key == [])
  {
    hide Find, PercentDecode, Encode;
    EncodeCoded(p.key, false);
    CodedFree(Encode(p.key, false));
    DecodeEncode(p.key, false);
    match p
    case Valued(key, value) =>
      EncodeCoded(value, false);
      CodedFree(Encode(value, false));
      DecodeEncode(value, false);
      FirstSep(Encode(key, false), EQUALS, Encode(value, false));
      var s := ParamText(p);
      assert s[..|Encode(key, false)|] == Encode(key, false) && s[|Encode(key, false)| + 1..] == Encode(value, false);
    case Flag(key) =>
      FreeHasNone(Encode(key, false), EQUALS);
      DecodeNothing();
  }

  lemma DecodeNothing()
    ensures PercentDecode([]) == Ok([])
  {
  }

  lemma {:induction false} ParamsBack(ps: seq<Param>)
    ensures ParseParameters(ParamTexts(ps)) == Ok(Decoded(ps)) && AllFree(ParamTexts(ps), AMPERSAND)
  {
    hide ParamText, ParseParameter;
    if ps != [] {
      ParamsBack(ps[1..]);
      ParamBack(ps[0]);
      assert ParamTexts(ps)[1..] == ParamTexts(ps[1..]);
      NothingBefore(Decoded(ps[1..]));
    }
  }

  lemma NothingBefore<T>(s: seq<T>)
    ensures [] + s == s
  {
  }

  lemma {:induction false} QueryBack(ps: seq<Param>)
    requires ps != []
    ensures ParseQuery(Join(ParamTexts(ps), AMPERSAND)) == Ok(Decoded(ps))
  {
    hide Split, Join;
    ParamsBack(ps);
    SplitJoin(ParamTexts(ps), AMPERSAND);
  }

  // ----- targets -----

  /** A path with a query string splits into the two. */
  lemma {:induction false} TargetBack(path: Bytes, ps: seq<Param>)
    requires Free(path, QUESTION)
    ensures ParseTarget([SLASH] + path + QueryText(ps)) ==
            match ParsePath(path) case Err(e) => Err(e) case Ok(segments) => Ok(Target(segments, Decoded(ps)))
  {
    hide Find, ParsePath, ParseQuery, Join;
    var full := [SLASH] + path;
    assert Free(full, QUESTION);
    if ps == [] {
      FreeHasNone(full, QUESTION);
      assert full + QueryText(ps) == full && full[1..] == path;
      EmptyQuery();
    } else {
      var query := Join(ParamTexts(ps), AMPERSAND);
      FirstSep(full, QUESTION, query);
      var s := full + [QUESTION] + query;
      assert full + QueryText(ps) == s;
      assert s[..|full|] == full && full[1..] == path && s[|full| + 1..] == query;
      QueryBack(ps);
    }
  }

  lemma EmptyQuery()
    ensures ParseQuery([]) == Ok([])
  {
    FreeHasNone([], AMPERSAND);
    assert Split([], AMPERSAND) == [[]];
    var none: seq<Bytes> := [[]];
    assert none[1..] == [] && ParseParameters(none) == ParseParameters([]);
  }
}

/** The loops that escape, unescape and take apart request targets. */
module Uri {
  import opened Common
  import opened UriSpec
  import opened UriProps

  method EncodeText(text: Bytes, keepSlash: bool) returns (out: Bytes)
    ensures out == Encode(text, keepSlash)
  {
    out := [];
    for i := 0 to |text|
      invariant out == Encode(text[..i], keepSlash)
    {
      assert text[..i + 1] == text[..i] + [text[i]];
      EncodeBoth(text[..i], [text[i]], keepSlash);
      OneEncodedByte(text[i], keepSlash);
      if Unreserved(text[i]) || (keepSlash && text[i] == SLASH) {
        out := out + [text[i]];
      } else {
        out := out + [PERCENT, HexDigit(text[i] / 16), HexDigit(text[i] % 16)];
      }
    }
    assert text[..|text|] == text;
  }

  lemma OneEncodedByte(c: Byte, keepSlash: bool)
    ensures Encode([c], keepSlash) == EncodeByte(c, keepSlash)
  {
    assert Encode([c][1..], keepSlash) == [];
  }

  method Decode(text: Bytes) returns (r: Outcome<Bytes>)
    ensures r == PercentDecode(text)
  {
    var out: Bytes := [];
    var i := 0;
    assert text[0..] == text;
    PrependTwice(out, [], PercentDecode(text));
    while i < |text|
      invariant i <= |text| && PercentDecode(text) == Prepend(out, PercentDecode(text[i..]))
    {
      var rest := text[i..];
      assert rest[0] == text[i];
      if text[i] != PERCENT {
        assert rest[1..] == text[i + 1..];
        PrependTwice(out, [text[i]], PercentDecode(text[i + 1..]));
        out := out + [text[i]];
        i := i + 1;
      } else {
        var high := if i + 1 < |text| then HexValue(text[i + 1]) else -1;
        var low := if i + 2 < |text| then HexValue(text[i + 2]) else -1;
        assert high == EscapeAt(rest, 1) && low == EscapeAt(rest, 2);
        if high < 0 || low < 0 {
          return Err(BAD_ESCAPE);
        }
        assert rest[3..] == text[i + 3..];
        PrependTwice(out, [high * 16 + low], PercentDecode(text[i + 3..]));
        out := out + [high * 16 + low];
        i := i + 3;
      }
    }
    assert text[i..] == [];
    DecodeNothing();
    assert out + [] == out;
    return Ok(out);
  }

  /** `QueryString`: parameters as they are added, encoded when written. */
  class QueryString {
    var params: seq<Param>

    constructor ()
      ensures params == []
    {
      params := [];
    }

    method Add(key: Bytes, value: Bytes)
      modifies this
      ensures params == old(params) + [Valued(key, value)]
    {
      params := params + [Valued(key, value)];
    }

    method AddFlag(key: Bytes)
      modifies this
      ensures params == old(params) + [Flag(key)]
    {
      params := params + [Flag(key)];
    }

    method ToString() returns (out: Bytes)
      ensures out == QueryText(params)
    {
      hide ParamText;
      if params == [] {
        return [];
      }
      out := [QUESTION];
      for i := 0 to |params|
        invariant out == [QUESTION] + Join(ParamTexts(params[..i]), AMPERSAND)
      {
        assert params[..i + 1] == params[..i] + [params[i]];
        TextsSnoc(params[..i], params[i]);
        JoinSnoc(ParamTexts(params[..i]), ParamText(params[i]), AMPERSAND);
        if i > 0 {
          out := out + [AMPERSAND];
        }
        out := out + ParamText(params[i]);
      }
      assert params[..|params|] == params;
    }
  }

  lemma {:induction false} TextsSnoc(ps: seq<Param>, p: Param)
    ensures ParamTexts(ps + [p]) == ParamTexts(ps) + [ParamText(p)] && |ParamTexts(ps)| == |ps|
  {
    if ps == [] {
      var none := [p][1..];
      assert none == [] && ps + [p] == [p] && ParamTexts([p]) == [ParamText(p)] + ParamTexts(none);
    } else {
      TextsSnoc(ps[1..], p);
      assert (ps + [p])[1..] == ps[1..] + [p];
    }
  }

  lemma {:induction false} JoinSnoc(parts: seq<Bytes>, part: Bytes, sep: Byte)
    ensures Join(parts + [part], sep) == if parts == [] then part else Join(parts, sep) + [sep] + part
  {
    if parts == [] {
      assert parts + [part] == [part];
    } else {
      assert (parts + [part])[1..] == parts[1..] + [part];
      JoinSnoc(parts[1..], part, sep);
      assert |parts| == 1 ==> parts[1..] == [];
    }
  }

  lemma DecodeFirst(path: Bytes, raw: Bytes, rest: Option<Bytes>)
    requires match Find(path, [SLASH])
             case None => raw == path && rest.None?
             case Some(k) => k < |path| && raw == path[..k] && rest == Some(path[k + 1..])
    ensures DecodeAll(Split(path, SLASH)) ==
            match PercentDecode(raw)
            case Err(e) => Err(e)
            case Ok(first) => Prepend([first], if rest.None? then Ok([]) else DecodeAll(Split(rest.value, SLASH)))
  {
    hide Find, PercentDecode;
    var parts := Split(path, SLASH);
    assert parts[0] == raw && parts[1..] == if rest.None? then [] else Split(rest.value, SLASH);
    assert DecodeAll([]) == Ok([]);
  }

  lemma EmptySegment()
    ensures DecodeAll(Split([], SLASH)) == Ok([[]])
  {
    FreeHasNone([], SLASH);
    DecodeNothing();
    var none: seq<Bytes> := [[]];
    assert Split([], SLASH) == none && none[1..] == [] && DecodeAll(none[1..]) == Ok([]);
    var empty: seq<Bytes> := [[]] + [];
    assert empty == none;
  }

  method DecodePath(all: Bytes) returns (r: Outcome<seq<Bytes>>)
    ensures r == ParsePath(all)
  {
    hide Find, Split, PercentDecode, DecodeAll;
    var path, segments := all, [];
    NothingDone(all);
    while path != []
      invariant all == [] ==> path == [] && segments == []
      invariant all != [] ==>
          DecodeAll(Split(all, SLASH)) == Prepend(segments, if path == [] then Ok([]) else DecodeAll(Split(path, SLASH)))
      decreases |path|
    {
      FreeHasNone(path, SLASH);
      var slash := Find(path, [SLASH]);
      var raw := if slash.None? then path else path[..slash.value];
      var rest := if slash.None? then None else Some(path[slash.value + 1..]);
      DecodeFirst(path, raw, rest);
      var decoded :- Decode(raw);
      var remaining := if rest.None? then Ok([]) else DecodeAll(Split(rest.value, SLASH));
      PrependTwice(segments, [decoded], remaining);
      segments := segments + [decoded];
      if rest.None? {
        break;
      }
      path := rest.value;
      if path == [] {
        EmptySegment();
        var none: seq<Bytes> := [[]];
        assert none + [] == none;
        PrependTwice(segments, none, Ok([]));
        segments := segments + none;
      }
    }
    assert segments + [] == segments;
    return Ok(segments);
  }

  lemma NothingDone(all: Bytes)
    ensures DecodeAll(Split(all, SLASH)) == Prepend([], DecodeAll(Split(all, SLASH)))
  {
    PrependTwice([], [], DecodeAll(Split(all, SLASH)));
  }

  method DecodePair(pair: Bytes) returns (r: Outcome<Parameter>)
    ensures r == ParseParameter(pair)
  {
    hide Find, PercentDecode;
    var eq := Find(pair, [EQUALS]);
    var key :- Decode(if eq.None? then pair else pair[..eq.value]);
    var value :- Decode(if eq.None? then [] else pair[eq.value + 1..]);
    return Ok((key, value));
  }

  lemma QueryFirst(query: Bytes, pair: Bytes, rest: Bytes)
    requires match Find(query, [AMPERSAND])
             case None => pair == query && rest == []
             case Some(k) => k < |query| && pair == query[..k] && rest == query[k + 1..]
    ensures ParseQuery(query) ==
            if pair == [] then ParseQuery(rest)
            else match ParseParameter(pair) case Err(e) => Err(e) case Ok(first) => Prepend([first], ParseQuery(rest))
  {
    hide Find, ParseParameter;
    EmptyQuery();
    var pairs := Split(query, AMPERSAND);
    assert pairs[0] == pair && pairs[1..] == if Find(query, [AMPERSAND]).None? then [] else Split(rest, AMPERSAND);
    assert ParseParameters([]) == Ok([]);
  }

  method DecodeQuery(all: Bytes) returns (r: Outcome<seq<Parameter>>)
    ensures r == ParseQuery(all)
  {
    hide Find, ParseQuery, ParseParameter;
    var query, parameters := all, [];
    PrependTwice([], [], ParseQuery(all));
    while query != []
      invariant ParseQuery(all) == Prepend(parameters, ParseQuery(query))
      decreases |query|
    {
      FreeHasNone(query, AMPERSAND);
      var amp := Find(query, [AMPERSAND]);
      var pair := if amp.None? then query else query[..amp.value];
      var rest := if amp.None? then [] else query[amp.value + 1..];
      QueryFirst(query, pair, rest);
      if pair != [] {
        var parameter :- DecodePair(pair);
        PrependTwice(parameters, [parameter], ParseQuery(rest));
        parameters := parameters + [parameter];
      }
      query := rest;
    }
    EmptyQuery();
    assert parameters + [] == parameters;
    return Ok(parameters);
  }

  method ParseRequestTarget(target: Bytes) returns (r: Outcome<Target>)
    ensures r == ParseTarget(target)
  {
    hide Find, ParsePath, ParseQuery;
    var question := Find(target, [QUESTION]);
    var path := if question.None? then target else target[..question.value];
    var query := if question.None? then [] else target[question.value + 1..];
    if path == [] || path[0] != SLASH {
      return Err(BAD_TARGET);
    }
    var segments :- DecodePath(path[1..]);
    var parameters :- DecodeQuery(query);
    return Ok(Target(segments, parameters));
  }
}

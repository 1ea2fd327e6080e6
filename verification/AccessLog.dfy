/** `FormatAccessLog`: the loops that check keys, escape texts and append one member after another. */
module AccessLog {
  import opened Common
  import opened AccessLogSpec
  import opened AccessLogProps

  method Utf8SequenceLength(text: Bytes, i: nat) returns (n: nat)
    requires i < |text|
    ensures n == SequenceLength(text[i..])
  {
    var lead := text[i];
    var length, secondMin, secondMax := 0, 0x80, 0xBF;
    if 0xC2 <= lead <= 0xDF {
      length := 2;
    } else if 0xE0 <= lead <= 0xEF {
      length := 3;
      if lead == 0xE0 {
        secondMin := 0xA0;
      }
      if lead == 0xED {
        secondMax := 0x9F;
      }
    } else if 0xF0 <= lead <= 0xF4 {
      length := 4;
      if lead == 0xF0 {
        secondMin := 0x90;
      }
      if lead == 0xF4 {
        secondMax := 0x8F;
      }
    } else {
      return 0;
    }
    if i + length > |text| {
      return 0;
    }
    if text[i + 1] < secondMin || text[i + 1] > secondMax {
      return 0;
    }
    for k := 2 to length
      invariant forall j | i + 2 <= j < i + k :: Continues(text[j])
    {
      if !Continues(text[i + k]) {
        return 0;
      }
    }
    return length;
  }

  method AppendEscaped(out: Bytes, value: Bytes) returns (out': Bytes)
    ensures out' == out + Quoted(value)
  {
    hide SequenceLength, EscapedAscii, Escaped;
    out' := out + [QUOTE];
    var i := 0;
    assert value[0..] == value;
    while i < |value|
      invariant i <= |value| && out' + Escaped(value[i..]) == out + [QUOTE] + Escaped(value)
    {
      NextStep(out', value, i);
      if value[i] >= 0x80 {
        var length := Utf8SequenceLength(value, i);
        if length == 0 {
          out' := out' + REPLACEMENT;
          i := i + 1;
        } else {
          out' := out' + value[i..i + length];
          i := i + length;
        }
      } else {
        out' := out' + EscapedAscii(value[i]);
        i := i + 1;
      }
    }
    NoStep(out', value[i..]);
    out' := out' + [QUOTE];
  }

  lemma NextStep(out: Bytes, value: Bytes, i: nat)
    requires i < |value|
    ensures var (n, text, _) := Step(value[i..]);
            i + n <= |value| && out + Escaped(value[i..]) == out + text + Escaped(value[i + n..]) &&
            (value[i] < 0x80 ==> n == 1 && text == EscapedAscii(value[i])) &&
            (value[i] >= 0x80 ==> var k := SequenceLength(value[i..]);
                                  if k == 0 then n == 1 && text == REPLACEMENT else n == k && text == value[i..i + k])
  {
    hide SequenceLength, EscapedAscii;
    var rest := value[i..];
    var (n, text, _) := Step(rest);
    assert rest[n..] == value[i + n..] && rest[..n] == value[i..i + n];
    assert out + (text + Escaped(rest[n..])) == out + text + Escaped(rest[n..]);
  }

  lemma NoStep(out: Bytes, rest: Bytes)
    requires rest == []
    ensures out + Escaped(rest) == out
  {
  }

  lemma {:induction false} TextsSnoc(ms: seq<Member>, m: Member)
    ensures MemberTexts(ms + [m]) == MemberTexts(ms) + (if ms == [] then [] else [COMMA]) + MemberText(m)
    ensures |MemberTexts(ms)| > 0 <==> ms != []
  {
    hide MemberText;
    if ms == [] {
      assert ms + [m] == [m];
    } else {
      assert (ms + [m])[1..] == ms[1..] + [m];
      TextsSnoc(ms[1..], m);
      assert |ms| == 1 ==> ms[1..] == [];
      TextsNotEmpty(ms);
    }
  }

  /** A comma unless this is the first key, the key, a colon. */
  method AppendKey(out: Bytes, key: Bytes) returns (out': Bytes)
    ensures out' == out + (if |out| > 1 then [COMMA] else []) + Quoted(key) + [COLON]
  {
    hide Quoted;
    out' := out;
    if |out'| > 1 {
      out' := out' + [COMMA];
    }
    out' := AppendEscaped(out', key);
    out' := out' + [COLON];
  }

  /** Member k of all is appended to those before it. */
  method AppendMember(out: Bytes, ghost all: seq<Member>, ghost k: nat, key: Bytes, value: Value) returns (out': Bytes)
    requires k < |all| && all[k] == Member(key, value) && out == [OPEN] + MemberTexts(all[..k])
    ensures out' == [OPEN] + MemberTexts(all[..k + 1])
  {
    hide Quoted, MemberTexts;
    TextsSnoc(all[..k], all[k]);
    assert all[..k + 1] == all[..k] + [all[k]];
    out' := AppendKey(out, key);
    match value {
      case Text(s) => out' := AppendEscaped(out', s);
      case Number(n) => out' := out' + NumberText(n);
      case Truth(b) => out' := out' + if b then TrueText() else FalseText();
    }
    assert out' == out + (if k == 0 then [] else [COMMA]) + MemberText(all[k]);
  }

  method WellFormed(key: Bytes) returns (ok: bool)
    ensures ok == ValidUtf8(key)
  {
    hide SequenceLength;
    var k := 0;
    assert key[0..] == key;
    while k < |key|
      invariant k <= |key| && ValidUtf8(key) == ValidUtf8(key[k..])
    {
      ghost var rest := key[k..];
      assert rest[0] == key[k] && rest[1..] == key[k + 1..];
      if key[k] < 0x80 {
        k := k + 1;
      } else {
        var length := Utf8SequenceLength(key, k);
        if length == 0 {
          return false;
        }
        assert rest[length..] == key[k + length..];
        k := k + length;
      }
    }
    return true;
  }

  /** False where the program aborts. */
  method CheckExtraKeys(extra: Extra) returns (ok: bool)
    ensures ok == KeysOk(extra)
  {
    hide ValidUtf8, BuiltInKeys;
    for i := 0 to |extra|
      invariant forall k | 0 <= k < i :: extra[k].0 != [] && ValidUtf8(extra[k].0) && extra[k].0 !in BuiltInKeys()
      invariant forall j, k | 0 <= j < k < i :: extra[j].0 != extra[k].0
    {
      var key := extra[i].0;
      if key == [] {
        return false;
      }
      ok := WellFormed(key);
      if !ok {
        return false;
      }
      var builtIn := BuiltInKeys();
      for b := 0 to |builtIn|
        invariant key !in builtIn[..b]
      {
        if key == builtIn[b] {
          return false;
        }
      }
      assert builtIn[..|builtIn|] == builtIn;
      for j := 0 to i
        invariant forall k | 0 <= k < j :: extra[k].0 != key
      {
        if extra[j].0 == key {
          return false;
        }
      }
    }
    return true;
  }

  /** The line, or nothing where the program aborts. */
  method FormatAccessLog(o: Observation, extra: Extra) returns (r: Option<Bytes>)
    ensures r == Formatted(o, extra)
  {
    hide KeysOk, Members, MemberTexts, BuiltInKeys, BuiltInValues;
    var ok := CheckExtraKeys(extra);
    if !ok {
      return None;
    }
    ghost var all := Members(o, extra);
    MembersSize(o, extra);
    var keys, values := BuiltInKeys(), BuiltInValues(o);
    var out: Bytes := [OPEN];
    NoTexts(all);
    for k := 0 to 11
      invariant out == [OPEN] + MemberTexts(all[..k])
    {
      MemberGiven(o, extra, k);
      out := AppendMember(out, all, k, keys[k], values[k]);
    }
    for k := 0 to |extra|
      invariant out == [OPEN] + MemberTexts(all[..11 + k])
    {
      MemberGiven(o, extra, 11 + k);
      out := AppendMember(out, all, 11 + k, extra[k].0, Text(extra[k].1));
    }
    assert all[..11 + |extra|] == all;
    return Some(out + [CLOSE]);
  }

  lemma NoTexts(all: seq<Member>)
    ensures [OPEN] + MemberTexts(all[..0]) == [OPEN]
  {
  }
}

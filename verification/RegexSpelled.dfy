/** Every pattern the parser accepts is a legal spelling of the tree it returns. */
module RegexSpelled {
  import opened Common
  import opened RegexSyntax
  import opened RegexGrammar
  import opened RegexSpelling
  import opened RegexReads

  lemma Headed(s: Bytes)
    ensures s != [] ==> s == [s[0]] + s[1..]
  {
  }

  // ----- escapes -----

  lemma {:induction false} HexSpelled(s: Bytes, digits: nat, value: nat) returns (ds: Bytes)
    requires Hex(s, digits, value).Some?
    ensures LegalHex(ds, digits) && s == ds + Hex(s, digits, value).value.1 && HexValue(ds, value) == Hex(s, digits, value).value.0
    decreases digits
  {
    if digits == 0 {
      ds := [];
      assert s == [] + s;
    } else {
      var more := HexSpelled(s[1..], digits - 1, value * 16 + HexDigit(s[0]).value);
      ds := [s[0]] + more;
      assert ds[1..] == more && ds[0] == s[0];
      Headed(s);
      Regroup([s[0]], more, Hex(s, digits, value).value.1);
      forall d | d in ds
        ensures HexDigit(d).Some?
      {
        assert d == s[0] || d in more;
      }
    }
  }

  lemma SimpleSpelled(t: Bytes) returns (e: Simple)
    requires t != [] && SimpleEscape(t).Some?
    ensures LegalSimple(e) && [ByteOf('\\')] + t == WriteSimple(e) + SimpleEscape(t).value.1 && SimpleByte(e) == SimpleEscape(t).value.0
  {
    Headed(t);
    var rest := SimpleEscape(t).value.1;
    if t[0] in {ByteOf('n'), ByteOf('r'), ByteOf('t'), ByteOf('f'), ByteOf('v'), ByteOf('0')} {
      e := Control(t[0]);
    } else if At(t, 'x') {
      var ds := HexSpelled(t[1..], 2, 0);
      e := Hexadecimal(ds);
      Regroup([ByteOf('\\')], [ByteOf('x')], ds + rest);
      Regroup([ByteOf('\\'), ByteOf('x')], ds, rest);
      hide Hex, HexValue, LegalHex;
    } else {
      e := Identity(t[0]);
    }
    Regroup([ByteOf('\\')], [t[0]], t[1..]);
  }

  // ----- classes -----

  lemma ItemSpelled(s: Bytes) returns (i: Item)
    requires s != [] && Member(s).Ok?
    ensures LegalItem(i) && s == WriteItem(i) + Member(s).value.1 && Member(s).value.0 == ItemOf(i)
    ensures s[0] == ByteOf(']') <==> i == Plain(ByteOf(']'))
  {
    hide ClassLetter, SimpleEscape, LegalSimple, WriteSimple, SimpleByte;
    Headed(s);
    if At(s, '\\') {
      var t := s[1..];
      Headed(t);
      if ClassLetter(t[0]).Some? {
        i := Shorthand(t[0]);
        Regroup([s[0]], [t[0]], t[1..]);
      } else if At(t, 'b') {
        i := Backspace;
        Regroup([s[0]], [t[0]], t[1..]);
      } else {
        var e := SimpleSpelled(t);
        i := OneByte(e);
      }
    } else {
      i := Plain(s[0]);
    }
  }

  lemma PartSpelled(s: Bytes, first: bool) returns (p: Part)
    requires s != [] && MemberOrRange(s).Ok? && (At(s, ']') ==> first)
    ensures LegalPart(p, first, MemberOrRange(s).value.1) && s == WritePart(p) + MemberOrRange(s).value.1
    ensures PartSet(p) == MemberOrRange(s).value.0
  {
    hide Member, ClassLetter, LegalItem, WriteItem, ItemByte, Range;
    var i := ItemSpelled(s);
    LegalShorthand(i);
    var (item, rest) := Member(s).value;
    if item.One? && StartsRange(rest) {
      var hi := ItemSpelled(rest[1..]);
      LegalShorthand(hi);
      p := Span(i, hi);
      Headed(rest);
      var after := Member(rest[1..]).value.1;
      assert s == WriteItem(i) + ([ByteOf('-')] + (WriteItem(hi) + after));
      Regroup([ByteOf('-')], WriteItem(hi), after);
      Regroup(WriteItem(i), [ByteOf('-')] + WriteItem(hi), after);
    } else {
      p := Single(i);
    }
  }

  lemma LegalShorthand(i: Item)
    requires LegalItem(i)
    ensures i.Shorthand? ==> ClassLetter(i.c).Some?
  {
  }

  lemma {:induction false} PartsSpelled(s: Bytes, first: bool, done: ByteSet) returns (ps: seq<Part>)
    requires Members(s, first, done).Ok?
    ensures var (cls, after) := Members(s, first, done).value; var close := [ByteOf(']')] + after;
            LegalParts(ps, first, close) && s == WriteParts(ps) + close && cls == done + PartsSet(ps, first, close)
    decreases |s|
  {
    hide MemberOrRange, LegalPart, WritePart, PartSet;
    Headed(s);
    if At(s, ']') && !first {
      ps := [];
      assert s == [] + s && done == done + {};
    } else {
      var p := PartSpelled(s, first);
      var (cls, rest) := MemberOrRange(s).value;
      var more := PartsSpelled(rest, false, done + cls);
      ps := [p] + more;
      assert ps[0] == p && ps[1..] == more;
      var close := [ByteOf(']')] + Members(s, first, done).value.1;
      Regroup(WritePart(p), WriteParts(more), close);
      Union(done, cls, PartsSet(more, false, close));
    }
  }

  // ----- quantifiers -----

  lemma {:induction false} DigitsSpelled(s: Bytes, value: nat) returns (n: Bytes)
    requires value <= MAX_REPEAT && Digits(s, value).Some?
    ensures var (v, rest) := Digits(s, value).value;
            (forall d | d in n :: IsDigit(d)) && s == n + rest && NumberValue(n, value) == v && (rest == [] || !IsDigit(rest[0]))
    ensures s != [] && IsDigit(s[0]) ==> n != []
    decreases |s|
  {
    if s == [] || !IsDigit(s[0]) {
      n := [];
      assert s == [] + s;
    } else {
      var more := DigitsSpelled(s[1..], value * 10 + (s[0] - 48));
      n := [s[0]] + more;
      assert n[0] == s[0] && n[1..] == more;
      Headed(s);
      Regroup([s[0]], more, Digits(s, value).value.1);
      forall d | d in n
        ensures IsDigit(d)
      {
        assert d == s[0] || d in more;
      }
    }
  }

  lemma NumberSpelled(s: Bytes) returns (n: Bytes)
    requires Number(s).Some?
    ensures LegalNumber(n) && s == n + Number(s).value.1 && NumberValue(n, 0) == Number(s).value.0
  {
    n := DigitsSpelled(s, 0);
    hide Digits, NumberValue;
  }

  lemma BoundsSpelled(s: Bytes) returns (b: Bounds)
    requires Quantifier(s).Some?
    ensures var (min, max, rest) := Quantifier(s).value;
            LegalBounds(b) && LowerBound(b) == min && UpperBound(b) == max && s == WriteBounds(b) + rest
  {
    Headed(s);
    if At(s, '*') {
      b := Star;
    } else if At(s, '+') {
      b := Plus;
    } else if At(s, '?') {
      b := Optional;
    } else {
      b := BracesSpelled(s[1..]);
      hide Bounded, WriteBounds, LegalBounds, LowerBound, UpperBound;
    }
  }

  lemma BracesSpelled(t: Bytes) returns (b: Bounds)
    requires Bounded(t).Some?
    ensures var (min, max, rest) := Bounded(t).value;
            LegalBounds(b) && LowerBound(b) == min && UpperBound(b) == max && [ByteOf('{')] + t == WriteBounds(b) + rest
  {
    hide Number, NumberValue, LegalNumber;
    var n := NumberSpelled(t);
    var rest := Number(t).value.1;
    Headed(rest);
    if At(rest, '}') {
      b := Exactly(n);
      TextExactly(n, rest[1..]);
    } else if At(rest[1..], '}') {
      b := AtLeast(n);
      Headed(rest[1..]);
      assert rest[1..][1..] == rest[2..];
      TextAtLeast(n, rest[2..]);
    } else {
      var m := NumberSpelled(rest[1..]);
      var rest2 := Number(rest[1..]).value.1;
      Headed(rest2);
      b := FromTo(n, m);
      TextFromTo(n, m, rest2[1..]);
    }
    hide WriteBounds;
  }

  lemma TextExactly(n: Bytes, rest: Bytes)
    ensures WriteBounds(Exactly(n)) + rest == [ByteOf('{')] + (n + ([ByteOf('}')] + rest))
  {
  }

  lemma TextAtLeast(n: Bytes, rest: Bytes)
    ensures WriteBounds(AtLeast(n)) + rest == [ByteOf('{')] + (n + ([ByteOf(',')] + ([ByteOf('}')] + rest)))
  {
  }

  lemma TextFromTo(n: Bytes, m: Bytes, rest: Bytes)
    ensures WriteBounds(FromTo(n, m)) + rest == [ByteOf('{')] + (n + ([ByteOf(',')] + (m + ([ByteOf('}')] + rest))))
  {
    TextOfFromTo(n, m, rest);
    Headed(WriteBounds(FromTo(n, m)) + rest);
  }

  // ----- groups -----

  lemma {:induction false} NameSpelled(s: Bytes) returns (name: Bytes)
    requires At(SkipName(s), '>')
    ensures ByteOf('>') !in name && s == name + SkipName(s) && (name == [] || name[0] == s[0])
    decreases |s|
  {
    if At(s, '>') {
      name := [];
      assert s == [] + s;
    } else {
      var more := NameSpelled(s[1..]);
      name := [s[0]] + more;
      Headed(s);
      Regroup([s[0]], more, SkipName(s));
    }
  }

  lemma PrefixSpelled(s: Bytes) returns (p: Prefix)
    requires GroupBody(s).Ok?
    ensures LegalPrefix(p) && s == WritePrefix(p) + GroupBody(s).value
  {
    hide SkipName;
    Headed(s);
    if !At(s, '?') {
      p := NoPrefix;
      assert s == [] + s;
    } else {
      var t := s[1..];
      Headed(t);
      if At(t, ':') {
        p := Colon;
        Regroup([s[0]], [t[0]], t[1..]);
      } else {
        var name := NameSpelled(t[1..]);
        var close := SkipName(t[1..]);
        Headed(close);
        p := Named(name);
        TextNamed(name, close[1..]);
      }
    }
  }

  lemma TextNamed(name: Bytes, rest: Bytes)
    ensures WritePrefix(Named(name)) + rest == [ByteOf('?')] + ([ByteOf('<')] + (name + ([ByteOf('>')] + rest)))
  {
  }

  // ----- atoms -----

  lemma BracketSpelled(s: Bytes, depth: nat) returns (a: Atomic)
    requires CharClass(s).Ok?
    ensures var (n, rest) := CharClass(s).value;
            LegalAtomic(a, depth, rest) && AtomicMeaning(a, depth, rest) == n && [ByteOf('[')] + s == WriteAtomic(a) + rest
  {
    hide Members, LegalParts, PartsSet, WriteParts, Full;
    var negate := At(s, '^');
    Headed(s);
    var body := if negate then s[1..] else s;
    var ps := PartsSpelled(body, true, {});
    a := Bracket(negate, ps);
    var (cls, rest) := Members(body, true, {}).value;
    var close := [ByteOf(']')] + rest;
    PartsStart(ps, close);
    assert {} + PartsSet(ps, true, close) == PartsSet(ps, true, close);
    BracketText(if negate then [ByteOf('^')] else [], WriteParts(ps), rest);
    assert [] + body == body;
  }

  lemma EscapeSpelled(s: Bytes, depth: nat) returns (a: Atomic)
    requires Escape(s).Ok?
    ensures var (n, rest) := Escape(s).value;
            LegalAtomic(a, depth, rest) && AtomicMeaning(a, depth, rest) == n && [ByteOf('\\')] + s == WriteAtomic(a) + rest
    ensures !a.Grouped?
  {
    hide ClassLetter, Hex, SimpleEscape, LegalSimple, WriteSimple, SimpleByte, HexValue, LegalHex, Utf8Literal;
    Headed(s);
    Regroup([ByteOf('\\')], [s[0]], s[1..]);
    if ClassLetter(s[0]).Some? {
      a := Letter(s[0]);
    } else if At(s, 'b') || At(s, 'B') {
      a := Boundary(At(s, 'B'));
    } else if At(s, 'u') {
      a := UnicodeSpelled(s, depth);
      hide LegalAtomic, AtomicMeaning, WriteAtomic;
    } else {
      var e := SimpleSpelled(s);
      a := Escaped(e);
    }
  }

  lemma UnicodeEscape(s: Bytes)
    requires At(s, 'u') && Escape(s).Ok?
    ensures Hex(s[1..], 4, 0).Some?
    ensures var (code, rest) := Hex(s[1..], 4, 0).value;
            !(0xD800 <= code <= 0xDFFF) && Escape(s) == Ok((Utf8Literal(code).value, rest))
  {
    hide Hex, SimpleEscape;
  }

  lemma UnicodeSpelled(s: Bytes, depth: nat) returns (a: Atomic)
    requires At(s, 'u') && Escape(s).Ok?
    ensures var (n, rest) := Escape(s).value;
            LegalAtomic(a, depth, rest) && AtomicMeaning(a, depth, rest) == n && [ByteOf('\\')] + s == WriteAtomic(a) + rest
    ensures !a.Grouped?
  {
    UnicodeEscape(s);
    Headed(s);
    hide Escape, Utf8Literal, Hex, HexValue, LegalHex, LegalAtomic, AtomicMeaning, WriteAtomic;
    var (code, rest) := Hex(s[1..], 4, 0).value;
    var ds := HexSpelled(s[1..], 4, 0);
    a := Unicode(ds);
    UnicodeAtomic(ds, code, depth, rest);
  }

  lemma UnicodeAtomic(ds: Bytes, code: nat, depth: nat, rest: Bytes)
    requires LegalHex(ds, 4) && HexValue(ds, 0) == code < 0x10000 && !(0xD800 <= code <= 0xDFFF)
    ensures LegalAtomic(Unicode(ds), depth, rest) && Ok(AtomicMeaning(Unicode(ds), depth, rest)) == Utf8Literal(code)
    ensures [ByteOf('\\')] + ([ByteOf('u')] + (ds + rest)) == WriteAtomic(Unicode(ds)) + rest
  {
    hide HexValue, LegalHex;
    UnicodeBelow(ds);
    Regroup([ByteOf('\\')], [ByteOf('u')], ds + rest);
    Regroup([ByteOf('\\'), ByteOf('u')], ds, rest);
  }

  /** Whatever parses as an atom is one. */
  lemma {:induction false} AtomicSpelled(s: Bytes, depth: nat) returns (a: Atomic)
    requires s != [] && !At(s, '|') && !At(s, ')') && Atom(s, depth).Ok?
    ensures var (n, rest) := Atom(s, depth).value;
            LegalAtomic(a, depth, rest) && AtomicMeaning(a, depth, rest) == n && s == WriteAtomic(a) + rest
    decreases |s|, 1
  {
    hide Group, CharClass, Escape;
    Headed(s);
    if At(s, '(') {
      a := GroupSpelled(s[1..], depth);
      hide LegalAtomic, AtomicMeaning, WriteAtomic;
    } else if At(s, '[') {
      a := BracketSpelled(s[1..], depth);
      hide LegalAtomic, AtomicMeaning, WriteAtomic;
    } else if At(s, '\\') {
      a := EscapeSpelled(s[1..], depth);
      hide LegalAtomic, AtomicMeaning, WriteAtomic;
    } else if At(s, '^') {
      a := Caret;
    } else if At(s, '$') {
      a := Dollar;
    } else if At(s, '.') {
      a := Dot;
    } else {
      a := Itself(s[0]);
    }
  }

  lemma {:induction false} GroupSpelled(s: Bytes, depth: nat) returns (a: Atomic)
    requires Group(s, depth).Ok?
    ensures var (n, rest) := Group(s, depth).value;
            LegalAtomic(a, depth, rest) && AtomicMeaning(a, depth, rest) == n && [ByteOf('(')] + s == WriteAtomic(a) + rest
    decreases |s|, 6
  {
    hide Alternation, GroupBody, Legal, Meaning, Write, LegalPrefix, WritePrefix;
    var p := PrefixSpelled(s);
    var body := GroupBody(s).value;
    var sp := AlternationSpelled(body, depth + 1);
    var close := Alternation(body, depth + 1).value.1;
    Headed(close);
    a := Grouped(p, sp);
    TextGrouped(WritePrefix(p), Write(sp), close[1..]);
  }

  lemma TextGrouped(p: Bytes, body: Bytes, rest: Bytes)
    ensures [ByteOf('(')] + (p + (body + [ByteOf(')')])) + rest == [ByteOf('(')] + (p + (body + ([ByteOf(')')] + rest)))
  {
  }

  // ----- terms, sequences, alternatives -----

  lemma {:induction false} TermSpelled(s: Bytes, depth: nat) returns (t: Term)
    requires s != [] && !At(s, '|') && !At(s, ')') && Piece(s, depth).Ok?
    ensures var (n, rest) := Piece(s, depth).value;
            LegalTerm(t, depth, rest) && TermMeaning(t, depth, rest) == n && s == WriteTerm(t) + rest
    decreases |s|, 2
  {
    hide Atom, Quantifier, LegalAtomic, AtomicMeaning, WriteAtomic, WriteBounds, LegalBounds, LowerBound, UpperBound, IsAssertion;
    var a := AtomicSpelled(s, depth);
    var (n, rest) := Atom(s, depth).value;
    AssertionMeaning(a, depth, rest);
    if Quantifier(rest).None? {
      t := Term(a, Once);
      assert WriteQuant(Once) + rest == rest;
      Regroup(WriteAtomic(a), WriteQuant(Once), rest);
    } else {
      var b := BoundsSpelled(rest);
      var after := Quantifier(rest).value.2;
      var isLazy := At(after, '?');
      var end := if isLazy then after[1..] else after;
      Headed(after);
      t := Term(a, Repeated(b, isLazy));
      var mark: Bytes := if isLazy then [ByteOf('?')] else [];
      assert after == mark + end;
      Regroup(WriteBounds(b), mark, end);
      assert WriteQuant(t.quantifier) + end == rest;
      Regroup(WriteAtomic(a), WriteQuant(t.quantifier), end);
    }
  }

  lemma {:induction false} TermsSpelled(s: Bytes, depth: nat, done: seq<Node>) returns (ts: seq<Term>)
    requires (forall k | 0 <= k < |done| :: WellFormed(done[k])) && Sequence(s, depth, done).Ok?
    ensures var (n, rest) := Sequence(s, depth, done).value;
            LegalTerms(ts, depth, rest) && s == WriteTerms(ts) + rest && n == Sequenced(done + TermMeanings(ts, depth, rest)) &&
            (rest == [] || At(rest, '|') || At(rest, ')'))
    decreases |s|, 3
  {
    hide Piece, LegalTerm, TermMeaning, WriteTerm;
    if s == [] || At(s, '|') || At(s, ')') {
      ts := [];
      assert s == [] + s && done + [] == done;
    } else {
      var t := TermSpelled(s, depth);
      var (n, after) := Piece(s, depth).value;
      SequenceStep(s, depth, done, n, after);
      var more := TermsSpelled(after, depth, done + [n]);
      hide Sequence;
      ts := [t] + more;
      assert ts[0] == t && ts[1..] == more;
      var rest := Sequence(s, depth, done).value.1;
      Regroup(WriteTerm(t), WriteTerms(more), rest);
      Regroup(done, [n], TermMeanings(more, depth, rest));
    }
  }

  lemma {:induction false} ArmsSpelled(s: Bytes, depth: nat, done: seq<Node>) returns (arms: seq<Arm>)
    requires |done| > 0 && (|done| > 1 || At(s, '|')) && (forall k | 0 <= k < |done| :: WellFormed(done[k])) && Branches(s, depth, done).Ok?
    ensures var (n, rest) := Branches(s, depth, done).value;
            LegalArms(arms, depth, rest) && s == WriteArms(arms) + rest && n == Alt(done + ArmMeanings(arms, depth, rest)) &&
            !At(rest, '|')
    decreases |s|, 4
  {
    hide Sequence, LegalTerms, TermMeanings, WriteTerms;
    if At(s, '|') {
      Headed(s);
      var ts := TermsSpelled(s[1..], depth, []);
      var (n, after) := Sequence(s[1..], depth, []).value;
      BranchStep(s, depth, done, n, after);
      assert [] + TermMeanings(ts, depth, after) == TermMeanings(ts, depth, after);
      var more := ArmsSpelled(after, depth, done + [n]);
      hide Branches;
      arms := [Arm(ts)] + more;
      assert arms[0].terms == ts && arms[1..] == more;
      var rest := Branches(s, depth, done).value.1;
      Regroup([ByteOf('|')], WriteTerms(ts), WriteArms(more) + rest);
      Regroup([ByteOf('|')], WriteTerms(ts) + WriteArms(more), rest);
      Regroup(WriteTerms(ts), WriteArms(more), rest);
      Regroup(done, [n], ArmMeanings(more, depth, rest));
    } else {
      arms := [];
      assert s == [] + s && done + [] == done;
    }
  }

  /** Whatever parses as an alternation is a legal spelling of it. */
  lemma {:induction false} AlternationSpelled(s: Bytes, depth: nat) returns (sp: Spelling)
    requires Alternation(s, depth).Ok?
    ensures var (n, rest) := Alternation(s, depth).value;
            Legal(sp, depth, rest) && Meaning(sp, depth, rest) == n && s == Write(sp) + rest
    decreases |s|, 5
  {
    hide Sequence, Branches, LegalTerms, TermMeanings, WriteTerms;
    var ts := TermsSpelled(s, depth, []);
    var (n, after) := Sequence(s, depth, []).value;
    assert [] + TermMeanings(ts, depth, after) == TermMeanings(ts, depth, after);
    var more: seq<Arm> := [];
    if At(after, '|') {
      more := ArmsSpelled(after, depth, [n]);
    } else {
      assert WriteArms([]) + after == after;
    }
    sp := Spelling([Arm(ts)] + more);
    assert sp.arms[0].terms == ts && sp.arms[1..] == more;
    var rest := Alternation(s, depth).value.1;
    Regroup(WriteTerms(ts), WriteArms(more), rest);
    assert WriteArms(more) + rest == after;
    assert LegalArms(more, depth, rest);
    assert ArmMeanings(sp.arms, depth, rest) == [n] + ArmMeanings(more, depth, rest);
    hide WriteArms, LegalArms;
  }

  /**
   * The parser accepts exactly the legal spellings, and returns what they mean: for every byte sequence and every tree.
   */
  lemma {:induction false} AcceptsSpellings(s: Bytes, n: Node)
    ensures Pattern(s) == Ok(n) <==> exists sp | Legal(sp, 0, []) :: Write(sp) == s && Meaning(sp, 0, []) == n
  {
    if Pattern(s) == Ok(n) {
      var sp := AlternationSpelled(s, 0);
      hide Alternation, Legal, Write, Meaning;
      assert Write(sp) + [] == Write(sp);
    }
    forall sp | Legal(sp, 0, []) && Write(sp) == s && Meaning(sp, 0, []) == n
      ensures Pattern(s) == Ok(n)
    {
      Reads(sp, 0, []);
      hide Alternation, Legal, Write, Meaning;
      assert Write(sp) + [] == Write(sp);
    }
  }
}

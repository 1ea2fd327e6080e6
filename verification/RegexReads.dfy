/** The parser reads every legal spelling as its meaning. */
module RegexReads {
  import opened Common
  import opened RegexSyntax
  import opened RegexGrammar
  import opened RegexSpelling

  lemma Regroup<T>(a: seq<T>, b: seq<T>, c: seq<T>)
    ensures a + b + c == a + (b + c)
  {
  }

  lemma Behind(b: Byte, s: Bytes)
    ensures ([b] + s)[1..] == s
  {
  }

  // ----- escapes -----

  lemma {:induction false} HexReads(digits: Bytes, value: nat, rest: Bytes)
    requires forall d | d in digits :: HexDigit(d).Some?
    ensures Hex(digits + rest, |digits|, value) == Some((HexValue(digits, value), rest))
    decreases digits
  {
    if digits == [] {
      assert digits + rest == rest;
    } else {
      assert digits[0] in digits;
      assert (digits + rest)[1..] == digits[1..] + rest;
      HexReads(digits[1..], value * 16 + HexDigit(digits[0]).value, rest);
    }
  }

  /** What follows the backslash. */
  function Tail(e: Simple): Bytes {
    match e
    case Control(c) => [c]
    case Hexadecimal(digits) => [ByteOf('x')] + digits
    case Identity(b) => [b]
  }

  lemma TailReads(e: Simple, rest: Bytes)
    requires LegalSimple(e)
    ensures SimpleEscape(Tail(e) + rest) == Some((SimpleByte(e), rest))
  {
    var t := Tail(e) + rest;
    match e
    case Control(c) => assert t[1..] == rest;
    case Hexadecimal(digits) =>
      assert t[1..] == digits + rest;
      HexReads(digits, 0, rest);
      hide Hex, HexValue;
    case Identity(b) => assert t[1..] == rest;
  }

  lemma TailStarts(e: Simple)
    requires LegalSimple(e)
    ensures var b := Tail(e)[0];
            ClassLetter(b).None? && b != ByteOf('b') && b != ByteOf('B') && b != ByteOf('u') && !(49 <= b <= 57)
  {
  }

  /** What follows the backslash of an escape that stands for one byte. */
  lemma SimpleReads(e: Simple, rest: Bytes)
    requires LegalSimple(e)
    ensures var t := (WriteSimple(e) + rest)[1..];
            WriteSimple(e) + rest == [ByteOf('\\')] + t && t != [] && SimpleEscape(t) == Some((SimpleByte(e), rest)) &&
            ClassLetter(t[0]).None? && t[0] != ByteOf('b') && t[0] != ByteOf('B') && t[0] != ByteOf('u') && !(49 <= t[0] <= 57)
  {
    TailReads(e, rest);
    TailStarts(e);
    assert WriteSimple(e) == [ByteOf('\\')] + Tail(e);
    hide WriteSimple, Tail, SimpleByte, LegalSimple, ClassLetter;
    Regroup([ByteOf('\\')], Tail(e), rest);
    Behind(ByteOf('\\'), Tail(e) + rest);
  }

  // ----- classes -----

  function ItemOf(i: Item): ClassItem
    requires LegalItem(i)
  {
    if i.Shorthand? then Many(ClassLetter(i.c).value) else One(ItemByte(i))
  }

  lemma ItemReads(i: Item, rest: Bytes)
    requires LegalItem(i)
    ensures WriteItem(i) != [] && Member(WriteItem(i) + rest) == Ok((ItemOf(i), rest))
    ensures (WriteItem(i) + rest)[0] == WriteItem(i)[0] && (WriteItem(i)[0] == ByteOf(']') <==> i == Plain(ByteOf(']')))
  {
    var s := WriteItem(i) + rest;
    match i
    case Plain(b) => assert s[1..] == rest;
    case Shorthand(c) => assert s[1..] == [c] + rest && s[1..][1..] == rest;
    case Backspace => assert s[1..] == [ByteOf('b')] + rest && s[1..][1..] == rest;
    case OneByte(e) =>
      SimpleReads(e, rest);
      hide SimpleEscape, SimpleByte, LegalSimple, ClassLetter;
  }

  lemma PartReads(p: Part, first: bool, rest: Bytes)
    requires LegalPart(p, first, rest)
    ensures WritePart(p) != [] && MemberOrRange(WritePart(p) + rest) == Ok((PartSet(p), rest))
    ensures At(WritePart(p) + rest, ']') ==> first
  {
    hide Member, SimpleByte, LegalSimple, WriteSimple, ClassLetter;
    match p
    case Single(i) => ItemReads(i, rest);
    case Span(lo, hi) =>
      var after := [ByteOf('-')] + (WriteItem(hi) + rest);
      Regroup(WriteItem(lo), [ByteOf('-')] + WriteItem(hi), rest);
      Regroup([ByteOf('-')], WriteItem(hi), rest);
      ItemReads(lo, after);
      ItemReads(hi, rest);
      Behind(ByteOf('-'), WriteItem(hi) + rest);
      assert WritePart(p) + rest == WriteItem(lo) + after;
      assert after[1] == (WriteItem(hi) + rest)[0];
  }

  lemma {:induction false} PartsRead(ps: seq<Part>, first: bool, after: Bytes, done: ByteSet)
    requires LegalParts(ps, first, [ByteOf(']')] + after)
    ensures Members(WriteParts(ps) + ([ByteOf(']')] + after), first, done) ==
            Ok((done + PartsSet(ps, first, [ByteOf(']')] + after), after))
    decreases ps
  {
    var close := [ByteOf(']')] + after;
    if ps == [] {
      assert WriteParts(ps) + close == close;
      Behind(ByteOf(']'), after);
      assert done + {} == done;
    } else {
      var rest := WriteParts(ps[1..]) + close;
      Regroup(WritePart(ps[0]), WriteParts(ps[1..]), close);
      PartReads(ps[0], first, rest);
      PartsRead(ps[1..], false, after, done + PartSet(ps[0]));
      MembersStep(WritePart(ps[0]) + rest, first, done, PartSet(ps[0]), rest);
      hide MemberOrRange, Members, WritePart, PartSet, LegalPart;
      Union(done, PartSet(ps[0]), PartsSet(ps[1..], false, close));
    }
  }

  lemma Union(a: ByteSet, b: ByteSet, c: ByteSet)
    ensures a + b + c == a + (b + c)
  {
  }

  lemma MembersStep(s: Bytes, first: bool, done: ByteSet, cls: ByteSet, rest: Bytes)
    requires s != [] && (At(s, ']') ==> first) && MemberOrRange(s) == Ok((cls, rest))
    ensures Members(s, first, done) == Members(rest, false, done + cls)
  {
    hide MemberOrRange;
  }

  // ----- quantifiers -----

  lemma {:induction false} NumberReads(n: Bytes, value: nat, rest: Bytes)
    requires (forall d | d in n :: IsDigit(d)) && value <= MAX_REPEAT && NumberValue(n, value) <= MAX_REPEAT
    requires rest == [] || !IsDigit(rest[0])
    ensures Digits(n + rest, value) == Some((NumberValue(n, value), rest))
    decreases n
  {
    if n == [] {
      assert n + rest == rest;
    } else {
      assert n[0] in n;
      assert (n + rest)[1..] == n[1..] + rest;
      var v := value * 10 + DigitOf(n[0]);
      ValueGrows(n[1..], v);
      NumberReads(n[1..], v, rest);
    }
  }

  lemma {:induction false} ValueGrows(n: Bytes, value: nat)
    requires forall d | d in n :: IsDigit(d)
    ensures NumberValue(n, value) >= value
    decreases n
  {
    if n != [] {
      assert n[0] in n;
      ValueGrows(n[1..], value * 10 + DigitOf(n[0]));
    }
  }

  lemma NumberRead(n: Bytes, rest: Bytes)
    requires LegalNumber(n) && (rest == [] || !IsDigit(rest[0]))
    ensures Number(n + rest) == Some((NumberValue(n, 0), rest))
  {
    NumberReads(n, 0, rest);
    assert n[0] in n && (n + rest)[0] == n[0];
    hide Digits, NumberValue;
  }

  lemma BoundsRead(b: Bounds, rest: Bytes)
    requires LegalBounds(b)
    ensures WriteBounds(b) != [] && Quantifier(WriteBounds(b) + rest) == Some((LowerBound(b), UpperBound(b), rest))
  {
    var s := WriteBounds(b) + rest;
    if b.Star? || b.Plus? || b.Optional? {
      assert s[1..] == rest;
    } else {
      var t := s[1..];
      assert s == [ByteOf('{')] + t;
      BracesRead(b, t, rest);
    }
    hide Bounded, NumberValue, LegalNumber;
  }

  lemma BracesRead(b: Bounds, t: Bytes, rest: Bytes)
    requires LegalBounds(b) && !b.Star? && !b.Plus? && !b.Optional? && WriteBounds(b) + rest == [ByteOf('{')] + t
    ensures Bounded(t) == Some((LowerBound(b), UpperBound(b), rest))
  {
    hide Bounded, NumberValue, LegalNumber;
    Behind(ByteOf('{'), t);
    match b
    case Exactly(n) =>
      TextOfExactly(n, rest);
      ExactlyRead(n, rest);
    case AtLeast(n) =>
      TextOfAtLeast(n, rest);
      AtLeastRead(n, rest);
    case FromTo(n, m) =>
      TextOfFromTo(n, m, rest);
      FromToRead(n, m, rest);
  }

  lemma TextOfExactly(n: Bytes, rest: Bytes)
    ensures (WriteBounds(Exactly(n)) + rest)[1..] == n + ([ByteOf('}')] + rest)
  {
  }

  lemma TextOfAtLeast(n: Bytes, rest: Bytes)
    ensures (WriteBounds(AtLeast(n)) + rest)[1..] == n + ([ByteOf(',')] + ([ByteOf('}')] + rest))
  {
  }

  lemma TextOfFromTo(n: Bytes, m: Bytes, rest: Bytes)
    ensures (WriteBounds(FromTo(n, m)) + rest)[1..] == n + ([ByteOf(',')] + (m + ([ByteOf('}')] + rest)))
  {
    var a, b, c := [ByteOf('{')], [ByteOf(',')], [ByteOf('}')];
    Regroup(a, n + (b + (m + c)), rest);
    Behind(ByteOf('{'), n + (b + (m + c)) + rest);
    Regroup(n, b + (m + c), rest);
    Regroup(b, m + c, rest);
    Regroup(m, c, rest);
  }

  lemma ExactlyRead(n: Bytes, rest: Bytes)
    requires LegalNumber(n)
    ensures Bounded(n + ([ByteOf('}')] + rest)) == Some((NumberValue(n, 0), NumberValue(n, 0) as int, rest))
  {
    NumberRead(n, [ByteOf('}')] + rest);
    Behind(ByteOf('}'), rest);
    hide Number, NumberValue, LegalNumber;
  }

  lemma AtLeastRead(n: Bytes, rest: Bytes)
    requires LegalNumber(n)
    ensures Bounded(n + ([ByteOf(',')] + ([ByteOf('}')] + rest))) == Some((NumberValue(n, 0), -1, rest))
  {
    var close := [ByteOf('}')] + rest;
    NumberRead(n, [ByteOf(',')] + close);
    Behind(ByteOf(','), close);
    assert ([ByteOf(',')] + close)[2..] == rest;
    hide Number, NumberValue, LegalNumber;
  }

  lemma FromToRead(n: Bytes, m: Bytes, rest: Bytes)
    requires LegalNumber(n) && LegalNumber(m) && NumberValue(n, 0) <= NumberValue(m, 0)
    ensures Bounded(n + ([ByteOf(',')] + (m + ([ByteOf('}')] + rest)))) == Some((NumberValue(n, 0), NumberValue(m, 0) as int, rest))
  {
    var close := [ByteOf('}')] + rest;
    NumberRead(n, [ByteOf(',')] + (m + close));
    Behind(ByteOf(','), m + close);
    NumberRead(m, close);
    DigitFirst(m, close);
    Behind(ByteOf('}'), rest);
    hide Number, NumberValue, LegalNumber;
  }

  lemma DigitFirst(m: Bytes, rest: Bytes)
    requires LegalNumber(m)
    ensures !At(m + rest, '}')
  {
    assert m[0] in m;
  }

  // ----- how things begin -----

  lemma AtomicStarts(a: Atomic, depth: nat, rest: Bytes, after: Bytes)
    requires LegalAtomic(a, depth, rest)
    ensures WriteAtomic(a) != [] && var s := WriteAtomic(a) + after; !At(s, '|') && !At(s, ')') && !At(s, '?')
  {
    hide Legal, LegalParts, Write, WriteParts;
  }

  lemma TermStarts(t: Term, depth: nat, rest: Bytes, after: Bytes)
    requires LegalTerm(t, depth, rest)
    ensures WriteTerm(t) != [] && var s := WriteTerm(t) + after; !At(s, '|') && !At(s, ')') && !At(s, '?')
  {
    AtomicStarts(t.atom, depth, WriteQuant(t.quantifier) + rest, WriteQuant(t.quantifier) + after);
    Regroup(WriteAtomic(t.atom), WriteQuant(t.quantifier), after);
    hide LegalAtomic, WriteAtomic, WriteQuant;
  }

  lemma BodyStarts(sp: Spelling, depth: nat, rest: Bytes)
    requires Legal(sp, depth, rest) && !At(rest, '?')
    ensures !At(Write(sp) + rest, '?')
  {
    var ts := sp.arms[0].terms;
    var after := WriteArms(sp.arms[1..]) + rest;
    assert LegalTerms(ts, depth, after);
    assert !At(after, '?') by { hide WriteTerms; }
    Regroup(WriteTerms(ts), WriteArms(sp.arms[1..]), rest);
    if ts == [] {
      assert WriteTerms(ts) + after == after;
    } else {
      Regroup(WriteTerm(ts[0]), WriteTerms(ts[1..]), after);
      TermStarts(ts[0], depth, WriteTerms(ts[1..]) + after, WriteTerms(ts[1..]) + after);
    }
    hide WriteTerm, LegalTerm;
  }

  // ----- reading -----

  lemma UnicodeReads(digits: Bytes, depth: nat, rest: Bytes)
    requires LegalUnicode(digits)
    ensures Atom(WriteAtomic(Unicode(digits)) + rest, depth) == Ok((AtomicMeaning(Unicode(digits), depth, rest), rest))
  {
    UnicodeBelow(digits);
    HexReads(digits, 0, rest);
    var t := [ByteOf('u')] + (digits + rest);
    assert WriteAtomic(Unicode(digits)) + rest == [ByteOf('\\')] + t;
    Behind(ByteOf('\\'), t);
    Behind(ByteOf('u'), digits + rest);
    hide Hex, HexValue, Utf8Literal, Group, CharClass;
  }

  lemma EscapedReads(e: Simple, depth: nat, rest: Bytes)
    requires LegalSimple(e)
    ensures Atom(WriteSimple(e) + rest, depth) == Ok((Lit(SimpleByte(e)), rest))
  {
    SimpleReads(e, rest);
    var t := (WriteSimple(e) + rest)[1..];
    Behind(ByteOf('\\'), t);
    hide SimpleEscape, SimpleByte, ClassLetter, Group, CharClass, Hex, WriteSimple;
  }

  lemma BracketReads(negate: bool, ps: seq<Part>, depth: nat, rest: Bytes)
    requires LegalAtomic(Bracket(negate, ps), depth, rest)
    ensures Atom(WriteAtomic(Bracket(negate, ps)) + rest, depth) == Ok((AtomicMeaning(Bracket(negate, ps), depth, rest), rest))
  {
    hide Members, LegalParts, WriteParts, PartsSet, CharClass;
    var close := [ByteOf(']')] + rest;
    var body := WriteParts(ps) + close;
    var caret: Bytes := if negate then [ByteOf('^')] else [];
    BracketText(caret, WriteParts(ps), rest);
    Behind(ByteOf('['), caret + body);
    PartsRead(ps, true, rest, {});
    PartsStart(ps, close);
    assert {} + PartsSet(ps, true, close) == PartsSet(ps, true, close);
    ClassReads(negate, body, PartsSet(ps, true, close), rest);
  }

  lemma BracketText(caret: Bytes, parts: Bytes, rest: Bytes)
    ensures [ByteOf('[')] + (caret + (parts + [ByteOf(']')])) + rest == [ByteOf('[')] + (caret + (parts + ([ByteOf(']')] + rest)))
  {
  }

  lemma ClassReads(negate: bool, body: Bytes, cls: ByteSet, rest: Bytes)
    requires (!negate ==> !At(body, '^')) && Members(body, true, {}) == Ok((cls, rest))
    ensures CharClass((if negate then [ByteOf('^')] else []) + body) == Ok((Class(if negate then Full() - cls else cls), rest))
  {
    hide Members, Full;
    if negate {
      Behind(ByteOf('^'), body);
    } else {
      assert [] + body == body;
    }
  }

  lemma PartsStart(ps: seq<Part>, rest: Bytes)
    requires LegalParts(ps, true, rest)
    ensures ps != [] && WriteParts(ps) != [] && (At(WriteParts(ps) + rest, '^') <==> At(WriteParts(ps), '^'))
  {
    PartReads(ps[0], true, WriteParts(ps[1..]) + rest);
    hide LegalPart, WritePart;
  }

  lemma PlainReads(a: Atomic, depth: nat, rest: Bytes)
    requires LegalAtomic(a, depth, rest) && !a.Grouped? && !a.Bracket? && !a.Unicode? && !a.Escaped?
    ensures Atom(WriteAtomic(a) + rest, depth) == Ok((AtomicMeaning(a, depth, rest), rest))
  {
    hide Group, CharClass, Hex;
    var s := WriteAtomic(a) + rest;
    if a.Letter? || a.Boundary? {
      var b := WriteAtomic(a)[1];
      assert s == [ByteOf('\\')] + ([b] + rest);
      Behind(ByteOf('\\'), [b] + rest);
      Behind(b, rest);
    } else {
      assert s[1..] == rest;
    }
  }

  lemma PrefixReads(p: Prefix, s: Bytes)
    requires LegalPrefix(p) && !At(s, '?')
    ensures GroupBody(WritePrefix(p) + s) == Ok(s)
  {
    match p
    case NoPrefix => assert WritePrefix(p) + s == s;
    case Colon => ColonReads(s);
    case Named(name) => NamedReads(name, s);
  }

  lemma ColonReads(s: Bytes)
    ensures GroupBody(WritePrefix(Colon) + s) == Ok(s)
  {
    assert (WritePrefix(Colon) + s)[1..] == [ByteOf(':')] + s;
    Behind(ByteOf(':'), s);
  }

  lemma NamedReads(name: Bytes, s: Bytes)
    requires LegalPrefix(Named(name))
    ensures GroupBody(WritePrefix(Named(name)) + s) == Ok(s)
  {
    hide SkipName;
    var t := name + ([ByteOf('>')] + s);
    assert WritePrefix(Named(name)) + s == [ByteOf('?')] + ([ByteOf('<')] + t);
    Behind(ByteOf('?'), [ByteOf('<')] + t);
    Behind(ByteOf('<'), t);
    NameReads(name, s);
    Behind(ByteOf('>'), s);
    assert name != [] ==> t[0] == name[0];
  }

  lemma {:induction false} NameReads(name: Bytes, s: Bytes)
    requires ByteOf('>') !in name
    ensures SkipName(name + ([ByteOf('>')] + s)) == [ByteOf('>')] + s
  {
    if name == [] {
      assert name + ([ByteOf('>')] + s) == [ByteOf('>')] + s;
    } else {
      assert (name + ([ByteOf('>')] + s))[1..] == name[1..] + ([ByteOf('>')] + s);
      NameReads(name[1..], s);
    }
  }

  lemma {:induction false} AtomicReads(a: Atomic, depth: nat, rest: Bytes)
    requires LegalAtomic(a, depth, rest)
    ensures WriteAtomic(a) != []
    ensures Atom(WriteAtomic(a) + rest, depth) == Ok((AtomicMeaning(a, depth, rest), rest))
    decreases a, 1
  {
    match a
    case Grouped(prefix, body) => GroupReads(prefix, body, depth, rest);
    case Bracket(negate, ps) => BracketReads(negate, ps, depth, rest);
    case Unicode(digits) => UnicodeReads(digits, depth, rest);
    case Escaped(e) => EscapedReads(e, depth, rest);
    case _ => PlainReads(a, depth, rest);
  }

  lemma {:induction false} GroupReads(prefix: Prefix, body: Spelling, depth: nat, rest: Bytes)
    requires LegalAtomic(Grouped(prefix, body), depth, rest)
    ensures Atom(WriteAtomic(Grouped(prefix, body)) + rest, depth) == Ok((AtomicMeaning(Grouped(prefix, body), depth, rest), rest))
    decreases body, 2
  {
    hide Alternation, Legal, Write, Meaning, WritePrefix, LegalPrefix, GroupBody;
    var close := [ByteOf(')')] + rest;
    var inside := Write(body) + close;
    assert WriteAtomic(Grouped(prefix, body)) + rest == [ByteOf('(')] + (WritePrefix(prefix) + inside);
    Behind(ByteOf('('), WritePrefix(prefix) + inside);
    Behind(ByteOf(')'), rest);
    BodyStarts(body, depth + 1, close);
    PrefixReads(prefix, inside);
    Reads(body, depth + 1, close);
  }

  lemma {:induction false} TermReads(t: Term, depth: nat, rest: Bytes)
    requires LegalTerm(t, depth, rest)
    ensures WriteTerm(t) != []
    ensures Piece(WriteTerm(t) + rest, depth) == Ok((TermMeaning(t, depth, rest), rest))
    decreases t, 1
  {
    var q := WriteQuant(t.quantifier) + rest;
    Regroup(WriteAtomic(t.atom), WriteQuant(t.quantifier), rest);
    AtomicReads(t.atom, depth, q);
    AtomicStarts(t.atom, depth, q, q);
    AssertionMeaning(t.atom, depth, q);
    hide Atom, LegalAtomic, WriteAtomic, AtomicMeaning, IsAssertion;
    match t.quantifier
    case Once => assert q == rest;
    case Repeated(b, isLazy) =>
      var tail := (if isLazy then [ByteOf('?')] else []) + rest;
      Regroup(WriteBounds(b), if isLazy then [ByteOf('?')] else [], rest);
      BoundsRead(b, tail);
      assert isLazy ==> tail[1..] == rest;
      assert !isLazy ==> tail == rest;
      hide Quantifier, WriteBounds, LegalBounds, LowerBound, UpperBound;
  }

  lemma {:induction false} AssertionMeaning(a: Atomic, depth: nat, rest: Bytes)
    requires LegalAtomic(a, depth, rest)
    ensures AtomicMeaning(a, depth, rest).Assertion? <==> IsAssertion(a)
    decreases a
  {
    match a
    case Grouped(_, body) =>
      var close := [ByteOf(')')] + rest;
      if |body.arms| == 1 {
        ArmAssertion(body.arms, depth + 1, close);
        var ts := body.arms[0].terms;
        assert WriteArms(body.arms[1..]) + close == close;
        if |ts| == 1 {
          assert WriteTerms(ts[1..]) + close == close;
          AssertionMeaning(ts[0].atom, depth + 1, WriteQuant(ts[0].quantifier) + close);
        }
      }
    case _ =>
  }

  /** A body of one arm means an assertion exactly when its one term does. */
  lemma ArmAssertion(arms: seq<Arm>, depth: nat, rest: Bytes)
    requires |arms| == 1 && LegalArms(arms, depth, rest)
    ensures var ts := arms[0].terms;
            WriteArms(arms[1..]) + rest == rest && LegalTerms(ts, depth, rest) &&
            (|ts| == 1 ==> LegalTerm(ts[0], depth, WriteTerms(ts[1..]) + rest)) &&
            (ArmMeanings(arms, depth, rest)[0].Assertion? <==>
             |ts| == 1 && TermMeaning(ts[0], depth, WriteTerms(ts[1..]) + rest).Assertion?)
  {
    assert WriteArms(arms[1..]) + rest == rest;
    hide LegalTerm, TermMeaning, WriteTerm;
  }

  // ----- sequences and alternatives -----

  lemma EndsAfter(rest: Bytes)
    requires rest == [] || At(rest, '|') || At(rest, ')')
    ensures forall depth: nat, done: seq<Node> | forall k | 0 <= k < |done| :: WellFormed(done[k]) ::
              Sequence(rest, depth, done) == Ok((Sequenced(done), rest))
  {
  }

  lemma {:induction false} TermsRead(ts: seq<Term>, depth: nat, rest: Bytes, done: seq<Node>)
    requires LegalTerms(ts, depth, rest) && (rest == [] || At(rest, '|') || At(rest, ')'))
    requires forall k | 0 <= k < |done| :: WellFormed(done[k])
    ensures Sequence(WriteTerms(ts) + rest, depth, done) == Ok((Sequenced(done + TermMeanings(ts, depth, rest)), rest))
    decreases ts
  {
    hide WriteTerm, LegalTerm, TermMeaning;
    if ts == [] {
      EndsAfter(rest);
      assert WriteTerms(ts) + rest == rest && done + TermMeanings(ts, depth, rest) == done;
    } else {
      var after := WriteTerms(ts[1..]) + rest;
      Regroup(WriteTerm(ts[0]), WriteTerms(ts[1..]), rest);
      TermReads(ts[0], depth, after);
      TermStarts(ts[0], depth, after, after);
      var n := TermMeaning(ts[0], depth, after);
      Regroup(done, [n], TermMeanings(ts[1..], depth, rest));
      SequenceStep(WriteTerm(ts[0]) + after, depth, done, n, after);
      TermsRead(ts[1..], depth, rest, done + [n]);
    }
  }

  lemma SequenceStep(s: Bytes, depth: nat, done: seq<Node>, n: Node, rest: Bytes)
    requires s != [] && !At(s, '|') && !At(s, ')') && Piece(s, depth) == Ok((n, rest))
    requires forall k | 0 <= k < |done| :: WellFormed(done[k])
    ensures WellFormed(n) && Sequence(s, depth, done) == Sequence(rest, depth, done + [n])
  {
    hide Piece;
  }

  /** The arms behind the first, each behind its bar. */
  lemma {:induction false} ArmsRead(arms: seq<Arm>, depth: nat, rest: Bytes, done: seq<Node>)
    requires LegalArms(arms, depth, rest) && (rest == [] || At(rest, ')'))
    requires |done| > 0 && (|done| > 1 || arms != []) && forall k | 0 <= k < |done| :: WellFormed(done[k])
    ensures Branches(WriteArms(arms) + rest, depth, done) == Ok((Alt(done + ArmMeanings(arms, depth, rest)), rest))
    decreases arms
  {
    hide Sequence, WriteTerms, LegalTerms, TermMeanings;
    if arms == [] {
      assert WriteArms(arms) + rest == rest && done + ArmMeanings(arms, depth, rest) == done;
    } else {
      var after := WriteArms(arms[1..]) + rest;
      var first := WriteTerms(arms[0].terms);
      assert WriteArms(arms) + rest == [ByteOf('|')] + (first + after);
      Behind(ByteOf('|'), first + after);
      AfterArm(arms[1..], rest);
      TermsRead(arms[0].terms, depth, after, []);
      var ns := TermMeanings(arms[0].terms, depth, after);
      assert [] + ns == ns;
      var n := Sequenced(ns);
      BranchStep([ByteOf('|')] + (first + after), depth, done, n, after);
      Regroup(done, [n], ArmMeanings(arms[1..], depth, rest));
      ArmsRead(arms[1..], depth, rest, done + [n]);
    }
  }

  lemma BranchStep(s: Bytes, depth: nat, done: seq<Node>, n: Node, rest: Bytes)
    requires At(s, '|') && |done| > 0 && (forall k | 0 <= k < |done| :: WellFormed(done[k])) && Sequence(s[1..], depth, []) == Ok((n, rest))
    ensures WellFormed(n) && Branches(s, depth, done) == Branches(rest, depth, done + [n])
  {
    hide Sequence;
  }

  lemma AfterArm(arms: seq<Arm>, rest: Bytes)
    requires rest == [] || At(rest, ')')
    ensures var s := WriteArms(arms) + rest;
            if arms == [] then s == rest else At(s, '|')
  {
    hide WriteTerms;
  }

  /** Every legal spelling is read as its meaning. */
  lemma {:induction false} Reads(sp: Spelling, depth: nat, rest: Bytes)
    requires Legal(sp, depth, rest) && (rest == [] || At(rest, ')'))
    ensures Alternation(Write(sp) + rest, depth) == Ok((Meaning(sp, depth, rest), rest))
    decreases sp, 1
  {
    hide Sequence, Branches, WriteTerms, LegalTerms, TermMeanings;
    var arms := sp.arms;
    var after := WriteArms(arms[1..]) + rest;
    var first := WriteTerms(arms[0].terms);
    Regroup(first, WriteArms(arms[1..]), rest);
    AfterArm(arms[1..], rest);
    TermsRead(arms[0].terms, depth, after, []);
    var ns := TermMeanings(arms[0].terms, depth, after);
    assert [] + ns == ns;
    if arms[1..] != [] {
      FirstArm(Write(sp) + rest, depth, Sequenced(ns), after);
      ArmsRead(arms[1..], depth, rest, [Sequenced(ns)]);
    }
    hide WriteArms, LegalArms;
  }

  lemma FirstArm(s: Bytes, depth: nat, n: Node, rest: Bytes)
    requires Sequence(s, depth, []) == Ok((n, rest)) && At(rest, '|')
    ensures WellFormed(n) && Alternation(s, depth) == Branches(rest, depth, [n])
  {
    hide Sequence, Branches;
  }
}

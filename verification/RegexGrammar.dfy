/** The pattern language, as functions from the remaining bytes to a tree and what is left. */
module RegexGrammar {
  import opened Common
  import opened RegexSyntax

  const MAX_GROUP_DEPTH: nat := 128

  /** A tree and the unread bytes. */
  type Tree = Outcome<(Node, Bytes)>

  /** The byte of an ASCII character. */
  function ByteOf(c: char): Byte
    requires c as int < 128
  {
    c as int
  }

  predicate At(s: Bytes, c: char)
    requires c as int < 128
  {
    s != [] && s[0] == ByteOf(c)
  }

  function Fail<T>(why: string): Outcome<T> {
    Err(Why(why))
  }

  function Why(why: string): string {
    "Regex: " + why
  }

  predicate Between(lo: int, b: Byte, hi: int) { lo <= b <= hi }

  function Range(lo: int, hi: int): ByteSet {
    set b: Byte | 0 <= b < 256 && Between(lo, b, hi)
  }

  function Full(): ByteSet {
    Range(0, 255)
  }

  function DigitClass(): ByteSet {
    Range(48, 57)
  }

  function WordClass(): ByteSet {
    set b: Byte | 0 <= b < 256 && IsWordByte(b)
  }

  function SpaceClass(): ByteSet {
    {32, 9, 10, 13, 12, 11}
  }

  function DotClass(): ByteSet {
    Full() - {10, 13}
  }

  // ----- alternation, concatenation, repetition -----

  function Alternation(s: Bytes, depth: nat): (r: Tree)
    ensures r.Ok? ==> |r.value.1| <= |s| && WellFormed(r.value.0)
    decreases |s|, 5
  {
    var (first, rest) :- Sequence(s, depth, []);
    if At(rest, '|') then Branches(rest, depth, [first]) else Ok((first, rest))
  }

  function Branches(s: Bytes, depth: nat, done: seq<Node>): (r: Tree)
    requires |done| > 0 && (|done| > 1 || At(s, '|')) && forall k | 0 <= k < |done| :: WellFormed(done[k])
    ensures r.Ok? ==> |r.value.1| <= |s| && WellFormed(r.value.0)
    decreases |s|, 4
  {
    if At(s, '|') then
      var (branch, rest) :- Sequence(s[1..], depth, []);
      Branches(rest, depth, done + [branch])
    else Ok((Alt(done), s))
  }

  function Sequence(s: Bytes, depth: nat, done: seq<Node>): (r: Tree)
    requires forall k | 0 <= k < |done| :: WellFormed(done[k])
    ensures r.Ok? ==> |r.value.1| <= |s| && WellFormed(r.value.0)
    decreases |s|, 3
  {
    if s == [] || At(s, '|') || At(s, ')') then
      Ok((if done == [] then Empty else if |done| == 1 then done[0] else Concat(done), s))
    else
      var (piece, rest) :- Piece(s, depth);
      Sequence(rest, depth, done + [piece])
  }

  function Piece(s: Bytes, depth: nat): (r: Tree)
    requires s != []
    ensures r.Ok? ==> |r.value.1| < |s| && WellFormed(r.value.0)
    decreases |s|, 2
  {
    var (atom, rest) :- Atom(s, depth);
    match Quantifier(rest)
    case None => Ok((atom, rest))
    case Some((min, max, after)) => Quantified(atom, min, max, after)
  }

  function Quantified(atom: Node, min: nat, max: int, after: Bytes): (r: Tree)
    requires WellFormed(atom) && min <= MAX_REPEAT && (max < 0 || min <= max <= MAX_REPEAT)
    ensures r.Ok? ==> |r.value.1| <= |after| && WellFormed(r.value.0)
  {
    var rest := if At(after, '?') then after[1..] else after;
    if atom.Assertion? then Fail("quantifier applied to an assertion")
    else if At(rest, '*') || At(rest, '+') then Fail("double quantifier")
    else Ok((Repeat(atom, min, max), rest))
  }

  /** The bounds of the quantifier s starts with, if it starts with one. */
  function Quantifier(s: Bytes): (r: Option<(nat, int, Bytes)>)
    ensures r.Some? ==> var (min, max, rest) := r.value;
                        min <= MAX_REPEAT && (max < 0 || min <= max <= MAX_REPEAT) && |rest| < |s|
  {
    if At(s, '*') then Some((0, -1, s[1..]))
    else if At(s, '+') then Some((1, -1, s[1..]))
    else if At(s, '?') then Some((0, 1, s[1..]))
    else if At(s, '{') then Bounded(s[1..])
    else None
  }

  /** `n}`, `n,}` or `n,m}`. */
  function Bounded(s: Bytes): (r: Option<(nat, int, Bytes)>)
    ensures r.Some? ==> var (min, max, rest) := r.value;
                        min <= MAX_REPEAT && (max < 0 || min <= max <= MAX_REPEAT) && |rest| < |s|
  {
    match Number(s)
    case None => None
    case Some((n, rest)) =>
      if At(rest, '}') then Some((n, n as int, rest[1..]))
      else if !At(rest, ',') then None
      else if At(rest[1..], '}') then Some((n, -1, rest[2..]))
      else
        match Number(rest[1..])
        case None => None
        case Some((m, rest2)) => if At(rest2, '}') && n <= m then Some((n, m as int, rest2[1..])) else None
  }

  predicate IsDigit(c: Byte) { 48 <= c <= 57 }

  function Number(s: Bytes): (r: Option<(nat, Bytes)>)
    ensures r.Some? ==> r.value.0 <= MAX_REPEAT && |r.value.1| < |s|
  {
    if s == [] || !IsDigit(s[0]) then None else Digits(s, 0)
  }

  function Digits(s: Bytes, value: nat): (r: Option<(nat, Bytes)>)
    requires value <= MAX_REPEAT
    ensures r.Some? ==> r.value.0 <= MAX_REPEAT && |r.value.1| <= |s|
    ensures r.Some? && s != [] && IsDigit(s[0]) ==> |r.value.1| < |s|
  {
    if s == [] || !IsDigit(s[0]) then Some((value, s))
    else
      var v := value * 10 + (s[0] - 48);
      if v > MAX_REPEAT then None else Digits(s[1..], v)
  }

  // ----- atoms -----

  function Atom(s: Bytes, depth: nat): (r: Tree)
    requires s != []
    ensures r.Ok? ==> |r.value.1| < |s| && WellFormed(r.value.0)
    decreases |s|, 1
  {
    var rest := s[1..];
    if At(s, '^') then Ok((Assertion(InputStart), rest))
    else if At(s, '$') then Ok((Assertion(InputEnd), rest))
    else if At(s, '.') then Ok((Class(DotClass()), rest))
    else if At(s, '(') then Group(rest, depth)
    else if At(s, '[') then CharClass(rest)
    else if At(s, '\\') then Escape(rest)
    else if At(s, '*') || At(s, '+') || At(s, '?') then Fail("quantifier with nothing to repeat")
    else Ok((Lit(s[0]), rest))
  }

  /** After the opening parenthesis. */
  function Group(s: Bytes, depth: nat): (r: Tree)
    ensures r.Ok? ==> |r.value.1| <= |s| && WellFormed(r.value.0)
    decreases |s|, 6
  {
    if depth >= MAX_GROUP_DEPTH then Fail("groups nested too deeply")
    else
      var body :- GroupBody(s);
      var (n, rest) :- Alternation(body, depth + 1);
      if At(rest, ')') then Ok((n, rest[1..])) else Fail("missing ')'")
  }

  /** What follows the group's `?:` or `?<name>` prefix, if it has one. */
  function GroupBody(s: Bytes): (r: Outcome<Bytes>)
    ensures r.Ok? ==> |r.value| <= |s|
  {
    if At(s, '?') then GroupPrefix(s[1..]) else Ok(s)
  }

  /** After `(?`. */
  function GroupPrefix(t: Bytes): (r: Outcome<Bytes>)
    ensures r.Ok? ==> |r.value| <= |t|
  {
    if At(t, ':') then Ok(t[1..])
    else if At(t, '=') || At(t, '!') then Fail("lookahead is not supported by the linear-time engine")
    else if At(t, '<') then
      var name := t[1..];
      if At(name, '=') || At(name, '!') then Fail("lookbehind is not supported by the linear-time engine")
      else
        var close := SkipName(name);
        if At(close, '>') then Ok(close[1..]) else Fail("unterminated group name")
    else Fail("unsupported group syntax '(?'")
  }

  function SkipName(s: Bytes): (r: Bytes)
    ensures |r| <= |s|
  {
    if s == [] || At(s, '>') then s else SkipName(s[1..])
  }

  // ----- character classes -----

  /** After the opening bracket. */
  function CharClass(s: Bytes): (r: Tree)
    ensures r.Ok? ==> |r.value.1| <= |s| && WellFormed(r.value.0)
  {
    var negate := At(s, '^');
    var (cls, rest) :- Members(if negate then s[1..] else s, true, {});
    Ok((Class(if negate then Full() - cls else cls), rest))
  }

  function Members(s: Bytes, first: bool, cls: ByteSet): (r: Outcome<(ByteSet, Bytes)>)
    ensures r.Ok? ==> |r.value.1| <= |s|
    decreases |s|
  {
    if s == [] then Fail("unterminated character class")
    else if At(s, ']') && !first then Ok((cls, s[1..]))
    else
      var (more, rest) :- MemberOrRange(s);
      Members(rest, false, cls + more)
  }

  function MemberOrRange(s: Bytes): (r: Outcome<(ByteSet, Bytes)>)
    requires s != []
    ensures r.Ok? ==> |r.value.1| < |s|
  {
    var (item, rest) :- Member(s);
    match item
    case Many(more) => Ok((more, rest))
    case One(lo) =>
      if At(rest, '-') && |rest| > 1 && rest[1] != ByteOf(']') then
        var (item2, rest2) :- Member(rest[1..]);
        match item2
        case Many(_) => Fail("class escape cannot end a range")
        case One(hi) => if hi < lo then Fail("character range is out of order") else Ok((Range(lo, hi), rest2))
      else Ok(({lo}, rest))
  }

  datatype ClassItem = One(b: Byte) | Many(cls: ByteSet)

  function Member(s: Bytes): (r: Outcome<(ClassItem, Bytes)>)
    requires s != []
    ensures r.Ok? ==> |r.value.1| < |s|
  {
    if At(s, '\\') then ClassEscape(s[1..]) else Ok((One(s[0]), s[1..]))
  }

  /** After a backslash inside a class. */
  function ClassEscape(s: Bytes): (r: Outcome<(ClassItem, Bytes)>)
    ensures r.Ok? ==> |r.value.1| <= |s|
  {
    if s == [] then Fail("dangling escape")
    else if ClassLetter(s[0]).Some? then Ok((Many(ClassLetter(s[0]).value), s[1..]))
    else if At(s, 'b') then Ok((One(8), s[1..]))
    else
      match SimpleEscape(s)
      case Some((b, rest)) => Ok((One(b), rest))
      case None => Fail(UnsupportedEscape(s[0]))
  }

  function UnsupportedEscape(c: Byte): string {
    "unsupported escape '\\" + [c as char] + "'"
  }

  /** \d \D \w \W \s \S */
  function ClassLetter(c: Byte): Option<ByteSet> {
    if c == ByteOf('d') then Some(DigitClass())
    else if c == ByteOf('D') then Some(Full() - DigitClass())
    else if c == ByteOf('w') then Some(WordClass())
    else if c == ByteOf('W') then Some(Full() - WordClass())
    else if c == ByteOf('s') then Some(SpaceClass())
    else if c == ByteOf('S') then Some(Full() - SpaceClass())
    else None
  }

  // ----- escapes -----

  /** After a backslash outside a class. */
  function Escape(s: Bytes): (r: Tree)
    ensures r.Ok? ==> |r.value.1| <= |s| && WellFormed(r.value.0)
  {
    if s == [] then Fail("dangling escape")
    else if ClassLetter(s[0]).Some? then Ok((Class(ClassLetter(s[0]).value), s[1..]))
    else if At(s, 'b') then Ok((Assertion(WordBoundary), s[1..]))
    else if At(s, 'B') then Ok((Assertion(NotWordBoundary), s[1..]))
    else if 49 <= s[0] <= 57 then Fail("backreferences are not supported by the linear-time engine")
    else if At(s, 'u') then
      match Hex(s[1..], 4, 0)
      case None => Fail("malformed \\uHHHH escape")
      case Some((code, rest)) =>
        var n :- Utf8Literal(code);
        Ok((n, rest))
    else
      match SimpleEscape(s)
      case Some((b, rest)) => Ok((Lit(b), rest))
      case None => Fail(UnsupportedEscape(s[0]))
  }

  /** Escapes that stand for one byte, in and out of classes. */
  function SimpleEscape(s: Bytes): (r: Option<(Byte, Bytes)>)
    requires s != []
    ensures r.Some? ==> |r.value.1| < |s|
  {
    var rest := s[1..];
    if At(s, 'n') then Some((10, rest))
    else if At(s, 'r') then Some((13, rest))
    else if At(s, 't') then Some((9, rest))
    else if At(s, 'f') then Some((12, rest))
    else if At(s, 'v') then Some((11, rest))
    else if At(s, '0') then Some((0, rest))
    else if At(s, 'x') then
      match Hex(rest, 2, 0)
      case Some((code, rest2)) => Some((code, rest2))
      case None => None
    else if IsWordByte(s[0]) then None
    else Some((s[0], rest))
  }

  function HexDigit(c: Byte): (r: Option<nat>)
    ensures r.Some? ==> r.value < 16
  {
    if 48 <= c <= 57 then Some(c - 48)
    else if 97 <= c <= 102 then Some(c - 87)
    else if 65 <= c <= 70 then Some(c - 55)
    else None
  }

  function Pow16(d: nat): nat {
    if d == 0 then 1 else 16 * Pow16(d - 1)
  }

  function Hex(s: Bytes, digits: nat, value: nat): (r: Option<(nat, Bytes)>)
    ensures r.Some? ==> r.value.0 < (value + 1) * Pow16(digits) && |r.value.1| <= |s|
    decreases digits
  {
    if digits == 0 then Some((value, s))
    else if s == [] || HexDigit(s[0]).None? then None
    else
      var v := value * 16 + HexDigit(s[0]).value;
      HexBound(value, HexDigit(s[0]).value, Pow16(digits - 1));
      Hex(s[1..], digits - 1, v)
  }

  lemma HexBound(value: nat, d: nat, p: nat)
    requires d < 16
    ensures (value * 16 + d + 1) * p <= (value + 1) * (16 * p)
  {
    assert (value + 1) * (16 * p) == (value * 16 + d + 1) * p + (15 - d) * p;
  }

  /** The UTF-8 bytes of a code point below 0x10000, as a tree (section 3 of RFC 3629). */
  function Utf8Literal(code: nat): (r: Outcome<Node>)
    requires code < 0x10000
    ensures r.Ok? ==> WellFormed(r.value)
  {
    if 0xD800 <= code <= 0xDFFF then Fail("surrogate \\u escapes are not supported")
    else if code < 0x80 then Ok(Lit(code))
    else if code < 0x800 then Ok(Concat([Lit(0xC0 + code / 64), Lit(0x80 + code % 64)]))
    else Ok(Concat([Lit(0xE0 + code / 4096), Lit(0x80 + code / 64 % 64), Lit(0x80 + code % 64)]))
  }

  /** The whole pattern must be one alternation. */
  function Pattern(s: Bytes): (r: Outcome<Node>)
    ensures r.Ok? ==> WellFormed(r.value)
  {
    var (n, rest) :- Alternation(s, 0);
    if rest == [] then Ok(n) else Fail("unbalanced ')'")
  }
}

/** The pattern language itself: every way to write a pattern, and what each one means. */
module RegexSpelling {
  import opened Common
  import opened RegexSyntax
  import opened RegexGrammar

  // ----- the ways to write a pattern -----

  datatype Spelling = Spelling(arms: seq<Arm>)

  datatype Arm = Arm(terms: seq<Term>)

  datatype Term = Term(atom: Atomic, quantifier: Quant)

  datatype Atomic =
    | Itself(b: Byte)
    | Caret
    | Dollar
    | Dot
    | Grouped(prefix: Prefix, body: Spelling)
    | Bracket(negate: bool, members: seq<Part>)
    | Letter(c: Byte)
    | Boundary(inverted: bool)
    | Unicode(digits: Bytes)
    | Escaped(e: Simple)

  /** After `(`: nothing, `?:`, or `?<name>`. */
  datatype Prefix = NoPrefix | Colon | Named(name: Bytes)

  /** After a backslash: one of n r t f v 0, two hexadecimal digits after x, or a byte that is no word byte. */
  datatype Simple = Control(c: Byte) | Hexadecimal(digits: Bytes) | Identity(b: Byte)

  datatype Part = Single(item: Item) | Span(lo: Item, hi: Item)

  datatype Item = Plain(b: Byte) | Shorthand(c: Byte) | Backspace | OneByte(e: Simple)

  datatype Quant = Once | Repeated(bounds: Bounds, isLazy: bool)

  datatype Bounds = Star | Plus | Optional | Exactly(n: Bytes) | AtLeast(n: Bytes) | FromTo(n: Bytes, m: Bytes)

  // ----- how they are written -----

  function Slash(b: Byte): Bytes { [ByteOf('\\'), b] }

  function WriteSimple(e: Simple): Bytes {
    match e
    case Control(c) => Slash(c)
    case Hexadecimal(digits) => Slash(ByteOf('x')) + digits
    case Identity(b) => Slash(b)
  }

  function WriteItem(i: Item): Bytes {
    match i
    case Plain(b) => [b]
    case Shorthand(c) => Slash(c)
    case Backspace => Slash(ByteOf('b'))
    case OneByte(e) => WriteSimple(e)
  }

  function WritePart(p: Part): Bytes {
    match p
    case Single(i) => WriteItem(i)
    case Span(lo, hi) => WriteItem(lo) + ([ByteOf('-')] + WriteItem(hi))
  }

  function WriteParts(ps: seq<Part>): Bytes {
    if ps == [] then [] else WritePart(ps[0]) + WriteParts(ps[1..])
  }

  function WriteBounds(b: Bounds): Bytes {
    match b
    case Star => [ByteOf('*')]
    case Plus => [ByteOf('+')]
    case Optional => [ByteOf('?')]
    case Exactly(n) => [ByteOf('{')] + (n + [ByteOf('}')])
    case AtLeast(n) => [ByteOf('{')] + (n + [ByteOf(','), ByteOf('}')])
    case FromTo(n, m) => [ByteOf('{')] + (n + ([ByteOf(',')] + (m + [ByteOf('}')])))
  }

  function WriteQuant(q: Quant): Bytes {
    match q
    case Once => []
    case Repeated(b, isLazy) => WriteBounds(b) + if isLazy then [ByteOf('?')] else []
  }

  function WritePrefix(p: Prefix): Bytes {
    match p
    case NoPrefix => []
    case Colon => [ByteOf('?'), ByteOf(':')]
    case Named(name) => [ByteOf('?'), ByteOf('<')] + (name + [ByteOf('>')])
  }

  function WriteAtomic(a: Atomic): Bytes
    decreases a, 1
  {
    match a
    case Itself(b) => [b]
    case Caret => [ByteOf('^')]
    case Dollar => [ByteOf('$')]
    case Dot => [ByteOf('.')]
    case Grouped(prefix, body) => [ByteOf('(')] + (WritePrefix(prefix) + (Write(body) + [ByteOf(')')]))
    case Bracket(negate, ps) => [ByteOf('[')] + ((if negate then [ByteOf('^')] else []) + (WriteParts(ps) + [ByteOf(']')]))
    case Letter(c) => Slash(c)
    case Boundary(inverted) => Slash(if inverted then ByteOf('B') else ByteOf('b'))
    case Unicode(digits) => Slash(ByteOf('u')) + digits
    case Escaped(e) => WriteSimple(e)
  }

  function WriteTerm(t: Term): Bytes
    decreases t, 1
  {
    WriteAtomic(t.atom) + WriteQuant(t.quantifier)
  }

  function WriteTerms(ts: seq<Term>): Bytes
    decreases ts
  {
    if ts == [] then [] else WriteTerm(ts[0]) + WriteTerms(ts[1..])
  }

  /** The arms after the first, each behind its bar. */
  function WriteArms(arms: seq<Arm>): Bytes
    decreases arms
  {
    if arms == [] then [] else [ByteOf('|')] + (WriteTerms(arms[0].terms) + WriteArms(arms[1..]))
  }

  function Write(sp: Spelling): Bytes
    decreases sp, 1
  {
    if sp.arms == [] then [] else WriteTerms(sp.arms[0].terms) + WriteArms(sp.arms[1..])
  }

  // ----- what they mean -----

  function HexValue(digits: Bytes, value: nat): nat
    requires forall d | d in digits :: HexDigit(d).Some?
    decreases digits
  {
    if digits == [] then value else assert digits[0] in digits; HexValue(digits[1..], value * 16 + HexDigit(digits[0]).value)
  }

  predicate LegalHex(digits: Bytes, n: nat) {
    |digits| == n && forall d | d in digits :: HexDigit(d).Some?
  }

  predicate LegalSimple(e: Simple) {
    match e
    case Control(c) => c in {ByteOf('n'), ByteOf('r'), ByteOf('t'), ByteOf('f'), ByteOf('v'), ByteOf('0')}
    case Hexadecimal(digits) => LegalHex(digits, 2)
    case Identity(b) => !IsWordByte(b)
  }

  lemma {:induction false} HexBelow(digits: Bytes, value: nat)
    requires forall d | d in digits :: HexDigit(d).Some?
    ensures HexValue(digits, value) < (value + 1) * Pow16(|digits|)
    decreases digits
  {
    if digits != [] {
      assert digits[0] in digits;
      var v := HexDigit(digits[0]).value;
      HexBelow(digits[1..], value * 16 + v);
      HexBound(value, v, Pow16(|digits| - 1));
    }
  }

  function SimpleByte(e: Simple): Byte
    requires LegalSimple(e)
  {
    match e
    case Control(c) =>
      if c == ByteOf('n') then 10 else if c == ByteOf('r') then 13 else if c == ByteOf('t') then 9
      else if c == ByteOf('f') then 12 else if c == ByteOf('v') then 11 else 0
    case Hexadecimal(digits) =>
      HexBelow(digits, 0);
      assert Pow16(2) == 256 by { assert Pow16(1) == 16; }
      HexValue(digits, 0)
    case Identity(b) => b
  }

  predicate LegalItem(i: Item) {
    match i
    case Plain(b) => b != ByteOf('\\')
    case Shorthand(c) => ClassLetter(c).Some?
    case Backspace => true
    case OneByte(e) => LegalSimple(e)
  }

  /** The byte an item stands for; a shorthand stands for a set. */
  function ItemByte(i: Item): Byte
    requires LegalItem(i) && !i.Shorthand?
  {
    match i
    case Plain(b) => b
    case Backspace => 8
    case OneByte(e) => SimpleByte(e)
  }

  function PartSet(p: Part): ByteSet
    requires match p case Single(i) => LegalItem(i) case Span(lo, hi) => LegalItem(lo) && LegalItem(hi) && !lo.Shorthand? && !hi.Shorthand?
  {
    match p
    case Single(i) => if i.Shorthand? then ClassLetter(i.c).value else {ItemByte(i)}
    case Span(lo, hi) => Range(ItemByte(lo), ItemByte(hi))
  }

  /** A dash that starts a range: something other than the closing bracket follows it. */
  predicate StartsRange(rest: Bytes) {
    At(rest, '-') && |rest| > 1 && rest[1] != ByteOf(']')
  }

  /** A bracket closes the class anywhere but first, so it is a member only there. */
  predicate LegalPart(p: Part, first: bool, rest: Bytes) {
    match p
    case Single(i) => LegalItem(i) && (i == Plain(ByteOf(']')) ==> first) && (!i.Shorthand? ==> !StartsRange(rest))
    case Span(lo, hi) =>
      LegalItem(lo) && LegalItem(hi) && !lo.Shorthand? && !hi.Shorthand? && (lo == Plain(ByteOf(']')) ==> first) &&
      hi != Plain(ByteOf(']')) && ItemByte(lo) <= ItemByte(hi)
  }

  /** rest is what follows the members, from the closing bracket on. */
  predicate LegalParts(ps: seq<Part>, first: bool, rest: Bytes) {
    if ps == [] then !first else LegalPart(ps[0], first, WriteParts(ps[1..]) + rest) && LegalParts(ps[1..], false, rest)
  }

  function PartsSet(ps: seq<Part>, first: bool, rest: Bytes): ByteSet
    requires LegalParts(ps, first, rest)
  {
    if ps == [] then {} else PartSet(ps[0]) + PartsSet(ps[1..], false, rest)
  }

  function DigitOf(d: Byte): nat
    requires IsDigit(d)
  {
    var x: int := d;
    x - 48
  }

  function NumberValue(n: Bytes, value: nat): nat
    requires forall d | d in n :: IsDigit(d)
    decreases n
  {
    if n == [] then value else assert n[0] in n; NumberValue(n[1..], value * 10 + DigitOf(n[0]))
  }

  /** Digits, leading zeros included, of a number up to 1024. */
  predicate LegalNumber(n: Bytes) {
    n != [] && (forall d | d in n :: IsDigit(d)) && NumberValue(n, 0) <= MAX_REPEAT
  }

  predicate LegalBounds(b: Bounds) {
    match b
    case Exactly(n) => LegalNumber(n)
    case AtLeast(n) => LegalNumber(n)
    case FromTo(n, m) => LegalNumber(n) && LegalNumber(m) && NumberValue(n, 0) <= NumberValue(m, 0)
    case _ => true
  }

  function LowerBound(b: Bounds): (n: nat)
    requires LegalBounds(b)
    ensures n <= MAX_REPEAT
  {
    match b
    case Star => 0
    case Plus => 1
    case Optional => 0
    case Exactly(n) => NumberValue(n, 0)
    case AtLeast(n) => NumberValue(n, 0)
    case FromTo(n, _) => NumberValue(n, 0)
  }

  /** -1 for none. */
  function UpperBound(b: Bounds): (n: int)
    requires LegalBounds(b)
    ensures n < 0 || LowerBound(b) <= n <= MAX_REPEAT
  {
    match b
    case Star => -1
    case Plus => -1
    case Optional => 1
    case Exactly(n) => NumberValue(n, 0)
    case AtLeast(_) => -1
    case FromTo(_, m) => NumberValue(m, 0)
  }

  predicate LegalPrefix(p: Prefix) {
    match p
    case Named(name) => !At(name, '=') && !At(name, '!') && ByteOf('>') !in name
    case _ => true
  }

  /**
   * What follows decides what a term is: a brace that could be read as bounds is, a question mark makes a quantifier
   * lazy, and a star or a plus after a quantifier is refused.
   */
  predicate LegalQuant(q: Quant, assertion: bool, rest: Bytes) {
    match q
    case Once => Quantifier(rest).None?
    case Repeated(b, isLazy) => LegalBounds(b) && !assertion && (isLazy || !At(rest, '?')) && !At(rest, '*') && !At(rest, '+')
  }

  predicate Syntax(b: Byte) {
    b in {ByteOf('^'), ByteOf('$'), ByteOf('.'), ByteOf('('), ByteOf('['), ByteOf('\\'), ByteOf('*'), ByteOf('+'), ByteOf('?'),
          ByteOf('|'), ByteOf(')')}
  }

  /** An assertion, in any number of groups. */
  predicate IsAssertion(a: Atomic) {
    match a
    case Caret => true
    case Dollar => true
    case Boundary(_) => true
    case Grouped(_, body) =>
      |body.arms| == 1 && |body.arms[0].terms| == 1 && body.arms[0].terms[0].quantifier.Once? &&
      IsAssertion(body.arms[0].terms[0].atom)
    case _ => false
  }

  predicate LegalUnicode(digits: Bytes) {
    LegalHex(digits, 4) && (HexValue(digits, 0) < 0xD800 || 0xDFFF < HexValue(digits, 0))
  }

  /** Legal at group depth `depth` with `rest` behind it. */
  predicate LegalAtomic(a: Atomic, depth: nat, rest: Bytes)
    decreases a, 1
  {
    match a
    case Itself(b) => !Syntax(b)
    case Grouped(prefix, body) => depth < MAX_GROUP_DEPTH && LegalPrefix(prefix) && Legal(body, depth + 1, [ByteOf(')')] + rest)
    case Bracket(negate, ps) =>
      LegalParts(ps, true, [ByteOf(']')] + rest) && (!negate ==> !At(WriteParts(ps), '^'))
    case Letter(c) => ClassLetter(c).Some?
    case Unicode(digits) => LegalUnicode(digits)
    case Escaped(e) => LegalSimple(e)
    case _ => true
  }

  predicate LegalTerm(t: Term, depth: nat, rest: Bytes)
    decreases t, 1
  {
    LegalAtomic(t.atom, depth, WriteQuant(t.quantifier) + rest) && LegalQuant(t.quantifier, IsAssertion(t.atom), rest)
  }

  predicate LegalTerms(ts: seq<Term>, depth: nat, rest: Bytes)
    decreases ts
  {
    ts == [] || (LegalTerm(ts[0], depth, WriteTerms(ts[1..]) + rest) && LegalTerms(ts[1..], depth, rest))
  }

  predicate LegalArms(arms: seq<Arm>, depth: nat, rest: Bytes)
    decreases arms
  {
    arms == [] || (LegalTerms(arms[0].terms, depth, WriteArms(arms[1..]) + rest) && LegalArms(arms[1..], depth, rest))
  }

  predicate Legal(sp: Spelling, depth: nat, rest: Bytes)
    decreases sp, 1
  {
    sp.arms != [] && LegalArms(sp.arms, depth, rest)
  }

  /** One thing is itself, several are a sequence, none is the empty match. */
  function Sequenced(ns: seq<Node>): Node {
    if ns == [] then Empty else if |ns| == 1 then ns[0] else Concat(ns)
  }

  function Utf8Node(code: nat): Node
    requires code < 0x10000 && (code < 0xD800 || 0xDFFF < code)
  {
    Utf8Literal(code).value
  }

  function AtomicMeaning(a: Atomic, depth: nat, rest: Bytes): Node
    requires LegalAtomic(a, depth, rest)
    decreases a, 1
  {
    match a
    case Itself(b) => Lit(b)
    case Caret => Assertion(InputStart)
    case Dollar => Assertion(InputEnd)
    case Dot => Class(DotClass())
    case Grouped(_, body) => Meaning(body, depth + 1, [ByteOf(')')] + rest)
    case Bracket(negate, ps) =>
      var cls := PartsSet(ps, true, [ByteOf(']')] + rest);
      Class(if negate then Full() - cls else cls)
    case Letter(c) => Class(ClassLetter(c).value)
    case Boundary(inverted) => Assertion(if inverted then NotWordBoundary else WordBoundary)
    case Unicode(digits) => UnicodeBelow(digits); Utf8Node(HexValue(digits, 0))
    case Escaped(e) => Lit(SimpleByte(e))
  }

  lemma UnicodeBelow(digits: Bytes)
    requires LegalUnicode(digits)
    ensures HexValue(digits, 0) < 0x10000
  {
    HexBelow(digits, 0);
    assert Pow16(4) == 0x10000 by {
      assert Pow16(2) == 0x100 && Pow16(3) == 0x1000;
    }
  }

  function TermMeaning(t: Term, depth: nat, rest: Bytes): Node
    requires LegalTerm(t, depth, rest)
    decreases t, 1
  {
    var n := AtomicMeaning(t.atom, depth, WriteQuant(t.quantifier) + rest);
    match t.quantifier
    case Once => n
    case Repeated(b, _) => Repeat(n, LowerBound(b), UpperBound(b))
  }

  function TermMeanings(ts: seq<Term>, depth: nat, rest: Bytes): (r: seq<Node>)
    requires LegalTerms(ts, depth, rest)
    ensures |r| == |ts|
    decreases ts
  {
    if ts == [] then []
    else [TermMeaning(ts[0], depth, WriteTerms(ts[1..]) + rest)] + TermMeanings(ts[1..], depth, rest)
  }

  function ArmMeanings(arms: seq<Arm>, depth: nat, rest: Bytes): (r: seq<Node>)
    requires LegalArms(arms, depth, rest)
    ensures |r| == |arms|
    decreases arms
  {
    if arms == [] then []
    else [Sequenced(TermMeanings(arms[0].terms, depth, WriteArms(arms[1..]) + rest))] + ArmMeanings(arms[1..], depth, rest)
  }

  function Meaning(sp: Spelling, depth: nat, rest: Bytes): Node
    requires Legal(sp, depth, rest)
    decreases sp, 1
  {
    var ns := ArmMeanings(sp.arms, depth, rest);
    if |ns| == 1 then ns[0] else Alt(ns)
  }
}

/** Writing a tree back as a pattern, and reading it again. */
module RegexShow {
  import opened Common
  import opened RegexSyntax
  import opened RegexGrammar

  predicate Leaf(n: Node) { n.Lit? || n.Class? || n.Assertion? }

  /** The bytes that do not stand for themselves everywhere a literal may stand. */
  predicate Special(b: Byte) {
    b in {ByteOf('^'), ByteOf('$'), ByteOf('.'), ByteOf('('), ByteOf(')'), ByteOf('['), ByteOf('\\'), ByteOf('*'), ByteOf('+'), ByteOf('?'), ByteOf('{'), ByteOf('|')}
  }

  function HexChar(d: nat): Byte
    requires d < 16
  {
    if d < 10 then 48 + d else 87 + d
  }

  function HexEscape(b: Byte): Bytes {
    [ByteOf('\\'), ByteOf('x'), HexChar(b / 16), HexChar(b % 16)]
  }

  /** The members of cls from b on. */
  function Items(cls: ByteSet, b: nat): Bytes
    requires b <= 256
    decreases 256 - b
  {
    if b == 256 then [] else (if b in cls then HexEscape(b) else []) + Items(cls, b + 1)
  }

  function ShowLeaf(n: Node): (r: Bytes)
    requires Leaf(n)
    ensures r != []
  {
    match n
    case Lit(b) => if Special(b) then HexEscape(b) else [b]
    case Class(cls) =>
      if cls == {} then [ByteOf('['), ByteOf('^')] + HexEscape(0) + [ByteOf('-')] + HexEscape(255) + [ByteOf(']')]
      else [ByteOf('[')] + Items(cls, 0) + [ByteOf(']')]
    case Assertion(InputStart) => [ByteOf('^')]
    case Assertion(InputEnd) => [ByteOf('$')]
    case Assertion(WordBoundary) => [ByteOf('\\'), ByteOf('b')]
    case Assertion(NotWordBoundary) => [ByteOf('\\'), ByteOf('B')]
  }

  function ShowBounds(min: nat, max: int): Bytes {
    [ByteOf('{')] + Decimal(min) + [ByteOf(',')] + (if max < 0 then [] else Decimal(max)) + [ByteOf('}')]
  }

  function ShowAtom(n: Node): (r: Bytes)
    ensures r != []
    decreases n, 1
  {
    if Leaf(n) then ShowLeaf(n) else [ByteOf('(')] + Show(n) + [ByteOf(')')]
  }

  function ShowPiece(n: Node): (r: Bytes)
    ensures r != []
    decreases n, 2
  {
    if n.Repeat? then Show(n) else ShowAtom(n)
  }

  function ShowArm(n: Node): Bytes
    decreases n, 2
  {
    if n.Alt? then ShowAtom(n) else Show(n)
  }

  /** The pattern of a tree. */
  function Show(n: Node): (r: Bytes)
    ensures n.Repeat? ==> r != []
    decreases n, 0
  {
    match n
    case Empty => []
    case Alt(c) => ShowArms(c)
    case Concat(c) => ShowPieces(c)
    case Repeat(b, min, max) => ShowAtom(b) + ShowBounds(min, max)
    case _ => ShowLeaf(n)
  }

  function ShowArms(c: seq<Node>): Bytes
    decreases c, 0
  {
    if c == [] then []
    else if |c| == 1 then ShowArm(c[0])
    else ShowArm(c[0]) + [ByteOf('|')] + ShowArms(c[1..])
  }

  function ShowPieces(c: seq<Node>): Bytes
    decreases c, 0
  {
    if c == [] then [] else ShowPiece(c[0]) + ShowPieces(c[1..])
  }

  // ----- the nesting limit -----

  predicate FitsAtom(n: Node, depth: nat)
    decreases n, 1
  {
    Leaf(n) || (depth < MAX_GROUP_DEPTH && Fits(n, depth + 1))
  }

  predicate FitsPiece(n: Node, depth: nat)
    decreases n, 2
  {
    if n.Repeat? then Fits(n, depth) else FitsAtom(n, depth)
  }

  predicate FitsArm(n: Node, depth: nat)
    decreases n, 2
  {
    if n.Alt? then FitsAtom(n, depth) else Fits(n, depth)
  }

  /** Written at group depth `depth`, n nests no group deeper than the parser allows. */
  predicate Fits(n: Node, depth: nat)
    decreases n, 0
  {
    match n
    case Alt(c) => forall k | 0 <= k < |c| :: FitsArm(c[k], depth)
    case Concat(c) => forall k | 0 <= k < |c| :: FitsPiece(c[k], depth)
    case Repeat(b, _, _) => FitsAtom(b, depth)
    case _ => true
  }

  const TOO_DEEP: string := "groups nested too deeply"

  /** What reading n back must give: n and the rest, or the nesting error. */
  function Expected(fits: bool, n: Node, rest: Bytes): Tree {
    if fits then Ok((n, rest)) else Fail(TOO_DEEP)
  }

  // ----- reading it back -----

  /** The byte that follows cannot be taken for a quantifier. */
  predicate NoQuantifier(rest: Bytes) {
    rest == [] || rest[0] !in {ByteOf('*'), ByteOf('+'), ByteOf('?'), ByteOf('{')}
  }

  predicate EndsSequence(rest: Bytes) {
    rest == [] || At(rest, '|') || At(rest, ')')
  }

  lemma ReadHex(b: Byte, rest: Bytes)
    ensures Hex([HexChar(b / 16), HexChar(b % 16)] + rest, 2, 0) == Some((b, rest))
  {
    var s := [HexChar(b / 16), HexChar(b % 16)] + rest;
    assert s[1..] == [HexChar(b % 16)] + rest && s[1..][1..] == rest;
    assert Hex(s, 2, 0) == Hex(s[1..], 1, b / 16) == Hex(rest, 0, b);
  }

  lemma ReadMember(b: Byte, rest: Bytes)
    ensures Member(HexEscape(b) + rest) == Ok((One(b), rest))
  {
    ReadHex(b, rest);
    var s := HexEscape(b) + rest;
    assert s[1..][1..] == [HexChar(b / 16), HexChar(b % 16)] + rest;
  }

  function From(cls: ByteSet, b: nat): ByteSet {
    set x | x in cls && x >= b
  }

  lemma ReadOneItem(b: Byte, more: Bytes, first: bool, done: ByteSet)
    requires !At(more, '-')
    ensures Members(HexEscape(b) + more, first, done) == Members(more, false, done + {b})
  {
    ReadMember(b, more);
  }

  lemma {:induction false} ReadItems(cls: ByteSet, b: nat, rest: Bytes, first: bool, done: ByteSet, all: ByteSet)
    requires b <= 256 && (first ==> From(cls, b) != {}) && all == done + From(cls, b)
    ensures Members(Items(cls, b) + [ByteOf(']')] + rest, first, done) == Ok((all, rest))
    decreases 256 - b
  {
    hide Members, Items;
    FromStep(cls, b);
    if b == 256 {
      ItemsStep(cls, b, rest);
      ReadClose(rest, done);
      assert all == done;
    } else if b in cls {
      assert all == done + {b} + From(cls, b + 1);
      ReadItems(cls, b + 1, rest, false, done + {b}, all);
      ReadFirstItem(cls, b, rest, first, done);
    } else {
      ItemsStep(cls, b, rest);
      ReadItems(cls, b + 1, rest, first, done, all);
    }
  }

  lemma ReadFirstItem(cls: ByteSet, b: nat, rest: Bytes, first: bool, done: ByteSet)
    requires b < 256 && b in cls
    ensures Members(Items(cls, b) + [ByteOf(']')] + rest, first, done) ==
            Members(Items(cls, b + 1) + [ByteOf(']')] + rest, false, done + {b})
  {
    var more := Items(cls, b + 1) + [ByteOf(']')] + rest;
    ItemsStep(cls, b, rest);
    ReadOneItem(b, more, first, done);
    assert Items(cls, b) + [ByteOf(']')] + rest == HexEscape(b) + more;
  }

  lemma ItemsStep(cls: ByteSet, b: nat, rest: Bytes)
    requires b <= 256
    ensures b == 256 ==> Items(cls, b) + [ByteOf(']')] + rest == [ByteOf(']')] + rest
    ensures b < 256 ==>
              var more := Items(cls, b + 1) + [ByteOf(']')] + rest;
              !At(more, '-') && Items(cls, b) + [ByteOf(']')] + rest == if b in cls then HexEscape(b) + more else more
  {
    if b < 256 {
      NextIsNotDash(cls, b + 1, rest);
      assert b !in cls ==> Items(cls, b) == Items(cls, b + 1);
    }
  }

  lemma ReadClose(rest: Bytes, done: ByteSet)
    ensures Members([ByteOf(']')] + rest, false, done) == Ok((done, rest))
  {
    assert ([ByteOf(']')] + rest)[1..] == rest;
  }

  lemma FromStep(cls: ByteSet, b: nat)
    requires b <= 256
    ensures From(cls, b) == if b == 256 then {} else if b in cls then {b} + From(cls, b + 1) else From(cls, b + 1)
  {
  }

  lemma {:induction false} NextIsNotDash(cls: ByteSet, b: nat, rest: Bytes)
    requires b <= 256
    ensures !At(Items(cls, b) + [ByteOf(']')] + rest, '-')
    decreases 256 - b
  {
    if b < 256 && b !in cls {
      NextIsNotDash(cls, b + 1, rest);
    }
  }

  lemma ReadLeaf(n: Node, depth: nat, rest: Bytes)
    requires Leaf(n)
    ensures Atom(ShowLeaf(n) + rest, depth) == Ok((n, rest))
  {
    match n
    case Lit(b) => ReadLit(b, depth, rest);
    case Class(cls) =>
      if cls == {} {
        ReadEmptyClass(depth, rest);
      } else {
        ReadFullClass(cls, depth, rest);
      }
    case Assertion(k) => ReadAssertion(k, depth, rest);
  }

  lemma ReadLit(b: Byte, depth: nat, rest: Bytes)
    ensures Atom(ShowLeaf(Lit(b)) + rest, depth) == Ok((Lit(b), rest))
  {
    hide CharClass, Group;
    var s := ShowLeaf(Lit(b)) + rest;
    if Special(b) {
      ReadHex(b, rest);
      var t := s[1..];
      assert t[1..] == [HexChar(b / 16), HexChar(b % 16)] + rest;
      assert SimpleEscape(t) == Some((b, rest));
    } else {
      assert s[1..] == rest;
    }
  }

  lemma ReadAssertion(k: AssertKind, depth: nat, rest: Bytes)
    ensures Atom(ShowLeaf(Assertion(k)) + rest, depth) == Ok((Assertion(k), rest))
  {
    var s := ShowLeaf(Assertion(k)) + rest;
    if k == InputStart || k == InputEnd {
      assert s[1..] == rest;
    } else {
      assert s[1..][1..] == rest;
    }
  }

  lemma ReadFullClass(cls: ByteSet, depth: nat, rest: Bytes)
    requires cls != {}
    ensures Atom([ByteOf('[')] + Items(cls, 0) + [ByteOf(']')] + rest, depth) == Ok((Class(cls), rest))
  {
    hide *;
    var items := Items(cls, 0) + [ByteOf(']')] + rest;
    assert From(cls, 0) == cls && {} + cls == cls by {
      FromAll(cls);
    }
    ReadItems(cls, 0, rest, true, {}, cls);
    NextIsNotCaret(cls, 0, rest);
    PlainClass(items, cls, rest);
    AtomClass(items, depth);
    assert [ByteOf('[')] + Items(cls, 0) + [ByteOf(']')] + rest == [ByteOf('[')] + items;
  }

  lemma FromAll(cls: ByteSet)
    ensures From(cls, 0) == cls
  {
  }

  lemma AtomClass(items: Bytes, depth: nat)
    ensures Atom([ByteOf('[')] + items, depth) == CharClass(items)
  {
    hide CharClass;
    assert ([ByteOf('[')] + items)[1..] == items;
  }

  lemma PlainClass(items: Bytes, cls: ByteSet, rest: Bytes)
    requires !At(items, '^') && Members(items, true, {}) == Ok((cls, rest))
    ensures CharClass(items) == Ok((Class(cls), rest))
  {
    hide Members;
  }

  lemma {:induction false} NextIsNotCaret(cls: ByteSet, b: nat, rest: Bytes)
    requires b <= 256
    ensures !At(Items(cls, b) + [ByteOf(']')] + rest, '^')
    decreases 256 - b
  {
    if b < 256 && b !in cls {
      NextIsNotCaret(cls, b + 1, rest);
    }
  }

  lemma ReadEmptyClass(depth: nat, rest: Bytes)
    ensures Atom([ByteOf('['), ByteOf('^')] + HexEscape(0) + [ByteOf('-')] + HexEscape(255) + [ByteOf(']')] + rest, depth) ==
            Ok((Class({}), rest))
  {
    var close := [ByteOf(']')] + rest;
    var hi := HexEscape(255) + close;
    var dash := [ByteOf('-')] + hi;
    var lo := HexEscape(0) + dash;
    var s := [ByteOf('['), ByteOf('^')] + HexEscape(0) + [ByteOf('-')] + HexEscape(255) + [ByteOf(']')] + rest;
    assert s[1..][1..] == lo;
    ReadMember(0, dash);
    assert dash[1..] == hi;
    ReadMember(255, close);
    assert MemberOrRange(lo) == Ok((Full(), close));
    assert close[1..] == rest;
    assert {} + Full() == Full() && Full() - Full() == {};
    assert Members(lo, true, {}) == Members(close, false, {} + Full());
  }

  lemma {:induction false} ReadDecimal(n: nat, rest: Bytes)
    requires n <= MAX_REPEAT
    ensures Digits(Decimal(n) + rest, 0) == Digits(rest, n)
    ensures Number(Decimal(n) + rest) == Digits(rest, n)
    decreases n
  {
    var s := Decimal(n) + rest;
    if n < 10 {
      assert s[1..] == rest;
    } else {
      var rest2 := [48 + n % 10] + rest;
      assert s == Decimal(n / 10) + rest2;
      ReadDecimal(n / 10, rest2);
      assert rest2[1..] == rest;
    }
    assert IsDigit(Decimal(n)[0]);
  }

  lemma ReadBounds(min: nat, max: int, rest: Bytes)
    requires min <= MAX_REPEAT && (max < 0 || min <= max <= MAX_REPEAT)
    ensures Quantifier(ShowBounds(min, max) + rest) == Some((min, if max < 0 then -1 else max, rest))
  {
    var s := ShowBounds(min, max) + rest;
    var close := [ByteOf('}')] + rest;
    var upper := (if max < 0 then [] else Decimal(max)) + close;
    var comma := [ByteOf(',')] + upper;
    assert s[1..] == Decimal(min) + comma;
    ReadDecimal(min, comma);
    assert Digits(comma, min) == Some((min, comma));
    assert comma[1..] == upper && close[1..] == rest;
    if max < 0 {
      assert upper == close && comma[2..] == rest;
    } else {
      assert IsDigit(Decimal(max)[0]);
      ReadDecimal(max, close);
      assert Digits(close, max) == Some((max, close));
    }
  }

  /** How an atom or a piece begins: not like anything that could end or extend what comes before it. */
  lemma AtomStart(n: Node, rest: Bytes)
    ensures ShowAtom(n) != [] && !EndsSequence(ShowAtom(n) + rest) && NoQuantifier(ShowAtom(n) + rest)
    ensures !At(ShowAtom(n) + rest, '?')
  {
  }

  lemma PieceStart(n: Node, rest: Bytes)
    ensures ShowPiece(n) != [] && !EndsSequence(ShowPiece(n) + rest) && NoQuantifier(ShowPiece(n) + rest)
    ensures !At(ShowPiece(n) + rest, '?')
  {
    match n
    case Repeat(b, min, max) =>
      AtomStart(b, ShowBounds(min, max) + rest);
      assert ShowPiece(n) + rest == ShowAtom(b) + (ShowBounds(min, max) + rest);
    case _ => AtomStart(n, rest);
  }

  /** A tree in the parser's own form: an unbounded repeat has maximum -1. */
  predicate Canonical(n: Node) {
    WellFormed(n) &&
    match n
    case Alt(c) => forall k | 0 <= k < |c| :: Canonical(c[k])
    case Concat(c) => forall k | 0 <= k < |c| :: Canonical(c[k])
    case Repeat(b, _, max) => Canonical(b) && max >= -1
    case _ => true
  }

  lemma {:induction false} ReadAtom(n: Node, depth: nat, rest: Bytes)
    requires Canonical(n)
    ensures Atom(ShowAtom(n) + rest, depth) == Expected(FitsAtom(n, depth), n, rest)
    decreases n, 4
  {
    hide Atom, Group, Alternation, ShowLeaf, Show;
    if Leaf(n) {
      ReadLeaf(n, depth, rest);
    } else {
      var close := [ByteOf(')')] + rest;
      var s := [ByteOf('(')] + (Show(n) + close);
      assert s == ShowAtom(n) + rest;
      AtomGroup(Show(n) + close, depth);
      if depth < MAX_GROUP_DEPTH {
        ShowStart(n, close);
        ReadAlternation(n, depth + 1, close);
      }
      GroupOf(Show(n) + close, depth, n, rest);
    }
  }

  lemma AtomGroup(s: Bytes, depth: nat)
    ensures Atom([ByteOf('(')] + s, depth) == Group(s, depth)
  {
    hide Group;
    assert ([ByteOf('(')] + s)[1..] == s;
  }

  lemma GroupOf(s: Bytes, depth: nat, n: Node, rest: Bytes)
    requires depth < MAX_GROUP_DEPTH ==>
               !At(s, '?') && Alternation(s, depth + 1) == Expected(Fits(n, depth + 1), n, [ByteOf(')')] + rest)
    ensures Group(s, depth) == Expected(depth < MAX_GROUP_DEPTH && Fits(n, depth + 1), n, rest)
  {
    hide Alternation, Fits;
    assert ([ByteOf(')')] + rest)[1..] == rest;
  }

  lemma ShowStart(n: Node, rest: Bytes)
    requires !At(rest, '?')
    ensures !At(Show(n) + rest, '?')
    decreases n, 0
  {
    hide ShowAtom, ShowLeaf, ShowBounds;
    match n
    case Empty => assert Show(n) + rest == rest;
    case Alt(c) =>
      if c == [] {
        assert Show(n) + rest == rest;
      } else {
        var after := if |c| == 1 then rest else [ByteOf('|')] + ShowArms(c[1..]) + rest;
        assert Show(n) + rest == ShowArm(c[0]) + after;
        ArmStart(c[0], after);
      }
    case Concat(c) =>
      if c == [] {
        assert Show(n) + rest == rest;
      } else {
        PieceStart(c[0], ShowPieces(c[1..]) + rest);
        assert Show(n) + rest == ShowPiece(c[0]) + (ShowPieces(c[1..]) + rest);
      }
    case Repeat(_, _, _) => PieceStart(n, rest);
    case _ => LeafStart(n, rest);
  }

  lemma ArmStart(n: Node, rest: Bytes)
    requires !At(rest, '?')
    ensures !At(ShowArm(n) + rest, '?')
    decreases n, 1
  {
    if n.Alt? {
      AtomStart(n, rest);
    } else {
      ShowStart(n, rest);
    }
  }

  lemma LeafStart(n: Node, rest: Bytes)
    requires Leaf(n)
    ensures Show(n) == ShowLeaf(n) && !At(Show(n) + rest, '?')
  {
    AtomStart(n, rest);
  }

  /** A piece is an atom, and a quantifier if one follows. */
  lemma PieceOf(s: Bytes, depth: nat, fits: bool, atom: Node, rest: Bytes)
    requires s != [] && WellFormed(atom) && Atom(s, depth) == Expected(fits, atom, rest)
    ensures !fits ==> Piece(s, depth) == Fail(TOO_DEEP)
    ensures fits && Quantifier(rest).None? ==> Piece(s, depth) == Ok((atom, rest))
    ensures fits && Quantifier(rest).Some? ==>
              var (min, max, after) := Quantifier(rest).value; Piece(s, depth) == Quantified(atom, min, max, after)
  {
    hide Atom, Quantifier, Quantified;
  }

  lemma NothingFollows(rest: Bytes)
    requires NoQuantifier(rest)
    ensures Quantifier(rest) == None && !At(rest, '?') && !At(rest, '*') && !At(rest, '+')
  {
  }

  lemma PieceShape(n: Node, depth: nat, rest: Bytes)
    ensures !n.Repeat? ==> ShowPiece(n) == ShowAtom(n) && FitsPiece(n, depth) == FitsAtom(n, depth)
    ensures n.Repeat? ==>
              ShowPiece(n) + rest == ShowAtom(n.body) + (ShowBounds(n.min, n.max) + rest) &&
              FitsPiece(n, depth) == FitsAtom(n.body, depth)
  {
    hide ShowAtom, FitsAtom, ShowBounds;
    assert n.Repeat? ==> ShowAtom(n.body) + ShowBounds(n.min, n.max) + rest == ShowAtom(n.body) + (ShowBounds(n.min, n.max) + rest);
  }

  lemma {:induction false} ReadPiece(n: Node, depth: nat, rest: Bytes)
    requires Canonical(n) && NoQuantifier(rest)
    ensures Piece(ShowPiece(n) + rest, depth) == Expected(FitsPiece(n, depth), n, rest)
    decreases n, 5
  {
    hide Atom, Quantifier, Piece, Show, ShowPiece, ShowAtom, ShowBounds, FitsPiece, FitsAtom, NoQuantifier;
    PieceShape(n, depth, rest);
    NothingFollows(rest);
    match n
    case Repeat(b, min, max) =>
      var bounds := ShowBounds(min, max) + rest;
      ReadAtom(b, depth, bounds);
      ReadBounds(min, max, rest);
      PieceOf(ShowPiece(n) + rest, depth, FitsAtom(b, depth), b, bounds);
    case _ =>
      ReadAtom(n, depth, rest);
      PieceOf(ShowPiece(n) + rest, depth, FitsAtom(n, depth), n, rest);
  }

  lemma {:induction false} ReadPieces(c: seq<Node>, k: nat, depth: nat, rest: Bytes)
    requires k <= |c| && |c| >= 1 && (forall q | 0 <= q < |c| :: Canonical(c[q])) && EndsSequence(rest)
    requires forall q | 0 <= q < k :: FitsPiece(c[q], depth)
    ensures forall q | 0 <= q < k :: WellFormed(c[..k][q])
    ensures Sequence(ShowPieces(c[k..]) + rest, depth, c[..k]) ==
            Expected(forall q | 0 <= q < |c| :: FitsPiece(c[q], depth), if |c| == 1 then c[0] else Concat(c), rest)
    decreases c, 7, |c| - k
  {
    hide Sequence, ShowPiece, Piece;
    if k == |c| {
      assert ShowPieces(c[k..]) + rest == rest && c[..k] == c;
      hide ShowPieces;
      SequenceEnd(rest, depth, c);
    } else {
      PiecesShape(c, k, rest);
      hide ShowPieces;
      SequenceStep(c[k], depth, ShowPieces(c[k + 1..]) + rest, c[..k]);
      if FitsPiece(c[k], depth) {
        ReadPieces(c, k + 1, depth, rest);
      }
    }
  }

  lemma PiecesShape(c: seq<Node>, k: nat, rest: Bytes)
    requires k < |c| && EndsSequence(rest)
    ensures ShowPieces(c[k..]) + rest == ShowPiece(c[k]) + (ShowPieces(c[k + 1..]) + rest)
    ensures NoQuantifier(ShowPieces(c[k + 1..]) + rest)
    ensures c[..k] + [c[k]] == c[..k + 1]
  {
    hide ShowPiece;
    assert c[k..][1..] == c[k + 1..];
    if k + 1 < |c| {
      var after2 := ShowPieces(c[k + 1..][1..]) + rest;
      assert ShowPieces(c[k + 1..]) + rest == ShowPiece(c[k + 1]) + after2;
      PieceStart(c[k + 1], after2);
    } else {
      assert ShowPieces(c[k + 1..]) + rest == rest;
    }
  }

  lemma SequenceEnd(rest: Bytes, depth: nat, c: seq<Node>)
    requires EndsSequence(rest) && |c| > 0 && forall q | 0 <= q < |c| :: WellFormed(c[q])
    ensures Sequence(rest, depth, c) == Ok((if |c| == 1 then c[0] else Concat(c), rest))
  {
  }

  /** A sequence reads one piece and carries on. */
  lemma {:induction false} SequenceStep(n: Node, depth: nat, rest: Bytes, done: seq<Node>)
    requires Canonical(n) && NoQuantifier(rest) && forall q | 0 <= q < |done| :: WellFormed(done[q])
    ensures Sequence(ShowPiece(n) + rest, depth, done) ==
            if FitsPiece(n, depth) then Sequence(rest, depth, done + [n]) else Fail(TOO_DEEP)
    decreases n, 6
  {
    hide Piece, ShowPiece;
    PieceStart(n, rest);
    ReadPiece(n, depth, rest);
  }

  /** One piece standing alone in a sequence. */
  lemma {:induction false} ReadSingle(n: Node, depth: nat, rest: Bytes)
    requires Canonical(n) && EndsSequence(rest)
    ensures Sequence(ShowPiece(n) + rest, depth, []) == Expected(FitsPiece(n, depth), n, rest)
    decreases n, 7
  {
    hide Piece, ShowPiece;
    assert [] + [n] == [n];
    SequenceStep(n, depth, rest, []);
  }

  lemma {:induction false} ReadArm(n: Node, depth: nat, rest: Bytes)
    requires Canonical(n) && EndsSequence(rest)
    ensures Sequence(ShowArm(n) + rest, depth, []) == Expected(FitsArm(n, depth), n, rest)
    decreases n, 8
  {
    hide Piece;
    match n
    case Empty => assert ShowArm(n) + rest == rest;
    case Concat(c) =>
      assert c[0..] == c && c[..0] == [];
      ReadPieces(c, 0, depth, rest);
    case Alt(_) => ReadSingle(n, depth, rest);
    case Repeat(_, _, _) => ReadSingle(n, depth, rest);
    case _ => ReadSingle(n, depth, rest);
  }

  lemma {:induction false} ReadArms(c: seq<Node>, k: nat, depth: nat, rest: Bytes)
    requires 0 < k <= |c| && (k > 1 || k < |c|) && (forall q | 0 <= q < |c| :: Canonical(c[q]))
    requires rest == [] || At(rest, ')')
    requires forall q | 0 <= q < k :: FitsArm(c[q], depth)
    ensures forall q | 0 <= q < k :: WellFormed(c[..k][q])
    ensures var s := if k == |c| then rest else [ByteOf('|')] + ShowArms(c[k..]) + rest;
            Branches(s, depth, c[..k]) == Expected(forall q | 0 <= q < |c| :: FitsArm(c[q], depth), Alt(c), rest)
    decreases c, 9, |c| - k
  {
    hide Sequence, Branches, ShowArm, FitsArm;
    if k == |c| {
      assert c[..k] == c;
      BranchesEnd(rest, depth, c);
    } else {
      var s := [ByteOf('|')] + ShowArms(c[k..]) + rest;
      var after := if k + 1 == |c| then rest else [ByteOf('|')] + ShowArms(c[k + 1..]) + rest;
      ArmsShape(c, k, rest);
      hide ShowArms;
      ReadArm(c[k], depth, after);
      NextBranch(s, depth, c[..k], FitsArm(c[k], depth), c[k], after);
      if FitsArm(c[k], depth) {
        ReadArms(c, k + 1, depth, rest);
      }
    }
  }

  lemma ArmsShape(c: seq<Node>, k: nat, rest: Bytes)
    requires k < |c|
    ensures ([ByteOf('|')] + ShowArms(c[k..]) + rest)[1..] ==
            ShowArm(c[k]) + if k + 1 == |c| then rest else [ByteOf('|')] + ShowArms(c[k + 1..]) + rest
    ensures c[..k] + [c[k]] == c[..k + 1]
  {
    hide ShowArm;
    assert c[k..][1..] == c[k + 1..];
  }

  lemma BranchesEnd(rest: Bytes, depth: nat, done: seq<Node>)
    requires !At(rest, '|') && |done| > 1 && forall q | 0 <= q < |done| :: WellFormed(done[q])
    ensures Branches(rest, depth, done) == Ok((Alt(done), rest))
  {
  }

  lemma NextBranch(s: Bytes, depth: nat, done: seq<Node>, fits: bool, n: Node, rest: Bytes)
    requires At(s, '|') && |done| > 0 && WellFormed(n) && forall q | 0 <= q < |done| :: WellFormed(done[q])
    requires Sequence(s[1..], depth, []) == Expected(fits, n, rest)
    ensures Branches(s, depth, done) == if fits then Branches(rest, depth, done + [n]) else Fail(TOO_DEEP)
  {
    hide Sequence;
  }

  /** Reading back what was written gives the tree again, unless it nests groups too deeply. */
  lemma {:induction false} ReadAlternation(n: Node, depth: nat, rest: Bytes)
    requires Canonical(n) && (rest == [] || At(rest, ')'))
    ensures Alternation(Show(n) + rest, depth) == Expected(Fits(n, depth), n, rest)
    decreases n, 3
  {
    hide Piece;
    match n
    case Alt(c) =>
      var after := [ByteOf('|')] + ShowArms(c[1..]) + rest;
      assert Show(n) + rest == ShowArm(c[0]) + after;
      ReadArm(c[0], depth, after);
      if FitsArm(c[0], depth) {
        assert c[..1] == [c[0]];
        ReadArms(c, 1, depth, rest);
      }
    case Concat(c) =>
      assert c[0..] == c && c[..0] == [];
      ReadPieces(c, 0, depth, rest);
    case Empty => assert Show(n) + rest == rest;
    case Repeat(_, _, _) => ReadRepeatAlone(n, depth, rest);
    case _ => ReadLeafAlone(n, depth, rest);
  }

  lemma {:induction false} ReadRepeatAlone(n: Node, depth: nat, rest: Bytes)
    requires Canonical(n) && n.Repeat? && EndsSequence(rest)
    ensures Sequence(Show(n) + rest, depth, []) == Expected(Fits(n, depth), n, rest)
    decreases n, 2
  {
    hide Atom, Quantifier, Piece;
    var bounds := ShowBounds(n.min, n.max) + rest;
    assert Show(n) + rest == ShowAtom(n.body) + bounds;
    PieceStart(n, rest);
    ReadAtom(n.body, depth, bounds);
    ReadBounds(n.min, n.max, rest);
    PieceOf(Show(n) + rest, depth, FitsAtom(n.body, depth), n.body, bounds);
    assert Piece(Show(n) + rest, depth) == Expected(Fits(n, depth), n, rest);
    assert [] + [n] == [n];
    assert Fits(n, depth) ==> Sequence(Show(n) + rest, depth, []) == Sequence(rest, depth, [n]);
  }

  lemma ReadLeafAlone(n: Node, depth: nat, rest: Bytes)
    requires Leaf(n) && EndsSequence(rest)
    ensures Sequence(Show(n) + rest, depth, []) == Ok((n, rest))
  {
    AtomStart(n, rest);
    ReadLeaf(n, depth, rest);
    assert [] + [n] == [n];
    assert Piece(Show(n) + rest, depth) == Ok((n, rest));
    assert Sequence(Show(n) + rest, depth, []) == Sequence(rest, depth, [n]);
  }

  /** The parser accepts a written tree exactly when it nests at most 128 groups, and then returns it. */
  lemma {:induction false} RoundTrip(n: Node)
    requires Canonical(n)
    ensures Pattern(Show(n)) == if Fits(n, 0) then Ok(n) else Fail(TOO_DEEP)
  {
    assert Show(n) + [] == Show(n);
    ReadAlternation(n, 0, []);
  }
}

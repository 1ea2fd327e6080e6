/** Parse trees of the regex engine and what they mean. */
module RegexSyntax {
  import opened Common

  type ByteSet = set<Byte>

  datatype AssertKind = InputStart | InputEnd | WordBoundary | NotWordBoundary

  /** `max < 0` on a Repeat means unbounded, as in the C++ tree. */
  datatype Node =
    | Empty
    | Lit(b: Byte)
    | Class(cls: ByteSet)
    | Concat(children: seq<Node>)
    | Alt(children: seq<Node>)
    | Repeat(body: Node, min: nat, max: int)
    | Assertion(kind: AssertKind)

  const MAX_REPEAT: nat := 1024

  /** What the parser guarantees of every tree it returns. */
  predicate WellFormed(n: Node) {
    match n
    case Concat(c) => |c| >= 2 && forall k | 0 <= k < |c| :: WellFormed(c[k])
    case Alt(c) => |c| >= 2 && forall k | 0 <= k < |c| :: WellFormed(c[k])
    case Repeat(b, min, max) =>
      WellFormed(b) && !b.Assertion? && min <= MAX_REPEAT && (max < 0 || min <= max <= MAX_REPEAT)
    case _ => true
  }

  predicate IsWordByte(c: Byte) {
    97 <= c <= 122 || 65 <= c <= 90 || 48 <= c <= 57 || c == 95
  }

  /** Does the zero-width assertion hold between t[pos-1] and t[pos]? */
  predicate Holds(k: AssertKind, t: Bytes, pos: nat)
    requires pos <= |t|
  {
    var before := pos > 0 && IsWordByte(t[pos - 1]);
    var after := pos < |t| && IsWordByte(t[pos]);
    match k
    case InputStart => pos == 0
    case InputEnd => pos == |t|
    case WordBoundary => before != after
    case NotWordBoundary => before == after
  }

  /** The declarative meaning of a tree: t[i..j] is a match of n, seen in the context of t. */
  ghost predicate Matches(n: Node, t: Bytes, i: nat, j: nat)
    requires i <= |t|
    decreases n, 0
  {
    match n
    case Empty => i == j
    case Lit(b) => i < |t| && t[i] == b && j == i + 1
    case Class(s) => i < |t| && t[i] in s && j == i + 1
    case Assertion(k) => i == j && Holds(k, t, i)
    case Concat(c) => MatchesSeq(c, t, i, j)
    case Alt(c) => exists k | 0 <= k < |c| :: Matches(c[k], t, i, j)
    case Repeat(b, min, max) =>
      exists k: nat :: min <= k && (max < 0 || k <= max) && MatchesTimes(b, k, t, i, j)
  }

  /** t[i..j] is a match of the children one after the other. */
  ghost predicate MatchesSeq(c: seq<Node>, t: Bytes, i: nat, j: nat)
    requires i <= |t|
    decreases c, 0
  {
    if c == [] then i == j
    else exists m: nat | m <= |t| :: Matches(c[0], t, i, m) && MatchesSeq(c[1..], t, m, j)
  }

  /** t[i..j] is k consecutive matches of b. */
  ghost predicate MatchesTimes(b: Node, k: nat, t: Bytes, i: nat, j: nat)
    requires i <= |t|
    decreases b, k + 1
  {
    if k == 0 then i == j
    else exists m: nat | m <= |t| :: Matches(b, t, i, m) && MatchesTimes(b, k - 1, t, m, j)
  }

  /** Some substring of t matches: what `std::regex_search` means. */
  ghost predicate Found(n: Node, t: Bytes) {
    exists i: nat, j: nat | i <= |t| :: Matches(n, t, i, j)
  }

  lemma {:induction false} TimesJoin(b: Node, k: nat, l: nat, t: Bytes, i: nat, m: nat, j: nat)
    requires i <= |t| && m <= |t|
    requires MatchesTimes(b, k, t, i, m) && MatchesTimes(b, l, t, m, j)
    ensures MatchesTimes(b, k + l, t, i, j)
    decreases k
  {
    if k > 0 {
      var h: nat :| h <= |t| && Matches(b, t, i, h) && MatchesTimes(b, k - 1, t, h, m);
      TimesJoin(b, k - 1, l, t, h, m, j);
      assert k + l - 1 == (k - 1) + l;
    }
  }

  lemma {:induction false} TimesSplit(b: Node, k: nat, l: nat, t: Bytes, i: nat, j: nat)
      returns (m: nat)
    requires i <= |t| && MatchesTimes(b, k + l, t, i, j)
    ensures m <= |t| && MatchesTimes(b, k, t, i, m) && MatchesTimes(b, l, t, m, j)
    decreases k
  {
    if k == 0 {
      m := i;
    } else {
      var h: nat :| h <= |t| && Matches(b, t, i, h) && MatchesTimes(b, k + l - 1, t, h, j);
      assert k + l - 1 == (k - 1) + l;
      m := TimesSplit(b, k - 1, l, t, h, j);
    }
  }

  lemma RepeatCount(x: Node, t: Bytes, i: nat, j: nat) returns (k: nat)
    requires x.Repeat? && i <= |t| && Matches(x, t, i, j)
    ensures x.min <= k && (x.max < 0 || k <= x.max) && MatchesTimes(x.body, k, t, i, j)
  {
    k :| x.min <= k && (x.max < 0 || k <= x.max) && MatchesTimes(x.body, k, t, i, j);
  }

  lemma FirstOfTimes(b: Node, k: nat, t: Bytes, i: nat, j: nat) returns (m: nat)
    requires 0 < k && i <= |t| && MatchesTimes(b, k, t, i, j)
    ensures m <= |t| && Matches(b, t, i, m) && MatchesTimes(b, k - 1, t, m, j)
  {
    m :| m <= |t| && Matches(b, t, i, m) && MatchesTimes(b, k - 1, t, m, j);
  }

  /** Matches never run backwards or past the end of the text. */
  lemma {:induction false} MatchBounds(n: Node, t: Bytes, i: nat, j: nat)
    requires i <= |t| && Matches(n, t, i, j)
    ensures i <= j <= |t|
    decreases n, 0
  {
    match n
    case Concat(c) => MatchSeqBounds(c, t, i, j);
    case Alt(c) =>
      var k :| 0 <= k < |c| && Matches(c[k], t, i, j);
      MatchBounds(c[k], t, i, j);
    case Repeat(b, min, max) =>
      var k: nat :| min <= k && (max < 0 || k <= max) && MatchesTimes(b, k, t, i, j);
      MatchTimesBounds(b, k, t, i, j);
    case _ =>
  }

  lemma {:induction false} MatchSeqBounds(c: seq<Node>, t: Bytes, i: nat, j: nat)
    requires i <= |t| && MatchesSeq(c, t, i, j)
    ensures i <= j <= |t|
    decreases c, 0
  {
    if c != [] {
      var m: nat :| m <= |t| && Matches(c[0], t, i, m) && MatchesSeq(c[1..], t, m, j);
      MatchBounds(c[0], t, i, m);
      MatchSeqBounds(c[1..], t, m, j);
    }
  }

  lemma {:induction false} MatchTimesBounds(b: Node, k: nat, t: Bytes, i: nat, j: nat)
    requires i <= |t| && MatchesTimes(b, k, t, i, j)
    ensures i <= j <= |t|
    decreases b, k + 1
  {
    if k > 0 {
      var m: nat :| m <= |t| && Matches(b, t, i, m) && MatchesTimes(b, k - 1, t, m, j);
      MatchBounds(b, t, i, m);
      MatchTimesBounds(b, k - 1, t, m, j);
    }
  }
}

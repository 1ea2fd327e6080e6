/** The recursive-descent parser, one method per production, advancing through the pattern in place. */
module RegexParser {
  import opened Common
  import opened RegexSyntax
  import G = RegexGrammar

  class Parser {
    const pattern: Bytes
    var pos: nat

    ghost predicate Valid()
      reads this
    {
      pos <= |pattern|
    }

    /** What is still unread. */
    ghost function Rest(): Bytes
      reads this
      requires Valid()
    {
      pattern[pos..]
    }

    constructor (pattern: Bytes)
      ensures Valid() && this.pattern == pattern && Rest() == pattern
    {
      this.pattern := pattern;
      pos := 0;
    }

    /** r and the new position are what the grammar says of the old rest; after an error the position is free. */
    ghost predicate Did(r: Outcome<Node>, spec: G.Tree)
      reads this
    {
      Valid() &&
      match spec
      case Err(e) => r == Err(e)
      case Ok((n, rest)) => r == Ok(n) && Rest() == rest
    }

    method Parse() returns (r: Outcome<Node>)
      requires Valid()
      modifies this
      ensures r == G.Pattern(old(Rest()))
    {
      r := ParseAlternation(0);
      if r.Ok? && !AtEnd() {
        r := G.Fail("unbalanced ')'");
      }
    }

    predicate AtEnd()
      reads this
    {
      pos >= |pattern|
    }

    /** Is c the next byte? */
    predicate Sees(c: char)
      requires Valid() && c as int < 128
      reads this
      ensures Sees(c) == G.At(Rest(), c)
    {
      !AtEnd() && pattern[pos] == G.ByteOf(c)
    }

    method Take() returns (c: Byte)
      requires Valid() && !AtEnd()
      modifies this
      ensures Valid() && c == old(Rest())[0] && Rest() == old(Rest())[1..] && pos == old(pos) + 1
    {
      c := pattern[pos];
      pos := pos + 1;
    }

    method Eat(c: char) returns (ate: bool)
      requires Valid() && c as int < 128
      modifies this
      ensures Valid() && ate == G.At(old(Rest()), c)
      ensures Rest() == if ate then old(Rest())[1..] else old(Rest())
      ensures pos == if ate then old(pos) + 1 else old(pos)
    {
      ate := Sees(c);
      if ate {
        pos := pos + 1;
      }
    }

    method ParseAlternation(depth: nat) returns (r: Outcome<Node>)
      requires Valid()
      modifies this
      ensures Did(r, G.Alternation(old(Rest()), depth))
      ensures pos >= old(pos)
      decreases |pattern| - pos, 5
    {
      r := ParseConcat(depth);
      if r.Err? || !Sees('|') {
        return;
      }
      var r0 := r.value;
      var done := [r0];
      ghost var start := Rest();
      while Sees('|')
        invariant Valid() && pos >= old(pos) && |done| > 0 && (|done| > 1 || Sees('|'))
        invariant forall k | 0 <= k < |done| :: WellFormed(done[k])
        invariant G.Branches(Rest(), depth, done) == G.Branches(start, depth, [r0])
        decreases |pattern| - pos
      {
        pos := pos + 1;
        r := ParseConcat(depth);
        if r.Err? {
          return;
        }
        done := done + [r.value];
      }
      r := Ok(Alt(done));
    }

    method ParseConcat(depth: nat) returns (r: Outcome<Node>)
      requires Valid()
      modifies this
      ensures Did(r, G.Sequence(old(Rest()), depth, []))
      ensures pos >= old(pos)
      decreases |pattern| - pos, 3
    {
      var done: seq<Node> := [];
      while !AtEnd() && !Sees('|') && !Sees(')')
        invariant Valid() && pos >= old(pos) && forall k | 0 <= k < |done| :: WellFormed(done[k])
        invariant G.Sequence(Rest(), depth, done) == G.Sequence(old(Rest()), depth, [])
        decreases |pattern| - pos
      {
        r := ParseRepeat(depth);
        if r.Err? {
          return;
        }
        done := done + [r.value];
      }
      if done == [] {
        return Ok(Empty);
      }
      if |done| == 1 {
        return Ok(done[0]);
      }
      return Ok(Concat(done));
    }

    method ParseRepeat(depth: nat) returns (r: Outcome<Node>)
      requires Valid() && !AtEnd()
      modifies this
      ensures Did(r, G.Piece(old(Rest()), depth))
      ensures pos >= old(pos) && (r.Ok? ==> pos > old(pos))
      decreases |pattern| - pos, 2
    {
      r := ParseAtom(depth);
      if r.Err? {
        return;
      }
      ghost var atom, after := r.value, Rest();
      var min: nat, max := 0, -1;
      if Sees('*') {
        pos := pos + 1;
      } else if Sees('+') {
        pos := pos + 1;
        min := 1;
      } else if Sees('?') {
        pos := pos + 1;
        max := 1;
      } else if Sees('{') {
        var saved := pos;
        var bounded;
        bounded, min, max := ParseBoundedQuantifier();
        if !bounded {
          pos := saved;
          return;
        }
      } else {
        return;
      }
      assert G.Quantifier(after) == Some((min, max, Rest()));
      if r.value.Assertion? {
        return G.Fail("quantifier applied to an assertion");
      }
      var lazy := Eat('?');
      if Sees('*') || Sees('+') {
        return G.Fail("double quantifier");
      }
      return Ok(Repeat(r.value, min, max));
    }

    method ParseBoundedQuantifier() returns (bounded: bool, min: nat, max: int)
      requires Valid() && Sees('{')
      modifies this
      ensures Valid() && pos >= old(pos)
      ensures G.Bounded(old(Rest())[1..]) == if bounded then Some((min, max, Rest())) else None
    {
      pos := pos + 1;
      bounded, min, max := false, 0, -1;
      var n := ParseInt();
      if n.None? {
        return;
      }
      var close := Eat('}');
      if close {
        return true, n.value, n.value;
      }
      var comma := Eat(',');
      if !comma {
        return;
      }
      close := Eat('}');
      if close {
        return true, n.value, -1;
      }
      var m := ParseInt();
      if m.None? {
        return;
      }
      close := Eat('}');
      if !close || m.value < n.value {
        return;
      }
      return true, n.value, m.value;
    }

    method ParseInt() returns (r: Option<nat>)
      requires Valid()
      modifies this
      ensures Valid() && pos >= old(pos)
      ensures match G.Number(old(Rest()))
              case None => r == None
              case Some((n, rest)) => r == Some(n) && Rest() == rest
    {
      if AtEnd() || !G.IsDigit(pattern[pos]) {
        return None;
      }
      var value: nat := 0;
      while !AtEnd() && G.IsDigit(pattern[pos])
        invariant Valid() && pos >= old(pos) && value <= MAX_REPEAT
        invariant G.Digits(Rest(), value) == G.Number(old(Rest()))
        decreases |pattern| - pos
      {
        var c := Take();
        value := value * 10 + (c - 48);
        if value > MAX_REPEAT {
          return None;
        }
      }
      return Some(value);
    }

    method ParseAtom(depth: nat) returns (r: Outcome<Node>)
      requires Valid() && !AtEnd()
      modifies this
      ensures Did(r, G.Atom(old(Rest()), depth))
      ensures pos >= old(pos) && (r.Ok? ==> pos > old(pos))
      decreases |pattern| - pos, 1
    {
      var c := Take();
      if c == G.ByteOf('^') {
        r := Ok(Assertion(InputStart));
      } else if c == G.ByteOf('$') {
        r := Ok(Assertion(InputEnd));
      } else if c == G.ByteOf('.') {
        r := Ok(Class(G.DotClass()));
      } else if c == G.ByteOf('(') {
        r := ParseGroup(depth);
      } else if c == G.ByteOf('[') {
        r := ParseClass();
      } else if c == G.ByteOf('\\') {
        r := ParseEscape();
      } else if c == G.ByteOf('*') || c == G.ByteOf('+') || c == G.ByteOf('?') {
        r := G.Fail("quantifier with nothing to repeat");
      } else {
        r := Ok(Lit(c));
      }
    }

    method ParseGroup(depth: nat) returns (r: Outcome<Node>)
      requires Valid()
      modifies this
      ensures Did(r, G.Group(old(Rest()), depth))
      ensures pos >= old(pos)
      decreases |pattern| - pos, 6
    {
      if depth >= G.MAX_GROUP_DEPTH {
        return G.Fail("groups nested too deeply");
      }
      var question := Eat('?');
      if question {
        var error := ParseGroupPrefix();
        if error.Some? {
          return Err(error.value);
        }
      }
      assert G.GroupBody(old(Rest())) == Ok(Rest());
      r := ParseAlternation(depth + 1);
      if r.Ok? {
        var close := Eat(')');
        if !close {
          r := G.Fail("missing ')'");
        }
      }
    }

    /** After `(?`. */
    method ParseGroupPrefix() returns (error: Option<string>)
      requires Valid()
      modifies this
      ensures Valid() && pos >= old(pos)
      ensures G.GroupPrefix(old(Rest())) == if error.None? then Ok(Rest()) else Err(error.value)
    {
      var plain := Eat(':');
      if plain {
        return None;
      }
      if Sees('=') || Sees('!') {
        return Some(G.Why("lookahead is not supported by the linear-time engine"));
      }
      var named := Eat('<');
      if !named {
        return Some(G.Why("unsupported group syntax '(?'"));
      }
      if Sees('=') || Sees('!') {
        return Some(G.Why("lookbehind is not supported by the linear-time engine"));
      }
      ghost var name := Rest();
      while !AtEnd() && !Sees('>')
        invariant Valid() && pos >= old(pos) && G.SkipName(Rest()) == G.SkipName(name)
        decreases |pattern| - pos
      {
        pos := pos + 1;
      }
      var close := Eat('>');
      if !close {
        return Some(G.Why("unterminated group name"));
      }
      return None;
    }

    method ParseClass() returns (r: Outcome<Node>)
      requires Valid()
      modifies this
      ensures Did(r, G.CharClass(old(Rest())))
      ensures pos >= old(pos)
    {
      var cls: ByteSet := {};
      var negate := Eat('^');
      ghost var start := Rest();
      var first := true;
      while true
        invariant Valid() && pos >= old(pos)
        invariant G.Members(Rest(), first, cls) == G.Members(start, true, {})
        decreases |pattern| - pos
      {
        if AtEnd() {
          return G.Fail("unterminated character class");
        }
        if Sees(']') && !first {
          pos := pos + 1;
          break;
        }
        first := false;
        var more := ParseMemberOrRange();
        if more.Err? {
          return Err(more.error);
        }
        cls := cls + more.value;
      }
      return Ok(Class(if negate then G.Full() - cls else cls));
    }

    /** The bytes one member of the class adds: a class escape, a single byte, or a range. */
    method ParseMemberOrRange() returns (r: Outcome<ByteSet>)
      requires Valid() && !AtEnd()
      modifies this
      ensures Valid() && pos > old(pos)
      ensures match G.MemberOrRange(old(Rest()))
              case Err(e) => r == Err(e)
              case Ok((more, rest)) => r == Ok(more) && Rest() == rest
    {
      var item := ParseMember();
      if item.Err? {
        return Err(item.error);
      }
      if item.value.Many? {
        return Ok(item.value.cls);
      }
      var lo := item.value.b;
      if !(Sees('-') && pos + 1 < |pattern| && pattern[pos + 1] != G.ByteOf(']')) {
        return Ok({lo});
      }
      pos := pos + 1;
      item := ParseMember();
      if item.Err? {
        return Err(item.error);
      }
      if item.value.Many? {
        return G.Fail("class escape cannot end a range");
      }
      var hi := item.value.b;
      if hi < lo {
        return G.Fail("character range is out of order");
      }
      return Ok(G.Range(lo, hi));
    }

    ghost predicate DidMember(r: Outcome<G.ClassItem>, spec: Outcome<(G.ClassItem, Bytes)>)
      reads this
    {
      Valid() &&
      match spec
      case Err(e) => r == Err(e)
      case Ok((item, rest)) => r == Ok(item) && Rest() == rest
    }

    /** One class member: a literal byte or an escape. */
    method ParseMember() returns (r: Outcome<G.ClassItem>)
      requires Valid() && !AtEnd()
      modifies this
      ensures DidMember(r, G.Member(old(Rest()))) && pos > old(pos)
    {
      var c := Take();
      if c == G.ByteOf('\\') {
        r := ParseClassEscape();
      } else {
        r := Ok(G.One(c));
      }
    }

    method ParseClassEscape() returns (r: Outcome<G.ClassItem>)
      requires Valid()
      modifies this
      ensures DidMember(r, G.ClassEscape(old(Rest()))) && pos >= old(pos)
    {
      if AtEnd() {
        return G.Fail("dangling escape");
      }
      var c := pattern[pos];
      if G.ClassLetter(c).Some? {
        pos := pos + 1;
        return Ok(G.Many(G.ClassLetter(c).value));
      }
      if c == G.ByteOf('b') {
        pos := pos + 1;
        return Ok(G.One(8));
      }
      var b := SimpleEscapeByte();
      if b.None? {
        return G.Fail(G.UnsupportedEscape(c));
      }
      return Ok(G.One(b.value));
    }

    method ParseEscape() returns (r: Outcome<Node>)
      requires Valid()
      modifies this
      ensures Did(r, G.Escape(old(Rest()))) && pos >= old(pos)
    {
      if AtEnd() {
        return G.Fail("dangling escape");
      }
      var c := pattern[pos];
      if G.ClassLetter(c).Some? {
        pos := pos + 1;
        return Ok(Class(G.ClassLetter(c).value));
      }
      if c == G.ByteOf('b') {
        pos := pos + 1;
        return Ok(Assertion(WordBoundary));
      }
      if c == G.ByteOf('B') {
        pos := pos + 1;
        return Ok(Assertion(NotWordBoundary));
      }
      if 49 <= c <= 57 {
        return G.Fail("backreferences are not supported by the linear-time engine");
      }
      if c == G.ByteOf('u') {
        pos := pos + 1;
        var code := ParseHex(4);
        if code.None? {
          return G.Fail("malformed \\uHHHH escape");
        }
        return G.Utf8Literal(code.value);
      }
      var b := SimpleEscapeByte();
      if b.None? {
        return G.Fail(G.UnsupportedEscape(c));
      }
      return Ok(Lit(b.value));
    }

    method SimpleEscapeByte() returns (r: Option<Byte>)
      requires Valid() && !AtEnd()
      modifies this
      ensures Valid() && pos >= old(pos)
      ensures match G.SimpleEscape(old(Rest()))
              case None => r == None
              case Some((b, rest)) => r == Some(b) && Rest() == rest
    {
      var c := Take();
      if c == G.ByteOf('n') {
        r := Some(10);
      } else if c == G.ByteOf('r') {
        r := Some(13);
      } else if c == G.ByteOf('t') {
        r := Some(9);
      } else if c == G.ByteOf('f') {
        r := Some(12);
      } else if c == G.ByteOf('v') {
        r := Some(11);
      } else if c == G.ByteOf('0') {
        r := Some(0);
      } else if c == G.ByteOf('x') {
        var code := ParseHex(2);
        r := if code.None? then None else Some(code.value);
      } else if IsWordByte(c) {
        r := None;
      } else {
        r := Some(c);
      }
    }

    method ParseHex(digits: nat) returns (r: Option<nat>)
      requires Valid()
      modifies this
      ensures Valid() && pos >= old(pos)
      ensures match G.Hex(old(Rest()), digits, 0)
              case None => r == None
              case Some((code, rest)) => r == Some(code) && Rest() == rest
      ensures r.Some? ==> r.value < G.Pow16(digits)
    {
      var value: nat := 0;
      for i := 0 to digits
        invariant Valid() && pos >= old(pos)
        invariant G.Hex(Rest(), digits - i, value) == G.Hex(old(Rest()), digits, 0)
      {
        if AtEnd() {
          return None;
        }
        var c := Take();
        var d := G.HexDigit(c);
        if d.None? {
          return None;
        }
        value := value * 16 + d.value;
      }
      return Some(value);
    }
  }
}

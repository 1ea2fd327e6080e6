/** A request that was written is read back: exactly when, whatever the reads. */
module Http1RoundTrip {
  import opened Common
  import opened Http1Spec
  import opened Http1Slicing

  // ----- lines -----

  predicate Line(l: Bytes) {
    l != [] && forall i | 0 <= i < |l| :: l[i] != CR
  }

  predicate Lines(lines: seq<Bytes>) {
    forall k | 0 <= k < |lines| :: Line(lines[k])
  }

  function Join(lines: seq<Bytes>): Bytes {
    if lines == [] then [] else lines[0] + CRLF + Join(lines[1..])
  }

  /** Text that starts anywhere but with a carriage return. */
  predicate Plain(s: Bytes) { s != [] ==> s[0] != CR }

  lemma {:induction false} JoinPlain(lines: seq<Bytes>)
    requires Lines(lines)
    ensures Plain(Join(lines)) && (lines != [] ==> |Join(lines)| > 2 && Join(lines)[|Join(lines)| - 2..] == CRLF)
  {
    if lines != [] {
      JoinPlain(lines[1..]);
    }
  }

  /** There is no blank line before the end of the lines. */
  lemma {:induction false} NoBlankInside(lines: seq<Bytes>, after: Bytes, i: nat)
    requires Lines(lines) && i + 2 < |Join(lines)|
    ensures !Occurs(Join(lines) + after, BLANK, i)
    decreases |lines|
  {
    var l, rest := lines[0], Join(lines[1..]);
    var s := Join(lines) + after;
    JoinPlain(lines[1..]);
    if i >= |l| + 2 {
      NoBlankInside(lines[1..], after, i - |l| - 2);
      assert s[i..] == (rest + after)[i - |l| - 2..];
      Shifted(s, rest + after, BLANK, i, |l| + 2);
    } else if |l| > i {
      assert s[i] == l[i];
      StartsBlank(s, i);
    } else if i == |l| {
      assert rest != [] && s[i + 2] == rest[0];
      StartsBlank(s, i);
    } else {
      assert s[i] == LF;
      StartsBlank(s, i);
    }
  }

  lemma Shifted(s: Bytes, t: Bytes, p: Bytes, i: nat, skip: nat)
    requires skip <= i <= |s| && |s| == |t| + skip && s[i..] == t[i - skip..] && !Occurs(t, p, i - skip)
    ensures !Occurs(s, p, i)
  {
    if i + |p| <= |s| {
      assert s[i..i + |p|] == s[i..][..|p|] && t[i - skip..i - skip + |p|] == t[i - skip..][..|p|];
    }
  }

  lemma StartsBlank(s: Bytes, i: nat)
    ensures Occurs(s, BLANK, i) ==> s[i] == CR && s[i + 2] == CR
  {
    if Occurs(s, BLANK, i) {
      assert s[i] == s[i..i + 4][0] && s[i + 2] == s[i..i + 4][2];
    }
  }

  lemma {:induction false} BlankAtEnd(lines: seq<Bytes>, after: Bytes)
    requires Lines(lines) && lines != []
    ensures |Join(lines)| > 2 && Find(Join(lines) + CRLF + after, BLANK) == Some(|Join(lines)| - 2)
  {
    hide Find, Join;
    JoinPlain(lines);
    var j := Join(lines);
    var s := j + CRLF + after;
    assert s == j + (CRLF + after);
    forall i: nat | i < |j| - 2
      ensures !Occurs(s, BLANK, i)
    {
      NoBlankInside(lines, CRLF + after, i);
    }
    assert s[|j| - 2..|j| + 2] == j[|j| - 2..] + CRLF;
    FirstIs(s, BLANK, |j| - 2);
  }

  /** The line end that ends a line is the first one from its start. */
  lemma EndOfLine(l: Bytes, after: Bytes)
    requires Line(l)
    ensures Find(l + CRLF + after, CRLF) == Some(|l|) && Find(l, CRLF).None?
  {
    var s := l + CRLF + after;
    forall i: nat | i < |l|
      ensures !Occurs(s, CRLF, i) && !Occurs(l, CRLF, i)
    {
      assert s[i] == l[i];
      assert i + 2 <= |s| ==> s[i..i + 2][0] == s[i];
      assert i + 2 <= |l| ==> l[i..i + 2][0] == l[i];
    }
    assert s[|l|..|l| + 2] == CRLF;
    FirstIs(s, CRLF, |l|);
  }

  // ----- fields -----

  function Trimmed(fields: seq<Field>): seq<Field> {
    if fields == [] then [] else [Field(fields[0].name, Trim(fields[0].value))] + Trimmed(fields[1..])
  }

  predicate AllSafe(fields: seq<Field>) {
    forall k | 0 <= k < |fields| :: Safe(fields[k])
  }

  function LinesOf(fields: seq<Field>): seq<Bytes> {
    if fields == [] then [] else [FieldLine(fields[0])] + LinesOf(fields[1..])
  }

  lemma SafeLine(f: Field)
    requires Safe(f)
    ensures Line(FieldLine(f))
  {
    forall i | 0 <= i < |FieldLine(f)|
      ensures FieldLine(f)[i] != CR
    {
      assert if i < |f.name| then FieldLine(f)[i] in f.name
             else i < |f.name| + 2 || FieldLine(f)[i] in f.value;
    }
  }

  lemma {:induction false} FieldLinesJoin(fields: seq<Field>)
    requires AllSafe(fields)
    ensures Join(LinesOf(fields)) == FieldLines(fields) && Lines(LinesOf(fields)) && |LinesOf(fields)| == |fields|
  {
    if fields != [] {
      FieldLinesJoin(fields[1..]);
      SafeLine(fields[0]);
      assert LinesOf(fields)[1..] == LinesOf(fields[1..]);
    }
  }

  lemma TrimSpaceFirst(value: Bytes)
    ensures Trim([SPACE] + value) == Trim(value)
  {
    assert ([SPACE] + value)[1..] == value;
  }

  lemma {:induction false} FieldRead(f: Field)
    requires Safe(f)
    ensures ParseField(FieldLine(f)) == Ok(Field(f.name, Trim(f.value)))
  {
    var line := FieldLine(f);
    forall i: nat | i < |f.name|
      ensures !Occurs(line, [COLON], i)
    {
      assert line[i] == f.name[i] && f.name[i] in f.name;
      assert line[i..i + 1][0] == line[i];
    }
    assert line[|f.name|..|f.name| + 1] == [COLON];
    FirstIs(line, [COLON], |f.name|);
    assert line[..|f.name|] == f.name && line[|f.name| + 1..] == [SPACE] + f.value;
    TrimSpaceFirst(f.value);
  }

  /** The block without its last line end. */
  function Block(fields: seq<Field>): Bytes
    requires fields != []
  {
    if |fields| == 1 then FieldLine(fields[0]) else FieldLine(fields[0]) + CRLF + Block(fields[1..])
  }

  lemma {:induction false} BlockLines(fields: seq<Field>)
    requires fields != []
    ensures FieldLines(fields) == Block(fields) + CRLF
  {
    if |fields| > 1 {
      BlockLines(fields[1..]);
    } else {
      assert FieldLines(fields[1..]) == [];
    }
  }

  lemma {:induction false} BlockRead(fields: seq<Field>)
    requires fields != [] && AllSafe(fields)
    ensures ParseFields(Block(fields)) == Ok(Trimmed(fields))
    decreases |fields|
  {
    hide Find, ParseField, FieldLine;
    FieldRead(fields[0]);
    SafeLine(fields[0]);
    var l := FieldLine(fields[0]);
    if |fields| == 1 {
      EndOfLine(l, []);
      OneLine(l, fields);
    } else {
      BlockRead(fields[1..]);
      EndOfLine(l, Block(fields[1..]));
      var block := l + CRLF + Block(fields[1..]);
      assert block[..|l|] == l && block[|l| + 2..] == Block(fields[1..]);
    }
  }

  lemma OneLine(l: Bytes, fields: seq<Field>)
    requires |fields| == 1 && Line(l) && Find(l, CRLF).None? && ParseField(l) == Ok(Field(fields[0].name, Trim(fields[0].value)))
    ensures ParseFields(l) == Ok(Trimmed(fields))
  {
    hide Find, ParseField, Trim;
    var field := Field(fields[0].name, Trim(fields[0].value));
    assert ParseFields(l) == Ok([field]);
    assert fields[1..] == [] && [field] + [] == [field];
  }

  // ----- values -----

  lemma {:induction false} ValuesOfBoth(a: seq<Field>, b: seq<Field>, name: Bytes)
    ensures Values(a + b, name) == Values(a, name) + Values(b, name)
  {
    if a == [] {
      assert a + b == b;
    } else {
      assert (a + b)[1..] == a[1..] + b;
      ValuesOfBoth(a[1..], b, name);
    }
  }

  function Trims(values: seq<Bytes>): seq<Bytes> {
    if values == [] then [] else [Trim(values[0])] + Trims(values[1..])
  }

  lemma {:induction false} TrimmedValues(fields: seq<Field>, name: Bytes)
    ensures Values(Trimmed(fields), name) == Trims(Values(fields, name))
  {
    hide Trim, SameName;
    if fields != [] {
      TrimmedValues(fields[1..], name);
      var f, v, rest := Trimmed(fields)[0], fields[0].value, Values(fields[1..], name);
      assert Trimmed(fields)[1..] == Trimmed(fields[1..]);
      assert Values(Trimmed(fields), name) == (if SameName(f.name, name) then [f.value] else []) + Trims(rest);
      TrimsFirst(v, rest);
      NoneBefore(rest);
      NoneBefore(Trims(rest));
    }
  }

  lemma TrimsFirst(v: Bytes, rest: seq<Bytes>)
    ensures Trims([v] + rest) == [Trim(v)] + Trims(rest)
  {
    assert ([v] + rest)[1..] == rest;
  }

  lemma NoneBefore<T>(s: seq<T>)
    ensures [] + s == s
  {
  }

  lemma OneValue(f: Field, name: Bytes)
    ensures Values([f], name) == if SameName(f.name, name) then [f.value] else []
  {
    assert Values([f][1..], name) == [];
  }

  lemma NamesDiffer()
    ensures !SameName(Host(), ContentLength()) && !SameName(CloseField().name, ContentLength())
    ensures !SameName(Host(), TransferEncoding()) && !SameName(CloseField().name, TransferEncoding())
    ensures !SameName(ContentLength(), TransferEncoding()) && SameName(ContentLength(), ContentLength())
  {
  }

  function OwnLength(r: Request): seq<Field> {
    if Values(r.headers, ContentLength()) == [] then [Field(ContentLength(), Decimal(|r.body|))] else []
  }

  lemma {:induction false} SentValues(r: Request, host: Bytes)
    ensures Values(SentFields(r, host), TransferEncoding()) == Values(r.headers, TransferEncoding())
    ensures Values(SentFields(r, host), ContentLength()) ==
            if Values(r.headers, ContentLength()) == [] then [Decimal(|r.body|)] else Values(r.headers, ContentLength())
  {
    hide Values, SameName, ContentLength, TransferEncoding, CloseField, Host;
    NamesDiffer();
    var a, b, c := [Field(Host(), host)], OwnLength(r), [CloseField()];
    assert SentFields(r, host) == a + b + c + r.headers;
    SentValuesOf(a, b, c, r, TransferEncoding());
    SentValuesOf(a, b, c, r, ContentLength());
    OneValue(a[0], TransferEncoding());
    OneValue(a[0], ContentLength());
    OneValue(c[0], TransferEncoding());
    OneValue(c[0], ContentLength());
    OneValue(Field(ContentLength(), Decimal(|r.body|)), TransferEncoding());
    OneValue(Field(ContentLength(), Decimal(|r.body|)), ContentLength());
    NoValues(TransferEncoding());
    NoValues(ContentLength());
  }

  lemma NoValues(name: Bytes)
    ensures Values([], name) == []
  {
  }

  lemma SentValuesOf(a: seq<Field>, b: seq<Field>, c: seq<Field>, r: Request, name: Bytes)
    ensures Values(a + b + c + r.headers, name) == Values(a, name) + Values(b, name) + Values(c, name) + Values(r.headers, name)
  {
    hide Values;
    ValuesOfBoth(a + b + c, r.headers, name);
    ValuesOfBoth(a + b, c, name);
    ValuesOfBoth(a, b, name);
  }

  lemma {:induction false} DecimalRead(n: nat)
    ensures AllDigits(Decimal(n)) && NumberOf(Decimal(n)) == n
  {
    if n >= 10 {
      DecimalRead(n / 10);
      var s := Decimal(n);
      assert s[..|s| - 1] == Decimal(n / 10);
    } else {
      assert [48 + n][..0] == [];
    }
  }

  lemma DecimalTrim(n: nat)
    ensures Trim(Decimal(n)) == Decimal(n)
  {
  }

  // ----- the round trip -----

  /** The request's own headers leave the framing to the transport, or say what it would say. */
  predicate FramesItself(r: Request) {
    var lengths := Values(r.headers, ContentLength());
    Values(r.headers, TransferEncoding()) == [] &&
    (lengths == [] || (|lengths| == 1 && SaysLength(Trim(lengths[0]), |r.body|)))
  }

  predicate SaysLength(s: Bytes, n: nat) {
    s != [] && AllDigits(s) && Clamped(NumberOf(s)) == n
  }

  function HeadSize(r: Request, host: Bytes): nat {
    |StartLine(r)| + |FieldLines(SentFields(r, host))|
  }

  predicate Readable(r: Request, host: Bytes, cap: nat) {
    FramesItself(r) && |r.body| <= cap && HeadSize(r, host) + 3 <= MAX_HEADER
  }

  /** What the reader is to make of the request. */
  function Expected(r: Request, host: Bytes): Message {
    Message(StartLine(r), Trimmed(SentFields(r, host)), r.body)
  }

  lemma WordSafe(s: string)
    requires s != [] && forall i | 0 <= i < |s| :: 'a' <= s[i] <= 'z' || s[i] == '-'
    ensures ValidName(Ascii(s)) && ValidValue(Ascii(s))
  {
    forall c | c in Ascii(s)
      ensures 97 <= c <= 122 || c == 45
    {
      var i :| 0 <= i < |s| && Ascii(s)[i] == c;
    }
  }

  lemma SentSafe(r: Request, host: Bytes)
    requires Written(r, host).Ok? && ValidValue(host)
    ensures AllSafe(SentFields(r, host)) && SentFields(r, host) != [] && Line(StartLine(r))
  {
    WrittenChecks(r, host);
    OwnFieldsSafe(r, host);
    SentParts(r, host);
    hide AllSafe, SentFields, OwnLength, CloseField, Host, Line, StartLine, ValidLineField, Written;
    var a, b, c := [Field(Host(), host)], OwnLength(r), [CloseField()];
    SafeBoth(a, b);
    SafeBoth(a + b, c);
    SafeBoth(a + b + c, r.headers);
    StartSafe(r);
  }

  lemma OwnFieldsSafe(r: Request, host: Bytes)
    requires ValidValue(host)
    ensures AllSafe([Field(Host(), host)]) && AllSafe(OwnLength(r)) && AllSafe([CloseField()])
  {
    hide Host, ContentLength, CloseField, ValidName, ValidValue, Values, AllSafe, Decimal;
    OwnSafe(|r.body|);
    OneSafe(Field(Host(), host));
    OneSafe(Field(ContentLength(), Decimal(|r.body|)));
    OneSafe(CloseField());
    NoneSafe();
  }

  lemma OneSafe(f: Field)
    requires Safe(f)
    ensures AllSafe([f])
  {
  }

  lemma NoneSafe()
    ensures AllSafe([])
  {
  }

  lemma SentParts(r: Request, host: Bytes)
    ensures SentFields(r, host) == [Field(Host(), host)] + OwnLength(r) + [CloseField()] + r.headers
  {
  }

  lemma WrittenChecks(r: Request, host: Bytes)
    requires Written(r, host).Ok?
    ensures r.method_ != [] && ValidLineField(r.method_) && ValidLineField(r.target) && AllSafe(r.headers)
  {
    hide Wire, Text, Safe;
  }

  lemma SafeBoth(a: seq<Field>, b: seq<Field>)
    requires AllSafe(a) && AllSafe(b)
    ensures AllSafe(a + b)
  {
  }

  lemma OwnSafe(n: nat)
    ensures ValidName(Host()) && ValidName(ContentLength()) && Safe(CloseField()) && ValidValue(Decimal(n))
  {
    hide ValidName, ValidValue, Ascii, Decimal;
    WordSafe("host");
    WordSafe("content-length");
    WordSafe("connection");
    WordSafe("close");
    DecimalSafe(n);
  }

  lemma DecimalSafe(n: nat)
    ensures ValidValue(Decimal(n))
  {
  }

  lemma StartSafe(r: Request)
    requires r.method_ != [] && ValidLineField(r.method_) && ValidLineField(r.target)
    ensures Line(StartLine(r))
  {
    hide Version;
    var s := StartLine(r);
    forall i | 0 <= i < |s|
      ensures s[i] != CR
    {
      var m := |r.method_|;
      assert if i < m then s[i] in r.method_
             else if m < i < m + 1 + |r.target| then s[i] in r.target
             else true;
    }
  }

  lemma HeadOfWire(r: Request, host: Bytes)
    requires Written(r, host).Ok? && ValidValue(host)
    ensures var s, end := Wire(r, host), HeadSize(r, host);
            Find(s, BLANK) == Some(end) && s[end + 4..] == r.body &&
            ParseHead(s[..end]) == Ok((StartLine(r), Trimmed(SentFields(r, host))))
  {
    hide Find, StartLine, SentFields, ParseFields;
    SentSafe(r, host);
    var start, fields := StartLine(r), SentFields(r, host);
    FieldLinesJoin(fields);
    var lines := [start] + LinesOf(fields);
    assert lines[1..] == LinesOf(fields);
    assert Join(lines) == start + CRLF + FieldLines(fields);
    BlankAtEnd(lines, r.body);
    assert Join(lines) + CRLF + r.body == Wire(r, host);
    BlockLines(fields);
    BlockRead(fields);
    EndOfLine(start, Block(fields));
    var head := start + CRLF + Block(fields);
    assert Wire(r, host) == head + BLANK + r.body;
    assert Wire(r, host)[..|head|] == head;
    assert head[..|start|] == start && head[|start| + 2..] == Block(fields);
  }

  lemma {:induction false} FramingOfSent(r: Request, host: Bytes, mode: Mode)
    requires mode.hasBody && mode.cap <= MAX_U64
    ensures var framing := FramingOf(Trimmed(SentFields(r, host)), mode);
            (framing == Ok(Sized(|r.body|)) <==> FramesItself(r) && |r.body| <= mode.cap) &&
            (framing.Ok? ==> framing.value.Sized?)
  {
    hide Values, Trim, SentFields, Trimmed, ContentLength, TransferEncoding, BodyTooLarge, NumberOf;
    var fields := SentFields(r, host);
    SentValues(r, host);
    TrimmedValues(fields, ContentLength());
    TrimmedValues(fields, TransferEncoding());
    DecimalRead(|r.body|);
    DecimalTrim(|r.body|);
    TrimsSize(Values(fields, ContentLength()));
    TrimsSize(Values(fields, TransferEncoding()));
  }

  lemma {:induction false} TrimsSize(values: seq<Bytes>)
    ensures |Trims(values)| == |values| && (values != [] ==> Trims(values)[0] == Trim(values[0]))
  {
    if values != [] {
      TrimsSize(values[1..]);
    }
  }

  lemma WholeOfWire(r: Request, host: Bytes, ending: Ending, mode: Mode)
    requires Written(r, host).Ok? && ValidValue(host) && mode.hasBody && mode.cap <= MAX_U64
    ensures Whole(Wire(r, host), ending, mode) == Ok(Expected(r, host)) <==> Readable(r, host, mode.cap)
    ensures Readable(r, host, mode.cap) ==> Definite(Wire(r, host), mode)
  {
    HeadOfWire(r, host);
    FramingOfSent(r, host, mode);
    hide Find, ParseHead, FramingOf, FramesItself, Wire, StartLine, SentFields, Written, Trimmed, HeadSize, Whole, Definite;
    WholeSized(Wire(r, host), HeadSize(r, host), StartLine(r), Trimmed(SentFields(r, host)), r.body, ending, mode);
  }

  lemma WholeSized(s: Bytes, end: nat, line: Bytes, fields: seq<Field>, body: Bytes, ending: Ending, mode: Mode)
    requires Find(s, BLANK) == Some(end) && ParseHead(s[..end]) == Ok((line, fields)) && s[end + 4..] == body
    requires FramingOf(fields, mode).Ok? ==> FramingOf(fields, mode).value.Sized?
    ensures var fits := FramingOf(fields, mode) == Ok(Sized(|body|)) && end + 3 <= MAX_HEADER;
            (Whole(s, ending, mode) == Ok(Message(line, fields, body)) <==> fits) && (fits ==> Definite(s, mode))
  {
    hide Find, ParseHead, FramingOf;
    match FramingOf(fields, mode)
    case Err(_) =>
    case Ok(framing) =>
      assert HeadFraming(s[..end], mode) == Ok((line, fields, framing));
      SizedOfBody(body, framing.n);
  }

  lemma SizedOfBody(body: Bytes, n: nat)
    ensures n <= |body| && body[..n] == body <==> n == |body|
  {
    if n <= |body| {
      assert |body[..n]| == n;
    }
  }

  /** A request reads back under every way of delivering its bytes exactly when it is readable. */
  lemma {:induction false} ReadsBack(r: Request, host: Bytes, ending: Ending, mode: Mode)
    requires Written(r, host).Ok? && ValidValue(host) && mode.hasBody && mode.cap <= MAX_U64
    ensures (forall chunks | Slices(chunks, Written(r, host).value) :: ReadMessage(chunks, ending, mode) == Ok(Expected(r, host))) <==>
            Readable(r, host, mode.cap)
  {
    hide Slices, ReadMessage, Whole, Definite, Readable, Expected, Wire;
    var s := Wire(r, host);
    WholeOfWire(r, host, ending, mode);
    if Readable(r, host, mode.cap) {
      forall chunks | Slices(chunks, s)
        ensures ReadMessage(chunks, ending, mode) == Ok(Expected(r, host))
      {
        DefiniteReads(chunks, s, ending, mode);
      }
    } else {
      BytewiseSlices(s);
      BytewiseReads(s, ending, mode);
    }
  }

  /** With trimmed values the caller's headers come back as they were, after the transport's own. */
  lemma {:induction false} TrimmedStays(fields: seq<Field>)
    requires forall k | 0 <= k < |fields| :: Trim(fields[k].value) == fields[k].value
    ensures Trimmed(fields) == fields
  {
    if fields != [] {
      TrimmedStays(fields[1..]);
    }
  }

  /** Method and target come back from the request line. */
  lemma {:induction false} RequestLineReadsBack(r: Request)
    requires r.method_ != [] && ValidLineField(r.method_) && ValidLineField(r.target)
    ensures ParseRequestLine(StartLine(r)) == Some((r.method_, r.target))
  {
    var line, m, t := StartLine(r), |r.method_|, |r.target|;
    hide Version;
    SpacesOf(r.method_, r.target, Version());
    FirstIs(line, [SPACE], m);
    assert FindFrom(line, [SPACE], m + 1) == Some(m + 1 + t);
    assert line[..m] == r.method_ && line[m + 1..m + 1 + t] == r.target;
  }

  lemma SpacesOf(a: Bytes, b: Bytes, c: Bytes)
    requires ValidLineField(a) && ValidLineField(b) && c != [] && c[0] == SPACE
    ensures var s := a + [SPACE] + b + c;
            Occurs(s, [SPACE], |a|) && Occurs(s, [SPACE], |a| + 1 + |b|) &&
            forall i: nat | i < |a| + 1 + |b| && i != |a| :: !Occurs(s, [SPACE], i)
  {
    var s := a + [SPACE] + b + c;
    forall i: nat | i < |a| + 1 + |b| && i != |a|
      ensures !Occurs(s, [SPACE], i)
    {
      assert if i < |a| then s[i] in a else s[i] in b;
      assert s[i..i + 1][0] == s[i];
    }
    assert s[|a|..|a| + 1] == [SPACE] && s[|a| + 1 + |b|..|a| + 1 + |b| + 1] == [SPACE];
  }
}

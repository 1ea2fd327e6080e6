/** When the way a byte stream is cut into reads makes no difference to the message read from it. */
module Http1Slicing {
  import opened Common
  import opened Http1Spec

  // ----- searching in a growing buffer -----

  lemma OccursEarlier(s: Bytes, t: Bytes, p: Bytes, i: nat)
    requires i + |p| <= |s|
    ensures Occurs(s, p, i) <==> Occurs(s + t, p, i)
  {
    assert (s + t)[i..i + |p|] == s[i..i + |p|];
  }

  /** What is found in the beginning is what is found in the whole, and it is found as soon as it is all there. */
  lemma FindInBeginning(s: Bytes, t: Bytes, p: Bytes)
    ensures Find(s + t, p).None? ==> Find(s, p).None?
    ensures Find(s + t, p).Some? ==>
              Find(s, p) == if Find(s + t, p).value + |p| <= |s| then Find(s + t, p) else None
  {
    forall i: nat | i + |p| <= |s|
      ensures Occurs(s, p, i) <==> Occurs(s + t, p, i)
    {
      OccursEarlier(s, t, p, i);
    }
  }

  // ----- the stream taken as a whole -----

  function WholeBody(framing: Framing, s: Bytes, cap: nat, ending: Ending): Outcome<Bytes> {
    match framing
    case NoBody => Ok([])
    case Sized(n) => if |s| < n then Err(CLOSED_MID_BODY) else Ok(s[..n])
    case ToEnd => if |s| > cap then Err(BodyTooLarge(cap)) else if ending.Broken? then Err(READ_FAILED) else Ok(s)
    case Surplus => Ok([])
  }

  function HeadFraming(head: Bytes, mode: Mode): Outcome<(Bytes, seq<Field>, Framing)> {
    var (line, fields) :- ParseHead(head);
    var framing :- FramingOf(fields, mode);
    Ok((line, fields, framing))
  }

  /** The message that a stream of bytes holds, whatever reads deliver it. */
  function Whole(s: Bytes, ending: Ending, mode: Mode): Outcome<Message> {
    match Find(s, BLANK)
    case None =>
      Err(if |s| > MAX_HEADER then TOO_LARGE else if ending.Broken? then READ_FAILED else CLOSED_MID_HEADERS)
    case Some(end) =>
      if end + 3 > MAX_HEADER then Err(TOO_LARGE)
      else
        var (line, fields, framing) :- HeadFraming(s[..end], mode);
        var body :- WholeBody(framing, s[end + 4..], mode.cap, ending);
        Ok(Message(line, fields, body))
  }

  /** How many bytes after the head the reader waits for. */
  function Wanted(framing: Framing): Option<nat> {
    match framing
    case Sized(n) => Some(n)
    case Surplus => Some(0)
    case _ => None
  }

  /** No read can make a difference: the header section is within the limit or hopelessly beyond it, and nothing
      follows a message whose length is known. */
  predicate Definite(s: Bytes, mode: Mode) {
    match Find(s, BLANK)
    case None => true
    case Some(end) =>
      if end + 3 > MAX_HEADER then end + 4 > MAX_HEADER + READ_SIZE
      else
        match HeadFraming(s[..end], mode)
        case Err(_) => true
        case Ok((_, _, framing)) => Wanted(framing).Some? ==> |s| - (end + 4) <= Wanted(framing).value
  }

  // ----- every slicing of a definite stream -----

  predicate Reads(chunks: seq<Bytes>) {
    forall k | 0 <= k < |chunks| :: 0 < |chunks[k]| <= READ_SIZE
  }

  lemma NextRead(buffer: Bytes, chunks: seq<Bytes>)
    requires Reads(chunks) && chunks != []
    ensures Reads(chunks[1..]) && buffer + Concat(chunks) == (buffer + chunks[0]) + Concat(chunks[1..])
    ensures |buffer + chunks[0]| <= |buffer| + READ_SIZE
  {
    Regroup(buffer, chunks[0], Concat(chunks[1..]));
  }

  lemma {:induction false} HeadFound(buffer: Bytes, chunks: seq<Bytes>, ending: Ending, end: nat)
    requires Reads(chunks) && Find(buffer + Concat(chunks), BLANK) == Some(end) && end + 3 <= MAX_HEADER
    ensures var r := ReadHead(buffer, chunks, ending);
            r.Ok? && r.value.0 + Concat(r.value.1) == buffer + Concat(chunks) && Find(r.value.0, BLANK) == Some(end) &&
            Reads(r.value.1)
    decreases |chunks|
  {
    hide Find;
    FindInBeginning(buffer, Concat(chunks), BLANK);
    if Find(buffer, BLANK).None? {
      assert chunks == [] ==> buffer + Concat(chunks) == buffer;
      NextRead(buffer, chunks);
      HeadFound(buffer + chunks[0], chunks[1..], ending, end);
    }
  }

  lemma {:induction false} HeadMissing(buffer: Bytes, chunks: seq<Bytes>, ending: Ending)
    requires Reads(chunks) && Find(buffer + Concat(chunks), BLANK).None?
    ensures ReadHead(buffer, chunks, ending) ==
            Err(if |buffer + Concat(chunks)| > MAX_HEADER then TOO_LARGE
                else if ending.Broken? then READ_FAILED else CLOSED_MID_HEADERS)
    decreases |chunks|
  {
    hide Find;
    FindInBeginning(buffer, Concat(chunks), BLANK);
    if |buffer| <= MAX_HEADER && chunks != [] {
      NextRead(buffer, chunks);
      HeadMissing(buffer + chunks[0], chunks[1..], ending);
    }
  }

  lemma {:induction false} HeadHopeless(buffer: Bytes, chunks: seq<Bytes>, ending: Ending, end: nat)
    requires Reads(chunks) && Find(buffer + Concat(chunks), BLANK) == Some(end)
    requires |buffer| <= MAX_HEADER + READ_SIZE < end + 4
    ensures ReadHead(buffer, chunks, ending) == Err(TOO_LARGE)
    decreases |chunks|
  {
    hide Find;
    FindInBeginning(buffer, Concat(chunks), BLANK);
    if |buffer| <= MAX_HEADER {
      assert chunks == [] ==> buffer + Concat(chunks) == buffer;
      NextRead(buffer, chunks);
      HeadHopeless(buffer + chunks[0], chunks[1..], ending, end);
    }
  }

  lemma {:induction false} SizedBody(body: Bytes, n: nat, chunks: seq<Bytes>)
    requires Reads(chunks) && |body + Concat(chunks)| <= n
    ensures ReadSized(body, n, chunks) ==
            if |body + Concat(chunks)| < n then Err(CLOSED_MID_BODY) else Ok(body + Concat(chunks))
    decreases |chunks|
  {
    if chunks == [] {
      assert body + Concat(chunks) == body;
    } else {
      NextRead(body, chunks);
      SizedBody(body + chunks[0], n, chunks[1..]);
    }
  }

  lemma {:induction false} EndlessBody(body: Bytes, cap: nat, chunks: seq<Bytes>, ending: Ending)
    requires Reads(chunks)
    ensures ReadToEnd(body, cap, chunks, ending) == WholeBody(ToEnd, body + Concat(chunks), cap, ending)
    decreases |chunks|
  {
    if chunks == [] {
      assert body + Concat(chunks) == body;
    } else if |body| <= cap {
      NextRead(body, chunks);
      EndlessBody(body + chunks[0], cap, chunks[1..], ending);
    }
  }

  lemma BodyRead(framing: Framing, body: Bytes, cap: nat, chunks: seq<Bytes>, ending: Ending)
    requires Reads(chunks) && (Wanted(framing).Some? ==> |body + Concat(chunks)| <= Wanted(framing).value)
    ensures ReadBody(framing, body, cap, chunks, ending) == WholeBody(framing, body + Concat(chunks), cap, ending)
  {
    match framing
    case Sized(n) =>
      SizedBody(body, n, chunks);
      assert var s := body + Concat(chunks); |s| == n ==> s[..n] == s;
    case ToEnd => EndlessBody(body, cap, chunks, ending);
    case _ =>
  }

  lemma {:induction false} DefiniteReads(chunks: seq<Bytes>, s: Bytes, ending: Ending, mode: Mode)
    requires Slices(chunks, s) && Definite(s, mode)
    ensures ReadMessage(chunks, ending, mode) == Whole(s, ending, mode)
  {
    hide Find, ParseHead, FramingOf, ReadBody, WholeBody, ReadHead;
    assert [] + Concat(chunks) == s;
    match Find(s, BLANK)
    case None => HeadMissing([], chunks, ending);
    case Some(end) =>
      if end + 3 > MAX_HEADER {
        HeadHopeless([], chunks, ending, end);
      } else {
        HeadFound([], chunks, ending, end);
        var (buffer, rest) := ReadHead([], chunks, ending).value;
        BodyFollows(buffer, rest, s, end, ending, mode);
      }
  }

  lemma BodyFollows(buffer: Bytes, rest: seq<Bytes>, s: Bytes, end: nat, ending: Ending, mode: Mode)
    requires Find(buffer, BLANK) == Some(end) && buffer + Concat(rest) == s && Reads(rest)
    requires Find(s, BLANK) == Some(end) && end + 3 <= MAX_HEADER && Definite(s, mode)
    ensures ReadOn(buffer, rest, ending, mode) == Whole(s, ending, mode)
  {
    hide ParseHead, FramingOf, ReadBody, WholeBody;
    assert buffer[..end] == s[..end] && buffer[end + 4..] + Concat(rest) == s[end + 4..];
    match HeadFraming(s[..end], mode)
    case Err(_) =>
    case Ok((_, _, framing)) => BodyRead(framing, buffer[end + 4..], mode.cap, rest, ending);
  }

  // ----- reads of one byte -----

  function Bytewise(s: Bytes): seq<Bytes> {
    if s == [] then [] else [[s[0]]] + Bytewise(s[1..])
  }

  lemma {:induction false} BytewiseSlices(s: Bytes)
    ensures Slices(Bytewise(s), s)
  {
    if s != [] {
      BytewiseSlices(s[1..]);
    }
  }

  lemma {:induction false} BytewiseSplit(a: Bytes, b: Bytes)
    ensures Bytewise(a + b) == Bytewise(a) + Bytewise(b)
  {
    if a == [] {
      assert a + b == b;
    } else {
      assert (a + b)[1..] == a[1..] + b;
      BytewiseSplit(a[1..], b);
    }
  }

  lemma OneByte(buffer: Bytes, t: Bytes, more: seq<Bytes>)
    requires t != []
    ensures var chunks := Bytewise(t) + more;
            chunks != [] && chunks[0] == [t[0]] && chunks[1..] == Bytewise(t[1..]) + more && buffer + t == (buffer + [t[0]]) + t[1..]
  {
    hide Bytewise;
    BytewiseFirst(t);
    Regroup([[t[0]]], Bytewise(t[1..]), more);
    Regroup(buffer, [t[0]], t[1..]);
    assert t == [t[0]] + t[1..];
  }

  lemma BytewiseFirst(t: Bytes)
    requires t != []
    ensures Bytewise(t) == [[t[0]]] + Bytewise(t[1..])
  {
  }

  lemma Regroup<T>(a: seq<T>, b: seq<T>, c: seq<T>)
    ensures a + b + c == a + (b + c)
    ensures |a| == 1 ==> (a + b + c)[0] == a[0] && (a + b + c)[1..] == b + c
  {
  }

  /** Nothing happens before the last of t is read. */
  lemma {:induction false} FeedHead(buffer: Bytes, t: Bytes, more: seq<Bytes>, ending: Ending)
    requires t != [] ==> Find(buffer + t[..|t| - 1], BLANK).None? && |buffer| + |t| - 1 <= MAX_HEADER
    ensures ReadHead(buffer, Bytewise(t) + more, ending) == ReadHead(buffer + t, more, ending)
    decreases |t|
  {
    hide Find, Bytewise;
    if t == [] {
      NoBytes(buffer, t, more);
    } else {
      FindInBeginning(buffer, t[..|t| - 1], BLANK);
      OneByte(buffer, t, more);
      if |t| > 1 {
        assert buffer + t[..|t| - 1] == (buffer + [t[0]]) + t[1..][..|t| - 2];
      }
      FeedHead(buffer + [t[0]], t[1..], more, ending);
    }
  }

  lemma NoBytes(buffer: Bytes, t: Bytes, more: seq<Bytes>)
    requires t == []
    ensures Bytewise(t) + more == more && buffer + t == buffer
  {
    assert Bytewise(t) == [];
  }

  lemma {:induction false} FeedSized(body: Bytes, n: nat, t: Bytes, more: seq<Bytes>)
    requires t != [] ==> |body| + |t| <= n
    ensures ReadSized(body, n, Bytewise(t) + more) == ReadSized(body + t, n, more)
    decreases |t|
  {
    hide Bytewise;
    if t == [] {
      NoBytes(body, t, more);
    } else {
      OneByte(body, t, more);
      FeedSized(body + [t[0]], n, t[1..], more);
    }
  }

  lemma HeadNotYet(s: Bytes, k: nat)
    requires k <= |s| && (Find(s, BLANK).Some? ==> k < Find(s, BLANK).value + 4)
    ensures Find(s[..k], BLANK).None?
  {
    assert s[..k] + s[k..] == s;
    FindInBeginning(s[..k], s[k..], BLANK);
  }

  /** The first k bytes, read one by one, get into the buffer. */
  lemma FirstBytes(s: Bytes, k: nat, more: seq<Bytes>, ending: Ending)
    requires 0 < k <= |s| && k - 1 <= MAX_HEADER && (Find(s, BLANK).Some? ==> k <= Find(s, BLANK).value + 4)
    ensures ReadHead([], Bytewise(s[..k]) + more, ending) == ReadHead(s[..k], more, ending)
  {
    hide Find, ReadHead;
    HeadNotYet(s, k - 1);
    assert [] + s[..k][..k - 1] == s[..k - 1] && [] + s[..k] == s[..k];
    FeedHead([], s[..k], more, ending);
  }

  lemma HeadComplete(s: Bytes, end: nat, k: nat, chunks: seq<Bytes>, ending: Ending)
    requires Find(s, BLANK) == Some(end) && end + 4 <= k <= |s|
    ensures ReadHead(s[..k], chunks, ending) == Ok((s[..k], chunks)) && Find(s[..k], BLANK) == Some(end)
  {
    hide Find;
    assert s[..k] + s[k..] == s;
    FindInBeginning(s[..k], s[k..], BLANK);
  }

  /** One byte at a time, the reader never reads past a message. */
  lemma {:induction false} BytewiseReads(s: Bytes, ending: Ending, mode: Mode)
    ensures ReadMessage(Bytewise(s), ending, mode) == Whole(s, ending, mode)
  {
    hide Find, ParseHead, FramingOf, ReadHead, Bytewise, ReadOn;
    BytewiseSlices(s);
    match Find(s, BLANK)
    case None => DefiniteReads(Bytewise(s), s, ending, mode);
    case Some(end) =>
      if end + 3 > MAX_HEADER {
        BytewiseTooLarge(s, end, ending);
      } else {
        assert s == s[..end + 4] + s[end + 4..];
        BytewiseSplit(s[..end + 4], s[end + 4..]);
        FirstBytes(s, end + 4, Bytewise(s[end + 4..]), ending);
        HeadComplete(s, end, end + 4, Bytewise(s[end + 4..]), ending);
        BytewiseBody(s, end, ending, mode);
      }
  }

  lemma BytewiseTooLarge(s: Bytes, end: nat, ending: Ending)
    requires Find(s, BLANK) == Some(end) && end + 3 > MAX_HEADER
    ensures ReadHead([], Bytewise(s), ending) == Err(TOO_LARGE)
  {
    hide Find, Bytewise;
    var k := MAX_HEADER + 1;
    assert s == s[..k] + s[k..];
    BytewiseSplit(s[..k], s[k..]);
    FirstBytes(s, k, Bytewise(s[k..]), ending);
    HeadNotYet(s, k);
  }

  lemma BytewiseBody(s: Bytes, end: nat, ending: Ending, mode: Mode)
    requires Find(s, BLANK) == Some(end) && Find(s[..end + 4], BLANK) == Some(end) && end + 3 <= MAX_HEADER
    ensures ReadOn(s[..end + 4], Bytewise(s[end + 4..]), ending, mode) == Whole(s, ending, mode)
  {
    hide Find, ParseHead, FramingOf, Bytewise, ReadSized, ReadToEnd;
    var rest := s[end + 4..];
    assert s[..end + 4][..end] == s[..end] && s[..end + 4][end + 4..] == [];
    match HeadFraming(s[..end], mode)
    case Err(_) =>
    case Ok((_, _, framing)) => BytewiseFramed(framing, rest, mode.cap, ending);
  }

  lemma BytewiseFramed(framing: Framing, s: Bytes, cap: nat, ending: Ending)
    ensures ReadBody(framing, [], cap, Bytewise(s), ending) == WholeBody(framing, s, cap, ending)
  {
    hide Bytewise, ReadToEnd;
    BytewiseSlices(s);
    assert [] + Concat(Bytewise(s)) == s;
    match framing
    case Sized(n) =>
      if |s| <= n {
        SizedBody([], n, Bytewise(s));
        assert |s| == n ==> s[..n] == s;
      } else {
        assert s == s[..n] + s[n..] && [] + s[..n] == s[..n];
        BytewiseSplit(s[..n], s[n..]);
        FeedSized([], n, s[..n], Bytewise(s[n..]));
      }
    case ToEnd => EndlessBody([], cap, Bytewise(s), ending);
    case _ =>
  }

  // ----- a slicing that makes a difference -----

  lemma {:induction false} ConcatBoth(a: seq<Bytes>, b: seq<Bytes>)
    ensures Concat(a + b) == Concat(a) + Concat(b)
  {
    if a == [] {
      assert a + b == b;
    } else {
      assert (a + b)[1..] == a[1..] + b;
      ConcatBoth(a[1..], b);
    }
  }

  /** All bytes one by one, except that byte k - 1 comes together with byte k. */
  function Overshoot(s: Bytes, k: nat): seq<Bytes>
    requires 0 < k < |s|
  {
    Bytewise(s[..k - 1]) + ([s[k - 1..k + 1]] + Bytewise(s[k + 1..]))
  }

  lemma OvershootSlices(s: Bytes, k: nat)
    requires 0 < k < |s|
    ensures Slices(Overshoot(s, k), s)
  {
    hide Slices, Bytewise;
    BytewiseSlices(s[..k - 1]);
    BytewiseSlices(s[k + 1..]);
    OneSlice(s[k - 1..k + 1]);
    SlicesBoth([s[k - 1..k + 1]], s[k - 1..k + 1], Bytewise(s[k + 1..]), s[k + 1..]);
    SlicesBoth(Bytewise(s[..k - 1]), s[..k - 1], [s[k - 1..k + 1]] + Bytewise(s[k + 1..]), s[k - 1..k + 1] + s[k + 1..]);
    assert s[..k - 1] + (s[k - 1..k + 1] + s[k + 1..]) == s;
  }

  lemma OneSlice(s: Bytes)
    requires 0 < |s| <= READ_SIZE
    ensures Slices([s], s)
  {
    assert [s][1..] == [] && s + [] == s;
  }

  lemma SlicesBoth(a: seq<Bytes>, s: Bytes, b: seq<Bytes>, t: Bytes)
    requires Slices(a, s) && Slices(b, t)
    ensures Slices(a + b, s + t)
  {
    ConcatBoth(a, b);
  }

  /** A read that goes one byte past the message leaves an error, or a body where there is none. */
  lemma OvershootDiffers(s: Bytes, end: nat, framing: Framing, ending: Ending, mode: Mode)
    requires Find(s, BLANK) == Some(end) && end + 3 <= MAX_HEADER
    requires HeadFraming(s[..end], mode).Ok? && HeadFraming(s[..end], mode).value.2 == framing
    requires Wanted(framing).Some? && |s| - (end + 4) > Wanted(framing).value
    ensures ReadMessage(Overshoot(s, end + 4 + Wanted(framing).value), ending, mode) != Whole(s, ending, mode)
  {
    hide Find, ParseHead, FramingOf, Bytewise, ReadHead, ReadSized;
    var n := Wanted(framing).value;
    var k := end + 4 + n;
    var last := [s[k - 1..k + 1]] + Bytewise(s[k + 1..]);
    if n == 0 {
      FirstBytes(s, k - 1, last, ending);
      TakesTwo(s, end, last, ending);
      HeadComplete(s, end, k + 1, Bytewise(s[k + 1..]), ending);
      assert s[..k + 1][..end] == s[..end] && |s[..k + 1][end + 4..]| == 1;
      Surplus1(s[..k + 1][end + 4..], Bytewise(s[k + 1..]));
    } else {
      var middle := s[end + 4..k - 1];
      assert s[..k - 1] == s[..end + 4] + middle;
      BytewiseSplit(s[..end + 4], middle);
      assert Overshoot(s, k) == Bytewise(s[..end + 4]) + (Bytewise(middle) + last);
      FirstBytes(s, end + 4, Bytewise(middle) + last, ending);
      HeadComplete(s, end, end + 4, Bytewise(middle) + last, ending);
      assert s[..end + 4][..end] == s[..end] && s[..end + 4][end + 4..] == [];
      SizedPast(middle, n, s[k - 1..k + 1], Bytewise(s[k + 1..]));
    }
  }

  lemma TakesTwo(s: Bytes, end: nat, last: seq<Bytes>, ending: Ending)
    requires Find(s, BLANK) == Some(end) && end + 3 <= MAX_HEADER && end + 5 <= |s|
    requires last != [] && last[0] == s[end + 3..end + 5]
    ensures ReadHead(s[..end + 3], last, ending) == ReadHead(s[..end + 5], last[1..], ending)
  {
    hide Find;
    HeadNotYet(s, end + 3);
    assert s[..end + 3] + s[end + 3..end + 5] == s[..end + 5];
  }

  lemma Surplus1(body: Bytes, chunks: seq<Bytes>)
    requires |body| == 1
    ensures ReadSized(body, 0, chunks) == Err(EXCESS)
  {
  }

  lemma SizedPast(middle: Bytes, n: nat, two: Bytes, more: seq<Bytes>)
    requires |middle| + 1 == n && |two| == 2
    ensures ReadSized([], n, Bytewise(middle) + ([two] + more)) == Err(EXCESS)
  {
    hide Bytewise;
    FeedSized([], n, middle, [two] + more);
    assert [] + middle == middle && ([two] + more)[1..] == more;
  }

  /** Reads as long as possible. */
  function Cut(s: Bytes): seq<Bytes>
    decreases |s|
  {
    if s == [] then [] else if |s| <= READ_SIZE then [s] else [s[..READ_SIZE]] + Cut(s[READ_SIZE..])
  }

  lemma {:induction false} CutSlices(s: Bytes)
    ensures Slices(Cut(s), s)
    decreases |s|
  {
    if |s| > READ_SIZE {
      CutSlices(s[READ_SIZE..]);
      assert s == s[..READ_SIZE] + s[READ_SIZE..];
    } else if s != [] {
      assert Concat([s]) == s + Concat([]) == s;
    }
  }

  lemma {:induction false} CutFindsHead(buffer: Bytes, t: Bytes, ending: Ending, end: nat)
    requires |buffer| % READ_SIZE == 0 && Find(buffer + t, BLANK) == Some(end) && end + 4 <= MAX_HEADER + READ_SIZE
    ensures ReadHead(buffer, Cut(t), ending).Ok?
    decreases |t|
  {
    hide Find;
    FindInBeginning(buffer, t, BLANK);
    if Find(buffer, BLANK).None? {
      assert t == [] ==> buffer + t == buffer;
      if |t| <= READ_SIZE {
        assert Cut(t)[1..] == [];
      } else {
        assert Cut(t)[1..] == Cut(t[READ_SIZE..]) && buffer + t == (buffer + t[..READ_SIZE]) + t[READ_SIZE..];
        CutFindsHead(buffer + t[..READ_SIZE], t[READ_SIZE..], ending, end);
      }
    }
  }

  /** Once the head is read, it is no longer too large. */
  lemma ReadOnFails(buffer: Bytes, chunks: seq<Bytes>, ending: Ending, mode: Mode)
    requires Find(buffer, BLANK).Some?
    ensures ReadOn(buffer, chunks, ending, mode) != Err(TOO_LARGE)
  {
    hide Find, Values, ReadBody, ParseHead, FramingOf, BodyTooLarge;
    var end := Find(buffer, BLANK).value;
    HeadFails(buffer[..end]);
    if ParseHead(buffer[..end]).Ok? {
      FramingFails(ParseHead(buffer[..end]).value.1, mode);
    }
    match HeadFraming(buffer[..end], mode)
    case Err(_) =>
    case Ok((_, _, framing)) => BodyFails(framing, buffer[end + 4..], mode.cap, chunks, ending);
  }

  lemma CapFails(cap: nat)
    ensures BodyTooLarge(cap) != TOO_LARGE
  {
    assert |BodyTooLarge(cap)| > 40 && |TOO_LARGE| == 23;
  }

  lemma ErrorsDiffer()
    ensures MALFORMED != TOO_LARGE && CONFLICTING != TOO_LARGE && TRANSFER_ENCODING != TOO_LARGE && INVALID_LENGTH != TOO_LARGE
    ensures READ_FAILED != TOO_LARGE && CLOSED_MID_BODY != TOO_LARGE && EXCESS != TOO_LARGE
  {
    assert |TOO_LARGE| == 23 && |MALFORMED| == 27 && |CONFLICTING| == 32 && |TRANSFER_ENCODING| == 40 && |INVALID_LENGTH| == 28;
    assert |READ_FAILED| == 17 && |CLOSED_MID_BODY| == 32 && EXCESS[6] == 'e' && TOO_LARGE[6] == 'h';
  }

  lemma FramingFails(fields: seq<Field>, mode: Mode)
    ensures FramingOf(fields, mode) != Err(TOO_LARGE)
  {
    hide Values, BodyTooLarge, Clamped, AllDigits, NumberOf;
    ErrorsDiffer();
    CapFails(mode.cap);
    hide ContentLength, TransferEncoding;
  }

  lemma {:induction false} FieldsFail(block: Bytes)
    ensures ParseFields(block) != Err(TOO_LARGE)
    decreases |block|
  {
    hide Find, Trim;
    ErrorsDiffer();
    if block != [] {
      match Find(block, CRLF)
      case None =>
      case Some(eol) => FieldsFail(block[eol + 2..]);
    }
  }

  lemma HeadFails(head: Bytes)
    ensures ParseHead(head) != Err(TOO_LARGE)
  {
    hide Find, ParseFields;
    match Find(head, CRLF)
    case None =>
    case Some(eol) => FieldsFail(head[eol + 2..]);
  }

  lemma {:induction false} SizedFails(body: Bytes, n: nat, chunks: seq<Bytes>)
    ensures ReadSized(body, n, chunks) != Err(TOO_LARGE)
    decreases |chunks|
  {
    ErrorsDiffer();
    if |body| < n && chunks != [] {
      SizedFails(body + chunks[0], n, chunks[1..]);
    }
  }

  lemma {:induction false} ToEndFails(body: Bytes, cap: nat, chunks: seq<Bytes>, ending: Ending)
    ensures ReadToEnd(body, cap, chunks, ending) != Err(TOO_LARGE)
    decreases |chunks|
  {
    hide BodyTooLarge;
    CapFails(cap);
    ErrorsDiffer();
    if |body| <= cap && chunks != [] {
      ToEndFails(body + chunks[0], cap, chunks[1..], ending);
    }
  }

  lemma BodyFails(framing: Framing, body: Bytes, cap: nat, chunks: seq<Bytes>, ending: Ending)
    ensures ReadBody(framing, body, cap, chunks, ending) != Err(TOO_LARGE)
  {
    match framing
    case Sized(n) => SizedFails(body, n, chunks);
    case ToEnd => ToEndFails(body, cap, chunks, ending);
    case _ =>
  }

  lemma {:induction false} IndefiniteReads(s: Bytes, ending: Ending, mode: Mode) returns (chunks: seq<Bytes>)
    requires !Definite(s, mode)
    ensures Slices(chunks, s) && ReadMessage(chunks, ending, mode) != Whole(s, ending, mode)
  {
    hide Find, ParseHead, FramingOf, Slices, ReadHead, ReadOn, Cut, Overshoot;
    var end := Find(s, BLANK).value;
    if end + 3 > MAX_HEADER {
      chunks := Cut(s);
      CutSlices(s);
      assert [] + s == s;
      CutFindsHead([], s, ending, end);
      var (buffer, rest) := ReadHead([], chunks, ending).value;
      ReadOnFails(buffer, rest, ending, mode);
    } else {
      var framing := HeadFraming(s[..end], mode).value.2;
      chunks := Overshoot(s, end + 4 + Wanted(framing).value);
      OvershootSlices(s, end + 4 + Wanted(framing).value);
      OvershootDiffers(s, end, framing, ending, mode);
    }
  }

  /** The message does not depend on the reads exactly when the stream is definite. */
  lemma {:induction false} SlicingDoesNotMatter(s: Bytes, ending: Ending, mode: Mode)
    ensures (forall chunks | Slices(chunks, s) :: ReadMessage(chunks, ending, mode) == Whole(s, ending, mode)) <==> Definite(s, mode)
    ensures exists chunks :: Slices(chunks, s) && ReadMessage(chunks, ending, mode) == Whole(s, ending, mode)
  {
    hide Definite, Slices, ReadMessage, Whole;
    BytewiseSlices(s);
    BytewiseReads(s, ending, mode);
    if Definite(s, mode) {
      forall chunks | Slices(chunks, s)
        ensures ReadMessage(chunks, ending, mode) == Whole(s, ending, mode)
      {
        DefiniteReads(chunks, s, ending, mode);
      }
    } else {
      var chunks := IndefiniteReads(s, ending, mode);
    }
  }
}

/** The router: patterns, matching, ranking, registration and dispatch. */
module RouterSpec {
  import opened Common
  import opened UriSpec

  // ----- patterns -----

  datatype Kind = Literal | Label | Greedy

  datatype Segment = Segment(kind: Kind, text: Bytes)

  const OPEN: Byte := 123
  const CLOSE: Byte := 125
  const PLUS: Byte := 43

  datatype PatternError = NoSlash | EmptyLabel | EmptySegment | GreedyInside

  datatype Parsed = Pattern(segments: seq<Segment>) | Refused(why: PatternError)

  function ParseSegment(raw: Bytes): Parsed {
    if |raw| >= 2 && raw[0] == OPEN && raw[|raw| - 1] == CLOSE then
      var inner := raw[1..|raw| - 1];
      var greedy := inner != [] && inner[|inner| - 1] == PLUS;
      var name := if greedy then inner[..|inner| - 1] else inner;
      if name == [] then Refused(EmptyLabel) else Pattern([Segment(if greedy then Greedy else Label, name)])
    else if raw == [] then Refused(EmptySegment)
    else Pattern([Segment(Literal, raw)])
  }

  function ParseSegments(rest: Bytes): Parsed
    decreases |rest|
  {
    var slash := Find(rest, [SLASH]);
    match ParseSegment(if slash.None? then rest else rest[..slash.value])
    case Refused(why) => Refused(why)
    case Pattern(first) =>
      if slash.None? then Pattern(first)
      else if first[0].kind.Greedy? then Refused(GreedyInside)
      else
        match ParseSegments(rest[slash.value + 1..])
        case Refused(why) => Refused(why)
        case Pattern(others) => Pattern(first + others)
  }

  function ParsePattern(pattern: Bytes): Parsed {
    if pattern == [] || pattern[0] != SLASH then Refused(NoSlash)
    else if pattern[1..] == [] then Pattern([])
    else ParseSegments(pattern[1..])
  }

  /** What every accepted pattern is: named labels, no empty segment, greedy only at the end. */
  predicate Legal(p: seq<Segment>) {
    forall k | 0 <= k < |p| :: p[k].text != [] && (p[k].kind.Greedy? ==> k == |p| - 1)
  }

  // ----- matching -----

  type Labels = map<Bytes, Bytes>

  predicate EndsGreedy(p: seq<Segment>) { p != [] && p[|p| - 1].kind.Greedy? }

  /** Segment by segment; the first value a name gets stays. */
  function MatchRest(p: seq<Segment>, s: seq<Bytes>): Option<Labels>
    requires |p| <= |s|
  {
    if p == [] then Some(map[])
    else
      match p[0].kind
      case Literal => if s[0] != p[0].text then None else MatchRest(p[1..], s[1..])
      case Label =>
        if s[0] == [] then None
        else
          (match MatchRest(p[1..], s[1..])
           case None => None
           case Some(labels) => Some(labels + map[p[0].text := s[0]]))
      case Greedy => if |s| == 1 && s[0] == [] then None else Some(map[p[0].text := Join(s, SLASH)])
  }

  function MatchSegments(p: seq<Segment>, s: seq<Bytes>): Option<Labels> {
    if (if EndsGreedy(p) then |s| < |p| else |s| != |p|) then None else MatchRest(p, s)
  }

  // ----- ranking -----

  function Rank(k: Kind): nat {
    match k case Literal => 0 case Label => 1 case Greedy => 2
  }

  predicate MoreSpecific(a: seq<Segment>, b: seq<Segment>) {
    if a == [] || b == [] then |a| > |b|
    else if Rank(a[0].kind) != Rank(b[0].kind) then Rank(a[0].kind) < Rank(b[0].kind)
    else MoreSpecific(a[1..], b[1..])
  }

  predicate SameShape(a: seq<Segment>, b: seq<Segment>) {
    |a| == |b| && forall k | 0 <= k < |a| :: a[k].kind == b[k].kind && (a[k].kind.Literal? ==> a[k].text == b[k].text)
  }

  // ----- registration -----

  type Handler = nat

  datatype Entry = Entry(segments: seq<Segment>, handler: Handler)

  datatype Bucket = Bucket(method_: Bytes, entries: seq<Entry>)

  /** `std::less` on strings. */
  predicate Less(a: Bytes, b: Bytes) {
    if b == [] then false
    else if a == [] then true
    else if a[0] != b[0] then a[0] < b[0]
    else Less(a[1..], b[1..])
  }

  function EntriesOf(routes: seq<Bucket>, method_: Bytes): seq<Entry> {
    if routes == [] then [] else if routes[0].method_ == method_ then routes[0].entries else EntriesOf(routes[1..], method_)
  }

  /** Appends an entry to the bucket of its method, which is made where the order wants it. */
  function Put(routes: seq<Bucket>, method_: Bytes, e: Entry): seq<Bucket> {
    if routes == [] || Less(method_, routes[0].method_) then [Bucket(method_, [e])] + routes
    else if routes[0].method_ == method_ then [Bucket(method_, routes[0].entries + [e])] + routes[1..]
    else [routes[0]] + Put(routes[1..], method_, e)
  }

  datatype Registration = Registration(method_: Bytes, pattern: Bytes, handler: Handler)

  predicate Conflicts(entries: seq<Entry>, segments: seq<Segment>) {
    exists k | 0 <= k < |entries| :: SameShape(entries[k].segments, segments)
  }

  datatype AddResult = Added(routes: seq<Bucket>) | Invalid(why: PatternError) | Conflict

  function Add(routes: seq<Bucket>, r: Registration): AddResult {
    match ParsePattern(r.pattern)
    case Refused(why) => Invalid(why)
    case Pattern(segments) =>
      if Conflicts(EntriesOf(routes, r.method_), segments) then Conflict
      else Added(Put(routes, r.method_, Entry(segments, r.handler)))
  }

  // ----- dispatch -----

  datatype Answer =
    | Malformed
    | Dispatch(handler: Handler, labels: Labels, query: seq<Parameter>)
    | NotAllowed(allow: Bytes)
    | NotFound

  /** A trailing empty segment does not count. */
  function Normalized(s: seq<Bytes>): seq<Bytes> {
    if s != [] && s[|s| - 1] == [] then s[..|s| - 1] else s
  }

  predicate Matches(e: Entry, s: seq<Bytes>) { MatchSegments(e.segments, s).Some? }

  /** The scan over a bucket, best so far. */
  function Best(entries: seq<Entry>, s: seq<Bytes>, best: Option<Entry>): Option<Entry> {
    if entries == [] then best
    else if Matches(entries[0], s) && (best.None? || MoreSpecific(entries[0].segments, best.value.segments)) then
      Best(entries[1..], s, Some(entries[0]))
    else Best(entries[1..], s, best)
  }

  predicate AnyMatch(entries: seq<Entry>, s: seq<Bytes>) {
    exists k | 0 <= k < |entries| :: Matches(entries[k], s)
  }

  /** The other methods that have a match, in the order of the map. */
  function Others(routes: seq<Bucket>, method_: Bytes, s: seq<Bytes>): seq<Bytes> {
    if routes == [] then []
    else
      (if routes[0].method_ != method_ && AnyMatch(routes[0].entries, s) then [routes[0].method_] else []) +
      Others(routes[1..], method_, s)
  }

  const COMMA: Bytes := [44, 32]

  /** The allow header as it grows from method to method. */
  function AllowText(methods: seq<Bytes>, allow: Bytes): Bytes {
    if methods == [] then allow
    else AllowText(methods[1..], (if allow == [] then [] else allow + COMMA) + methods[0])
  }

  function Answered(routes: seq<Bucket>, method_: Bytes, s: seq<Bytes>, query: seq<Parameter>): Answer {
    match Best(EntriesOf(routes, method_), s, None)
    case Some(e) =>
      (match MatchSegments(e.segments, s)
       case Some(labels) => Dispatch(e.handler, labels, query)
       case None => Dispatch(e.handler, map[], query))
    case None =>
      var allow := AllowText(Others(routes, method_, s), []);
      if allow != [] then NotAllowed(allow) else NotFound
  }

  function Route(routes: seq<Bucket>, method_: Bytes, target: Bytes): Answer {
    match ParseTarget(target)
    case Err(_) => Malformed
    case Ok(t) => Answered(routes, method_, Normalized(t.segments), t.query)
  }
}

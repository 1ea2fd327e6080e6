/** `Router`: registration and dispatch over its map of buckets. */
module Router {
  import opened Common
  import opened UriSpec
  import opened UriProps
  import opened RouterSpec
  import opened RouterProps
  import Uri

  // ----- patterns -----

  /** What the rest of a pattern adds to the segments so far. */
  function Followed(done: seq<Segment>, r: Parsed): Parsed {
    match r
    case Refused(why) => Refused(why)
    case Pattern(segments) => Pattern(done + segments)
  }

  lemma FollowedTwice(a: seq<Segment>, b: seq<Segment>, r: Parsed)
    ensures Followed(a, Followed(b, r)) == Followed(a + b, r) && Followed([], r) == r
  {
    if r.Pattern? {
      assert a + (b + r.segments) == a + b + r.segments && [] + r.segments == r.segments;
    }
  }

  lemma SegmentsFirst(rest: Bytes, raw: Bytes, after: Option<Bytes>)
    requires match Find(rest, [SLASH])
             case None => raw == rest && after.None?
             case Some(k) => k < |rest| && raw == rest[..k] && after == Some(rest[k + 1..])
    ensures ParseSegments(rest) ==
            match ParseSegment(raw)
            case Refused(why) => Refused(why)
            case Pattern(first) =>
              if after.None? then Pattern(first)
              else if first[0].kind.Greedy? then Refused(GreedyInside)
              else Followed(first, ParseSegments(after.value))
  {
    hide Find;
  }

  method ParseRoutePattern(pattern: Bytes) returns (r: Parsed)
    ensures r == ParsePattern(pattern)
  {
    hide Find, ParseSegments, ParseSegment;
    if pattern == [] || pattern[0] != SLASH {
      return Refused(NoSlash);
    }
    var rest := pattern[1..];
    if rest == [] {
      return Pattern([]);
    }
    var segments := [];
    FollowedTwice([], [], ParseSegments(rest));
    while true
      invariant ParseSegments(pattern[1..]) == Followed(segments, ParseSegments(rest))
      decreases |rest|
    {
      FreeHasNone(rest, SLASH);
      var slash := Find(rest, [SLASH]);
      var raw := if slash.None? then rest else rest[..slash.value];
      SegmentsFirst(rest, raw, if slash.None? then None else Some(rest[slash.value + 1..]));
      OneSegment(raw);
      var segment := ParseSegment(raw);
      if segment.Refused? {
        return segment;
      }
      if slash.None? {
        return Pattern(segments + segment.segments);
      }
      if segment.segments[0].kind.Greedy? {
        return Refused(GreedyInside);
      }
      rest := rest[slash.value + 1..];
      FollowedTwice(segments, segment.segments, ParseSegments(rest));
      segments := segments + segment.segments;
    }
  }

  lemma OneSegment(raw: Bytes)
    ensures ParseSegment(raw).Pattern? ==> |ParseSegment(raw).segments| == 1
  {
  }

  // ----- matching -----

  /** Labels found so far keep their values. */
  function Merged(labels: Labels, r: Option<Labels>): Option<Labels> {
    if r.None? then None else Some(r.value + labels)
  }

  /** `emplace`: a name that is there keeps its value. */
  function Emplaced(labels: Labels, name: Bytes, value: Bytes): Labels {
    if name in labels then labels else labels[name := value]
  }

  lemma MergedStep(labels: Labels, r: Option<Labels>, name: Bytes, value: Bytes)
    ensures Merged(map[], r) == r
    ensures r.Some? ==> Merged(labels, Some(r.value + map[name := value])) == Merged(Emplaced(labels, name, value), r)
    ensures Merged(labels, Some(map[name := value])) == Some(Emplaced(labels, name, value))
  {
    if r.Some? {
      assert r.value + map[] == r.value;
      assert (r.value + map[name := value]) + labels == r.value + Emplaced(labels, name, value);
    }
    assert map[name := value] + labels == Emplaced(labels, name, value);
  }

  method Match(pattern: seq<Segment>, segments: seq<Bytes>) returns (r: Option<Labels>)
    ensures r == MatchSegments(pattern, segments)
  {
    hide Join;
    if (if EndsGreedy(pattern) then |segments| < |pattern| else |segments| != |pattern|) {
      return None;
    }
    var labels: Labels := map[];
    assert pattern[0..] == pattern && segments[0..] == segments;
    MergedStep(labels, MatchRest(pattern, segments), [], []);
    for i := 0 to |pattern|
      invariant MatchRest(pattern, segments) == Merged(labels, MatchRest(pattern[i..], segments[i..]))
    {
      var expected := pattern[i];
      assert pattern[i..][1..] == pattern[i + 1..] && segments[i..][1..] == segments[i + 1..];
      match expected.kind {
        case Literal =>
          if segments[i] != expected.text {
            return None;
          }
        case Label =>
          if segments[i] == [] {
            return None;
          }
          MergedStep(labels, MatchRest(pattern[i + 1..], segments[i + 1..]), expected.text, segments[i]);
          labels := Emplaced(labels, expected.text, segments[i]);
        case Greedy =>
          if |segments| - i == 1 && segments[i] == [] {
            return None;
          }
          var joined := Join(segments[i..], SLASH);
          MergedStep(labels, None, expected.text, joined);
          return Some(Emplaced(labels, expected.text, joined));
      }
    }
    assert pattern[|pattern|..] == [] && map[] + labels == labels;
    return Some(labels);
  }

  method IsMoreSpecific(a: seq<Segment>, b: seq<Segment>) returns (r: bool)
    ensures r == MoreSpecific(a, b)
  {
    var common := if |a| < |b| then |a| else |b|;
    assert a[0..] == a && b[0..] == b;
    for i := 0 to common
      invariant MoreSpecific(a, b) == MoreSpecific(a[i..], b[i..])
    {
      assert a[i..][1..] == a[i + 1..] && b[i..][1..] == b[i + 1..];
      if Rank(a[i].kind) != Rank(b[i].kind) {
        return Rank(a[i].kind) < Rank(b[i].kind);
      }
    }
    return |a| > |b|;
  }

  method IsSameShape(a: seq<Segment>, b: seq<Segment>) returns (r: bool)
    ensures r == SameShape(a, b)
  {
    if |a| != |b| {
      return false;
    }
    for i := 0 to |a|
      invariant forall k | 0 <= k < i :: a[k].kind == b[k].kind && (a[k].kind.Literal? ==> a[k].text == b[k].text)
    {
      if a[i].kind != b[i].kind || (a[i].kind.Literal? && a[i].text != b[i].text) {
        return false;
      }
    }
    return true;
  }

  // ----- the router -----

  class Router {
    var routes: seq<Bucket>

    ghost predicate Valid()
      reads this
    {
      WellKept(routes)
    }

    constructor ()
      ensures Valid() && routes == []
    {
      routes := [];
    }

    method AddRoute(r: Registration) returns (result: AddResult)
      requires Valid()
      modifies this
      ensures Valid() && result == Add(old(routes), r)
      ensures routes == if result.Added? then result.routes else old(routes)
    {
      hide SameShape, Put, ParsePattern, WellKept;
      var parsed := ParseRoutePattern(r.pattern);
      if parsed.Refused? {
        return Invalid(parsed.why);
      }
      var bucket := EntriesOf(routes, r.method_);
      for i := 0 to |bucket|
        invariant routes == old(routes)
        invariant forall k | 0 <= k < i :: !SameShape(bucket[k].segments, parsed.segments)
      {
        var same := IsSameShape(bucket[i].segments, parsed.segments);
        if same {
          assert Conflicts(bucket, parsed.segments);
          return Conflict;
        }
      }
      assert !Conflicts(bucket, parsed.segments);
      AddKeepsOk(routes, r);
      routes := Put(routes, r.method_, Entry(parsed.segments, r.handler));
      return Added(routes);
    }

    method FindBest(bucket: seq<Entry>, segments: seq<Bytes>) returns (best: Option<Entry>)
      ensures best == Best(bucket, segments, None)
    {
      hide MatchSegments, MoreSpecific;
      best := None;
      assert bucket[0..] == bucket;
      for i := 0 to |bucket|
        invariant Best(bucket, segments, None) == Best(bucket[i..], segments, best)
      {
        var e := bucket[i];
        assert bucket[i..][1..] == bucket[i + 1..];
        var labels := Match(e.segments, segments);
        if labels.Some? {
          var better := true;
          if best.Some? {
            better := IsMoreSpecific(e.segments, best.value.segments);
          }
          if better {
            best := Some(e);
          }
        }
      }
    }

    method MatchesAny(bucket: seq<Entry>, segments: seq<Bytes>) returns (any: bool)
      ensures any == AnyMatch(bucket, segments)
    {
      hide MatchSegments;
      for i := 0 to |bucket|
        invariant forall k | 0 <= k < i :: !Matches(bucket[k], segments)
      {
        var labels := Match(bucket[i].segments, segments);
        if labels.Some? {
          assert Matches(bucket[i], segments);
          return true;
        }
      }
      return false;
    }

    /** The other methods that would have a match, as the allow header lists them. */
    method Allowed(method_: Bytes, segments: seq<Bytes>) returns (allow: Bytes)
      ensures allow == AllowText(Others(routes, method_, segments), [])
    {
      hide AnyMatch;
      allow := [];
      assert routes[0..] == routes;
      for i := 0 to |routes|
        invariant AllowText(Others(routes, method_, segments), []) == AllowText(Others(routes[i..], method_, segments), allow)
      {
        var bucket := routes[i];
        OthersFirst(routes[i..], method_, segments);
        assert routes[i..][1..] == routes[i + 1..];
        if bucket.method_ != method_ {
          var any := MatchesAny(bucket.entries, segments);
          if any {
            if allow != [] {
              allow := allow + COMMA;
            }
            allow := allow + bucket.method_;
          }
        }
      }
    }

    method Dispatched(method_: Bytes, target: Bytes) returns (answer: Answer)
      ensures answer == Route(routes, method_, target)
    {
      hide ParseTarget, MatchSegments, Best, Others, EntriesOf;
      var parsed := Uri.ParseRequestTarget(target);
      if parsed.Err? {
        return Malformed;
      }
      var segments := parsed.value.segments;
      if segments != [] && segments[|segments| - 1] == [] {
        segments := segments[..|segments| - 1];
      }
      var best := FindBest(EntriesOf(routes, method_), segments);
      if best.None? {
        var allow := Allowed(method_, segments);
        return if allow != [] then NotAllowed(allow) else NotFound;
      }
      var labels := Match(best.value.segments, segments);
      return Dispatch(best.value.handler, if labels.Some? then labels.value else map[], parsed.value.query);
    }
  }

  lemma OthersFirst(routes: seq<Bucket>, method_: Bytes, s: seq<Bytes>)
    requires routes != []
    ensures var rest := Others(routes[1..], method_, s);
            if routes[0].method_ != method_ && AnyMatch(routes[0].entries, s)
            then Others(routes, method_, s) != [] && Others(routes, method_, s)[0] == routes[0].method_ && Others(routes, method_, s)[1..] == rest
            else Others(routes, method_, s) == rest
  {
    hide AnyMatch;
    NothingBefore(Others(routes[1..], method_, s));
  }
}

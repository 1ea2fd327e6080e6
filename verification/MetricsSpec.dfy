/** The registry's built-in families: what each call does to them, and what they say about a whole history of calls. */
module MetricsSpec {
  import opened Common

  /** Bucket bounds in microseconds, each the largest duration it holds. */
  const LADDER: seq<int> := [100, 250, 500, 1000, 2500, 5000, 10000, 25000, 50000, 100000, 250000, 500000, 1000000, 2500000, 10000000]

  const KNOWN: seq<string> := ["GET", "HEAD", "POST", "PUT", "PATCH", "DELETE", "OPTIONS", "TRACE", "CONNECT"]

  const CUSTOM: string := "CUSTOM"
  const UNPARSED: string := "(unparsed)"
  const UNMATCHED: string := "unmatched"

  function NormalizeMethod(method_: string): string {
    if method_ in KNOWN then method_ else CUSTOM
  }

  datatype RouteKey = RouteKey(method_: string, route: string)

  datatype Stats = Stats(requests: nat, success: nat, failure: nat, buckets: seq<nat>, durationSum: int, durationCount: nat)

  datatype Registry = Registry(routes: map<RouteKey, Stats>, inFlight: map<string, nat>, dropped: nat)

  const EMPTY: Registry := Registry(map[], map[], 0)

  datatype Call =
    | RecordStart(method_: string)
    | Record(method_: string, operation: string, status: int, duration: int)
    | RecordRejection(method_: string, status: int)

  // ----- one call -----

  /** The series a call belongs to. */
  function KeyOf(c: Call): Option<RouteKey> {
    match c
    case RecordStart(_) => None
    case Record(m, operation, _, _) => Some(RouteKey(NormalizeMethod(m), if operation == "" then UNMATCHED else operation))
    case RecordRejection(m, _) => Some(RouteKey(if m == "" then UNPARSED else NormalizeMethod(m), UNMATCHED))
  }

  /** The first bucket whose bound is not below d, |LADDER| if there is none: `lower_bound`. */
  function BucketFrom(d: int, i: nat): (b: nat)
    requires i <= |LADDER|
    ensures i <= b <= |LADDER| && (forall k | i <= k < b :: LADDER[k] < d) && (b < |LADDER| ==> d <= LADDER[b])
    decreases |LADDER| - i
  {
    if i == |LADDER| || d <= LADDER[i] then i else BucketFrom(d, i + 1)
  }

  function NoStats(): Stats { Stats(0, 0, 0, seq(|LADDER|, _ => 0), 0, 0) }

  /** The series of a key, new or known; nothing once the cap is reached. */
  function Admitted(r: Registry, key: RouteKey, cap: nat): Option<Stats> {
    if key in r.routes then Some(r.routes[key])
    else if |r.routes| >= cap then None
    else Some(NoStats())
  }

  function Counted(s: Stats, status: int): Stats {
    s.(requests := s.requests + 1,
       success := s.success + AsCount(status < 400),
       failure := s.failure + AsCount(status >= 400))
  }

  function Bumped(buckets: seq<nat>, b: nat): (r: seq<nat>)
    ensures |r| == |buckets|
  {
    if b < |buckets| then buckets[b := buckets[b] + 1] else buckets
  }

  function Timed(s: Stats, duration: int): Stats {
    s.(buckets := Bumped(s.buckets, BucketFrom(duration, 0)),
       durationSum := s.durationSum + duration,
       durationCount := s.durationCount + 1)
  }

  function Level(r: Registry, m: string): nat {
    if m in r.inFlight then r.inFlight[m] else 0
  }

  function Filed(r: Registry, c: Call, key: RouteKey, cap: nat): Registry
    requires !c.RecordStart?
  {
    match Admitted(r, key, cap)
    case None => r.(dropped := r.dropped + 1)
    case Some(stats) =>
      var counted := Counted(stats, c.status);
      r.(routes := r.routes[key := if c.Record? then Timed(counted, c.duration) else counted])
  }

  function Finished(r: Registry, m: string): Registry {
    if Level(r, m) > 0 then r.(inFlight := r.inFlight[m := Level(r, m) - 1]) else r
  }

  function Apply(r: Registry, c: Call, cap: nat): Registry {
    match c
    case RecordStart(m) => r.(inFlight := r.inFlight[NormalizeMethod(m) := Level(r, NormalizeMethod(m)) + 1])
    case Record(m, _, _, _) => Filed(Finished(r, NormalizeMethod(m)), c, KeyOf(c).value, cap)
    case RecordRejection(_, _) => Filed(r, c, KeyOf(c).value, cap)
  }

  /** The registry after a history of calls. */
  function Run(h: seq<Call>, cap: nat): Registry {
    if h == [] then EMPTY else Apply(Run(h[..|h| - 1], cap), h[|h| - 1], cap)
  }

  // ----- what a history says -----

  function CountIf(h: seq<Call>, p: Call -> bool): nat {
    if h == [] then 0 else CountIf(h[..|h| - 1], p) + AsCount(p(h[|h| - 1]))
  }

  function Of(key: RouteKey): Call -> bool { (c: Call) => KeyOf(c) == Some(key) }

  function Succeeded(key: RouteKey): Call -> bool { (c: Call) => KeyOf(c) == Some(key) && c.status < 400 }

  function Failed(key: RouteKey): Call -> bool { (c: Call) => KeyOf(c) == Some(key) && c.status >= 400 }

  function Served(key: RouteKey): Call -> bool { (c: Call) => c.Record? && KeyOf(c) == Some(key) }

  function Within(key: RouteKey, bound: int): Call -> bool { (c: Call) => c.Record? && KeyOf(c) == Some(key) && c.duration <= bound }

  /** The calls that belong to some series, but none of these. */
  function Outside(keys: set<RouteKey>): Call -> bool { (c: Call) => KeyOf(c).Some? && KeyOf(c).value !in keys }

  function DurationOf(h: seq<Call>, key: RouteKey): int {
    if h == [] then 0
    else
      var c := h[|h| - 1];
      DurationOf(h[..|h| - 1], key) + if c.Record? && KeyOf(c) == Some(key) then c.duration else 0
  }

  /** The series a history asks for, in the order of their first calls. */
  function Wanted(h: seq<Call>): seq<RouteKey> {
    if h == [] then []
    else
      var before := Wanted(h[..|h| - 1]);
      match KeyOf(h[|h| - 1])
      case Some(key) => if key in before then before else before + [key]
      case None => before
  }

  /** The first cap of them. */
  function Kept(h: seq<Call>, cap: nat): set<RouteKey> {
    var wanted := Wanted(h);
    set i | 0 <= i < |wanted| && i < cap :: wanted[i]
  }

  /** What an exposed bucket shows: everything up to its bound. */
  function Cumulative(buckets: seq<nat>, n: nat): nat
    requires n <= |buckets|
  {
    if n == 0 then 0 else Cumulative(buckets, n - 1) + buckets[n - 1]
  }

  function Started(m: string): Call -> bool { (c: Call) => c.RecordStart? && NormalizeMethod(c.method_) == m }

  function Ended(m: string): Call -> bool { (c: Call) => c.Record? && NormalizeMethod(c.method_) == m }

  /** Starts less ends. */
  function Net(h: seq<Call>, m: string): int {
    CountIf(h, Started(m)) - CountIf(h, Ended(m))
  }
}

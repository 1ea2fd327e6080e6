/** `MetricsRegistry`: the built-in families as the calls update them. */
module Metrics {
  import opened Common
  import opened MetricsSpec
  import opened MetricsProps

  class MetricsRegistry {
    const enabled: bool
    const maxSeries: nat
    var routes: map<RouteKey, Stats>
    var inFlight: map<string, nat>
    var observationsDropped: nat
    /** The calls so far. */
    ghost var history: seq<Call>

    function View(): Registry
      reads this
    {
      Registry(routes, inFlight, observationsDropped)
    }

    ghost predicate Valid()
      reads this
    {
      View() == Run(history, maxSeries) && (!enabled ==> history == [])
    }

    constructor (enabled: bool, maxSeries: nat)
      ensures Valid() && history == [] && this.enabled == enabled && this.maxSeries == maxSeries
    {
      this.enabled, this.maxSeries := enabled, maxSeries;
      routes, inFlight, observationsDropped := map[], map[], 0;
      history := [];
    }

    /** What a call that the registry records leaves behind. */
    twostate predicate Recorded(c: Call)
      reads this
    {
      Valid() && history == if enabled then old(history) + [c] else old(history)
    }

    method Start(method_: string)
      requires Valid()
      modifies this
      ensures Recorded(RecordStart(method_))
    {
      hide NormalizeMethod;
      if !enabled {
        return;
      }
      RunNext(history, RecordStart(method_), maxSeries);
      var m := NormalizeMethod(method_);
      inFlight := inFlight[m := (if m in inFlight then inFlight[m] else 0) + 1];
      history := history + [RecordStart(method_)];
    }

    /** Finds or makes the series of a key; counts a refusal. */
    method AdmitRoute(key: RouteKey) returns (stats: Option<Stats>)
      modifies this`observationsDropped
      ensures stats == old(Admitted(View(), key, maxSeries))
      ensures observationsDropped == old(observationsDropped) + AsCount(stats.None?)
    {
      if key in routes {
        return Some(routes[key]);
      }
      if |routes| >= maxSeries {
        observationsDropped := observationsDropped + 1;
        return None;
      }
      return Some(NoStats());
    }

    method FindBucket(duration: int) returns (b: nat)
      ensures b == BucketFrom(duration, 0)
    {
      b := 0;
      while b < |LADDER| && LADDER[b] < duration
        invariant b <= |LADDER| && BucketFrom(duration, 0) == BucketFrom(duration, b)
      {
        b := b + 1;
      }
    }

    method CountRequest(stats: Stats, status: int) returns (s: Stats)
      ensures s == Counted(stats, status)
    {
      s := stats.(requests := stats.requests + 1);
      if status < 400 {
        s := s.(success := s.success + 1);
      } else {
        s := s.(failure := s.failure + 1);
      }
    }

    method TimeRequest(stats: Stats, duration: int) returns (s: Stats)
      ensures s == Timed(stats, duration)
    {
      s := stats.(durationSum := stats.durationSum + duration, durationCount := stats.durationCount + 1);
      var b := FindBucket(duration);
      s := s.(buckets := Bumped(s.buckets, b));
    }

    method Complete(method_: string, operation: string, status: int, duration: int)
      requires Valid()
      modifies this
      ensures Recorded(Record(method_, operation, status, duration))
    {
      hide NormalizeMethod, BucketFrom, NoStats, Admitted, Counted, Timed;
      if !enabled {
        return;
      }
      ghost var c := Record(method_, operation, status, duration);
      RunNext(history, c, maxSeries);
      var key := RouteKey(NormalizeMethod(method_), if operation == "" then UNMATCHED else operation);
      if key.method_ in inFlight && inFlight[key.method_] > 0 {
        inFlight := inFlight[key.method_ := inFlight[key.method_] - 1];
      }
      assert View() == Finished(old(View()), key.method_);
      var stats := AdmitRoute(key);
      history := history + [c];
      if stats.None? {
        return;
      }
      var s := CountRequest(stats.value, status);
      s := TimeRequest(s, duration);
      routes := routes[key := s];
    }

    method Reject(method_: string, status: int)
      requires Valid()
      modifies this
      ensures Recorded(RecordRejection(method_, status))
    {
      hide NormalizeMethod, NoStats, Admitted, Counted;
      if !enabled {
        return;
      }
      ghost var c := RecordRejection(method_, status);
      RunNext(history, c, maxSeries);
      var key := RouteKey(if method_ == "" then UNPARSED else NormalizeMethod(method_), UNMATCHED);
      var stats := AdmitRoute(key);
      history := history + [c];
      if stats.None? {
        return;
      }
      var s := CountRequest(stats.value, status);
      routes := routes[key := s];
    }
  }

  lemma RunNext(h: seq<Call>, c: Call, cap: nat)
    ensures Run(h + [c], cap) == Apply(Run(h, cap), c, cap)
  {
    var all := h + [c];
    assert all[..|all| - 1] == h;
  }
}

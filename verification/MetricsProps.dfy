/** The families agree with the history of calls, whatever it is. */
module MetricsProps {
  import opened Common
  import opened MetricsSpec

  // ----- which series there are -----

  lemma {:induction false} WantedDistinct(h: seq<Call>)
    ensures forall i, j | 0 <= i < j < |Wanted(h)| :: Wanted(h)[i] != Wanted(h)[j]
  {
    if h != [] {
      WantedDistinct(h[..|h| - 1]);
    }
  }

  /** A series that is not asked for has no calls. */
  lemma {:induction false} NotWanted(h: seq<Call>, key: RouteKey, keys: set<RouteKey>, bound: int)
    requires key !in Wanted(h)
    ensures CountIf(h, Of(key)) == 0 && CountIf(h, Succeeded(key)) == 0 && CountIf(h, Failed(key)) == 0
    ensures CountIf(h, Served(key)) == 0 && CountIf(h, Within(key, bound)) == 0 && DurationOf(h, key) == 0
    ensures CountIf(h, Outside(keys + {key})) == CountIf(h, Outside(keys))
  {
    if h != [] {
      NotWanted(h[..|h| - 1], key, keys, bound);
    }
  }

  /** The next call's series is kept already, has room, or is dropped. */
  lemma KeptNext(h: seq<Call>, c: Call, cap: nat)
    ensures var key := KeyOf(c);
            Kept(h + [c], cap) ==
            if key.Some? && key.value !in Wanted(h) && |Wanted(h)| < cap then Kept(h, cap) + {key.value} else Kept(h, cap)
    ensures |Kept(h, cap)| == if |Wanted(h)| < cap then |Wanted(h)| else cap
    ensures |Wanted(h)| < cap ==> forall key :: key in Kept(h, cap) <==> key in Wanted(h)
  {
    var all := h + [c];
    assert all[..|all| - 1] == h;
    var before, after := Wanted(h), Wanted(all);
    KeptSize(h, cap);
    WantedNext(h, c);
    hide Wanted;
    if after != before {
      var key := KeyOf(c).value;
      assert forall i | 0 <= i < |before| :: after[i] == before[i];
      if |before| < cap {
        KeptMore(before, after, key, cap);
      } else {
        KeptSame(before, after, cap);
      }
    }
  }

  lemma WantedNext(h: seq<Call>, c: Call)
    ensures var key := KeyOf(c);
            Wanted(h + [c]) == if key.Some? && key.value !in Wanted(h) then Wanted(h) + [key.value] else Wanted(h)
  {
    var all := h + [c];
    assert all[..|all| - 1] == h;
  }

  lemma KeptMore(before: seq<RouteKey>, after: seq<RouteKey>, key: RouteKey, cap: nat)
    requires after == before + [key] && |before| < cap
    ensures (set i | 0 <= i < |after| && i < cap :: after[i]) == (set i | 0 <= i < |before| && i < cap :: before[i]) + {key}
  {
    assert forall i | 0 <= i < |before| :: after[i] == before[i];
    assert after[|before|] == key;
  }

  lemma KeptSame(before: seq<RouteKey>, after: seq<RouteKey>, cap: nat)
    requires |before| <= |after| && after[..|before|] == before && cap <= |before|
    ensures (set i | 0 <= i < |after| && i < cap :: after[i]) == (set i | 0 <= i < |before| && i < cap :: before[i])
  {
    assert forall i | 0 <= i < |before| :: after[i] == after[..|before|][i];
  }

  lemma KeptSize(h: seq<Call>, cap: nat)
    ensures |Kept(h, cap)| == if |Wanted(h)| < cap then |Wanted(h)| else cap
  {
    WantedDistinct(h);
    var wanted := Wanted(h);
    FirstKeys(wanted, if |wanted| < cap then |wanted| else cap);
    assert Kept(h, cap) == set i | 0 <= i < (if |wanted| < cap then |wanted| else cap) :: wanted[i];
  }

  lemma {:induction false} FirstKeys(keys: seq<RouteKey>, n: nat)
    requires n <= |keys| && forall i, j | 0 <= i < j < |keys| :: keys[i] != keys[j]
    ensures |set i | 0 <= i < n :: keys[i]| == n
  {
    if n > 0 {
      FirstKeys(keys, n - 1);
      assert (set i | 0 <= i < n :: keys[i]) == (set i | 0 <= i < n - 1 :: keys[i]) + {keys[n - 1]};
    }
  }

  // ----- what each series shows -----

  lemma {:induction false} CumulativeBumped(buckets: seq<nat>, b: nat, n: nat)
    requires n <= |buckets|
    ensures Cumulative(Bumped(buckets, b), n) == Cumulative(buckets, n) + AsCount(b < n)
  {
    if n > 0 {
      CumulativeBumped(buckets, b, n - 1);
    }
  }

  lemma {:induction false} CumulativeNothing(n: nat)
    requires n <= |LADDER|
    ensures Cumulative(NoStats().buckets, n) == 0
  {
    if n > 0 {
      CumulativeNothing(n - 1);
    }
  }

  lemma LadderRises(i: nat, j: nat)
    requires i <= j < |LADDER|
    ensures LADDER[i] <= LADDER[j]
  {
  }

  /** A duration is counted up to a bound exactly when it does not exceed it. */
  lemma BucketBound(d: int, i: nat)
    requires i < |LADDER|
    ensures BucketFrom(d, 0) < i + 1 <==> d <= LADDER[i]
  {
    var b := BucketFrom(d, 0);
    if b <= i {
      LadderRises(b, i);
    }
  }

  /** The numbers of a series are those of its calls. */
  ghost predicate Tallies(s: Stats, h: seq<Call>, key: RouteKey) {
    s.requests == CountIf(h, Of(key)) && s.success == CountIf(h, Succeeded(key)) && s.failure == CountIf(h, Failed(key)) &&
    s.durationCount == CountIf(h, Served(key)) && s.durationSum == DurationOf(h, key) && |s.buckets| == |LADDER| &&
    forall i | 0 <= i < |LADDER| :: Cumulative(s.buckets, i + 1) == CountIf(h, Within(key, LADDER[i]))
  }

  lemma CountNext(h: seq<Call>, c: Call, p: Call -> bool)
    ensures CountIf(h + [c], p) == CountIf(h, p) + AsCount(p(c))
  {
    var all := h + [c];
    assert all[..|all| - 1] == h;
  }

  lemma DurationNext(h: seq<Call>, c: Call, key: RouteKey)
    ensures DurationOf(h + [c], key) == DurationOf(h, key) + if c.Record? && KeyOf(c) == Some(key) then c.duration else 0
  {
    var all := h + [c];
    assert all[..|all| - 1] == h;
  }

  lemma CountsNext(h: seq<Call>, c: Call, key: RouteKey)
    ensures CountIf(h + [c], Of(key)) == CountIf(h, Of(key)) + AsCount(KeyOf(c) == Some(key))
    ensures CountIf(h + [c], Succeeded(key)) == CountIf(h, Succeeded(key)) + AsCount(KeyOf(c) == Some(key) && c.status < 400)
    ensures CountIf(h + [c], Failed(key)) == CountIf(h, Failed(key)) + AsCount(KeyOf(c) == Some(key) && c.status >= 400)
    ensures CountIf(h + [c], Served(key)) == CountIf(h, Served(key)) + AsCount(c.Record? && KeyOf(c) == Some(key))
  {
    CountNext(h, c, Of(key));
    CountNext(h, c, Succeeded(key));
    CountNext(h, c, Failed(key));
    CountNext(h, c, Served(key));
  }

  lemma WithinNext(h: seq<Call>, c: Call, key: RouteKey, bound: int)
    ensures CountIf(h + [c], Within(key, bound)) ==
            CountIf(h, Within(key, bound)) + AsCount(c.Record? && KeyOf(c) == Some(key) && c.duration <= bound)
  {
    CountNext(h, c, Within(key, bound));
  }

  /** Another series' call, or a start, leaves a series as it was. */
  lemma TallyOther(s: Stats, h: seq<Call>, c: Call, key: RouteKey)
    requires Tallies(s, h, key) && KeyOf(c) != Some(key)
    ensures Tallies(s, h + [c], key)
  {
    CountsNext(h, c, key);
    DurationNext(h, c, key);
    hide CountIf, KeyOf, DurationOf, Cumulative;
    forall i | 0 <= i < |LADDER|
      ensures Cumulative(s.buckets, i + 1) == CountIf(h + [c], Within(key, LADDER[i]))
    {
      WithinNext(h, c, key, LADDER[i]);
    }
  }

  function After(s: Stats, c: Call): Stats
    requires !c.RecordStart?
  {
    if c.Record? then Timed(Counted(s, c.status), c.duration) else Counted(s, c.status)
  }

  lemma TallyCall(s: Stats, h: seq<Call>, c: Call, key: RouteKey)
    requires Tallies(s, h, key) && KeyOf(c) == Some(key)
    ensures Tallies(After(s, c), h + [c], key)
  {
    assert !c.RecordStart?;
    NumbersNext(s, h, c, key);
    hide CountIf, KeyOf, DurationOf, Cumulative, After, Of, Succeeded, Failed, Served, Within;
    forall i | 0 <= i < |LADDER|
      ensures Cumulative(After(s, c).buckets, i + 1) == CountIf(h + [c], Within(key, LADDER[i]))
    {
      BucketNext(s, h, c, key, i);
    }
  }

  lemma NumbersNext(s: Stats, h: seq<Call>, c: Call, key: RouteKey)
    requires Tallies(s, h, key) && KeyOf(c) == Some(key)
    ensures var r := After(s, c);
            r.requests == CountIf(h + [c], Of(key)) && r.success == CountIf(h + [c], Succeeded(key)) &&
            r.failure == CountIf(h + [c], Failed(key)) && r.durationCount == CountIf(h + [c], Served(key)) &&
            r.durationSum == DurationOf(h + [c], key) && |r.buckets| == |LADDER|
  {
    CountsNext(h, c, key);
    DurationNext(h, c, key);
    assert !c.RecordStart?;
    hide CountIf, KeyOf, DurationOf, Cumulative, BucketFrom, Bumped, Of, Succeeded, Failed, Served, Within;
  }

  lemma BucketNext(s: Stats, h: seq<Call>, c: Call, key: RouteKey, i: nat)
    requires Tallies(s, h, key) && KeyOf(c) == Some(key) && i < |LADDER|
    ensures |After(s, c).buckets| == |LADDER|
    ensures Cumulative(After(s, c).buckets, i + 1) == CountIf(h + [c], Within(key, LADDER[i]))
  {
    WithinNext(h, c, key, LADDER[i]);
    assert !c.RecordStart?;
    hide CountIf, KeyOf, DurationOf, Cumulative, BucketFrom, Bumped, Of, Succeeded, Failed, Served, Within;
    if c.Record? {
      CumulativeBumped(s.buckets, BucketFrom(c.duration, 0), i + 1);
      BucketBound(c.duration, i);
    }
  }

  lemma TallyNothing(h: seq<Call>, key: RouteKey)
    requires key !in Wanted(h)
    ensures Tallies(NoStats(), h, key)
  {
    NotWanted(h, key, {}, 0);
    forall i | 0 <= i < |LADDER|
      ensures Cumulative(NoStats().buckets, i + 1) == CountIf(h, Within(key, LADDER[i]))
    {
      CumulativeNothing(i + 1);
      NotWanted(h, key, {}, LADDER[i]);
    }
  }

  // ----- every run -----

  ghost predicate Agrees(r: Registry, h: seq<Call>, cap: nat) {
    r.routes.Keys == Kept(h, cap) && r.dropped == CountIf(h, Outside(Kept(h, cap))) &&
    forall key | key in r.routes :: Tallies(r.routes[key], h, key)
  }

  lemma {:induction false} ApplyAgrees(r: Registry, h: seq<Call>, c: Call, cap: nat)
    requires Agrees(r, h, cap)
    ensures Agrees(Apply(r, c, cap), h + [c], cap)
  {
    KeptNext(h, c, cap);
    match KeyOf(c)
    case None => StartAgrees(r, h, c, cap);
    case Some(key) =>
      var start := if c.Record? then Finished(r, NormalizeMethod(c.method_)) else r;
      assert start.routes == r.routes && start.dropped == r.dropped && Apply(r, c, cap) == Filed(start, c, key, cap);
      FiledAgrees(start, h, c, key, cap);
  }

  lemma StartAgrees(r: Registry, h: seq<Call>, c: Call, cap: nat)
    requires Agrees(r, h, cap) && KeyOf(c).None? && Kept(h + [c], cap) == Kept(h, cap)
    ensures Agrees(Apply(r, c, cap), h + [c], cap)
  {
    CountNext(h, c, Outside(Kept(h, cap)));
    hide Kept, Tallies, CountIf;
    forall key | key in r.routes
      ensures Tallies(r.routes[key], h + [c], key)
    {
      TallyOther(r.routes[key], h, c, key);
    }
  }

  lemma FiledAgrees(r: Registry, h: seq<Call>, c: Call, key: RouteKey, cap: nat)
    requires Agrees(r, h, cap) && KeyOf(c) == Some(key)
    ensures Agrees(Filed(r, c, key, cap), h + [c], cap)
  {
    KeptNext(h, c, cap);
    var kept, after := Kept(h, cap), Kept(h + [c], cap);
    CountNext(h, c, Outside(after));
    OutsideIs(after, c);
    OldCalls(h, key, kept);
    hide Kept, Wanted, Tallies, CountIf, Counted, Timed, NoStats, KeyOf, Outside;
    assert |r.routes| == |r.routes.Keys|;
    var stats := Admitted(r, key, cap);
    forall other | other in r.routes && other != key
      ensures Tallies(r.routes[other], h + [c], other)
    {
      TallyOther(r.routes[other], h, c, other);
    }
    if stats.Some? {
      TallyCall(stats.value, h, c, key);
    }
  }

  lemma OutsideIs(keys: set<RouteKey>, c: Call)
    ensures Outside(keys)(c) <==> KeyOf(c).Some? && KeyOf(c).value !in keys
  {
  }

  /** A series that is new has no calls yet. */
  lemma OldCalls(h: seq<Call>, key: RouteKey, keys: set<RouteKey>)
    ensures key !in Wanted(h) ==> CountIf(h, Outside(keys + {key})) == CountIf(h, Outside(keys)) && Tallies(NoStats(), h, key)
  {
    if key !in Wanted(h) {
      NotWanted(h, key, keys, 0);
      TallyNothing(h, key);
    }
  }

  /** In every run the families say what the history says: the kept series are the first cap that were asked for,
      and no call of theirs is missing; the dropped observations are exactly the calls of all the others. */
  lemma {:induction false} RunAgrees(h: seq<Call>, cap: nat)
    ensures Agrees(Run(h, cap), h, cap)
  {
    hide Agrees, Apply;
    if h == [] {
      EmptyAgrees(h, cap);
    } else {
      var before := h[..|h| - 1];
      RunAgrees(before, cap);
      assert before + [h[|h| - 1]] == h;
      ApplyAgrees(Run(before, cap), before, h[|h| - 1], cap);
    }
  }

  lemma EmptyAgrees(h: seq<Call>, cap: nat)
    requires h == []
    ensures Agrees(EMPTY, h, cap)
  {
    assert Kept(h, cap) == {};
  }

  // ----- conservation -----

  lemma {:induction false} SuccessAndFailure(h: seq<Call>, key: RouteKey)
    ensures CountIf(h, Of(key)) == CountIf(h, Succeeded(key)) + CountIf(h, Failed(key))
    ensures CountIf(h, Served(key)) <= CountIf(h, Of(key))
  {
    if h != [] {
      SuccessAndFailure(h[..|h| - 1], key);
    }
  }

  function TotalRequests(r: Registry, keys: seq<RouteKey>): nat
    requires forall k | 0 <= k < |keys| :: keys[k] in r.routes
  {
    if keys == [] then 0 else r.routes[keys[0]].requests + TotalRequests(r, keys[1..])
  }

  function SetOf(keys: seq<RouteKey>): set<RouteKey> { set k | k in keys }

  lemma {:induction false} OneSeriesLess(h: seq<Call>, key: RouteKey, keys: set<RouteKey>)
    requires key !in keys
    ensures CountIf(h, Outside(keys)) == CountIf(h, Of(key)) + CountIf(h, Outside(keys + {key}))
  {
    if h != [] {
      OneSeriesLess(h[..|h| - 1], key, keys);
    }
  }

  /** Each series' calls taken off, the rest is what was dropped. */
  lemma {:induction false} Partition(h: seq<Call>, cap: nat, keys: seq<RouteKey>, done: set<RouteKey>)
    requires forall i, j | 0 <= i < j < |keys| :: keys[i] != keys[j]
    requires forall k | 0 <= k < |keys| :: keys[k] !in done && keys[k] in Run(h, cap).routes
    ensures TotalRequests(Run(h, cap), keys) + CountIf(h, Outside(done + SetOf(keys))) == CountIf(h, Outside(done))
    decreases |keys|
  {
    hide Run, CountIf, Kept;
    RunAgrees(h, cap);
    if keys == [] {
      assert done + SetOf(keys) == done;
    } else {
      OneSeriesLess(h, keys[0], done);
      Partition(h, cap, keys[1..], done + {keys[0]});
      assert done + {keys[0]} + SetOf(keys[1..]) == done + SetOf(keys);
    }
  }

  /** Requests over all series and dropped observations add up to the calls; a series' requests to its successes
      and failures; the series stay within the cap. */
  lemma {:induction false} Conservation(h: seq<Call>, cap: nat, keys: seq<RouteKey>)
    requires (forall i, j | 0 <= i < j < |keys| :: keys[i] != keys[j]) && SetOf(keys) == Run(h, cap).routes.Keys
    ensures TotalRequests(Run(h, cap), keys) + Run(h, cap).dropped == CountIf(h, Outside({}))
    ensures |Run(h, cap).routes| <= cap
    ensures forall key | key in Run(h, cap).routes ::
              var s := Run(h, cap).routes[key]; s.requests == s.success + s.failure && s.durationCount <= s.requests
  {
    hide Run, CountIf, Kept;
    RunAgrees(h, cap);
    KeptSize(h, cap);
    assert |Run(h, cap).routes| == |Run(h, cap).routes.Keys|;
    forall key | key in Run(h, cap).routes
      ensures var s := Run(h, cap).routes[key]; s.requests == s.success + s.failure && s.durationCount <= s.requests
    {
      SuccessAndFailure(h, key);
    }
    assert forall k | 0 <= k < |keys| :: keys[k] in SetOf(keys);
    Partition(h, cap, keys, {});
    assert {} + SetOf(keys) == SetOf(keys);
  }

  // ----- the gauge -----

  /** The gauge after one more call. */
  lemma LevelNext(h: seq<Call>, c: Call, cap: nat, m: string)
    ensures var before, after := Level(Run(h, cap), m), Level(Run(h + [c], cap), m);
            after == if c.RecordStart? && NormalizeMethod(c.method_) == m then before + 1
                     else if c.Record? && NormalizeMethod(c.method_) == m && before > 0 then before - 1
                     else before
  {
    hide NormalizeMethod, Admitted, Counted, Timed;
    var all := h + [c];
    assert all[..|all| - 1] == h;
  }

  lemma NetNext(h: seq<Call>, c: Call, m: string)
    ensures Net(h + [c], m) == Net(h, m) + AsCount(c.RecordStart? && NormalizeMethod(c.method_) == m) -
                               AsCount(c.Record? && NormalizeMethod(c.method_) == m)
  {
    CountNext(h, c, Started(m));
    CountNext(h, c, Ended(m));
  }

  /** The gauge is the most that started and did not end, over every stretch up to now. */
  lemma {:induction false} LevelIsHighest(h: seq<Call>, cap: nat, m: string)
    ensures forall k | 0 <= k <= |h| :: Net(h[k..], m) <= Level(Run(h, cap), m)
    ensures exists k :: 0 <= k <= |h| && Net(h[k..], m) == Level(Run(h, cap), m)
  {
    hide Run, Net, Level, NormalizeMethod;
    NetNothing(h[|h|..], m);
    if h == [] {
      LevelNothing(cap, m);
      assert forall k | 0 <= k <= |h| :: h[k..] == [];
      assert Net(h[0..], m) == 0;
    } else {
      var n := |h| - 1;
      var before, c := h[..n], h[n];
      assert before + [c] == h;
      LevelIsHighest(before, cap, m);
      LevelNext(before, c, cap, m);
      forall k | 0 <= k <= n
        ensures h[k..] == before[k..] + [c]
        ensures Net(h[k..], m) == Net(before[k..] + [c], m)
      {
      }
      forall k | 0 <= k <= |h|
        ensures Net(h[k..], m) <= Level(Run(h, cap), m)
      {
        if k <= n {
          NetNext(before[k..], c, m);
        }
      }
      var top :| 0 <= top <= |before| && Net(before[top..], m) == Level(Run(before, cap), m);
      NetNext(before[top..], c, m);
      if Net(h[top..], m) != Level(Run(h, cap), m) {
        assert Net(h[|h|..], m) == 0;
      }
    }
  }

  lemma NetNothing(h: seq<Call>, m: string)
    requires h == []
    ensures Net(h, m) == 0
  {
  }

  lemma LevelNothing(cap: nat, m: string)
    ensures Level(Run([], cap), m) == 0
  {
  }

  lemma {:induction false} CountBoth(a: seq<Call>, b: seq<Call>, p: Call -> bool)
    ensures CountIf(a + b, p) == CountIf(a, p) + CountIf(b, p)
  {
    if b == [] {
      assert a + b == a;
    } else {
      var n := |b| - 1;
      assert (a + b)[..|a| + n] == a + b[..n];
      CountBoth(a, b[..n], p);
    }
  }

  /** The gauge is starts less ends exactly when no end ever came without its start. */
  lemma {:induction false} LevelIsNet(h: seq<Call>, cap: nat, m: string)
    ensures Level(Run(h, cap), m) == Net(h, m) <==> forall k | 0 <= k <= |h| :: Net(h[..k], m) >= 0
  {
    hide Run, CountIf, Level, Started, Ended;
    LevelIsHighest(h, cap, m);
    forall k | 0 <= k <= |h|
      ensures Net(h[..k], m) + Net(h[k..], m) == Net(h, m)
    {
      assert h[..k] + h[k..] == h;
      CountBoth(h[..k], h[k..], Started(m));
      CountBoth(h[..k], h[k..], Ended(m));
    }
    assert h[0..] == h;
  }
}

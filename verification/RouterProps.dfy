/** Dispatch finds the one most specific route, whatever the order of registration. */
module RouterProps {
  import opened Common
  import opened UriSpec
  import opened UriProps
  import opened RouterSpec

  // ----- patterns -----

  lemma {:induction false} ParsedSegmentsLegal(rest: Bytes)
    requires ParseSegments(rest).Pattern?
    ensures Legal(ParseSegments(rest).segments)
    decreases |rest|
  {
    hide Find;
    var slash := Find(rest, [SLASH]);
    if slash.Some? {
      ParsedSegmentsLegal(rest[slash.value + 1..]);
    }
  }

  lemma ParsedLegal(pattern: Bytes)
    requires ParsePattern(pattern).Pattern?
    ensures Legal(ParsePattern(pattern).segments)
  {
    hide Find;
    if pattern[1..] != [] {
      ParsedSegmentsLegal(pattern[1..]);
    }
  }

  // ----- ranking is a strict total order on the routes that match a target -----

  predicate SameRanks(a: seq<Segment>, b: seq<Segment>) {
    |a| == |b| && forall k | 0 <= k < |a| :: a[k].kind == b[k].kind
  }

  lemma {:induction false} Asymmetric(a: seq<Segment>, b: seq<Segment>)
    ensures MoreSpecific(a, b) ==> !MoreSpecific(b, a)
    ensures !MoreSpecific(a, b) && !MoreSpecific(b, a) <==> SameRanks(a, b)
    decreases |a|
  {
    if a != [] && b != [] {
      if a[0].kind == b[0].kind {
        Asymmetric(a[1..], b[1..]);
        RanksFirst(a, b);
      }
    }
  }

  lemma RanksFirst(a: seq<Segment>, b: seq<Segment>)
    requires a != [] && b != [] && a[0].kind == b[0].kind
    ensures SameRanks(a, b) <==> SameRanks(a[1..], b[1..])
  {
    if SameRanks(a[1..], b[1..]) {
      forall k | 0 <= k < |a|
        ensures a[k].kind == b[k].kind
      {
        if k > 0 {
          assert a[1..][k - 1].kind == b[1..][k - 1].kind;
        }
      }
    }
  }

  lemma {:induction false} Transitive(a: seq<Segment>, b: seq<Segment>, c: seq<Segment>)
    requires MoreSpecific(a, b) && MoreSpecific(b, c)
    ensures MoreSpecific(a, c)
    decreases |b|
  {
    if a != [] && b != [] && c != [] && a[0].kind == b[0].kind == c[0].kind {
      Transitive(a[1..], b[1..], c[1..]);
    }
  }

  /** Where a pattern matches, its literals are the target's segments. */
  lemma {:induction false} LiteralsAgree(p: seq<Segment>, s: seq<Bytes>, k: nat)
    requires |p| <= |s| && MatchRest(p, s).Some? && Legal(p) && k < |p| && p[k].kind.Literal?
    ensures s[k] == p[k].text
    decreases |p|
  {
    if k > 0 {
      LegalRest(p);
      LiteralsAgree(p[1..], s[1..], k - 1);
    }
  }

  lemma LegalRest(p: seq<Segment>)
    requires p != [] && Legal(p)
    ensures Legal(p[1..]) && (|p| > 1 ==> !p[0].kind.Greedy?)
  {
  }

  /** Two routes of one method that match the same target are ranked. */
  lemma {:induction false} Ranked(a: Entry, b: Entry, s: seq<Bytes>)
    requires Legal(a.segments) && Legal(b.segments) && Matches(a, s) && Matches(b, s) && !SameShape(a.segments, b.segments)
    ensures MoreSpecific(a.segments, b.segments) <==> !MoreSpecific(b.segments, a.segments)
  {
    Asymmetric(a.segments, b.segments);
    if SameRanks(a.segments, b.segments) {
      var k :| 0 <= k < |a.segments| && a.segments[k].kind.Literal? && a.segments[k].text != b.segments[k].text;
      LiteralsAgree(a.segments, s, k);
      LiteralsAgree(b.segments, s, k);
      assert false;
    }
  }

  // ----- a bucket -----

  predicate Admitted(entries: seq<Entry>) {
    (forall k | 0 <= k < |entries| :: Legal(entries[k].segments)) &&
    forall j, k | 0 <= j < k < |entries| :: !SameShape(entries[j].segments, entries[k].segments)
  }

  /** e matches and beats every other match. */
  predicate Winner(entries: seq<Entry>, s: seq<Bytes>, e: Entry) {
    e in entries && Matches(e, s) && forall f | f in entries && Matches(f, s) && f != e :: MoreSpecific(e.segments, f.segments)
  }

  lemma {:induction false} ScanFinds(entries: seq<Entry>, s: seq<Bytes>, k: nat, best: Option<Entry>)
    requires Admitted(entries) && k <= |entries|
    requires match best case None => !AnyMatch(entries[..k], s) case Some(e) => Winner(entries[..k], s, e)
    ensures match Best(entries[k..], s, best) case None => !AnyMatch(entries, s) case Some(e) => Winner(entries, s, e)
    decreases |entries| - k
  {
    hide MatchSegments, MoreSpecific;
    if k == |entries| {
      assert entries[..k] == entries;
    } else {
      var e := entries[k];
      var next := if Matches(e, s) && (best.None? || MoreSpecific(e.segments, best.value.segments)) then Some(e) else best;
      ScanStep(entries, s, k, best, next);
      assert entries[k..][1..] == entries[k + 1..];
      ScanFinds(entries, s, k + 1, next);
    }
  }

  lemma ScanStep(entries: seq<Entry>, s: seq<Bytes>, k: nat, best: Option<Entry>, next: Option<Entry>)
    requires Admitted(entries) && k < |entries|
    requires match best case None => !AnyMatch(entries[..k], s) case Some(e) => Winner(entries[..k], s, e)
    requires next == if Matches(entries[k], s) && (best.None? || MoreSpecific(entries[k].segments, best.value.segments))
                     then Some(entries[k]) else best
    ensures match next case None => !AnyMatch(entries[..k + 1], s) case Some(e) => Winner(entries[..k + 1], s, e)
  {
    hide MatchSegments, MoreSpecific, SameShape;
    var e, before := entries[k], entries[..k];
    assert entries[..k + 1] == before + [e];
    if best.None? {
      forall f | f in before
        ensures !Matches(f, s)
      {
      }
    } else if Matches(e, s) {
      var w := best.value;
      var j :| 0 <= j < k && entries[j] == w;
      Ranked(w, e, s);
      if next == Some(e) {
        forall f | f in before && Matches(f, s)
          ensures MoreSpecific(e.segments, f.segments)
        {
          if f != w {
            Transitive(e.segments, w.segments, f.segments);
          }
        }
      }
    }
  }

  lemma {:induction false} BestWins(entries: seq<Entry>, s: seq<Bytes>)
    requires Admitted(entries)
    ensures match Best(entries, s, None) case None => !AnyMatch(entries, s) case Some(e) => Winner(entries, s, e)
  {
    assert entries[0..] == entries && entries[..0] == [];
    ScanFinds(entries, s, 0, None);
  }

  lemma OneWinner(a: seq<Entry>, b: seq<Entry>, s: seq<Bytes>, e: Entry, f: Entry)
    requires (forall x :: x in a <==> x in b) && Winner(a, s, e) && Winner(b, s, f)
    ensures e == f
  {
    if e != f {
      Asymmetric(e.segments, f.segments);
    }
  }

  /** Dispatch within a bucket depends on its entries and not on their order. */
  lemma {:induction false} BestOfSame(a: seq<Entry>, b: seq<Entry>, s: seq<Bytes>)
    requires Admitted(a) && Admitted(b) && forall x :: x in a <==> x in b
    ensures Best(a, s, None) == Best(b, s, None) && (AnyMatch(a, s) <==> AnyMatch(b, s))
  {
    hide Matches, Best;
    SameMatches(a, b, s);
    BestWins(a, s);
    BestWins(b, s);
    if Best(a, s, None).Some? && Best(b, s, None).Some? {
      OneWinner(a, b, s, Best(a, s, None).value, Best(b, s, None).value);
    }
  }

  lemma SameMatches(a: seq<Entry>, b: seq<Entry>, s: seq<Bytes>)
    requires forall x :: x in a <==> x in b
    ensures AnyMatch(a, s) <==> AnyMatch(b, s)
  {
    hide Matches;
    if AnyMatch(a, s) {
      var k :| 0 <= k < |a| && Matches(a[k], s);
      assert a[k] in b;
    }
    if AnyMatch(b, s) {
      var k :| 0 <= k < |b| && Matches(b[k], s);
      assert b[k] in a;
    }
  }

  // ----- the order of methods -----

  lemma {:induction false} LessTotal(a: Bytes, b: Bytes)
    ensures !Less(a, a) && (Less(a, b) ==> !Less(b, a)) && (a == b || Less(a, b) || Less(b, a))
    decreases |a|
  {
    if a != [] {
      LessTotal(a[1..], if b == [] then a[1..] else b[1..]);
      if b != [] && a[0] == b[0] {
        assert a[1..] == b[1..] ==> a == [a[0]] + a[1..] == b;
      }
    }
  }

  lemma {:induction false} LessTransitive(a: Bytes, b: Bytes, c: Bytes)
    requires Less(a, b) && Less(b, c)
    ensures Less(a, c)
    decreases |a|
  {
    if a != [] && b != [] && a[0] == b[0] && c != [] && b[0] == c[0] {
      LessTransitive(a[1..], b[1..], c[1..]);
    }
  }

  ghost predicate Sorted(routes: seq<Bucket>) {
    forall j, k | 0 <= j < k < |routes| :: Less(routes[j].method_, routes[k].method_)
  }

  ghost predicate WellKept(routes: seq<Bucket>) {
    Sorted(routes) && forall k | 0 <= k < |routes| :: Admitted(routes[k].entries) && routes[k].entries != []
  }

  lemma {:induction false} EntriesAt(routes: seq<Bucket>, k: nat)
    requires Sorted(routes) && k < |routes|
    ensures EntriesOf(routes, routes[k].method_) == routes[k].entries
  {
    if k > 0 {
      LessTotal(routes[0].method_, routes[k].method_);
      EntriesAt(routes[1..], k - 1);
    }
  }

  lemma {:induction false} EntriesFound(routes: seq<Bucket>, m: Bytes)
    ensures EntriesOf(routes, m) == [] || exists k :: 0 <= k < |routes| && routes[k].method_ == m && routes[k].entries == EntriesOf(routes, m)
  {
    if routes != [] && routes[0].method_ != m {
      EntriesFound(routes[1..], m);
      if EntriesOf(routes[1..], m) != [] {
        var k :| 0 <= k < |routes[1..]| && routes[1..][k].method_ == m && routes[1..][k].entries == EntriesOf(routes[1..], m);
        assert routes[k + 1] == routes[1..][k];
      }
    }
  }

  lemma EntriesAdmitted(routes: seq<Bucket>, m: Bytes)
    requires WellKept(routes)
    ensures Admitted(EntriesOf(routes, m))
  {
    hide SameShape;
    EntriesFound(routes, m);
  }

  /** Putting an entry in changes the bucket of its method and no other. */
  lemma {:induction false} PutEntries(routes: seq<Bucket>, m: Bytes, e: Entry, other: Bytes)
    requires Sorted(routes)
    ensures EntriesOf(Put(routes, m, e), other) == if other == m then EntriesOf(routes, m) + [e] else EntriesOf(routes, other)
  {
    if routes == [] {
    } else if Less(m, routes[0].method_) {
      NotThere(routes, m);
    } else if routes[0].method_ != m {
      PutEntries(routes[1..], m, e, other);
    }
  }

  lemma {:induction false} NotThere(routes: seq<Bucket>, m: Bytes)
    requires Sorted(routes) && routes != [] && Less(m, routes[0].method_)
    ensures EntriesOf(routes, m) == []
  {
    LessTotal(m, routes[0].method_);
    if |routes| > 1 {
      LessTransitive(m, routes[0].method_, routes[1].method_);
      NotThere(routes[1..], m);
    }
  }

  /** A put keeps the methods in order; the first is the old first or the new one. */
  lemma {:induction false} PutSorted(routes: seq<Bucket>, m: Bytes, e: Entry)
    requires Sorted(routes)
    ensures var r := Put(routes, m, e);
            Sorted(r) && r != [] && (r[0].method_ == m || (routes != [] && r[0].method_ == routes[0].method_))
    decreases |routes|
  {
    var r := Put(routes, m, e);
    if routes == [] {
    } else if Less(m, routes[0].method_) {
      InFront(Bucket(m, [e]), routes);
    } else if routes[0].method_ == m {
      assert forall k | 1 <= k < |r| :: r[k] == routes[k];
    } else {
      PutSorted(routes[1..], m, e);
      LessTotal(m, routes[0].method_);
      InFront(routes[0], Put(routes[1..], m, e));
    }
  }

  lemma InFront(b: Bucket, routes: seq<Bucket>)
    requires Sorted(routes) && (routes != [] ==> Less(b.method_, routes[0].method_))
    ensures Sorted([b] + routes)
  {
    var r := [b] + routes;
    forall j, k | 0 <= j < k < |r|
      ensures Less(r[j].method_, r[k].method_)
    {
      if j > 0 {
        assert Less(routes[j - 1].method_, routes[k - 1].method_);
      } else if k > 1 {
        LessTransitive(b.method_, routes[0].method_, routes[k - 1].method_);
      }
    }
  }

  lemma {:induction false} PutNotEmpty(routes: seq<Bucket>, m: Bytes, e: Entry)
    requires forall k | 0 <= k < |routes| :: routes[k].entries != []
    ensures forall k | 0 <= k < |Put(routes, m, e)| :: Put(routes, m, e)[k].entries != []
    decreases |routes|
  {
    if routes != [] && !Less(m, routes[0].method_) && routes[0].method_ != m {
      PutNotEmpty(routes[1..], m, e);
    }
  }

  /** Add keeps the routes in order and admits no two of one shape. */
  lemma {:induction false} AddKeepsOk(routes: seq<Bucket>, r: Registration)
    requires WellKept(routes) && Add(routes, r).Added?
    ensures WellKept(Add(routes, r).routes)
  {
    hide SameShape, ParsePattern;
    var segments := ParsePattern(r.pattern).segments;
    var e := Entry(segments, r.handler);
    var after := Put(routes, r.method_, e);
    ParsedLegal(r.pattern);
    PutSorted(routes, r.method_, e);
    PutNotEmpty(routes, r.method_, e);
    EntriesAdmitted(routes, r.method_);
    var mine := EntriesOf(routes, r.method_);
    assert Admitted(mine + [e]);
    forall k | 0 <= k < |after|
      ensures Admitted(after[k].entries) && after[k].entries != []
    {
      EntriesAt(after, k);
      PutEntries(routes, r.method_, e, after[k].method_);
      EntriesAdmitted(routes, after[k].method_);
    }
  }

  // ----- many registrations -----

  function AddAll(routes: seq<Bucket>, rs: seq<Registration>): Option<seq<Bucket>>
    decreases |rs|
  {
    if rs == [] then Some(routes)
    else
      match Add(routes, rs[0])
      case Added(after) => AddAll(after, rs[1..])
      case _ => None
  }

  function EntryOf(r: Registration): (e: Option<Entry>) {
    match ParsePattern(r.pattern)
    case Pattern(segments) => Some(Entry(segments, r.handler))
    case Refused(_) => None
  }

  /** The registrations of one method, in order. */
  function EntriesFrom(rs: seq<Registration>, m: Bytes): seq<Entry> {
    if rs == [] then []
    else (if rs[0].method_ == m && EntryOf(rs[0]).Some? then [EntryOf(rs[0]).value] else []) + EntriesFrom(rs[1..], m)
  }

  predicate Clash(a: Registration, b: Registration) {
    a.method_ == b.method_ && EntryOf(a).Some? && EntryOf(b).Some? && SameShape(EntryOf(a).value.segments, EntryOf(b).value.segments)
  }

  /** Every pattern is accepted, and no two of one method have one shape. */
  predicate Admissible(rs: seq<Registration>) {
    (forall k | 0 <= k < |rs| :: EntryOf(rs[k]).Some?) && forall j, k | 0 <= j < k < |rs| :: !Clash(rs[j], rs[k])
  }

  predicate NoClash(routes: seq<Bucket>, r: Registration) {
    EntryOf(r).Some? ==> !Conflicts(EntriesOf(routes, r.method_), EntryOf(r).value.segments)
  }

  lemma {:induction false} AddsSucceed(routes: seq<Bucket>, rs: seq<Registration>)
    requires WellKept(routes)
    ensures AddAll(routes, rs).Some? <==> Admissible(rs) && forall k | 0 <= k < |rs| :: NoClash(routes, rs[k])
    decreases |rs|
  {
    hide ParsePattern, Put, SameShape, WellKept, EntriesOf, Clash;
    if rs != [] {
      if Add(routes, rs[0]).Added? {
        AddKeepsOk(routes, rs[0]);
        AddsSucceed(Add(routes, rs[0]).routes, rs[1..]);
        Clashes(routes, rs);
      } else {
        assert EntryOf(rs[0]).None? || !NoClash(routes, rs[0]);
      }
    }
  }

  lemma {:induction false} AddsCollect(routes: seq<Bucket>, rs: seq<Registration>, m: Bytes)
    requires WellKept(routes) && AddAll(routes, rs).Some?
    ensures WellKept(AddAll(routes, rs).value) && EntriesOf(AddAll(routes, rs).value, m) == EntriesOf(routes, m) + EntriesFrom(rs, m)
    decreases |rs|
  {
    hide Add, EntryOf, Put, WellKept, EntriesOf;
    if rs == [] {
      assert EntriesOf(routes, m) + [] == EntriesOf(routes, m);
    } else {
      var r, before := rs[0], EntriesOf(routes, m);
      AddedPut(routes, r);
      AddKeepsOk(routes, r);
      AddsCollect(Add(routes, r).routes, rs[1..], m);
      SortedOf(routes);
      PutEntries(routes, r.method_, EntryOf(r).value, m);
      var first, rest := if r.method_ == m then [EntryOf(r).value] else [], EntriesFrom(rs[1..], m);
      assert before + first + rest == before + (first + rest) && before + [] == before;
    }
  }

  lemma AddedPut(routes: seq<Bucket>, r: Registration)
    requires Add(routes, r).Added?
    ensures EntryOf(r).Some? && Add(routes, r).routes == Put(routes, r.method_, EntryOf(r).value)
  {
    hide ParsePattern, Conflicts, Put;
  }

  lemma SortedOf(routes: seq<Bucket>)
    requires WellKept(routes)
    ensures Sorted(routes)
  {
  }

  /** What clashes after the first registration clashed before it, or with it. */
  lemma Clashes(routes: seq<Bucket>, rs: seq<Registration>)
    requires WellKept(routes) && rs != [] && Add(routes, rs[0]).Added?
    ensures var after := Add(routes, rs[0]).routes;
            (Admissible(rs[1..]) && forall k | 0 <= k < |rs[1..]| :: NoClash(after, rs[1..][k])) <==>
            (Admissible(rs) && forall k | 0 <= k < |rs| :: NoClash(routes, rs[k]))
  {
    hide ParsePattern, Put, SameShape, WellKept, EntriesOf;
    var r, after, rest := rs[0], Add(routes, rs[0]).routes, rs[1..];
    SortedOf(routes);
    assert EntryOf(r).Some? && NoClash(routes, r);
    forall k | 0 <= k < |rest|
      ensures NoClash(after, rest[k]) <==> NoClash(routes, rest[k]) && !Clash(r, rest[k])
      ensures rest[k] == rs[k + 1]
    {
      PutEntries(routes, r.method_, EntryOf(r).value, rest[k].method_);
      if EntryOf(rest[k]).Some? && r.method_ == rest[k].method_ {
        ConflictsMore(EntriesOf(routes, r.method_), EntryOf(r).value, EntryOf(rest[k]).value.segments);
      }
    }
    if Admissible(rest) && forall k | 0 <= k < |rest| :: NoClash(after, rest[k]) {
      forall j, k | 0 <= j < k < |rs|
        ensures !Clash(rs[j], rs[k])
      {
        assert if j == 0 then rs[k] == rest[k - 1] else rs[j] == rest[j - 1] && rs[k] == rest[k - 1];
      }
      forall k | 0 <= k < |rs|
        ensures EntryOf(rs[k]).Some? && NoClash(routes, rs[k])
      {
        assert k > 0 ==> rs[k] == rest[k - 1];
      }
    }
    if Admissible(rs) && forall k | 0 <= k < |rs| :: NoClash(routes, rs[k]) {
      forall k | 0 <= k < |rest|
        ensures NoClash(after, rest[k])
      {
        assert !Clash(rs[0], rs[k + 1]);
      }
    }
  }

  lemma ConflictsMore(entries: seq<Entry>, e: Entry, segments: seq<Segment>)
    ensures Conflicts(entries + [e], segments) <==> Conflicts(entries, segments) || SameShape(e.segments, segments)
  {
    hide SameShape;
    var more := entries + [e];
    if Conflicts(entries, segments) {
      var k :| 0 <= k < |entries| && SameShape(entries[k].segments, segments);
      assert more[k] == entries[k];
    }
    assert more[|entries|] == e;
    if Conflicts(more, segments) {
      var k :| 0 <= k < |more| && SameShape(more[k].segments, segments);
      assert k < |entries| ==> more[k] == entries[k];
    }
  }

  lemma {:induction false} FromSome(rs: seq<Registration>, m: Bytes, e: Entry)
    ensures e in EntriesFrom(rs, m) <==> exists r :: r in rs && r.method_ == m && EntryOf(r) == Some(e)
  {
    hide EntryOf;
    if rs != [] {
      FromSome(rs[1..], m, e);
      assert forall r :: r in rs <==> r == rs[0] || r in rs[1..];
    }
  }

  // ----- any order of registration -----

  lemma {:induction false} TwoPlaces<T>(s: seq<T>, x: T)
    requires multiset(s)[x] >= 2
    ensures exists j, k :: 0 <= j < k < |s| && s[j] == x && s[k] == x
  {
    assert s == [s[0]] + s[1..];
    if s[0] == x {
      assert x in multiset(s[1..]);
      var k :| 0 <= k < |s[1..]| && s[1..][k] == x;
      assert s[k + 1] == x;
    } else {
      TwoPlaces(s[1..], x);
      var j, k :| 0 <= j < k < |s[1..]| && s[1..][j] == x && s[1..][k] == x;
      assert s[j + 1] == x && s[k + 1] == x;
    }
  }

  lemma AtTwoPlaces<T>(s: seq<T>, j: nat, k: nat)
    requires j < k < |s| && s[j] == s[k]
    ensures multiset(s)[s[j]] >= 2
  {
    var rest := s[j + 1..];
    assert s == s[..j] + [s[j]] + rest && s[k] == rest[k - j - 1];
    assert multiset(s) == multiset(s[..j]) + multiset{s[j]} + multiset(rest);
    assert s[k] in multiset(rest);
  }

  lemma {:induction false} SameAdmissible(a: seq<Registration>, b: seq<Registration>)
    requires multiset(a) == multiset(b) && Admissible(a)
    ensures Admissible(b)
  {
    hide EntryOf;
    forall k | 0 <= k < |b|
      ensures EntryOf(b[k]).Some?
    {
      assert b[k] in multiset(b) && b[k] in a;
    }
    forall j, k | 0 <= j < k < |b|
      ensures !Clash(b[j], b[k])
    {
      assert b[j] in multiset(b) && b[k] in multiset(b);
      if b[j] == b[k] {
        AtTwoPlaces(b, j, k);
        TwoPlaces(a, b[j]);
      } else {
        var j2 :| 0 <= j2 < |a| && a[j2] == b[j];
        var k2 :| 0 <= k2 < |a| && a[k2] == b[k];
        assert !Clash(a[if j2 < k2 then j2 else k2], a[if j2 < k2 then k2 else j2]);
      }
    }
  }

  /** Entries of one registration set, whatever its order. */
  lemma SameEntries(a: seq<Registration>, b: seq<Registration>, m: Bytes)
    requires multiset(a) == multiset(b)
    ensures forall e :: e in EntriesFrom(a, m) <==> e in EntriesFrom(b, m)
  {
    assert forall r :: r in a <==> r in multiset(a);
    assert forall r :: r in b <==> r in multiset(b);
    forall e: Entry
      ensures e in EntriesFrom(a, m) <==> e in EntriesFrom(b, m)
    {
      FromSome(a, m, e);
      FromSome(b, m, e);
    }
  }

  ghost predicate Ascending(ms: seq<Bytes>) {
    forall j, k | 0 <= j < k < |ms| :: Less(ms[j], ms[k])
  }

  lemma Inhabited(s: seq<Bytes>)
    requires s != []
    ensures exists x :: x in s
  {
    assert s[0] in s;
  }

  lemma NotAgain(ms: seq<Bytes>)
    requires Ascending(ms) && ms != []
    ensures ms[0] !in ms[1..]
  {
    LessTotal(ms[0], ms[0]);
    forall k | 1 <= k < |ms|
      ensures ms[k] != ms[0]
    {
      assert Less(ms[0], ms[k]);
    }
  }

  lemma {:induction false} SortedSame(a: seq<Bytes>, b: seq<Bytes>)
    requires Ascending(a) && Ascending(b) && forall x :: x in a <==> x in b
    ensures a == b
  {
    if a == [] {
      if b != [] {
        Inhabited(b);
      }
    } else {
      assert a[0] in b;
      var k :| 0 <= k < |b| && b[k] == a[0];
      assert b[0] in a;
      var j :| 0 <= j < |a| && a[j] == b[0];
      LessTotal(a[0], b[0]);
      assert a[0] == b[0];
      forall x
        ensures x in a[1..] <==> x in b[1..]
      {
        NotAgain(a);
        NotAgain(b);
        assert x in a <==> x == a[0] || x in a[1..];
        assert x in b <==> x == b[0] || x in b[1..];
      }
      SortedSame(a[1..], b[1..]);
      assert a == [a[0]] + a[1..] && b == [b[0]] + b[1..];
    }
  }

  lemma {:induction false} OthersOf(routes: seq<Bucket>, m: Bytes, s: seq<Bytes>)
    requires Sorted(routes)
    ensures Ascending(Others(routes, m, s))
    ensures forall x :: x in Others(routes, m, s) ==> exists k :: 0 <= k < |routes| && routes[k].method_ == x
    ensures forall x :: x in Others(routes, m, s) <==> x != m && AnyMatch(EntriesOf(routes, x), s)
  {
    hide AnyMatch;
    NoneMatches(s);
    if routes != [] {
      var first, rest := routes[0].method_, Others(routes[1..], m, s);
      OthersOf(routes[1..], m, s);
      forall x | x in rest
        ensures Less(first, x) && exists k :: 0 <= k < |routes| && routes[k].method_ == x
      {
        var k :| 0 <= k < |routes[1..]| && routes[1..][k].method_ == x;
        assert routes[k + 1].method_ == x;
      }
      LessTotal(first, first);
      assert routes[0].method_ == first;
    }
  }

  lemma NoneMatches(s: seq<Bytes>)
    ensures !AnyMatch([], s)
  {
  }

  lemma {:induction false} SameAnswers(a: seq<Bucket>, b: seq<Bucket>, m: Bytes, s: seq<Bytes>, query: seq<Parameter>)
    requires WellKept(a) && WellKept(b) && forall x, e :: e in EntriesOf(a, x) <==> e in EntriesOf(b, x)
    ensures Answered(a, m, s, query) == Answered(b, m, s, query)
  {
    hide EntriesOf, Others, Best, AnyMatch;
    forall x: Bytes
      ensures Best(EntriesOf(a, x), s, None) == Best(EntriesOf(b, x), s, None)
      ensures AnyMatch(EntriesOf(a, x), s) <==> AnyMatch(EntriesOf(b, x), s)
    {
      EntriesAdmitted(a, x);
      EntriesAdmitted(b, x);
      BestOfSame(EntriesOf(a, x), EntriesOf(b, x), s);
    }
    OthersOf(a, m, s);
    OthersOf(b, m, s);
    SortedSame(Others(a, m, s), Others(b, m, s));
  }

  /** In whatever order routes are registered, they are all admitted or not, and every request is answered alike. */
  lemma {:induction false} OrderDoesNotMatter(a: seq<Registration>, b: seq<Registration>, method_: Bytes, target: Bytes)
    requires multiset(a) == multiset(b)
    ensures AddAll([], a).Some? <==> AddAll([], b).Some?
    ensures AddAll([], a).Some? <==> Admissible(a)
    ensures AddAll([], a).Some? ==> Route(AddAll([], a).value, method_, target) == Route(AddAll([], b).value, method_, target)
  {
    hide AddAll, Admissible, EntriesFrom, Answered, ParseTarget, WellKept;
    NothingYet(a);
    NothingYet(b);
    AddsSucceed([], a);
    AddsSucceed([], b);
    if Admissible(a) {
      SameAdmissible(a, b);
    }
    if Admissible(b) {
      SameAdmissible(b, a);
    }
    if AddAll([], a).Some? && ParseTarget(target).Ok? {
      AddsCollect([], a, method_);
      AddsCollect([], b, method_);
      forall m: Bytes, e: Entry
        ensures e in EntriesOf(AddAll([], a).value, m) <==> e in EntriesOf(AddAll([], b).value, m)
      {
        AddsCollect([], a, m);
        AddsCollect([], b, m);
        SameEntries(a, b, m);
      }
      var t := ParseTarget(target).value;
      SameAnswers(AddAll([], a).value, AddAll([], b).value, method_, Normalized(t.segments), t.query);
    }
  }

  lemma NothingYet(rs: seq<Registration>)
    ensures WellKept([]) && forall m :: EntriesOf([], m) == []
    ensures forall k | 0 <= k < |rs| :: NoClash([], rs[k])
  {
  }

  // ----- which answer -----

  function Joined(ms: seq<Bytes>): Bytes {
    if ms == [] then [] else if |ms| == 1 then ms[0] else ms[0] + COMMA + Joined(ms[1..])
  }

  lemma {:induction false} AllowJoined(ms: seq<Bytes>, allow: Bytes)
    requires forall k | 0 <= k < |ms| :: ms[k] != []
    ensures AllowText(ms, allow) == if ms == [] then allow else if allow == [] then Joined(ms) else allow + COMMA + Joined(ms)
    ensures Joined(ms) == [] <==> ms == []
    decreases |ms|
  {
    if ms != [] {
      var start, rest := if allow == [] then [] else allow + COMMA, Joined(ms[1..]);
      AllowJoined(ms[1..], start + ms[0]);
      JoinedFirst(ms);
      NoText(ms[0]);
      Rejoin(start, ms[0], COMMA + rest);
      Rejoin(start + ms[0], COMMA, rest);
      Rejoin(ms[0], COMMA, rest);
      Rejoin(allow, COMMA, Joined(ms));
    }
  }

  lemma JoinedFirst(ms: seq<Bytes>)
    requires ms != []
    ensures Joined(ms) == if |ms| == 1 then ms[0] else ms[0] + COMMA + Joined(ms[1..])
  {
  }

  lemma Rejoin(a: Bytes, b: Bytes, c: Bytes)
    ensures a + b + c == a + (b + c)
  {
  }

  /** The methods that the allow header can name. */
  function Named(ms: seq<Bytes>): seq<Bytes> {
    if ms != [] && ms[0] == [] then ms[1..] else ms
  }

  lemma {:induction false} AllowOfNamed(ms: seq<Bytes>)
    requires Ascending(ms)
    ensures AllowText(ms, []) == Joined(Named(ms)) && (Joined(Named(ms)) == [] <==> Named(ms) == []) && Ascending(Named(ms))
    ensures forall x :: x in Named(ms) <==> x in ms && x != []
  {
    forall k | 1 <= k < |ms|
      ensures ms[k] != []
    {
      assert Less(ms[0], ms[k]);
    }
    AllowJoined(Named(ms), []);
    if ms != [] && ms[0] == [] {
      NoText(ms[0]);
    }
    assert forall x :: x in ms <==> exists k :: 0 <= k < |ms| && ms[k] == x;
  }

  lemma NoText(m: Bytes)
    ensures [] + m == m
  {
  }

  /** Which of the answers a request gets, and what is in it. A method without a name is never allowed. */
  lemma {:induction false} AnswerIs(routes: seq<Bucket>, m: Bytes, s: seq<Bytes>, query: seq<Parameter>)
    requires WellKept(routes)
    ensures match Answered(routes, m, s, query)
            case Dispatch(handler, labels, q) =>
              q == query && exists e :: Winner(EntriesOf(routes, m), s, e) && e.handler == handler && MatchSegments(e.segments, s) == Some(labels)
            case NotAllowed(allow) =>
              !AnyMatch(EntriesOf(routes, m), s) &&
              exists ms :: ms != [] && Ascending(ms) && allow == Joined(ms) &&
                           forall x :: x in ms <==> x != [] && x != m && AnyMatch(EntriesOf(routes, x), s)
            case NotFound =>
              !AnyMatch(EntriesOf(routes, m), s) && forall x | x != [] && x != m :: !AnyMatch(EntriesOf(routes, x), s)
            case Malformed => false
  {
    hide EntriesOf, Others, Best, AnyMatch, WellKept, MoreSpecific;
    EntriesAdmitted(routes, m);
    BestWins(EntriesOf(routes, m), s);
    SortedOf(routes);
    OthersOf(routes, m, s);
    AllowOfNamed(Others(routes, m, s));
  }

  const ROOT: Bytes := [SLASH]
  const GET: Bytes := [71, 69, 84]

  /** A route under the empty method name matches, and the request for it is not found all the same. */
  lemma {:induction false} UnnamedMethodNotFound(routes: seq<Bucket>)
    requires routes == [Bucket([], [Entry([], 0)])]
    ensures AddAll([], [Registration([], ROOT, 0)]) == Some(routes)
    ensures AnyMatch(EntriesOf(routes, []), []) && Route(routes, GET, ROOT) == NotFound
  {
    var r := Registration([], ROOT, 0);
    assert ParsePattern(ROOT) == Pattern([]);
    assert Add([], r) == Added(routes);
    var none: seq<Registration> := [r][1..];
    assert none == [] && AddAll(routes, none) == Some(routes);
    assert Matches(routes[0].entries[0], []);
    RootTarget();
    hide ParseTarget, ParsePattern;
    assert EntriesOf(routes[1..], GET) == [] && Others(routes[1..], GET, []) == [];
    var ms: seq<Bytes> := [[]];
    assert Others(routes, GET, []) == ms && ms[1..] == [];
    assert AllowText(ms, []) == AllowText([], []) == [];
  }

  lemma RootTarget()
    ensures ParseTarget(ROOT) == Ok(Target([], []))
  {
    TargetBack([], []);
    assert [SLASH] + [] + QueryText([]) == ROOT;
  }
}

/** `Search` is true exactly when some substring matches, and its work is linear. */
module RegexCorrect {
  import opened Common
  import opened RegexSyntax
  import opened RegexProgram
  import opened RegexSearch

  /** From pc at position pos the final match instruction can be reached. */
  ghost predicate Accepts(r: Program, t: Bytes, pc: nat, pos: nat)
    requires |r.code| > 0 && pos <= |t|
  {
    exists j: nat :: Flows(r, t, 0, Last(r), pc, pos, j)
  }

  ghost predicate SomewhereAccepts(r: Program, t: Bytes)
    requires |r.code| > 0
  {
    exists i: nat | i <= |t| :: Accepts(r, t, 0, i)
  }

  lemma AcceptsAtMatch(r: Program, t: Bytes, pos: nat)
    requires |r.code| > 0 && pos <= |t|
    ensures Accepts(r, t, Last(r), pos)
  {
    AtEnd(r, t, 0, Last(r), pos, pos);
  }

  lemma {:induction false} AcceptsStep(r: Program, t: Bytes, pc: nat, pos: nat)
    requires pc + 1 < |r.code| && pos <= |t|
    ensures Accepts(r, t, pc, pos) <==>
            (Takes'(r, t, pc, pos) && Accepts(r, t, pc + 1, pos + 1)) ||
            exists q | q in Pushes(r, t, pos, pc) :: Accepts(r, t, q, pos)
  {
    var hi := Last(r);
    if j: nat :| Flows(r, t, 0, hi, pc, pos, j) {
      FlowStep(r, t, 0, hi, pc, pos, j);
      match r.code[pc]
      case ISplit(a) => assert pc + 1 in Pushes(r, t, pos, pc) && a in Pushes(r, t, pos, pc);
      case IJmp(a) => assert a in Pushes(r, t, pos, pc);
      case IAssert(k) => assert pc + 1 in Pushes(r, t, pos, pc);
      case IByte(b) =>
      case IClass(a) =>
    }
    if Takes'(r, t, pc, pos) && Accepts(r, t, pc + 1, pos + 1) {
      var j: nat :| Flows(r, t, 0, hi, pc + 1, pos + 1, j);
      FlowStep(r, t, 0, hi, pc, pos, j);
    }
    if q :| q in Pushes(r, t, pos, pc) && Accepts(r, t, q, pos) {
      var j: nat :| Flows(r, t, 0, hi, q, pos, j);
      FlowStep(r, t, 0, hi, pc, pos, j);
    }
  }

  predicate Takes'(r: Program, t: Bytes, pc: nat, pos: nat) {
    pos < |t| && Takes(r, pc, t[pos])
  }

  // ----- a hit is a real match -----

  /** Nothing accepting is on the list unless the whole search should succeed. */
  ghost predicate Honest(r: Program, t: Bytes, pos: nat, list: seq<nat>)
    requires |r.code| > 0 && pos <= |t|
  {
    forall k | 0 <= k < |list| :: Accepts(r, t, list[k], pos) ==> SomewhereAccepts(r, t)
  }

  lemma {:induction false} CloseHonest(r: Program, t: Bytes, pos: nat, stamp: nat, work: seq<nat>, vm: Vm)
    requires Runnable(r) && pos <= |t| && InCode(r, work) && VmOk(r, vm)
    requires Honest(r, t, pos, work) && Honest(r, t, pos, vm.list)
    ensures var (hit, vm') := Close(r, t, pos, stamp, work, vm);
            Honest(r, t, pos, vm'.list) && (hit ==> SomewhereAccepts(r, t))
    decreases Unseen(vm.seen, stamp), |work|
  {
    if work != [] {
      var at, rest := work[|work| - 1], work[..|work| - 1];
      if vm.seen[at] == stamp {
        CloseHonest(r, t, pos, stamp, rest, vm);
      } else {
        StampOne(vm.seen, at, stamp);
        PushesInCode(r, t, pos, at);
        if r.code[at] == IMatch {
          AcceptsAtMatch(r, t, pos);
          assert at == Last(r);
        } else {
          AcceptsStep(r, t, at, pos);
          CloseHonest(r, t, pos, stamp, rest + Pushes(r, t, pos, at), Visit(r, at, stamp, vm));
        }
      }
    }
  }

  lemma {:induction false} FeedHonest(r: Program, t: Bytes, pos: nat, cur: seq<nat>, k: nat, vm: Vm)
    requires Runnable(r) && pos < |t| && k <= |cur| && VmOk(r, vm)
    requires forall q | 0 <= q < |cur| :: Threads(r, cur[q])
    requires Honest(r, t, pos, cur) && Honest(r, t, pos + 1, vm.list)
    ensures var (hit, vm') := Feed(r, t, pos, cur, k, vm);
            Honest(r, t, pos + 1, vm'.list) && (hit ==> SomewhereAccepts(r, t))
    decreases |cur| - k
  {
    if k < |cur| {
      var next := vm;
      if Takes(r, cur[k], t[pos]) {
        assert Threads(r, cur[k]);
        PushesInCode(r, t, pos, cur[k]);
        AcceptsStep(r, t, cur[k], pos);
        CloseHonest(r, t, pos + 1, Stamp(pos + 1), [cur[k] + 1], vm);
        next := Close(r, t, pos + 1, Stamp(pos + 1), [cur[k] + 1], vm).1;
      }
      FeedHonest(r, t, pos, cur, k + 1, next);
    }
  }

  lemma {:induction false} ScanHonest(r: Program, t: Bytes, pos: nat, vm: Vm)
    requires Runnable(r) && pos <= |t| && VmOk(r, vm) && Honest(r, t, pos, vm.list)
    ensures Scan(r, t, pos, vm).0 ==> SomewhereAccepts(r, t)
    decreases |t| - pos
  {
    hide Close, Feed;
    CloseHonest(r, t, pos, Stamp(pos), [0], vm);
    var (hit, vm1) := Close(r, t, pos, Stamp(pos), [0], vm);
    if !hit && pos < |t| {
      FeedHonest(r, t, pos, vm1.list, 0, Vm([], vm1.seen, vm1.steps));
      var (hit2, vm2) := Feed(r, t, pos, vm1.list, 0, Vm([], vm1.seen, vm1.steps));
      if !hit2 {
        ScanHonest(r, t, pos + 1, vm2);
      }
    }
  }

  // ----- a miss is a real miss -----

  /** Everything a stamped instruction leads to is stamped, still to be done, or listed. */
  ghost predicate Covered(r: Program, t: Bytes, pos: nat, stamp: nat, work: seq<nat>, vm: Vm)
    requires pos <= |t| && VmOk(r, vm)
  {
    forall pc | 0 <= pc < |r.code| && vm.seen[pc] == stamp :: CoveredAt(r, t, pos, stamp, work, vm, pc)
  }

  ghost predicate CoveredAt(r: Program, t: Bytes, pos: nat, stamp: nat, work: seq<nat>, vm: Vm, pc: nat)
    requires pc < |r.code| == |vm.seen| && pos <= |t|
  {
    r.code[pc] != IMatch && (Threads(r, pc) ==> pc in vm.list) &&
    forall q | q in Pushes(r, t, pos, pc) :: q in work || (q < |vm.seen| && vm.seen[q] == stamp)
  }

  /** What one call of AddThread adds: the closure of its start, and nothing is lost. */
  ghost predicate Grows(stamp: nat, work: seq<nat>, vm: Vm, vm': Vm) {
    |vm.seen| == |vm'.seen| &&
    (forall q | q in work :: q < |vm'.seen| && vm'.seen[q] == stamp) &&
    (forall pc | 0 <= pc < |vm.seen| :: vm'.seen[pc] == stamp || vm'.seen[pc] == vm.seen[pc]) &&
    forall q | q in vm.list :: q in vm'.list
  }

  lemma {:induction false} CloseCovers(r: Program, t: Bytes, pos: nat, stamp: nat, work: seq<nat>, vm: Vm)
    requires Runnable(r) && pos <= |t| && InCode(r, work) && VmOk(r, vm)
    requires Covered(r, t, pos, stamp, work, vm)
    ensures var (hit, vm') := Close(r, t, pos, stamp, work, vm);
            !hit ==> Covered(r, t, pos, stamp, [], vm') && Grows(stamp, work, vm, vm')
    decreases Unseen(vm.seen, stamp), |work|
  {
    if work != [] {
      var at, rest := work[|work| - 1], work[..|work| - 1];
      assert work == rest + [at];
      if vm.seen[at] == stamp {
        CloseCovers(r, t, pos, stamp, rest, vm);
      } else if r.code[at] != IMatch {
        StampOne(vm.seen, at, stamp);
        PushesInCode(r, t, pos, at);
        var vm1, work1 := Visit(r, at, stamp, vm), rest + Pushes(r, t, pos, at);
        forall pc | 0 <= pc < |r.code| && vm1.seen[pc] == stamp
          ensures CoveredAt(r, t, pos, stamp, work1, vm1, pc)
        {
          assert pc != at ==> CoveredAt(r, t, pos, stamp, work, vm, pc);
        }
        CloseCovers(r, t, pos, stamp, work1, vm1);
        assert at in work1 || vm1.seen[at] == stamp;
      }
    }
  }

  /** Feed stamps the successor of every thread that takes t[pos]. */
  lemma {:induction false} FeedCovers(r: Program, t: Bytes, pos: nat, cur: seq<nat>, k: nat, vm: Vm)
    requires Runnable(r) && pos < |t| && k <= |cur| && VmOk(r, vm)
    requires forall q | 0 <= q < |cur| :: Threads(r, cur[q])
    requires Covered(r, t, pos + 1, Stamp(pos + 1), [], vm)
    ensures var (hit, vm') := Feed(r, t, pos, cur, k, vm);
            !hit ==>
              Covered(r, t, pos + 1, Stamp(pos + 1), [], vm') && Grows(Stamp(pos + 1), [], vm, vm') &&
              forall q | k <= q < |cur| && Takes(r, cur[q], t[pos]) ::
                cur[q] + 1 < |vm'.seen| && vm'.seen[cur[q] + 1] == Stamp(pos + 1)
    decreases |cur| - k
  {
    hide Close;
    if k < |cur| {
      var next := vm;
      if Takes(r, cur[k], t[pos]) {
        assert Threads(r, cur[k]);
        PushesInCode(r, t, pos, cur[k]);
        CloseCovers(r, t, pos + 1, Stamp(pos + 1), [cur[k] + 1], vm);
        next := Close(r, t, pos + 1, Stamp(pos + 1), [cur[k] + 1], vm).1;
        assert cur[k] + 1 in [cur[k] + 1];
      }
      if !Takes(r, cur[k], t[pos]) || !Close(r, t, pos + 1, Stamp(pos + 1), [cur[k] + 1], vm).0 {
        FeedCovers(r, t, pos, cur, k + 1, next);
      }
    }
  }

  /** A closed set of instructions none of whose threads leads on cannot accept. */
  lemma {:induction false} NoneAccepts(r: Program, t: Bytes, pos: nat, stamp: nat, vm: Vm, pc: nat, j: nat, n: nat)
    requires Runnable(r) && pos <= |t| && VmOk(r, vm) && Covered(r, t, pos, stamp, [], vm)
    requires forall q | q in vm.list && Takes'(r, t, q, pos) :: !Accepts(r, t, q + 1, pos + 1)
    requires pc < |r.code| && vm.seen[pc] == stamp
    ensures !Runs(r, t, 0, Last(r), pc, pos, j, n)
    decreases n
  {
    assert CoveredAt(r, t, pos, stamp, [], vm, pc);
    PushesInCode(r, t, pos, pc);
    if Takes'(r, t, pc, pos) && n > 0 {
      assert Threads(r, pc);
      assert !Flows(r, t, 0, Last(r), pc + 1, pos + 1, j);
      assert !Runs(r, t, 0, Last(r), pc + 1, pos + 1, j, n - 1);
    }
    if Runs(r, t, 0, Last(r), pc, pos, j, n) {
      match r.code[pc]
      case ISplit(a) =>
        assert Pushes(r, t, pos, pc) == [pc + 1, a];
        assert pc + 1 in Pushes(r, t, pos, pc) && a in Pushes(r, t, pos, pc);
        NoneAccepts(r, t, pos, stamp, vm, pc + 1, j, n - 1);
        NoneAccepts(r, t, pos, stamp, vm, a, j, n - 1);
      case IJmp(a) =>
        assert a in Pushes(r, t, pos, pc);
        NoneAccepts(r, t, pos, stamp, vm, a, j, n - 1);
      case IAssert(k) =>
        assert pc + 1 in Pushes(r, t, pos, pc);
        NoneAccepts(r, t, pos, stamp, vm, pc + 1, j, n - 1);
      case IByte(b) =>
      case IClass(a) =>
    }
  }

  lemma NoneOfThem(r: Program, t: Bytes, pos: nat, stamp: nat, vm: Vm)
    requires Runnable(r) && pos <= |t| && VmOk(r, vm) && Covered(r, t, pos, stamp, [], vm)
    requires forall q | q in vm.list && Takes'(r, t, q, pos) :: !Accepts(r, t, q + 1, pos + 1)
    ensures forall pc | 0 <= pc < |r.code| && vm.seen[pc] == stamp :: !Accepts(r, t, pc, pos)
  {
    forall pc | 0 <= pc < |r.code| && vm.seen[pc] == stamp
      ensures !Accepts(r, t, pc, pos)
    {
      if j: nat, n: nat :| Runs(r, t, 0, Last(r), pc, pos, j, n) {
        NoneAccepts(r, t, pos, stamp, vm, pc, j, n);
      }
    }
  }

  lemma {:induction false} ScanCovers(r: Program, t: Bytes, pos: nat, vm: Vm)
    requires Runnable(r) && pos <= |t| < TWO_32 - 1 && VmOk(r, vm)
    requires Covered(r, t, pos, pos + 1, [], vm) && StampsUpTo(vm, pos + 1)
    requires !Scan(r, t, pos, vm).0
    ensures forall pc | 0 <= pc < |r.code| && vm.seen[pc] == pos + 1 :: !Accepts(r, t, pc, pos)
    ensures forall i: nat | pos <= i <= |t| :: !Accepts(r, t, 0, i)
    decreases |t| - pos
  {
    hide Scan;
    var vm1, vm2 := OnePosition(r, t, pos, vm);
    if pos < |t| {
      ScanCovers(r, t, pos + 1, vm2);
    }
    NoneOfThem(r, t, pos, pos + 1, vm1);
  }

  /** One turn of the loop without a hit: vm1 closes position pos, vm2 holds what it leads to. */
  lemma {:induction false} OnePosition(r: Program, t: Bytes, pos: nat, vm: Vm) returns (vm1: Vm, vm2: Vm)
    requires Runnable(r) && pos <= |t| < TWO_32 - 1 && VmOk(r, vm)
    requires Covered(r, t, pos, pos + 1, [], vm) && StampsUpTo(vm, pos + 1)
    requires !Scan(r, t, pos, vm).0
    ensures VmOk(r, vm1) && Covered(r, t, pos, pos + 1, [], vm1) && Grows(pos + 1, [0], vm, vm1)
    ensures pos < |t| ==>
              VmOk(r, vm2) && Covered(r, t, pos + 1, pos + 2, [], vm2) && StampsUpTo(vm2, pos + 2) &&
              !Scan(r, t, pos + 1, vm2).0 && Successors(r, t, pos, vm1, vm2)
  {
    hide Close, Feed, Scan, Covered, Grows;
    ScanMiss(r, t, pos, vm);
    vm1 := ClosePosition(r, t, pos, vm);
    vm2 := vm1;
    if pos < |t| {
      FeedPosition(r, t, pos, vm1);
      vm2 := Feed(r, t, pos, vm1.list, 0, Vm([], vm1.seen, vm1.steps)).1;
    }
  }

  lemma MoreWork(r: Program, t: Bytes, pos: nat, stamp: nat, vm: Vm)
    requires Runnable(r) && pos <= |t| && VmOk(r, vm) && Covered(r, t, pos, stamp, [], vm)
    ensures Covered(r, t, pos, stamp, [0], vm)
  {
    forall pc | 0 <= pc < |r.code| && vm.seen[pc] == stamp
      ensures CoveredAt(r, t, pos, stamp, [0], vm, pc)
    {
      assert CoveredAt(r, t, pos, stamp, [], vm, pc);
    }
  }

  lemma ClosePosition(r: Program, t: Bytes, pos: nat, vm: Vm) returns (vm1: Vm)
    requires Runnable(r) && pos <= |t| < TWO_32 - 1 && VmOk(r, vm)
    requires Covered(r, t, pos, pos + 1, [], vm) && StampsUpTo(vm, pos + 1)
    requires !Close(r, t, pos, Stamp(pos), [0], vm).0
    ensures vm1 == Close(r, t, pos, Stamp(pos), [0], vm).1
    ensures VmOk(r, vm1) && StampsUpTo(vm1, pos + 1)
    ensures Covered(r, t, pos, pos + 1, [], vm1) && Grows(pos + 1, [0], vm, vm1)
  {
    hide Close, Covered;
    vm1 := Close(r, t, pos, Stamp(pos), [0], vm).1;
    MoreWork(r, t, pos, pos + 1, vm);
    CloseCovers(r, t, pos, pos + 1, [0], vm);
    GrowsBounded(pos + 1, [0], vm, vm1);
  }

  lemma GrowsBounded(stamp: nat, work: seq<nat>, vm: Vm, vm': Vm)
    requires Grows(stamp, work, vm, vm') && StampsUpTo(vm, stamp)
    ensures StampsUpTo(vm', stamp)
  {
  }

  ghost predicate Successors(r: Program, t: Bytes, pos: nat, vm1: Vm, vm2: Vm) {
    forall q | q in vm1.list && Takes'(r, t, q, pos) :: q + 1 < |vm2.seen| && vm2.seen[q + 1] == pos + 2
  }

  /** No instruction carries a stamp that has not been used yet. */
  lemma NothingStamped(r: Program, t: Bytes, pos: nat, stamp: nat, vm: Vm)
    requires pos <= |t| && VmOk(r, vm) && StampsUpTo(vm, stamp)
    ensures Covered(r, t, pos, stamp + 1, [], vm)
  {
  }

  lemma {:induction false} FeedPosition(r: Program, t: Bytes, pos: nat, vm1: Vm)
    requires Runnable(r) && pos < |t| < TWO_32 - 1 && VmOk(r, vm1) && StampsUpTo(vm1, pos + 1)
    ensures var (hit, vm2) := Feed(r, t, pos, vm1.list, 0, Vm([], vm1.seen, vm1.steps));
            !hit ==> Covered(r, t, pos + 1, pos + 2, [], vm2) && StampsUpTo(vm2, pos + 2) &&
                     Successors(r, t, pos, vm1, vm2)
  {
    hide Close, Feed, Covered, Takes, Runnable;
    var start := Vm([], vm1.seen, vm1.steps);
    NothingStamped(r, t, pos + 1, pos + 1, start);
    FeedCovers(r, t, pos, vm1.list, 0, start);
    var (hit, vm2) := Feed(r, t, pos, vm1.list, 0, start);
    if !hit {
      Bounded(pos + 2, start, vm2);
      forall q | q in vm1.list && Takes'(r, t, q, pos)
        ensures q + 1 < |vm2.seen| && vm2.seen[q + 1] == pos + 2
      {
        var k :| 0 <= k < |vm1.list| && vm1.list[k] == q;
      }
    }
  }

  lemma Bounded(stamp: nat, vm: Vm, vm': Vm)
    requires stamp > 0 && StampsUpTo(vm, stamp - 1) && Grows(stamp, [], vm, vm')
    ensures StampsUpTo(vm', stamp)
  {
  }

  ghost predicate StampsUpTo(vm: Vm, stamp: nat) {
    forall pc | 0 <= pc < |vm.seen| :: vm.seen[pc] <= stamp
  }

  lemma ScanMiss(r: Program, t: Bytes, pos: nat, vm: Vm)
    requires Runnable(r) && pos <= |t| && VmOk(r, vm) && !Scan(r, t, pos, vm).0
    ensures var (hit, vm1) := Close(r, t, pos, Stamp(pos), [0], vm);
            !hit &&
            (pos < |t| ==>
               var (hit2, vm2) := Feed(r, t, pos, vm1.list, 0, Vm([], vm1.seen, vm1.steps));
               !hit2 && !Scan(r, t, pos + 1, vm2).0)
  {
  }

  // ----- the work -----

  lemma {:induction false} CloseSteps(r: Program, t: Bytes, pos: nat, stamp: nat, work: seq<nat>, vm: Vm)
    requires Runnable(r) && pos <= |t| && InCode(r, work) && VmOk(r, vm)
    ensures var vm' := Close(r, t, pos, stamp, work, vm).1;
            vm'.steps + Unseen(vm'.seen, stamp) == vm.steps + Unseen(vm.seen, stamp)
    decreases Unseen(vm.seen, stamp), |work|
  {
    if work != [] {
      var at, rest := work[|work| - 1], work[..|work| - 1];
      if vm.seen[at] == stamp {
        CloseSteps(r, t, pos, stamp, rest, vm);
      } else {
        StampOne(vm.seen, at, stamp);
        PushesInCode(r, t, pos, at);
        if r.code[at] != IMatch {
          CloseSteps(r, t, pos, stamp, rest + Pushes(r, t, pos, at), Visit(r, at, stamp, vm));
        }
      }
    }
  }

  lemma {:induction false} FeedSteps(r: Program, t: Bytes, pos: nat, cur: seq<nat>, k: nat, vm: Vm)
    requires Runnable(r) && pos < |t| && k <= |cur| && VmOk(r, vm)
    requires forall q | 0 <= q < |cur| :: Threads(r, cur[q])
    ensures var vm' := Feed(r, t, pos, cur, k, vm).1;
            vm'.steps + Unseen(vm'.seen, Stamp(pos + 1)) == vm.steps + Unseen(vm.seen, Stamp(pos + 1))
    decreases |cur| - k
  {
    if k < |cur| {
      var next := vm;
      if Takes(r, cur[k], t[pos]) {
        CloseSteps(r, t, pos + 1, Stamp(pos + 1), [cur[k] + 1], vm);
        next := Close(r, t, pos + 1, Stamp(pos + 1), [cur[k] + 1], vm).1;
      }
      FeedSteps(r, t, pos, cur, k + 1, next);
    }
  }

  lemma {:induction false} ScanSteps(r: Program, t: Bytes, pos: nat, vm: Vm, budget: nat)
    requires Runnable(r) && pos <= |t| && VmOk(r, vm)
    requires budget == |r.code| * (|t| - pos)
    ensures Scan(r, t, pos, vm).1.steps <= vm.steps + Unseen(vm.seen, Stamp(pos)) + budget
    decreases |t| - pos
  {
    CloseSteps(r, t, pos, Stamp(pos), [0], vm);
    var (hit, vm1) := Close(r, t, pos, Stamp(pos), [0], vm);
    if !hit && pos < |t| {
      var start := Vm([], vm1.seen, vm1.steps);
      FeedSteps(r, t, pos, vm1.list, 0, start);
      UnseenBound(vm1.seen, Stamp(pos + 1));
      OneLess(|r.code|, |t| - pos);
      ScanSteps(r, t, pos + 1, Feed(r, t, pos, vm1.list, 0, start).1, budget - |r.code|);
    }
  }

  lemma OneLess(a: nat, b: nat)
    requires b > 0
    ensures a * b == a + a * (b - 1) && a <= a * b
  {
  }

  // ----- the theorems -----

  /** Work is linear whatever the program and the text, wrapped stamps included. */
  lemma {:induction false} SearchIsLinear(r: Program, t: Bytes)
    requires Runnable(r)
    ensures Scan(r, t, 0, Start(r)).1.steps <= |r.code| * (|t| + 1)
  {
    ScanSteps(r, t, 0, Start(r), |r.code| * |t|);
    UnseenBound(Start(r).seen, Stamp(0));
    OneLess(|r.code|, |t| + 1);
  }

  /** r is what `Compile` leaves for tree n. */
  ghost predicate Compiled(n: Node, r: Program) {
    |r.code| > 0 && Code(n, r, 0, Last(r)) && r.code[Last(r)] == IMatch
  }

  lemma CompiledRunnable(n: Node, r: Program)
    requires WellFormed(n) && Compiled(n, r)
    ensures Runnable(r)
  {
    CodeStays(n, r, 0, Last(r));
  }

  /** Below the stamp range, the simulation finds a match exactly when the tree has one. */
  lemma {:induction false} SearchMeansFound(n: Node, r: Program, t: Bytes)
    requires WellFormed(n) && Compiled(n, r) && Runnable(r) && |t| <= TWO_32 - 2
    ensures Scan(r, t, 0, Start(r)).0 <==> Found(n, t)
  {
    forall i: nat, j: nat | i <= |t|
      ensures Flows(r, t, 0, Last(r), 0, i, j) <==> Matches(n, t, i, j)
    {
      FragmentMeansTree(n, r, t, 0, Last(r), i, j);
    }
    if i: nat, j: nat :| i <= |t| && Matches(n, t, i, j) {
      assert Flows(r, t, 0, Last(r), 0, i, j);
      assert Accepts(r, t, 0, i);
    }
    if i: nat, j: nat :| i <= |t| && Flows(r, t, 0, Last(r), 0, i, j) {
      assert Matches(n, t, i, j);
    }
    ScanHonest(r, t, 0, Start(r));
    if !Scan(r, t, 0, Start(r)).0 {
      ScanCovers(r, t, 0, Start(r));
    }
  }
}

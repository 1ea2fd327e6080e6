/** The stamped breadth-first simulation: `Regex::AddThread` and `Regex::Search`. */
module RegexSearch {
  import opened Common
  import opened RegexSyntax
  import opened RegexProgram

  const TWO_32: nat := 0x1_0000_0000

  /** The index of the final match instruction. */
  function Last(r: Program): nat
    requires |r.code| > 0
  {
    |r.code| - 1
  }

  /** Every target is an instruction, every class index a class, and only the last instruction matches. */
  ghost predicate Runnable(r: Program) {
    |r.code| > 0 && r.code[Last(r)] == IMatch && forall pc | 0 <= pc < Last(r) :: Continues(r, pc)
  }

  ghost predicate Continues(r: Program, pc: nat)
    requires pc < |r.code|
  {
    Targets(r, r.code[pc], 0, Last(r))
  }

  /** Popping an instruction pushes instructions, and only the last one is a match. */
  lemma PushesInCode(r: Program, t: Bytes, pos: nat, at: nat)
    requires Runnable(r) && at < |r.code| && pos <= |t|
    ensures InCode(r, Pushes(r, t, pos, at))
    ensures r.code[at].IMatch? <==> at == Last(r)
    ensures r.code[at].IClass? ==> r.code[at].arg < |r.classes|
  {
    assert at < Last(r) ==> Continues(r, at);
  }

  /** What a simulation carries: the thread list being filled, the stamps, the work counter. */
  datatype Vm = Vm(list: seq<nat>, seen: seq<nat>, steps: nat)

  ghost predicate VmOk(r: Program, vm: Vm) {
    |vm.seen| == |r.code| && forall k | 0 <= k < |vm.list| :: Threads(r, vm.list[k])
  }

  /** Only byte-consuming instructions are ever put on a thread list. */
  ghost predicate Threads(r: Program, pc: nat) {
    pc < |r.code| && (r.code[pc].IByte? || r.code[pc].IClass?)
  }

  ghost predicate InCode(r: Program, work: seq<nat>) {
    forall k | 0 <= k < |work| :: work[k] < |r.code|
  }

  ghost function Unvisited(seen: seq<nat>, stamp: nat): set<nat> {
    set k | 0 <= k < |seen| && seen[k] != stamp
  }

  ghost function Unseen(seen: seq<nat>, stamp: nat): nat {
    |Unvisited(seen, stamp)|
  }

  lemma StampOne(seen: seq<nat>, at: nat, stamp: nat)
    requires at < |seen| && seen[at] != stamp
    ensures Unseen(seen[at := stamp], stamp) == Unseen(seen, stamp) - 1
  {
    assert Unvisited(seen[at := stamp], stamp) == Unvisited(seen, stamp) - {at};
  }

  lemma {:induction false} UnseenBound(seen: seq<nat>, stamp: nat)
    ensures Unseen(seen, stamp) <= |seen|
  {
    if seen != [] {
      var last := |seen| - 1;
      UnseenBound(seen[..last], stamp);
      assert Unvisited(seen, stamp) == Unvisited(seen[..last], stamp) + if seen[last] == stamp then {} else {last};
    }
  }

  /** What popping an unseen `at` pushes. */
  function Pushes(r: Program, t: Bytes, pos: nat, at: nat): seq<nat>
    requires at < |r.code| && pos <= |t|
  {
    match r.code[at]
    case IJmp(a) => [a]
    case ISplit(a) => [at + 1, a]
    case IAssert(k) => if Holds(k, t, pos) then [at + 1] else []
    case _ => []
  }

  /** Popping an unseen `at` stamps it, counts it, and lists it when it consumes a byte. */
  function Visit(r: Program, at: nat, stamp: nat, vm: Vm): Vm
    requires at < |r.code| == |vm.seen|
  {
    Vm(if r.code[at].IByte? || r.code[at].IClass? then vm.list + [at] else vm.list,
       vm.seen[at := stamp], vm.steps + 1)
  }

  /** `AddThread`, as the function its loop computes. */
  ghost function Close(r: Program, t: Bytes, pos: nat, stamp: nat, work: seq<nat>, vm: Vm): (res: (bool, Vm))
    requires Runnable(r) && pos <= |t| && InCode(r, work) && VmOk(r, vm)
    ensures VmOk(r, res.1)
    decreases Unseen(vm.seen, stamp), |work|
  {
    if work == [] then (false, vm)
    else
      var at, rest := work[|work| - 1], work[..|work| - 1];
      if vm.seen[at] == stamp then Close(r, t, pos, stamp, rest, vm)
      else
        StampOne(vm.seen, at, stamp);
        PushesInCode(r, t, pos, at);
        if r.code[at] == IMatch then (true, Visit(r, at, stamp, vm))
        else Close(r, t, pos, stamp, rest + Pushes(r, t, pos, at), Visit(r, at, stamp, vm))
  }

  /** Does the thread's instruction take byte c? */
  predicate Takes(r: Program, pc: nat, c: Byte) {
    pc < |r.code| &&
    match r.code[pc]
    case IByte(b) => b == c
    case IClass(a) => a < |r.classes| && c in r.classes[a]
    case _ => false
  }

  function Stamp(pos: nat): nat {
    (pos + 1) % TWO_32
  }

  /** The loop over `current`: the threads from index k on step over t[pos] into vm. */
  ghost function Feed(r: Program, t: Bytes, pos: nat, cur: seq<nat>, k: nat, vm: Vm): (res: (bool, Vm))
    requires Runnable(r) && pos < |t| && k <= |cur| && VmOk(r, vm)
    requires forall q | 0 <= q < |cur| :: Threads(r, cur[q])
    ensures VmOk(r, res.1)
    decreases |cur| - k
  {
    if k == |cur| then (false, vm)
    else if Takes(r, cur[k], t[pos]) then
      PushesInCode(r, t, pos, cur[k]);
      var (hit, vm1) := Close(r, t, pos + 1, Stamp(pos + 1), [cur[k] + 1], vm);
      if hit then (true, vm1) else Feed(r, t, pos, cur, k + 1, vm1)
    else Feed(r, t, pos, cur, k + 1, vm)
  }

  /** `Search` from position pos on; vm holds the threads that reached pos. */
  ghost function Scan(r: Program, t: Bytes, pos: nat, vm: Vm): (bool, Vm)
    requires Runnable(r) && pos <= |t| && VmOk(r, vm)
    decreases |t| - pos
  {
    var (hit, vm1) := Close(r, t, pos, Stamp(pos), [0], vm);
    if hit || pos == |t| then (hit, vm1)
    else
      var (hit2, vm2) := Feed(r, t, pos, vm1.list, 0, Vm([], vm1.seen, vm1.steps));
      if hit2 then (true, vm2) else Scan(r, t, pos + 1, vm2)
  }

  ghost function Start(r: Program): Vm {
    Vm([], seq(|r.code|, i => 0), 0)
  }

  // ----- the methods -----

  /** The switch of `AddThread`, for every instruction but kMatch. */
  method Dispatch(r: Program, t: Bytes, pos: nat, at: nat, work: seq<nat>, list: seq<nat>)
      returns (work': seq<nat>, list': seq<nat>)
    requires at < |r.code| && pos <= |t|
    ensures work' == work + Pushes(r, t, pos, at)
    ensures list' == if r.code[at].IByte? || r.code[at].IClass? then list + [at] else list
  {
    work', list' := work, list;
    match r.code[at] {
      case IMatch =>
      case IJmp(a) => work' := work + [a];
      case ISplit(a) => work' := work + [at + 1] + [a];
      case IAssert(k) =>
        if Holds(k, t, pos) {
          work' := work + [at + 1];
        }
      case IByte(_) => list' := list + [at];
      case IClass(_) => list' := list + [at];
    }
  }

  method AddThread(r: Program, list: seq<nat>, seen: array<nat>, stamp: nat, pc: nat, t: Bytes, pos: nat, steps: nat)
      returns (hit: bool, list': seq<nat>, steps': nat)
    requires Runnable(r) && pos <= |t| && pc < |r.code| && VmOk(r, Vm(list, seen[..], steps))
    modifies seen
    ensures (hit, Vm(list', seen[..], steps')) == Close(r, t, pos, stamp, [pc], Vm(list, old(seen[..]), steps))
  {
    ghost var goal := Close(r, t, pos, stamp, [pc], Vm(list, seen[..], steps));
    list', steps' := list, steps;
    var work := [pc];
    while work != []
      invariant InCode(r, work) && VmOk(r, Vm(list', seen[..], steps'))
      invariant Close(r, t, pos, stamp, work, Vm(list', seen[..], steps')) == goal
      decreases Unseen(seen[..], stamp), |work|
    {
      ghost var vm := Vm(list', seen[..], steps');
      var at := work[|work| - 1];
      work := work[..|work| - 1];
      if seen[at] != stamp {
        StampOne(vm.seen, at, stamp);
        PushesInCode(r, t, pos, at);
        seen[at] := stamp;
        steps' := steps' + 1;
        if r.code[at] == IMatch {
          return true, list', steps';
        }
        work, list' := Dispatch(r, t, pos, at, work, list');
        assert Vm(list', seen[..], steps') == Visit(r, at, stamp, vm);
      }
    }
    hit := false;
  }

  method Search(r: Program, t: Bytes) returns (found: bool, steps: nat)
    requires Runnable(r)
    ensures (found, steps) == (Scan(r, t, 0, Start(r)).0, Scan(r, t, 0, Start(r)).1.steps)
  {
    steps := 0;
    var current: seq<nat> := [];
    var seen := new nat[|r.code|](_ => 0);
    assert seen[..] == Start(r).seen;
    var pos := 0;
    while true
      invariant pos <= |t| && VmOk(r, Vm(current, seen[..], steps)) && fresh(seen)
      invariant Scan(r, t, pos, Vm(current, seen[..], steps)) == Scan(r, t, 0, Start(r))
      decreases |t| - pos
    {
      var hit;
      hit, current, steps := AddThread(r, current, seen, Stamp(pos), 0, t, pos, steps);
      if hit {
        return true, steps;
      }
      if pos == |t| {
        break;
      }
      var next: seq<nat> := [];
      ghost var start := Vm([], seen[..], steps);
      var k := 0;
      while k < |current|
        invariant k <= |current| && VmOk(r, Vm(next, seen[..], steps))
        invariant Feed(r, t, pos, current, k, Vm(next, seen[..], steps)) == Feed(r, t, pos, current, 0, start)
      {
        var pc := current[k];
        if Takes(r, pc, t[pos]) {
          PushesInCode(r, t, pos, pc);
          hit, next, steps := AddThread(r, next, seen, Stamp(pos + 1), pc + 1, t, pos + 1, steps);
          if hit {
            return true, steps;
          }
        }
        k := k + 1;
      }
      current := next;
      pos := pos + 1;
    }
    found := false;
  }
}

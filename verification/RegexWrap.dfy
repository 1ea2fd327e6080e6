/** Why the length bound of the search theorem is there: 32-bit stamps repeat. */
module RegexWrap {
  import opened Common
  import opened RegexSyntax
  import opened RegexProgram
  import opened RegexSearch
  import opened RegexCorrect

  /** The pattern `(^|a)$` ... */
  const TREE := Concat([Alt([Assertion(InputStart), Lit(97)]), Assertion(InputEnd)])

  /** ... and its program. */
  const PROGRAM := Program([ISplit(3), IAssert(InputStart), IJmp(4), IByte(97), IAssert(InputEnd), IMatch], [])

  lemma ProgramOfTree()
    ensures WellFormed(TREE) && Compiled(TREE, PROGRAM) && Runnable(PROGRAM)
  {
    ProgramOfAlt();
    var c := TREE.children;
    assert WellFormed(c[0]) && WellFormed(c[1]);
    assert Code(c[1], PROGRAM, 4, 5);
    hide Code;
    assert ConcatCode(c, PROGRAM, 0, 5, [0, 4, 5]);
    assert Code(TREE, PROGRAM, 0, 5) by {
      CodeOfConcat(c, PROGRAM, 0, 5, [0, 4, 5]);
    }
    CompiledRunnable(TREE, PROGRAM);
  }

  lemma CodeOfConcat(c: seq<Node>, r: Program, lo: nat, hi: nat, at: seq<nat>)
    requires ConcatCode(c, r, lo, hi, at) && hi <= |r.code|
    ensures Code(Concat(c), r, lo, hi)
  {
  }

  lemma ProgramOfAlt()
    ensures Code(TREE.children[0], PROGRAM, 0, 4)
  {
    var c := TREE.children[0].children;
    assert Code(c[0], PROGRAM, 1, 2) && Code(c[1], PROGRAM, 3, 4);
    assert AltArm(c[0], PROGRAM, 0, 3, 4);
    assert AltCode(c, PROGRAM, 0, 4, [0, 3]);
  }

  /** n bytes of `b`, but `a` at the end and one stamp cycle before the end. */
  function Text(n: nat): Bytes {
    seq(n, i requires 0 <= i < n => if i == n - 1 || i + TWO_32 == n - 1 then 97 else 98)
  }

  lemma TextMatches(n: nat)
    requires n > 0
    ensures Found(TREE, Text(n))
  {
    var t, c := Text(n), TREE.children;
    assert Matches(c[0].children[1], t, n - 1, n);
    assert Matches(c[0], t, n - 1, n);
    assert Matches(c[1], t, n, n);
    assert c[1..] == [c[1]] && c[1..][1..] == [];
    assert MatchesSeq(c[1..][1..], t, n, n);
    assert MatchesSeq(c[1..], t, n, n);
    assert MatchesSeq(c, t, n - 1, n);
    assert Matches(TREE, t, n - 1, n);
  }

  /** The position one stamp cycle before the end, where the `$` instruction is last reached. */
  function Cycle(n: nat): int {
    n - TWO_32
  }

  /** The simulation as it enters position pos without having matched: the stamps it finds. */
  ghost predicate Entering(n: nat, pos: nat, vm: Vm) {
    VmOk(PROGRAM, vm) && vm.list == [] && vm.seen[5] == 0 &&
    if pos == 0 then forall k | 0 <= k < 6 :: vm.seen[k] == 0
    else
      vm.seen[0] == vm.seen[1] == vm.seen[3] == Stamp(pos - 1) &&
      (pos < n ==> vm.seen[4] == if 1 <= Cycle(n) <= pos then Stamp(Cycle(n)) else 1)
  }

  /** One unstamped pop. */
  lemma Pop(t: Bytes, pos: nat, stamp: nat, rest: seq<nat>, at: nat, vm: Vm)
    requires Runnable(PROGRAM) && pos <= |t| && InCode(PROGRAM, rest) && at < 5 && VmOk(PROGRAM, vm)
    requires vm.seen[at] != stamp
    ensures InCode(PROGRAM, rest + Pushes(PROGRAM, t, pos, at)) && VmOk(PROGRAM, Visit(PROGRAM, at, stamp, vm))
    ensures Close(PROGRAM, t, pos, stamp, rest + [at], vm) ==
            Close(PROGRAM, t, pos, stamp, rest + Pushes(PROGRAM, t, pos, at), Visit(PROGRAM, at, stamp, vm))
  {
    PushesInCode(PROGRAM, t, pos, at);
    var work := rest + [at];
    assert work[|work| - 1] == at && work[..|work| - 1] == rest;
  }

  /** At every position the closure of the start lists the byte instruction and reaches nothing else new. */
  lemma CloseStart(n: nat, t: Bytes, pos: nat, vm: Vm) returns (vm': Vm)
    requires Runnable(PROGRAM) && 0 < n == |t| && pos <= n && Entering(n, pos, vm)
    ensures Close(PROGRAM, t, pos, Stamp(pos), [0], vm) == (false, vm')
    ensures VmOk(PROGRAM, vm') && vm'.list == [3] && vm'.seen[5] == 0
    ensures vm'.seen[0] == vm'.seen[1] == vm'.seen[3] == Stamp(pos)
    ensures vm'.seen[4] == if pos == 0 then 1 else vm.seen[4]
  {
    hide Close;
    var stamp := Stamp(pos);
    assert vm.seen[0] != stamp && vm.seen[1] != stamp && vm.seen[3] != stamp;
    Pop(t, pos, stamp, [], 0, vm);
    var vm1 := Visit(PROGRAM, 0, stamp, vm);
    assert [] + [0] == [0] && [] + Pushes(PROGRAM, t, pos, 0) == [1] + [3];
    Pop(t, pos, stamp, [1], 3, vm1);
    var vm2 := Visit(PROGRAM, 3, stamp, vm1);
    assert [1] + Pushes(PROGRAM, t, pos, 3) == [] + [1];
    Pop(t, pos, stamp, [], 1, vm2);
    vm' := Visit(PROGRAM, 1, stamp, vm2);
    if pos == 0 {
      assert [] + Pushes(PROGRAM, t, pos, 1) == [] + [2];
      Pop(t, pos, stamp, [], 2, vm');
      vm' := Visit(PROGRAM, 2, stamp, vm');
      assert [] + Pushes(PROGRAM, t, pos, 2) == [] + [4];
      Pop(t, pos, stamp, [], 4, vm');
      vm' := Visit(PROGRAM, 4, stamp, vm');
      assert [] + Pushes(PROGRAM, t, pos, 4) == [];
    } else {
      assert [] + Pushes(PROGRAM, t, pos, 1) == [];
    }
    NothingToDo(t, pos, stamp, vm');
  }

  lemma NothingToDo(t: Bytes, pos: nat, stamp: nat, vm: Vm)
    requires Runnable(PROGRAM) && pos <= |t| && VmOk(PROGRAM, vm)
    ensures Close(PROGRAM, t, pos, stamp, [], vm) == (false, vm)
  {
  }

  lemma Stamped(t: Bytes, pos: nat, stamp: nat, at: nat, vm: Vm)
    requires Runnable(PROGRAM) && pos <= |t| && at < 6 && VmOk(PROGRAM, vm) && vm.seen[at] == stamp
    ensures Close(PROGRAM, t, pos, stamp, [at], vm) == (false, vm)
  {
    assert [at][..0] == [];
    NothingToDo(t, pos, stamp, vm);
  }

  /** Reading `a` reaches the `$` instruction, which leads nowhere: too early, or its stamp is stale. */
  lemma CloseEnd(n: nat, t: Bytes, pos: nat, vm: Vm) returns (vm': Vm)
    requires Runnable(PROGRAM) && TWO_32 - 1 <= n == |t| && 0 < pos <= n && VmOk(PROGRAM, vm) && vm.seen[5] == 0
    requires vm.list == [] && (pos < n ==> pos == Cycle(n))
    requires vm.seen[4] == if 1 <= Cycle(n) < pos then Stamp(Cycle(n)) else 1
    ensures Close(PROGRAM, t, pos, Stamp(pos), [4], vm) == (false, vm')
    ensures VmOk(PROGRAM, vm') && vm'.list == [] && vm'.seen[5] == 0
    ensures vm'.seen[0] == vm.seen[0] && vm'.seen[1] == vm.seen[1] && vm'.seen[3] == vm.seen[3]
    ensures pos < n ==> vm'.seen[4] == Stamp(pos)
  {
    var stamp := Stamp(pos);
    if vm.seen[4] == stamp {
      Stamped(t, pos, stamp, 4, vm);
      vm' := vm;
    } else {
      Pop(t, pos, stamp, [], 4, vm);
      assert [] + [4] == [4];
      vm' := Visit(PROGRAM, 4, stamp, vm);
      if pos == n {
        assert n == TWO_32 - 1 && stamp == 0;
        assert [] + Pushes(PROGRAM, t, pos, 4) == [5];
        Stamped(t, pos, stamp, 5, vm');
      } else {
        assert [] + Pushes(PROGRAM, t, pos, 4) == [];
        NothingToDo(t, pos, stamp, vm');
      }
    }
  }

  lemma {:induction false} NeverHits(n: nat, pos: nat, vm: Vm)
    requires Runnable(PROGRAM) && TWO_32 - 1 <= n && pos <= n && Entering(n, pos, vm)
    ensures !Scan(PROGRAM, Text(n), pos, vm).0
    decreases n - pos
  {
    var t := Text(n);
    var vm1 := CloseStart(n, t, pos, vm);
    if pos < n {
      var start := Vm([], vm1.seen, vm1.steps);
      var vm2 := start;
      if t[pos] == 97 {
        vm2 := CloseEnd(n, t, pos + 1, start);
      }
      FeedOne(t, pos, start, vm2);
      NeverHits(n, pos + 1, vm2);
    }
  }

  lemma FeedOne(t: Bytes, pos: nat, start: Vm, vm2: Vm)
    requires Runnable(PROGRAM) && pos < |t| && VmOk(PROGRAM, start)
    requires if t[pos] == 97 then Close(PROGRAM, t, pos + 1, Stamp(pos + 1), [4], start) == (false, vm2)
             else vm2 == start
    ensures Feed(PROGRAM, t, pos, [3], 0, start) == (false, vm2)
  {
    hide Close;
    assert Takes(PROGRAM, 3, t[pos]) <==> t[pos] == 97;
  }

  /** Compiled search is right on every text of length n exactly when the stamps of n + 1 positions fit 32 bits. */
  lemma {:induction false} SearchRightIffStampsFit(n: nat)
    ensures (forall tree: Node, r: Program, t: Bytes | WellFormed(tree) && Compiled(tree, r) && Runnable(r) && |t| == n ::
               Scan(r, t, 0, Start(r)).0 <==> Found(tree, t)) <==>
            n <= TWO_32 - 2
  {
    if n <= TWO_32 - 2 {
      forall tree: Node, r: Program, t: Bytes | WellFormed(tree) && Compiled(tree, r) && Runnable(r) && |t| == n
        ensures Scan(r, t, 0, Start(r)).0 <==> Found(tree, t)
      {
        SearchMeansFound(tree, r, t);
      }
    } else {
      ProgramOfTree();
      TextMatches(n);
      NeverHits(n, 0, Start(PROGRAM));
      assert |Text(n)| == n && WellFormed(TREE) && Compiled(TREE, PROGRAM) && Runnable(PROGRAM);
    }
  }
}

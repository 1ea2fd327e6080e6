/** `RegexCompiler`: emits a parse tree as an NFA program, patching jumps in place. */
module RegexCompiler {
  import opened Common
  import opened RegexSyntax
  import opened RegexProgram

  const MAX_PROGRAM: nat := 0x1_0000

  /** How many instructions a tree takes. */
  function Size(n: Node): nat
    decreases n, 0
  {
    match n
    case Empty => 0
    case Concat(c) => SizeUpTo(c, |c|)
    case Alt(c) => if |c| == 0 then 0 else SizeUpTo(c, |c|) + 2 * (|c| - 1)
    case Repeat(b, min, max) =>
      Times(min, Size(b)) + if max < 0 then Size(b) + 2 else Times(Extra(min, max), 1 + Size(b))
    case _ => 1
  }

  function Times(k: nat, size: nat): nat { k * size }

  lemma RepeatSize(b: Node, min: nat, max: int)
    ensures Size(Repeat(b, min, max)) ==
            Times(min, Size(b)) + if max < 0 then Size(b) + 2 else Times(Extra(min, max), 1 + Size(b))
  {
  }

  function SizeUpTo(c: seq<Node>, k: nat): nat
    requires k <= |c|
    decreases c, k
  {
    if k == 0 then 0 else SizeUpTo(c, k - 1) + Size(c[k - 1])
  }

  lemma {:induction false} SizeGrows(c: seq<Node>, k: nat, l: nat)
    requires k <= l <= |c|
    ensures SizeUpTo(c, k) <= SizeUpTo(c, l)
    decreases l
  {
    if k < l {
      SizeGrows(c, k, l - 1);
    }
  }

  // ----- how much work emission is -----

  /** How often `Emit` runs for a tree that compiles: once for every copy of every node. */
  function Calls(n: Node): nat
    decreases n, 0
  {
    match n
    case Concat(c) => 1 + CallsUpTo(c, |c|)
    case Alt(c) => 1 + CallsUpTo(c, |c|)
    case Repeat(b, min, max) => 1 + Times(min, Calls(b)) + if max < 0 then Calls(b) else Times(Extra(min, max), Calls(b))
    case _ => 1
  }

  function CallsUpTo(c: seq<Node>, k: nat): nat
    requires k <= |c|
    decreases c, k
  {
    if k == 0 then 0 else CallsUpTo(c, k - 1) + Calls(c[k - 1])
  }

  /** The nodes of a tree. */
  function Nodes(n: Node): nat
    decreases n, 0
  {
    match n
    case Concat(c) => 1 + NodesUpTo(c, |c|)
    case Alt(c) => 1 + NodesUpTo(c, |c|)
    case Repeat(b, _, _) => 1 + Nodes(b)
    case _ => 1
  }

  function NodesUpTo(c: seq<Node>, k: nat): nat
    requires k <= |c|
    decreases c, k
  {
    if k == 0 then 0 else NodesUpTo(c, k - 1) + Nodes(c[k - 1])
  }

  /** Nothing that takes no instruction is required more than once. */
  predicate Productive(n: Node) {
    match n
    case Concat(c) => forall k | 0 <= k < |c| :: Productive(c[k])
    case Alt(c) => forall k | 0 <= k < |c| :: Productive(c[k])
    case Repeat(b, min, _) => Productive(b) && (Size(b) == 0 ==> min <= 1)
    case _ => true
  }

  /** Two calls for every node and instruction. */
  function Work(nodes: nat, instructions: nat): nat { 2 * nodes * instructions }

  /** What a productive tree costs: without an instruction, one call a node. */
  function Budget(nodes: nat, size: nat): nat { if size == 0 then nodes else Work(nodes, size) }

  lemma WorkGrows(n: nat, m: nat, i: nat, j: nat)
    requires n <= m && i <= j
    ensures Work(n, i) <= Work(m, j)
  {
    assert n * i <= m * i <= m * j;
  }

  lemma WorkAdds(n: nat, i: nat, m: nat, j: nat)
    ensures Work(n, i) + Work(m, j) <= Work(n + m, i + j)
    ensures Work(n, i) + Work(n, j) == Work(n, i + j)
  {
    assert (n + m) * (i + j) == n * i + m * j + n * j + m * i;
    assert n * j >= 0 && m * i >= 0;
    assert n * (i + j) == n * i + n * j;
  }

  lemma BudgetWithin(n: nat, i: nat, j: nat)
    requires i <= j && 0 < j
    ensures Budget(n, i) <= Work(n, j)
  {
    WorkGrows(n, n, if i == 0 then 1 else i, j);
  }

  lemma BudgetAdds(n: nat, i: nat, m: nat, j: nat)
    ensures Budget(n, i) + Budget(m, j) <= Budget(n + m, i + j)
  {
    hide Work;
    if i + j > 0 {
      BudgetWithin(n, i, i + j);
      BudgetWithin(m, j, i + j);
      WorkOfBoth(n, m, i + j);
    }
  }

  lemma WorkOfBoth(n: nat, m: nat, i: nat)
    ensures Work(n, i) + Work(m, i) == Work(n + m, i)
  {
  }

  lemma TimesWork(k: nat, n: nat, i: nat, calls: nat)
    requires calls <= Work(n, i)
    ensures Times(k, calls) <= Work(n, Times(k, i))
  {
    assert k * calls <= k * (2 * n * i) == 2 * n * (k * i);
  }

  lemma {:induction false} CallsBounded(n: Node)
    requires Productive(n)
    ensures Calls(n) <= Budget(Nodes(n), Size(n))
    decreases n, 0
  {
    match n
    case Concat(c) =>
      CallsUpToBounded(c, |c|);
      BudgetAdds(1, 0, NodesUpTo(c, |c|), SizeUpTo(c, |c|));
    case Alt(c) =>
      CallsUpToBounded(c, |c|);
      BudgetAdds(1, Size(n) - SizeUpTo(c, |c|), NodesUpTo(c, |c|), SizeUpTo(c, |c|));
    case Repeat(b, min, max) =>
      CallsBounded(b);
      RepeatBounded(b, min, max);
    case _ =>
  }

  lemma {:induction false} CallsUpToBounded(c: seq<Node>, k: nat)
    requires k <= |c| && forall i | 0 <= i < k :: Productive(c[i])
    ensures CallsUpTo(c, k) <= Budget(NodesUpTo(c, k), SizeUpTo(c, k))
    decreases c, k
  {
    if k > 0 {
      CallsUpToBounded(c, k - 1);
      CallsBounded(c[k - 1]);
      BudgetAdds(NodesUpTo(c, k - 1), SizeUpTo(c, k - 1), Nodes(c[k - 1]), Size(c[k - 1]));
    }
  }

  /** The mandatory copies of a body. */
  lemma MandatoryBounded(b: Node, min: nat)
    requires Calls(b) <= Budget(Nodes(b), Size(b)) && (Size(b) == 0 ==> min <= 1)
    ensures Times(min, Calls(b)) <= Budget(Nodes(b), Times(min, Size(b)))
  {
    if Size(b) > 0 {
      TimesWork(min, Nodes(b), Size(b), Calls(b));
    }
  }

  /** The optional ones: each has its split. */
  lemma OptionalBounded(b: Node, cnt: nat)
    requires Calls(b) <= Budget(Nodes(b), Size(b))
    ensures Times(cnt, Calls(b)) <= Work(Nodes(b), Times(cnt, 1 + Size(b)))
  {
    BudgetWithin(Nodes(b), Size(b), 1 + Size(b));
    TimesWork(cnt, Nodes(b), 1 + Size(b), Calls(b));
  }

  lemma RepeatBounded(b: Node, min: nat, max: int)
    requires Productive(Repeat(b, min, max)) && Calls(b) <= Budget(Nodes(b), Size(b))
    ensures Calls(Repeat(b, min, max)) <= Budget(1 + Nodes(b), Size(Repeat(b, min, max)))
  {
    RepeatSize(b, min, max);
    RepeatCalls(b, min, max);
    hide Size, Calls, Times, Work, Productive;
    MandatoryBounded(b, min);
    var rest, room :=
      if max < 0 then Calls(b) else Times(Extra(min, max), Calls(b)),
      if max < 0 then Size(b) + 2 else Times(Extra(min, max), 1 + Size(b));
    if max < 0 {
      BudgetWithin(Nodes(b), Size(b), Size(b) + 2);
    } else {
      OptionalBounded(b, Extra(min, max));
    }
    if Size(b) == 0 && min > 0 {
      RestOfNothing(Nodes(b), Calls(b), min, max);
    }
    if min == 0 {
      NoneYet(Calls(b));
    }
    if min > 0 && Size(b) > 0 {
      OneMore(min - 1, min, Size(b));
    }
    SumBounded(Times(min, Calls(b)), rest, Nodes(b), Times(min, Size(b)), room);
  }

  lemma RestOfNothing(n: nat, calls: nat, min: nat, max: int)
    requires calls <= n
    ensures max < 0 ==> calls <= Times(n, 2)
    ensures Times(Extra(min, max), calls) <= Times(n, Times(Extra(min, max), 1))
  {
    assert Extra(min, max) * calls <= Extra(min, max) * n;
  }

  lemma RepeatCalls(b: Node, min: nat, max: int)
    ensures Calls(Repeat(b, min, max)) ==
            1 + Times(min, Calls(b)) + if max < 0 then Calls(b) else Times(Extra(min, max), Calls(b))
    ensures Productive(Repeat(b, min, max)) ==> Productive(b) && (Size(b) == 0 ==> min <= 1)
  {
  }

  lemma SumBounded(x: nat, y: nat, n: nat, i: nat, j: nat)
    requires x <= Budget(n, i) && y <= Work(n, j)
    requires i == 0 && x > 0 ==> y <= Times(n, j)
    ensures 1 + x + y <= Budget(1 + n, i + j)
  {
    assert (1 + n) * (i + j) == i + j + n * i + n * j;
    assert n * i >= 0 && n * j >= 0;
    if j > 0 {
      assert n * j >= n;
    }
    if i == 0 {
      assert n * j + n * j == Work(n, j);
    } else {
      assert Work(n, i) + Work(n, j) == 2 * (n * i) + 2 * (n * j);
    }
  }

  lemma {:induction false} NodesGrow(c: seq<Node>, k: nat, l: nat)
    requires k <= l <= |c|
    ensures NodesUpTo(c, k) <= NodesUpTo(c, l)
    decreases l
  {
    if k < l {
      NodesGrow(c, k, l - 1);
    }
  }

  /** Emission that fails in child i, having appended room instructions or fewer. */
  lemma FailsInChild(c: seq<Node>, i: nat, x: nat, e: nat, room: nat)
    requires i < |c| && forall k | 0 <= k < |c| :: Productive(c[k])
    requires 0 < e && SizeUpTo(c, i) + e <= room && x <= Work(Nodes(c[i]), e)
    ensures CallsUpTo(c, i) + x <= Work(NodesUpTo(c, |c|), room)
  {
    hide Work, Productive, Nodes, Calls, Size, Budget;
    CallsUpToBounded(c, i);
    BudgetWithin(NodesUpTo(c, i), SizeUpTo(c, i), room);
    WorkGrows(Nodes(c[i]), Nodes(c[i]), e, room);
    WorkOfBoth(NodesUpTo(c, i), Nodes(c[i]), room);
    NodesGrow(c, i + 1, |c|);
    WorkGrows(NodesUpTo(c, i + 1), NodesUpTo(c, |c|), room, room);
  }

  /** Emission that fails in a mandatory copy of a body, i copies done. */
  lemma FailsInTime(b: Node, i: nat, x: nat, e: nat)
    requires Productive(b) && Size(b) > 0 && x <= Work(Nodes(b), e)
    ensures Times(i, Calls(b)) + x <= Work(Nodes(b), Times(i, Size(b)) + e)
  {
    hide Productive, Nodes, Calls, Size, Times, Work;
    CallsBounded(b);
    TimesWork(i, Nodes(b), Size(b), Calls(b));
    WorkAdds(Nodes(b), Times(i, Size(b)), Nodes(b), e);
  }

  /** Emission that fails in an optional copy. */
  lemma FailsInCopy(b: Node, i: nat, x: nat, e: nat)
    requires Productive(b) && x <= Work(Nodes(b), e)
    ensures Times(i, Calls(b)) + x <= Work(Nodes(b), Times(i, 1 + Size(b)) + e)
  {
    hide Productive, Nodes, Calls, Size, Times, Work;
    CallsBounded(b);
    OptionalBounded(b, i);
    WorkAdds(Nodes(b), Times(i, 1 + Size(b)), Nodes(b), e);
  }

  /** Emission that fails after the mandatory copies. */
  lemma FailsInRest(b: Node, min: nat, max: int, x: nat, e: nat)
    requires Productive(Repeat(b, min, max)) && x <= Work(Nodes(b), e)
    ensures Times(min, Calls(b)) + x <= Work(Nodes(b), Times(min, Size(b)) + e + 1)
  {
    RepeatCalls(b, min, max);
    hide Productive, Nodes, Calls, Size, Times, Work;
    CallsBounded(b);
    MandatoryBounded(b, min);
    BudgetWithin(Nodes(b), Times(min, Size(b)), Times(min, Size(b)) + 1);
    WorkAdds(Nodes(b), Times(min, Size(b)) + 1, Nodes(b), e);
  }

  lemma FailsInside(nodes: nat, x: nat, e: nat)
    requires x <= Work(nodes, e + 1)
    ensures 1 + x <= Work(1 + nodes, e + 1)
  {
    WorkOfBoth(1, nodes, e + 1);
  }

  // ----- code is local -----

  /** r2 has the same instructions in [lo, hi) and knows every class r knows. */
  ghost predicate Agrees(r: Program, r2: Program, lo: nat, hi: nat) {
    lo <= hi && hi <= |r.code| && hi <= |r2.code| && r.classes <= r2.classes &&
    forall pc | lo <= pc < hi :: r2.code[pc] == r.code[pc]
  }

  /** Emitted code survives anything that happens outside its range. */
  lemma {:induction false} CodeFrame(n: Node, r: Program, r2: Program, lo: nat, hi: nat)
    requires WellFormed(n) && Code(n, r, lo, hi) && Agrees(r, r2, lo, hi)
    ensures Code(n, r2, lo, hi)
    decreases n, 0
  {
    match n
    case Concat(c) =>
      var at: seq<nat> :| ConcatCode(c, r, lo, hi, at);
      forall k | 0 <= k < |c|
        ensures Code(c[k], r2, at[k], at[k + 1])
      {
        Ascending(at, k, lo, hi);
        CodeFrame(c[k], r, r2, at[k], at[k + 1]);
      }
      assert ConcatCode(c, r2, lo, hi, at);
    case Alt(c) =>
      var at: seq<nat> :| AltCode(c, r, lo, hi, at);
      AltFrame(c, r, r2, lo, hi, at);
    case Repeat(b, min, max) =>
      var mid: nat, at: seq<nat> :| TimesCode(b, min, r, lo, mid, at) && RestCode(b, min, max, r, mid, hi);
      TimesStay(b, min, r, lo, mid, at);
      RestStays(b, min, max, r, mid, hi);
      forall i | 0 <= i < min
        ensures Code(b, r2, at[i], at[i + 1])
      {
        Ascending(at, i, lo, mid);
        CodeFrame(b, r, r2, at[i], at[i + 1]);
      }
      assert TimesCode(b, min, r2, lo, mid, at);
      RestFrame(b, min, max, r, r2, mid, hi);
    case _ =>
  }

  lemma {:induction false} Ascending(at: seq<nat>, k: nat, lo: nat, hi: nat)
    requires k + 1 < |at| && at[0] == lo && at[|at| - 1] == hi
    requires forall i | 0 <= i < |at| - 1 :: at[i] <= at[i + 1]
    ensures lo <= at[k] <= at[k + 1] <= hi
  {
    var i := k;
    while i > 0
      invariant 0 <= i <= k && at[i] <= at[k]
    {
      i := i - 1;
      assert at[i] <= at[i + 1];
    }
    i := k + 1;
    while i < |at| - 1
      invariant k + 1 <= i < |at| && at[k + 1] <= at[i]
    {
      assert at[i] <= at[i + 1];
      i := i + 1;
    }
  }

  lemma {:induction false} AltFrame(c: seq<Node>, r: Program, r2: Program, lo: nat, hi: nat, at: seq<nat>)
    requires WellFormed(Alt(c)) && AltCode(c, r, lo, hi, at) && Agrees(r, r2, lo, hi)
    ensures AltCode(c, r2, lo, hi, at)
    decreases c, 1
  {
    var last := |c| - 1;
    assert forall k | 0 <= k < last :: AltArm(c[k], r, at[k], at[k + 1], hi) ==> at[k] <= at[k + 1];
    var ends := at + [hi];
    Ascending(ends, last, lo, hi);
    CodeFrame(c[last], r, r2, at[last], hi);
    forall k | 0 <= k < last
      ensures AltArm(c[k], r2, at[k], at[k + 1], hi)
    {
      assert AltArm(c[k], r, at[k], at[k + 1], hi);
      Ascending(ends, k, lo, hi);
      CodeFrame(c[k], r, r2, at[k] + 1, at[k + 1] - 1);
    }
  }

  lemma {:induction false} RestFrame(b: Node, min: nat, max: int, r: Program, r2: Program, lo: nat, hi: nat)
    requires WellFormed(b) && RestCode(b, min, max, r, lo, hi) && Agrees(r, r2, lo, hi)
    ensures RestCode(b, min, max, r2, lo, hi)
    decreases b, 1
  {
    if max < 0 {
      CodeFrame(b, r, r2, lo + 1, hi - 1);
    } else {
      var at := Copies(b, min, max, r, lo, hi);
      forall i | 0 <= i < Extra(min, max)
        ensures OptionalArm(b, r2, at[i], at[i + 1], hi)
      {
        assert forall q | 0 <= q < |at| - 1 :: OptionalArm(b, r, at[q], at[q + 1], hi) ==> at[q] <= at[q + 1];
        Ascending(at, i, lo, hi);
        assert OptionalArm(b, r, at[i], at[i + 1], hi);
        CodeFrame(b, r, r2, at[i] + 1, at[i + 1]);
      }
      assert OptionalCode(b, Extra(min, max), r2, lo, hi, at);
    }
  }

  // ----- the compiler -----

  /** The starts of consecutive arms lie at least two instructions apart. */
  ghost predicate Spaced(at: seq<nat>) {
    forall a, b | 0 <= a < b < |at| :: at[a] + 2 <= at[b]
  }

  /** An arm whose closing jump is not aimed yet. */
  ghost predicate OpenArm(n: Node, r: Program, lo: nat, next: nat) {
    lo + 2 <= next <= |r.code| && r.code[lo] == ISplit(next) && r.code[next - 1].IJmp? && Code(n, r, lo + 1, next - 1)
  }

  /** The first |at| - 1 arms of an alternation, their jumps still open. */
  ghost predicate OpenArms(c: seq<Node>, r: Program, at: seq<nat>)
    requires |at| <= |c| + 1
  {
    Spaced(at) && forall k | 0 <= k < |at| - 1 :: OpenArm(c[k], r, at[k], at[k + 1])
  }

  /** An optional copy whose split is not aimed yet. */
  ghost predicate OpenCopy(b: Node, r: Program, lo: nat, next: nat) {
    lo < next <= |r.code| && r.code[lo].ISplit? && Code(b, r, lo + 1, next)
  }

  ghost predicate Rising(at: seq<nat>) {
    forall a, b | 0 <= a < b < |at| :: at[a] < at[b]
  }

  ghost predicate OpenCopies(b: Node, r: Program, at: seq<nat>) {
    Rising(at) && forall k | 0 <= k < |at| - 1 :: OpenCopy(b, r, at[k], at[k + 1])
  }

  function Aimed(inst: Inst, target: nat): Inst {
    match inst
    case ISplit(_) => ISplit(target)
    case IJmp(_) => IJmp(target)
    case _ => inst
  }

  /** r2 differs from r exactly in that the instructions at pcs are aimed at target. */
  ghost predicate Patched(r: Program, r2: Program, pcs: seq<nat>, target: nat) {
    |r2.code| == |r.code| && r2.classes == r.classes &&
    forall pc | 0 <= pc < |r.code| :: r2.code[pc] == if pc in pcs then Aimed(r.code[pc], target) else r.code[pc]
  }

  lemma {:induction false} CloseArms(c: seq<Node>, r: Program, r2: Program, lo: nat, hi: nat, at: seq<nat>, jumps: seq<nat>)
    requires WellFormed(Alt(c)) && |at| == |c| && at[0] == lo && at[|c| - 1] <= hi == |r.code|
    requires OpenArms(c, r, at) && Code(c[|c| - 1], r, at[|c| - 1], hi)
    requires |jumps| == |c| - 1 && forall k | 0 <= k < |jumps| :: jumps[k] + 1 == at[k + 1]
    requires Patched(r, r2, jumps, hi)
    ensures AltCode(c, r2, lo, hi, at)
  {
    var last := |c| - 1;
    forall k | 0 <= k < last
      ensures AltArm(c[k], r2, at[k], at[k + 1], hi)
    {
      assert OpenArm(c[k], r, at[k], at[k + 1]);
      assert jumps[k] + 1 == at[k + 1] && jumps[k] in jumps;
      forall m | 0 <= m < |jumps|
        ensures jumps[m] < at[k] || jumps[m] >= at[k + 1] - 1
      {
        assert if m < k then at[m + 1] <= at[k] else at[k + 1] <= at[m + 1];
      }
      CodeFrame(c[k], r, r2, at[k] + 1, at[k + 1] - 1);
    }
    forall m | 0 <= m < |jumps|
      ensures jumps[m] < at[last]
    {
      assert at[m + 1] <= at[last];
    }
    CodeFrame(c[last], r, r2, at[last], hi);
  }

  lemma {:induction false} CloseCopies(b: Node, r: Program, r2: Program, lo: nat, hi: nat, at: seq<nat>)
    requires WellFormed(b) && |at| > 0 && at[0] == lo && at[|at| - 1] == hi == |r.code|
    requires OpenCopies(b, r, at) && Patched(r, r2, at[..|at| - 1], hi)
    ensures OptionalCode(b, |at| - 1, r2, lo, hi, at)
  {
    var splits := at[..|at| - 1];
    forall k | 0 <= k < |at| - 1
      ensures OptionalArm(b, r2, at[k], at[k + 1], hi)
    {
      assert OpenCopy(b, r, at[k], at[k + 1]);
      assert splits[k] == at[k] && at[k] in splits;
      forall m | 0 <= m < |splits|
        ensures splits[m] <= at[k] || splits[m] >= at[k + 1]
      {
        assert if m <= k then at[m] <= at[k] else at[k + 1] <= at[m];
      }
      CodeFrame(b, r, r2, at[k] + 1, at[k + 1]);
    }
  }

  /** r2 is r with more appended. */
  ghost predicate Extends(r: Program, r2: Program) {
    r.code <= r2.code && r.classes <= r2.classes
  }

  /** The copies of a sequence emitted so far. */
  ghost predicate Pieces(c: seq<Node>, r: Program, at: seq<nat>)
    requires |at| <= |c| + 1
  {
    forall k | 0 <= k < |at| - 1 :: at[k] <= at[k + 1] && Code(c[k], r, at[k], at[k + 1])
  }

  lemma {:induction false} AddPiece(c: seq<Node>, i: nat, r: Program, r2: Program, at: seq<nat>)
    requires i < |c| && |at| == i + 1 && at[i] == |r.code| && Pieces(c, r, at) && Extends(r, r2)
    requires forall k | 0 <= k < |c| :: WellFormed(c[k])
    requires Code(c[i], r2, at[i], |r2.code|)
    ensures Pieces(c, r2, at + [|r2.code|])
  {
    forall k | 0 <= k < i
      ensures Code(c[k], r2, at[k], at[k + 1])
    {
      CodeFrame(c[k], r, r2, at[k], at[k + 1]);
    }
  }

  lemma {:induction false} ArmsExtend(c: seq<Node>, r: Program, r2: Program, at: seq<nat>)
    requires WellFormed(Alt(c)) && 0 < |at| <= |c| && OpenArms(c, r, at) && Extends(r, r2)
    ensures OpenArms(c, r2, at)
  {
    forall k | 0 <= k < |at| - 1
      ensures OpenArm(c[k], r2, at[k], at[k + 1])
    {
      assert OpenArm(c[k], r, at[k], at[k + 1]);
      CodeFrame(c[k], r, r2, at[k] + 1, at[k + 1] - 1);
    }
  }

  /** From r: the split, the body's code (body is the program after it), the jump, and the split aimed. */
  lemma {:induction false} AddArm(c: seq<Node>, i: nat, r: Program, body: Program, r2: Program, at: seq<nat>)
    requires WellFormed(Alt(c)) && i < |c| - 1 && |at| == i + 1 && at[i] == |r.code| && OpenArms(c, r, at)
    requires |body.code| > |r.code| && Extends(Program(r.code + [ISplit(0)], r.classes), body)
    requires Code(c[i], body, at[i] + 1, |body.code|)
    requires r2 == Program((body.code + [IJmp(0)])[at[i] := ISplit(|body.code| + 1)], body.classes)
    ensures OpenArms(c, r2, at + [|r2.code|])
  {
    assert Extends(r, r2);
    ArmsExtend(c, r, r2, at);
    CodeFrame(c[i], body, r2, at[i] + 1, |body.code|);
    var at2 := at + [|r2.code|];
    forall a, b | 0 <= a < b < |at2|
      ensures at2[a] + 2 <= at2[b]
    {
      assert b == i + 1 && a < i ==> at[a] + 2 <= at[i];
    }
    forall k | 0 <= k < i + 1
      ensures OpenArm(c[k], r2, at2[k], at2[k + 1])
    {
      assert k < i ==> OpenArm(c[k], r2, at[k], at[k + 1]);
    }
  }

  /** From r: a split and the body's code. */
  lemma {:induction false} AddCopy(b: Node, r: Program, r2: Program, at: seq<nat>)
    requires WellFormed(b) && |at| > 0 && at[|at| - 1] == |r.code| && OpenCopies(b, r, at)
    requires |r2.code| > |r.code| && Extends(r, r2) && r2.code[|r.code|].ISplit? && Code(b, r2, |r.code| + 1, |r2.code|)
    ensures OpenCopies(b, r2, at + [|r2.code|])
  {
    var at2 := at + [|r2.code|];
    forall k | 0 <= k < |at|
      ensures OpenCopy(b, r2, at2[k], at2[k + 1])
    {
      if k < |at| - 1 {
        assert OpenCopy(b, r, at[k], at[k + 1]);
        CodeFrame(b, r, r2, at[k] + 1, at[k + 1]);
      }
    }
    forall a, z | 0 <= a < z < |at2|
      ensures at2[a] < at2[z]
    {
      assert z == |at| && a < z - 1 ==> at[a] < at[|at| - 1];
    }
  }

  lemma {:induction false} TimesExtend(b: Node, k: nat, r: Program, r2: Program, lo: nat, hi: nat, at: seq<nat>)
    requires WellFormed(b) && TimesCode(b, k, r, lo, hi, at) && Extends(r, r2)
    ensures TimesCode(b, k, r2, lo, hi, at)
  {
    forall i | 0 <= i < k
      ensures Code(b, r2, at[i], at[i + 1])
    {
      Ascending(at, i, lo, hi);
      CodeFrame(b, r, r2, at[i], at[i + 1]);
    }
  }

  lemma AddTime(b: Node, k: nat, r: Program, r2: Program, lo: nat, at: seq<nat>)
    requires WellFormed(b) && TimesCode(b, k, r, lo, |r.code|, at) && Extends(r, r2)
    requires Code(b, r2, |r.code|, |r2.code|)
    ensures TimesCode(b, k + 1, r2, lo, |r2.code|, at + [|r2.code|])
  {
    TimesExtend(b, k, r, r2, lo, |r.code|, at);
  }

  ghost predicate Distinct(classes: seq<ByteSet>) {
    forall i, j | 0 <= i < j < |classes| :: classes[i] != classes[j]
  }

  class RegexCompiler {
    var program: seq<Inst>
    var classes: seq<ByteSet>
    /** How often Emit has run. */
    ghost var emits: nat

    ghost predicate Valid()
      reads this
    {
      |program| <= MAX_PROGRAM && Distinct(classes)
    }

    function Here(): nat
      reads this
    {
      |program|
    }

    function Output(): Program
      reads this
    {
      Program(program, classes)
    }

    constructor ()
      ensures Valid() && Output() == Program([], []) && emits == 0
    {
      program, classes, emits := [], [], 0;
    }

    method Add(inst: Inst) returns (ok: bool)
      requires Valid()
      modifies this`program
      ensures Valid() && ok == (|old(program)| < MAX_PROGRAM)
      ensures program == if ok then old(program) + [inst] else old(program)
    {
      if |program| >= MAX_PROGRAM {
        return false;
      }
      program := program + [inst];
      return true;
    }

    /** Equal sets share one table entry. */
    method AddClass(cls: ByteSet) returns (index: nat)
      requires Valid()
      modifies this`classes
      ensures Valid() && index < |classes| && classes[index] == cls
      ensures classes == if cls in old(classes) then old(classes) else old(classes) + [cls]
    {
      for i := 0 to |classes|
        invariant cls !in classes[..i]
      {
        if classes[i] == cls {
          return i;
        }
      }
      classes := classes + [cls];
      return |classes| - 1;
    }

    /** `program_[pc].arg = target` */
    method Patch(pc: nat, target: nat)
      requires Valid() && pc < |program|
      modifies this`program
      ensures Valid() && program == old(program)[pc := Aimed(old(program[pc]), target)]
    {
      program := program[pc := Aimed(program[pc], target)];
    }

    method PatchAll(pcs: seq<nat>)
      requires Valid() && forall k | 0 <= k < |pcs| :: pcs[k] < |program|
      modifies this`program
      ensures Valid() && Patched(old(Output()), Output(), pcs, |program|)
    {
      for k := 0 to |pcs|
        invariant Valid() && Patched(old(Output()), Output(), pcs[..k], |program|)
      {
        assert pcs[..k + 1] == pcs[..k] + [pcs[k]];
        Patch(pcs[k], Here());
      }
      assert pcs[..|pcs|] == pcs;
    }

    /** What every emitting method promises: it succeeds exactly when the tree fits, and appends. */
    twostate predicate Appended(ok: bool, size: nat)
      reads this
    {
      Valid() && Extends(old(Output()), Output()) &&
      (ok <==> |old(program)| + size <= MAX_PROGRAM) &&
      (ok ==> |program| == |old(program)| + size)
    }

    /** Success costs calls. Failure costs no more than nodes nodes allow for the code appended, and room. */
    twostate predicate Worked(ok: bool, calls: nat, productive: bool, nodes: nat, room: nat)
      reads this
    {
      |old(program)| <= |program| && old(emits) <= emits &&
      (ok ==> emits == old(emits) + calls) &&
      (!ok && productive ==> emits - old(emits) <= Work(nodes, |program| - |old(program)| + room))
    }

    method Emit(n: Node) returns (ok: bool)
      requires Valid() && WellFormed(n)
      modifies this
      ensures Appended(ok, Size(n))
      ensures Worked(ok, Calls(n), Productive(n), Nodes(n), 1)
      ensures ok ==> Code(n, Output(), |old(program)|, |program|)
      decreases n, 2
    {
      emits := emits + 1;
      match n {
        case Empty => ok := true;
        case Lit(b) => ok := Add(IByte(b));
        case Class(cls) =>
          var index := AddClass(cls);
          ok := Add(IClass(index));
        case Assertion(k) => ok := Add(IAssert(k));
        case Concat(c) => ok := EmitConcat(c);
        case Alt(c) => ok := EmitAlt(c);
        case Repeat(b, min, max) => ok := EmitRepeat(b, min, max);
      }
      if !ok && Productive(n) {
        FailsInside(Nodes(n) - 1, emits - old(emits) - 1, |program| - |old(program)|);
      }
    }

    method EmitConcat(c: seq<Node>) returns (ok: bool)
      requires Valid() && forall k | 0 <= k < |c| :: WellFormed(c[k])
      modifies this
      ensures Appended(ok, SizeUpTo(c, |c|))
      ensures Worked(ok, CallsUpTo(c, |c|), Productive(Concat(c)), NodesUpTo(c, |c|), 1)
      ensures ok ==> exists at: seq<nat> :: ConcatCode(c, Output(), |old(program)|, |program|, at)
      decreases c, 3
    {
      hide Code;
      ghost var at: seq<nat> := [|program|];
      for i := 0 to |c|
        invariant Appended(true, SizeUpTo(c, i)) && emits == old(emits) + CallsUpTo(c, i)
        invariant |at| == i + 1 && at[0] == |old(program)| && at[i] == |program| && Pieces(c, Output(), at)
      {
        ghost var r, done := Output(), emits;
        SizeGrows(c, i + 1, |c|);
        ok := Emit(c[i]);
        if !ok {
          if Productive(Concat(c)) {
            FailsInChild(c, i, emits - done, |program| - |r.code| + 1, |program| - |old(program)| + 1);
          }
          return;
        }
        AddPiece(c, i, r, Output(), at);
        at := at + [|program|];
      }
      ok := true;
      assert ConcatCode(c, Output(), |old(program)|, |program|, at);
    }

    /** `split; A; jmp end; split; B; jmp end; ...; C` */
    method EmitAlt(c: seq<Node>) returns (ok: bool)
      requires Valid() && WellFormed(Alt(c))
      modifies this
      ensures Appended(ok, Size(Alt(c)))
      ensures Worked(ok, CallsUpTo(c, |c|), Productive(Alt(c)), NodesUpTo(c, |c|), 1)
      ensures ok ==> exists at: seq<nat> :: AltCode(c, Output(), |old(program)|, |program|, at)
      decreases c, 4
    {
      hide Code;
      var last := |c| - 1;
      var jumps: seq<nat>;
      ghost var at: seq<nat>;
      ok, jumps, at := EmitArms(c);
      if !ok {
        return;
      }
      ghost var r, done := Output(), emits;
      ok := Emit(c[last]);
      if !ok {
        if Productive(Alt(c)) {
          FailsInChild(c, last, emits - done, |program| - |r.code| + 1, |program| - |old(program)| + 1);
        }
        return;
      }
      ArmsExtend(c, r, Output(), at);
      r := Output();
      JumpsInside(c, r, at, jumps);
      PatchAll(jumps);
      CloseArms(c, r, Output(), |old(program)|, |program|, at, jumps);
    }

    /** Every arm but the last, with the pcs of the jumps still to be aimed. */
    method EmitArms(c: seq<Node>) returns (ok: bool, jumps: seq<nat>, ghost at: seq<nat>)
      requires Valid() && WellFormed(Alt(c))
      modifies this
      ensures Valid() && Extends(old(Output()), Output())
      ensures !ok ==> |old(program)| + Size(Alt(c)) > MAX_PROGRAM
      ensures ok ==> Appended(true, SizeUpTo(c, |c| - 1) + 2 * (|c| - 1))
      ensures Worked(ok, CallsUpTo(c, |c| - 1), Productive(Alt(c)), NodesUpTo(c, |c|), 1)
      ensures ok ==> |at| == |c| && at[0] == |old(program)| && at[|c| - 1] == |program| && OpenArms(c, Output(), at)
      ensures ok ==> |jumps| == |c| - 1 && forall k | 0 <= k < |jumps| :: jumps[k] + 1 == at[k + 1]
      decreases c, 3
    {
      hide Code;
      jumps, at := [], [|program|];
      for i := 0 to |c| - 1
        invariant Appended(true, SizeUpTo(c, i) + 2 * i) && emits == old(emits) + CallsUpTo(c, i)
        invariant |at| == i + 1 && at[0] == |old(program)| && at[i] == |program|
        invariant OpenArms(c, Output(), at)
        invariant |jumps| == i && forall k | 0 <= k < i :: jumps[k] + 1 == at[k + 1]
      {
        ghost var done, start := emits, |program|;
        SizeGrows(c, i + 1, |c|);
        ok := EmitArm(c, i, at);
        if !ok {
          if Productive(Alt(c)) {
            FailsInChild(c, i, emits - done, |program| - start + 1, |program| - |old(program)| + 1);
          }
          return;
        }
        jumps := jumps + [|program| - 1];
        at := at + [|program|];
      }
      ok := true;
    }

    /** One turn of the alternation's loop: `split next; child; jmp ?`, the split aimed past the jump. */
    method EmitArm(c: seq<Node>, i: nat, ghost at: seq<nat>) returns (ok: bool)
      requires Valid() && WellFormed(Alt(c)) && i < |c| - 1
      requires |at| == i + 1 && at[i] == |program| && OpenArms(c, Output(), at)
      modifies this
      ensures Appended(ok, Size(c[i]) + 2)
      ensures Worked(ok, Calls(c[i]), Productive(c[i]), Nodes(c[i]), 1)
      ensures ok ==> OpenArms(c, Output(), at + [|program|])
      decreases c, 2
    {
      hide Code;
      var splitPc := Here();
      ok := Add(ISplit(0));
      if !ok {
        return;
      }
      ok := Emit(c[i]);
      if !ok {
        WorkGrows(Nodes(c[i]), Nodes(c[i]), |program| - |old(program)|, |program| - |old(program)| + 1);
        return;
      }
      ghost var body := Output();
      ok := Add(IJmp(0));
      if !ok {
        if Productive(c[i]) {
          CallsBounded(c[i]);
          BudgetWithin(Nodes(c[i]), Size(c[i]), |program| - |old(program)| + 1);
        }
        return;
      }
      Patch(splitPc, Here());
      AddArm(c, i, old(Output()), body, Output(), at);
    }

    /** The mandatory copies, then either the loop or the nested optional copies. */
    method EmitRepeat(b: Node, min: nat, max: int) returns (ok: bool)
      requires Valid() && WellFormed(Repeat(b, min, max))
      modifies this
      ensures Appended(ok, Size(Repeat(b, min, max)))
      ensures Worked(ok, Calls(Repeat(b, min, max)) - 1, Productive(Repeat(b, min, max)), Nodes(b), 1)
      ensures ok ==> Code(Repeat(b, min, max), Output(), |old(program)|, |program|)
      decreases b, 5
    {
      RepeatSize(b, min, max);
      RepeatCalls(b, min, max);
      hide TimesCode, LoopCode, OptionalCode, Size, Times, Calls, Productive, Nodes, Work;
      ghost var at: seq<nat>;
      ok, at := EmitTimes(b, min);
      if !ok {
        return;
      }
      ghost var r, mid, done := Output(), |program|, emits;
      if max < 0 {
        ok := EmitLoop(b);
      } else {
        ok := EmitOptional(b, max - min);
      }
      if ok {
        TimesExtend(b, min, r, Output(), |old(program)|, mid, at);
      } else if Productive(Repeat(b, min, max)) {
        FailsInRest(b, min, max, emits - done, |program| - mid);
      }
    }

    method EmitTimes(b: Node, min: nat) returns (ok: bool, ghost at: seq<nat>)
      requires Valid() && WellFormed(b)
      modifies this
      ensures Appended(ok, Times(min, Size(b)))
      ensures Worked(ok, Times(min, Calls(b)), Productive(b), Nodes(b), 1)
      ensures ok ==> TimesCode(b, min, Output(), |old(program)|, |program|, at)
      decreases b, 3
    {
      hide Times, Size, Calls, Productive, Nodes, Work;
      hide Code;
      NoneYet(Size(b));
      NoneYet(Calls(b));
      at := [|program|];
      for i := 0 to min
        invariant Appended(true, Times(i, Size(b))) && emits == old(emits) + Times(i, Calls(b))
        invariant TimesCode(b, i, Output(), |old(program)|, |program|, at)
      {
        ghost var r, done := Output(), emits;
        OneMore(i, min, Size(b));
        OneMore(i, min, Calls(b));
        ok := Emit(b);
        if !ok {
          if Productive(b) {
            FailsInTime(b, i, emits - done, |program| - |r.code| + 1);
          }
          return;
        }
        AddTime(b, i, r, Output(), |old(program)|, at);
        at := at + [|program|];
      }
      ok := true;
    }

    /** `L: split end; body; jmp L` */
    method EmitLoop(b: Node) returns (ok: bool)
      requires Valid() && WellFormed(b)
      modifies this
      ensures Appended(ok, Size(b) + 2)
      ensures Worked(ok, Calls(b), Productive(b), Nodes(b), 0)
      ensures ok ==> LoopCode(b, Output(), |old(program)|, |program|)
      decreases b, 3
    {
      hide Code;
      var loop := Here();
      ok := Add(ISplit(0));
      if !ok {
        return;
      }
      ok := Emit(b);
      if !ok {
        return;
      }
      ghost var r := Output();
      ok := Add(IJmp(loop));
      if !ok {
        if Productive(b) {
          CallsBounded(b);
          BudgetWithin(Nodes(b), Size(b), Size(b) + 1);
        }
        return;
      }
      Patch(loop, Here());
      CodeFrame(b, r, Output(), loop + 1, |program| - 1);
    }

    /** cnt times `split end; body`, every split aimed past everything that remains. */
    method EmitOptional(b: Node, cnt: nat) returns (ok: bool)
      requires Valid() && WellFormed(b)
      modifies this
      ensures Appended(ok, Times(cnt, 1 + Size(b)))
      ensures Worked(ok, Times(cnt, Calls(b)), Productive(b), Nodes(b), 0)
      ensures ok ==> exists at: seq<nat> :: OptionalCode(b, cnt, Output(), |old(program)|, |program|, at)
      decreases b, 4
    {
      hide Times, Size, Calls, Productive, Nodes, Work;
      hide Code;
      NoneYet(1 + Size(b));
      NoneYet(Calls(b));
      var splits: seq<nat> := [];
      ghost var at: seq<nat> := [|program|];
      for i := 0 to cnt
        invariant Appended(true, Times(i, 1 + Size(b))) && emits == old(emits) + Times(i, Calls(b))
        invariant |at| == i + 1 && at[0] == |old(program)| && at[i] == |program| && OpenCopies(b, Output(), at)
        invariant splits == at[..i]
      {
        ghost var done, start := emits, |program|;
        OneMore(i, cnt, 1 + Size(b));
        OneMore(i, cnt, Calls(b));
        splits := splits + [Here()];
        ok := EmitCopy(b, at);
        if !ok {
          if Productive(b) {
            FailsInCopy(b, i, emits - done, |program| - start);
          }
          return;
        }
        at := at + [|program|];
      }
      ok := true;
      ghost var r := Output();
      PatchAll(splits);
      CloseCopies(b, r, Output(), |old(program)|, |program|, at);
    }

    method EmitCopy(b: Node, ghost at: seq<nat>) returns (ok: bool)
      requires Valid() && WellFormed(b) && |at| > 0 && at[|at| - 1] == |program| && OpenCopies(b, Output(), at)
      modifies this
      ensures Appended(ok, 1 + Size(b))
      ensures Worked(ok, Calls(b), Productive(b), Nodes(b), 0)
      ensures ok ==> OpenCopies(b, Output(), at + [|program|])
      decreases b, 3
    {
      hide Code;
      ok := Add(ISplit(0));
      if !ok {
        return;
      }
      ok := Emit(b);
      if ok {
        AddCopy(b, old(Output()), Output(), at);
      }
    }
  }

  lemma {:induction false} JumpsInside(c: seq<Node>, r: Program, at: seq<nat>, jumps: seq<nat>)
    requires |at| == |c| && OpenArms(c, r, at)
    requires |jumps| == |c| - 1 && forall k | 0 <= k < |jumps| :: jumps[k] + 1 == at[k + 1]
    ensures forall k | 0 <= k < |jumps| :: jumps[k] < |r.code|
  {
    forall k | 0 <= k < |jumps|
      ensures jumps[k] < |r.code|
    {
      assert OpenArm(c[k], r, at[k], at[k + 1]);
    }
  }

  lemma NoneYet(size: nat)
    ensures Times(0, size) == 0
  {
  }

  lemma OneMore(i: nat, n: nat, size: nat)
    requires i < n
    ensures Times(i + 1, size) == Times(i, size) + size <= Times(n, size)
  {
    assert (n - i - 1) * size >= 0;
    assert n * size == (i + 1) * size + (n - i - 1) * size;
  }
}

/** The NFA program, the layout the compiler gives each tree, and why that layout means the tree. */
module RegexProgram {
  import opened Common
  import opened RegexSyntax

  datatype Inst =
    | IByte(b: Byte)
    | IClass(arg: nat)
    | ISplit(target: nat)
    | IJmp(target: nat)
    | IAssert(kind: AssertKind)
    | IMatch

  /** `opal::Regex`: the instructions and the class table they index. */
  datatype Program = Program(code: seq<Inst>, classes: seq<ByteSet>)

  // ----- layout -----

  /** code[lo..hi) is what the compiler emits for n. */
  ghost predicate Code(n: Node, r: Program, lo: nat, hi: nat)
    decreases n, 0
  {
    hi <= |r.code| &&
    match n
    case Empty => lo == hi
    case Lit(b) => hi == lo + 1 && r.code[lo] == IByte(b)
    case Class(s) =>
      hi == lo + 1 && r.code[lo].IClass? && r.code[lo].arg < |r.classes| && r.classes[r.code[lo].arg] == s
    case Assertion(k) => hi == lo + 1 && r.code[lo] == IAssert(k)
    case Concat(c) => exists at: seq<nat> :: ConcatCode(c, r, lo, hi, at)
    case Alt(c) => exists at: seq<nat> :: AltCode(c, r, lo, hi, at)
    case Repeat(b, min, max) =>
      exists mid: nat, at: seq<nat> :: TimesCode(b, min, r, lo, mid, at) && RestCode(b, min, max, r, mid, hi)
  }

  /** Child k occupies [at[k], at[k+1]). */
  ghost predicate ConcatCode(c: seq<Node>, r: Program, lo: nat, hi: nat, at: seq<nat>)
    decreases c, 1
  {
    |at| == |c| + 1 && at[0] == lo && at[|c|] == hi &&
    forall k | 0 <= k < |c| :: at[k] <= at[k + 1] && Code(c[k], r, at[k], at[k + 1])
  }

  /** Every child but the last is `split next; child; jmp hi`. */
  ghost predicate AltCode(c: seq<Node>, r: Program, lo: nat, hi: nat, at: seq<nat>)
    decreases c, 1
  {
    |at| == |c| > 0 && at[0] == lo && at[|c| - 1] <= hi <= |r.code| && Code(c[|c| - 1], r, at[|c| - 1], hi) &&
    forall k | 0 <= k < |c| - 1 :: AltArm(c[k], r, at[k], at[k + 1], hi)
  }

  ghost predicate AltArm(n: Node, r: Program, lo: nat, next: nat, hi: nat)
    decreases n, 1
  {
    lo + 2 <= next <= |r.code| && r.code[lo] == ISplit(next) && r.code[next - 1] == IJmp(hi) &&
    Code(n, r, lo + 1, next - 1)
  }

  ghost predicate TimesCode(b: Node, k: nat, r: Program, lo: nat, hi: nat, at: seq<nat>)
    decreases b, 1
  {
    |at| == k + 1 && at[0] == lo && at[k] == hi <= |r.code| &&
    forall i | 0 <= i < k :: at[i] <= at[i + 1] && Code(b, r, at[i], at[i + 1])
  }

  /** What follows the mandatory copies of a repeat. */
  ghost predicate RestCode(b: Node, min: nat, max: int, r: Program, lo: nat, hi: nat)
    decreases b, 3
  {
    if max < 0 then LoopCode(b, r, lo, hi)
    else exists at: seq<nat> :: OptionalCode(b, Extra(min, max), r, lo, hi, at)
  }

  function Extra(min: nat, max: int): nat {
    if min <= max then max - min else 0
  }

  /** `L: split hi; body; jmp L` */
  ghost predicate LoopCode(b: Node, r: Program, lo: nat, hi: nat)
    decreases b, 1
  {
    lo + 2 <= hi <= |r.code| && r.code[lo] == ISplit(hi) && r.code[hi - 1] == IJmp(lo) && Code(b, r, lo + 1, hi - 1)
  }

  /** k times `split hi; body`. */
  ghost predicate OptionalCode(b: Node, k: nat, r: Program, lo: nat, hi: nat, at: seq<nat>)
    decreases b, 2
  {
    |at| == k + 1 && at[0] == lo && at[k] == hi <= |r.code| &&
    forall i | 0 <= i < k :: OptionalArm(b, r, at[i], at[i + 1], hi)
  }

  ghost predicate OptionalArm(b: Node, r: Program, lo: nat, next: nat, hi: nat)
    decreases b, 1
  {
    lo < next <= |r.code| && r.code[lo] == ISplit(hi) && Code(b, r, lo + 1, next)
  }

  // ----- control flow -----

  /** Every instruction in [lo, hi) sends control to [from, to] only. */
  ghost predicate Within(r: Program, lo: nat, hi: nat, from: nat, to: nat) {
    from <= lo <= hi <= to && hi <= |r.code| &&
    forall pc | lo <= pc < hi :: Targets(r, r.code[pc], from, to)
  }

  predicate Targets(r: Program, inst: Inst, from: nat, to: nat) {
    match inst
    case ISplit(a) => from <= a <= to
    case IJmp(a) => from <= a <= to
    case IMatch => false
    case IClass(a) => a < |r.classes|
    case _ => true
  }

  /** Control leaves a fragment only through its end. */
  lemma {:induction false} CodeStays(n: Node, r: Program, lo: nat, hi: nat)
    requires WellFormed(n) && Code(n, r, lo, hi)
    ensures Within(r, lo, hi, lo, hi)
    decreases n, 0
  {
    match n
    case Concat(c) =>
      var at: seq<nat> :| ConcatCode(c, r, lo, hi, at);
      var k := |c|;
      while k > 0
        invariant 0 <= k <= |c| && Within(r, at[k], hi, at[k], hi)
      {
        k := k - 1;
        CodeStays(c[k], r, at[k], at[k + 1]);
      }
    case Alt(c) =>
      var at: seq<nat> :| AltCode(c, r, lo, hi, at);
      CodeStays(c[|c| - 1], r, at[|c| - 1], hi);
      var k := |c| - 1;
      while k > 0
        invariant 0 <= k < |c| && Within(r, at[k], hi, at[k], hi)
      {
        k := k - 1;
        assert AltArm(c[k], r, at[k], at[k + 1], hi);
        CodeStays(c[k], r, at[k] + 1, at[k + 1] - 1);
      }
    case Repeat(b, min, max) =>
      var mid: nat, at: seq<nat> :| TimesCode(b, min, r, lo, mid, at) && RestCode(b, min, max, r, mid, hi);
      TimesStay(b, min, r, lo, mid, at);
      RestStays(b, min, max, r, mid, hi);
    case _ =>
  }

  // ----- runs -----

  /** From (pc, i), n steps inside [lo, hi) first reach hi, with the text at j. */
  ghost predicate Runs(r: Program, t: Bytes, lo: nat, hi: nat, pc: nat, i: nat, j: nat, n: nat)
    requires hi <= |r.code| && i <= |t|
    decreases n
  {
    if pc == hi then n == 0 && i == j
    else
      lo <= pc < hi && n > 0 &&
      match r.code[pc]
      case IByte(b) => i < |t| && t[i] == b && Runs(r, t, lo, hi, pc + 1, i + 1, j, n - 1)
      case IClass(a) => i < |t| && a < |r.classes| && t[i] in r.classes[a] && Runs(r, t, lo, hi, pc + 1, i + 1, j, n - 1)
      case ISplit(a) => Runs(r, t, lo, hi, pc + 1, i, j, n - 1) || Runs(r, t, lo, hi, a, i, j, n - 1)
      case IJmp(a) => Runs(r, t, lo, hi, a, i, j, n - 1)
      case IAssert(k) => Holds(k, t, i) && Runs(r, t, lo, hi, pc + 1, i, j, n - 1)
      case IMatch => false
  }

  /** The fragment [lo, hi) consumes t[i..j] when entered at pc. */
  ghost predicate Flows(r: Program, t: Bytes, lo: nat, hi: nat, pc: nat, i: nat, j: nat)
    requires hi <= |r.code| && i <= |t|
  {
    exists n: nat :: Runs(r, t, lo, hi, pc, i, j, n)
  }

  /** A run through an inner fragment followed by an outer run is an outer run. */
  lemma {:induction false} Enter(r: Program, t: Bytes, lo: nat, hi: nat, lo2: nat, hi2: nat, pc: nat,
                                 i: nat, m: nat, j: nat, n: nat, n2: nat)
    requires lo <= lo2 <= hi2 <= hi <= |r.code| && i <= |t| && m <= |t|
    requires Runs(r, t, lo2, hi2, pc, i, m, n) && Runs(r, t, lo, hi, hi2, m, j, n2)
    ensures Runs(r, t, lo, hi, pc, i, j, n + n2)
    decreases n
  {
    if pc != hi2 {
      assert n + n2 - 1 == (n - 1) + n2;
      match r.code[pc]
      case IByte(b) => Enter(r, t, lo, hi, lo2, hi2, pc + 1, i + 1, m, j, n - 1, n2);
      case IClass(a) => Enter(r, t, lo, hi, lo2, hi2, pc + 1, i + 1, m, j, n - 1, n2);
      case ISplit(a) =>
        Enter(r, t, lo, hi, lo2, hi2, if Runs(r, t, lo2, hi2, a, i, m, n - 1) then a else pc + 1, i, m, j, n - 1, n2);
      case IJmp(a) => Enter(r, t, lo, hi, lo2, hi2, a, i, m, j, n - 1, n2);
      case IAssert(k) => Enter(r, t, lo, hi, lo2, hi2, pc + 1, i, m, j, n - 1, n2);
    }
  }

  /** An outer run that starts in a closed inner fragment passes through that fragment's end. */
  lemma {:induction false} Leave(r: Program, t: Bytes, lo: nat, hi: nat, lo2: nat, hi2: nat, pc: nat,
                                 i: nat, j: nat, n: nat) returns (m: nat, n1: nat)
    requires lo <= lo2 <= pc <= hi2 <= hi <= |r.code| && i <= |t|
    requires Within(r, lo2, hi2, lo2, hi2) && Runs(r, t, lo, hi, pc, i, j, n)
    ensures m <= |t| && n1 <= n && (pc < hi2 ==> 0 < n1)
    ensures Runs(r, t, lo2, hi2, pc, i, m, n1) && Runs(r, t, lo, hi, hi2, m, j, n - n1)
    decreases n
  {
    hide Flows;
    if pc == hi2 {
      m, n1 := i, 0;
    } else {
      match r.code[pc] {
      case IByte(b) => m, n1 := Leave(r, t, lo, hi, lo2, hi2, pc + 1, i + 1, j, n - 1);
      case IClass(a) => m, n1 := Leave(r, t, lo, hi, lo2, hi2, pc + 1, i + 1, j, n - 1);
      case ISplit(a) =>
        m, n1 := Leave(r, t, lo, hi, lo2, hi2, if Runs(r, t, lo, hi, a, i, j, n - 1) then a else pc + 1, i, j, n - 1);
      case IJmp(a) => m, n1 := Leave(r, t, lo, hi, lo2, hi2, a, i, j, n - 1);
      case IAssert(k) => m, n1 := Leave(r, t, lo, hi, lo2, hi2, pc + 1, i, j, n - 1);
      }
      n1 := n1 + 1;
    }
  }

  /** A flow through a closed inner fragment can be prefixed to, and split off, an outer flow. */
  lemma {:induction false} Through(r: Program, t: Bytes, lo: nat, hi: nat, lo2: nat, hi2: nat, pc: nat, i: nat, j: nat)
    requires lo <= lo2 <= pc <= hi2 <= hi <= |r.code| && i <= |t|
    requires Within(r, lo2, hi2, lo2, hi2)
    ensures Flows(r, t, lo, hi, pc, i, j) <==>
            exists m: nat | m <= |t| :: Flows(r, t, lo2, hi2, pc, i, m) && Flows(r, t, lo, hi, hi2, m, j)
  {
    if Flows(r, t, lo, hi, pc, i, j) {
      var n: nat :| Runs(r, t, lo, hi, pc, i, j, n);
      var m, n1 := Leave(r, t, lo, hi, lo2, hi2, pc, i, j, n);
      assert Flows(r, t, lo2, hi2, pc, i, m) && Flows(r, t, lo, hi, hi2, m, j);
    }
    if m: nat :| m <= |t| && Flows(r, t, lo2, hi2, pc, i, m) && Flows(r, t, lo, hi, hi2, m, j) {
      var n: nat :| Runs(r, t, lo2, hi2, pc, i, m, n);
      var n2: nat :| Runs(r, t, lo, hi, hi2, m, j, n2);
      Enter(r, t, lo, hi, lo2, hi2, pc, i, m, j, n, n2);
    }
  }

  lemma AtEnd(r: Program, t: Bytes, lo: nat, hi: nat, i: nat, j: nat)
    requires hi <= |r.code| && i <= |t|
    ensures Flows(r, t, lo, hi, hi, i, j) <==> i == j
  {
    if i == j {
      assert Runs(r, t, lo, hi, hi, i, j, 0);
    }
  }

  /** In a closed tail of a fragment the rest of the fragment does not matter. */
  lemma {:induction false} Tail(r: Program, t: Bytes, lo: nat, hi: nat, lo2: nat, pc: nat, i: nat, j: nat)
    requires lo <= lo2 <= pc <= hi <= |r.code| && i <= |t|
    requires Within(r, lo2, hi, lo2, hi)
    ensures Flows(r, t, lo, hi, pc, i, j) <==> j <= |t| && Flows(r, t, lo2, hi, pc, i, j)
  {
    Through(r, t, lo, hi, lo2, hi, pc, i, j);
    forall m: nat | m <= |t| {
      AtEnd(r, t, lo, hi, m, j);
    }
  }

  /** One instruction, seen through Flows. */
  lemma {:induction false} FlowStep(r: Program, t: Bytes, lo: nat, hi: nat, pc: nat, i: nat, j: nat)
    requires lo <= pc < hi <= |r.code| && i <= |t|
    ensures Flows(r, t, lo, hi, pc, i, j) <==>
            match r.code[pc]
            case IByte(b) => i < |t| && t[i] == b && Flows(r, t, lo, hi, pc + 1, i + 1, j)
            case IClass(a) => i < |t| && a < |r.classes| && t[i] in r.classes[a] && Flows(r, t, lo, hi, pc + 1, i + 1, j)
            case ISplit(a) => Flows(r, t, lo, hi, pc + 1, i, j) || Flows(r, t, lo, hi, a, i, j)
            case IJmp(a) => Flows(r, t, lo, hi, a, i, j)
            case IAssert(k) => Holds(k, t, i) && Flows(r, t, lo, hi, pc + 1, i, j)
            case IMatch => false
  {
    if Flows(r, t, lo, hi, pc, i, j) {
      var n: nat :| Runs(r, t, lo, hi, pc, i, j, n);
      match r.code[pc]
      case ISplit(a) => assert Runs(r, t, lo, hi, pc + 1, i, j, n - 1) || Runs(r, t, lo, hi, a, i, j, n - 1);
      case IJmp(a) => assert Runs(r, t, lo, hi, a, i, j, n - 1);
      case IAssert(k) => assert Runs(r, t, lo, hi, pc + 1, i, j, n - 1);
      case IByte(b) => assert Runs(r, t, lo, hi, pc + 1, i + 1, j, n - 1);
      case IClass(a) => assert Runs(r, t, lo, hi, pc + 1, i + 1, j, n - 1);
      case IMatch =>
    }
    match r.code[pc]
    case IByte(b) => if i < |t| && t[i] == b { StepBack(r, t, lo, hi, pc, i, pc + 1, i + 1, j); }
    case IClass(a) => if i < |t| && a < |r.classes| && t[i] in r.classes[a] { StepBack(r, t, lo, hi, pc, i, pc + 1, i + 1, j); }
    case ISplit(a) =>
      StepBack(r, t, lo, hi, pc, i, pc + 1, i, j);
      StepBack(r, t, lo, hi, pc, i, a, i, j);
    case IJmp(a) => StepBack(r, t, lo, hi, pc, i, a, i, j);
    case IAssert(k) => if Holds(k, t, i) { StepBack(r, t, lo, hi, pc, i, pc + 1, i, j); }
    case IMatch =>
  }

  lemma StepBack(r: Program, t: Bytes, lo: nat, hi: nat, pc: nat, i: nat, pc2: nat, i2: nat, j: nat)
    requires lo <= pc < hi <= |r.code| && i <= |t| && i2 <= |t| && RunsNext(r, t, pc, i, pc2, i2)
    ensures Flows(r, t, lo, hi, pc2, i2, j) ==> Flows(r, t, lo, hi, pc, i, j)
  {
    if Flows(r, t, lo, hi, pc2, i2, j) {
      var n: nat :| Runs(r, t, lo, hi, pc2, i2, j, n);
      assert Runs(r, t, lo, hi, pc, i, j, n + 1);
    }
  }

  ghost predicate RunsNext(r: Program, t: Bytes, pc: nat, i: nat, pc2: nat, i2: nat)
    requires pc < |r.code| && i <= |t|
  {
    match r.code[pc]
    case IByte(b) => i < |t| && t[i] == b && pc2 == pc + 1 && i2 == i + 1
    case IClass(a) => i < |t| && a < |r.classes| && t[i] in r.classes[a] && pc2 == pc + 1 && i2 == i + 1
    case ISplit(a) => (pc2 == pc + 1 || pc2 == a) && i2 == i
    case IJmp(a) => pc2 == a && i2 == i
    case IAssert(k) => Holds(k, t, i) && pc2 == pc + 1 && i2 == i
    case IMatch => false
  }

  // ----- every fragment means its tree -----

  /** The code emitted for a tree consumes exactly the substrings the tree matches. */
  lemma {:induction false} FragmentMeansTree(x: Node, r: Program, t: Bytes, lo: nat, hi: nat, i: nat, j: nat)
    requires WellFormed(x) && Code(x, r, lo, hi) && i <= |t|
    ensures Flows(r, t, lo, hi, lo, i, j) <==> Matches(x, t, i, j)
    decreases x, 0
  {
    CodeStays(x, r, lo, hi);
    match x
    case Empty => AtEnd(r, t, lo, hi, i, j);
    case Lit(b) => SingleInst(r, t, lo, hi, i, j);
    case Class(s) => SingleInst(r, t, lo, hi, i, j);
    case Assertion(k) => SingleInst(r, t, lo, hi, i, j);
    case Concat(c) =>
      var at: seq<nat> :| ConcatCode(c, r, lo, hi, at);
      assert c[0..] == c;
      ConcatMeans(c, 0, r, t, lo, hi, at, i, j);
    case Alt(c) =>
      var at: seq<nat> :| AltCode(c, r, lo, hi, at);
      AltMeans(c, 0, r, t, lo, hi, at, i, j);
    case Repeat(b, min, max) => RepeatMeans(b, min, max, r, t, lo, hi, i, j);
  }

  lemma SingleInst(r: Program, t: Bytes, lo: nat, hi: nat, i: nat, j: nat)
    requires hi == lo + 1 <= |r.code| && i <= |t|
    requires r.code[lo].IByte? || r.code[lo].IClass? || r.code[lo].IAssert?
    ensures Flows(r, t, lo, hi, lo, i, j) <==>
            match r.code[lo]
            case IByte(b) => i < |t| && t[i] == b && j == i + 1
            case IClass(a) => i < |t| && a < |r.classes| && t[i] in r.classes[a] && j == i + 1
            case IAssert(k) => Holds(k, t, i) && i == j
            case _ => false
  {
    FlowStep(r, t, lo, hi, lo, i, j);
    AtEnd(r, t, lo, hi, i, j);
    if i < |t| {
      AtEnd(r, t, lo, hi, i + 1, j);
    }
  }

  lemma {:induction false} ConcatMeans(c: seq<Node>, k: nat, r: Program, t: Bytes, lo: nat, hi: nat, at: seq<nat>,
                                       i: nat, j: nat)
    requires k <= |c| && ConcatCode(c, r, lo, hi, at) && i <= |t| && hi <= |r.code|
    requires forall q | 0 <= q < |c| :: WellFormed(c[q])
    requires at[0] <= at[k]
    ensures at[k] <= hi
    ensures Flows(r, t, lo, hi, at[k], i, j) <==> MatchesSeq(c[k..], t, i, j)
    decreases c, |c| - k
  {
    if k == |c| {
      AtEnd(r, t, lo, hi, i, j);
    } else {
      var mid := at[k + 1];
      CodeStays(c[k], r, at[k], mid);
      assert c[k..][1..] == c[k + 1..];
      ConcatMeans(c, k + 1, r, t, lo, hi, at, i, j);
      Through(r, t, lo, hi, at[k], mid, at[k], i, j);
      forall m: nat | m <= |t|
        ensures Flows(r, t, at[k], mid, at[k], i, m) && Flows(r, t, lo, hi, mid, m, j) <==>
                Matches(c[k], t, i, m) && MatchesSeq(c[k + 1..], t, m, j)
      {
        FragmentMeansTree(c[k], r, t, at[k], mid, i, m);
        ConcatMeans(c, k + 1, r, t, lo, hi, at, m, j);
      }
    }
  }

  /** From arm k, an alternation can take any of the arms k and later. */
  lemma {:induction false} AltMeans(c: seq<Node>, k: nat, r: Program, t: Bytes, lo: nat, hi: nat, at: seq<nat>,
                                    i: nat, j: nat)
    requires k < |c| && AltCode(c, r, lo, hi, at) && i <= |t|
    requires forall q | 0 <= q < |c| :: WellFormed(c[q])
    requires at[0] <= at[k]
    ensures at[k] <= hi
    ensures Flows(r, t, lo, hi, at[k], i, j) <==> exists q | k <= q < |c| :: Matches(c[q], t, i, j)
    decreases c, |c| - k
  {
    if k == |c| - 1 {
      CodeStays(c[k], r, at[k], hi);
      Tail(r, t, lo, hi, at[k], at[k], i, j);
      FragmentMeansTree(c[k], r, t, at[k], hi, i, j);
      if Matches(c[k], t, i, j) {
        MatchBounds(c[k], t, i, j);
      }
    } else {
      var a, next := at[k], at[k + 1];
      assert AltArm(c[k], r, a, next, hi);
      AltMeans(c, k + 1, r, t, lo, hi, at, i, j);
      FlowStep(r, t, lo, hi, a, i, j);
      CodeStays(c[k], r, a + 1, next - 1);
      Through(r, t, lo, hi, a + 1, next - 1, a + 1, i, j);
      forall m: nat | m <= |t|
        ensures Flows(r, t, a + 1, next - 1, a + 1, i, m) && Flows(r, t, lo, hi, next - 1, m, j) <==>
                Matches(c[k], t, i, m) && m == j
      {
        FragmentMeansTree(c[k], r, t, a + 1, next - 1, i, m);
        FlowStep(r, t, lo, hi, next - 1, m, j);
        AtEnd(r, t, lo, hi, m, j);
      }
      if Matches(c[k], t, i, j) {
        MatchBounds(c[k], t, i, j);
        assert Flows(r, t, a + 1, next - 1, a + 1, i, j) && Flows(r, t, lo, hi, next - 1, j, j);
      }
      if Flows(r, t, lo, hi, a + 1, i, j) {
        var m: nat :| m <= |t| && Flows(r, t, a + 1, next - 1, a + 1, i, m) && Flows(r, t, lo, hi, next - 1, m, j);
        assert Matches(c[k], t, i, m) && m == j;
      }
      assert (exists q | k <= q < |c| :: Matches(c[q], t, i, j)) <==>
             Matches(c[k], t, i, j) || exists q | k + 1 <= q < |c| :: Matches(c[q], t, i, j);
    }
  }

  lemma {:induction false} RepeatMeans(b: Node, min: nat, max: int, r: Program, t: Bytes, lo: nat, hi: nat, i: nat, j: nat)
    requires WellFormed(Repeat(b, min, max)) && Code(Repeat(b, min, max), r, lo, hi) && i <= |t|
    ensures Flows(r, t, lo, hi, lo, i, j) <==> Matches(Repeat(b, min, max), t, i, j)
    decreases b, 3
  {
    var x := Repeat(b, min, max);
    var mid: nat, at: seq<nat> :| TimesCode(b, min, r, lo, mid, at) && RestCode(b, min, max, r, mid, hi);
    TimesStay(b, min, r, lo, mid, at);
    RestStays(b, min, max, r, mid, hi);
    Through(r, t, lo, hi, lo, mid, lo, i, j);
    forall m: nat | m <= |t|
      ensures Flows(r, t, lo, mid, lo, i, m) <==> MatchesTimes(b, min, t, i, m)
      ensures Flows(r, t, lo, hi, mid, m, j) <==>
              exists q: nat :: (max < 0 || q <= max - min) && MatchesTimes(b, q, t, m, j)
    {
      TimesMeans(b, 0, min, r, t, lo, mid, at, i, m);
      Tail(r, t, lo, hi, mid, mid, m, j);
      if max < 0 {
        LoopMeans(b, r, t, mid, hi, m, j);
      } else {
        var opt := Copies(b, min, max, r, mid, hi);
        OptionalMeans(b, 0, max - min, r, t, mid, hi, opt, m, j);
      }
      if q: nat :| MatchesTimes(b, q, t, m, j) {
        MatchTimesBounds(b, q, t, m, j);
      }
    }
    if Matches(x, t, i, j) {
      var k := RepeatCount(x, t, i, j);
      assert k == min + (k - min);
      var m := TimesSplit(b, min, k - min, t, i, j);
    }
    if m: nat, q: nat :| m <= |t| && MatchesTimes(b, min, t, i, m) && (max < 0 || q <= max - min) &&
                         MatchesTimes(b, q, t, m, j) {
      TimesJoin(b, min, q, t, i, m, j);
    }
  }

  lemma Copies(b: Node, min: nat, max: int, r: Program, lo: nat, hi: nat) returns (at: seq<nat>)
    requires max >= 0 && RestCode(b, min, max, r, lo, hi)
    ensures OptionalCode(b, Extra(min, max), r, lo, hi, at)
  {
    at :| OptionalCode(b, Extra(min, max), r, lo, hi, at);
  }

  lemma {:induction false} TimesStay(b: Node, min: nat, r: Program, lo: nat, hi: nat, at: seq<nat>)
    requires WellFormed(b) && TimesCode(b, min, r, lo, hi, at)
    ensures Within(r, lo, hi, lo, hi)
    decreases b, 1
  {
    var i := min;
    while i > 0
      invariant 0 <= i <= min && Within(r, at[i], hi, at[i], hi)
    {
      i := i - 1;
      CodeStays(b, r, at[i], at[i + 1]);
    }
  }

  lemma {:induction false} RestStays(b: Node, min: nat, max: int, r: Program, lo: nat, hi: nat)
    requires WellFormed(b) && RestCode(b, min, max, r, lo, hi) && hi <= |r.code|
    ensures Within(r, lo, hi, lo, hi)
    decreases b, 1
  {
    if max < 0 {
      CodeStays(b, r, lo + 1, hi - 1);
    } else {
      var at := Copies(b, min, max, r, lo, hi);
      var k := Extra(min, max);
      while k > 0
        invariant 0 <= k <= Extra(min, max) && Within(r, at[k], hi, at[k], hi)
      {
        k := k - 1;
        assert OptionalArm(b, r, at[k], at[k + 1], hi);
        CodeStays(b, r, at[k] + 1, at[k + 1]);
      }
    }
  }

  lemma {:induction false} TimesMeans(b: Node, k: nat, min: nat, r: Program, t: Bytes, lo: nat, hi: nat, at: seq<nat>,
                                      i: nat, j: nat)
    requires WellFormed(b) && k <= min && TimesCode(b, min, r, lo, hi, at) && i <= |t|
    requires at[0] <= at[k]
    ensures at[k] <= hi
    ensures Flows(r, t, lo, hi, at[k], i, j) <==> MatchesTimes(b, min - k, t, i, j)
    decreases b, 1, min - k
  {
    if k == min {
      AtEnd(r, t, lo, hi, i, j);
    } else {
      var mid := at[k + 1];
      CodeStays(b, r, at[k], mid);
      TimesMeans(b, k + 1, min, r, t, lo, hi, at, i, j);
      Through(r, t, lo, hi, at[k], mid, at[k], i, j);
      forall m: nat | m <= |t|
        ensures Flows(r, t, at[k], mid, at[k], i, m) && Flows(r, t, lo, hi, mid, m, j) <==>
                Matches(b, t, i, m) && MatchesTimes(b, min - k - 1, t, m, j)
      {
        FragmentMeansTree(b, r, t, at[k], mid, i, m);
        TimesMeans(b, k + 1, min, r, t, lo, hi, at, m, j);
      }
    }
  }

  /** From copy k of cnt, any number of the remaining optional copies can be taken. */
  lemma {:induction false} OptionalMeans(b: Node, k: nat, cnt: nat, r: Program, t: Bytes, lo: nat, hi: nat, at: seq<nat>,
                                         i: nat, j: nat)
    requires WellFormed(b) && k <= cnt && OptionalCode(b, cnt, r, lo, hi, at) && i <= |t|
    requires at[0] <= at[k]
    ensures at[k] <= hi
    ensures Flows(r, t, lo, hi, at[k], i, j) <==> exists q: nat :: q <= cnt - k && MatchesTimes(b, q, t, i, j)
    decreases b, 1, cnt - k
  {
    assert MatchesTimes(b, 0, t, i, j) <==> i == j;
    AtEnd(r, t, lo, hi, i, j);
    if k < cnt {
      var a, mid := at[k], at[k + 1];
      assert OptionalArm(b, r, a, mid, hi);
      CodeStays(b, r, a + 1, mid);
      OptionalMeans(b, k + 1, cnt, r, t, lo, hi, at, i, j);
      FlowStep(r, t, lo, hi, a, i, j);
      Through(r, t, lo, hi, a + 1, mid, a + 1, i, j);
      forall m: nat | m <= |t|
        ensures Flows(r, t, a + 1, mid, a + 1, i, m) && Flows(r, t, lo, hi, mid, m, j) <==>
                Matches(b, t, i, m) && exists q: nat :: q <= cnt - k - 1 && MatchesTimes(b, q, t, m, j)
      {
        FragmentMeansTree(b, r, t, a + 1, mid, i, m);
        OptionalMeans(b, k + 1, cnt, r, t, lo, hi, at, m, j);
      }
      if q: nat :| q <= cnt - k && MatchesTimes(b, q, t, i, j) && q > 0 {
        var m := FirstOfTimes(b, q, t, i, j);
      }
      if m: nat, q: nat :| m <= |t| && Matches(b, t, i, m) && q <= cnt - k - 1 && MatchesTimes(b, q, t, m, j) {
        assert MatchesTimes(b, q + 1, t, i, j);
      }
    }
  }

  /** The loop, entered at its split, consumes any number of consecutive matches, empty ones included. */
  lemma {:induction false} LoopMeans(b: Node, r: Program, t: Bytes, lo: nat, hi: nat, i: nat, j: nat)
    requires WellFormed(b) && LoopCode(b, r, lo, hi) && i <= |t|
    ensures Flows(r, t, lo, hi, lo, i, j) <==> exists q: nat :: MatchesTimes(b, q, t, i, j)
    decreases b, 2
  {
    if Flows(r, t, lo, hi, lo, i, j) {
      var n: nat :| Runs(r, t, lo, hi, lo, i, j, n);
      LoopSound(b, r, t, lo, hi, i, j, n);
    }
    if q: nat :| MatchesTimes(b, q, t, i, j) {
      LoopComplete(b, q, r, t, lo, hi, i, j);
    }
  }

  lemma {:induction false} LoopSound(b: Node, r: Program, t: Bytes, lo: nat, hi: nat, i: nat, j: nat, n: nat)
    requires WellFormed(b) && LoopCode(b, r, lo, hi) && i <= |t| && Runs(r, t, lo, hi, lo, i, j, n)
    ensures exists q: nat :: MatchesTimes(b, q, t, i, j)
    decreases b, 1, n
  {
    if Runs(r, t, lo, hi, hi, i, j, n - 1) {
      assert MatchesTimes(b, 0, t, i, j);
    } else {
      CodeStays(b, r, lo + 1, hi - 1);
      var m, n1 := Leave(r, t, lo, hi, lo + 1, hi - 1, lo + 1, i, j, n - 1);
      assert Flows(r, t, lo + 1, hi - 1, lo + 1, i, m);
      FragmentMeansTree(b, r, t, lo + 1, hi - 1, i, m);
      LoopSound(b, r, t, lo, hi, m, j, n - 1 - n1 - 1);
      var q: nat :| MatchesTimes(b, q, t, m, j);
      assert MatchesTimes(b, q + 1, t, i, j);
    }
  }

  lemma {:induction false} LoopComplete(b: Node, q: nat, r: Program, t: Bytes, lo: nat, hi: nat, i: nat, j: nat)
    requires WellFormed(b) && LoopCode(b, r, lo, hi) && i <= |t| && MatchesTimes(b, q, t, i, j)
    ensures Flows(r, t, lo, hi, lo, i, j)
    decreases b, 1, q
  {
    FlowStep(r, t, lo, hi, lo, i, j);
    AtEnd(r, t, lo, hi, i, j);
    if q > 0 {
      var m: nat :| m <= |t| && Matches(b, t, i, m) && MatchesTimes(b, q - 1, t, m, j);
      LoopComplete(b, q - 1, r, t, lo, hi, m, j);
      CodeStays(b, r, lo + 1, hi - 1);
      FragmentMeansTree(b, r, t, lo + 1, hi - 1, i, m);
      FlowStep(r, t, lo, hi, hi - 1, m, j);
      Through(r, t, lo, hi, lo + 1, hi - 1, lo + 1, i, j);
    }
  }
}

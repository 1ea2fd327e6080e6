/** `Regex::Compile` and `Regex::Search`, from the pattern text to the answer. */
module Regex {
  import opened Common
  import opened RegexSyntax
  import G = RegexGrammar
  import opened RegexShow
  import opened RegexProgram
  import opened RegexCompiler
  import opened RegexSearch
  import opened RegexCorrect
  import RegexParser

  const TOO_LARGE: string := "Regex: pattern compiles to too large a program"

  /** work counts the runs of Emit. */
  method Compile(pattern: Bytes) returns (r: Outcome<Program>, ghost work: nat)
    ensures match G.Pattern(pattern)
            case Err(e) => r == Err(e)
            case Ok(n) =>
              if Size(n) + 1 <= MAX_PROGRAM then r.Ok? && Compiled(n, r.value) && |r.value.code| == Size(n) + 1
              else r == Err(TOO_LARGE)
    ensures G.Pattern(pattern).Err? ==> work == 0
    ensures r.Ok? ==> work == Calls(G.Pattern(pattern).value)
    ensures G.Pattern(pattern).Ok? && Productive(G.Pattern(pattern).value) ==>
              work <= Work(Nodes(G.Pattern(pattern).value), MAX_PROGRAM + 1)
  {
    hide Code, Size, G.Pattern, Compiled, Extends, Distinct, WellFormed, Calls, Productive, Nodes, Work;
    work := 0;
    var parser := new RegexParser.Parser(pattern);
    var tree :- parser.Parse();
    var compiler := new RegexCompiler();
    var emitted := compiler.Emit(tree);
    work := compiler.emits;
    BoundedWork(tree, |compiler.program|, work);
    if !emitted {
      r := Err(TOO_LARGE);
      return;
    }
    ghost var body := compiler.Output();
    var added := compiler.Add(IMatch);
    if !added {
      r := Err(TOO_LARGE);
      return;
    }
    AddMatch(tree, body, compiler.Output());
    r := Ok(compiler.Output());
  }

  lemma BoundedWork(n: Node, size: nat, work: nat)
    requires size <= MAX_PROGRAM
    requires (work == Calls(n) && Size(n) == size) || (Productive(n) ==> work <= Work(Nodes(n), size + 1))
    ensures Productive(n) ==> work <= Work(Nodes(n), MAX_PROGRAM + 1)
  {
    WorkGrows(Nodes(n), Nodes(n), size + 1, MAX_PROGRAM + 1);
    if Productive(n) && work == Calls(n) && Size(n) == size {
      CallsBounded(n);
      BudgetWithin(Nodes(n), size, MAX_PROGRAM + 1);
    }
  }

  /** An empty group, k times repeated as often as the parser allows. */
  function Nested(k: nat): Node {
    if k == 0 then Empty else Repeat(Nested(k - 1), MAX_REPEAT, MAX_REPEAT)
  }

  function Power(base: nat, k: nat): nat {
    if k == 0 then 1 else base * Power(base, k - 1)
  }

  lemma {:induction false} NestedShape(k: nat, depth: nat)
    requires depth + k <= G.MAX_GROUP_DEPTH
    ensures Canonical(Nested(k)) && Fits(Nested(k), depth) && Size(Nested(k)) == 0 && Nodes(Nested(k)) == k + 1
    ensures Calls(Nested(k)) >= Power(MAX_REPEAT, k)
  {
    if k > 0 {
      NestedShape(k - 1, depth + 1);
      RepeatCalls(Nested(k - 1), MAX_REPEAT, MAX_REPEAT);
      RepeatSize(Nested(k - 1), MAX_REPEAT, MAX_REPEAT);
    }
  }

  /** The program limit does not bound compile work where nothing is repeated: k + 1 nodes, 1024^k emissions. */
  lemma NestedPatternsCompile(k: nat)
    requires k <= G.MAX_GROUP_DEPTH
    ensures G.Pattern(Show(Nested(k))) == Ok(Nested(k)) && Size(Nested(k)) == 0 && Nodes(Nested(k)) == k + 1
    ensures Calls(Nested(k)) >= Power(MAX_REPEAT, k)
  {
    NestedShape(k, 0);
    RoundTrip(Nested(k));
  }

  lemma AddMatch(n: Node, body: Program, r: Program)
    requires WellFormed(n) && Code(n, body, 0, |body.code|)
    requires r == Program(body.code + [IMatch], body.classes)
    ensures Compiled(n, r)
  {
    CodeFrame(n, body, r, 0, |body.code|);
  }

  /** The whole engine: compiling and searching answers whether the pattern's tree matches somewhere, in linear work. */
  method CompileAndSearch(pattern: Bytes, t: Bytes) returns (r: Outcome<(bool, nat)>)
    requires |t| <= TWO_32 - 2
    ensures match G.Pattern(pattern)
            case Err(e) => r == Err(e)
            case Ok(n) =>
              if Size(n) + 1 <= MAX_PROGRAM then
                r.Ok? && (r.value.0 <==> Found(n, t)) && r.value.1 <= (Size(n) + 1) * (|t| + 1)
              else r == Err(TOO_LARGE)
  {
    var program, _ :- Compile(pattern);
    ghost var n := G.Pattern(pattern).value;
    CompiledRunnable(n, program);
    SearchMeansFound(n, program, t);
    SearchIsLinear(program, t);
    var found, steps := Search(program, t);
    return Ok((found, steps));
  }

  /** Every tree small enough and not nested too deeply has a pattern that this engine answers correctly. */
  method SearchTree(n: Node, t: Bytes) returns (r: Outcome<(bool, nat)>)
    requires Canonical(n) && |t| <= TWO_32 - 2
    ensures r.Ok? <==> Fits(n, 0) && Size(n) + 1 <= MAX_PROGRAM
    ensures r.Ok? ==> (r.value.0 <==> Found(n, t))
  {
    RoundTrip(n);
    r := CompileAndSearch(Show(n), t);
  }
}

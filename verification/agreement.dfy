/**
 * The two back ends of the language agree: the operators of the stack
 * machine in src/vm.ts compute what the tree-walking evaluator in
 * src/evaluator.ts computes, on the operands both of them accept.
 */
module Agreement {
  import opened Objects
  import opened Wrappers
  import Code
  import Compiling
  import Machine
  import Evaluation
  import Tokens

  /** A machine effect and an evaluator completion give the same value, or are both undecided by the model. */
  predicate Agree(e: Machine.Effect, c: Evaluation.Completion<Obj>) {
    (e.Push? && c.Normal? && e.value == c.value) || (e.Undecided? && c.Unmodelled?)
  }

  /** The opcode the compiler emits for an infix operator other than `<`. */
  function OpcodeFor(operator: string): (op: Code.Byte)
    requires operator in {"+", "-", "*", "/", ">", "==", "!="}
    ensures Compiling.InfixOpcode(operator) == Some(op)
    ensures Machine.IsBinary(op) <==> Evaluation.IsArithmetic(operator)
    ensures Machine.IsComparison(op) <==> operator in {">", "==", "!="}
  {
    Compiling.InfixOpcode(operator).value
  }

  /** Both back ends call the same values truthy. */
  lemma TruthinessAgrees(o: Obj)
    ensures Machine.IsTruthy(o) == Evaluation.IsTruthy(o)
  {
  }

  /** OpBang pushes what the evaluator's `!` returns. */
  lemma BangAgrees(o: Obj)
    ensures Machine.BangEffect(o) == Evaluation.EvalBang(o)
  {
  }

  /** OpMinus pushes what the evaluator's `-` returns on an integer. */
  lemma MinusAgrees(i: int)
    ensures Agree(Machine.MinusEffect(IntegerObj(i)), Evaluation.Normal(Evaluation.EvalMinus(IntegerObj(i))))
  {
  }

  /** On two integers, each arithmetic opcode and comparison opcode computes the evaluator's infix operator. */
  lemma IntegerInfixAgrees(a: int, operator: string, b: int)
    requires operator in {"+", "-", "*", "/", ">", "==", "!="}
    ensures var op := OpcodeFor(operator);
      Agree(if Machine.IsBinary(op) then Machine.BinaryEffect(op, IntegerObj(a), IntegerObj(b))
            else Machine.ComparisonEffect(op, IntegerObj(a), IntegerObj(b)),
            Evaluation.EvalInfix(IntegerObj(a), operator, IntegerObj(b)))
  {
  }

  /** `a < b` runs as OpGreaterThan on the swapped operands and gives the evaluator's answer. */
  lemma LessThanAgrees(a: int, b: int)
    ensures Agree(Machine.ComparisonEffect(Code.OpGreaterThan, IntegerObj(b), IntegerObj(a)),
                  Evaluation.EvalInfix(IntegerObj(a), "<", IntegerObj(b)))
  {
  }

  /** `==` and `!=` agree on every pair of operands, integers or not. */
  lemma EqualityAgrees(left: Obj, operator: string, right: Obj)
    requires operator == "==" || operator == "!="
    ensures Agree(Machine.ComparisonEffect(OpcodeFor(operator), left, right), Evaluation.EvalInfix(left, operator, right))
  {
  }

  /**
   * The program `1 + 2;`, compiled by a new compiler and run by the machine
   * on its bytecode and constant pool, leaves 3 as the last popped value.
   */
  lemma {:induction false} CompiledOnePlusTwoRuns(t: Tokens.Token, s: Machine.State)
    requires Machine.Good(s) && s.ip == -1 && s.sp + 2 <= Machine.STACK_SIZE
    ensures Compiling.CompileStatements(Compiling.OnePlusTwoProgram(t).statements, Compiling.START).Compiled?
    ensures var code := Compiling.CompileStatements(Compiling.OnePlusTwoProgram(t).statements, Compiling.START).state;
      var r := Machine.RunSpec(s, code.scope.instructions, code.constants, 4);
      r.Next? && r.state.sp == s.sp && Machine.LastPopped(r.state) == Some(IntegerObj(3))
  {
    Compiling.CompileOnePlusTwo(t);
    var code := Compiling.CompileStatements(Compiling.OnePlusTwoProgram(t).statements, Compiling.START).state;
    Machine.OnePlusTwo(s, code.scope.instructions, code.constants);
  }
}

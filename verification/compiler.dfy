/**
 * The bytecode compiler of src/compiler.ts. `class Compiler` keeps a
 * stack of compilation scopes, each with its instructions and the last
 * two instructions emitted into it, the constant pool and the symbol
 * table; `compile` walks the syntax tree and appends bytecode. The
 * functions before the class state, node by node, what compiling does
 * to that state; each method of the class is proved to do what they say.
 *
 * Opcodes that src/code.ts does not define (OpSetLocal, OpGetBuiltin,
 * OpCall, OpReturnValue, ...) are `undefined` at run time: `make` returns
 * no bytes for them and the last instruction records no opcode.
 */
module Compiling {
  import opened Wrappers
  import opened Ast
  import opened Objects
  import Code
  import Symbols
  import Tokens

  /** `EmittedInstruction`: both fields are absent in a blank one. */
  datatype EmittedInstruction = EmittedInstruction(opcode: Option<Code.Byte>, position: Option<nat>)

  const BLANK := EmittedInstruction(None, None)

  datatype CompilationScope = CompilationScope(
    instructions: seq<Code.Byte>,
    lastInstruction: EmittedInstruction,
    previousInstruction: EmittedInstruction)

  /** `blankCompilationScope()`. */
  const BLANK_SCOPE := CompilationScope([], BLANK, BLANK)

  /** The operand `if` emits before the real jump target is known. */
  const PLACEHOLDER: nat := 9999

  /** What `compile(undefined)` throws: it prints the missing node. */
  const MISSING_NODE := "Cannot read properties of undefined (reading 'toString')"

  /**
   * The part of the compiler's state that compiling one node reads and
   * writes: the current scope, the constant pool, and the current symbol
   * table's bindings and definition count; `rooted` says that table has
   * no enclosing one.
   */
  datatype CState = CState(
    scope: CompilationScope,
    constants: seq<Obj>,
    store: map<string, Symbols.SymbolItem>,
    numDefinitions: nat,
    rooted: bool)

  /** How compiling a node ends: a new state, an exception, or a case the model does not decide. */
  datatype Outcome = Compiled(state: CState) | Threw(message: string) | Unmodelled(what: string)

  /** The scope after appending `bytes` as an instruction with opcode `op`. */
  function Appended(sc: CompilationScope, op: Option<Code.Byte>, bytes: seq<Code.Byte>): CompilationScope {
    CompilationScope(sc.instructions + bytes, EmittedInstruction(op, Some(|sc.instructions|)), sc.lastInstruction)
  }

  /**
   * `emit`: appends what `make` returns at the end of the current scope and
   * records it as the last instruction, the old last one becoming the
   * previous one. An opcode missing from the table (`None`) emits no bytes.
   */
  function EmitSpec(st: CState, op: Option<Code.Byte>, operands: seq<nat>): (r: Outcome)
    ensures !r.Unmodelled?
    ensures r.Compiled? ==>
      |st.scope.instructions| <= |r.state.scope.instructions|
      && r.state.scope.instructions[..|st.scope.instructions|] == st.scope.instructions
      && r.state.scope.lastInstruction == EmittedInstruction(op, Some(|st.scope.instructions|))
      && r.state.scope.previousInstruction == st.scope.lastInstruction
      && r.state == st.(scope := r.state.scope)
    ensures op.None? ==> r.Compiled? && r.state.scope.instructions == st.scope.instructions
  {
    if op.None? then Compiled(st.(scope := Appended(st.scope, None, [])))
    else match Code.MakeSpec(op.value, operands)
      case Err(m) => Threw(m)
      case Ok(bytes) => Compiled(st.(scope := Appended(st.scope, op, bytes)))
  }

  /** `addConstant`: the object goes at the end of the pool. */
  function AddConstantSpec(st: CState, obj: Obj): (r: CState)
    ensures |r.constants| == |st.constants| + 1 && r.constants[|st.constants|] == obj && r.constants[..|st.constants|] == st.constants
  {
    st.(constants := st.constants + [obj])
  }

  /** `lastInstructionIs`: never for an empty scope. */
  function LastIs(sc: CompilationScope, op: Code.Byte): bool {
    |sc.instructions| != 0 && sc.lastInstruction.opcode == Some(op)
  }

  /**
   * `removeLastPop`: cut the instructions at the last instruction's
   * position (`slice(0, undefined)` or past the end keeps them all) and
   * make the previous instruction the last; the previous one stays.
   */
  function WithoutLastPop(sc: CompilationScope): (r: CompilationScope)
    ensures |r.instructions| <= |sc.instructions| && r.instructions == sc.instructions[..|r.instructions|]
  {
    var p := sc.lastInstruction.position;
    sc.(instructions := if p.None? || p.value > |sc.instructions| then sc.instructions else sc.instructions[..p.value],
        lastInstruction := sc.previousInstruction)
  }

  /** The statement-level step `if` takes after each branch: drop a trailing OpPop. */
  function DropLastPop(st: CState): CState {
    if LastIs(st.scope, Code.OpPop) then st.(scope := WithoutLastPop(st.scope)) else st
  }

  /**
   * `splice(pos, |bytes|, ...bytes)`: overwrite from `pos` on (a start past
   * the end means the end), lengthening the instructions if they run out.
   */
  function Spliced(ins: seq<Code.Byte>, pos: nat, bytes: seq<Code.Byte>): (r: seq<Code.Byte>)
    ensures |r| >= |ins|
    ensures pos <= |ins| ==> r[..pos] == ins[..pos]
    ensures pos + |bytes| <= |ins| ==> |r| == |ins| && r[pos..pos + |bytes|] == bytes && r[pos + |bytes|..] == ins[pos + |bytes|..]
  {
    var p := if pos <= |ins| then pos else |ins|;
    var q := if p + |bytes| <= |ins| then p + |bytes| else |ins|;
    ins[..p] + bytes + ins[q..]
  }

  /**
   * `changeOperand`: re-encode the instruction at `pos` with a new operand
   * and splice it over the old one. Past the end there is no opcode, so
   * `make` returns nothing and nothing changes.
   */
  function ChangeOperandSpec(st: CState, pos: nat, operand: nat): (r: Outcome)
    ensures !r.Unmodelled?
    ensures r.Compiled? ==>
      r.state == st.(scope := r.state.scope)
      && r.state.scope == st.scope.(instructions := r.state.scope.instructions)
  {
    var ins := st.scope.instructions;
    if pos >= |ins| then Compiled(st)
    else match Code.MakeSpec(ins[pos], [operand])
      case Err(m) => Threw(m)
      case Ok(bytes) => Compiled(st.(scope := st.scope.(instructions := Spliced(ins, pos, bytes))))
  }

  /**
   * `loadSymbol` after `resolve` in a table with no enclosing one, where
   * resolving is looking the name up: a global is read with OpGetGlobal;
   * a builtin, local or free symbol with an opcode the table lacks; a
   * function name is an unrecognised scope.
   */
  function LoadSpec(st: CState, name: string): (r: Outcome)
  {
    if !st.rooted then Unmodelled("resolving a name inside a function scope")
    else if name !in st.store then Threw("undefined variable: \"" + name + "\"")
    else
      var sym := st.store[name];
      if sym.scope == Symbols.FUNCTION then Threw("unrecognized SymbolScope: FUNCTION")
      else if sym.scope != Symbols.GLOBAL then EmitSpec(st, None, [])
      else if sym.index < 0 then Unmodelled("a negative operand")
      else EmitSpec(st, Some(Code.OpGetGlobal), [sym.index as nat])
  }

  /**
   * A `let`: `define` binds the name to the next index, GLOBAL at the top
   * and LOCAL inside a function, and the value is stored with OpSetGlobal
   * or with OpSetLocal, which the table lacks.
   */
  function DefineSpec(st: CState, name: Expression): (r: Outcome)
  {
    if !name.Identifier? then Unmodelled("a let whose name is not an identifier")
    else
      var sym := Symbols.SymbolItem(name.value, if st.rooted then Symbols.GLOBAL else Symbols.LOCAL, st.numDefinitions);
      var defined := st.(store := st.store[name.value := sym], numDefinitions := st.numDefinitions + 1);
      EmitSpec(defined, if st.rooted then Some(Code.OpSetGlobal) else None, [st.numDefinitions])
  }

  /**
   * Loading a name compiles exactly for a name of the root table that is
   * not a function name and, when global, has a non-negative index; it then
   * changes only the current scope. A missing name is the "undefined
   * variable" error.
   */
  lemma LoadOutcome(st: CState, name: string)
    ensures LoadSpec(st, name).Compiled? <==>
              st.rooted && name in st.store && st.store[name].scope != Symbols.FUNCTION
              && (st.store[name].scope == Symbols.GLOBAL ==> st.store[name].index >= 0)
    ensures LoadSpec(st, name).Compiled? ==> LoadSpec(st, name).state == st.(scope := LoadSpec(st, name).state.scope)
    ensures st.rooted && name !in st.store ==> LoadSpec(st, name) == Threw("undefined variable: \"" + name + "\"")
  {
  }

  /**
   * A compiled `let` names an identifier, which is bound to the next
   * definition index, GLOBAL at the top and LOCAL elsewhere; the constants
   * are kept.
   */
  lemma DefineOutcome(st: CState, name: Expression)
    ensures DefineSpec(st, name).Compiled? ==>
              && name.Identifier?
              && DefineSpec(st, name).state.numDefinitions == st.numDefinitions + 1
              && DefineSpec(st, name).state.store
                 == st.store[name.value := Symbols.SymbolItem(name.value, if st.rooted then Symbols.GLOBAL else Symbols.LOCAL, st.numDefinitions)]
              && DefineSpec(st, name).state.constants == st.constants
  {
  }

  /** The opcode of an infix operator other than `<`. */
  function InfixOpcode(operator: string): (r: Option<Code.Byte>)
    ensures r.Some? <==> operator in {"+", "-", "*", "/", ">", "==", "!="}
  {
    match operator
    case "+" => Some(Code.OpAdd)
    case "-" => Some(Code.OpSub)
    case "*" => Some(Code.OpMul)
    case "/" => Some(Code.OpDiv)
    case ">" => Some(Code.OpGreaterThan)
    case "==" => Some(Code.OpEqual)
    case "!=" => Some(Code.OpNotEqual)
    case _ => None
  }

  /** `compile` of a node that may be missing. */
  function CompileOptional(x: Option<Expression>, st: CState): Outcome
    decreases x, 2
  {
    match x
    case None => Threw(MISSING_NODE)
    case Some(e) => CompileExpr(e, st)
  }

  /** `compile` of an expression. */
  function CompileExpr(e: Expression, st: CState): Outcome
    decreases e, 1
  {
    match e
    case Identifier(_, _) | IntegerLiteral(_, _) | StringLiteral(_, _) | BoolExpression(_, _) | FunctionLiteral(_, _, _) | HashLiteral(_, _) =>
      CompileLeafExpr(e, st)
    case PrefixExpression(_, operator, right) =>
      (match CompileOptional(right, st)
       case Compiled(st1) =>
         if operator == "!" then EmitSpec(st1, Some(Code.OpBang), [])
         else if operator == "-" then EmitSpec(st1, Some(Code.OpMinus), [])
         else Threw("unknown prefix operator: " + operator)
       case other => other)
    case InfixExpression(_, left, operator, right) =>
      if operator == "<" then
        (match CompileOptional(right, st)
         case Compiled(st1) =>
           (match CompileOptional(left, st1)
            case Compiled(st2) => EmitSpec(st2, Some(Code.OpGreaterThan), [])
            case other => other)
         case other => other)
      else
        (match CompileOptional(left, st)
         case Compiled(st1) =>
           (match CompileOptional(right, st1)
            case Compiled(st2) =>
              if InfixOpcode(operator).None? then Threw("unknown infix operator: \"" + operator + "\"")
              else EmitSpec(st2, InfixOpcode(operator), [])
            case other => other)
         case other => other)
    case IfExpression(_, condition, _, _) =>
      (match CompileOptional(condition, st)
       case Compiled(st1) => CompileBranches(e, st1)
       case other => other)
    case ArrayLiteral(_, elements) =>
      (match CompileExprs(elements, st)
       case Compiled(st1) => EmitSpec(st1, Some(Code.OpArray), [|elements|])
       case other => other)
    case IndexExpression(_, collection, index) =>
      (match CompileExpr(collection, st)
       case Compiled(st1) =>
         (match CompileExpr(index, st1)
          case Compiled(st2) => EmitSpec(st2, Some(Code.OpIndex), [])
          case other => other)
       case other => other)
    case CallExpression(_, func, args) =>
      (match CompileExpr(func, st)
       case Compiled(st1) =>
         (match CompileExprs(args, st1)
          case Compiled(st2) => EmitSpec(st2, None, [|args|])
          case other => other)
       case other => other)
  }

  /** An expression with no sub-expression to compile first. */
  predicate IsLeaf(e: Expression) {
    e.Identifier? || e.IntegerLiteral? || e.StringLiteral? || e.BoolExpression? || e.FunctionLiteral? || e.HashLiteral?
  }

  /**
   * `compile` of a leaf: a name is loaded, integers and strings go to the
   * constant pool, booleans become OpTrue or OpFalse; function and hash
   * literals are not modelled.
   */
  function CompileLeafExpr(e: Expression, st: CState): Outcome
    requires IsLeaf(e)
  {
    if e.Identifier? then LoadSpec(st, e.value)
    else if e.IntegerLiteral? then EmitSpec(AddConstantSpec(st, IntegerObj(e.intValue)), Some(Code.OpConstant), [|st.constants|])
    else if e.StringLiteral? then EmitSpec(AddConstantSpec(st, StringObj(e.value)), Some(Code.OpConstant), [|st.constants|])
    else if e.BoolExpression? then EmitSpec(st, Some(if e.boolValue then Code.OpTrue else Code.OpFalse), [])
    else if e.FunctionLiteral? then Unmodelled("a function literal, compiled in a scope of its own")
    else Unmodelled("a hash literal, whose keys are ordered by their printed form")
  }

  /** Each expression in turn, as `forEach` compiles array elements and call arguments. */
  function CompileExprs(es: seq<Expression>, st: CState): Outcome
    decreases es
  {
    if es == [] then Compiled(st)
    else match CompileExpr(es[0], st)
      case Compiled(st1) => CompileExprs(es[1..], st1)
      case other => other
  }

  /**
   * The branches of an `if` whose condition is compiled: OpJumpNotTruthy
   * with a placeholder, then the consequence and the rest.
   */
  function CompileBranches(e: Expression, st: CState): Outcome
    requires e.IfExpression?
    decreases e, 0, 3
  {
    match EmitSpec(st, Some(Code.OpJumpNotTruthy), [PLACEHOLDER])
    case Compiled(st1) => CompileConsequence(e, st1, |st.scope.instructions|)
    case other => other
  }

  /** The consequence of an `if`, without its trailing OpPop, and the rest. */
  function CompileConsequence(e: Expression, st: CState, jumpNotTruthyPos: nat): Outcome
    requires e.IfExpression?
    decreases e, 0, 2
  {
    match CompileStatements(e.consequence.statements, st)
    case Compiled(st1) => CompileElse(e, DropLastPop(st1), jumpNotTruthyPos)
    case other => other
  }

  /**
   * OpJump with a placeholder; OpJumpNotTruthy patched to the offset after
   * it; the alternative (or OpNull); OpJump patched to the offset after that.
   */
  function CompileElse(e: Expression, st: CState, jumpNotTruthyPos: nat): Outcome
    requires e.IfExpression?
    decreases e, 0, 1
  {
    var jumpPos := |st.scope.instructions|;
    match EmitSpec(st, Some(Code.OpJump), [PLACEHOLDER])
    case Compiled(st1) =>
      (match ChangeOperandSpec(st1, jumpNotTruthyPos, |st1.scope.instructions|)
       case Compiled(st2) =>
         (match CompileAlternative(e, st2)
          case Compiled(st3) => ChangeOperandSpec(st3, jumpPos, |st3.scope.instructions|)
          case other => other)
       case other => other)
    case other => other
  }

  /** The alternative of an `if` without its trailing OpPop, or OpNull when there is none. */
  function CompileAlternative(e: Expression, st: CState): Outcome
    requires e.IfExpression?
    decreases e, 0, 0
  {
    if e.alternative.None? then EmitSpec(st, Some(Code.OpNull), [])
    else match CompileStatements(e.alternative.value.statements, st)
      case Compiled(st1) => Compiled(DropLastPop(st1))
      case other => other
  }

  /** `compile` of a statement. */
  function CompileStatement(s: Statement, st: CState): Outcome
    decreases s, 1
  {
    match s
    case ExpressionStatement(_, x) =>
      (match CompileOptional(x, st)
       case Compiled(st1) => EmitSpec(st1, Some(Code.OpPop), [])
       case other => other)
    case ReturnStatement(_, x) =>
      (match CompileOptional(x, st)
       case Compiled(st1) => EmitSpec(st1, None, [])
       case other => other)
    case LetStatement(_, name, value) =>
      (match CompileOptional(value, st)
       case Compiled(st1) => DefineSpec(st1, name)
       case other => other)
  }

  /** The statements in order, as `forEach` compiles a program or a block. */
  function CompileStatements(ss: seq<Statement>, st: CState): Outcome
    decreases ss
  {
    if ss == [] then Compiled(st)
    else match CompileStatement(ss[0], st)
      case Compiled(st1) => CompileStatements(ss[1..], st1)
      case other => other
  }

  /** `r` extends `st`: instructions and constants only grow at the end, and the table keeps its kind. */
  ghost predicate Grows(st: CState, r: CState) {
    |st.scope.instructions| <= |r.scope.instructions|
    && r.scope.instructions[..|st.scope.instructions|] == st.scope.instructions
    && |st.constants| <= |r.constants| && r.constants[..|st.constants|] == st.constants
    && r.rooted == st.rooted
  }

  /** An instruction recorded at or after `start` and no later than the end of the scope. */
  predicate RecordedSince(i: EmittedInstruction, start: nat, sc: CompilationScope) {
    i.position.Some? && start <= i.position.value <= |sc.instructions|
  }

  /** What compiling an expression leaves: grown code whose last instruction is its own and not OpPop. */
  ghost predicate ExprShape(st: CState, r: CState) {
    Grows(st, r)
    && RecordedSince(r.scope.lastInstruction, |st.scope.instructions|, r.scope)
    && r.scope.lastInstruction.opcode != Some(Code.OpPop)
  }

  /**
   * What compiling a statement leaves: grown code whose last instruction
   * is its own; when that is an OpPop, the instruction before it is also
   * the statement's own and is not OpPop.
   */
  ghost predicate StmtShape(st: CState, r: CState) {
    var last := r.scope.lastInstruction;
    var previous := r.scope.previousInstruction;
    Grows(st, r)
    && RecordedSince(last, |st.scope.instructions|, r.scope)
    && (last.opcode == Some(Code.OpPop) ==>
          last.position.value < |r.scope.instructions|
          && RecordedSince(previous, |st.scope.instructions|, r.scope)
          && previous.position.value <= last.position.value
          && previous.opcode != Some(Code.OpPop))
  }

  lemma {:induction false} GrowsTrans(a: CState, b: CState, c: CState)
    requires Grows(a, b) && Grows(b, c)
    ensures Grows(a, c)
  {
    assert c.scope.instructions[..|a.scope.instructions|] == c.scope.instructions[..|b.scope.instructions|][..|a.scope.instructions|];
    assert c.constants[..|a.constants|] == c.constants[..|b.constants|][..|a.constants|];
  }

  /** Dropping a trailing OpPop from a statement's code leaves the shape of an expression's. */
  lemma {:induction false} DropLastPopShape(st: CState, r: CState)
    requires StmtShape(st, r)
    ensures ExprShape(st, DropLastPop(r))
  {
    if LastIs(r.scope, Code.OpPop) {
      var p := r.scope.lastInstruction.position.value;
      var d := DropLastPop(r);
      assert d.scope.instructions == r.scope.instructions[..p];
      assert d.scope.instructions[..|st.scope.instructions|] == r.scope.instructions[..|st.scope.instructions|];
    }
  }

  /** Patching an operand keeps every byte before the patch, the length at least, and everything but the instructions. */
  lemma {:induction false} ChangeOperandKeeps(st: CState, pos: nat, operand: nat)
    requires ChangeOperandSpec(st, pos, operand).Compiled?
    ensures var r := ChangeOperandSpec(st, pos, operand).state;
      |st.scope.instructions| <= |r.scope.instructions|
      && (pos <= |st.scope.instructions| ==> r.scope.instructions[..pos] == st.scope.instructions[..pos])
  {
  }

  /** Code grown from `a` to `b` and patched at or after the end of `a` has still grown from `a`. */
  lemma {:induction false} PatchedGrows(a: CState, b: CState, pos: nat, operand: nat)
    requires Grows(a, b) && |a.scope.instructions| <= pos
    requires ChangeOperandSpec(b, pos, operand).Compiled?
    ensures Grows(a, ChangeOperandSpec(b, pos, operand).state)
  {
    var c := ChangeOperandSpec(b, pos, operand).state;
    var n := |a.scope.instructions|;
    if pos < |b.scope.instructions| {
      assert c.scope.instructions[..n] == c.scope.instructions[..pos][..n];
      assert b.scope.instructions[..n] == b.scope.instructions[..pos][..n];
    }
  }

  /** Every outcome of compiling a present or missing node keeps the expression shape. */
  lemma {:induction false} OptionalShape(x: Option<Expression>, st: CState)
    ensures CompileOptional(x, st).Compiled? ==> ExprShape(st, CompileOptional(x, st).state)
    decreases x, 2
  {
    if x.Some? {
      ExpressionShape(x.value, st);
    }
  }

  /** Compiled code only grows, and an expression's code never ends in OpPop. */
  lemma {:induction false} ExpressionShape(e: Expression, st: CState)
    ensures CompileExpr(e, st).Compiled? ==> ExprShape(st, CompileExpr(e, st).state)
    decreases e, 1
  {
    match e
    case Identifier(_, _) =>
    case IntegerLiteral(_, _) =>
    case StringLiteral(_, _) =>
    case BoolExpression(_, _) =>
    case PrefixExpression(_, _, _) => PrefixShape(e, st);
    case InfixExpression(_, _, _, _) => InfixShape(e, st);
    case IfExpression(_, _, _, _) => IfShape(e, st);
    case ArrayLiteral(_, _) => ArrayShape(e, st);
    case IndexExpression(_, _, _) => IndexShape(e, st);
    case CallExpression(_, _, _) => CallShape(e, st);
    case FunctionLiteral(_, _, _) =>
    case HashLiteral(_, _) =>
  }

  lemma {:induction false} PrefixShape(e: Expression, st: CState)
    requires e.PrefixExpression?
    ensures CompileExpr(e, st).Compiled? ==> ExprShape(st, CompileExpr(e, st).state)
    decreases e, 0
  {
    OptionalShape(e.right, st);
    if CompileOptional(e.right, st).Compiled? && CompileExpr(e, st).Compiled? {
      GrowsTrans(st, CompileOptional(e.right, st).state, CompileExpr(e, st).state);
    }
  }

  lemma {:induction false} InfixShape(e: Expression, st: CState)
    requires e.InfixExpression?
    ensures CompileExpr(e, st).Compiled? ==> ExprShape(st, CompileExpr(e, st).state)
    decreases e, 0
  {
    var first := if e.operator == "<" then e.right else e.left;
    var second := if e.operator == "<" then e.left else e.right;
    OptionalShape(first, st);
    if CompileOptional(first, st).Compiled? {
      var st1 := CompileOptional(first, st).state;
      OptionalShape(second, st1);
      if CompileOptional(second, st1).Compiled? {
        var st2 := CompileOptional(second, st1).state;
        GrowsTrans(st, st1, st2);
        if CompileExpr(e, st).Compiled? {
          GrowsTrans(st, st2, CompileExpr(e, st).state);
        }
      }
    }
  }

  lemma {:induction false} IfShape(e: Expression, st: CState)
    requires e.IfExpression?
    ensures CompileExpr(e, st).Compiled? ==> ExprShape(st, CompileExpr(e, st).state)
    decreases e, 0
  {
    OptionalShape(e.condition, st);
    if CompileOptional(e.condition, st).Compiled? {
      var st1 := CompileOptional(e.condition, st).state;
      BranchesShape(e, st1);
      if CompileExpr(e, st).Compiled? {
        GrowsTrans(st, st1, CompileExpr(e, st).state);
      }
    }
  }

  lemma {:induction false} ArrayShape(e: Expression, st: CState)
    requires e.ArrayLiteral?
    ensures CompileExpr(e, st).Compiled? ==> ExprShape(st, CompileExpr(e, st).state)
    decreases e, 0
  {
    ExpressionsShape(e.elements, st);
    if CompileExprs(e.elements, st).Compiled? && CompileExpr(e, st).Compiled? {
      GrowsTrans(st, CompileExprs(e.elements, st).state, CompileExpr(e, st).state);
    }
  }

  lemma {:induction false} IndexShape(e: Expression, st: CState)
    requires e.IndexExpression?
    ensures CompileExpr(e, st).Compiled? ==> ExprShape(st, CompileExpr(e, st).state)
    decreases e, 0
  {
    ExpressionShape(e.collection, st);
    if CompileExpr(e.collection, st).Compiled? {
      var st1 := CompileExpr(e.collection, st).state;
      ExpressionShape(e.index, st1);
      if CompileExpr(e.index, st1).Compiled? {
        var st2 := CompileExpr(e.index, st1).state;
        GrowsTrans(st, st1, st2);
        if CompileExpr(e, st).Compiled? {
          GrowsTrans(st, st2, CompileExpr(e, st).state);
        }
      }
    }
  }

  lemma {:induction false} CallShape(e: Expression, st: CState)
    requires e.CallExpression?
    ensures CompileExpr(e, st).Compiled? ==> ExprShape(st, CompileExpr(e, st).state)
    decreases e, 0
  {
    ExpressionShape(e.func, st);
    if CompileExpr(e.func, st).Compiled? {
      var st1 := CompileExpr(e.func, st).state;
      ExpressionsShape(e.args, st1);
      if CompileExprs(e.args, st1).Compiled? {
        var st2 := CompileExprs(e.args, st1).state;
        GrowsTrans(st, st1, st2);
        if CompileExpr(e, st).Compiled? {
          GrowsTrans(st, st2, CompileExpr(e, st).state);
        }
      }
    }
  }

  lemma {:induction false} ExpressionsShape(es: seq<Expression>, st: CState)
    ensures CompileExprs(es, st).Compiled? ==> Grows(st, CompileExprs(es, st).state)
    decreases es
  {
    if es != [] {
      ExpressionShape(es[0], st);
      if CompileExpr(es[0], st).Compiled? {
        var st1 := CompileExpr(es[0], st).state;
        ExpressionsShape(es[1..], st1);
        if CompileExprs(es[1..], st1).Compiled? {
          GrowsTrans(st, st1, CompileExprs(es[1..], st1).state);
        }
      }
    }
  }

  /** The statements of a block leave the state as it was, or the shape of their last statement. */
  lemma {:induction false} StatementsShape(ss: seq<Statement>, st: CState)
    ensures CompileStatements(ss, st).Compiled? ==>
      if ss == [] then CompileStatements(ss, st).state == st else StmtShape(st, CompileStatements(ss, st).state)
    decreases ss
  {
    if ss != [] {
      StatementShape(ss[0], st);
      if CompileStatement(ss[0], st).Compiled? {
        var st1 := CompileStatement(ss[0], st).state;
        StatementsShape(ss[1..], st1);
        if CompileStatements(ss[1..], st1).Compiled? && ss[1..] != [] {
          GrowsTrans(st, st1, CompileStatements(ss[1..], st1).state);
        }
      }
    }
  }

  lemma {:induction false} StatementShape(s: Statement, st: CState)
    ensures CompileStatement(s, st).Compiled? ==> StmtShape(st, CompileStatement(s, st).state)
    decreases s, 1
  {
    match s
    case ExpressionStatement(_, x) =>
      OptionalShape(x, st);
      if CompileOptional(x, st).Compiled? {
        var st1 := CompileOptional(x, st).state;
        Code.MakeNoOperands(Code.OpPop);
        GrowsTrans(st, st1, CompileStatement(s, st).state);
      }
    case ReturnStatement(_, x) =>
      OptionalShape(x, st);
      if CompileOptional(x, st).Compiled? {
        GrowsTrans(st, CompileOptional(x, st).state, CompileStatement(s, st).state);
      }
    case LetStatement(_, _, value) =>
      OptionalShape(value, st);
      if CompileOptional(value, st).Compiled? && CompileStatement(s, st).Compiled? {
        GrowsTrans(st, CompileOptional(value, st).state, CompileStatement(s, st).state);
      }
  }

  /**
   * An expression statement is its expression's code followed by one
   * OpPop, which is then the last instruction; the one before it is the
   * expression's own and is not OpPop.
   */
  lemma {:induction false} ExpressionStatementEndsWithPop(t: Tokens.Token, x: Option<Expression>, st: CState)
    ensures CompileStatement(ExpressionStatement(t, x), st).Compiled? <==> CompileOptional(x, st).Compiled?
    ensures CompileStatement(ExpressionStatement(t, x), st).Compiled? ==>
      var r := CompileStatement(ExpressionStatement(t, x), st).state.scope;
      r.instructions == CompileOptional(x, st).state.scope.instructions + [Code.OpPop]
      && r.lastInstruction.opcode == Some(Code.OpPop)
      && r.previousInstruction.opcode != Some(Code.OpPop)
  {
    OptionalShape(x, st);
    Code.MakeNoOperands(Code.OpPop);
  }

  /** Both jumps, both branches and the patches keep the expression shape. */
  lemma {:induction false} BranchesShape(e: Expression, st: CState)
    requires e.IfExpression?
    ensures CompileBranches(e, st).Compiled? ==> ExprShape(st, CompileBranches(e, st).state)
    decreases e, 0, 3
  {
    EmitJump(st, Code.OpJumpNotTruthy);
    ConsequenceShape(e, st, EmitSpec(st, Some(Code.OpJumpNotTruthy), [PLACEHOLDER]).state);
  }

  lemma {:induction false} ConsequenceShape(e: Expression, st: CState, st1: CState)
    requires e.IfExpression? && ExprShape(st, st1)
    ensures CompileConsequence(e, st1, |st.scope.instructions|).Compiled? ==>
      ExprShape(st, CompileConsequence(e, st1, |st.scope.instructions|).state)
    decreases e, 0, 2
  {
    StatementsShape(e.consequence.statements, st1);
    if CompileStatements(e.consequence.statements, st1).Compiled? {
      var st2 := CompileStatements(e.consequence.statements, st1).state;
      var st3 := DropLastPop(st2);
      if e.consequence.statements != [] {
        DropLastPopShape(st1, st2);
        GrowsTrans(st, st1, st3);
      }
      ElseShape(e, st, st3);
    }
  }

  lemma {:induction false} ElseShape(e: Expression, st: CState, st3: CState)
    requires e.IfExpression? && ExprShape(st, st3)
    ensures CompileElse(e, st3, |st.scope.instructions|).Compiled? ==>
      ExprShape(st, CompileElse(e, st3, |st.scope.instructions|).state)
    decreases e, 0, 1
  {
    var jumpNotTruthyPos := |st.scope.instructions|;
    var jumpPos := |st3.scope.instructions|;
    EmitJump(st3, Code.OpJump);
    var st4 := EmitSpec(st3, Some(Code.OpJump), [PLACEHOLDER]).state;
    GrowsTrans(st, st3, st4);
    if ChangeOperandSpec(st4, jumpNotTruthyPos, |st4.scope.instructions|).Compiled? {
      var st5 := ChangeOperandSpec(st4, jumpNotTruthyPos, |st4.scope.instructions|).state;
      PatchedGrows(st, st4, jumpNotTruthyPos, |st4.scope.instructions|);
      AlternativeShape(e, st5, jumpPos);
      if CompileAlternative(e, st5).Compiled? {
        var st6 := CompileAlternative(e, st5).state;
        GrowsTrans(st, st5, st6);
        if ChangeOperandSpec(st6, jumpPos, |st6.scope.instructions|).Compiled? {
          PatchedGrows(st, st6, jumpPos, |st6.scope.instructions|);
        }
      }
    }
  }

  /** The alternative keeps the code grown, and its last instruction is not OpPop and no earlier than `start`. */
  lemma {:induction false} AlternativeShape(e: Expression, st: CState, start: nat)
    requires e.IfExpression?
    requires RecordedSince(st.scope.lastInstruction, start, st.scope) && st.scope.lastInstruction.opcode != Some(Code.OpPop)
    ensures CompileAlternative(e, st).Compiled? ==>
      var r := CompileAlternative(e, st).state;
      Grows(st, r) && RecordedSince(r.scope.lastInstruction, start, r.scope) && r.scope.lastInstruction.opcode != Some(Code.OpPop)
    decreases e, 0, 0
  {
    if e.alternative.Some? {
      StatementsShape(e.alternative.value.statements, st);
      if CompileStatements(e.alternative.value.statements, st).Compiled? && e.alternative.value.statements != [] {
        DropLastPopShape(st, CompileStatements(e.alternative.value.statements, st).state);
      }
    }
  }

  /** A jump whose three bytes are in the scope, patched with an operand that fits, changes its two operand bytes and nothing else. */
  lemma {:induction false} PatchJump(st: CState, pos: nat, operand: nat) returns (r: seq<Code.Byte>)
    requires pos + 3 <= |st.scope.instructions|
    requires st.scope.instructions[pos] == Code.OpJump || st.scope.instructions[pos] == Code.OpJumpNotTruthy
    requires operand < 65536
    ensures ChangeOperandSpec(st, pos, operand) == Compiled(st.(scope := st.scope.(instructions := r)))
    ensures var ins := st.scope.instructions;
      |r| == |ins| && r[..pos] == ins[..pos] && r[pos] == ins[pos]
      && Code.BigEndian(r[pos + 1..pos + 3]) == operand && r[pos + 3..] == ins[pos + 3..]
  {
    var ins := st.scope.instructions;
    JumpEncoding(ins[pos], operand);
    var bytes := Code.MakeSpec(ins[pos], [operand]).value;
    r := Spliced(ins, pos, bytes);
    assert r[pos..pos + 3] == bytes;
    assert r[pos + 1..pos + 3] == bytes[1..];
  }

  /** A jump with an operand that fits encodes to its opcode and the operand's two big-endian bytes. */
  lemma JumpEncoding(op: Code.Byte, operand: nat)
    requires op == Code.OpJump || op == Code.OpJumpNotTruthy
    requires operand < 65536
    ensures Code.MakeSpec(op, [operand]).Ok?
    ensures var bytes := Code.MakeSpec(op, [operand]).value;
      |bytes| == 3 && bytes[0] == op && Code.BigEndian(bytes[1..]) == operand
  {
    assert op in Code.Definitions && Code.Definitions[op].operandWidths == [2];
    Code.MakeBeyondArity(op, [operand]);
    assert Code.Pow(256, 2) == 65536;
    var bytes := Code.MakeSpec(op, [operand]).value;
    assert bytes == [op] + Code.NumToHexBytes(operand, 2);
    assert bytes[1..] == Code.NumToHexBytes(operand, 2);
  }

  /** Emitting a jump with a placeholder appends exactly three bytes, the first of them the opcode. */
  lemma {:induction false} EmitJump(st: CState, op: Code.Byte)
    requires op == Code.OpJump || op == Code.OpJumpNotTruthy
    ensures EmitSpec(st, Some(op), [PLACEHOLDER]).Compiled?
    ensures var r := EmitSpec(st, Some(op), [PLACEHOLDER]).state.scope.instructions;
      |r| == |st.scope.instructions| + 3 && r[|st.scope.instructions|] == op
  {
    assert op in Code.Definitions && Code.Definitions[op].operandWidths == [2];
    Code.MakeBeyondArity(op, [PLACEHOLDER]);
    assert Code.Pow(256, 2) == 65536;
  }

  /** OpJump emitted after code holding OpJumpNotTruthy at `p`, and that jump patched to just past OpJump. */
  lemma {:induction false} FirstPatch(st: CState, p: nat) returns (st5: CState)
    requires p + 3 <= |st.scope.instructions| && st.scope.instructions[p] == Code.OpJumpNotTruthy
    requires |st.scope.instructions| + 3 < 65536
    ensures EmitSpec(st, Some(Code.OpJump), [PLACEHOLDER]).Compiled?
    ensures var st4 := EmitSpec(st, Some(Code.OpJump), [PLACEHOLDER]).state;
      ChangeOperandSpec(st4, p, |st4.scope.instructions|) == Compiled(st5)
    ensures var ins := st5.scope.instructions;
      var jumpPos := |st.scope.instructions|;
      |ins| == jumpPos + 3 && ins[..p] == st.scope.instructions[..p]
      && ins[p] == Code.OpJumpNotTruthy && Code.BigEndian(ins[p + 1..p + 3]) == jumpPos + 3
      && ins[jumpPos] == Code.OpJump
      && st5.scope.lastInstruction == EmittedInstruction(Some(Code.OpJump), Some(jumpPos))
  {
    var jumpPos := |st.scope.instructions|;
    EmitJump(st, Code.OpJump);
    var st4 := EmitSpec(st, Some(Code.OpJump), [PLACEHOLDER]).state;
    var ins4 := st4.scope.instructions;
    assert ins4[p] == Code.OpJumpNotTruthy by {
      assert ins4[..jumpPos][p] == ins4[p];
    }
    var ins := PatchJump(st4, p, jumpPos + 3);
    st5 := st4.(scope := st4.scope.(instructions := ins));
    assert ins[..p] == st.scope.instructions[..p] by {
      assert ins4[..p] == ins4[..jumpPos][..p];
    }
    assert ins[jumpPos] == Code.OpJump by {
      assert ins[p + 3..][jumpPos - (p + 3)] == ins4[p + 3..][jumpPos - (p + 3)];
    }
  }

  /**
   * OpJump, the patch of OpJumpNotTruthy at `p` and the alternative: the
   * states before and after the alternative, and the position of OpJump,
   * whose patch finishes the `if`.
   */
  lemma {:induction false} ElseJumps(e: Expression, st: CState, p: nat) returns (st5: CState, jumpPos: nat, st6: CState)
    requires e.IfExpression?
    requires p + 3 <= |st.scope.instructions| && st.scope.instructions[p] == Code.OpJumpNotTruthy
    requires CompileElse(e, st, p).Compiled?
    requires |CompileElse(e, st, p).state.scope.instructions| < 65536
    ensures CompileAlternative(e, st5) == Compiled(st6)
    ensures CompileElse(e, st, p) == ChangeOperandSpec(st6, jumpPos, |st6.scope.instructions|)
    ensures var ins := st5.scope.instructions;
      jumpPos == |st.scope.instructions| && |ins| == jumpPos + 3 && ins[..p] == st.scope.instructions[..p]
      && ins[p] == Code.OpJumpNotTruthy && Code.BigEndian(ins[p + 1..p + 3]) == jumpPos + 3
    ensures var ins5 := st5.scope.instructions;
      var ins6 := st6.scope.instructions;
      |ins5| <= |ins6| < 65536 && ins6[..|ins5|] == ins5 && ins6[jumpPos] == Code.OpJump
      && (e.alternative.None? ==> ins6 == ins5 + [Code.OpNull])
  {
    jumpPos := |st.scope.instructions|;
    EmitJump(st, Code.OpJump);
    var st4 := EmitSpec(st, Some(Code.OpJump), [PLACEHOLDER]).state;
    var n4 := |st4.scope.instructions|;
    assert n4 == jumpPos + 3;
    var st5' := ChangeOperandSpec(st4, p, n4).state;
    ChangeOperandKeeps(st4, p, n4);
    AlternativeShape(e, st5', jumpPos);
    st6 := CompileAlternative(e, st5').state;
    ChangeOperandKeeps(st6, jumpPos, |st6.scope.instructions|);
    st5 := FirstPatch(st, p);
    assert st6.scope.instructions[jumpPos] == Code.OpJump by {
      assert st6.scope.instructions[..|st5.scope.instructions|][jumpPos] == st5.scope.instructions[jumpPos];
    }
    if e.alternative.None? {
      Code.MakeNoOperands(Code.OpNull);
    }
  }

  /** The bytes of an `if` after its second patch, on sequences alone. */
  lemma {:induction false} JumpBytes(pre: seq<Code.Byte>, ins5: seq<Code.Byte>, ins6: seq<Code.Byte>, r: seq<Code.Byte>,
                                     p: nat, jumpPos: nat, j: nat, nullOnly: bool)
    requires p == |pre| && p + 3 <= jumpPos && |ins5| == jumpPos + 3 && j == jumpPos + 3
    requires ins5[..p] == pre && ins5[p] == Code.OpJumpNotTruthy && Code.BigEndian(ins5[p + 1..p + 3]) == jumpPos + 3
    requires |ins5| <= |ins6| && ins6[..|ins5|] == ins5
    requires nullOnly ==> ins6 == ins5 + [Code.OpNull]
    requires |r| == |ins6| && r[..jumpPos] == ins6[..jumpPos] && r[jumpPos + 3..] == ins6[jumpPos + 3..]
    requires r[jumpPos] == Code.OpJump && Code.BigEndian(r[jumpPos + 1..jumpPos + 3]) == |r|
    ensures p + 6 <= j <= |r| && r[..p] == pre
      && r[p] == Code.OpJumpNotTruthy && Code.BigEndian(r[p + 1..p + 3]) == j
      && r[j - 3] == Code.OpJump && Code.BigEndian(r[j - 2..j]) == |r|
      && (nullOnly ==> |r| == j + 1 && r[j] == Code.OpNull)
  {
    assert r[..jumpPos] == ins5[..jumpPos] by {
      assert ins6[..jumpPos] == ins6[..|ins5|][..jumpPos];
    }
    assert r[..p] == pre by {
      assert r[..p] == r[..jumpPos][..p];
      assert ins5[..p] == ins5[..jumpPos][..p];
    }
    assert r[p] == Code.OpJumpNotTruthy by {
      assert r[..jumpPos][p] == ins5[..jumpPos][p];
    }
    assert r[p + 1..p + 3] == ins5[p + 1..p + 3] by {
      assert r[p + 1..p + 3] == r[..jumpPos][p + 1..p + 3];
      assert ins5[p + 1..p + 3] == ins5[..jumpPos][p + 1..p + 3];
    }
    if nullOnly {
      assert r[j] == ins6[j] by {
        assert r[j..][0] == ins6[j..][0];
      }
    }
  }

  /** OpJumpNotTruthy and the consequence: the state from which the rest of an `if` goes on. */
  lemma {:induction false} ConsequenceJumps(e: Expression, st: CState) returns (st3: CState)
    requires e.IfExpression?
    requires CompileBranches(e, st).Compiled?
    ensures var p := |st.scope.instructions|;
      CompileBranches(e, st) == CompileElse(e, st3, p)
      && p + 3 <= |st3.scope.instructions| && st3.scope.instructions[..p] == st.scope.instructions
      && st3.scope.instructions[p] == Code.OpJumpNotTruthy
  {
    var p := |st.scope.instructions|;
    EmitJump(st, Code.OpJumpNotTruthy);
    var st1 := EmitSpec(st, Some(Code.OpJumpNotTruthy), [PLACEHOLDER]).state;
    StatementsShape(e.consequence.statements, st1);
    var st2 := CompileStatements(e.consequence.statements, st1).state;
    st3 := DropLastPop(st2);
    if e.consequence.statements != [] {
      DropLastPopShape(st1, st2);
    }
    assert st3.scope.instructions[..p + 3] == st1.scope.instructions;
    assert st3.scope.instructions[p] == Code.OpJumpNotTruthy by {
      assert st3.scope.instructions[..p + 3][p] == st3.scope.instructions[p];
    }
    assert st3.scope.instructions[..p] == st3.scope.instructions[..p + 3][..p];
  }

  /**
   * After an `if`'s branches are compiled (code under 65536 bytes), the
   * OpJumpNotTruthy at the start jumps to `j`, just past the OpJump that
   * ends the consequence, and that OpJump jumps to the end of the code;
   * without an alternative, the code between is a single OpNull.
   */
  lemma {:induction false} IfJumpsArePatched(e: Expression, st: CState) returns (j: nat)
    requires e.IfExpression?
    requires CompileBranches(e, st).Compiled?
    requires |CompileBranches(e, st).state.scope.instructions| < 65536
    ensures var r := CompileBranches(e, st).state.scope.instructions;
      var p := |st.scope.instructions|;
      p + 6 <= j <= |r| && r[..p] == st.scope.instructions
      && r[p] == Code.OpJumpNotTruthy && Code.BigEndian(r[p + 1..p + 3]) == j
      && r[j - 3] == Code.OpJump && Code.BigEndian(r[j - 2..j]) == |r|
      && (e.alternative.None? ==> |r| == j + 1 && r[j] == Code.OpNull)
  {
    var p := |st.scope.instructions|;
    var st3 := ConsequenceJumps(e, st);
    var st5, jumpPos, st6 := ElseJumps(e, st3, p);
    var r := PatchJump(st6, jumpPos, |st6.scope.instructions|);
    j := jumpPos + 3;
    JumpBytes(st.scope.instructions, st5.scope.instructions, st6.scope.instructions, r, p, jumpPos, j, e.alternative.None?);
  }

  /** `a < b` compiles exactly as `b > a`: the compiler has no OpLessThan. */
  lemma {:induction false} LessThanSwapsOperands(t: Tokens.Token, left: Option<Expression>, right: Option<Expression>, st: CState)
    ensures CompileExpr(InfixExpression(t, left, "<", right), st) == CompileExpr(InfixExpression(t, right, ">", left), st)
  {
  }

  /** Removing the OpPop just emitted gives back the instructions and the last instruction from before it. */
  lemma {:induction false} RemovePopUndoesEmitPop(st: CState)
    ensures EmitSpec(st, Some(Code.OpPop), []).Compiled?
    ensures var popped := EmitSpec(st, Some(Code.OpPop), []).state;
      LastIs(popped.scope, Code.OpPop)
      && DropLastPop(popped) == st.(scope := st.scope.(previousInstruction := st.scope.lastInstruction))
  {
    Code.MakeNoOperands(Code.OpPop);
    var popped := EmitSpec(st, Some(Code.OpPop), []).state;
    assert popped.scope.instructions == st.scope.instructions + [Code.OpPop];
    assert popped.scope.instructions[..|st.scope.instructions|] == st.scope.instructions;
  }

  /**
   * At the top level a `let` stores its value in the next global slot, and
   * the name then loads from that same slot.
   */
  lemma {:induction false} LetThenLoadSameSlot(st: CState, t: Tokens.Token, name: string)
    requires st.rooted
    ensures DefineSpec(st, Identifier(t, name)).Compiled?
    ensures var d := DefineSpec(st, Identifier(t, name)).state;
      var n := st.numDefinitions;
      d.store[name] == Symbols.SymbolItem(name, Symbols.GLOBAL, n) && d.numDefinitions == n + 1
      && d.scope.instructions == st.scope.instructions + [Code.OpSetGlobal] + Code.NumToHexBytes(n, 2)
      && LoadSpec(d, name).Compiled?
      && LoadSpec(d, name).state.scope.instructions == d.scope.instructions + [Code.OpGetGlobal] + Code.NumToHexBytes(n, 2)
  {
    var n := st.numDefinitions;
    assert Code.OpSetGlobal in Code.Definitions && Code.Definitions[Code.OpSetGlobal].operandWidths == [2];
    assert Code.OpGetGlobal in Code.Definitions && Code.Definitions[Code.OpGetGlobal].operandWidths == [2];
    Code.MakeBeyondArity(Code.OpSetGlobal, [n]);
    Code.MakeBeyondArity(Code.OpGetGlobal, [n]);
  }

  /** The expression `1 + 2;` */
  function OnePlusTwoProgram(t: Tokens.Token): Program {
    Program([ExpressionStatement(t, Some(InfixExpression(t, Some(IntegerLiteral(t, 1)), "+", Some(IntegerLiteral(t, 2)))))])
  }

  /** The state of a new compiler with a new symbol table. */
  const START := CState(BLANK_SCOPE, [], map[], 0, true)

  /** An integer literal, while the pool holds fewer than 256 constants, appends OpConstant 0 and the new index. */
  lemma {:induction false} LoadSmallConstant(st: CState, t: Tokens.Token, v: int) returns (r: CState)
    requires |st.constants| < 256
    ensures CompileExpr(IntegerLiteral(t, v), st) == Compiled(r)
    ensures r == st.(scope := r.scope, constants := st.constants + [IntegerObj(v)])
    ensures r.scope == Appended(st.scope, Some(Code.OpConstant), [Code.OpConstant, 0, |st.constants| as Code.Byte])
  {
    var n := |st.constants|;
    assert Code.OpConstant in Code.Definitions && Code.Definitions[Code.OpConstant].operandWidths == [2];
    Code.MakeBeyondArity(Code.OpConstant, [n]);
    assert Code.Pow(256, 2) == 65536;
    Code.BigEndianTwoBytes(Code.NumToHexBytes(n, 2));
    assert Code.NumToHexBytes(n, 2) == [0, n as Code.Byte];
    r := EmitSpec(AddConstantSpec(st, IntegerObj(v)), Some(Code.OpConstant), [n]).state;
  }

  /**
   * A sum of two integer literals, while the pool holds fewer than 255
   * constants, appends two OpConstant loads of the two new constants and
   * OpAdd.
   */
  lemma {:induction false} CompileIntegerSum(t: Tokens.Token, t1: Tokens.Token, a: int, t2: Tokens.Token, b: int, st: CState)
    requires |st.constants| + 1 < 256
    ensures var e := InfixExpression(t, Some(IntegerLiteral(t1, a)), "+", Some(IntegerLiteral(t2, b)));
      var n := |st.constants|;
      CompileExpr(e, st).Compiled?
      && CompileExpr(e, st).state.scope.instructions
         == st.scope.instructions + [Code.OpConstant, 0, n as Code.Byte] + [Code.OpConstant, 0, (n + 1) as Code.Byte] + [Code.OpAdd]
      && CompileExpr(e, st).state.constants == st.constants + [IntegerObj(a)] + [IntegerObj(b)]
  {
    var st1 := LoadSmallConstant(st, t1, a);
    var st2 := LoadSmallConstant(st1, t2, b);
    CompileSum(t, Some(IntegerLiteral(t1, a)), Some(IntegerLiteral(t2, b)), st, st1, st2);
  }

  /** A sum compiles its left operand, then its right one, then emits OpAdd. */
  lemma CompileSum(t: Tokens.Token, left: Option<Expression>, right: Option<Expression>, st: CState, st1: CState, st2: CState)
    requires CompileOptional(left, st) == Compiled(st1) && CompileOptional(right, st1) == Compiled(st2)
    ensures CompileExpr(InfixExpression(t, left, "+", right), st)
      == Compiled(st2.(scope := Appended(st2.scope, Some(Code.OpAdd), [Code.OpAdd])))
  {
    Code.MakeNoOperands(Code.OpAdd);
    assert InfixOpcode("+") == Some(Code.OpAdd);
  }

  /** `1 + 2;` compiles to two OpConstant loads, OpAdd and OpPop, over the constants 1 and 2. */
  lemma {:induction false} CompileOnePlusTwo(t: Tokens.Token)
    ensures CompileStatements(OnePlusTwoProgram(t).statements, START).Compiled?
    ensures var r := CompileStatements(OnePlusTwoProgram(t).statements, START).state;
      r.scope.instructions == [Code.OpConstant, 0, 0, Code.OpConstant, 0, 1, Code.OpAdd, Code.OpPop]
      && r.constants == [IntegerObj(1), IntegerObj(2)]
  {
    var ss := OnePlusTwoProgram(t).statements;
    CompileIntegerSum(t, t, 1, t, 2, START);
    var st3 := CompileExpr(ss[0].expression.value, START).state;
    Code.MakeNoOperands(Code.OpPop);
    var x := ss[0].expression;
    assert CompileOptional(x, START) == Compiled(st3);
    var st4 := EmitSpec(st3, Some(Code.OpPop), []).state;
    assert CompileStatement(ss[0], START) == Compiled(st4);
    assert CompileStatements(ss, START) == CompileStatements(ss[1..], st4);
  }

  /** How a method of the compiler ends: normally, with an exception, or in a case the model does not decide. */
  datatype Status = Done | Failed(message: string) | Stopped(what: string)

  function StatusOf(o: Outcome): Status {
    match o
    case Compiled(_) => Done
    case Threw(m) => Failed(m)
    case Unmodelled(w) => Stopped(w)
  }

  class Compiler {
    var scopes: seq<CompilationScope>
    var scopeIndex: int
    var symbolTable: Symbols.SymbolTable
    var constants: seq<Obj>

    /** `scopeIndex` is the index of the last scope, and the symbol table is well formed. */
    ghost predicate Valid()
      reads this, symbolTable, symbolTable.ancestors
    {
      0 <= scopeIndex == |scopes| - 1 && symbolTable.Valid()
    }

    /** The state compiling a node reads and writes. */
    function State(): CState
      reads this, symbolTable
      requires 0 <= scopeIndex < |scopes|
    {
      CState(scopes[scopeIndex], constants, symbolTable.store, symbolTable.numDefinitions, symbolTable.outer == null)
    }

    /** Only the current scope, the constants and the current symbol table's contents may have changed. */
    twostate predicate OthersKept()
      reads this
    {
      scopeIndex == old(scopeIndex) && |scopes| == |old(scopes)| && 0 <= scopeIndex < |scopes|
      && scopes[..scopeIndex] == old(scopes)[..scopeIndex] && symbolTable == old(symbolTable)
    }

    /** `new Compiler(symbolTable, constants)`: one blank scope. */
    constructor(symbolTable: Symbols.SymbolTable, constants: seq<Obj>)
      requires symbolTable.Valid()
      ensures Valid() && scopes == [BLANK_SCOPE] && scopeIndex == 0
      ensures this.symbolTable == symbolTable && this.constants == constants
    {
      scopes := [BLANK_SCOPE];
      scopeIndex := 0;
      this.symbolTable := symbolTable;
      this.constants := constants;
    }

    /** `currentInstructions`. */
    function CurrentInstructions(): seq<Code.Byte>
      reads this
      requires 0 <= scopeIndex < |scopes|
    {
      scopes[scopeIndex].instructions
    }

    /** `addInstruction`: appends to the current scope and returns where the instruction starts. */
    method AddInstruction(instruction: seq<Code.Byte>) returns (position: nat)
      requires Valid()
      modifies this
      ensures Valid() && OthersKept() && constants == old(constants)
      ensures position == |old(CurrentInstructions())|
      ensures scopes[scopeIndex] == old(scopes[scopeIndex]).(instructions := old(CurrentInstructions()) + instruction)
    {
      position := |CurrentInstructions()|;
      var updatedInstructions := CurrentInstructions() + instruction;
      scopes := scopes[scopeIndex := scopes[scopeIndex].(instructions := updatedInstructions)];
    }

    /** `setLastInstruction`: the last instruction becomes the previous one. */
    method SetLastInstruction(op: Option<Code.Byte>, position: nat)
      requires Valid()
      modifies this
      ensures Valid() && OthersKept() && constants == old(constants)
      ensures scopes[scopeIndex] == old(scopes[scopeIndex]).(
        lastInstruction := EmittedInstruction(op, Some(position)),
        previousInstruction := old(scopes[scopeIndex].lastInstruction))
    {
      var previous := scopes[scopeIndex].lastInstruction;
      scopes := scopes[scopeIndex := scopes[scopeIndex].(previousInstruction := previous)];
      scopes := scopes[scopeIndex := scopes[scopeIndex].(lastInstruction := EmittedInstruction(op, Some(position)))];
    }

    /** `emit`: the position of the new instruction, unless `make` throws. */
    method Emit(op: Option<Code.Byte>, operands: seq<nat>) returns (status: Status, position: nat)
      requires Valid()
      modifies this
      ensures Valid() && OthersKept() && constants == old(constants)
      ensures status == StatusOf(EmitSpec(old(State()), op, operands))
      ensures status.Done? ==> position == |old(CurrentInstructions())| && State() == EmitSpec(old(State()), op, operands).state
    {
      var instruction: seq<Code.Byte> := [];
      if op.Some? {
        var made := Code.Make(op.value, operands);
        if made.Err? {
          return Failed(made.message), 0;
        }
        instruction := made.value;
      }
      position := AddInstruction(instruction);
      SetLastInstruction(op, position);
      status := Done;
    }

    /** `emit` where the position is not used. */
    method EmitOnly(op: Option<Code.Byte>, operands: seq<nat>) returns (status: Status)
      requires Valid()
      modifies this
      ensures Valid() && OthersKept() && constants == old(constants)
      ensures status == StatusOf(EmitSpec(old(State()), op, operands))
      ensures status.Done? ==> State() == EmitSpec(old(State()), op, operands).state
    {
      var position;
      status, position := Emit(op, operands);
    }

    /** `addConstant`: appends to the pool and returns the new constant's index. */
    method AddConstant(obj: Obj) returns (index: nat)
      requires Valid()
      modifies this
      ensures Valid() && OthersKept() && scopes == old(scopes)
      ensures constants == old(constants) + [obj] && index == |old(constants)|
      ensures State() == AddConstantSpec(old(State()), obj)
    {
      constants := constants + [obj];
      index := |constants| - 1;
    }

    /** `lastInstructionIs`. */
    function LastInstructionIs(op: Code.Byte): bool
      reads this
      requires 0 <= scopeIndex < |scopes|
    {
      LastIs(scopes[scopeIndex], op)
    }

    /** `removeLastPop`. */
    method RemoveLastPop()
      requires Valid()
      modifies this
      ensures Valid() && OthersKept() && constants == old(constants)
      ensures scopes[scopeIndex] == WithoutLastPop(old(scopes[scopeIndex]))
    {
      var last := scopes[scopeIndex].lastInstruction;
      var previous := scopes[scopeIndex].previousInstruction;
      var old_ := CurrentInstructions();
      var newInstructions := old_;
      if last.position.Some? && last.position.value <= |old_| {
        newInstructions := old_[..last.position.value];
      }
      scopes := scopes[scopeIndex := scopes[scopeIndex].(instructions := newInstructions)];
      scopes := scopes[scopeIndex := scopes[scopeIndex].(lastInstruction := previous)];
    }

    /** `replaceInstruction`: splices the new bytes over the current scope's instructions at `position`. */
    method ReplaceInstruction(position: nat, newInstructions: seq<Code.Byte>)
      requires Valid()
      modifies this
      ensures Valid() && OthersKept() && constants == old(constants)
      ensures scopes[scopeIndex] == old(scopes[scopeIndex]).(instructions := Spliced(old(CurrentInstructions()), position, newInstructions))
    {
      scopes := scopes[scopeIndex := scopes[scopeIndex].(instructions := Spliced(CurrentInstructions(), position, newInstructions))];
    }

    /** `changeOperand`. */
    method ChangeOperand(opPosition: nat, operand: nat) returns (status: Status)
      requires Valid()
      modifies this
      ensures Valid() && OthersKept() && constants == old(constants)
      ensures status == StatusOf(ChangeOperandSpec(old(State()), opPosition, operand))
      ensures status.Done? ==> State() == ChangeOperandSpec(old(State()), opPosition, operand).state
    {
      if opPosition >= |CurrentInstructions()| {
        return Done;
      }
      var newInstruction := Code.Make(CurrentInstructions()[opPosition], [operand]);
      if newInstruction.Err? {
        return Failed(newInstruction.message);
      }
      ReplaceInstruction(opPosition, newInstruction.value);
      status := Done;
    }

    /** `enterScope`: a blank scope and a symbol table enclosed by the current one. */
    method EnterScope()
      requires Valid()
      modifies this
      ensures Valid() && constants == old(constants)
      ensures scopes == old(scopes) + [BLANK_SCOPE] && scopeIndex == old(scopeIndex) + 1
      ensures fresh(symbolTable) && symbolTable.outer == old(symbolTable)
      ensures symbolTable.store == map[] && symbolTable.numDefinitions == 0 && symbolTable.freeSymbols == []
    {
      scopes := scopes + [BLANK_SCOPE];
      scopeIndex := scopeIndex + 1;
      symbolTable := new Symbols.SymbolTable(symbolTable);
    }

    /**
     * `leaveScope`: pops the current scope and returns its instructions;
     * at the root symbol table it throws, but only after the scope is
     * popped.
     */
    method LeaveScope() returns (r: Result<seq<Code.Byte>>)
      requires Valid()
      modifies this
      ensures scopes == old(scopes)[..|old(scopes)| - 1] && scopeIndex == old(scopeIndex) - 1 && constants == old(constants)
      ensures r.Err? <==> old(symbolTable.outer) == null
      ensures r.Err? ==> r.message == "can't leave root scope" && symbolTable == old(symbolTable)
      ensures r.Ok? ==> r.value == old(CurrentInstructions()) && symbolTable == old(symbolTable.outer)
      ensures r.Ok? && old(scopeIndex) > 0 ==> Valid()
    {
      var instructions := CurrentInstructions();
      scopes := scopes[..|scopes| - 1];
      scopeIndex := scopeIndex - 1;
      if symbolTable.outer == null {
        return Err("can't leave root scope");
      }
      symbolTable := symbolTable.outer;
      r := Ok(instructions);
    }

    /** `compile` of a node that may be missing: `undefined` throws the TypeError its `toString` raises. */
    method CompileOptionalNode(x: Option<Expression>) returns (status: Status)
      requires Valid()
      modifies this, symbolTable
      ensures Valid() && OthersKept()
      ensures status == StatusOf(CompileOptional(x, old(State())))
      ensures status.Done? ==> State() == CompileOptional(x, old(State())).state
      decreases x, 2
    {
      if x.None? {
        return Failed(MISSING_NODE);
      }
      status := CompileExpression(x.value);
    }

    /** `compile` of an expression. */
    method CompileExpression(e: Expression) returns (status: Status)
      requires Valid()
      modifies this, symbolTable
      ensures Valid() && OthersKept()
      ensures status == StatusOf(CompileExpr(e, old(State())))
      ensures status.Done? ==> State() == CompileExpr(e, old(State())).state
      decreases e, 2
    {
      if e.PrefixExpression? || e.InfixExpression? || e.IfExpression? {
        status := CompileOperator(e);
      } else if e.ArrayLiteral? || e.IndexExpression? || e.CallExpression? {
        status := CompileCollection(e);
      } else {
        status := CompileLeaf(e);
      }
    }

    /** Prefix, infix and `if` expressions. */
    method CompileOperator(e: Expression) returns (status: Status)
      requires e.PrefixExpression? || e.InfixExpression? || e.IfExpression?
      requires Valid()
      modifies this, symbolTable
      ensures Valid() && OthersKept()
      ensures status == StatusOf(CompileExpr(e, old(State())))
      ensures status.Done? ==> State() == CompileExpr(e, old(State())).state
      decreases e, 1
    {
      if e.PrefixExpression? {
        status := CompilePrefix(e);
      } else if e.InfixExpression? {
        status := CompileInfix(e);
      } else {
        status := CompileIf(e);
      }
    }

    /** Array literals, index expressions and calls. */
    method CompileCollection(e: Expression) returns (status: Status)
      requires e.ArrayLiteral? || e.IndexExpression? || e.CallExpression?
      requires Valid()
      modifies this, symbolTable
      ensures Valid() && OthersKept()
      ensures status == StatusOf(CompileExpr(e, old(State())))
      ensures status.Done? ==> State() == CompileExpr(e, old(State())).state
      decreases e, 1
    {
      if e.ArrayLiteral? {
        status := CompileArray(e);
      } else if e.IndexExpression? {
        status := CompileIndex(e);
      } else {
        status := CompileCall(e);
      }
    }

    /** The expressions with no sub-expression to compile first: names, literals, and the two kinds stopped here. */
    method CompileLeaf(e: Expression) returns (status: Status)
      requires Valid() && IsLeaf(e)
      modifies this, symbolTable
      ensures Valid() && OthersKept()
      ensures status == StatusOf(CompileLeafExpr(e, old(State())))
      ensures status.Done? ==> State() == CompileLeafExpr(e, old(State())).state
    {
      if e.Identifier? {
        status := CompileIdentifier(e.value);
      } else if e.FunctionLiteral? {
        status := Stopped("a function literal, compiled in a scope of its own");
      } else if e.HashLiteral? {
        status := Stopped("a hash literal, whose keys are ordered by their printed form");
      } else {
        status := CompileLiteral(e);
      }
    }

    /** A literal: integers and strings go to the constant pool, booleans become OpTrue or OpFalse. */
    method CompileLiteral(e: Expression) returns (status: Status)
      requires Valid() && (e.IntegerLiteral? || e.StringLiteral? || e.BoolExpression?)
      modifies this
      ensures Valid() && OthersKept()
      ensures status == StatusOf(CompileLeafExpr(e, old(State())))
      ensures status.Done? ==> State() == CompileLeafExpr(e, old(State())).state
    {
      if e.IntegerLiteral? {
        status := CompileConstant(IntegerObj(e.intValue));
      } else if e.StringLiteral? {
        status := CompileConstant(StringObj(e.value));
      } else {
        status := EmitOnly(Some(if e.boolValue then Code.OpTrue else Code.OpFalse), []);
      }
    }

    /** An identifier: `resolve`, then `loadSymbol`. */
    method CompileIdentifier(name: string) returns (status: Status)
      requires Valid()
      modifies this, symbolTable
      ensures Valid() && OthersKept()
      ensures status == StatusOf(LoadSpec(old(State()), name))
      ensures status.Done? ==> State() == LoadSpec(old(State()), name).state
    {
      if symbolTable.outer != null {
        return Stopped("resolving a name inside a function scope");
      }
      var sym := symbolTable.Resolve(name);
      if sym.None? {
        return Failed("undefined variable: \"" + name + "\"");
      }
      var item := sym.value;
      if item.scope == Symbols.FUNCTION {
        status := Failed("unrecognized SymbolScope: FUNCTION");
      } else if item.scope != Symbols.GLOBAL {
        status := EmitOnly(None, []);
      } else if item.index < 0 {
        status := Stopped("a negative operand");
      } else {
        status := EmitOnly(Some(Code.OpGetGlobal), [item.index as nat]);
      }
    }

    /** An integer or string literal: added to the pool and loaded with OpConstant. */
    method CompileConstant(obj: Obj) returns (status: Status)
      requires Valid()
      modifies this
      ensures Valid() && OthersKept()
      ensures status == StatusOf(EmitSpec(AddConstantSpec(old(State()), obj), Some(Code.OpConstant), [|old(constants)|]))
      ensures status.Done? ==> State() == EmitSpec(AddConstantSpec(old(State()), obj), Some(Code.OpConstant), [|old(constants)|]).state
    {
      var index := AddConstant(obj);
      status := EmitOnly(Some(Code.OpConstant), [index]);
    }

    method CompilePrefix(e: Expression) returns (status: Status)
      requires Valid() && e.PrefixExpression?
      modifies this, symbolTable
      ensures Valid() && OthersKept()
      ensures status == StatusOf(CompileExpr(e, old(State())))
      ensures status.Done? ==> State() == CompileExpr(e, old(State())).state
      decreases e, 0, 2
    {
      status := CompileOptionalNode(e.right);
      if !status.Done? {
        return;
      }
      if e.operator == "!" {
        status := EmitOnly(Some(Code.OpBang), []);
      } else if e.operator == "-" {
        status := EmitOnly(Some(Code.OpMinus), []);
      } else {
        status := Failed("unknown prefix operator: " + e.operator);
      }
    }

    /** An infix expression; `<` compiles its right operand first and becomes OpGreaterThan. */
    method CompileInfix(e: Expression) returns (status: Status)
      requires Valid() && e.InfixExpression?
      modifies this, symbolTable
      ensures Valid() && OthersKept()
      ensures status == StatusOf(CompileExpr(e, old(State())))
      ensures status.Done? ==> State() == CompileExpr(e, old(State())).state
      decreases e, 0, 2
    {
      if e.operator == "<" {
        status := CompileOptionalNode(e.right);
        if !status.Done? {
          return;
        }
        status := CompileOptionalNode(e.left);
        if !status.Done? {
          return;
        }
        status := EmitOnly(Some(Code.OpGreaterThan), []);
        return;
      }
      status := CompileOptionalNode(e.left);
      if !status.Done? {
        return;
      }
      status := CompileOptionalNode(e.right);
      if !status.Done? {
        return;
      }
      var op := InfixOpcode(e.operator);
      if op.None? {
        return Failed("unknown infix operator: \"" + e.operator + "\"");
      }
      status := EmitOnly(op, []);
    }

    method CompileIf(e: Expression) returns (status: Status)
      requires Valid() && e.IfExpression?
      modifies this, symbolTable
      ensures Valid() && OthersKept()
      ensures status == StatusOf(CompileExpr(e, old(State())))
      ensures status.Done? ==> State() == CompileExpr(e, old(State())).state
      decreases e, 0
    {
      status := CompileOptionalNode(e.condition);
      if !status.Done? {
        return;
      }
      var jumpNotTruthyPos;
      status, jumpNotTruthyPos := Emit(Some(Code.OpJumpNotTruthy), [PLACEHOLDER]);
      if !status.Done? {
        return;
      }
      status := CompileConsequenceOf(e, jumpNotTruthyPos);
    }

    /** The consequence of an `if` after OpJumpNotTruthy was emitted at `jumpNotTruthyPos`. */
    method CompileConsequenceOf(e: Expression, jumpNotTruthyPos: nat) returns (status: Status)
      requires Valid() && e.IfExpression?
      modifies this, symbolTable
      ensures Valid() && OthersKept()
      ensures status == StatusOf(CompileConsequence(e, old(State()), jumpNotTruthyPos))
      ensures status.Done? ==> State() == CompileConsequence(e, old(State()), jumpNotTruthyPos).state
      decreases e, 0, 2
    {
      status := CompileStatementList(e.consequence.statements);
      if !status.Done? {
        return;
      }
      if LastInstructionIs(Code.OpPop) {
        RemoveLastPop();
      }
      status := CompileElseOf(e, jumpNotTruthyPos);
    }

    /** OpJump, the first patch, the alternative and the second patch of an `if`. */
    method CompileElseOf(e: Expression, jumpNotTruthyPos: nat) returns (status: Status)
      requires Valid() && e.IfExpression?
      modifies this, symbolTable
      ensures Valid() && OthersKept()
      ensures status == StatusOf(CompileElse(e, old(State()), jumpNotTruthyPos))
      ensures status.Done? ==> State() == CompileElse(e, old(State()), jumpNotTruthyPos).state
      decreases e, 0, 1
    {
      var jumpPos;
      status, jumpPos := Emit(Some(Code.OpJump), [PLACEHOLDER]);
      if !status.Done? {
        return;
      }
      var afterConsequencePos := |CurrentInstructions()|;
      status := ChangeOperand(jumpNotTruthyPos, afterConsequencePos);
      if !status.Done? {
        return;
      }
      status := CompileAlternativeOf(e);
      if !status.Done? {
        return;
      }
      var afterAlternativePos := |CurrentInstructions()|;
      status := ChangeOperand(jumpPos, afterAlternativePos);
    }

    method CompileAlternativeOf(e: Expression) returns (status: Status)
      requires Valid() && e.IfExpression?
      modifies this, symbolTable
      ensures Valid() && OthersKept()
      ensures status == StatusOf(CompileAlternative(e, old(State())))
      ensures status.Done? ==> State() == CompileAlternative(e, old(State())).state
      decreases e, 0, 0
    {
      if e.alternative.None? {
        status := EmitOnly(Some(Code.OpNull), []);
        return;
      }
      status := CompileStatementList(e.alternative.value.statements);
      if !status.Done? {
        return;
      }
      if LastInstructionIs(Code.OpPop) {
        RemoveLastPop();
      }
    }

    method CompileArray(e: Expression) returns (status: Status)
      requires Valid() && e.ArrayLiteral?
      modifies this, symbolTable
      ensures Valid() && OthersKept()
      ensures status == StatusOf(CompileExpr(e, old(State())))
      ensures status.Done? ==> State() == CompileExpr(e, old(State())).state
      decreases e, 0, 2
    {
      status := CompileExpressionList(e.elements);
      if !status.Done? {
        return;
      }
      status := EmitOnly(Some(Code.OpArray), [|e.elements|]);
    }

    method CompileIndex(e: Expression) returns (status: Status)
      requires Valid() && e.IndexExpression?
      modifies this, symbolTable
      ensures Valid() && OthersKept()
      ensures status == StatusOf(CompileExpr(e, old(State())))
      ensures status.Done? ==> State() == CompileExpr(e, old(State())).state
      decreases e, 0, 2
    {
      status := CompileExpression(e.collection);
      if !status.Done? {
        return;
      }
      status := CompileExpression(e.index);
      if !status.Done? {
        return;
      }
      status := EmitOnly(Some(Code.OpIndex), []);
    }

    /** A call: the function, the arguments, then OpCall, which the table lacks. */
    method CompileCall(e: Expression) returns (status: Status)
      requires Valid() && e.CallExpression?
      modifies this, symbolTable
      ensures Valid() && OthersKept()
      ensures status == StatusOf(CompileExpr(e, old(State())))
      ensures status.Done? ==> State() == CompileExpr(e, old(State())).state
      decreases e, 0, 2
    {
      status := CompileExpression(e.func);
      if !status.Done? {
        return;
      }
      status := CompileExpressionList(e.args);
      if !status.Done? {
        return;
      }
      status := EmitOnly(None, [|e.args|]);
    }

    /** `forEach(compile)` over array elements or call arguments. */
    method CompileExpressionList(es: seq<Expression>) returns (status: Status)
      requires Valid()
      modifies this, symbolTable
      ensures Valid() && OthersKept()
      ensures status == StatusOf(CompileExprs(es, old(State())))
      ensures status.Done? ==> State() == CompileExprs(es, old(State())).state
      decreases es
    {
      var i := 0;
      while i < |es|
        invariant 0 <= i <= |es|
        invariant Valid() && OthersKept()
        invariant CompileExprs(es, old(State())) == CompileExprs(es[i..], State())
        decreases |es| - i
      {
        ghost var before := State();
        status := CompileExpression(es[i]);
        assert es[i..][1..] == es[i + 1..];
        if !status.Done? {
          return;
        }
        i := i + 1;
      }
      status := Done;
    }

    /** `compile` of a statement. */
    method CompileStatementNode(s: Statement) returns (status: Status)
      requires Valid()
      modifies this, symbolTable
      ensures Valid() && OthersKept()
      ensures status == StatusOf(CompileStatement(s, old(State())))
      ensures status.Done? ==> State() == CompileStatement(s, old(State())).state
      decreases s, 1
    {
      match s
      case ExpressionStatement(_, x) =>
        status := CompileOptionalNode(x);
        if !status.Done? {
          return;
        }
        status := EmitOnly(Some(Code.OpPop), []);
      case ReturnStatement(_, x) =>
        status := CompileOptionalNode(x);
        if !status.Done? {
          return;
        }
        status := EmitOnly(None, []);
      case LetStatement(_, name, value) =>
        status := CompileOptionalNode(value);
        if !status.Done? {
          return;
        }
        if !name.Identifier? {
          return Stopped("a let whose name is not an identifier");
        }
        var sym := symbolTable.Define(name.value);
        var index := sym.index as nat;
        if sym.scope == Symbols.GLOBAL {
          status := EmitOnly(Some(Code.OpSetGlobal), [index]);
        } else {
          status := EmitOnly(None, [index]);
        }
    }

    /** `forEach(compile)` over the statements of a program or a block. */
    method CompileStatementList(ss: seq<Statement>) returns (status: Status)
      requires Valid()
      modifies this, symbolTable
      ensures Valid() && OthersKept()
      ensures status == StatusOf(CompileStatements(ss, old(State())))
      ensures status.Done? ==> State() == CompileStatements(ss, old(State())).state
      decreases ss
    {
      var i := 0;
      while i < |ss|
        invariant 0 <= i <= |ss|
        invariant Valid() && OthersKept()
        invariant CompileStatements(ss, old(State())) == CompileStatements(ss[i..], State())
        decreases |ss| - i
      {
        status := CompileStatementNode(ss[i]);
        assert ss[i..][1..] == ss[i + 1..];
        if !status.Done? {
          return;
        }
        i := i + 1;
      }
      status := Done;
    }

    /** `compile` of a program. */
    method CompileProgram(p: Program) returns (status: Status)
      requires Valid()
      modifies this, symbolTable
      ensures Valid() && OthersKept()
      ensures status == StatusOf(CompileStatements(p.statements, old(State())))
      ensures status.Done? ==> State() == CompileStatements(p.statements, old(State())).state
    {
      status := CompileStatementList(p.statements);
    }
  }
}

/**
 * The stack virtual machine of src/vm.ts. The pure part describes one
 * step of the run loop as a function of the machine state; `class VM`
 * keeps that state in its fields and a fixed-size stack array, and each of
 * its methods is proved to do what the function says.
 */
module Machine {
  import opened Wrappers
  import opened Objects
  import Code
  import Text

  const STACK_SIZE := 2048

  const UNDERFLOW := "Stack underflow, popped something off an empty stack"

  /**
   * A call frame: the instructions it runs (its closure's), its
   * instruction pointer, which starts before the first instruction, and
   * where its part of the stack begins.
   */
  datatype Frame = Frame(instructions: seq<Code.Byte>, ip: int, basePointer: int)

  /**
   * What the run loop reads and writes: every stack cell (`None` is a cell
   * never written), the stack pointer, the globals and the current frame's
   * instruction pointer.
   */
  datatype State = State(stack: seq<Option<Obj>>, sp: nat, globals: map<nat, Obj>, ip: int)

  /** The stack array has its fixed size and every cell below the stack pointer holds a value. */
  predicate Good(s: State) {
    |s.stack| == STACK_SIZE && s.sp <= STACK_SIZE && forall i :: 0 <= i < s.sp ==> s.stack[i].Some?
  }

  /** How a step ends: in a new state, with an exception, or in a case the model does not decide. */
  datatype Outcome = Next(state: State) | Threw(message: string) | Unmodelled(what: string)

  /** What an operation does once its operands are popped: push a value, throw, or leave the model. */
  datatype Effect = Push(value: Obj) | Throw(message: string) | Undecided(what: string)

  /** `push`. */
  function PushSpec(s: State, o: Obj): (r: Outcome)
    requires Good(s)
    ensures r.Threw? <==> s.sp >= STACK_SIZE
    ensures r.Threw? ==> r.message == "stack overflow"
    ensures r.Next? ==>
              Good(r.state) && r.state.sp == s.sp + 1 && r.state.stack[s.sp] == Some(o)
              && r.state.stack[..s.sp] == s.stack[..s.sp] && r.state.ip == s.ip && r.state.globals == s.globals
    ensures !r.Unmodelled?
  {
    if s.sp >= STACK_SIZE then Threw("stack overflow")
    else Next(s.(stack := s.stack[s.sp := Some(o)], sp := s.sp + 1))
  }

  /** The value `pop` returns. */
  function Top(s: State): Obj
    requires Good(s) && s.sp > 0
  {
    s.stack[s.sp - 1].value
  }

  /** The value below the top. */
  function Second(s: State): Obj
    requires Good(s) && s.sp > 1
  {
    s.stack[s.sp - 2].value
  }

  /** The state after `pop`: only the stack pointer moves, so the popped value stays in its cell. */
  function Dropped(s: State, n: nat): (r: State)
    requires Good(s) && n <= s.sp
    ensures Good(r)
  {
    s.(sp := s.sp - n)
  }

  /** `lastPoppedStackElement`: the cell just above the stack pointer (`undefined` past the array). */
  function LastPopped(s: State): Option<Obj>
    requires Good(s)
  {
    if s.sp < STACK_SIZE then s.stack[s.sp] else None
  }

  /** A pushed value is what the next `pop` returns, and `lastPoppedStackElement` reads it afterwards. */
  lemma PushPopRoundTrip(s: State, o: Obj)
    requires Good(s) && s.sp < STACK_SIZE
    ensures var t := PushSpec(s, o).state;
      Top(t) == o && Dropped(t, 1).sp == s.sp && LastPopped(Dropped(t, 1)) == Some(o)
      && Dropped(t, 1).stack[..s.sp] == s.stack[..s.sp]
  {
  }

  function Apply(s: State, e: Effect): (r: Outcome)
    requires Good(s)
    ensures r.Next? ==> Good(r.state) && r.state.ip == s.ip
  {
    match e
    case Push(v) => PushSpec(s, v)
    case Throw(m) => Threw(m)
    case Undecided(w) => Unmodelled(w)
  }

  /** `Opcodes[op]`: the opcode's name. */
  function OpName(op: Code.Byte): string {
    if op <= Code.OpIndex then Code.OpcodeName(op) else "undefined"
  }

  /** `isTruthy`: a boolean is its own value, NULL is false, everything else true. */
  function IsTruthy(o: Obj): bool {
    if o.BooleanObj? then o.boolValue
    else if o == NULL then false
    else true
  }

  /** `executeBinaryIntegerOperation` and `executeBinaryStringOperation`, by operand types. */
  function BinaryEffect(op: Code.Byte, left: Obj, right: Obj): (r: Effect)
    ensures left.IntegerObj? && right.IntegerObj? && op == Code.OpAdd ==> r == Push(IntegerObj(left.intValue + right.intValue))
    ensures left.IntegerObj? && right.IntegerObj? && op == Code.OpSub ==> r == Push(IntegerObj(left.intValue - right.intValue))
    ensures left.IntegerObj? && right.IntegerObj? && op == Code.OpMul ==> r == Push(IntegerObj(left.intValue * right.intValue))
    ensures left.IntegerObj? && right.IntegerObj? && op == Code.OpDiv && r.Push? ==>
      r.value.IntegerObj? && r.value.intValue * right.intValue == left.intValue
    ensures left.StringObj? && right.StringObj? ==>
      r == if op == Code.OpAdd then Push(StringObj(left.strValue + right.strValue))
           else Throw("unknown string operator: " + OpName(op))
    ensures !(left.IntegerObj? && right.IntegerObj?) && !(left.StringObj? && right.StringObj?) ==>
      r == Throw("Unsupported types for binary operation: " + TypeName(left) + " & " + TypeName(right))
  {
    if left.IntegerObj? && right.IntegerObj? then
      var a, b := left.intValue, right.intValue;
      if op == Code.OpAdd then Push(IntegerObj(a + b))
      else if op == Code.OpSub then Push(IntegerObj(a - b))
      else if op == Code.OpMul then Push(IntegerObj(a * b))
      else if op == Code.OpDiv then
        if b == 0 || a % b != 0 then Undecided("a division whose quotient is not an integer")
        else Push(IntegerObj(a / b))
      else Throw("unknown integer operator: " + OpName(op))
    else if left.StringObj? && right.StringObj? then
      if op != Code.OpAdd then Throw("unknown string operator: " + OpName(op))
      else Push(StringObj(left.strValue + right.strValue))
    else Throw("Unsupported types for binary operation: " + TypeName(left) + " & " + TypeName(right))
  }

  /**
   * `executeComparison`: integers compare by value; any other operands
   * allow only OpEqual and OpNotEqual, which compare identity.
   */
  function ComparisonEffect(op: Code.Byte, left: Obj, right: Obj): (r: Effect)
    ensures left.IntegerObj? && right.IntegerObj? && op == Code.OpGreaterThan ==>
      r == Push(NativeBoolToObj(left.intValue > right.intValue))
    ensures (op == Code.OpEqual || op == Code.OpNotEqual) ==> (r.Undecided? <==> !(left.IntegerObj? && right.IntegerObj?) && Identical(left, right).None?)
    ensures op == Code.OpEqual && !r.Undecided? ==> r == Push(NativeBoolToObj(left == right))
    ensures op == Code.OpNotEqual && !r.Undecided? ==> r == Push(NativeBoolToObj(left != right))
    ensures !(left.IntegerObj? && right.IntegerObj?) && op != Code.OpEqual && op != Code.OpNotEqual ==>
      r == Throw("unknown operator: " + OpName(op) + " for " + TypeName(left) + " and " + TypeName(right))
  {
    if left.IntegerObj? && right.IntegerObj? then
      if op == Code.OpEqual then Push(NativeBoolToObj(left.intValue == right.intValue))
      else if op == Code.OpNotEqual then Push(NativeBoolToObj(left.intValue != right.intValue))
      else if op == Code.OpGreaterThan then Push(NativeBoolToObj(left.intValue > right.intValue))
      else Throw("unknown operator: " + OpName(op))
    else if op == Code.OpEqual then
      match Identical(left, right)
      case Some(same) => Push(NativeBoolToObj(same))
      case None => Undecided("identity of two heap objects")
    else if op == Code.OpNotEqual then
      match Identical(left, right)
      case Some(same) => Push(NativeBoolToObj(!same))
      case None => Undecided("identity of two heap objects")
    else Throw("unknown operator: " + OpName(op) + " for " + TypeName(left) + " and " + TypeName(right))
  }

  /** `executeBangOperator`: TRUE exactly for FALSE and NULL. */
  function BangEffect(operand: Obj): (r: Obj)
    ensures r == NativeBoolToObj(operand == FALSE || operand == NULL)
  {
    if operand == FALSE || operand == NULL then TRUE else FALSE
  }

  /** `executeMinusOperator`. */
  function MinusEffect(operand: Obj): (r: Effect)
    ensures operand.IntegerObj? <==> r.Push?
    ensures r.Push? ==> r.value == IntegerObj(-operand.intValue)
    ensures r.Throw? ==> r.message == "unsupported type for negation: " + TypeName(operand)
  {
    if !operand.IntegerObj? then Throw("unsupported type for negation: " + TypeName(operand))
    else Push(IntegerObj(-operand.intValue))
  }

  /** `executeArrayIndex`: the element, or NULL outside the array. */
  function ArrayIndex(elements: seq<Obj>, i: int): (r: Obj)
    ensures 0 <= i < |elements| ==> r == elements[i]
    ensures !(0 <= i < |elements|) ==> r == NULL
  {
    if i < 0 || i > |elements| - 1 then NULL else elements[i]
  }

  /** `executeHashIndex`: the stored value, NULL for a missing key, an exception for an unhashable one. */
  function HashIndex(pairs: map<HashKey, HashPair>, index: Obj): (r: Effect)
    ensures !Hashable(index) <==> r.Throw?
    ensures r.Throw? ==> r.message == "unusable as hash key: " + TypeName(index)
    ensures Hashable(index) ==> r == Push(if HashKeyOf(index) in pairs then pairs[HashKeyOf(index)].value else NULL)
  {
    if !Hashable(index) then Throw("unusable as hash key: " + TypeName(index))
    else if HashKeyOf(index) !in pairs then Push(NULL)
    else Push(pairs[HashKeyOf(index)].value)
  }

  /** `executeIndexExpression`. */
  function IndexEffect(left: Obj, index: Obj): (r: Effect)
    ensures !r.Undecided?
    ensures !(left.ArrayObj? && index.IntegerObj?) && !left.HashObj? ==>
      r == Throw("index operator not supported for type: " + TypeName(left))
  {
    if left.ArrayObj? && index.IntegerObj? then Push(ArrayIndex(left.elements, index.intValue))
    else if left.HashObj? then HashIndex(left.pairs, index)
    else Throw("index operator not supported for type: " + TypeName(left))
  }

  /** The values of stack cells that all hold one. */
  function Values(cells: seq<Option<Obj>>): (r: seq<Obj>)
    requires forall i :: 0 <= i < |cells| ==> cells[i].Some?
    ensures |r| == |cells| && forall i :: 0 <= i < |cells| ==> Some(r[i]) == cells[i]
  {
    if cells == [] then [] else [cells[0].value] + Values(cells[1..])
  }

  /** Pair k of the values of stack cells: the cells at 2k and 2k + 1. */
  lemma PairAt(cells: seq<Option<Obj>>, count: nat, k: nat)
    requires forall i :: 0 <= i < |cells| ==> cells[i].Some?
    requires |cells| == 2 * count && k < count
    ensures KeyCell(Values(cells), k) == cells[2 * k].value && ValueCell(Values(cells), k) == cells[2 * k + 1].value
  {
    assert Some(Values(cells)[2 * k]) == cells[2 * k];
    assert Some(Values(cells)[2 * k + 1]) == cells[2 * k + 1];
  }

  /** The key cell of pair m: cells alternate keys and values. */
  function KeyCell(cells: seq<Obj>, m: nat): Obj
    requires 2 * m + 1 < |cells|
  {
    cells[2 * m]
  }

  /** The value cell of pair m. */
  function ValueCell(cells: seq<Obj>, m: nat): Obj
    requires 2 * m + 1 < |cells|
  {
    cells[2 * m + 1]
  }

  /**
   * The rest of `buildHash`'s loop from pair k of `count` on: each key cell
   * followed by its value cell, a later key replacing an earlier equal one;
   * an unhashable key throws.
   */
  function HashFrom(cells: seq<Obj>, count: nat, k: nat, pairs: map<HashKey, HashPair>): (r: Result<map<HashKey, HashPair>>)
    requires |cells| == 2 * count && k <= count
    decreases count - k
  {
    if k == count then Ok(pairs)
    else if !Hashable(KeyCell(cells, k)) then Err("invalid type for hash key: " + TypeName(KeyCell(cells, k)))
    else HashFrom(cells, count, k + 1, pairs[HashKeyOf(KeyCell(cells, k)) := HashPair(KeyCell(cells, k), ValueCell(cells, k))])
  }

  /** One pass of `buildHash`'s loop: an unhashable key throws, a hashable one is stored and the loop goes on. */
  lemma HashFromStep(cells: seq<Obj>, count: nat, k: nat, pairs: map<HashKey, HashPair>)
    requires |cells| == 2 * count && k < count
    ensures !Hashable(KeyCell(cells, k)) ==>
              HashFrom(cells, count, k, pairs) == Err("invalid type for hash key: " + TypeName(KeyCell(cells, k)))
    ensures Hashable(KeyCell(cells, k)) ==>
              HashFrom(cells, count, k, pairs)
              == HashFrom(cells, count, k + 1, pairs[HashKeyOf(KeyCell(cells, k)) := HashPair(KeyCell(cells, k), ValueCell(cells, k))])
  {
  }

  /** `executeBinaryOperation`: pops the right operand, then the left, and pushes the result. */
  function BinaryStep(s: State, op: Code.Byte): (r: Outcome)
    requires Good(s)
    ensures r.Next? ==> Good(r.state) && r.state.ip == s.ip
  {
    if s.sp < 2 then Threw(UNDERFLOW) else Apply(Dropped(s, 2), BinaryEffect(op, Second(s), Top(s)))
  }

  /** `executeComparison`, popping as `executeBinaryOperation` does. */
  function ComparisonStep(s: State, op: Code.Byte): (r: Outcome)
    requires Good(s)
    ensures r.Next? ==> Good(r.state) && r.state.ip == s.ip
  {
    if s.sp < 2 then Threw(UNDERFLOW) else Apply(Dropped(s, 2), ComparisonEffect(op, Second(s), Top(s)))
  }

  /** OpIndex: pops the index, then the indexed value, and pushes the element. */
  function IndexStep(s: State): (r: Outcome)
    requires Good(s)
    ensures r.Next? ==> Good(r.state) && r.state.ip == s.ip
  {
    if s.sp < 2 then Threw(UNDERFLOW) else Apply(Dropped(s, 2), IndexEffect(Second(s), Top(s)))
  }

  /** `executeBangOperator` on the popped operand. */
  function BangStep(s: State): (r: Outcome)
    requires Good(s)
    ensures r.Next? ==> Good(r.state) && r.state.ip == s.ip
  {
    if s.sp < 1 then Threw(UNDERFLOW) else PushSpec(Dropped(s, 1), BangEffect(Top(s)))
  }

  /** `executeMinusOperator` on the popped operand. */
  function MinusStep(s: State): (r: Outcome)
    requires Good(s)
    ensures r.Next? ==> Good(r.state) && r.state.ip == s.ip
  {
    if s.sp < 1 then Threw(UNDERFLOW) else Apply(Dropped(s, 1), MinusEffect(Top(s)))
  }

  predicate IsBinary(op: Code.Byte) {
    op == Code.OpAdd || op == Code.OpSub || op == Code.OpMul || op == Code.OpDiv
  }

  predicate IsComparison(op: Code.Byte) {
    op == Code.OpEqual || op == Code.OpNotEqual || op == Code.OpGreaterThan
  }

  /**
   * One pass of the run loop for an opcode without an operand, once the
   * instruction pointer has been advanced onto it.
   */
  function SimpleStep(s: State, op: Code.Byte): (r: Outcome)
    requires Good(s) && !Code.HasOperand(op)
    ensures r.Next? ==> Good(r.state) && r.state.ip == s.ip
  {
    if IsBinary(op) then BinaryStep(s, op)
    else if op == Code.OpTrue then PushSpec(s, TRUE)
    else if op == Code.OpFalse then PushSpec(s, FALSE)
    else if op == Code.OpNull then PushSpec(s, NULL)
    else if IsComparison(op) then ComparisonStep(s, op)
    else if op == Code.OpPop then (if s.sp == 0 then Threw(UNDERFLOW) else Next(Dropped(s, 1)))
    else if op == Code.OpBang then BangStep(s)
    else if op == Code.OpMinus then MinusStep(s)
    else if op == Code.OpIndex then IndexStep(s)
    else Threw("not implemented in VM: " + Text.NatToString(op))
  }

  /**
   * The opcodes with an operand other than OpJump, once the operand has
   * been read and the instruction pointer `s.ip` moved past it.
   */
  function ConstantStep(s: State, operand: nat, constants: seq<Obj>): (r: Outcome)
    requires Good(s)
    ensures r.Next? ==> Good(r.state) && r.state.ip == s.ip
  {
    if operand >= |constants| then Unmodelled("a constant index outside the constant pool")
    else PushSpec(s, constants[operand])
  }

  function JumpNotTruthyStep(s: State, operand: nat): (r: Outcome)
    requires Good(s)
    ensures r.Next? ==> Good(r.state)
  {
    if s.sp == 0 then Threw(UNDERFLOW)
    else if IsTruthy(Top(s)) then Next(Dropped(s, 1))
    else Next(Dropped(s, 1).(ip := operand - 1))
  }

  function SetGlobalStep(s: State, operand: nat): (r: Outcome)
    requires Good(s)
    ensures r.Next? ==> Good(r.state) && r.state.ip == s.ip
  {
    if s.sp == 0 then Threw(UNDERFLOW)
    else Next(Dropped(s, 1).(globals := s.globals[operand := Top(s)]))
  }

  function GetGlobalStep(s: State, operand: nat): (r: Outcome)
    requires Good(s)
    ensures r.Next? ==> Good(r.state) && r.state.ip == s.ip
  {
    if operand !in s.globals then Unmodelled("reading a global that was never set")
    else PushSpec(s, s.globals[operand])
  }

  function ArrayStep(s: State, operand: nat): (r: Outcome)
    requires Good(s)
    ensures r.Next? ==> Good(r.state) && r.state.ip == s.ip
  {
    if operand > s.sp then Unmodelled("more elements than values on the stack")
    else PushSpec(Dropped(s, operand), ArrayObj(Values(s.stack[s.sp - operand..s.sp])))
  }

  function HashStep(s: State, operand: nat): (r: Outcome)
    requires Good(s)
    ensures r.Next? ==> Good(r.state) && r.state.ip == s.ip
  {
    if operand > s.sp || operand % 2 != 0 then Unmodelled("a hash of more or fewer cells than key-value pairs on the stack")
    else match BuiltHash(Values(s.stack[s.sp - operand..s.sp]))
      case Err(m) => Threw(m)
      case Ok(hash) => PushSpec(Dropped(s, operand), hash)
  }

  /** The hash of alternating keys and values; the first unhashable key throws. */
  function BuiltHash(cells: seq<Obj>): (r: Result<Obj>)
    requires |cells| % 2 == 0
    ensures r.Ok? ==> r.value.HashObj?
  {
    match HashFrom(cells, |cells| / 2, 0, map[])
    case Ok(pairs) => Ok(HashObj(pairs))
    case Err(m) => Err(m)
  }

  /**
   * One pass of the run loop for an opcode with a two-byte operand read
   * from `instructions` after position `s.ip`, where the opcode is.
   */
  function OperandStep(s: State, op: Code.Byte, instructions: seq<Code.Byte>, constants: seq<Obj>): (r: Outcome)
    requires Good(s) && Code.HasOperand(op) && 0 <= s.ip < |instructions|
    ensures r.Next? ==> Good(r.state) && r.state.ip >= -1
  {
    match Code.ReadUint16(instructions[s.ip + 1..])
    case Err(m) => Threw(m)
    case Ok(operand) =>
      if op == Code.OpJump then Next(s.(ip := operand - 1))
      else OperandOpStep(s.(ip := s.ip + 2), op, operand, constants)
  }

  /** The opcodes with an operand other than OpJump, once the operand has been read and consumed. */
  function OperandOpStep(s: State, op: Code.Byte, operand: nat, constants: seq<Obj>): (r: Outcome)
    requires Good(s) && s.ip >= -1
    ensures r.Next? ==> Good(r.state) && r.state.ip >= -1
  {
    if op == Code.OpConstant then ConstantStep(s, operand, constants)
    else if op == Code.OpJumpNotTruthy then JumpNotTruthyStep(s, operand)
    else if op == Code.OpSetGlobal then SetGlobalStep(s, operand)
    else if op == Code.OpGetGlobal then GetGlobalStep(s, operand)
    else if op == Code.OpArray then ArrayStep(s, operand)
    else HashStep(s, operand)
  }

  /**
   * One pass of the run loop: advance the instruction pointer onto the
   * next opcode and execute it.
   */
  function Step(s: State, instructions: seq<Code.Byte>, constants: seq<Obj>): (r: Outcome)
    requires Good(s) && -1 <= s.ip < |instructions| - 1
    ensures r.Next? ==> Good(r.state) && r.state.ip >= -1
  {
    var advanced := s.(ip := s.ip + 1);
    var op := instructions[advanced.ip];
    if Code.HasOperand(op) then OperandStep(advanced, op, instructions, constants)
    else SimpleStep(advanced, op)
  }

  /**
   * `run`: steps while the instruction pointer is before the last
   * instruction. A jump can go backwards, so a run need not end: `fuel`
   * bounds the number of steps.
   */
  function RunSpec(s: State, instructions: seq<Code.Byte>, constants: seq<Obj>, fuel: nat): (r: Outcome)
    requires Good(s) && s.ip >= -1
    ensures r.Next? ==> Good(r.state) && r.state.ip >= |instructions| - 1
    decreases fuel, 1
  {
    if s.ip >= |instructions| - 1 then Next(s)
    else if fuel == 0 then Unmodelled("more steps than the fuel")
    else RunOn(Step(s, instructions, constants), instructions, constants, fuel)
  }

  /** The rest of a run after a pass with outcome o, which used one unit of fuel: a new state runs on, any other outcome ends the run. */
  function RunOn(o: Outcome, instructions: seq<Code.Byte>, constants: seq<Obj>, fuel: nat): (r: Outcome)
    requires o.Next? ==> Good(o.state) && o.state.ip >= -1
    requires fuel > 0
    ensures r.Next? ==> Good(r.state) && r.state.ip >= |instructions| - 1
    decreases fuel, 0
  {
    match o
    case Next(t) => RunSpec(t, instructions, constants, fuel - 1)
    case other => other
  }

  /** The loop of `buildHash` over the values of the stack cells it reads: each key and the value after it. */
  method HashOfCells(cells: seq<Obj>) returns (r: Result<Obj>)
    requires |cells| % 2 == 0
    ensures r == BuiltHash(cells)
  {
    ghost var count := |cells| / 2;
    var hashedPairs: map<HashKey, HashPair> := map[];
    var i := 0;
    while i < |cells|
      invariant 0 <= i <= |cells| && i % 2 == 0
      invariant HashFrom(cells, count, 0, map[]) == HashFrom(cells, count, i / 2, hashedPairs)
    {
      var key := cells[i];
      var value := cells[i + 1];
      HashFromStep(cells, count, i / 2, hashedPairs);
      if Hashable(key) {
        hashedPairs := hashedPairs[HashKeyOf(key) := HashPair(key, value)];
      } else {
        return Err("invalid type for hash key: " + TypeName(key));
      }
      i := i + 2;
    }
    r := Ok(HashObj(hashedPairs));
  }

  /** How a method of the machine ends: normally, with an exception, or in a case the model does not decide. */
  datatype Status = Done | Failed(message: string) | Stopped(what: string)

  function StatusOf(o: Outcome): Status {
    match o
    case Next(_) => Done
    case Threw(m) => Failed(m)
    case Unmodelled(w) => Stopped(w)
  }

  class VM {
    const constants: seq<Obj>
    const stack: array<Option<Obj>>
    var stackPointer: nat
    var frames: seq<Frame>
    var frameIndex: nat
    var globals: map<nat, Obj>

    ghost predicate Valid()
      reads this, stack
    {
      stack.Length == STACK_SIZE && stackPointer <= STACK_SIZE
      && (forall i :: 0 <= i < stackPointer ==> stack[i].Some?)
      && frameIndex <= |frames| && (forall k :: 0 <= k < |frames| ==> frames[k].ip >= -1)
    }

    /** The machine state the run loop works on; with no current frame the instruction pointer reads as -1. */
    function Snapshot(): (s: State)
      reads this, stack
      ensures Valid() ==> Good(s) && s.ip >= -1
    {
      State(stack[..], stackPointer, globals, if 0 < frameIndex <= |frames| then frames[frameIndex - 1].ip else -1)
    }

    /** The main frame runs the program's instructions; the stack starts empty. */
    constructor(instructions: seq<Code.Byte>, constants: seq<Obj>, globals: map<nat, Obj>)
      ensures Valid() && fresh(stack)
      ensures Snapshot() == State(seq(STACK_SIZE, _ => None), 0, globals, -1)
      ensures frames == [Frame(instructions, -1, 0)] && frameIndex == 1 && this.constants == constants
    {
      this.constants := constants;
      stack := new Option<Obj>[STACK_SIZE](_ => None);
      stackPointer := 0;
      frames := [Frame(instructions, -1, 0)];
      frameIndex := 1;
      this.globals := globals;
    }

    /** `currentFrame`: `undefined` once every frame has been popped. */
    function CurrentFrame(): (f: Option<Frame>)
      reads this
      ensures f.Some? <==> 0 < frameIndex <= |frames|
      ensures f.Some? ==> f.value == frames[frameIndex - 1]
    {
      if 0 < frameIndex <= |frames| then Some(frames[frameIndex - 1]) else None
    }

    /** `lastPoppedStackElement`: the cell just above the top of the stack. */
    function LastPoppedStackElement(): (o: Option<Obj>)
      reads this, stack
      requires Valid()
      ensures o == LastPopped(Snapshot())
    {
      if stackPointer < STACK_SIZE then stack[stackPointer] else None
    }

    /** `pushFrame`: stores the frame at `frameIndex` and makes it current. */
    method PushFrame(f: Frame)
      requires Valid() && f.ip >= -1
      modifies this
      ensures Valid() && frameIndex == old(frameIndex) + 1 && CurrentFrame() == Some(f)
      ensures frames[..old(frameIndex)] == old(frames)[..old(frameIndex)]
      ensures stackPointer == old(stackPointer) && globals == old(globals)
    {
      if frameIndex < |frames| {
        frames := frames[frameIndex := f];
      } else {
        frames := frames + [f];
      }
      frameIndex := frameIndex + 1;
    }

    /** `popFrame`: the current frame, which stops being current; an exception when there is none. */
    method PopFrame() returns (r: Result<Frame>)
      requires Valid()
      modifies this
      ensures Valid() && frames == old(frames) && stackPointer == old(stackPointer) && globals == old(globals)
      ensures r.Err? <==> old(frameIndex) == 0
      ensures r.Err? ==> r.message == "Frame underflow, popped frame off an empty stack" && frameIndex == 0
      ensures r.Ok? ==> Some(r.value) == old(CurrentFrame()) && frameIndex == old(frameIndex) - 1
    {
      if frameIndex == 0 {
        return Err("Frame underflow, popped frame off an empty stack");
      }
      frameIndex := frameIndex - 1;
      r := Ok(frames[frameIndex]);
    }

    /** `push`. */
    method Push(o: Obj) returns (status: Status)
      requires Valid()
      modifies this, stack
      ensures Valid() && frames == old(frames) && frameIndex == old(frameIndex)
      ensures status == StatusOf(PushSpec(old(Snapshot()), o))
      ensures status.Done? ==> Snapshot() == PushSpec(old(Snapshot()), o).state
      ensures !status.Done? ==> Snapshot() == old(Snapshot())
    {
      if stackPointer >= STACK_SIZE {
        return Failed("stack overflow");
      }
      stack[stackPointer] := Some(o);
      stackPointer := stackPointer + 1;
      status := Done;
    }

    /** `pop`: the top value; the stack pointer moves down and the cell keeps the value. */
    method Pop() returns (r: Result<Obj>)
      requires Valid()
      modifies this
      ensures Valid() && frames == old(frames) && frameIndex == old(frameIndex) && globals == old(globals)
      ensures r.Err? <==> old(stackPointer) == 0
      ensures r.Err? ==> r.message == UNDERFLOW && Snapshot() == old(Snapshot())
      ensures r.Ok? ==> r.value == Top(old(Snapshot())) && Snapshot() == Dropped(old(Snapshot()), 1)
    {
      if stackPointer == 0 {
        return Err(UNDERFLOW);
      }
      stackPointer := stackPointer - 1;
      r := Ok(stack[stackPointer].value);
    }

    /** Pushes the value an operation produced, or ends as it did. */
    method Perform(e: Effect) returns (status: Status)
      requires Valid()
      modifies this, stack
      ensures Valid() && frames == old(frames) && frameIndex == old(frameIndex)
      ensures status == StatusOf(Apply(old(Snapshot()), e))
      ensures status.Done? ==> Snapshot() == Apply(old(Snapshot()), e).state
    {
      match e
      case Push(v) => status := Push(v);
      case Throw(m) => status := Failed(m);
      case Undecided(w) => status := Stopped(w);
    }

    /** Pops the right operand, then the left one. */
    method PopTwo() returns (r: Result<(Obj, Obj)>)
      requires Valid()
      modifies this
      ensures Valid() && frames == old(frames) && frameIndex == old(frameIndex) && globals == old(globals)
      ensures r.Err? <==> old(stackPointer) < 2
      ensures r.Err? ==> r.message == UNDERFLOW
      ensures r.Ok? ==> r.value == (Second(old(Snapshot())), Top(old(Snapshot())))
      ensures r.Ok? ==> Snapshot() == Dropped(old(Snapshot()), 2)
    {
      var right := Pop();
      if right.Err? {
        return Err(right.message);
      }
      var left := Pop();
      if left.Err? {
        return Err(left.message);
      }
      r := Ok((left.value, right.value));
    }

    /** `executeBinaryOperation`. */
    method ExecuteBinaryOperation(op: Code.Byte) returns (status: Status)
      requires Valid()
      modifies this, stack
      ensures Valid() && frames == old(frames) && frameIndex == old(frameIndex)
      ensures status == StatusOf(BinaryStep(old(Snapshot()), op))
      ensures status.Done? ==> Snapshot() == BinaryStep(old(Snapshot()), op).state
    {
      var operands := PopTwo();
      if operands.Err? {
        return Failed(operands.message);
      }
      status := Perform(BinaryEffect(op, operands.value.0, operands.value.1));
    }

    /** `executeComparison`. */
    method ExecuteComparison(op: Code.Byte) returns (status: Status)
      requires Valid()
      modifies this, stack
      ensures Valid() && frames == old(frames) && frameIndex == old(frameIndex)
      ensures status == StatusOf(ComparisonStep(old(Snapshot()), op))
      ensures status.Done? ==> Snapshot() == ComparisonStep(old(Snapshot()), op).state
    {
      var operands := PopTwo();
      if operands.Err? {
        return Failed(operands.message);
      }
      status := Perform(ComparisonEffect(op, operands.value.0, operands.value.1));
    }

    /** The OpIndex case: pops the index, then the indexed value, and runs `executeIndexExpression`. */
    method ExecuteIndexExpression() returns (status: Status)
      requires Valid()
      modifies this, stack
      ensures Valid() && frames == old(frames) && frameIndex == old(frameIndex)
      ensures status == StatusOf(IndexStep(old(Snapshot())))
      ensures status.Done? ==> Snapshot() == IndexStep(old(Snapshot())).state
    {
      var operands := PopTwo();
      if operands.Err? {
        return Failed(operands.message);
      }
      status := Perform(IndexEffect(operands.value.0, operands.value.1));
    }

    /** `executeBangOperator`. */
    method ExecuteBangOperator() returns (status: Status)
      requires Valid()
      modifies this, stack
      ensures Valid() && frames == old(frames) && frameIndex == old(frameIndex)
      ensures status == StatusOf(BangStep(old(Snapshot())))
      ensures status.Done? ==> Snapshot() == BangStep(old(Snapshot())).state
    {
      var operand := Pop();
      if operand.Err? {
        return Failed(operand.message);
      }
      status := Push(BangEffect(operand.value));
    }

    /** `executeMinusOperator`. */
    method ExecuteMinusOperator() returns (status: Status)
      requires Valid()
      modifies this, stack
      ensures Valid() && frames == old(frames) && frameIndex == old(frameIndex)
      ensures status == StatusOf(MinusStep(old(Snapshot())))
      ensures status.Done? ==> Snapshot() == MinusStep(old(Snapshot())).state
    {
      var operand := Pop();
      if operand.Err? {
        return Failed(operand.message);
      }
      status := Perform(MinusEffect(operand.value));
    }

    /** `buildArray`: the values of the cells from start up to end, in stack order. */
    function BuildArray(start: nat, end: nat): (o: Obj)
      reads this, stack
      requires Valid() && start <= end <= stackPointer
      ensures o.ArrayObj? && |o.elements| == end - start
      ensures forall i :: 0 <= i < end - start ==> Some(o.elements[i]) == stack[start + i]
    {
      ArrayObj(Values(stack[start..end]))
    }

    /** `buildHash`: the key-value cells from start up to end as a hash; an unhashable key throws. */
    method BuildHash(start: nat, end: nat) returns (r: Result<Obj>)
      requires Valid() && start <= end <= stackPointer && (end - start) % 2 == 0
      ensures r == BuiltHash(Values(stack[start..end]))
    {
      r := HashOfCells(Values(stack[start..end]));
    }
  
    /** Moves the current frame's instruction pointer; nothing else changes. */
    method SetInstructionPointer(v: int)
      requires Valid() && 0 < frameIndex && v >= -1
      modifies this
      ensures Valid() && frameIndex == old(frameIndex) && stackPointer == old(stackPointer) && globals == old(globals)
      ensures frames == old(frames)[frameIndex - 1 := old(frames[frameIndex - 1]).(ip := v)]
      ensures Snapshot() == old(Snapshot()).(ip := v)
    {
      frames := frames[frameIndex - 1 := frames[frameIndex - 1].(ip := v)];
    }

    /** The cases of `run` for opcodes without an operand. */
    method ExecuteSimple(op: Code.Byte) returns (status: Status)
      requires Valid() && !Code.HasOperand(op)
      modifies this, stack
      ensures Valid() && frames == old(frames) && frameIndex == old(frameIndex)
      ensures status == StatusOf(SimpleStep(old(Snapshot()), op))
      ensures status.Done? ==> Snapshot() == SimpleStep(old(Snapshot()), op).state
    {
      if IsBinary(op) {
        status := ExecuteBinaryOperation(op);
      } else if op == Code.OpTrue {
        status := Push(TRUE);
      } else if op == Code.OpFalse {
        status := Push(FALSE);
      } else if op == Code.OpNull {
        status := Push(NULL);
      } else if IsComparison(op) {
        status := ExecuteComparison(op);
      } else if op == Code.OpPop {
        var popped := Pop();
        status := if popped.Err? then Failed(popped.message) else Done;
      } else if op == Code.OpBang {
        status := ExecuteBangOperator();
      } else if op == Code.OpMinus {
        status := ExecuteMinusOperator();
      } else if op == Code.OpIndex {
        status := ExecuteIndexExpression();
      } else {
        status := Failed("not implemented in VM: " + Text.NatToString(op));
      }
    }

    /** The cases of `run` for opcodes with a two-byte operand; the opcode is at the instruction pointer. */
    method ExecuteWithOperand(op: Code.Byte, instructions: seq<Code.Byte>) returns (status: Status)
      requires Valid() && 0 < frameIndex && Code.HasOperand(op)
      requires instructions == frames[frameIndex - 1].instructions && 0 <= frames[frameIndex - 1].ip < |instructions|
      modifies this, stack
      ensures Valid() && frameIndex == old(frameIndex) && |frames| == |old(frames)|
      ensures frames[frameIndex - 1].instructions == instructions
      ensures status == StatusOf(OperandStep(old(Snapshot()), op, instructions, constants))
      ensures status.Done? ==> Snapshot() == OperandStep(old(Snapshot()), op, instructions, constants).state
    {
      ghost var s := Snapshot();
      var ip := frames[frameIndex - 1].ip;
      assert s.ip == ip;
      var operand := Code.ReadUint16(instructions[ip + 1..]);
      if operand.Err? {
        return Failed(operand.message);
      }
      var p := operand.value;
      if op == Code.OpJump {
        assert OperandStep(s, op, instructions, constants) == Next(s.(ip := p as int - 1));
        SetInstructionPointer(p as int - 1);
        return Done;
      }
      assert OperandStep(s, op, instructions, constants) == OperandOpStep(s.(ip := ip + 2), op, p, constants);
      SetInstructionPointer(ip + 2);
      status := ExecuteOperandOp(op, p);
    }

    /** The cases of `run` for the opcodes with an operand other than OpJump, once the operand is consumed. */
    method ExecuteOperandOp(op: Code.Byte, p: nat) returns (status: Status)
      requires Valid() && 0 < frameIndex
      modifies this, stack
      ensures Valid() && frameIndex == old(frameIndex) && |frames| == |old(frames)|
      ensures frames[frameIndex - 1].instructions == old(frames[frameIndex - 1].instructions)
      ensures status == StatusOf(OperandOpStep(old(Snapshot()), op, p, constants))
      ensures status.Done? ==> Snapshot() == OperandOpStep(old(Snapshot()), op, p, constants).state
    {
      if op == Code.OpConstant {
        status := ExecuteConstant(p);
      } else if op == Code.OpJumpNotTruthy {
        status := ExecuteJumpNotTruthy(p);
      } else if op == Code.OpSetGlobal {
        status := ExecuteSetGlobal(p);
      } else if op == Code.OpGetGlobal {
        status := ExecuteGetGlobal(p);
      } else if op == Code.OpArray {
        status := ExecuteArray(p);
      } else {
        status := ExecuteHash(p);
      }
    }

    /** OpConstant: pushes the constant the operand names. */
    method ExecuteConstant(p: nat) returns (status: Status)
      requires Valid()
      modifies this, stack
      ensures Valid() && frames == old(frames) && frameIndex == old(frameIndex)
      ensures status == StatusOf(ConstantStep(old(Snapshot()), p, constants))
      ensures status.Done? ==> Snapshot() == ConstantStep(old(Snapshot()), p, constants).state
    {
      if p >= |constants| {
        return Stopped("a constant index outside the constant pool");
      }
      status := Push(constants[p]);
    }

    /** OpJumpNotTruthy: pops the condition and jumps when it is not truthy. */
    method ExecuteJumpNotTruthy(p: nat) returns (status: Status)
      requires Valid() && 0 < frameIndex
      modifies this
      ensures Valid() && frameIndex == old(frameIndex) && |frames| == |old(frames)|
      ensures frames[frameIndex - 1].instructions == old(frames[frameIndex - 1].instructions)
      ensures status == StatusOf(JumpNotTruthyStep(old(Snapshot()), p))
      ensures status.Done? ==> Snapshot() == JumpNotTruthyStep(old(Snapshot()), p).state
    {
      var condition := Pop();
      if condition.Err? {
        return Failed(condition.message);
      }
      if !IsTruthy(condition.value) {
        SetInstructionPointer(p - 1);
      }
      status := Done;
    }

    /** OpSetGlobal: pops a value into the global the operand names. */
    method ExecuteSetGlobal(p: nat) returns (status: Status)
      requires Valid()
      modifies this
      ensures Valid() && frames == old(frames) && frameIndex == old(frameIndex)
      ensures status == StatusOf(SetGlobalStep(old(Snapshot()), p))
      ensures status.Done? ==> Snapshot() == SetGlobalStep(old(Snapshot()), p).state
    {
      var value := Pop();
      if value.Err? {
        return Failed(value.message);
      }
      globals := globals[p := value.value];
      status := Done;
    }

    /** OpGetGlobal: pushes the global the operand names. */
    method ExecuteGetGlobal(p: nat) returns (status: Status)
      requires Valid()
      modifies this, stack
      ensures Valid() && frames == old(frames) && frameIndex == old(frameIndex)
      ensures status == StatusOf(GetGlobalStep(old(Snapshot()), p))
      ensures status.Done? ==> Snapshot() == GetGlobalStep(old(Snapshot()), p).state
    {
      if p !in globals {
        return Stopped("reading a global that was never set");
      }
      status := Push(globals[p]);
    }

    /** OpArray: replaces the top `p` values by one array of them. */
    method ExecuteArray(p: nat) returns (status: Status)
      requires Valid()
      modifies this, stack
      ensures Valid() && frames == old(frames) && frameIndex == old(frameIndex)
      ensures status == StatusOf(ArrayStep(old(Snapshot()), p))
      ensures status.Done? ==> Snapshot() == ArrayStep(old(Snapshot()), p).state
    {
      if p > stackPointer {
        return Stopped("more elements than values on the stack");
      }
      var arr := BuildArray(stackPointer - p, stackPointer);
      stackPointer := stackPointer - p;
      status := Push(arr);
    }

    /** OpHash: replaces the top `p` values, keys and values alternating, by one hash of them. */
    method ExecuteHash(p: nat) returns (status: Status)
      requires Valid()
      modifies this, stack
      ensures Valid() && frames == old(frames) && frameIndex == old(frameIndex)
      ensures status == StatusOf(HashStep(old(Snapshot()), p))
      ensures status.Done? ==> Snapshot() == HashStep(old(Snapshot()), p).state
    {
      if p > stackPointer || p % 2 != 0 {
        return Stopped("a hash of more or fewer cells than key-value pairs on the stack");
      }
      ghost var before := Snapshot();
      assert before.stack[before.sp - p..before.sp] == stack[stackPointer - p..stackPointer];
      var hash := BuildHash(stackPointer - p, stackPointer);
      if hash.Err? {
        return Failed(hash.message);
      }
      stackPointer := stackPointer - p;
      assert Snapshot() == Dropped(before, p);
      status := Push(hash.value);
    }

    /** One pass of the `run` loop: advance onto the next opcode of the current frame and execute it. */
    method Execute() returns (status: Status)
      requires Valid() && 0 < frameIndex
      requires -1 <= frames[frameIndex - 1].ip < |frames[frameIndex - 1].instructions| - 1
      modifies this, stack
      ensures Valid() && frameIndex == old(frameIndex) && |frames| == |old(frames)|
      ensures frames[frameIndex - 1].instructions == old(frames[frameIndex - 1].instructions)
      ensures status == StatusOf(Step(old(Snapshot()), old(frames[frameIndex - 1].instructions), constants))
      ensures status.Done? ==> Snapshot() == Step(old(Snapshot()), old(frames[frameIndex - 1].instructions), constants).state
    {
      var instructions := frames[frameIndex - 1].instructions;
      SetInstructionPointer(frames[frameIndex - 1].ip + 1);
      var op := instructions[frames[frameIndex - 1].ip];
      if Code.HasOperand(op) {
        status := ExecuteWithOperand(op, instructions);
      } else {
        status := ExecuteSimple(op);
      }
    }

    /**
     * `run`: executes the current frame's instructions until its
     * instruction pointer reaches the last one. `fuel` bounds the number
     * of passes, since bytecode can jump backwards.
     */
    method Run(fuel: nat) returns (status: Status)
      requires Valid()
      modifies this, stack
      ensures Valid() && frameIndex == old(frameIndex)
      ensures old(frameIndex) == 0 ==> status == Stopped("no current frame")
      ensures old(frameIndex) > 0 ==>
          status == StatusOf(RunSpec(old(Snapshot()), old(frames[frameIndex - 1].instructions), constants, fuel))
      ensures old(frameIndex) > 0 && status.Done? ==>
          Snapshot() == RunSpec(old(Snapshot()), old(frames[frameIndex - 1].instructions), constants, fuel).state
    {
      if frameIndex == 0 {
        return Stopped("no current frame");
      }
      ghost var instructions := frames[frameIndex - 1].instructions;
      ghost var final := RunSpec(Snapshot(), instructions, constants, fuel);
      var steps := fuel;
      while frames[frameIndex - 1].ip < |frames[frameIndex - 1].instructions| - 1
        invariant Valid() && 0 < frameIndex == old(frameIndex)
        invariant frames[frameIndex - 1].instructions == instructions
        invariant RunSpec(Snapshot(), instructions, constants, steps) == final
        decreases steps
      {
        status := Pass(instructions, steps);
        if !status.Done? {
          return;
        }
        steps := steps - 1;
      }
      assert final == Next(Snapshot());
      status := Done;
    }

    /** One pass of the run loop with fuel for `steps` passes: the run from here is this pass, then the rest with one pass less. */
    method Pass(ghost instructions: seq<Code.Byte>, steps: nat) returns (status: Status)
      requires Valid() && 0 < frameIndex && frames[frameIndex - 1].instructions == instructions
      requires -1 <= frames[frameIndex - 1].ip < |instructions| - 1
      modifies this, stack
      ensures Valid() && frameIndex == old(frameIndex) && frames[frameIndex - 1].instructions == instructions
      ensures !status.Done? ==> status == StatusOf(RunSpec(old(Snapshot()), instructions, constants, steps))
      ensures status.Done? ==> steps > 0
      ensures status.Done? ==>
        RunSpec(old(Snapshot()), instructions, constants, steps) == RunSpec(Snapshot(), instructions, constants, steps - 1)
    {
      if steps == 0 {
        return Stopped("more steps than the fuel");
      }
      ghost var before := Snapshot();
      status := Execute();
      if status.Done? {
        RunSteps(before, instructions, constants, steps, Snapshot());
      } else {
        RunStops(before, instructions, constants, steps);
      }
    }
  }

  /** The state after pushing each of `vs` in order. */
  function PushedAll(s: State, vs: seq<Obj>): (r: State)
    requires Good(s) && s.sp + |vs| <= STACK_SIZE
    ensures Good(r) && r.sp == s.sp + |vs| && r.ip == s.ip && r.globals == s.globals
    ensures r.stack[..s.sp] == s.stack[..s.sp]
    ensures forall k :: 0 <= k < |vs| ==> r.stack[s.sp + k] == Some(vs[k])
    decreases |vs|
  {
    if vs == [] then s
    else
      var t := PushSpec(s, vs[0]).state;
      var r := PushedAll(t, vs[1..]);
      assert r.stack[..s.sp] == r.stack[..t.sp][..s.sp];
      r
  }

  /** OpArray n after n pushes: the n values become one array, in the order they were pushed. */
  lemma ArrayKeepsPushOrder(s: State, vs: seq<Obj>)
    requires Good(s) && s.sp + |vs| < STACK_SIZE
    ensures var r := ArrayStep(PushedAll(s, vs), |vs|);
      r.Next? && r.state.sp == s.sp + 1 && Top(r.state) == ArrayObj(vs)
      && r.state.stack[..s.sp] == s.stack[..s.sp]
  {
    var t := PushedAll(s, vs);
    PushedValues(s, vs);
    var d := Dropped(t, |vs|);
    assert d.stack[..s.sp] == s.stack[..s.sp];
    assert ArrayStep(t, |vs|) == PushSpec(d, ArrayObj(vs));
  }

  /** The top |vs| cells after pushing vs hold vs, in push order. */
  lemma PushedValues(s: State, vs: seq<Obj>)
    requires Good(s) && s.sp + |vs| <= STACK_SIZE
    ensures var t := PushedAll(s, vs);
      (forall i :: t.sp - |vs| <= i < t.sp ==> t.stack[i].Some?)
      && Values(t.stack[t.sp - |vs|..t.sp]) == vs
  {
    var t := PushedAll(s, vs);
    var cells := t.stack[s.sp..t.sp];
    assert forall k :: 0 <= k < |vs| ==> cells[k] == t.stack[s.sp + k];
    ValuesOfFilled(cells, vs);
  }

  /** Cells that hold exactly the values vs read back as vs. */
  lemma ValuesOfFilled(cells: seq<Option<Obj>>, vs: seq<Obj>)
    requires |cells| == |vs| && forall k :: 0 <= k < |cells| ==> cells[k] == Some(vs[k])
    ensures (forall k :: 0 <= k < |cells| ==> cells[k].Some?) && Values(cells) == vs
  {
    var w := Values(cells);
    assert forall k :: 0 <= k < |vs| ==> w[k] == vs[k];
  }

  /** OpHash throws exactly when some key cell holds an unhashable value. */
  lemma {:induction false} HashThrowsOnUnhashableKey(cells: seq<Obj>, count: nat, k: nat, pairs: map<HashKey, HashPair>)
    requires |cells| == 2 * count && k <= count
    ensures HashFrom(cells, count, k, pairs).Err? <==> exists m :: k <= m < count && !Hashable(KeyCell(cells, m))
    decreases count - k
  {
    if k < count && Hashable(KeyCell(cells, k)) {
      HashThrowsOnUnhashableKey(cells, count, k + 1, pairs[HashKeyOf(KeyCell(cells, k)) := HashPair(KeyCell(cells, k), ValueCell(cells, k))]);
    }
  }

  /** Pair m's key cell holds a hashable value whose key is `key`. */
  ghost predicate KeyAt(cells: seq<Obj>, m: int, key: HashKey) {
    0 <= m && 2 * m + 1 < |cells| && Hashable(KeyCell(cells, m)) && HashKeyOf(KeyCell(cells, m)) == key
  }

  /** Some pair from k on has key `key`. */
  ghost predicate KeyFrom(cells: seq<Obj>, k: int, key: HashKey) {
    exists m :: k <= m && KeyAt(cells, m, key)
  }

  /** A key no pair from k on names keeps what it had before the loop reached pair k. */
  lemma {:induction false} HashKeepsUnnamedKey(cells: seq<Obj>, count: nat, k: nat, pairs: map<HashKey, HashPair>, key: HashKey)
    requires |cells| == 2 * count && k <= count
    requires HashFrom(cells, count, k, pairs).Ok? && !KeyFrom(cells, k, key)
    ensures key in HashFrom(cells, count, k, pairs).value <==> key in pairs
    ensures key in pairs ==> HashFrom(cells, count, k, pairs).value[key] == pairs[key]
    decreases count - k
  {
    if k < count {
      var here := HashKeyOf(KeyCell(cells, k));
      assert KeyAt(cells, k, here);
      HashKeepsUnnamedKey(cells, count, k + 1, pairs[here := HashPair(KeyCell(cells, k), ValueCell(cells, k))], key);
    }
  }

  /**
   * The hash holds each pair unless a later pair has the same key: a later
   * key replaces an earlier equal one.
   */
  lemma {:induction false} HashLastPairWins(cells: seq<Obj>, count: nat, k: nat, pairs: map<HashKey, HashPair>, m: nat)
    requires |cells| == 2 * count && k <= m < count
    requires HashFrom(cells, count, k, pairs).Ok? && Hashable(KeyCell(cells, m))
    requires !KeyFrom(cells, m + 1, HashKeyOf(KeyCell(cells, m)))
    ensures HashKeyOf(KeyCell(cells, m)) in HashFrom(cells, count, k, pairs).value
    ensures HashFrom(cells, count, k, pairs).value[HashKeyOf(KeyCell(cells, m))] == HashPair(KeyCell(cells, m), ValueCell(cells, m))
    decreases count - k
  {
    var extended := pairs[HashKeyOf(KeyCell(cells, k)) := HashPair(KeyCell(cells, k), ValueCell(cells, k))];
    if m == k {
      HashKeepsUnnamedKey(cells, count, k + 1, extended, HashKeyOf(KeyCell(cells, m)));
    } else {
      HashLastPairWins(cells, count, k + 1, extended, m);
    }
  }

  /** OpJump: the next pass executes the opcode at the operand's offset. */
  lemma JumpLandsOnTarget(s: State, instructions: seq<Code.Byte>, constants: seq<Obj>, target: nat)
    requires Good(s) && -1 <= s.ip && s.ip + 3 < |instructions|
    requires instructions[s.ip + 1] == Code.OpJump && Code.ReadUint16(instructions[s.ip + 2..]) == Ok(target)
    ensures Step(s, instructions, constants) == Next(s.(ip := target - 1))
    ensures Step(s, instructions, constants).state.ip + 1 == target
  {
  }

  /**
   * OpJumpNotTruthy always consumes its operand and pops the condition,
   * and jumps to the operand's offset only when the condition is falsy.
   */
  lemma JumpNotTruthyPopsAndBranches(s: State, instructions: seq<Code.Byte>, constants: seq<Obj>, target: nat)
    requires Good(s) && -1 <= s.ip && s.ip + 3 < |instructions|
    requires instructions[s.ip + 1] == Code.OpJumpNotTruthy && Code.ReadUint16(instructions[s.ip + 2..]) == Ok(target)
    ensures s.sp == 0 ==> Step(s, instructions, constants) == Threw(UNDERFLOW)
    ensures s.sp > 0 ==> Step(s, instructions, constants).Next?
    ensures s.sp > 0 ==>
      var t := Step(s, instructions, constants).state;
      t.sp == s.sp - 1 && t.stack == s.stack && t.globals == s.globals
      && t.ip + 1 == if IsTruthy(Top(s)) then s.ip + 4 else target
  {
    OperandPass(s, instructions, constants, Code.OpJumpNotTruthy, target);
    assert Step(s, instructions, constants) == JumpNotTruthyStep(s.(ip := s.ip + 3), target);
  }

  /** A pass over an opcode with an operand, other than OpJump, consumes the operand and runs that opcode's step. */
  lemma OperandPass(s: State, instructions: seq<Code.Byte>, constants: seq<Obj>, op: Code.Byte, operand: nat)
    requires Good(s) && -1 <= s.ip && s.ip + 3 < |instructions|
    requires Code.HasOperand(op) && op != Code.OpJump
    requires instructions[s.ip + 1] == op && Code.ReadUint16(instructions[s.ip + 2..]) == Ok(operand)
    ensures Step(s, instructions, constants) == OperandOpStep(s.(ip := s.ip + 3), op, operand, constants)
  {
  }

  /** A run that ends with some fuel ends the same way with more. */
  lemma {:induction false} RunMoreFuel(s: State, instructions: seq<Code.Byte>, constants: seq<Obj>, fuel: nat, more: nat)
    requires Good(s) && s.ip >= -1 && fuel <= more
    requires !RunSpec(s, instructions, constants, fuel).Unmodelled?
    ensures RunSpec(s, instructions, constants, more) == RunSpec(s, instructions, constants, fuel)
    decreases fuel
  {
    if s.ip < |instructions| - 1 && fuel > 0 {
      var o := Step(s, instructions, constants);
      if o.Next? {
        RunSteps(s, instructions, constants, fuel, o.state);
        RunSteps(s, instructions, constants, more, o.state);
        RunMoreFuel(o.state, instructions, constants, fuel - 1, more - 1);
      } else {
        RunStops(s, instructions, constants, fuel);
        RunStops(s, instructions, constants, more);
      }
    }
  }

  /** OpConstant: the next pass pushes the constant the operand indexes and moves past the operand. */
  lemma ConstantPushes(s: State, instructions: seq<Code.Byte>, constants: seq<Obj>, k: nat)
    requires Good(s) && -1 <= s.ip && s.ip + 3 < |instructions|
    requires instructions[s.ip + 1] == Code.OpConstant && Code.ReadUint16(instructions[s.ip + 2..]) == Ok(k)
    requires k < |constants|
    ensures Step(s, instructions, constants) == PushSpec(s.(ip := s.ip + 3), constants[k])
  {
    OperandPass(s, instructions, constants, Code.OpConstant, k);
  }

  /** A pass that does not end in a new state ends the run with its outcome. */
  lemma RunStops(s: State, instructions: seq<Code.Byte>, constants: seq<Obj>, fuel: nat)
    requires Good(s) && -1 <= s.ip < |instructions| - 1 && fuel > 0
    requires !Step(s, instructions, constants).Next?
    ensures RunSpec(s, instructions, constants, fuel) == Step(s, instructions, constants)
  {
  }

  /** A pass that ends in a new state leaves the rest of the run to that state, with one step less fuel. */
  lemma RunSteps(s: State, instructions: seq<Code.Byte>, constants: seq<Obj>, fuel: nat, t: State)
    requires Good(s) && -1 <= s.ip < |instructions| - 1 && fuel > 0
    requires Step(s, instructions, constants) == Next(t)
    ensures RunSpec(s, instructions, constants, fuel) == RunSpec(t, instructions, constants, fuel - 1)
  {
  }

  /**
   * `1 + 2` as the compiler emits it: two constants, OpAdd and OpPop,
   * leave the stack as it was and 3 as the last popped value.
   */
  lemma OnePlusTwo(s: State, instructions: seq<Code.Byte>, constants: seq<Obj>)
    requires Good(s) && s.ip == -1 && s.sp + 2 <= STACK_SIZE
    requires instructions == [Code.OpConstant, 0, 0, Code.OpConstant, 0, 1, Code.OpAdd, Code.OpPop]
    requires constants == [IntegerObj(1), IntegerObj(2)]
    ensures var r := RunSpec(s, instructions, constants, 4);
      r.Next? && r.state.sp == s.sp && LastPopped(r.state) == Some(IntegerObj(3))
  {
    assert instructions[1..][..2] == [0, 0];
    ConstantPushes(s, instructions, constants, 0);
    var s1 := PushSpec(s.(ip := 2), IntegerObj(1)).state;
    RunSteps(s, instructions, constants, 4, s1);
    assert instructions[4..][..2] == [0, 1];
    ConstantPushes(s1, instructions, constants, 1);
    var s2 := PushSpec(s1.(ip := 5), IntegerObj(2)).state;
    RunSteps(s1, instructions, constants, 3, s2);
    assert Second(s2) == IntegerObj(1) && Top(s2) == IntegerObj(2);
    var s3 := PushSpec(Dropped(s2.(ip := 6), 2), IntegerObj(3)).state;
    assert Step(s2, instructions, constants) == Next(s3);
    RunSteps(s2, instructions, constants, 2, s3);
    var s4 := Dropped(s3.(ip := 7), 1);
    assert Step(s3, instructions, constants) == Next(s4);
    RunSteps(s3, instructions, constants, 1, s4);
  }
}

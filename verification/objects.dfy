/**
 * The runtime values of the evaluator and the virtual machine. A value
 * the source allocates on the JavaScript heap is a datatype value here;
 * a function value refers to the environment it closes over by its index
 * in the environment heap (see `Environments`).
 */
module Objects {
  import opened Wrappers
  import Ast
  import Code

  /** What `hashKey()` distinguishes: the type of a hashable value and the value itself. */
  datatype HashKey = IntegerKey(i: int) | BooleanKey(b: bool) | StringKey(s: string)

  datatype Obj =
    | IntegerObj(intValue: int)
    | BooleanObj(boolValue: bool)
    | NullObj
    | StringObj(strValue: string)
    | ReturnObj(returned: Obj)
    | ErrorObj(message: string)
    | FunctionObj(parameters: seq<Ast.Expression>, body: Ast.Block, env: nat)
    | BuiltinFuncObj(name: string)
    | ArrayObj(elements: seq<Obj>)
    | HashObj(pairs: map<HashKey, HashPair>)
    | CompiledFunctionObj(instructions: seq<Code.Byte>, numLocals: nat, numParameters: nat)

  /** A key as it was written and the value stored under it. */
  datatype HashPair = HashPair(key: Obj, value: Obj)

  /** The shared `TRUE`, `FALSE` and `NULL` instances. */
  const TRUE: Obj := BooleanObj(true)
  const FALSE: Obj := BooleanObj(false)
  const NULL: Obj := NullObj

  /** `convertExpressionToBooleanObj` / `nativeBoolToObj`: one of the shared booleans. */
  function NativeBoolToObj(b: bool): (o: Obj)
    ensures o.BooleanObj? && o.boolValue == b
  {
    if b then TRUE else FALSE
  }

  /** The type name a value reports in error messages. */
  function TypeName(o: Obj): string {
    match o
    case IntegerObj(_) => "INTEGER"
    case BooleanObj(_) => "BOOLEAN"
    case NullObj => "NULL"
    case StringObj(_) => "STRING"
    case ReturnObj(_) => "RETURN_VALUE"
    case ErrorObj(_) => "ERROR"
    case FunctionObj(_, _, _) => "FUNCTION"
    case BuiltinFuncObj(_) => "BUILTIN"
    case ArrayObj(_) => "ARRAY"
    case HashObj(_) => "HASH"
    case CompiledFunctionObj(_, _, _) => "COMPILED_FUNCTION"
  }

  /** Every kind of value has a name of its own. */
  lemma TypeNameIdentifiesKind(a: Obj, b: Obj)
    ensures TypeName(a) == TypeName(b) <==>
      (a.IntegerObj? && b.IntegerObj?) || (a.BooleanObj? && b.BooleanObj?) || (a.NullObj? && b.NullObj?)
      || (a.StringObj? && b.StringObj?) || (a.ReturnObj? && b.ReturnObj?) || (a.ErrorObj? && b.ErrorObj?)
      || (a.FunctionObj? && b.FunctionObj?) || (a.BuiltinFuncObj? && b.BuiltinFuncObj?)
      || (a.ArrayObj? && b.ArrayObj?) || (a.HashObj? && b.HashObj?)
      || (a.CompiledFunctionObj? && b.CompiledFunctionObj?)
  {
  }

  /** `isError`. */
  predicate IsError(o: Obj) {
    o.ErrorObj?
  }

  /**
   * `left === right` on two values that are not both integers. Booleans
   * and null are the shared instances, so identity is equality of their
   * values; values of different kinds are never identical; two values of
   * another kind are distinct allocations or one object reached twice, which
   * the model does not track, so the answer is unknown.
   */
  function Identical(left: Obj, right: Obj): (r: Option<bool>)
    ensures r.None? <==> TypeName(left) == TypeName(right) && !left.BooleanObj? && !left.NullObj?
    ensures r.Some? ==> r.value == (left == right)
    ensures (left.BooleanObj? || left.NullObj?) && (right.BooleanObj? || right.NullObj?) ==>
      r == Some(left == right)
  {
    TypeNameIdentifiesKind(left, right);
    if left.BooleanObj? && right.BooleanObj? then Some(left.boolValue == right.boolValue)
    else if left.NullObj? && right.NullObj? then Some(true)
    else if TypeName(left) == TypeName(right) then None
    else Some(false)
  }

  /** `objIsHashable`: integers, booleans and strings. */
  predicate Hashable(o: Obj) {
    o.IntegerObj? || o.BooleanObj? || o.StringObj?
  }

  /** `hashKey()`. */
  function HashKeyOf(o: Obj): HashKey
    requires Hashable(o)
  {
    match o
    case IntegerObj(i) => IntegerKey(i)
    case BooleanObj(b) => BooleanKey(b)
    case StringObj(s) => StringKey(s)
  }

  /** Two hashable values share a key exactly when they are equal. */
  lemma HashKeyInjective(a: Obj, b: Obj)
    requires Hashable(a) && Hashable(b)
    ensures HashKeyOf(a) == HashKeyOf(b) <==> a == b
  {
  }
}

/**
 * The tree-walking evaluator of src/evaluator.ts. Evaluation threads the
 * environment heap: `let` and function calls change it, everything else
 * only reads it. An evaluation ends normally with a value, with a thrown
 * JavaScript exception, or in a case the model does not decide (see
 * `Completion`). `fuel` bounds how deeply function calls nest; running
 * out of it stands for the JavaScript call stack overflowing.
 */
module Evaluation {
  import opened Wrappers
  import opened Ast
  import opened Objects
  import Env = Environments
  import Tokens
  import Text

  type Heap = Env.Heap<Obj>

  /**
   * How an evaluation ends: with a value; with an exception thrown by the
   * evaluator; or in a case this model does not decide (a division whose
   * quotient is not an integer, identity of two heap objects, call nesting
   * deeper than the fuel).
   */
  datatype Completion<T> = Normal(value: T) | Thrown(message: string) | Unmodelled(what: string)

  /** An abrupt completion passed on unchanged to a caller expecting another kind of value. */
  function Rethrow<T, U>(c: Completion<T>): (r: Completion<U>)
    requires !c.Normal?
    ensures !r.Normal? && (r.Thrown? <==> c.Thrown?)
  {
    match c
    case Thrown(m) => Thrown(m)
    case Unmodelled(w) => Unmodelled(w)
  }

  /** e refers to an environment of a well-formed heap. */
  ghost predicate Within(h: Heap, e: nat) {
    Env.ValidHeap(h) && e < |h|
  }

  /** A completion that ends the enclosing expression: an abrupt end or an error value. */
  predicate Stops(c: Completion<Obj>) {
    !c.Normal? || IsError(c.value)
  }

  // ---------------------------------------------------------------------
  // Operators
  // ---------------------------------------------------------------------

  /** `evalBangOperatorExpression`. */
  function EvalBang(right: Obj): Obj {
    if right == TRUE then FALSE
    else if right == FALSE then TRUE
    else if right == NULL then TRUE
    else FALSE
  }

  /** `isTruthy`. */
  function IsTruthy(o: Obj): bool {
    if o == NULL then false
    else if o == TRUE then true
    else if o == FALSE then false
    else true
  }

  /** `!` negates truthiness and answers with a shared boolean. */
  lemma BangNegatesTruthiness(o: Obj)
    ensures EvalBang(o) == NativeBoolToObj(!IsTruthy(o))
    ensures EvalBang(EvalBang(o)) == NativeBoolToObj(IsTruthy(o))
  {
  }

  /** Only NULL and FALSE are falsy. */
  lemma FalsyExactly(o: Obj)
    ensures !IsTruthy(o) <==> o == NULL || o == FALSE
  {
  }

  /** `evalMinusPrefixOperatorExpression`. */
  function EvalMinus(right: Obj): (r: Obj)
    ensures right.IntegerObj? ==> r == IntegerObj(-right.intValue)
    ensures !right.IntegerObj? ==> r == ErrorObj("unknown operator: -" + TypeName(right))
  {
    if !right.IntegerObj? then ErrorObj("unknown operator: -" + TypeName(right))
    else IntegerObj(-right.intValue)
  }

  /** Negating an integer twice gives it back. */
  lemma MinusInvolutive(v: int)
    ensures EvalMinus(EvalMinus(IntegerObj(v))) == IntegerObj(v)
  {
  }

  /** `evalPrefixExpression`. */
  function EvalPrefix(operator: string, right: Obj): (r: Obj)
    ensures operator == "!" ==> r.BooleanObj? && r.boolValue == !IsTruthy(right)
    ensures operator == "-" ==> r == EvalMinus(right)
    ensures operator != "!" && operator != "-" ==> r == ErrorObj("unknown operator: " + operator + TypeName(right))
  {
    BangNegatesTruthiness(right);
    if operator == "!" then EvalBang(right)
    else if operator == "-" then EvalMinus(right)
    else ErrorObj("unknown operator: " + operator + TypeName(right))
  }

  predicate IsArithmetic(operator: string) {
    operator == "+" || operator == "-" || operator == "*" || operator == "/"
  }

  predicate IsComparison(operator: string) {
    operator == "<" || operator == ">" || operator == "==" || operator == "!="
  }

  /**
   * `evalIntegerInfixExpression`: arithmetic gives an integer, a comparison
   * one of the shared booleans, anything else an "unknown operator" error.
   * JavaScript divides in floating point: only an exact quotient is
   * modelled.
   */
  function EvalIntegerInfix(a: int, operator: string, b: int): (r: Completion<Obj>)
    ensures r.Unmodelled? <==> operator == "/" && (b == 0 || a % b != 0)
    ensures r.Normal? && IsArithmetic(operator) ==> r.value.IntegerObj?
    ensures operator == "+" ==> r == Normal(IntegerObj(a + b))
    ensures operator == "-" ==> r == Normal(IntegerObj(a - b))
    ensures operator == "*" ==> r == Normal(IntegerObj(a * b))
    ensures r.Normal? && operator == "/" ==> r.value.intValue * b == a
    ensures IsComparison(operator) ==> r.Normal? && r.value.BooleanObj?
    ensures operator == "<" ==> r.value.boolValue == (a < b)
    ensures operator == ">" ==> r.value.boolValue == (a > b)
    ensures operator == "==" ==> r.value.boolValue == (a == b)
    ensures operator == "!=" ==> r.value.boolValue == (a != b)
    ensures !IsArithmetic(operator) && !IsComparison(operator) ==>
      r == Normal(ErrorObj("unknown operator: INTEGER " + operator + " INTEGER"))
  {
    if operator == "+" then Normal(IntegerObj(a + b))
    else if operator == "-" then Normal(IntegerObj(a - b))
    else if operator == "*" then Normal(IntegerObj(a * b))
    else if operator == "/" then
      if b == 0 || a % b != 0 then Unmodelled("a division whose quotient is not an integer")
      else Normal(IntegerObj(a / b))
    else if operator == "<" then Normal(NativeBoolToObj(a < b))
    else if operator == ">" then Normal(NativeBoolToObj(a > b))
    else if operator == "==" then Normal(NativeBoolToObj(a == b))
    else if operator == "!=" then Normal(NativeBoolToObj(a != b))
    else Normal(ErrorObj("unknown operator: INTEGER " + operator + " INTEGER"))
  }

  /**
   * `evalInfixExpression`: two integers go to the integer operators; any
   * other pair only supports `==` and `!=`, which compare identity; every
   * other operator is an error that says whether the types differ.
   */
  function EvalInfix(left: Obj, operator: string, right: Obj): (r: Completion<Obj>)
    ensures left.IntegerObj? && right.IntegerObj? ==> r == EvalIntegerInfix(left.intValue, operator, right.intValue)
    ensures !(left.IntegerObj? && right.IntegerObj?) && (operator == "==" || operator == "!=") ==>
      (r.Unmodelled? <==> Identical(left, right).None?)
    ensures !(left.IntegerObj? && right.IntegerObj?) && operator == "==" && r.Normal? ==>
      r.value == NativeBoolToObj(left == right)
    ensures !(left.IntegerObj? && right.IntegerObj?) && operator == "!=" && r.Normal? ==>
      r.value == NativeBoolToObj(left != right)
    ensures !(left.IntegerObj? && right.IntegerObj?) && operator != "==" && operator != "!=" ==>
      r == Normal(ErrorObj(
        (if TypeName(left) != TypeName(right) then "type mismatch: " else "unknown operator: ")
        + TypeName(left) + " " + operator + " " + TypeName(right)))
  {
    if left.IntegerObj? && right.IntegerObj? then EvalIntegerInfix(left.intValue, operator, right.intValue)
    else if operator == "==" then
      match Identical(left, right)
      case Some(same) => Normal(NativeBoolToObj(same))
      case None => Unmodelled("identity of two heap objects")
    else if operator == "!=" then
      match Identical(left, right)
      case Some(same) => Normal(NativeBoolToObj(!same))
      case None => Unmodelled("identity of two heap objects")
    else if TypeName(left) != TypeName(right) then
      Normal(ErrorObj("type mismatch: " + TypeName(left) + " " + operator + " " + TypeName(right)))
    else
      Normal(ErrorObj("unknown operator: " + TypeName(left) + " " + operator + " " + TypeName(right)))
  }

  /** `evalIdentifier`: the binding, or an error naming the identifier. */
  function EvalIdentifier(name: string, e: nat, h: Heap): Obj
    requires Within(h, e)
  {
    match Env.Get(h, e, name)
    case None => ErrorObj("identifier not found: " + name)
    case Some(v) => v
  }

  /** `unwrapReturnValue`. */
  function UnwrapReturnValue(o: Obj): (r: Obj)
    ensures !r.ReturnObj? || o.ReturnObj?
  {
    if o.ReturnObj? then o.returned else o
  }

  // ---------------------------------------------------------------------
  // Evaluation
  // ---------------------------------------------------------------------

  /** `evaluate` of a child that may be `undefined`: an absent node evaluates to NULL. */
  function EvalOptional(x: Option<Expression>, e: nat, h: Heap, fuel: nat): (r: (Completion<Obj>, Heap))
    requires Within(h, e)
    ensures Env.ValidHeap(r.1) && |h| <= |r.1|
    decreases fuel, 1, x
  {
    match x
    case None => (Normal(NULL), h)
    case Some(node) => EvalNode(node, e, h, fuel)
  }

  /** `evaluate` of an expression node. String, array, index and hash nodes fall through to NULL. */
  function EvalNode(node: Expression, e: nat, h: Heap, fuel: nat): (r: (Completion<Obj>, Heap))
    requires Within(h, e)
    ensures Env.ValidHeap(r.1) && |h| <= |r.1|
    decreases fuel, 1, node
  {
    match node
    case Identifier(_, name) => (Normal(EvalIdentifier(name, e, h)), h)
    case IntegerLiteral(_, v) => (Normal(IntegerObj(v)), h)
    case BoolExpression(_, b) => (Normal(NativeBoolToObj(b)), h)
    case PrefixExpression(_, operator, right) =>
      var (rc, h1) := EvalOptional(right, e, h, fuel);
      if Stops(rc) then (rc, h1) else (Normal(EvalPrefix(operator, rc.value)), h1)
    case InfixExpression(_, left, operator, right) =>
      var (lc, h1) := EvalOptional(left, e, h, fuel);
      if Stops(lc) then (lc, h1)
      else
        var (rc, h2) := EvalOptional(right, e, h1, fuel);
        if Stops(rc) then (rc, h2) else (EvalInfix(lc.value, operator, rc.value), h2)
    case IfExpression(_, condition, consequence, alternative) =>
      var (cc, h1) := EvalOptional(condition, e, h, fuel);
      if Stops(cc) then (cc, h1)
      else if IsTruthy(cc.value) then BlockFrom(consequence.statements, NULL, e, h1, fuel)
      else if alternative.Some? then BlockFrom(alternative.value.statements, NULL, e, h1, fuel)
      else (Normal(NULL), h1)
    case FunctionLiteral(_, parameters, body) => (Normal(FunctionObj(parameters, body, e)), h)
    case CallExpression(_, func, args) =>
      var (fc, h1) := EvalNode(func, e, h, fuel);
      if Stops(fc) then (fc, h1)
      else
        var (ac, h2) := ExpressionsFrom(args, [], e, h1, fuel);
        if !ac.Normal? then (Rethrow(ac), h2)
        else if |ac.value| > 0 && IsError(ac.value[0]) then (Normal(ac.value[0]), h2)
        else ApplyFunction(fc.value, ac.value, h2, fuel)
    case StringLiteral(_, _) => (Normal(NULL), h)
    case ArrayLiteral(_, _) => (Normal(NULL), h)
    case IndexExpression(_, _, _) => (Normal(NULL), h)
    case HashLiteral(_, _) => (Normal(NULL), h)
  }

  /** `evaluate` of a statement. */
  function EvalStatement(s: Statement, e: nat, h: Heap, fuel: nat): (r: (Completion<Obj>, Heap))
    requires Within(h, e)
    ensures Env.ValidHeap(r.1) && |h| <= |r.1|
    decreases fuel, 1, s
  {
    match s
    case LetStatement(_, name, value) =>
      var (c, h1) := EvalOptional(value, e, h, fuel);
      if Stops(c) then (c, h1)
      else if !name.Identifier? then (Unmodelled("a let whose name is not an identifier"), h1)
      else (Normal(NULL), Env.Set(h1, e, name.value, Some(c.value)).0)
    case ReturnStatement(_, returnValue) =>
      var (c, h1) := EvalOptional(returnValue, e, h, fuel);
      if Stops(c) then (c, h1) else (Normal(ReturnObj(c.value)), h1)
    case ExpressionStatement(_, expression) => EvalOptional(expression, e, h, fuel)
  }

  /** The rest of `evalBlockStatement`'s loop: stops at a return value or an error and keeps it wrapped. */
  function BlockFrom(statements: seq<Statement>, result: Obj, e: nat, h: Heap, fuel: nat): (r: (Completion<Obj>, Heap))
    requires Within(h, e)
    ensures Env.ValidHeap(r.1) && |h| <= |r.1|
    decreases fuel, 1, statements
  {
    if statements == [] then (Normal(result), h)
    else
      var (c, h1) := EvalStatement(statements[0], e, h, fuel);
      if !c.Normal? || c.value.ReturnObj? || c.value.ErrorObj? then (c, h1)
      else BlockFrom(statements[1..], c.value, e, h1, fuel)
  }

  /** The rest of `evalExpressions`' loop: the values in order, or just the first error. */
  function ExpressionsFrom(exps: seq<Expression>, done: seq<Obj>, e: nat, h: Heap, fuel: nat): (r: (Completion<seq<Obj>>, Heap))
    requires Within(h, e)
    ensures Env.ValidHeap(r.1) && |h| <= |r.1|
    decreases fuel, 1, exps
  {
    if exps == [] then (Normal(done), h)
    else
      var (c, h1) := EvalNode(exps[0], e, h, fuel);
      if !c.Normal? then (Rethrow(c), h1)
      else if IsError(c.value) then (Normal([c.value]), h1)
      else ExpressionsFrom(exps[1..], done + [c.value], e, h1, fuel)
  }

  predicate AllIdentifiers(parameters: seq<Expression>) {
    forall i :: 0 <= i < |parameters| ==> parameters[i].Identifier?
  }

  /**
   * `applyFunction`: runs the body in a new environment that extends the
   * function's own, and unwraps a returned value. Applying anything but a
   * function throws.
   */
  function ApplyFunction(func: Obj, args: seq<Obj>, h: Heap, fuel: nat): (r: (Completion<Obj>, Heap))
    requires Env.ValidHeap(h)
    ensures Env.ValidHeap(r.1) && |h| <= |r.1|
    ensures !func.FunctionObj? ==> r == (Thrown("not a function: " + TypeName(func)), h)
    decreases fuel, 0
  {
    if !func.FunctionObj? then (Thrown("not a function: " + TypeName(func)), h)
    else if fuel == 0 then (Unmodelled("calls nested deeper than the fuel"), h)
    else if func.env >= |h| then (Unmodelled("a function value from another heap"), h)
    else if !AllIdentifiers(func.parameters) then (Unmodelled("a parameter that is not an identifier"), h)
    else
      var (h1, e1) := ExtendedEnv(func, args, h);
      var (c, h2) := BlockFrom(func.body.statements, NULL, e1, h1, fuel - 1);
      (if c.Normal? then Normal(UnwrapReturnValue(c.value)) else c, h2)
  }

  /** The environment `extendFunctionEnv` builds: a new one extending the function's, with its parameters bound. */
  function ExtendedEnv(func: Obj, args: seq<Obj>, h: Heap): (r: (Heap, nat))
    requires func.FunctionObj? && Env.ValidHeap(h) && func.env < |h| && AllIdentifiers(func.parameters)
    ensures Within(r.0, r.1) && r.1 == |h| && |r.0| == |h| + 1 && r.0[..|h|] == h
    ensures r.0[r.1].outer == Some(func.env)
  {
    var (h1, e1) := Env.Alloc(h, Some(func.env));
    (BindParameters(func.parameters, args, 0, e1, h1), e1)
  }

  /** `forEach` over the parameters from index i on: parameter k is bound to `args[k]`, or to `undefined` past the arguments. */
  function BindParameters(parameters: seq<Expression>, args: seq<Obj>, i: nat, e: nat, h: Heap): (r: Heap)
    requires i <= |parameters| && AllIdentifiers(parameters) && Within(h, e)
    ensures Within(r, e) && |r| == |h| && r[..e] == h[..e] && r[e].outer == h[e].outer
    ensures forall j :: e < j < |h| ==> r[j] == h[j]
    decreases |parameters| - i
  {
    if i == |parameters| then h
    else
      var val := if i < |args| then Some(args[i]) else None;
      BindParameters(parameters, args, i + 1, e, Env.Set(h, e, parameters[i].value, val).0)
  }

  /** `evalProgram` of statements, after the loop has produced `result`: a return value is unwrapped here. */
  function ProgramFrom(statements: seq<Statement>, result: Obj, e: nat, h: Heap, fuel: nat): (r: (Completion<Obj>, Heap))
    requires Within(h, e)
    ensures Env.ValidHeap(r.1) && |h| <= |r.1|
  {
    if statements == [] then (Normal(result), h)
    else
      var (c, h1) := EvalStatement(statements[0], e, h, fuel);
      if !c.Normal? then (c, h1)
      else if c.value.ReturnObj? then (Normal(c.value.returned), h1)
      else if c.value.ErrorObj? then (c, h1)
      else ProgramFrom(statements[1..], c.value, e, h1, fuel)
  }

  // ---------------------------------------------------------------------
  // The loops of the source, proved against the functions above
  // ---------------------------------------------------------------------

  /** `evalProgram`. */
  method EvalProgram(program: Program, e: nat, h: Heap, fuel: nat) returns (c: Completion<Obj>, h': Heap)
    requires Within(h, e)
    ensures (c, h') == ProgramFrom(program.statements, NULL, e, h, fuel)
  {
    var result := NULL;
    h' := h;
    var i := 0;
    while i < |program.statements|
      invariant 0 <= i <= |program.statements| && Within(h', e)
      invariant ProgramFrom(program.statements, NULL, e, h, fuel)
        == ProgramFrom(program.statements[i..], result, e, h', fuel)
    {
      assert program.statements[i..][1..] == program.statements[i + 1..];
      var (r, h1) := EvalStatement(program.statements[i], e, h', fuel);
      h' := h1;
      if !r.Normal? {
        return r, h';
      }
      if r.value.ReturnObj? {
        return Normal(r.value.returned), h';
      }
      if r.value.ErrorObj? {
        return r, h';
      }
      result := r.value;
      i := i + 1;
    }
    c := Normal(result);
  }

  /** `evalBlockStatement`. */
  method EvalBlockStatement(block: Block, e: nat, h: Heap, fuel: nat) returns (c: Completion<Obj>, h': Heap)
    requires Within(h, e)
    ensures (c, h') == BlockFrom(block.statements, NULL, e, h, fuel)
  {
    var result := NULL;
    h' := h;
    var i := 0;
    while i < |block.statements|
      invariant 0 <= i <= |block.statements| && Within(h', e)
      invariant BlockFrom(block.statements, NULL, e, h, fuel) == BlockFrom(block.statements[i..], result, e, h', fuel)
    {
      assert block.statements[i..][1..] == block.statements[i + 1..];
      var (r, h1) := EvalStatement(block.statements[i], e, h', fuel);
      h' := h1;
      if !r.Normal? || r.value.ReturnObj? || r.value.ErrorObj? {
        return r, h';
      }
      result := r.value;
      i := i + 1;
    }
    c := Normal(result);
  }

  /** `evalExpressions`. */
  method EvalExpressions(exps: seq<Expression>, e: nat, h: Heap, fuel: nat) returns (c: Completion<seq<Obj>>, h': Heap)
    requires Within(h, e)
    ensures (c, h') == ExpressionsFrom(exps, [], e, h, fuel)
  {
    var result: seq<Obj> := [];
    h' := h;
    var i := 0;
    while i < |exps|
      invariant 0 <= i <= |exps| && Within(h', e)
      invariant ExpressionsFrom(exps, [], e, h, fuel) == ExpressionsFrom(exps[i..], result, e, h', fuel)
    {
      assert exps[i..][1..] == exps[i + 1..];
      var (evaluated, h1) := EvalNode(exps[i], e, h', fuel);
      h' := h1;
      if !evaluated.Normal? {
        return Rethrow(evaluated), h';
      }
      if IsError(evaluated.value) {
        return Normal([evaluated.value]), h';
      }
      result := result + [evaluated.value];
      i := i + 1;
    }
    c := Normal(result);
  }

  /** `extendFunctionEnv`. */
  method ExtendFunctionEnv(func: Obj, args: seq<Obj>, h: Heap) returns (h': Heap, env: nat)
    requires func.FunctionObj? && Env.ValidHeap(h) && func.env < |h| && AllIdentifiers(func.parameters)
    ensures (h', env) == ExtendedEnv(func, args, h)
  {
    var created := Env.Alloc(h, Some(func.env));
    h', env := created.0, created.1;
    var i := 0;
    while i < |func.parameters|
      invariant 0 <= i <= |func.parameters| && Within(h', env)
      invariant ExtendedEnv(func, args, h).0 == BindParameters(func.parameters, args, i, env, h')
    {
      var val := if i < |args| then Some(args[i]) else None;
      var (h1, _) := Env.Set(h', env, func.parameters[i].value, val);
      h' := h1;
      i := i + 1;
    }
  }

  // ---------------------------------------------------------------------
  // Properties
  // ---------------------------------------------------------------------

  /**
   * A block stops at the first return value or error: statements after
   * the one that produced it are never evaluated.
   */
  lemma {:induction false} BlockStopsAtReturnOrError(statements: seq<Statement>, rest: seq<Statement>, result: Obj, e: nat, h: Heap, fuel: nat)
    requires Within(h, e) && statements != [] && !result.ReturnObj? && !result.ErrorObj?
    requires var c := BlockFrom(statements, result, e, h, fuel).0; !c.Normal? || c.value.ReturnObj? || c.value.ErrorObj?
    ensures BlockFrom(statements + rest, result, e, h, fuel) == BlockFrom(statements, result, e, h, fuel)
  {
    assert (statements + rest)[0] == statements[0];
    assert (statements + rest)[1..] == statements[1..] + rest;
    var (c, h1) := EvalStatement(statements[0], e, h, fuel);
    if c.Normal? && !c.value.ReturnObj? && !c.value.ErrorObj? {
      BlockStopsAtReturnOrError(statements[1..], rest, c.value, e, h1, fuel);
    }
  }

  /**
   * A program stops at the first error (or exception): statements after
   * the one that produced it are never evaluated.
   */
  lemma {:induction false} ProgramStopsAtError(statements: seq<Statement>, rest: seq<Statement>, result: Obj, e: nat, h: Heap, fuel: nat)
    requires Within(h, e) && statements != [] && !result.ErrorObj?
    requires var c := ProgramFrom(statements, result, e, h, fuel).0; !c.Normal? || c.value.ErrorObj?
    ensures ProgramFrom(statements + rest, result, e, h, fuel) == ProgramFrom(statements, result, e, h, fuel)
  {
    assert (statements + rest)[0] == statements[0];
    assert (statements + rest)[1..] == statements[1..] + rest;
    var (c, h1) := EvalStatement(statements[0], e, h, fuel);
    if c.Normal? && !c.value.ReturnObj? && !c.value.ErrorObj? {
      ProgramStopsAtError(statements[1..], rest, c.value, e, h1, fuel);
    }
  }

  /**
   * `evalExpressions` yields either every value, in order and none of them
   * an error, or exactly one value: the first error.
   */
  lemma {:induction false} ExpressionsAllOrFirstError(exps: seq<Expression>, done: seq<Obj>, e: nat, h: Heap, fuel: nat)
    requires Within(h, e) && forall i :: 0 <= i < |done| ==> !IsError(done[i])
    ensures var c := ExpressionsFrom(exps, done, e, h, fuel).0;
      c.Normal? ==>
        (|c.value| == 1 && IsError(c.value[0]))
        || (|c.value| == |done| + |exps| && c.value[..|done|] == done
            && forall i :: 0 <= i < |c.value| ==> !IsError(c.value[i]))
    decreases exps
  {
    if exps != [] {
      var (c, h1) := EvalNode(exps[0], e, h, fuel);
      if c.Normal? && !IsError(c.value) {
        ExpressionsAllOrFirstError(exps[1..], done + [c.value], e, h1, fuel);
        var r := ExpressionsFrom(exps[1..], done + [c.value], e, h1, fuel).0;
        if r.Normal? && |r.value| == |done| + 1 + |exps[1..]| {
          assert r.value[..|done|] == (r.value[..|done| + 1])[..|done|];
        }
      }
    }
  }

  /** After `let name = x;` the identifier `name` evaluates to the value of x, and the statement itself to NULL. */
  lemma LetThenIdentifier(tok: Tokens.Token, nameTok: Tokens.Token, name: string, x: Option<Expression>, e: nat, h: Heap, fuel: nat)
    requires Within(h, e)
    requires !Stops(EvalOptional(x, e, h, fuel).0)
    ensures var (c, h') := EvalStatement(LetStatement(tok, Identifier(nameTok, name), x), e, h, fuel);
      c == Normal(NULL)
      && EvalNode(Identifier(nameTok, name), e, h', fuel) == (EvalOptional(x, e, h, fuel).0, h')
  {
    var (v, h1) := EvalOptional(x, e, h, fuel);
    Env.SetThenGet(h1, e, name, v.value);
  }

  /** An identifier that no environment along the chain binds to a value evaluates to an "identifier not found" error. */
  lemma UnboundIdentifier(tok: Tokens.Token, name: string, e: nat, h: Heap, fuel: nat)
    requires Within(h, e)
    requires forall j: nat :: j <= e && Env.Encloses(h, j, e) && name in h[j].store ==> h[j].store[name].None?
    ensures EvalNode(Identifier(tok, name), e, h, fuel) == (Normal(ErrorObj("identifier not found: " + name)), h)
  {
    Env.GetSearchesChain(h, e, name);
  }

  /** `if` whose condition is falsy and that has no alternative evaluates to NULL. */
  lemma IfFalsyWithoutElse(tok: Tokens.Token, condition: Option<Expression>, consequence: Block, e: nat, h: Heap, fuel: nat)
    requires Within(h, e)
    requires var c := EvalOptional(condition, e, h, fuel).0; c.Normal? && (c.value == NULL || c.value == FALSE)
    ensures EvalNode(IfExpression(tok, condition, consequence, None), e, h, fuel)
      == (Normal(NULL), EvalOptional(condition, e, h, fuel).1)
  {
  }

  /** The parameter loop leaves every name that is not a parameter from index i on as it was. */
  lemma {:induction false} BindParametersKeepsOthers(parameters: seq<Expression>, args: seq<Obj>, i: nat, e: nat, h: Heap, name: string)
    requires i <= |parameters| && AllIdentifiers(parameters) && Within(h, e)
    requires forall j :: i <= j < |parameters| ==> parameters[j].value != name
    ensures var r := BindParameters(parameters, args, i, e, h);
      (name in r[e].store <==> name in h[e].store) && (name in h[e].store ==> r[e].store[name] == h[e].store[name])
    decreases |parameters| - i
  {
    if i < |parameters| {
      var val := if i < |args| then Some(args[i]) else None;
      BindParametersKeepsOthers(parameters, args, i + 1, e, Env.Set(h, e, parameters[i].value, val).0, name);
    }
  }

  /** Parameter k, when no later parameter has its name, is bound to argument k, or to `undefined` past the arguments. */
  lemma {:induction false} BindParametersBinds(parameters: seq<Expression>, args: seq<Obj>, i: nat, e: nat, h: Heap, k: nat)
    requires i <= k < |parameters| && AllIdentifiers(parameters) && Within(h, e)
    requires forall j :: k < j < |parameters| ==> parameters[j].value != parameters[k].value
    ensures var r := BindParameters(parameters, args, i, e, h);
      parameters[k].value in r[e].store
      && r[e].store[parameters[k].value] == (if k < |args| then Some(args[k]) else None)
    decreases |parameters| - i
  {
    var val := if i < |args| then Some(args[i]) else None;
    var h1 := Env.Set(h, e, parameters[i].value, val).0;
    if i == k {
      BindParametersKeepsOthers(parameters, args, i + 1, e, h1, parameters[k].value);
    } else {
      BindParametersBinds(parameters, args, i + 1, e, h1, k);
    }
  }

  /**
   * In the environment of a call, a parameter reads as its argument; a
   * parameter the call gave no argument for is stored as `undefined`, so
   * it reads as whatever its name is bound to where the function was
   * created.
   */
  lemma ParameterReadsArgument(func: Obj, args: seq<Obj>, h: Heap, k: nat)
    requires func.FunctionObj? && Env.ValidHeap(h) && func.env < |h| && AllIdentifiers(func.parameters)
    requires k < |func.parameters|
    requires forall j :: k < j < |func.parameters| ==> func.parameters[j].value != func.parameters[k].value
    ensures var (h', e') := ExtendedEnv(func, args, h);
      Env.Get(h', e', func.parameters[k].value)
      == if k < |args| then Some(args[k]) else Env.Get(h, func.env, func.parameters[k].value)
  {
    var (h0, e0) := Env.Alloc(h, Some(func.env));
    BindParametersBinds(func.parameters, args, 0, e0, h0, k);
    ReadInCallEnv(h, ExtendedEnv(func, args, h).0, func.env, func.parameters[k].value, if k < |args| then Some(args[k]) else None);
  }

  /** In an environment allocated after h, a name bound to a value reads as that value and one bound to `undefined` as what the enclosing environment gives. */
  lemma ReadInCallEnv(h: Heap, h': Heap, outer: nat, name: string, val: Option<Obj>)
    requires Env.ValidHeap(h) && Env.ValidHeap(h') && outer < |h| < |h'| && h'[..|h|] == h
    requires h'[|h|].outer == Some(outer) && name in h'[|h|].store && h'[|h|].store[name] == val
    ensures Env.Get(h', |h|, name) == if val.Some? then val else Env.Get(h, outer, name)
  {
    if val.None? {
      Env.GetFallsBack(h', |h|, name);
      Env.ExtensionKeepsGet(h, h', outer, name);
    }
  }

  // ---------------------------------------------------------------------
  // Programs from the evaluator's tests
  // ---------------------------------------------------------------------

  function Int(v: int): Expression {
    IntegerLiteral(Tokens.Token(Tokens.INT, Text.IntToString(v)), v)
  }

  function Name(n: string): Expression {
    Identifier(Tokens.Token(Tokens.IDENT, n), n)
  }

  function Statement(x: Expression): Statement {
    ExpressionStatement(Tokens.Token(Tokens.IDENT, ""), Some(x))
  }

  function Return(x: Expression): Statement {
    ReturnStatement(Tokens.Token(Tokens.RETURN, "return"), Some(x))
  }

  function Braces(statements: seq<Statement>): Block {
    BlockStatement(Tokens.Token(Tokens.LBRACE, "{"), statements)
  }

  function If(condition: Expression, consequence: seq<Statement>): Expression {
    IfExpression(Tokens.Token(Tokens.IF, "if"), Some(condition), Braces(consequence), None)
  }

  function Infix(left: Expression, operator: string, right: Expression): Expression {
    InfixExpression(Tokens.Token(Tokens.IDENT, operator), Some(left), operator, Some(right))
  }

  /**
   * `if (10 > 1) { if (10 > 1) { return 10; } return 1; }` evaluates to
   * 10: the inner return value stays wrapped through both blocks and is
   * unwrapped by the program.
   */
  lemma NestedReturn(e: nat, h: Heap, fuel: nat)
    requires Within(h, e)
    ensures ProgramFrom([Statement(If(Infix(Int(10), ">", Int(1)), [Statement(If(Infix(Int(10), ">", Int(1)), [Return(Int(10))])), Return(Int(1))]))], NULL, e, h, fuel)
      == (Normal(IntegerObj(10)), h)
  {
    var condition := Infix(Int(10), ">", Int(1));
    assert EvalOptional(Some(Int(10)), e, h, fuel) == (Normal(IntegerObj(10)), h);
    assert EvalOptional(Some(Int(1)), e, h, fuel) == (Normal(IntegerObj(1)), h);
    assert EvalInfix(IntegerObj(10), ">", IntegerObj(1)) == Normal(TRUE);
    assert EvalNode(condition, e, h, fuel) == (Normal(TRUE), h);
    assert EvalOptional(Some(condition), e, h, fuel) == (Normal(TRUE), h);
    var inner := If(condition, [Return(Int(10))]);
    assert EvalStatement(Return(Int(10)), e, h, fuel) == (Normal(ReturnObj(IntegerObj(10))), h);
    assert BlockFrom([Return(Int(10))], NULL, e, h, fuel) == (Normal(ReturnObj(IntegerObj(10))), h);
    assert EvalNode(inner, e, h, fuel) == (Normal(ReturnObj(IntegerObj(10))), h);
    assert EvalStatement(Statement(inner), e, h, fuel) == (Normal(ReturnObj(IntegerObj(10))), h);
    var outer := [Statement(inner), Return(Int(1))];
    assert BlockFrom(outer, NULL, e, h, fuel) == (Normal(ReturnObj(IntegerObj(10))), h);
    assert EvalNode(If(condition, outer), e, h, fuel) == (Normal(ReturnObj(IntegerObj(10))), h);
    assert EvalStatement(Statement(If(condition, outer)), e, h, fuel) == (Normal(ReturnObj(IntegerObj(10))), h);
  }

  /** `5; true + false; 5` ends with the error of its second statement. */
  lemma ErrorStopsProgram(e: nat, h: Heap, fuel: nat)
    requires Within(h, e)
    ensures ProgramFrom([Statement(Int(5)), Statement(Infix(BoolExpression(Tokens.Token(Tokens.TRUE, "true"), true), "+",
                         BoolExpression(Tokens.Token(Tokens.FALSE, "false"), false))), Statement(Int(5))], NULL, e, h, fuel).0
      == Normal(ErrorObj("unknown operator: BOOLEAN + BOOLEAN"))
  {
    var t := BoolExpression(Tokens.Token(Tokens.TRUE, "true"), true);
    var f := BoolExpression(Tokens.Token(Tokens.FALSE, "false"), false);
    var sum := Infix(t, "+", f);
    var error := ErrorObj("unknown operator: BOOLEAN + BOOLEAN");
    assert EvalOptional(Some(t), e, h, fuel) == (Normal(TRUE), h);
    assert EvalOptional(Some(f), e, h, fuel) == (Normal(FALSE), h);
    assert "unknown operator: " + "BOOLEAN" + " " + "+" + " " + "BOOLEAN" == error.message;
    assert EvalInfix(TRUE, "+", FALSE) == Normal(error);
    assert EvalNode(sum, e, h, fuel) == (Normal(error), h);
    assert EvalStatement(Statement(sum), e, h, fuel) == (Normal(error), h);
    assert ProgramFrom([Statement(sum), Statement(Int(5))], IntegerObj(5), e, h, fuel).0 == Normal(error);
    assert EvalOptional(Some(Int(5)), e, h, fuel) == (Normal(IntegerObj(5)), h);
    assert EvalStatement(Statement(Int(5)), e, h, fuel) == (Normal(IntegerObj(5)), h);
  }

  /** The function literal `fn(x) { return x; }`. */
  function IdentityLiteral(): Expression {
    FunctionLiteral(Tokens.Token(Tokens.FUNCTION, "fn"), [Name("x")], Braces([Return(Name("x"))]))
  }

  /** The value of `fn(x) { return x; }` created in environment env. */
  function IdentityFunction(env: nat): Obj {
    FunctionObj([Name("x")], Braces([Return(Name("x"))]), env)
  }

  /** `fn(x) { return x; }` called with one argument returns that argument, whatever it is. */
  lemma IdentityReturnsArgument(v: Obj, env: nat, h: Heap, fuel: nat)
    requires Env.ValidHeap(h) && env < |h| && fuel >= 1
    ensures ApplyFunction(IdentityFunction(env), [v], h, fuel).0 == Normal(v)
  {
    var f := IdentityFunction(env);
    var (h2, e1) := ExtendedEnv(f, [v], h);
    ParameterReadsArgument(f, [v], h, 0);
    assert Env.Get(h2, e1, "x") == Some(v);
    assert EvalOptional(Some(Name("x")), e1, h2, fuel - 1) == (Normal(v), h2);
    assert EvalStatement(Return(Name("x")), e1, h2, fuel - 1).0 == if IsError(v) then Normal(v) else Normal(ReturnObj(v));
  }

  /** `identity(5)` where `identity` is bound to that function gives 5. */
  lemma CallIdentity(e: nat, h: Heap, fuel: nat, env: nat)
    requires Within(h, e) && fuel >= 1 && env < |h|
    requires Env.Get(h, e, "identity") == Some(IdentityFunction(env))
    ensures EvalStatement(Statement(CallExpression(Tokens.Token(Tokens.LPAREN, "("), Name("identity"), [Int(5)])), e, h, fuel).0
      == Normal(IntegerObj(5))
  {
    var f := IdentityFunction(env);
    assert EvalNode(Name("identity"), e, h, fuel) == (Normal(f), h);
    assert EvalNode(Int(5), e, h, fuel) == (Normal(IntegerObj(5)), h);
    assert [Int(5)][1..] == [] && [Int(5)][0] == Int(5);
    var none: seq<Expression> := [];
    var five: seq<Obj> := [IntegerObj(5)];
    assert ExpressionsFrom(none, five, e, h, fuel) == (Normal(five), h);
    assert [] + five == five;
    assert ExpressionsFrom([Int(5)], [], e, h, fuel) == (Normal(five), h);
    IdentityReturnsArgument(IntegerObj(5), env, h, fuel);
    var call := CallExpression(Tokens.Token(Tokens.LPAREN, "("), Name("identity"), [Int(5)]);
    assert EvalNode(call, e, h, fuel).0 == Normal(IntegerObj(5));
    assert EvalOptional(Some(call), e, h, fuel).0 == Normal(IntegerObj(5));
  }

  /** `let identity = fn(x) { return x; };` binds `identity` to a function value closing over the current environment. */
  lemma LetIdentity(e: nat, h: Heap, fuel: nat)
    requires Within(h, e)
    ensures EvalStatement(LetStatement(Tokens.Token(Tokens.LET, "let"), Name("identity"), Some(IdentityLiteral())), e, h, fuel)
      == (Normal(NULL), Env.Set(h, e, "identity", Some(IdentityFunction(e))).0)
  {
    assert EvalOptional(Some(IdentityLiteral()), e, h, fuel) == (Normal(IdentityFunction(e)), h);
  }

  /** `let identity = fn(x) { return x; }; identity(5);` evaluates to 5. */
  lemma IdentityCall(e: nat, h: Heap, fuel: nat)
    requires Within(h, e) && fuel >= 1
    ensures ProgramFrom([LetStatement(Tokens.Token(Tokens.LET, "let"), Name("identity"), Some(IdentityLiteral())),
                         Statement(CallExpression(Tokens.Token(Tokens.LPAREN, "("), Name("identity"), [Int(5)]))],
                        NULL, e, h, fuel).0
      == Normal(IntegerObj(5))
  {
    var let := LetStatement(Tokens.Token(Tokens.LET, "let"), Name("identity"), Some(IdentityLiteral()));
    var call := Statement(CallExpression(Tokens.Token(Tokens.LPAREN, "("), Name("identity"), [Int(5)]));
    LetIdentity(e, h, fuel);
    var h1 := Env.Set(h, e, "identity", Some(IdentityFunction(e))).0;
    Env.SetThenGet(h, e, "identity", IdentityFunction(e));
    CallIdentity(e, h1, fuel, e);
    var after := EvalStatement(call, e, h1, fuel).1;
    assert ProgramFrom([], IntegerObj(5), e, after, fuel).0 == Normal(IntegerObj(5));
    assert ProgramFrom([call], NULL, e, h1, fuel).0 == Normal(IntegerObj(5));
  }
}

/** The tree-walking evaluator of eval/eval.go. Environments are frames of a store that is
    threaded through evaluation; a Go panic is a `Crash` with its cause, and since a call
    may not terminate, every function call spends one unit of fuel (`OutOfFuel` when none
    is left). */
module Eval {
  import opened Wrappers
  import opened Ast
  import opened Object
  import opened Env
  import Int64
  import Helpers

  /** The result of evaluating a node: the object and the store after it, or a panic, or
      no answer within the fuel given. */
  datatype Out<T> = Done(val: T, store: Store) | Crash(fault: Fault) | OutOfFuel

  /** The shared TRUE, FALSE and NULL objects. */
  const True: Obj := Some(Boolean(true))
  const False: Obj := Some(Boolean(false))
  const Nil: Obj := Some(Null)

  /** `newError`. */
  function NewError(message: string): Obj {
    Some(Error(message))
  }

  /** The object for a Go boolean: one of the two singletons. */
  function NativeBool(b: bool): (r: Obj)
    ensures r == True || r == False
  {
    if b then True else False
  }

  /** Frames are only ever added: every frame of `st` is still in `st2`. */
  predicate Grows(st: Store, st2: Store) {
    st.frames.Keys <= st2.frames.Keys && st.next <= st2.next
  }

  // ---------------------------------------------------------------------------------------
  // Operators

  /** `evalPrefixExpression`: `!` and `-` have handlers; any other operator is an Error that
      names the operand's type. */
  function EvalPrefixOp(op: string, operand: Obj): (r: Result<Obj, Fault>)
    ensures op == "!" ==> r == Success(EvalBang(operand))
    ensures op == "-" ==> r == EvalMinus(operand)
    ensures op != "!" && op != "-" ==>
              (r.Failure? <==> operand.None?) && (r.Success? ==> IsError(r.value))
  {
    if op == "!" then Success(EvalBang(operand))
    else if op == "-" then EvalMinus(operand)
    else if operand.None? then Failure(NilDereference)
    else Success(NewError("Unknown operator " + op + " for type " + TypeOf(operand.value)))
  }

  /** `evalBangOperatorExpression`: TRUE exactly for FALSE, and FALSE for everything else. */
  function EvalBang(operand: Obj): (r: Obj)
    ensures r == True <==> operand == False
    ensures r == True || r == False
  {
    if operand == True then False
    else if operand == False then True
    else if operand == Nil then False
    else False
  }

  /** `evalMinusPrefixOperatorExpression`: int64 negation of an Integer, an Error for any
      other type. */
  function EvalMinus(operand: Obj): (r: Result<Obj, Fault>)
    ensures r.Failure? <==> operand.None?
    ensures r.Failure? ==> r.error == NilDereference
    ensures operand.Some? && operand.value.Integer? ==>
              r.Success? && r.value.Some? && r.value.value.Integer? &&
              Int64.Add(operand.value.n, r.value.value.n) == 0
    ensures operand.Some? && !operand.value.Integer? ==> r.Success? && IsError(r.value)
  {
    if operand.None? then Failure(NilDereference)
    else if TypeOf(operand.value) != IntegerTag then
      Success(NewError("Unknown operator - for type " + TypeOf(operand.value)))
    else Success(Some(Integer(Int64.Neg(operand.value.n))))
  }

  /** `evalInfixExpression`. The cases are tried in the source's order, and a nil operand
      panics as soon as its `Type()` is read: the left one always, the right one unless the
      left is a Boolean. */
  function EvalInfixOp(op: string, left: Obj, right: Obj): (r: Result<Obj, Fault>)
    ensures left.None? ==> r == Failure(NilDereference)
    ensures left.Some? && right.Some? && left.value.Integer? && right.value.Integer? ==>
              r == EvalIntegerInfix(op, left.value.n, right.value.n)
    ensures left.Some? && (left.value.Boolean? || (right.Some? && right.value.Boolean?)) ==>
              r == Success(EvalBoolInfix(op, left, right))
    ensures left.Some? && right.Some? && !(left.value.Integer? && right.value.Integer?) &&
            !left.value.Boolean? && !right.value.Boolean? ==>
              r.Success? && IsError(r.value)
    ensures r.Failure? ==>
              left.None? || right.None? || (left.value.Integer? && right.value.Integer?)
  {
    if left.None? then Failure(NilDereference)
    else if TypeOf(left.value) == IntegerTag && right.None? then Failure(NilDereference)
    else if TypeOf(left.value) == IntegerTag && TypeOf(right.value) == IntegerTag then
      EvalIntegerInfix(op, left.value.n, right.value.n)
    else if TypeOf(left.value) == BooleanTag then Success(EvalBoolInfix(op, left, right))
    else if right.None? then Failure(NilDereference)
    else if TypeOf(right.value) == BooleanTag then Success(EvalBoolInfix(op, left, right))
    else if TypeOf(left.value) != TypeOf(right.value) then
      Success(NewError("Type mismatch in " + op + " " + TypeOf(left.value) + " " + TypeOf(right.value)))
    else
      Success(NewError("Unknown operator " + op + " for types " + TypeOf(left.value) + " and " +
                       TypeOf(right.value)))
  }

  /** `evalIntegerInfixExpression`: int64 arithmetic and comparisons. Division by zero
      panics, and so does `**` with a negative exponent, where `pow` returns NULL and the
      `.(int64)` assertion fails. */
  function EvalIntegerInfix(op: string, a: Int64.Int64, b: Int64.Int64): (r: Result<Obj, Fault>)
    ensures r.Failure? <==> (op == "/" && b == 0) || (op == "**" && b < 0)
    ensures op == "+" ==> r == Success(Some(Integer(Int64.Add(a, b))))
    ensures op == "-" ==> r == Success(Some(Integer(Int64.Sub(a, b))))
    ensures op == "*" ==> r == Success(Some(Integer(Int64.Mul(a, b))))
    ensures op == "/" && b != 0 ==> r == Success(Some(Integer(Int64.Div(a, b))))
    ensures op == "**" && b >= 0 ==> r == Success(Some(Integer(Helpers.Pow(a, b).value)))
    ensures op in {"<", ">", "<=", ">=", "==", "!="} ==> r == Success(True) || r == Success(False)
    ensures op == "<" ==> (r == Success(True) <==> a < b)
    ensures op == ">" ==> (r == Success(True) <==> a > b)
    ensures op == "<=" ==> (r == Success(True) <==> a <= b)
    ensures op == ">=" ==> (r == Success(True) <==> a >= b)
    ensures op == "==" ==> (r == Success(True) <==> a == b)
    ensures op == "!=" ==> (r == Success(True) <==> a != b)
    ensures op !in {"+", "-", "*", "/", "**", "<", ">", "<=", ">=", "==", "!="} ==>
              r.Success? && IsError(r.value)
  {
    if op == "+" then Success(Some(Integer(Int64.Add(a, b))))
    else if op == "-" then Success(Some(Integer(Int64.Sub(a, b))))
    else if op == "*" then Success(Some(Integer(Int64.Mul(a, b))))
    else if op == "/" then (if b == 0 then Failure(DivideByZero) else Success(Some(Integer(Int64.Div(a, b)))))
    else if op == "**" then
      (match Helpers.Pow(a, b)
       case None => Failure(FailedTypeAssertion)
       case Some(p) => Success(Some(Integer(p))))
    else if op == "<" then Success(NativeBool(a < b))
    else if op == ">" then Success(NativeBool(a > b))
    else if op == "<=" then Success(NativeBool(a <= b))
    else if op == ">=" then Success(NativeBool(a >= b))
    else if op == "==" then Success(NativeBool(a == b))
    else if op == "!=" then Success(NativeBool(a != b))
    else Success(NewError("Unknown operator " + op + " for types " + IntegerTag + " and " + IntegerTag))
  }

  /** `evalBoolInfixExpression`: `==` and `!=` compare the objects themselves (for the
      Boolean singletons that is their value); any other operator gives NULL. */
  function EvalBoolInfix(op: string, left: Obj, right: Obj): (r: Obj)
    ensures op == "==" ==> (r == True <==> left == right) && (r == False <==> left != right)
    ensures op == "!=" ==> (r == True <==> left != right) && (r == False <==> left == right)
    ensures op != "==" && op != "!=" ==> r == Nil
  {
    if op == "==" then NativeBool(left == right)
    else if op == "!=" then NativeBool(left != right)
    else Nil
  }

  /** `checkCondition`: only FALSE and NULL are false; nil and every other object are true. */
  function Truthy(o: Obj): (b: bool)
    ensures !b <==> o == False || o == Nil
  {
    if o == True then true
    else if o == False then false
    else if o == Nil then false
    else true
  }

  /** `evalName`: the binding found through the frame chain, or an Error. */
  function EvalName(name: Name, env: FrameId, st: Store): (r: Obj)
    ensures env in st.frames && name.value in st.frames[env].vars ==> r == st.frames[env].vars[name.value]
    ensures env in st.frames ==>
              var c := Chain(st, env);
              (forall k :: 0 <= k < |c| ==> name.value !in st.frames[c[k]].vars) ==>
                r == NewError("Name is not declared: " + name.value)
    ensures env in st.frames ==>
              forall k: nat :: FirstBinder(st, Chain(st, env), k, name.value) ==>
                r == st.frames[Chain(st, env)[k]].vars[name.value]
  {
    if env !in st.frames then NewError("Name is not declared: " + name.value)
    else
      GetFindsFirstBinding(st, env, name.value);
      match Get(st, env, name.value)
      case None => NewError("Name is not declared: " + name.value)
      case Some(o) => o
  }

  /** The Result of an operator, with the store it was evaluated in. */
  function Lift(r: Result<Obj, Fault>, st: Store): (o: Out<Obj>)
  {
    match r
    case Success(v) => Done(v, st)
    case Failure(f) => Crash(f)
  }

  // ---------------------------------------------------------------------------------------
  // Evaluation. Termination: fuel, then the node being evaluated; the body of a called
  // function is reached only by spending fuel.

  /** `Eval` on an expression. The kinds the source's type switch does not list (float,
      string and list literals, index expressions, and the nil expression) give NULL. */
  function EvalExpr(e: Expr, env: FrameId, st: Store, fuel: nat): (r: Out<Obj>)
    ensures r.Done? ==> Grows(st, r.store)
    decreases fuel, e, 1
  {
    match e
    case Ident(name) => Done(EvalName(name, env, st), st)
    case IntLit(_, n) => Done(Some(Integer(n)), st)
    case BoolLit(_, b) => Done(NativeBool(b), st)
    case Prefix(_, _, _) => EvalPrefix(e, env, st, fuel)
    case Infix(_, _, _, _) => EvalInfix(e, env, st, fuel)
    case IfExpr(_, _, _, _) => EvalIf(e, env, st, fuel)
    case Call(_, _, _) => EvalCall(e, env, st, fuel)
    case _ => Done(Nil, st)
  }

  function EvalPrefix(e: Expr, env: FrameId, st: Store, fuel: nat): (r: Out<Obj>)
    requires e.Prefix?
    ensures r.Done? ==> Grows(st, r.store)
    decreases fuel, e, 0
  {
    match EvalExpr(e.right, env, st, fuel)
    case Done(operand, st1) =>
      if IsError(operand) then Done(operand, st1) else Lift(EvalPrefixOp(e.op, operand), st1)
    case Crash(f) => Crash(f)
    case OutOfFuel => OutOfFuel
  }

  function EvalInfix(e: Expr, env: FrameId, st: Store, fuel: nat): (r: Out<Obj>)
    requires e.Infix?
    ensures r.Done? ==> Grows(st, r.store)
    decreases fuel, e, 0
  {
    match EvalExpr(e.left, env, st, fuel)
    case Done(left, st1) =>
      if IsError(left) then Done(left, st1)
      else
        (match EvalExpr(e.right, env, st1, fuel)
         case Done(right, st2) =>
           if IsError(right) then Done(right, st2) else Lift(EvalInfixOp(e.op, left, right), st2)
         case Crash(f) => Crash(f)
         case OutOfFuel => OutOfFuel)
    case Crash(f) => Crash(f)
    case OutOfFuel => OutOfFuel
  }

  /** `evalIfExpression`. */
  function EvalIf(e: Expr, env: FrameId, st: Store, fuel: nat): (r: Out<Obj>)
    requires e.IfExpr?
    ensures r.Done? ==> Grows(st, r.store)
    ensures var c := EvalExpr(e.cond, env, st, fuel);
            && (c.Done? && IsError(c.val) ==> r == c)
            && (c.Done? && !IsError(c.val) && Truthy(c.val) ==>
                  r == EvalBlock(e.cons.stmts, Option.None, env, c.store, fuel))
            && (c.Done? && !IsError(c.val) && !Truthy(c.val) && e.alt.Some? ==>
                  r == EvalBlock(e.alt.value.stmts, Option.None, env, c.store, fuel))
            && (c.Done? && !IsError(c.val) && !Truthy(c.val) && e.alt.None? ==> r == Done(Nil, c.store))
            && (!c.Done? ==> !r.Done?)
    decreases fuel, e, 0
  {
    match EvalExpr(e.cond, env, st, fuel)
    case Done(cond, st1) =>
      if IsError(cond) then Done(cond, st1)
      else if Truthy(cond) then EvalBlock(e.cons.stmts, Option.None, env, st1, fuel)
      else if e.alt.Some? then EvalBlock(e.alt.value.stmts, Option.None, env, st1, fuel)
      else Done(Nil, st1)
    case Crash(f) => Crash(f)
    case OutOfFuel => OutOfFuel
  }

  /** A call expression: the callee, then the arguments, then `runFunction`, which spends
      one unit of fuel. */
  function EvalCall(e: Expr, env: FrameId, st: Store, fuel: nat): (r: Out<Obj>)
    requires e.Call?
    ensures r.Done? ==> Grows(st, r.store)
    decreases fuel, e, 0
  {
    match EvalExpr(e.callee, env, st, fuel)
    case Done(callee, st1) =>
      if IsError(callee) then Done(callee, st1)
      else
        (match EvalExprs(e.args, [], env, st1, fuel)
         case Done(args, st2) =>
           if |args| == 1 && IsError(args[0]) then Done(args[0], st2)
           else if fuel == 0 then OutOfFuel
           else RunFunction(callee, args, st2, fuel - 1)
         case Crash(f) => Crash(f)
         case OutOfFuel => OutOfFuel)
    case Crash(f) => Crash(f)
    case OutOfFuel => OutOfFuel
  }

  /** `evalExpressions`: the values in order after `done`, or the first Error alone. */
  function EvalExprs(es: seq<Expr>, done: seq<Obj>, env: FrameId, st: Store, fuel: nat): (r: Out<seq<Obj>>)
    ensures r.Done? ==> Grows(st, r.store)
    ensures r.Done? ==>
              (|r.val| == |done| + |es| && r.val[..|done|] == done) || (|r.val| == 1 && IsError(r.val[0]))
    decreases fuel, es, 0
  {
    if |es| == 0 then Done(done, st)
    else
      match EvalExpr(es[0], env, st, fuel)
      case Done(v, st1) =>
        if IsError(v) then Done([v], st1) else EvalExprs(es[1..], done + [v], env, st1, fuel)
      case Crash(f) => Crash(f)
      case OutOfFuel => OutOfFuel
  }

  /** `runFunction`: a new frame nested in the closure's frame, the parameters bound by
      `Set` on it in order, then the body, which must end in a ReturnValue whose payload is
      the result. */
  function RunFunction(callee: Obj, args: seq<Obj>, st: Store, fuel: nat): (r: Out<Obj>)
    ensures r.Done? ==> Grows(st, r.store)
    ensures !(callee.Some? && callee.value.Function?) ==> r.Done? && IsError(r.val) && r.store == st
    ensures callee.Some? && callee.value.Function? && |args| < |callee.value.params| ==>
              r == Crash(IndexOutOfRange)
    decreases fuel, callee, 0
  {
    if !(callee.Some? && callee.value.Function?) then
      Done(NewError("expected type Function, got: " + FunctionTag), st)
    else
      var fn := callee.value;
      var frame := NewNestedEnv(st, fn.env);
      match BindParams(fn.params, args, frame.id, frame.store)
      case Failure(f) => Crash(f)
      case Success(st1) =>
        match EvalBlock(fn.body.stmts, Option.None, frame.id, st1, fuel)
        case Done(result, st2) =>
          if result.Some? && result.value.ReturnValue? then Done(result.value.inner, st2)
          else Crash(FailedTypeAssertion)
        case Crash(f) => Crash(f)
        case OutOfFuel => OutOfFuel
  }

  /** The loop of `runFunction` that binds each parameter to the argument at its position;
      too few arguments index past the end. */
  function BindParams(params: seq<Name>, args: seq<Obj>, frame: FrameId, st: Store): (r: Result<Store, Fault>)
    ensures r.Failure? <==> |args| < |params|
    ensures r.Failure? ==> r.error == IndexOutOfRange
    ensures r.Success? ==> r.value.frames.Keys == st.frames.Keys && r.value.next == st.next
  {
    if |params| == 0 then Success(st)
    else if |args| == 0 then Failure(IndexOutOfRange)
    else BindParams(params[1..], args[1..], frame, Set(st, frame, params[0].value, args[0]).store)
  }

  /** `evalBlockStatement`: statements in order, stopping at the first ReturnValue or Error,
      which is returned as it is; otherwise the last statement's object (nil for none). */
  function EvalBlock(ss: seq<Stmt>, last: Obj, env: FrameId, st: Store, fuel: nat): (r: Out<Obj>)
    ensures r.Done? ==> Grows(st, r.store)
    decreases fuel, ss, 0
  {
    if |ss| == 0 then Done(last, st)
    else
      match EvalStmt(ss[0], env, st, fuel)
      case Done(res, st1) =>
        if res.Some? && (TypeOf(res.value) == ReturnValueTag || TypeOf(res.value) == ErrorTag) then
          Done(res, st1)
        else EvalBlock(ss[1..], res, env, st1, fuel)
      case Crash(f) => Crash(f)
      case OutOfFuel => OutOfFuel
  }

  /** `Eval` on a statement. Assignment and `def` bind through `Set` and give NULL; a failed
      `def` is a nil `*FunctionStatement`, and reading its fields panics. */
  function EvalStmt(s: Stmt, env: FrameId, st: Store, fuel: nat): (r: Out<Obj>)
    ensures r.Done? ==> Grows(st, r.store)
    ensures s.FailedFuncDef? ==> r == Crash(NilDereference)
    ensures s.FuncDef? && env in st.frames ==>
              r.Done? && r.val == Nil && Get(r.store, env, s.name.value) == Some(Some(Function(s.params, s.body, env)))
    ensures s.Return? && r.Done? && !IsError(r.val) ==> r.val.Some? && r.val.value.ReturnValue?
    ensures (s.Assign? || s.FuncDef?) && r.Done? ==> r.val == Nil || IsError(r.val)
    decreases fuel, s, 1
  {
    match s
    case ExprStmt(_, e) => EvalExpr(e, env, st, fuel)
    case Return(_, e) =>
      (match EvalExpr(e, env, st, fuel)
       case Done(v, st1) => if IsError(v) then Done(v, st1) else Done(Some(ReturnValue(v)), st1)
       case Crash(f) => Crash(f)
       case OutOfFuel => OutOfFuel)
    case Assign(_, name, e) =>
      (match EvalExpr(e, env, st, fuel)
       case Done(v, st1) =>
         if IsError(v) then Done(v, st1) else Done(Nil, Set(st1, env, name.value, v).store)
       case Crash(f) => Crash(f)
       case OutOfFuel => OutOfFuel)
    case FuncDef(_, name, params, body) =>
      if env in st.frames then
        GetAfterSet(st, env, name.value, Some(Function(params, body, env)));
        Done(Nil, Set(st, env, name.value, Some(Function(params, body, env))).store)
      else Done(Nil, Set(st, env, name.value, Some(Function(params, body, env))).store)
    case FailedFuncDef => Crash(NilDereference)
  }

  /** `evalProgram`: statements in order; the first ReturnValue ends the program with its
      payload, the first Error ends it with the Error, and otherwise the last statement's
      object is the result (nil for an empty program). */
  function EvalProgram(ss: seq<Stmt>, last: Obj, env: FrameId, st: Store, fuel: nat): (r: Out<Obj>)
    ensures r.Done? ==> Grows(st, r.store)
    decreases ss
  {
    if |ss| == 0 then Done(last, st)
    else
      match EvalStmt(ss[0], env, st, fuel)
      case Done(res, st1) =>
        if res.Some? && res.value.ReturnValue? then Done(res.value.inner, st1)
        else if res.Some? && res.value.Error? then Done(res, st1)
        else EvalProgram(ss[1..], res, env, st1, fuel)
      case Crash(f) => Crash(f)
      case OutOfFuel => OutOfFuel
  }

  /** `Eval` of a whole program in the frame `env`. */
  function Run(p: Program, env: FrameId, st: Store, fuel: nat): (r: Out<Obj>)
    ensures r.Done? ==> Grows(st, r.store)
  {
    EvalProgram(p.stmts, Option.None, env, st, fuel)
  }
}

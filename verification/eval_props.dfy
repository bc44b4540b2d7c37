/** Properties of the evaluator: literals, operators, truthiness, the short-circuiting of
    Errors and ReturnValues, bindings, and calls. */
module EvalProps {
  import opened Wrappers
  import opened Ast
  import opened Tokens
  import opened Object
  import opened Env
  import opened Eval
  import Int64
  import Helpers

  // ---------------------------------------------------------------------------------------
  // Literals

  /** An integer literal evaluates to an Integer of the same value, and a negated literal to
      its int64 negation (the most negative int64 negates to itself). */
  lemma IntegerLiterals(t: Token, n: Int64.Int64, env: FrameId, st: Store, fuel: nat)
    ensures EvalExpr(IntLit(t, n), env, st, fuel) == Done(Some(Integer(n)), st)
    ensures n != Int64.Min ==>
              EvalExpr(Prefix(t, "-", IntLit(t, n)), env, st, fuel) == Done(Some(Integer(-n)), st)
    ensures EvalExpr(Prefix(t, "-", IntLit(t, Int64.Min)), env, st, fuel) == Done(Some(Integer(Int64.Min)), st)
  {
    assert EvalExpr(Prefix(t, "-", IntLit(t, n)), env, st, fuel) == EvalPrefix(Prefix(t, "-", IntLit(t, n)), env, st, fuel);
    assert EvalExpr(Prefix(t, "-", IntLit(t, Int64.Min)), env, st, fuel) ==
           EvalPrefix(Prefix(t, "-", IntLit(t, Int64.Min)), env, st, fuel);
  }

  /** A boolean literal evaluates to the TRUE or FALSE singleton. */
  lemma BooleanLiterals(t: Token, b: bool, env: FrameId, st: Store, fuel: nat)
    ensures EvalExpr(BoolLit(t, b), env, st, fuel) == Done(if b then True else False, st)
  {
  }

  /** Float, string and list literals, index expressions and the nil expression are not
      listed by the evaluator's type switch and give NULL without evaluating anything. */
  lemma UnhandledKindsGiveNull(t: Token, text: string, target: Expr, index: Expr, elems: seq<Expr>,
                               env: FrameId, st: Store, fuel: nat)
    ensures EvalExpr(FloatLit(t), env, st, fuel) == Done(Nil, st)
    ensures EvalExpr(StrLit(t, text), env, st, fuel) == Done(Nil, st)
    ensures EvalExpr(ListLit(elems), env, st, fuel) == Done(Nil, st)
    ensures EvalExpr(Index(t, target, index), env, st, fuel) == Done(Nil, st)
    ensures EvalExpr(Missing, env, st, fuel) == Done(Nil, st)
  {
  }

  // ---------------------------------------------------------------------------------------
  // Prefix operators

  /** Unary `-` negates Integers only: the result added to the operand wraps to 0, and every
      other operand type gives an Error that names it. */
  lemma MinusNegatesIntegersOnly(v: Value)
    ensures EvalPrefixOp("-", Some(v)).Success?
    ensures var r := EvalPrefixOp("-", Some(v)).value;
            && (v.Integer? ==> r.Some? && r.value.Integer? && Int64.Add(v.n, r.value.n) == 0)
            && (!v.Integer? ==> r == NewError("Unknown operator - for type " + TypeOf(v)))
  {
    if v.Integer? {
      var m := EvalPrefixOp("-", Some(v)).value.value.n;
      if v.n == Int64.Min {
        assert v.n + m == 2 * Int64.Min == -Int64.Modulus;
        Int64.WrapCongruent(v.n + m, 0);
      }
    }
  }

  /** Every prefix operator other than `!` and `-` gives an Error that names the operand's
      type; `*` and `**`, which the parser accepts as prefix operators, are among them. */
  lemma OtherPrefixOperatorsAreErrors(op: string, v: Value)
    requires op != "!" && op != "-"
    ensures EvalPrefixOp(op, Some(v)) == Success(NewError("Unknown operator " + op + " for type " + TypeOf(v)))
  {
  }

  // ---------------------------------------------------------------------------------------
  // Infix operators

  /** On two Integers `+ - *` are the exact results wrapped to int64. */
  lemma IntegerArithmetic(a: Int64.Int64, b: Int64.Int64)
    ensures EvalInfixOp("+", Some(Integer(a)), Some(Integer(b))) == Success(Some(Integer(Int64.Wrap(a + b))))
    ensures EvalInfixOp("-", Some(Integer(a)), Some(Integer(b))) == Success(Some(Integer(Int64.Wrap(a - b))))
    ensures EvalInfixOp("*", Some(Integer(a)), Some(Integer(b))) == Success(Some(Integer(Int64.Wrap(a * b))))
  {
  }

  /** `/` on Integers panics on a zero divisor; otherwise its quotient truncates toward zero
      (away from the one overflowing case, `Min / -1`, which wraps to `Min`). */
  lemma IntegerDivision(a: Int64.Int64, b: Int64.Int64)
    ensures b == 0 ==> EvalInfixOp("/", Some(Integer(a)), Some(Integer(b))) == Failure(DivideByZero)
    ensures b != 0 ==> EvalInfixOp("/", Some(Integer(a)), Some(Integer(b))).Success?
    ensures b != 0 && !(a == Int64.Min && b == -1) ==>
              var q := EvalInfixOp("/", Some(Integer(a)), Some(Integer(b))).value.value.n;
              var rem := a - q * b;
              Int64.Abs(rem) < Int64.Abs(b) && (rem == 0 || (rem < 0) == (a < 0))
    ensures EvalInfixOp("/", Some(Integer(Int64.Min)), Some(Integer(-1))) == Success(Some(Integer(Int64.Min)))
  {
  }

  /** `**` on Integers is the wrapped power for a positive exponent and 1 for a zero one; a
      negative exponent panics. */
  lemma IntegerPower(a: Int64.Int64, b: Int64.Int64)
    ensures b >= 1 ==> EvalInfixOp("**", Some(Integer(a)), Some(Integer(b))) ==
                         Success(Some(Integer(Int64.Wrap(Int64.Power(a, b)))))
    ensures b == 0 ==> EvalInfixOp("**", Some(Integer(a)), Some(Integer(b))) == Success(Some(Integer(1)))
    ensures b < 0 ==> EvalInfixOp("**", Some(Integer(a)), Some(Integer(b))) == Failure(FailedTypeAssertion)
  {
    if b >= 1 {
      Helpers.PowIsWrappedPower(a, b);
    }
  }

  /** The comparison of two Integers is the TRUE or FALSE singleton, TRUE exactly when the
      relation holds. */
  lemma IntegerComparisons(a: Int64.Int64, b: Int64.Int64)
    ensures EvalInfixOp("<", Some(Integer(a)), Some(Integer(b))) == Success(if a < b then True else False)
    ensures EvalInfixOp(">", Some(Integer(a)), Some(Integer(b))) == Success(if a > b then True else False)
    ensures EvalInfixOp("<=", Some(Integer(a)), Some(Integer(b))) == Success(if a <= b then True else False)
    ensures EvalInfixOp(">=", Some(Integer(a)), Some(Integer(b))) == Success(if a >= b then True else False)
    ensures EvalInfixOp("==", Some(Integer(a)), Some(Integer(b))) == Success(if a == b then True else False)
    ensures EvalInfixOp("!=", Some(Integer(a)), Some(Integer(b))) == Success(if a != b then True else False)
  {
  }

  /** Any other operator on two Integers is an Error. */
  lemma IntegerUnknownOperator(op: string, a: Int64.Int64, b: Int64.Int64)
    requires op !in {"+", "-", "*", "/", "**", "<", ">", "<=", ">=", "==", "!="}
    ensures EvalInfixOp(op, Some(Integer(a)), Some(Integer(b))) ==
            Success(NewError("Unknown operator " + op + " for types INTEGER and INTEGER"))
  {
    var head := "Unknown operator " + op;
    assert head + " for types " + IntegerTag + " and " + IntegerTag == head + " for types INTEGER and INTEGER";
  }

  /** With a Boolean on either side (and a left operand that is not an Integer), `==` and
      `!=` compare the objects, which for the singletons means their identity, and any other
      operator gives NULL, not an Error. */
  lemma BooleanOperands(op: string, left: Value, right: Obj)
    requires left.Boolean? || (!left.Integer? && right.Some? && right.value.Boolean?)
    ensures EvalInfixOp("==", Some(left), right) == Success(if Some(left) == right then True else False)
    ensures EvalInfixOp("!=", Some(left), right) == Success(if Some(left) == right then False else True)
    ensures op != "==" && op != "!=" ==> EvalInfixOp(op, Some(left), right) == Success(Nil)
  {
  }

  /** Two Booleans are equal under `==` exactly when they have the same truth value. */
  lemma BooleanEquality(p: bool, q: bool)
    ensures EvalInfixOp("==", Some(Boolean(p)), Some(Boolean(q))) == Success(if p == q then True else False)
  {
  }

  /** Operands that are neither both Integers nor include a Boolean: different types give a
      type mismatch Error and equal types an unknown operator Error. */
  lemma MismatchedOperands(op: string, left: Value, right: Value)
    requires !(left.Integer? && right.Integer?) && !left.Boolean? && !right.Boolean?
    ensures TypeOf(left) != TypeOf(right) ==>
              EvalInfixOp(op, Some(left), Some(right)) ==
              Success(NewError("Type mismatch in " + op + " " + TypeOf(left) + " " + TypeOf(right)))
    ensures TypeOf(left) == TypeOf(right) ==>
              EvalInfixOp(op, Some(left), Some(right)) ==
              Success(NewError("Unknown operator " + op + " for types " + TypeOf(left) + " and " + TypeOf(right)))
  {
    TagsDistinct(left, right);
  }

  // ---------------------------------------------------------------------------------------
  // Errors short-circuit

  /** An Error from the operand of a prefix expression is its result. */
  lemma PrefixOperandError(t: Token, op: string, right: Expr, env: FrameId, st: Store, fuel: nat, err: Obj, st1: Store)
    requires IsError(err) && EvalExpr(right, env, st, fuel) == Done(err, st1)
    ensures EvalExpr(Prefix(t, op, right), env, st, fuel) == Done(err, st1)
  {
    assert EvalExpr(Prefix(t, op, right), env, st, fuel) == EvalPrefix(Prefix(t, op, right), env, st, fuel);
  }

  /** An Error from the left operand is the result, whatever the right operand is: the right
      operand is not evaluated. */
  lemma InfixLeftError(t: Token, op: string, left: Expr, right1: Expr, right2: Expr,
                       env: FrameId, st: Store, fuel: nat, err: Obj, st1: Store)
    requires IsError(err) && EvalExpr(left, env, st, fuel) == Done(err, st1)
    ensures EvalExpr(Infix(t, op, left, right1), env, st, fuel) == Done(err, st1)
    ensures EvalExpr(Infix(t, op, left, right1), env, st, fuel) == EvalExpr(Infix(t, op, left, right2), env, st, fuel)
  {
    assert EvalExpr(Infix(t, op, left, right1), env, st, fuel) == EvalInfix(Infix(t, op, left, right1), env, st, fuel);
    assert EvalExpr(Infix(t, op, left, right2), env, st, fuel) == EvalInfix(Infix(t, op, left, right2), env, st, fuel);
  }

  /** An Error from the right operand, after a left operand that is not one, is the result. */
  lemma InfixRightError(t: Token, op: string, left: Expr, right: Expr, env: FrameId, st: Store, fuel: nat,
                        l: Obj, st1: Store, err: Obj, st2: Store)
    requires !IsError(l) && EvalExpr(left, env, st, fuel) == Done(l, st1)
    requires IsError(err) && EvalExpr(right, env, st1, fuel) == Done(err, st2)
    ensures EvalExpr(Infix(t, op, left, right), env, st, fuel) == Done(err, st2)
  {
    assert EvalExpr(Infix(t, op, left, right), env, st, fuel) == EvalInfix(Infix(t, op, left, right), env, st, fuel);
  }

  /** An Error from the condition is the result; neither branch is evaluated. */
  lemma IfConditionError(t: Token, cond: Expr, cons: Block, alt: Option<Block>, env: FrameId, st: Store, fuel: nat,
                         err: Obj, st1: Store)
    requires IsError(err) && EvalExpr(cond, env, st, fuel) == Done(err, st1)
    ensures EvalExpr(IfExpr(t, cond, cons, alt), env, st, fuel) == Done(err, st1)
  {
    assert EvalExpr(IfExpr(t, cond, cons, alt), env, st, fuel) == EvalIf(IfExpr(t, cond, cons, alt), env, st, fuel);
  }

  /** An Error from the callee is the result; the arguments are not evaluated. */
  lemma CalleeError(t: Token, callee: Expr, args: seq<Expr>, env: FrameId, st: Store, fuel: nat, err: Obj, st1: Store)
    requires IsError(err) && EvalExpr(callee, env, st, fuel) == Done(err, st1)
    ensures EvalExpr(Call(t, callee, args), env, st, fuel) == Done(err, st1)
  {
    assert EvalExpr(Call(t, callee, args), env, st, fuel) == EvalCall(Call(t, callee, args), env, st, fuel);
  }

  /** The first argument that evaluates to an Error ends the argument list, which is then
      that Error alone; the arguments after it are not evaluated. */
  lemma {:induction false} ArgumentErrorStops(es: seq<Expr>, rest: seq<Expr>, done: seq<Obj>, env: FrameId, st: Store,
                                              fuel: nat, err: Obj, st1: Store)
    requires |es| >= 1 && IsError(err) && EvalExpr(es[0], env, st, fuel) == Done(err, st1)
    ensures EvalExprs(es + rest, done, env, st, fuel) == Done([err], st1)
  {
    assert (es + rest)[0] == es[0];
  }

  /** An argument list that meets an Error makes the call's result that Error. */
  lemma ArgumentError(t: Token, callee: Expr, args: seq<Expr>, env: FrameId, st: Store, fuel: nat,
                      f: Obj, st1: Store, err: Obj, st2: Store)
    requires !IsError(f) && EvalExpr(callee, env, st, fuel) == Done(f, st1)
    requires IsError(err) && EvalExprs(args, [], env, st1, fuel) == Done([err], st2)
    ensures EvalExpr(Call(t, callee, args), env, st, fuel) == Done(err, st2)
  {
    assert EvalExpr(Call(t, callee, args), env, st, fuel) == EvalCall(Call(t, callee, args), env, st, fuel);
  }

  /** An Error from a returned value is the statement's result, not wrapped. */
  lemma ReturnError(t: Token, e: Expr, env: FrameId, st: Store, fuel: nat, err: Obj, st1: Store)
    requires IsError(err) && EvalExpr(e, env, st, fuel) == Done(err, st1)
    ensures EvalStmt(Stmt.Return(t, e), env, st, fuel) == Done(err, st1)
  {
  }

  /** An Error from an assigned value is the statement's result and nothing is bound. */
  lemma AssignError(t: Token, name: Name, e: Expr, env: FrameId, st: Store, fuel: nat, err: Obj, st1: Store)
    requires IsError(err) && EvalExpr(e, env, st, fuel) == Done(err, st1)
    ensures EvalStmt(Stmt.Assign(t, name, e), env, st, fuel) == Done(err, st1)
  {
  }

  // ---------------------------------------------------------------------------------------
  // Conditions

  /** A falsy condition without an alternative gives NULL; a truthy one runs the
      consequence block. */
  lemma IfWithoutAlternative(t: Token, cond: Expr, cons: Block, env: FrameId, st: Store, fuel: nat, c: Obj, st1: Store)
    requires !IsError(c) && EvalExpr(cond, env, st, fuel) == Done(c, st1)
    ensures !Truthy(c) ==> EvalExpr(IfExpr(t, cond, cons, Option.None), env, st, fuel) == Done(Nil, st1)
    ensures Truthy(c) ==> EvalExpr(IfExpr(t, cond, cons, Option.None), env, st, fuel) ==
                          EvalBlock(cons.stmts, Option.None, env, st1, fuel)
  {
    assert EvalExpr(IfExpr(t, cond, cons, Option.None), env, st, fuel) == EvalIf(IfExpr(t, cond, cons, Option.None), env, st, fuel);
  }

  // ---------------------------------------------------------------------------------------
  // Blocks and programs

  /** A program ends at the first statement giving a ReturnValue, with the wrapped object,
      whatever statements follow. */
  lemma ProgramStopsAtReturn(s: Stmt, rest: seq<Stmt>, last: Obj, env: FrameId, st: Store, fuel: nat, v: Obj, st1: Store)
    requires EvalStmt(s, env, st, fuel) == Done(Some(ReturnValue(v)), st1)
    ensures EvalProgram([s] + rest, last, env, st, fuel) == Done(v, st1)
  {
    assert ([s] + rest)[0] == s;
  }

  /** A program ends at the first statement giving an Error, with that Error. */
  lemma ProgramStopsAtError(s: Stmt, rest: seq<Stmt>, last: Obj, env: FrameId, st: Store, fuel: nat, err: Obj, st1: Store)
    requires IsError(err) && EvalStmt(s, env, st, fuel) == Done(err, st1)
    ensures EvalProgram([s] + rest, last, env, st, fuel) == Done(err, st1)
  {
    assert ([s] + rest)[0] == s;
  }

  /** Any other statement result is carried on, and it is the program's result when no
      statement follows; an empty program gives nil. */
  lemma ProgramContinues(s: Stmt, rest: seq<Stmt>, last: Obj, env: FrameId, st: Store, fuel: nat, v: Obj, st1: Store)
    requires EvalStmt(s, env, st, fuel) == Done(v, st1)
    requires !(v.Some? && (v.value.ReturnValue? || v.value.Error?))
    ensures EvalProgram([s] + rest, last, env, st, fuel) == EvalProgram(rest, v, env, st1, fuel)
    ensures EvalProgram([s], last, env, st, fuel) == Done(v, st1)
    ensures EvalProgram([], last, env, st, fuel) == Done(last, st)
  {
    assert ([s] + rest)[0] == s && ([s] + rest)[1..] == rest;
    assert [s][1..] == [];
  }

  /** A block ends at the first ReturnValue or Error and gives it unchanged: the
      ReturnValue is not unwrapped. */
  lemma BlockStopsWithoutUnwrapping(s: Stmt, rest: seq<Stmt>, last: Obj, env: FrameId, st: Store, fuel: nat, v: Value, st1: Store)
    requires v.ReturnValue? || v.Error?
    requires EvalStmt(s, env, st, fuel) == Done(Some(v), st1)
    ensures EvalBlock([s] + rest, last, env, st, fuel) == Done(Some(v), st1)
  {
    assert ([s] + rest)[0] == s;
  }

  /** A return wraps its value once more; the program then unwraps one level. */
  lemma ReturnWraps(t: Token, e: Expr, env: FrameId, st: Store, fuel: nat, v: Obj, st1: Store)
    requires !IsError(v) && EvalExpr(e, env, st, fuel) == Done(v, st1)
    ensures EvalStmt(Stmt.Return(t, e), env, st, fuel) == Done(Some(ReturnValue(v)), st1)
    ensures EvalProgram([Stmt.Return(t, e)], Option.None, env, st, fuel) == Done(v, st1)
  {
  }

  // ---------------------------------------------------------------------------------------
  // Names and bindings

  /** A name no frame of the chain binds gives the "Name is not declared" Error. */
  lemma UndeclaredName(name: Name, env: FrameId, st: Store, fuel: nat)
    requires env in st.frames
    requires forall k :: 0 <= k < |Chain(st, env)| ==> name.value !in st.frames[Chain(st, env)[k]].vars
    ensures EvalExpr(Ident(name), env, st, fuel) == Done(NewError("Name is not declared: " + name.value), st)
  {
    GetFindsFirstBinding(st, env, name.value);
  }

  /** An assignment gives NULL and leaves the name bound to the value, as seen from the
      frame it ran in. */
  lemma AssignmentBinds(t: Token, name: Name, e: Expr, env: FrameId, st: Store, fuel: nat, v: Obj, st1: Store)
    requires !IsError(v) && EvalExpr(e, env, st, fuel) == Done(v, st1)
    requires env in st.frames
    ensures var r := EvalStmt(Stmt.Assign(t, name, e), env, st, fuel);
            r.Done? && r.val == Nil && Get(r.store, env, name.value) == Some(v)
  {
    assert env in st1.frames;
    GetAfterSet(st1, env, name.value, v);
  }

  // ---------------------------------------------------------------------------------------
  // Calls

  /** Calling anything but a Function gives an Error, which always says FUNCTION: the source
      reads the type of the nil `*Function` its failed assertion left behind. */
  lemma CallingNonFunction(callee: Obj, args: seq<Obj>, st: Store, fuel: nat)
    requires !(callee.Some? && callee.value.Function?)
    ensures RunFunction(callee, args, st, fuel) == Done(NewError("expected type Function, got: FUNCTION"), st)
  {
    assert "expected type Function, got: " + FunctionTag == "expected type Function, got: FUNCTION";
  }

  /** A body that ends without a ReturnValue, an empty one included, panics on the failed
      `.(*object.ReturnValue)` assertion. */
  lemma BodyWithoutReturnPanics(params: seq<Name>, body: Block, closure: FrameId, args: seq<Obj>,
                                st: Store, fuel: nat, bound: Store, res: Obj, st2: Store)
    requires BindParams(params, args, NewNestedEnv(st, closure).id, NewNestedEnv(st, closure).store) == Success(bound)
    requires EvalBlock(body.stmts, Option.None, NewNestedEnv(st, closure).id, bound, fuel) == Done(res, st2)
    requires !(res.Some? && res.value.ReturnValue?)
    ensures RunFunction(Some(Function(params, body, closure)), args, st, fuel) == Crash(FailedTypeAssertion)
  {
  }

  /** A call with enough arguments returns the payload of the body's ReturnValue. */
  lemma CallReturnsPayload(params: seq<Name>, body: Block, closure: FrameId, args: seq<Obj>,
                           st: Store, fuel: nat, bound: Store, v: Obj, st2: Store)
    requires BindParams(params, args, NewNestedEnv(st, closure).id, NewNestedEnv(st, closure).store) == Success(bound)
    requires EvalBlock(body.stmts, Option.None, NewNestedEnv(st, closure).id, bound, fuel) == Done(Some(ReturnValue(v)), st2)
    ensures |args| >= |params|
    ensures RunFunction(Some(Function(params, body, closure)), args, st, fuel) == Done(v, st2)
  {
  }

  // ---------------------------------------------------------------------------------------
  // Parameter binding

  /** Parameter `i` is the last parameter with its name, so no later `Set` overwrites it. */
  ghost predicate LastOfItsName(params: seq<Name>, i: nat)
    requires i < |params|
  {
    forall j :: i < j < |params| ==> params[j].value != params[i].value
  }

  /** With enough arguments, binding succeeds, and afterwards every parameter looks up, from
      the frame it was bound on, to the argument at its position; of two parameters with the
      same name the later one wins. */
  lemma {:induction false} BindParamsBindsEach(params: seq<Name>, args: seq<Obj>, frame: FrameId, st: Store)
    requires frame in st.frames && |args| >= |params|
    ensures var r := BindParams(params, args, frame, st);
            && r.Success?
            && forall i :: 0 <= i < |params| && LastOfItsName(params, i) ==>
                 Get(r.value, frame, params[i].value) == Some(args[i])
    decreases |params|
  {
    if |params| > 0 {
      var st1 := Set(st, frame, params[0].value, args[0]).store;
      BindParamsBindsEach(params[1..], args[1..], frame, st1);
      var r := BindParams(params, args, frame, st);
      assert r == BindParams(params[1..], args[1..], frame, st1);
      forall i | 0 <= i < |params| && LastOfItsName(params, i)
        ensures Get(r.value, frame, params[i].value) == Some(args[i])
      {
        if i == 0 {
          GetAfterSet(st, frame, params[0].value, args[0]);
          BindParamsKeepsOthers(params[1..], args[1..], frame, st1, params[0].value);
        } else {
          assert params[i] == params[1..][i - 1] && args[i] == args[1..][i - 1];
          assert LastOfItsName(params[1..], i - 1);
        }
      }
    }
  }

  /** Binding parameters leaves the lookup of every other name as it was. */
  lemma {:induction false} BindParamsKeepsOthers(params: seq<Name>, args: seq<Obj>, frame: FrameId, st: Store, x: string)
    requires |args| >= |params|
    requires forall j :: 0 <= j < |params| ==> params[j].value != x
    ensures var r := BindParams(params, args, frame, st);
            r.Success? && Get(r.value, frame, x) == Get(st, frame, x)
    decreases |params|
  {
    if |params| > 0 {
      var st1 := Set(st, frame, params[0].value, args[0]).store;
      GetAfterSetOther(st, frame, params[0].value, args[0], frame, x);
      assert forall j :: 0 <= j < |params[1..]| ==> params[1..][j] == params[j + 1];
      BindParamsKeepsOthers(params[1..], args[1..], frame, st1, x);
    }
  }

  /** Binding parameters never writes into an empty frame that has a parent, such as the
      call's new frame, and keeps the store well formed: every binding goes up the chain. */
  lemma {:induction false} BindParamsKeepsNestedFrameEmpty(params: seq<Name>, args: seq<Obj>, frame: FrameId, st: Store, f: FrameId)
    requires st.Valid() && f in st.frames
    requires st.frames[f].parent.Some? && st.frames[f].vars == map[]
    ensures var r := BindParams(params, args, frame, st);
            r.Success? ==> r.value.Valid() && r.value.frames[f] == st.frames[f]
    decreases |params|
  {
    if |params| > 0 && |args| > 0 {
      var st1 := Set(st, frame, params[0].value, args[0]).store;
      NestedFrameNeverGains(st, frame, params[0].value, args[0], f);
      SetKeepsValid(st, frame, params[0].value, args[0]);
      BindParamsKeepsNestedFrameEmpty(params[1..], args[1..], frame, st1, f);
    }
  }

  /** What `runFunction` binds on the call's fresh frame: the frame stays empty, the store
      stays well formed, and every parameter looks up from the frame to its argument. The
      bindings themselves land in the closure's chain, at the first binder or the root. */
  lemma CallFrameSeesArguments(params: seq<Name>, args: seq<Obj>, closure: FrameId, st: Store)
    requires st.Valid() && closure in st.frames && |args| >= |params|
    ensures var frame := NewNestedEnv(st, closure);
            var r := BindParams(params, args, frame.id, frame.store);
            && r.Success? && r.value.Valid()
            && r.value.frames[frame.id] == Frame(map[], Some(closure))
            && forall i :: 0 <= i < |params| && LastOfItsName(params, i) ==>
                 Get(r.value, frame.id, params[i].value) == Some(args[i])
  {
    var frame := NewNestedEnv(st, closure);
    BindParamsBindsEach(params, args, frame.id, frame.store);
    BindParamsKeepsNestedFrameEmpty(params, args, frame.id, frame.store, frame.id);
  }

  // ---------------------------------------------------------------------------------------
  // A worked call: `def id(x): return x` then `id(5)` in the root frame

  const IdTok: Token := Token(Kind.Name, "x")
  const X: Name := Name.Name(IdTok, "x")
  const IdBody: Block := Block(IdTok, [Stmt.Return(IdTok, Ident(X))])
  const IdFn: Obj := Some(Function([X], IdBody, 0))

  /** The root frame 0 binding `id` to the identity function. */
  const IdStore: Store := Store(map[0 := Frame(map["id" := IdFn], None)], 1)

  /** `id(5)` gives 5, and the parameter binding lands in the root frame: `Set` on the call's
      new frame, which has a parent and no binding of `x`, hands the write up the chain, so
      the call's own frame stays empty and `x` stays visible after the call. */
  lemma ParameterLeaksIntoClosureFrame()
    ensures var r := EvalExpr(Call(IdTok, Ident(Name.Name(IdTok, "id")), [IntLit(IdTok, 5)]), 0, IdStore, 1);
            && r.Done? && r.val == Some(Integer(5))
            && 1 in r.store.frames && r.store.frames[1].vars == map[]
            && Get(r.store, 0, "x") == Some(Some(Integer(5)))
  {
    var bound := IdCallBindsInRoot();
    IdCallGivesFive(bound);
    CallDispatches(IdTok, Ident(Name.Name(IdTok, "id")), [IntLit(IdTok, 5)], 0, IdStore, 1);
  }

  lemma CallDispatches(t: Token, callee: Expr, args: seq<Expr>, env: FrameId, st: Store, fuel: nat)
    ensures EvalExpr(Call(t, callee, args), env, st, fuel) == EvalCall(Call(t, callee, args), env, st, fuel)
  {
  }

  /** `id(5)` evaluates to 5, leaving the store its parameter binding produced. */
  lemma IdCallGivesFive(bound: Store)
    requires NewNestedEnv(IdStore, 0).id == 1
    requires BindParams([X], [Some(Integer(5))], 1, NewNestedEnv(IdStore, 0).store) == Success(bound)
    requires 1 in bound.frames && Get(bound, 1, "x") == Some(Some(Integer(5)))
    ensures EvalCall(Call(IdTok, Ident(Name.Name(IdTok, "id")), [IntLit(IdTok, 5)]), 0, IdStore, 1) ==
            Done(Some(Integer(5)), bound)
  {
    var call := Call(IdTok, Ident(Name.Name(IdTok, "id")), [IntLit(IdTok, 5)]);
    var five := Some(Integer(5));
    IdBodyReturnsParameter(bound);
    CallReturnsPayload([X], IdBody, 0, [five], IdStore, 0, bound, five, bound);
    IdCallOperands();
  }

  /** The callee of `id(5)` is the identity function and its one argument is 5. */
  lemma IdCallOperands()
    ensures EvalExpr(Ident(Name.Name(IdTok, "id")), 0, IdStore, 1) == Done(IdFn, IdStore)
    ensures EvalExprs([IntLit(IdTok, 5)], [], 0, IdStore, 1) == Done([Some(Integer(5))], IdStore)
  {
    var five := Some(Integer(5));
    assert [IntLit(IdTok, 5)][1..] == [] && [] + [five] == [five];
    assert EvalExpr(IntLit(IdTok, 5), 0, IdStore, 1) == Done(five, IdStore);
  }

  /** Binding `x` to 5 in the call's frame 1 writes into the root frame 0. */
  lemma IdCallBindsInRoot() returns (bound: Store)
    ensures NewNestedEnv(IdStore, 0).id == 1
    ensures BindParams([X], [Some(Integer(5))], 1, NewNestedEnv(IdStore, 0).store) == Success(bound)
    ensures 1 in bound.frames && bound.frames[1].vars == map[] && bound.frames[1].parent == Some(0)
    ensures Get(bound, 0, "x") == Some(Some(Integer(5))) && Get(bound, 1, "x") == Some(Some(Integer(5)))
  {
    var five := Some(Integer(5));
    var frame := NewNestedEnv(IdStore, 0);
    bound := Set(frame.store, 1, "x", five).store;
    assert Target(frame.store, 1, "x") == 0;
    assert bound.frames[0].vars["x"] == five;
    assert [X][1..] == [] && [five][1..] == [];
  }

  /** The body `return x` run in frame 1 returns what `x` is bound to. */
  lemma IdBodyReturnsParameter(bound: Store)
    requires 1 in bound.frames && Get(bound, 1, "x") == Some(Some(Integer(5)))
    ensures EvalBlock(IdBody.stmts, Option.None, 1, bound, 0) == Done(Some(ReturnValue(Some(Integer(5)))), bound)
  {
    assert EvalStmt(IdBody.stmts[0], 1, bound, 0) == Done(Some(ReturnValue(Some(Integer(5)))), bound);
  }
}

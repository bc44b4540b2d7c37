/** The builtins of eval/builtins.go: `length`, the variadic `pow` and the generic `powT`.
    The `builtin` table that holds `length` is never consulted by the evaluator, so these
    are modelled as functions of their argument lists only. */
module Builtins {
  import opened Wrappers
  import opened Object
  import Int64
  import Decimal
  import Helpers

  /** `%d` of an argument count. */
  function Count(n: nat): string {
    Decimal.IntToString(n)
  }

  /** `length(args...)`: the byte length of a single String argument. More than one argument
      is an Error naming the count, no argument at all indexes past the end of the slice, and
      any other single argument is an Error naming its type (a nil one panics on `Type()`). */
  function Length(args: seq<Obj>): (r: Result<Obj, Fault>)
    ensures |args| > 1 ==>
              r == Success(Some(Error("expected 1 sequence-like argument, got " + Count(|args|) + " arguments")))
    ensures |args| == 0 ==> r == Failure(IndexOutOfRange)
    ensures r.Failure? <==> |args| == 0 || (|args| == 1 && args[0].None?)
    ensures r.Success? ==> r.value.Some? && (r.value.value.Integer? || r.value.value.Error?)
    ensures r.Success? && r.value.value.Integer? <==> |args| == 1 && args[0].Some? && args[0].value.Str?
    ensures |args| == 1 && args[0].Some? && args[0].value.Str? && |args[0].value.s| <= Int64.Max ==>
              r == Success(Some(Integer(|args[0].value.s|)))
  {
    if |args| > 1 then
      Success(Some(Error("expected 1 sequence-like argument, got " + Count(|args|) + " arguments")))
    else if |args| == 0 then Failure(IndexOutOfRange)
    else match args[0]
      case Some(Str(s)) => Success(Some(Integer(Int64.Wrap(|s|))))
      case Some(v) => Success(Some(Error("expected sequence-like argument, got " + TypeOf(v) + " type")))
      case None => Failure(NilDereference)
  }

  /** The Error for a non-numeric argument; it reads the type of both arguments, so a nil
      one panics. */
  function NotNumeric(a: Obj, b: Obj): (r: Result<Obj, Fault>)
    ensures r.Failure? <==> a.None? || b.None?
  {
    if a.None? || b.None? then Failure(NilDereference)
    else Success(Some(Error("expected only numeric arguments, got " + TypeOf(a.value) + " and " +
                            TypeOf(b.value))))
  }

  /** The `pow` builtin: two Integers give `powT` on int64, two Floats give `powT` on float64
      (which is always 0). An Integer with a Float panics either way round: `(Int, Float)` on
      the failed `.(*object.Float)` assertion and `(Float, Int)` on reading the nil second
      Float. A non-numeric argument is an Error, and so is an argument count other than 2. */
  function PowBuiltin(args: seq<Obj>): (r: Result<Obj, Fault>)
    ensures |args| != 2 ==>
              r == Success(Some(Error("expected 2 numeric arguments, got " + Count(|args|) + " arguments")))
  {
    if |args| != 2 then
      Success(Some(Error("expected 2 numeric arguments, got " + Count(|args|) + " arguments")))
    else
      var a, b := args[0], args[1];
      var aFloat, aInt := Helpers.CheckFloat(a), Helpers.CheckInt(a);
      if aFloat.None? && aInt.None? then NotNumeric(a, b)
      else
        var bFloat := Helpers.CheckFloat(b);
        if bFloat.Some? && aInt.Some? then Failure(FailedTypeAssertion)
        else if bFloat.None? && Helpers.CheckInt(b).None? then NotNumeric(a, b)
        else if aFloat.Some? || bFloat.Some? then
          if bFloat.None? then Failure(NilDereference)
          else Success(Some(Float(PowFloat(aFloat.value.x, bFloat.value.x))))
        else Success(Some(Integer(PowT(aInt.value.n, b.value.n))))
  }

  /** `powT[int64]`: 1 for a zero exponent, 0 for a negative one, and otherwise the base
      multiplied in `b` times with int64 wrap-around. */
  function PowT(a: Int64.Int64, b: Int64.Int64): (r: Int64.Int64)
    ensures b == 0 ==> r == 1
    ensures b < 0 ==> r == 0
    ensures b >= 1 ==> r == Int64.Wrap(Int64.Power(a, b))
  {
    if b == 0 then 1
    else if b < 0 then 0
    else
      Helpers.PowLoopComputesPower(a, a, 1, b);
      Helpers.PowLoop(a, a, 1, b)
  }

  /** `powT[float64]`: its `float64` branch returns 0 whatever the operands. */
  function PowFloat(a: real, b: real): real
  {
    0.0
  }

  /** `powT` agrees with `pow` of eval/helpers.go wherever that one returns an int64, and
      gives 0 where that one returns NULL; for a positive exponent both are the wrapped
      mathematical power. */
  lemma PowTAgreesWithPow(a: Int64.Int64, b: Int64.Int64)
    ensures b >= 0 ==> Helpers.Pow(a, b) == Some(PowT(a, b))
    ensures b < 0 ==> Helpers.Pow(a, b).None? && PowT(a, b) == 0
    ensures b >= 1 ==> PowT(a, b) == Int64.Wrap(Int64.Power(a, b))
  {
  }

  /** Two Integers give an Integer, the wrapped power for a positive exponent. */
  lemma PowBuiltinOnIntegers(a: Int64.Int64, b: Int64.Int64)
    ensures PowBuiltin([Some(Integer(a)), Some(Integer(b))]) == Success(Some(Integer(PowT(a, b))))
    ensures b >= 1 ==> PowBuiltin([Some(Integer(a)), Some(Integer(b))]) ==
                         Success(Some(Integer(Int64.Wrap(Int64.Power(a, b)))))
  {
    PowTAgreesWithPow(a, b);
  }

  /** Mixing an Integer and a Float panics in both orders; two Floats give the Float 0. */
  lemma PowBuiltinOnFloats(n: Int64.Int64, x: real, y: real)
    ensures PowBuiltin([Some(Integer(n)), Some(Float(x))]) == Failure(FailedTypeAssertion)
    ensures PowBuiltin([Some(Float(x)), Some(Integer(n))]) == Failure(NilDereference)
    ensures PowBuiltin([Some(Float(x)), Some(Float(y))]) == Success(Some(Float(0.0)))
  {
  }

  /** A non-numeric argument in either place gives the Error that names both types. */
  lemma PowBuiltinRejectsNonNumeric(a: Value, b: Value)
    requires !Helpers.IsNumeric(Some(a)) || !Helpers.IsNumeric(Some(b))
    ensures PowBuiltin([Some(a), Some(b)]) ==
            Success(Some(Error("expected only numeric arguments, got " + TypeOf(a) + " and " + TypeOf(b))))
  {
  }
}

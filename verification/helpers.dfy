/** The integer power of eval/helpers.go and the type checks of eval/eval_helpers.go. */
module Helpers {
  import opened Wrappers
  import opened Object
  import Int64

  /** `pow(a, b)`: 1 for a zero exponent, the NULL object (`None` here) for a negative one,
      and otherwise `a` multiplied by itself `b - 1` times in int64 arithmetic. */
  function Pow(a: Int64.Int64, b: Int64.Int64): (r: Option<Int64.Int64>)
    ensures r.None? <==> b < 0
  {
    if b == 0 then Some(1)
    else if b < 0 then None
    else Some(PowLoop(a, a, 1, b))
  }

  /** The loop `for i := 1; i < b; i++ { a = a * base }`, with `acc` for the variable `a`. */
  function PowLoop(acc: Int64.Int64, base: Int64.Int64, i: Int64.Int64, b: Int64.Int64): Int64.Int64
    requires 1 <= i <= b
    decreases b - i
  {
    if i < b then PowLoop(Int64.Mul(acc, base), base, i + 1, b) else acc
  }

  /** When the loop starts from `base` to the power `i` (wrapped), it ends with `base` to the
      power `b` (wrapped). */
  lemma {:induction false} PowLoopComputesPower(acc: Int64.Int64, base: Int64.Int64, i: Int64.Int64, b: Int64.Int64)
    requires 1 <= i <= b
    requires acc == Int64.Wrap(Int64.Power(base, i))
    ensures PowLoop(acc, base, i, b) == Int64.Wrap(Int64.Power(base, b))
    decreases b - i
  {
    if i < b {
      Int64.MulWrapped(Int64.Power(base, i), base);
      PowLoopComputesPower(Int64.Mul(acc, base), base, i + 1, b);
    }
  }

  /** For a positive exponent `pow` is the mathematical power wrapped to int64. */
  lemma PowIsWrappedPower(a: Int64.Int64, b: Int64.Int64)
    requires b >= 1
    ensures Pow(a, b) == Some(Int64.Wrap(Int64.Power(a, b)))
  {
    PowLoopComputesPower(a, a, 1, b);
  }

  /** `pow(a, 0)` is 1 for every `a`, 0 included. */
  lemma PowZero(a: Int64.Int64)
    ensures Pow(a, 0) == Some(1)
  {
  }

  /** `pow(a, 1)` is `a`. */
  lemma PowOne(a: Int64.Int64)
    ensures Pow(a, 1) == Some(a)
  {
    PowIsWrappedPower(a, 1);
  }

  /** One more factor: `pow(a, b + 1) == pow(a, b) * a` under int64 wrap-around. */
  lemma PowStep(a: Int64.Int64, b: Int64.Int64)
    requires 1 <= b < Int64.Max
    ensures Pow(a, b + 1) == Some(Int64.Mul(Pow(a, b).value, a))
  {
    PowIsWrappedPower(a, b);
    PowIsWrappedPower(a, b + 1);
    Int64.MulWrapped(Int64.Power(a, b), a);
  }

  /** `CheckInt`: the argument itself when it is an Integer, nil otherwise. */
  function CheckInt(v: Obj): (r: Obj)
    ensures r.Some? ==> r == v
  {
    if v.Some? && v.value.Integer? then v else None
  }

  /** `CheckFloat`: the argument itself when it is a Float, nil otherwise. */
  function CheckFloat(v: Obj): (r: Obj)
    ensures r.Some? ==> r == v
  {
    if v.Some? && v.value.Float? then v else None
  }

  /** `IsNumeric`: the argument is an Integer or a Float. */
  predicate IsNumeric(v: Obj) {
    if v.Some? && v.value.Integer? then true
    else if v.Some? && v.value.Float? then true
    else false
  }

  /** A value is numeric exactly when one of the two checks returns it, and the two checks
      never both do; nil is neither. */
  lemma NumericIffChecked(v: Obj)
    ensures IsNumeric(v) <==> CheckInt(v).Some? || CheckFloat(v).Some?
    ensures !(CheckInt(v).Some? && CheckFloat(v).Some?)
    ensures CheckInt(v).Some? <==> v.Some? && TypeOf(v.value) == IntegerTag
    ensures CheckFloat(v).Some? <==> v.Some? && TypeOf(v.value) == FloatTag
  {
  }
}

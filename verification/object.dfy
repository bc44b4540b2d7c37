/** The values of object/object.go: one variant per object type, the `Type()` tag of each,
    and the `Inspect()` rendering (Float and Function rendering are outside the model). */
module Object {
  import opened Wrappers
  import Ast
  import Int64
  import Decimal

  /** Environments live in a frame store; a closure refers to its frame by id. */
  type FrameId = nat

  /** The Go function a `Bltin` wraps: the `length` and `pow` builtins of eval/builtins.go. */
  datatype BuiltinFn = Length | PowFn

  /** A Go `object.Object` that is not nil. `Boolean` and `Null` stand for the shared TRUE,
      FALSE and NULL objects: the evaluator never makes any others, so comparing their
      pointers is comparing these values. A Float carries its number as a real; float64
      rounding is outside the model. */
  datatype Value =
    | Integer(n: Int64.Int64)
    | Float(x: real)
    | Boolean(b: bool)
    | Str(s: string)
    | Null
    | ReturnValue(inner: Obj)
    | Error(message: string)
    | Function(params: seq<Ast.Name>, body: Ast.Block, env: FrameId)
    | Builtin(fn: BuiltinFn)
    | List(elems: seq<Obj>)

  /** A Go `object.Object` interface value, which may be nil (`None`). */
  type Obj = Option<Value>

  /** The Go runtime panics the evaluator and the builtins can raise. */
  datatype Fault =
    | NilDereference       // a method called on a nil object, or a field of a nil pointer read
    | IndexOutOfRange      // a slice indexed past its length
    | FailedTypeAssertion  // a `.(T)` assertion on a value of another type
    | DivideByZero         // integer division by zero

  const IntegerTag: string := "INTEGER"
  const FloatTag: string := "FLOAT"
  const BooleanTag: string := "BOOLEAN"
  /** The string tag is spelled this way in the source. */
  const StringTag: string := "STIRNG"
  const NullTag: string := "NULL"
  const ReturnValueTag: string := "RETURN_VALUE"
  const ErrorTag: string := "ERROR"
  const FunctionTag: string := "FUNCTION"
  const BuiltinTag: string := "BLTIN_FN"
  const ListTag: string := "LIST"

  /** `Type()`: the fixed tag of each variant. */
  function TypeOf(v: Value): (t: string)
    ensures t == IntegerTag <==> v.Integer?
    ensures t == FloatTag <==> v.Float?
    ensures t == BooleanTag <==> v.Boolean?
    ensures t == StringTag <==> v.Str?
    ensures t == NullTag <==> v.Null?
    ensures t == ReturnValueTag <==> v.ReturnValue?
    ensures t == ErrorTag <==> v.Error?
    ensures t == FunctionTag <==> v.Function?
    ensures t == BuiltinTag <==> v.Builtin?
    ensures t == ListTag <==> v.List?
  {
    match v
    case Integer(_) => IntegerTag
    case Float(_) => FloatTag
    case Boolean(_) => BooleanTag
    case Str(_) => StringTag
    case Null => NullTag
    case ReturnValue(_) => ReturnValueTag
    case Error(_) => ErrorTag
    case Function(_, _, _) => FunctionTag
    case Builtin(_) => BuiltinTag
    case List(_) => ListTag
  }

  /** Two values are built by the same constructor. */
  predicate SameVariant(v: Value, w: Value) {
    && v.Integer? == w.Integer? && v.Float? == w.Float? && v.Boolean? == w.Boolean?
    && v.Str? == w.Str? && v.Null? == w.Null? && v.ReturnValue? == w.ReturnValue?
    && v.Error? == w.Error? && v.Function? == w.Function? && v.Builtin? == w.Builtin?
    && v.List? == w.List?
  }

  /** The tags are pairwise distinct: two values share a tag exactly when they are of the
      same variant. */
  lemma TagsDistinct(v: Value, w: Value)
    ensures TypeOf(v) == TypeOf(w) <==> SameVariant(v, w)
  {
  }

  /** `isError` of eval/eval.go: a non-nil object whose tag is ERROR. */
  predicate IsError(o: Obj) {
    o.Some? && TypeOf(o.value) == ErrorTag
  }

  /** The values whose rendering is modelled: no Float or Function anywhere inside. */
  predicate Printable(v: Value) {
    match v
    case Float(_) => false
    case Function(_, _, _) => false
    case ReturnValue(inner) => inner.None? || Printable(inner.value)
    case List(elems) => forall i :: 0 <= i < |elems| ==> elems[i].None? || Printable(elems[i].value)
    case _ => true
  }

  /** A nil object is wrapped somewhere in `v`, as a ReturnValue's payload or a list
      element, so `Inspect` reaches a nil interface. */
  predicate WrapsNil(v: Value) {
    match v
    case ReturnValue(inner) => NilOrWrapsNil(inner)
    case List(elems) => exists i :: 0 <= i < |elems| && NilOrWrapsNil(elems[i])
    case _ => false
  }

  /** The object is nil, or wraps a nil somewhere inside. */
  predicate NilOrWrapsNil(o: Obj) {
    o.None? || WrapsNil(o.value)
  }

  /** `Inspect()`. `None` is Go's nil-pointer panic, met when a ReturnValue or a list element
      is nil, however deep inside. */
  function Inspect(v: Value): (r: Option<string>)
    requires Printable(v)
    ensures r.None? <==> WrapsNil(v)
    ensures v.Integer? ==> r.Some? && |r.value| >= 1 && (r.value[0] == '-' <==> v.n < 0)
    ensures v.List? && r.Some? ==>
              |r.value| >= 8 && r.value[..6] == "list([" && r.value[|r.value| - 2..] == "])"
  {
    match v
    case Integer(n) => Some(Decimal.IntToString(n))
    case Boolean(b) => Some(if b then "true" else "false")
    case Str(s) => Some(s)
    case Null => Some("null")
    case ReturnValue(inner) => if inner.None? then None else Inspect(inner.value)
    case Error(message) => Some(message)
    case Builtin(_) => Some("builtin function")
    case List(elems) =>
      match InspectAll(elems)
      case None => None
      case Some(parts) => Some("list([" + Join(parts, ", ") + "])")
  }

  /** `Inspect()` called on an object that may be nil: a nil one panics. */
  function InspectObj(o: Obj): (r: Option<string>)
    requires o.None? || Printable(o.value)
    ensures r.None? <==> NilOrWrapsNil(o)
  {
    if o.None? then None else Inspect(o.value)
  }

  /** The renderings of the list elements, or `None` when one of them is nil or panics. */
  function InspectAll(elems: seq<Obj>): (r: Option<seq<string>>)
    requires forall i :: 0 <= i < |elems| ==> elems[i].None? || Printable(elems[i].value)
    ensures r.None? <==> exists i :: 0 <= i < |elems| && NilOrWrapsNil(elems[i])
    ensures r.Some? ==> |r.value| == |elems|
    ensures r.Some? ==> forall i :: 0 <= i < |elems| ==> InspectObj(elems[i]) == Some(r.value[i])
  {
    if |elems| == 0 then Some([])
    else
      match InspectObj(elems[0])
      case None => None
      case Some(first) =>
        match InspectAll(elems[1..])
        case None => None
        case Some(rest) => Some([first] + rest)
  }

  /** `strings.Join`. */
  function Join(parts: seq<string>, sep: string): (r: string)
    ensures |parts| == 0 ==> r == ""
    ensures |parts| == 1 ==> r == parts[0]
  {
    if |parts| == 0 then "" else if |parts| == 1 then parts[0]
    else parts[0] + sep + Join(parts[1..], sep)
  }

  /** Joining one more part appends the separator and that part. */
  lemma {:induction false} JoinSnoc(parts: seq<string>, last: string, sep: string)
    requires |parts| >= 1
    ensures Join(parts + [last], sep) == Join(parts, sep) + sep + last
  {
    if |parts| > 1 {
      assert (parts + [last])[1..] == parts[1..] + [last];
      JoinSnoc(parts[1..], last, sep);
    }
  }

  /** An Integer renders as a decimal that reads back as the same number. */
  lemma InspectIntegerReadsBack(n: Int64.Int64)
    ensures var s := Inspect(Integer(n)).value;
            Decimal.AllDigits(if s[0] == '-' then s[1..] else s) && Decimal.ReadSigned(s) == n
  {
    Decimal.IntRoundTrip(n);
  }

  /** The fixed renderings: Booleans as `true`/`false`, NULL as `null`, a String as its raw
      text without quotes, an Error as its message, a builtin as a constant, and the empty
      list as `list([])`. */
  lemma InspectScalars(b: bool, text: string, message: string, fn: BuiltinFn)
    ensures Inspect(Boolean(b)) == Some(if b then "true" else "false")
    ensures Inspect(Null) == Some("null")
    ensures Inspect(Str(text)) == Some(text)
    ensures Inspect(Error(message)) == Some(message)
    ensures Inspect(Builtin(fn)) == Some("builtin function")
    ensures Inspect(List([])) == Some("list([])")
  {
    assert Join([], ", ") == "";
    assert "list([" + "" + "])" == "list([])";
  }

  /** A ReturnValue renders as the value it wraps. */
  lemma InspectReturnValue(v: Value)
    requires Printable(v)
    ensures Inspect(ReturnValue(Some(v))) == Inspect(v)
  {
  }

  /** Appending an element to a non-empty list appends `", "` and that element's rendering
      inside the brackets. */
  lemma InspectListSnoc(elems: seq<Obj>, last: Value, body: string, text: string)
    requires |elems| >= 1 && Printable(List(elems)) && Printable(last)
    requires Inspect(List(elems)) == Some("list([" + body + "])")
    requires Inspect(last) == Some(text)
    ensures Printable(List(elems + [Some(last)]))
    ensures Inspect(List(elems + [Some(last)])) == Some("list([" + body + ", " + text + "])")
  {
    var parts := ListBodySnoc(elems, last, body, text);
    InspectListOf(elems + [Some(last)], parts + [text]);
    assert "list([" + (body + ", " + text) + "])" == "list([" + body + ", " + text + "])";
  }

  /** The element renderings of a list with one more element, and their join. */
  lemma ListBodySnoc(elems: seq<Obj>, last: Value, body: string, text: string) returns (parts: seq<string>)
    requires |elems| >= 1 && Printable(List(elems)) && Printable(last)
    requires Inspect(List(elems)) == Some("list([" + body + "])")
    requires Inspect(last) == Some(text)
    ensures forall i :: 0 <= i < |elems + [Some(last)]| ==>
              (elems + [Some(last)])[i].None? || Printable((elems + [Some(last)])[i].value)
    ensures InspectAll(elems + [Some(last)]) == Some(parts + [text])
    ensures Join(parts + [text], ", ") == body + ", " + text
  {
    parts := InspectAll(elems).value;
    InspectListOf(elems, parts);
    BracketsDetermineBody(body, Join(parts, ", "));
    InspectAllSnoc(elems, last, parts, text);
    JoinSnoc(parts, text, ", ");
  }

  /** A list with a nil element panics when rendered, wherever the nil sits. */
  lemma InspectListWithNil(elems: seq<Obj>, i: nat)
    requires Printable(List(elems)) && i < |elems| && elems[i].None?
    ensures Inspect(List(elems)).None?
  {
    assert NilOrWrapsNil(elems[i]);
  }

  /** A list whose elements render as `parts` renders as their join inside the brackets. */
  lemma InspectListOf(elems: seq<Obj>, parts: seq<string>)
    requires forall i :: 0 <= i < |elems| ==> elems[i].None? || Printable(elems[i].value)
    requires InspectAll(elems) == Some(parts)
    ensures Printable(List(elems))
    ensures Inspect(List(elems)) == Some("list([" + Join(parts, ", ") + "])")
  {
  }

  /** Two list renderings are equal only when their bodies are. */
  lemma BracketsDetermineBody(a: string, b: string)
    requires "list([" + a + "])" == "list([" + b + "])"
    ensures a == b
  {
    var s := "list([" + a + "])";
    assert a == s[6..|s| - 2];
    assert b == s[6..|s| - 2];
  }

  lemma {:induction false} InspectAllSnoc(elems: seq<Obj>, last: Value, parts: seq<string>, text: string)
    requires forall i :: 0 <= i < |elems| ==> elems[i].None? || Printable(elems[i].value)
    requires Printable(last)
    requires InspectAll(elems) == Some(parts) && Inspect(last) == Some(text)
    ensures forall i :: 0 <= i < |elems + [Some(last)]| ==>
              (elems + [Some(last)])[i].None? || Printable((elems + [Some(last)])[i].value)
    ensures InspectAll(elems + [Some(last)]) == Some(parts + [text])
  {
    var all := elems + [Some(last)];
    assert forall i :: 0 <= i < |all| ==> all[i].None? || Printable(all[i].value) by {
      forall i | 0 <= i < |all| ensures all[i].None? || Printable(all[i].value) {
        if i < |elems| { assert all[i] == elems[i]; }
      }
    }
    if |elems| == 0 {
      assert all == [Some(last)] && parts == [];
      assert InspectAll(all[1..]) == Some([]) by { assert all[1..] == []; }
      assert InspectAll(all) == Some([text] + []);
      assert [text] + [] == parts + [text];
    } else {
      assert all[1..] == elems[1..] + [Some(last)];
      assert all[0] == elems[0];
      var first := InspectObj(elems[0]).value;
      assert InspectAll(elems[1..]) == Some(parts[1..]) && parts[0] == first;
      InspectAllSnoc(elems[1..], last, parts[1..], text);
      assert parts + [text] == [first] + (parts[1..] + [text]);
    }
  }
}

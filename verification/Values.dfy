/** Runtime values and the operators on them (src/value.h, src/value.c, src/vm.c). */
module Values {
  import opened Decimal

  /** A C double. Its arithmetic is a parameter (`Prims`), so nothing here
      depends on rounding. */
  datatype Float = Float(bits: nat)

  datatype Prims = Prims(
    ofInt: int -> Float,
    add: (Float, Float) -> Float,
    sub: (Float, Float) -> Float,
    mul: (Float, Float) -> Float,
    div: (Float, Float) -> Float,
    neg: Float -> Float,
    eq: (Float, Float) -> bool,
    lt: (Float, Float) -> bool,
    le: (Float, Float) -> bool,
    isZero: Float -> bool,
    show: Float -> string)

  /** The three functions that `sky_vm_init` registers. */
  datatype Native = NativePrint | NativeStr | NativeLen

  datatype Value =
    | Nil
    | Bool(b: bool)
    | Int(n: int)
    | Flt(f: Float)
    | Str(s: string)
    | Arr(items: seq<Value>)
    | Fn(native: Native)

  datatype BinOp =
    | Add | Sub | Mul | Div | Mod
    | Equal | NotEqual | Less | LessEq | Greater | GreaterEq
    | And | Or

  datatype UnOp = Negate | Not

  /** The number of values the machine's stack holds (src/vm.h:9). */
  const STACK_MAX: nat := 1024

  /** One line of output: an OP_PRINT value, or the arguments of the native print. */
  datatype Printed = ByStatement(v: Value) | ByNative(args: seq<Value>)

  /** How a run ends. `Undefined` is signed overflow, which C leaves undefined. */
  datatype Ending = Ok | RuntimeError | Undefined

  datatype OpResult = Val(v: Value) | Err(ending: Ending)

  predicate InInt64(n: int) {
    INT64_MIN <= n <= INT64_MAX
  }

  function IntResult(n: int): OpResult {
    if InInt64(n) then Val(Int(n)) else Err(Undefined)
  }

  function Abs(n: int): int {
    if n < 0 then -n else n
  }

  /** C division: the quotient is truncated toward zero. */
  function TruncDiv(a: int, b: int): int
    requires b != 0
  {
    var q := Abs(a) / Abs(b);
    if (a < 0) == (b < 0) then q else -q
  }

  /** C remainder: it has the sign of the dividend. */
  function TruncMod(a: int, b: int): int
    requires b != 0
  {
    a - b * TruncDiv(a, b)
  }

  lemma TruncDivMod(a: int, b: int)
    requires b != 0
    ensures a == b * TruncDiv(a, b) + TruncMod(a, b)
    ensures Abs(TruncMod(a, b)) < Abs(b)
    ensures TruncMod(a, b) == 0 || (TruncMod(a, b) < 0 <==> a < 0)
  {
    var p, d := Abs(a), Abs(b);
    var q, r := p / d, p % d;
    assert p == d * q + r;
    assert b * TruncDiv(a, b) == if a < 0 then -(d * q) else d * q;
  }

  /** Truth for OP_AND and OP_OR: only nil and false are false. */
  predicate Truthy(v: Value) {
    match v
    case Bool(b) => b
    case Nil => false
    case _ => true
  }

  /** Truth for OP_JUMP_IF_FALSE: the integer 0 is false as well. */
  predicate Falsy(v: Value) {
    v == Nil || v == Bool(false) || v == Int(0)
  }

  /** `sky_values_equal`: arrays and functions are never equal, even to themselves. */
  predicate ValuesEqual(P: Prims, a: Value, b: Value) {
    match (a, b)
    case (Nil, Nil) => true
    case (Bool(x), Bool(y)) => x == y
    case (Int(x), Int(y)) => x == y
    case (Flt(x), Flt(y)) => P.eq(x, y)
    case (Str(x), Str(y)) => x == y
    case _ => false
  }

  /** The operators that mix integers and floats. */
  function Numeric(P: Prims, a: Value, b: Value,
                   ints: (int, int) -> OpResult, floats: (Float, Float) -> OpResult): OpResult {
    match (a, b)
    case (Int(x), Int(y)) => ints(x, y)
    case (Flt(x), Flt(y)) => floats(x, y)
    case (Int(x), Flt(y)) => floats(P.ofInt(x), y)
    case (Flt(x), Int(y)) => floats(x, P.ofInt(y))
    case _ => Err(RuntimeError)
  }

  function ApplyBinary(P: Prims, op: BinOp, a: Value, b: Value): OpResult {
    match op
    case Add =>
      if a.Str? && b.Str? then Val(Str(a.s + b.s))
      else Numeric(P, a, b, (x, y) => IntResult(x + y), (x, y) => Val(Flt(P.add(x, y))))
    case Sub => Numeric(P, a, b, (x, y) => IntResult(x - y), (x, y) => Val(Flt(P.sub(x, y))))
    case Mul => Numeric(P, a, b, (x, y) => IntResult(x * y), (x, y) => Val(Flt(P.mul(x, y))))
    case Div =>
      if b == Int(0) || (b.Flt? && P.isZero(b.f)) then Err(RuntimeError)
      else if a.Int? && b.Int? then IntResult(TruncDiv(a.n, b.n))
      else Numeric(P, a, b, (x, y) => Err(RuntimeError), (x, y) => Val(Flt(P.div(x, y))))
    case Mod =>
      if !a.Int? || !b.Int? || b.n == 0 then Err(RuntimeError)
      // the remainder is undefined in C whenever the quotient does not fit
      else if !InInt64(TruncDiv(a.n, b.n)) then Err(Undefined)
      else Val(Int(TruncMod(a.n, b.n)))
    case Equal => Val(Bool(ValuesEqual(P, a, b)))
    case NotEqual => Val(Bool(!ValuesEqual(P, a, b)))
    case Less => Numeric(P, a, b, (x, y) => Val(Bool(x < y)), (x, y) => Val(Bool(P.lt(x, y))))
    case Greater => Numeric(P, a, b, (x, y) => Val(Bool(x > y)), (x, y) => Val(Bool(P.lt(y, x))))
    // <= and >= do not mix integers with floats
    case LessEq =>
      if a.Int? && b.Int? then Val(Bool(a.n <= b.n))
      else if a.Flt? && b.Flt? then Val(Bool(P.le(a.f, b.f)))
      else Err(RuntimeError)
    case GreaterEq =>
      if a.Int? && b.Int? then Val(Bool(a.n >= b.n))
      else if a.Flt? && b.Flt? then Val(Bool(P.le(b.f, a.f)))
      else Err(RuntimeError)
    case And => Val(Bool(Truthy(a) && Truthy(b)))
    case Or => Val(Bool(Truthy(a) || Truthy(b)))
  }

  function ApplyUnary(P: Prims, op: UnOp, a: Value): OpResult {
    match op
    case Negate =>
      (match a
       case Int(n) => IntResult(-n)
       case Flt(f) => Val(Flt(P.neg(f)))
       case _ => Err(RuntimeError))
    case Not => Val(Bool(a == Nil || a == Bool(false)))
  }

  /** The text that the native `str` gives a value; snprintf keeps 255 characters. */
  function Show(P: Prims, v: Value): string {
    match v
    case Int(n) => IntText(n)
    case Flt(f) => var s := P.show(f); if |s| > 255 then s[..255] else s
    case Bool(b) => if b then "true" else "false"
    case Nil => "nil"
    case Str(s) => s
    case _ => "<object>"
  }

  function CallNative(P: Prims, fn: Native, args: seq<Value>): (Value, seq<Printed>) {
    match fn
    case NativePrint => (Nil, [ByNative(args)])
    case NativeStr => (Str(if args == [] then "" else Show(P, args[0])), [])
    case NativeLen =>
      (Int(if args == [] then 0
           else match args[0]
                case Str(s) => |s|
                case Arr(items) => |items|
                case _ => 0), [])
  }
}

/** What the machine's operators, branches and native functions compute, instruction by
    instruction (src/vm.c:245-476, src/vm.c:489-506). */
module Operators {
  import opened Decimal
  import opened Values
  import opened Bytecode
  import opened Machine
  import opened CompilerCorrect

  // ----- one instruction -----

  /** The machine is at instruction `op`, with `a` and `b` on top of `below`. */
  predicate Two(m: Vm, c: Conf, op: byte, below: seq<Value>, a: Value, b: Value) {
    && c.Running? && 0 <= c.pc < |m.code| && m.code[c.pc] == op
    && c.stack == below + [a, b] && |c.stack| <= STACK_MAX
  }

  predicate One(m: Vm, c: Conf, op: byte, below: seq<Value>, a: Value) {
    && c.Running? && 0 <= c.pc < |m.code| && m.code[c.pc] == op
    && c.stack == below + [a] && |c.stack| <= STACK_MAX
  }

  /** The step replaces the operands by `v`, and nothing else changes. */
  predicate Gives(m: Vm, c: Conf, below: seq<Value>, v: Value)
    requires c.Running?
  {
    m.Step(c) == Running(c.pc + 1, below + [v], c.globals, c.out)
  }

  predicate Fails(m: Vm, c: Conf, ending: Ending)
    requires c.Running?
  {
    m.Step(c) == Halted(ending, c.globals, c.out)
  }

  lemma OpcodeOf(op: BinOp)
    ensures IsBinaryOpcode(BinaryOpcode(op)) && BinaryOf(BinaryOpcode(op)) == op
  {
  }

  lemma BinaryStep(m: Vm, c: Conf, op: BinOp, below: seq<Value>, a: Value, b: Value)
    requires Two(m, c, BinaryOpcode(op), below, a, b)
    ensures
      match ApplyBinary(m.prims, op, a, b)
      case Val(v) => Gives(m, c, below, v)
      case Err(e) => Fails(m, c, e)
  {
    hide ApplyBinary, BinaryOpcode, BinaryOf;
    OpcodeOf(op);
    assert Vm.Popped(c.stack) == below + [a];
    assert Vm.Popped(below + [a]) == below;
  }

  lemma UnaryStep(m: Vm, c: Conf, op: UnOp, below: seq<Value>, a: Value)
    requires One(m, c, UnaryOpcode(op), below, a)
    ensures
      match ApplyUnary(m.prims, op, a)
      case Val(v) => Gives(m, c, below, v)
      case Err(e) => Fails(m, c, e)
  {
    hide ApplyUnary;
    assert Vm.Popped(c.stack) == below;
  }

  /** Different results are different steps. */
  lemma Distinct(m: Vm, c: Conf, below: seq<Value>, v: Value, w: Value)
    requires c.Running? && Gives(m, c, below, v) && Gives(m, c, below, w)
    ensures v == w
  {
    assert (below + [v])[|below|] == (below + [w])[|below|];
  }

  /** The operators that mix integers and floats, on two integers. */
  lemma OnIntegers(P: Prims, a: Value, b: Value)
    requires a.Int? && b.Int?
    ensures ApplyBinary(P, Add, a, b) == IntResult(a.n + b.n)
    ensures ApplyBinary(P, Sub, a, b) == IntResult(a.n - b.n)
    ensures ApplyBinary(P, Mul, a, b) == IntResult(a.n * b.n)
    ensures ApplyBinary(P, Less, a, b) == Val(Bool(a.n < b.n))
    ensures ApplyBinary(P, Greater, a, b) == Val(Bool(a.n > b.n))
  {
  }

  // ----- integers -----

  /** A sum of which one part is taken away leaves the other; a sum, a difference or a
      product that does not fit 64 bits is undefined. */
  lemma IntegerAddition(m: Vm, c: Conf, below: seq<Value>, x: int, y: int)
    requires Two(m, c, OP_ADD, below, Int(x), Int(y))
    ensures forall z :: Gives(m, c, below, Int(z)) <==> z - y == x && INT64_MIN <= z <= INT64_MAX
    ensures Fails(m, c, Undefined) <==> !(INT64_MIN <= x + y <= INT64_MAX)
  {
    hide Vm.Step, ApplyBinary;
    BinaryStep(m, c, Add, below, Int(x), Int(y));
    OnIntegers(m.prims, Int(x), Int(y));
    forall z | Gives(m, c, below, Int(z)) ensures z - y == x && INT64_MIN <= z <= INT64_MAX {
      if InInt64(x + y) {
        Distinct(m, c, below, Int(z), Int(x + y));
      }
    }
  }

  lemma IntegerSubtraction(m: Vm, c: Conf, below: seq<Value>, x: int, y: int)
    requires Two(m, c, OP_SUB, below, Int(x), Int(y))
    ensures forall z :: Gives(m, c, below, Int(z)) <==> z + y == x && INT64_MIN <= z <= INT64_MAX
    ensures Fails(m, c, Undefined) <==> !(INT64_MIN <= x - y <= INT64_MAX)
  {
    hide Vm.Step, ApplyBinary;
    BinaryStep(m, c, Sub, below, Int(x), Int(y));
    OnIntegers(m.prims, Int(x), Int(y));
    forall z | Gives(m, c, below, Int(z)) ensures z + y == x && INT64_MIN <= z <= INT64_MAX {
      if InInt64(x - y) {
        Distinct(m, c, below, Int(z), Int(x - y));
      }
    }
  }

  lemma IntegerMultiplication(m: Vm, c: Conf, below: seq<Value>, x: int, y: int)
    requires Two(m, c, OP_MUL, below, Int(x), Int(y))
    ensures forall z :: Gives(m, c, below, Int(z)) <==> z == x * y && INT64_MIN <= z <= INT64_MAX
    ensures Fails(m, c, Undefined) <==> !(INT64_MIN <= x * y <= INT64_MAX)
  {
    hide Vm.Step, ApplyBinary;
    BinaryStep(m, c, Mul, below, Int(x), Int(y));
    OnIntegers(m.prims, Int(x), Int(y));
    forall z | Gives(m, c, below, Int(z)) ensures z == x * y && INT64_MIN <= z <= INT64_MAX {
      if InInt64(x * y) {
        Distinct(m, c, below, Int(z), Int(x * y));
      }
    }
  }

  /** `r` is what is left of `x` after taking `y` away `q` times, toward zero. */
  predicate Divides(x: int, y: int, q: int, r: int) {
    x == y * q + r && Abs(r) < Abs(y) && (r == 0 || (r < 0 <==> x < 0))
  }

  lemma DividesOnce(x: int, y: int, q: int, r: int)
    requires y != 0 && Divides(x, y, q, r)
    ensures q == TruncDiv(x, y) && r == TruncMod(x, y)
  {
    hide TruncDiv, TruncMod;
    TruncDivMod(x, y);
    Apart(x, y, q, r, TruncDiv(x, y), TruncMod(x, y));
  }

  /** There is only one such quotient and remainder. */
  lemma Apart(x: int, y: int, q: int, r: int, q': int, r': int)
    requires y != 0 && Divides(x, y, q, r) && Divides(x, y, q', r')
    ensures q == q' && r == r'
  {
    hide Abs;
    Close(x, Abs(y), y * q, r, y * q', r');
    assert y * (q - q') == y * q - y * q';
    if q != q' {
      Grows(y, q - q');
    }
  }

  lemma Close(x: int, m: int, a: int, r: int, b: int, r': int)
    requires x == a + r == b + r' && Abs(r) < m && Abs(r') < m
    requires (r == 0 || (r < 0 <==> x < 0)) && (r' == 0 || (r' < 0 <==> x < 0))
    ensures Abs(a - b) < m
  {
  }

  lemma Grows(y: int, d: int)
    requires d != 0
    ensures Abs(y * d) >= Abs(y)
  {
    Product(Abs(y), Abs(d));
    assert y * d == if (y < 0) == (d < 0) then Abs(y) * Abs(d) else -(Abs(y) * Abs(d)) by {
      Signs(y, d);
    }
  }

  lemma Signs(y: int, d: int)
    ensures (-y) * d == -(y * d) && y * (-d) == -(y * d) && (-y) * (-d) == y * d
  {
  }

  lemma Product(a: nat, b: nat)
    requires b >= 1
    ensures a * b >= a
  {
    assert a * b == a * (b - 1) + a;
    assert a * (b - 1) >= 0;
  }

  /** Quotient and remainder of 64-bit integers are toward zero; only the smallest integer
      divided by -1 is undefined, and only division by zero an error. */
  lemma IntegerDivision(m: Vm, c: Conf, below: seq<Value>, x: int, y: int)
    requires Two(m, c, OP_DIV, below, Int(x), Int(y)) && InInt64(x) && InInt64(y)
    ensures Fails(m, c, RuntimeError) <==> y == 0
    ensures Fails(m, c, Undefined) <==> x == INT64_MIN && y == -1
    ensures forall q, r :: y != 0 && Divides(x, y, q, r) && q <= INT64_MAX ==> Gives(m, c, below, Int(q))
  {
    hide Vm.Step, TruncDiv, TruncMod;
    BinaryStep(m, c, Div, below, Int(x), Int(y));
    if y != 0 {
      QuotientFits(x, y);
      forall q, r | Divides(x, y, q, r) ensures q == TruncDiv(x, y) {
        DividesOnce(x, y, q, r);
      }
    }
  }

  lemma IntegerRemainder(m: Vm, c: Conf, below: seq<Value>, x: int, y: int)
    requires Two(m, c, OP_MOD, below, Int(x), Int(y)) && InInt64(x) && InInt64(y)
    ensures Fails(m, c, RuntimeError) <==> y == 0
    ensures Fails(m, c, Undefined) <==> x == INT64_MIN && y == -1
    ensures forall q, r :: y != 0 && Divides(x, y, q, r) && q <= INT64_MAX ==> Gives(m, c, below, Int(r))
  {
    hide Vm.Step, TruncDiv, TruncMod;
    BinaryStep(m, c, Mod, below, Int(x), Int(y));
    if y != 0 {
      QuotientFits(x, y);
      forall q, r | Divides(x, y, q, r) ensures q == TruncDiv(x, y) && r == TruncMod(x, y) {
        DividesOnce(x, y, q, r);
      }
    }
  }

  lemma QuotientFits(x: int, y: int)
    requires y != 0 && InInt64(x) && InInt64(y)
    ensures INT64_MIN <= TruncDiv(x, y)
    ensures TruncDiv(x, y) > INT64_MAX <==> x == INT64_MIN && y == -1
  {
    var q := Abs(x) / Abs(y);
    if Abs(y) >= 2 {
      assert q <= Abs(x) / 2 by { Halves(Abs(x), Abs(y)); }
    } else {
      assert q == Abs(x);
    }
  }

  lemma Halves(p: int, d: int)
    requires p >= 0 && d >= 2
    ensures 0 <= p / d <= p / 2
  {
    var q := p / d;
    assert p == d * q + p % d;
    assert d * q >= 2 * q by { assert (d - 2) * q >= 0; }
  }

  /** Comparisons of integers: exactly one of `<`, `==` and `>` holds, and `<=`, `>=` and
      `!=` are the negations of `>`, `<` and `==`. */
  lemma IntegerComparisons(m: Vm, c: Conf, op: byte, below: seq<Value>, x: int, y: int)
    requires Two(m, c, op, below, Int(x), Int(y)) && OP_EQUAL <= op <= OP_LESS_EQ
    ensures x < y ==>
      Gives(m, c, below, Bool(op == OP_LESS || op == OP_LESS_EQ || op == OP_NOT_EQUAL))
    ensures x == y ==>
      Gives(m, c, below, Bool(op == OP_EQUAL || op == OP_LESS_EQ || op == OP_GREATER_EQ))
    ensures x > y ==>
      Gives(m, c, below, Bool(op == OP_GREATER || op == OP_GREATER_EQ || op == OP_NOT_EQUAL))
  {
    hide Vm.Step;
    BinaryStep(m, c, BinaryOf(op), below, Int(x), Int(y));
  }

  // ----- floats, strings and other types -----

  predicate Number(v: Value) {
    v.Int? || v.Flt?
  }

  /** A number as a float. */
  function AsFloat(P: Prims, v: Value): Float
    requires Number(v)
  {
    if v.Int? then P.ofInt(v.n) else v.f
  }

  /** The same operators with a float among the operands. */
  lemma OnFloats(P: Prims, a: Value, b: Value)
    requires Number(a) && Number(b) && (a.Flt? || b.Flt?)
    ensures
      var x, y := AsFloat(P, a), AsFloat(P, b);
      && ApplyBinary(P, Add, a, b) == Val(Flt(P.add(x, y)))
      && ApplyBinary(P, Sub, a, b) == Val(Flt(P.sub(x, y)))
      && ApplyBinary(P, Mul, a, b) == Val(Flt(P.mul(x, y)))
      && ApplyBinary(P, Less, a, b) == Val(Bool(P.lt(x, y)))
      && ApplyBinary(P, Greater, a, b) == Val(Bool(P.lt(y, x)))
      && ApplyBinary(P, Div, a, b) ==
         if b == Int(0) || (b.Flt? && P.isZero(b.f)) then Err(RuntimeError) else Val(Flt(P.div(x, y)))
  {
  }

  /** And with something else among them. */
  lemma OnOthers(P: Prims, a: Value, b: Value)
    requires !Number(a) || !Number(b)
    ensures ApplyBinary(P, Add, a, b) == if a.Str? && b.Str? then Val(Str(a.s + b.s)) else Err(RuntimeError)
    ensures forall op :: op == Sub || op == Mul || op == Div || op == Less || op == Greater ==>
      ApplyBinary(P, op, a, b) == Err(RuntimeError)
  {
  }

  /** With a float among the operands the other is converted, and the left operand stays the left one. */
  lemma FloatArithmetic(m: Vm, c: Conf, op: byte, below: seq<Value>, a: Value, b: Value)
    requires Two(m, c, op, below, a, b) && Number(a) && Number(b) && (a.Flt? || b.Flt?)
    ensures
      var P, x, y := m.prims, AsFloat(m.prims, a), AsFloat(m.prims, b);
      && (op == OP_ADD ==> Gives(m, c, below, Flt(P.add(x, y))))
      && (op == OP_SUB ==> Gives(m, c, below, Flt(P.sub(x, y))))
      && (op == OP_MUL ==> Gives(m, c, below, Flt(P.mul(x, y))))
      && (op == OP_DIV && b != Int(0) && !(b.Flt? && P.isZero(b.f)) ==> Gives(m, c, below, Flt(P.div(x, y))))
      && (op == OP_LESS ==> Gives(m, c, below, Bool(P.lt(x, y))))
      && (op == OP_GREATER ==> Gives(m, c, below, Bool(P.lt(y, x))))
  {
    hide Vm.Step, ApplyBinary;
    OnFloats(m.prims, a, b);
    if IsBinaryOpcode(op) {
      BinaryStep(m, c, BinaryOf(op), below, a, b);
    }
  }

  /** `<=` and `>=` compare two floats, but not a float with an integer. */
  lemma FloatComparisons(m: Vm, c: Conf, op: byte, below: seq<Value>, x: Float, y: Float)
    requires Two(m, c, op, below, Flt(x), Flt(y))
    ensures op == OP_LESS_EQ ==> Gives(m, c, below, Bool(m.prims.le(x, y)))
    ensures op == OP_GREATER_EQ ==> Gives(m, c, below, Bool(m.prims.le(y, x)))
  {
    hide Vm.Step;
    if IsBinaryOpcode(op) {
      BinaryStep(m, c, BinaryOf(op), below, Flt(x), Flt(y));
    }
  }

  /** `+` puts the right string behind the left one. */
  lemma StringAddition(m: Vm, c: Conf, below: seq<Value>, s: string, t: string)
    requires Two(m, c, OP_ADD, below, Str(s), Str(t))
    ensures Gives(m, c, below, Str(s + t))
  {
    hide Vm.Step;
    BinaryStep(m, c, Add, below, Str(s), Str(t));
  }

  /** The pairs of operands that an operator accepts. */
  predicate Accepts(P: Prims, op: byte, a: Value, b: Value) {
    if op == OP_ADD then (Number(a) && Number(b)) || (a.Str? && b.Str?)
    else if op == OP_DIV then Number(a) && Number(b) && b != Int(0) && !(b.Flt? && P.isZero(b.f))
    else if op == OP_MOD then a.Int? && b.Int? && b.n != 0
    else if op == OP_LESS_EQ || op == OP_GREATER_EQ then (a.Int? && b.Int?) || (a.Flt? && b.Flt?)
    else if op == OP_SUB || op == OP_MUL || op == OP_LESS || op == OP_GREATER then Number(a) && Number(b)
    else true
  }

  /** Every other pair, and only such a pair, ends in a runtime error. */
  lemma RuntimeErrors(m: Vm, c: Conf, op: byte, below: seq<Value>, a: Value, b: Value)
    requires Two(m, c, op, below, a, b) && IsBinaryOpcode(op)
    ensures Fails(m, c, RuntimeError) <==> !Accepts(m.prims, op, a, b)
  {
    hide Vm.Step;
    BinaryStep(m, c, BinaryOf(op), below, a, b);
    Rejected(m.prims, op, a, b);
  }

  lemma Rejected(P: Prims, op: byte, a: Value, b: Value)
    requires IsBinaryOpcode(op)
    ensures ApplyBinary(P, BinaryOf(op), a, b) == Err(RuntimeError) <==> !Accepts(P, op, a, b)
  {
    hide TruncDiv, TruncMod, Numeric;
    if a.Int? && b.Int? {
      OnIntegers(P, a, b);
    } else if Number(a) && Number(b) {
      OnFloats(P, a, b);
    } else {
      OnOthers(P, a, b);
    }
  }

  /** Values of different types are never equal, and neither are arrays and functions. */
  lemma Equality(m: Vm, c: Conf, op: byte, below: seq<Value>, a: Value, b: Value)
    requires Two(m, c, op, below, a, b) && (op == OP_EQUAL || op == OP_NOT_EQUAL)
    ensures
      var same := if a.Flt? && b.Flt? then m.prims.eq(a.f, b.f) else a == b && !a.Arr? && !a.Fn?;
      Gives(m, c, below, Bool(same == (op == OP_EQUAL)))
  {
    hide Vm.Step;
    BinaryStep(m, c, BinaryOf(op), below, a, b);
  }

  /** For `and`, `or` and `not` nil and false are false, and everything else is true, also 0. */
  lemma Logic(m: Vm, c: Conf, op: byte, below: seq<Value>, a: Value, b: Value)
    requires Two(m, c, op, below, a, b)
    ensures
      var x, y := a !in {Nil, Bool(false)}, b !in {Nil, Bool(false)};
      && (op == OP_AND ==> Gives(m, c, below, Bool(x && y)))
      && (op == OP_OR ==> Gives(m, c, below, Bool(x || y)))
  {
    hide Vm.Step;
    if IsBinaryOpcode(op) {
      BinaryStep(m, c, BinaryOf(op), below, a, b);
    }
  }

  lemma Prefixes(m: Vm, c: Conf, op: byte, below: seq<Value>, a: Value)
    requires One(m, c, op, below, a)
    ensures op == OP_NOT ==> Gives(m, c, below, Bool(a in {Nil, Bool(false)}))
    ensures op == OP_NEGATE && a.Flt? ==> Gives(m, c, below, Flt(m.prims.neg(a.f)))
    ensures op == OP_NEGATE && a.Int? && InInt64(a.n) ==>
      if a.n == INT64_MIN then Fails(m, c, Undefined) else exists z :: z + a.n == 0 && Gives(m, c, below, Int(z))
    ensures op == OP_NEGATE ==> (Fails(m, c, RuntimeError) <==> !Number(a))
  {
    hide Vm.Step;
    if op == OP_NOT {
      UnaryStep(m, c, Not, below, a);
    } else if op == OP_NEGATE {
      UnaryStep(m, c, Negate, below, a);
      if a.Int? && InInt64(a.n) && a.n != INT64_MIN {
        assert Gives(m, c, below, Int(-a.n));
      }
    }
  }

  // ----- branches -----

  /** A condition that is nil, false or the integer 0 takes the jump, every other one does not;
      the condition stays on the stack. */
  lemma Branches(m: Vm, c: Conf, below: seq<Value>, v: Value)
    requires One(m, c, OP_JUMP_IF_FALSE, below, v) && c.pc + 2 < |m.code|
    ensures
      var skip: int := (m.code[c.pc + 1] as int) * 256 + m.code[c.pc + 2];
      m.Step(c) == c.(pc := c.pc + 3 + if v in {Nil, Bool(false), Int(0)} then skip else 0)
  {
  }

  // ----- native functions -----

  /** The machine is about to call `callee` with `args`. */
  predicate Calls(m: Vm, c: Conf, below: seq<Value>, callee: Value, args: seq<Value>) {
    && c.Running? && 0 <= c.pc && c.pc + 1 < |m.code| && m.code[c.pc] == OP_CALL && m.code[c.pc + 1] == |args|
    && c.stack == below + [callee] + args && |c.stack| <= STACK_MAX
  }

  /** The call leaves `v` in the place of function and arguments, and prints `printed`. */
  predicate Returns(m: Vm, c: Conf, below: seq<Value>, v: Value, printed: seq<Printed>)
    requires c.Running?
  {
    m.Step(c) == Running(c.pc + 2, below + [v], c.globals, c.out + printed)
  }

  lemma NativeStep(m: Vm, c: Conf, below: seq<Value>, fn: Native, args: seq<Value>)
    requires Calls(m, c, below, Fn(fn), args)
    ensures var r := CallNative(m.prims, fn, args); Returns(m, c, below, r.0, r.1)
  {
    hide CallNative;
    assert c.stack[|below|] == Fn(fn) && c.stack[..|below|] == below && c.stack[|below| + 1..] == args;
  }

  /** `len` counts the characters of a string and the elements of an array; it is 0 for
      everything else and without an argument. Further arguments are ignored. */
  lemma LenCounts(m: Vm, c: Conf, below: seq<Value>, args: seq<Value>)
    requires Calls(m, c, below, Fn(NativeLen), args)
    ensures
      var n := if args == [] then 0 else if args[0].Str? then |args[0].s| else if args[0].Arr? then
        |args[0].items| else 0;
      Returns(m, c, below, Int(n), [])
  {
    hide Vm.Step;
    NativeStep(m, c, below, NativeLen, args);
    assert c.out + [] == c.out;
  }

  /** `str` leaves strings alone and writes the other values out; an integer is written so
      that it reads back as itself. */
  lemma StrShows(m: Vm, c: Conf, below: seq<Value>, args: seq<Value>) returns (s: string)
    requires Calls(m, c, below, Fn(NativeStr), args)
    ensures Returns(m, c, below, Str(s), [])
    ensures args == [] ==> s == ""
    ensures args != [] ==>
      match args[0]
      case Nil => s == "nil"
      case Bool(b) => s == if b then "true" else "false"
      case Int(n) => InInt64(n) ==> ParseInt(s) == n
      case Flt(f) => s == m.prims.show(f)[..if |m.prims.show(f)| > 255 then 255 else |m.prims.show(f)|]
      case Str(t) => s == t
      case Arr(_) => s == "<object>"
      case Fn(_) => s == "<object>"
  {
    hide Vm.Step, IntText, ParseInt;
    NativeStep(m, c, below, NativeStr, args);
    s := if args == [] then "" else Show(m.prims, args[0]);
    if args != [] && args[0].Int? && InInt64(args[0].n) {
      ParseIntText(args[0].n, "");
      assert IntText(args[0].n) + "" == IntText(args[0].n);
    }
    assert args != [] && args[0].Flt? ==>
      m.prims.show(args[0].f)[..|m.prims.show(args[0].f)|] == m.prims.show(args[0].f);
  }

  /** `print` prints its arguments in order, as one line, and returns nil. */
  lemma PrintPrints(m: Vm, c: Conf, below: seq<Value>, args: seq<Value>)
    requires Calls(m, c, below, Fn(NativePrint), args)
    ensures Returns(m, c, below, Nil, [ByNative(args)])
  {
    hide Vm.Step;
    NativeStep(m, c, below, NativePrint, args);
  }

  /** Calling nil drops the arguments and gives nil; calling any other value is an error. */
  lemma OtherCalls(m: Vm, c: Conf, below: seq<Value>, callee: Value, args: seq<Value>)
    requires Calls(m, c, below, callee, args) && !callee.Fn?
    ensures callee == Nil ==> Returns(m, c, below, Nil, [])
    ensures Fails(m, c, RuntimeError) <==> callee != Nil
  {
    hide CallNative;
    assert c.stack[|below|] == callee && c.stack[..|below|] == below;
    assert c.out + [] == c.out;
  }

  /** The names under which the three are found at the start of a run. */
  lemma NamedNatives()
    ensures Boot().globals.Keys == {"print", "str", "len"}
    ensures Boot().globals["print"] == Fn(NativePrint) && Boot().globals["str"] == Fn(NativeStr)
    ensures Boot().globals["len"] == Fn(NativeLen)
  {
  }
}

/** The virtual machine as a transition function (sky_vm_execute, src/vm.c:146-566). */
module Machine {
  import opened Values
  import opened Bytecode

  /** A machine configuration. `Wild` is reached when the C code reads memory that
      holds no live code byte, constant or stack value. */
  datatype Conf =
    | Running(pc: int, stack: seq<Value>, globals: map<string, Value>, out: seq<Printed>)
    | Halted(ending: Ending, globals: map<string, Value>, out: seq<Printed>)
    | Wild

  /** What follows an opcode in the machine's own decoding. */
  function OperandBytes(op: byte): nat {
    if op == OP_CONSTANT || OP_GET_LOCAL <= op <= OP_SET_GLOBAL || op == OP_CALL || op == OP_ARRAY then 1
    else if OP_JUMP <= op <= OP_JUMP_BACK then 2
    else if op == OP_CONSTANT_LONG then 3
    else 0
  }

  /** A loaded chunk. `tolerant` only matters to strict runs: it lets OP_POP meet an
      empty stack, which the C code answers with a message and a nil. */
  datatype Vm = Vm(prims: Prims, code: seq<byte>, constants: seq<Value>, tolerant: bool) {

    /** `sky_vm_push`: a full stack drops the value. */
    static function Push(stack: seq<Value>, v: Value): seq<Value> {
      if |stack| >= STACK_MAX then stack else stack + [v]
    }

    /** `sky_vm_pop`: an empty stack yields nil. */
    static function Popped(stack: seq<Value>): seq<Value> {
      if stack == [] then [] else stack[..|stack| - 1]
    }

    static function Top(stack: seq<Value>): Value {
      if stack == [] then Nil else stack[|stack| - 1]
    }

    static function PushResult(c: Conf, stack: seq<Value>, r: OpResult): Conf
      requires c.Running?
    {
      match r
      case Val(v) => c.(stack := Push(stack, v))
      case Err(e) => Halted(e, c.globals, c.out)
    }

    /** The array that OP_ARRAY builds by popping `n` values, last element first. */
    static function PopMany(stack: seq<Value>, n: nat): seq<Value> {
      if |stack| >= n then stack[|stack| - n..]
      else seq(n - |stack|, _ => Nil) + stack
    }

    /** Instructions without an operand; `c.pc` is already past the opcode. */
    function Exec0(op: byte, c: Conf): Conf
      requires c.Running?
    {
      if op == OP_NOP then c
      else if op == OP_TRUE then c.(stack := Push(c.stack, Bool(true)))
      else if op == OP_FALSE then c.(stack := Push(c.stack, Bool(false)))
      else if op == OP_NIL then c.(stack := Push(c.stack, Nil))
      else if op == OP_POP then c.(stack := Popped(c.stack))
      else if op == OP_DUP then
        if c.stack == [] then Wild else c.(stack := Push(c.stack, Top(c.stack)))
      else if IsBinaryOpcode(op) then
        PushResult(c, Popped(Popped(c.stack)),
                   ApplyBinary(prims, BinaryOf(op), Top(Popped(c.stack)), Top(c.stack)))
      else if op == OP_NEGATE then
        PushResult(c, Popped(c.stack), ApplyUnary(prims, Negate, Top(c.stack)))
      else if op == OP_NOT then
        PushResult(c, Popped(c.stack), ApplyUnary(prims, Not, Top(c.stack)))
      else if op == OP_RETURN || op == OP_HALT then Halted(Ok, c.globals, c.out)
      else if op == OP_PRINT then
        c.(stack := Popped(c.stack), out := c.out + [ByStatement(Top(c.stack))])
      else if OP_GET_FIELD <= op <= OP_SET_INDEX || OP_MAP <= op <= OP_AWAIT then c
      else Halted(RuntimeError, c.globals, c.out)
    }

    /** Instructions with a one-byte operand `k`. */
    function Exec1(op: byte, k: byte, c: Conf): Conf
      requires c.Running? && OperandBytes(op) == 1
    {
      if op == OP_CONSTANT then
        if k >= |constants| then Wild else c.(stack := Push(c.stack, constants[k]))
      else if op == OP_GET_LOCAL then
        if k >= |c.stack| then Wild else c.(stack := Push(c.stack, c.stack[k]))
      else if op == OP_SET_LOCAL then
        if k >= |c.stack| then Wild else c.(stack := c.stack[k := Top(c.stack)])
      else if op == OP_GET_GLOBAL then
        if k >= |constants| then Wild
        else if !constants[k].Str? || constants[k].s !in c.globals then Halted(RuntimeError, c.globals, c.out)
        else c.(stack := Push(c.stack, c.globals[constants[k].s]))
      else if op == OP_SET_GLOBAL then
        if k >= |constants| then Wild
        else if !constants[k].Str? then Halted(RuntimeError, c.globals, c.out)
        else if c.stack == [] then Wild
        else Running(c.pc, c.stack, c.globals[constants[k].s := Top(c.stack)], c.out)
      else if op == OP_CALL then
        if k >= |c.stack| then Wild
        else
          var base := |c.stack| - k - 1;
          match c.stack[base]
          case Fn(fn) =>
            var (v, printed) := CallNative(prims, fn, c.stack[base + 1..]);
            c.(stack := Push(c.stack[..base], v), out := c.out + printed)
          case Nil => c.(stack := Push(c.stack[..base], Nil))
          case _ => Halted(RuntimeError, c.globals, c.out)
      else
        c.(stack := Push(if k <= |c.stack| then c.stack[..|c.stack| - k] else [], Arr(PopMany(c.stack, k))))
    }

    /** Jumps; `c.pc` is already past the operand. */
    function Exec2(op: byte, offset: nat, c: Conf): Conf
      requires c.Running? && OperandBytes(op) == 2
    {
      if op == OP_JUMP then c.(pc := c.pc + offset)
      else if op == OP_JUMP_BACK then c.(pc := c.pc - offset)
      else if c.stack == [] then Wild
      else if Falsy(Top(c.stack)) then c.(pc := c.pc + offset)
      else c
    }

    /** One turn of the interpreter loop. */
    function Step(c: Conf): Conf
      requires c.Running?
    {
      if !(0 <= c.pc < |code|) then Wild
      else
        var op := code[c.pc];
        var w := OperandBytes(op);
        var next := c.(pc := c.pc + 1 + w);
        if c.pc + w >= |code| then Wild
        else if w == 0 then Exec0(op, next)
        else if w == 1 then Exec1(op, code[c.pc + 1], next)
        else if w == 2 then Exec2(op, Short(code[c.pc + 1], code[c.pc + 2]), next)
        else
          var k := Short(code[c.pc + 1], code[c.pc + 2]) * 256 + code[c.pc + 3];
          next.(stack := Push(c.stack, if k < |constants| then constants[k] else Nil))
    }

    /** How many values the instruction at `c.pc` takes from the stack, and how many it adds. */
    static function Effect(op: byte, k: nat): (nat, nat) {
      if op == OP_POP || op == OP_PRINT then (1, 0)
      else if op == OP_NEGATE || op == OP_NOT || op == OP_SET_LOCAL || op == OP_SET_GLOBAL ||
        op == OP_JUMP_IF_FALSE then (1, 1)
      else if op == OP_DUP then (1, 2)
      else if IsBinaryOpcode(op) then (2, 1)
      else if op == OP_CALL then (k + 1, 1)
      else if op == OP_ARRAY then (k, 1)
      else if op == OP_CONSTANT || op == OP_CONSTANT_LONG || OP_TRUE <= op <= OP_NIL
              || op == OP_GET_LOCAL || op == OP_GET_GLOBAL then (0, 1)
      else (0, 0)
    }

    /** The step at `c` does not push onto a full stack, nor (unless tolerated) pop an empty one. */
    predicate Clean(c: Conf) {
      && c.Running?
      && 0 <= c.pc < |code|
      && var op := code[c.pc];
      && c.pc + OperandBytes(op) < |code|
      && var (pops, pushes) := Effect(op, if OperandBytes(op) == 1 then code[c.pc + 1] else 0);
      && (pops <= |c.stack| || (tolerant && op == OP_POP))
      && |c.stack| - pops + pushes <= STACK_MAX
    }

    /** The same machine, stopped at the first step that is not clean. */
    function StrictStep(c: Conf): Conf
      requires c.Running?
    {
      if Clean(c) then Step(c) else Wild
    }

    function Strict(n: nat, c: Conf): Conf {
      if n == 0 || !c.Running? then c else Strict(n - 1, StrictStep(c))
    }

    /** `n` turns of the interpreter loop. */
    function Run(n: nat, c: Conf): Conf {
      if n == 0 || !c.Running? then c else Run(n - 1, Step(c))
    }

    lemma StrictZero(c: Conf)
      ensures Strict(0, c) == c
    {
    }

    lemma {:induction false} StrictAdd(m: nat, n: nat, c: Conf)
      ensures Strict(m + n, c) == Strict(n, Strict(m, c))
    {
      if m > 0 && c.Running? {
        StrictAdd(m - 1, n, StrictStep(c));
      }
    }

    lemma {:induction false} RunAdd(m: nat, n: nat, c: Conf)
      ensures Run(m + n, c) == Run(n, Run(m, c))
    {
      if m > 0 && c.Running? {
        RunAdd(m - 1, n, Step(c));
      }
    }

    /** A strict run that is not wild is the machine's run, and every step of it is clean. */
    lemma {:induction false} StrictIsRun(n: nat, c: Conf)
      requires Strict(n, c) != Wild
      ensures Run(n, c) == Strict(n, c)
      ensures forall k: nat :: k < n && Run(k, c).Running? ==> Clean(Run(k, c))
    {
      if n > 0 && c.Running? {
        assert Strict(n, c) == Strict(n - 1, StrictStep(c));
        StrictIsRun(n - 1, Step(c));
        forall k: nat | k < n && Run(k, c).Running?
          ensures Clean(Run(k, c))
        {
          if k > 0 {
            assert Run(k, c) == Run(k - 1, Step(c));
          }
        }
      } else if !c.Running? {
        assert forall k: nat :: Run(k, c) == c;
      }
    }
  }
}

/** The interpreter (src/vm.c): a stack array with a top pointer, an instruction
    pointer, and the globals in a hash table. Each method is proved to do what the
    transition function of module Machine says. */
module VirtualMachine {
  import opened Values
  import opened Bytecode
  import opened Semantics
  import opened Machine
  import opened Tables

  /** What one turn of the loop reports. `Fault` stands for the accesses outside live
      memory that the C code would make. */
  datatype Signal = Continue | Stopped(ending: Ending) | Fault

  /** The stack without its `n` topmost values. */
  function Rest(stack: seq<Value>, n: nat): seq<Value> {
    if n <= |stack| then stack[..|stack| - n] else []
  }

  lemma PopNone(stack: seq<Value>)
    ensures Rest(stack, 0) == stack && Vm.PopMany(stack, 0) == []
  {
  }

  lemma PopOneMore(stack: seq<Value>, n: nat)
    ensures Rest(stack, n + 1) == Vm.Popped(Rest(stack, n))
    ensures Vm.PopMany(stack, n + 1) == [Vm.Top(Rest(stack, n))] + Vm.PopMany(stack, n)
  {
  }

  class SkyVM {
    const stack: array<Value>
    const globals: SkyTable
    var top: nat
    var pc: int
    var out: seq<Printed>

    ghost predicate Valid()
      reads this, globals, globals.entries
    {
      stack.Length == STACK_MAX && top <= STACK_MAX && globals.Valid() && globals.Unbroken()
    }

    ghost function Abstract(): Conf
      requires Valid()
      reads this, stack, globals, globals.entries
    {
      Running(pc, stack[..top], globals.Contents(), out)
    }

    /** `after`, given what was reported. */
    ghost predicate Is(r: Signal, after: Conf)
      requires Valid()
      reads this, stack, globals, globals.entries
    {
      match after
      case Running(_, _, _, _) => r == Continue && Abstract() == after
      case Halted(k, g, o) => r == Stopped(k) && globals.Contents() == g && out == o
      case Wild => r == Fault
    }

    /** sky_vm_init: the native functions are globals. */
    constructor (hash: string -> nat)
      ensures Valid() && fresh(stack) && fresh(globals) && fresh(globals.entries)
      ensures Abstract() == Running(0, [], NATIVES, [])
    {
      stack := new Value[STACK_MAX];
      globals := new SkyTable(hash);
      top, pc, out := 0, 0, [];
      new;
      var _ := globals.Set("print", Fn(NativePrint));
      var _ := globals.Set("str", Fn(NativeStr));
      var _ := globals.Set("len", Fn(NativeLen));
    }

    /** sky_vm_push */
    method Push(v: Value)
      requires Valid()
      modifies this`top, stack
      ensures Valid() && stack[..top] == Vm.Push(old(stack[..top]), v)
    {
      if top >= STACK_MAX {
        return;
      }
      stack[top] := v;
      top := top + 1;
    }

    /** sky_vm_pop */
    method Pop() returns (v: Value)
      requires Valid()
      modifies this`top
      ensures Valid() && stack[..top] == Vm.Popped(old(stack[..top])) && v == Vm.Top(old(stack[..top]))
    {
      if top == 0 {
        return Nil;
      }
      top := top - 1;
      v := stack[top];
      assert old(stack[..top])[..top] == stack[..top];
    }

    method PushResult(r: OpResult) returns (s: Signal)
      requires Valid()
      modifies this`top, stack
      ensures Valid() && Is(s, Vm.PushResult(old(Abstract()), old(stack[..top]), r))
    {
      match r
      case Val(v) =>
        Push(v);
        s := Continue;
      case Err(k) => s := Stopped(k);
    }

    method ExecBinary(prims: Prims, op: BinOp) returns (s: Signal)
      requires Valid()
      modifies this`top, stack
      ensures Valid()
      ensures
        var c := old(Abstract());
        Is(s, Vm.PushResult(c, Vm.Popped(Vm.Popped(c.stack)),
                            ApplyBinary(prims, op, Vm.Top(Vm.Popped(c.stack)), Vm.Top(c.stack))))
    {
      hide ApplyBinary;
      var b := Pop();
      var a := Pop();
      s := PushResult(ApplyBinary(prims, op, a, b));
    }

    method ExecUnary(prims: Prims, op: UnOp) returns (s: Signal)
      requires Valid()
      modifies this`top, stack
      ensures Valid()
      ensures
        var c := old(Abstract());
        Is(s, Vm.PushResult(c, Vm.Popped(c.stack), ApplyUnary(prims, op, Vm.Top(c.stack))))
    {
      hide ApplyUnary;
      var a := Pop();
      s := PushResult(ApplyUnary(prims, op, a));
    }

    /** Instructions without an operand. */
    method Exec0(m: Vm, op: byte) returns (s: Signal)
      requires Valid()
      modifies this, stack
      ensures Valid() && Is(s, m.Exec0(op, old(Abstract())))
    {
      hide ApplyBinary, ApplyUnary, BinaryOf;
      s := Continue;
      if op == OP_NOP {
      } else if op == OP_TRUE {
        Push(Bool(true));
      } else if op == OP_FALSE {
        Push(Bool(false));
      } else if op == OP_NIL {
        Push(Nil);
      } else if op == OP_POP {
        var _ := Pop();
      } else if op == OP_DUP {
        if top == 0 {
          s := Fault;
        } else {
          Push(stack[top - 1]);
        }
      } else if IsBinaryOpcode(op) {
        s := ExecBinary(m.prims, BinaryOf(op));
      } else if op == OP_NEGATE {
        s := ExecUnary(m.prims, Negate);
      } else if op == OP_NOT {
        s := ExecUnary(m.prims, Not);
      } else if op == OP_RETURN || op == OP_HALT {
        s := Stopped(Ok);
      } else if op == OP_PRINT {
        var v := Pop();
        out := out + [ByStatement(v)];
      } else if OP_GET_FIELD <= op <= OP_SET_INDEX || OP_MAP <= op <= OP_AWAIT {
      } else {
        s := Stopped(RuntimeError);
      }
    }

    method GetGlobal(m: Vm, k: byte) returns (s: Signal)
      requires Valid() && k < |m.constants|
      modifies this`top, stack
      ensures Valid() && Is(s, m.Exec1(OP_GET_GLOBAL, k, old(Abstract())))
    {
      if !m.constants[k].Str? {
        return Stopped(RuntimeError);
      }
      var found, v := globals.Get(m.constants[k].s);
      if !found {
        return Stopped(RuntimeError);
      }
      Push(v);
      s := Continue;
    }

    method SetGlobal(m: Vm, k: byte) returns (s: Signal)
      requires Valid() && k < |m.constants| && top > 0
      modifies globals`entries, globals`count, globals.entries
      ensures Valid() && (globals.entries == old(globals.entries) || fresh(globals.entries))
      ensures Is(s, m.Exec1(OP_SET_GLOBAL, k, old(Abstract())))
    {
      if !m.constants[k].Str? {
        return Stopped(RuntimeError);
      }
      var _ := globals.Set(m.constants[k].s, stack[top - 1]);
      s := Continue;
    }

    /** OP_CALL: natives run on the arguments in place; calling nil gives nil. */
    method Call(m: Vm, k: byte) returns (s: Signal)
      requires Valid() && k < top
      modifies this`top, this`out, stack
      ensures Valid() && Is(s, m.Exec1(OP_CALL, k, old(Abstract())))
    {
      hide CallNative;
      var base := top - k - 1;
      ghost var all := stack[..top];
      var callee := stack[base];
      assert all[..base] == stack[..base] && all[base + 1..] == stack[base + 1..top];
      match callee
      case Fn(fn) =>
        var (v, printed) := CallNative(m.prims, fn, stack[base + 1..top]);
        top := base;
        Push(v);
        out := out + printed;
        s := Continue;
      case Nil =>
        top := base;
        Push(Nil);
        s := Continue;
      case _ => s := Stopped(RuntimeError);
    }

    /** OP_ARRAY: the elements are popped from the last to the first. */
    method MakeArray(k: nat)
      requires Valid()
      modifies this`top, stack
      ensures Valid()
      ensures
        var was := old(stack[..top]);
        stack[..top] == Vm.Push(if k <= |was| then was[..|was| - k] else [], Arr(Vm.PopMany(was, k)))
    {
      hide Vm.PopMany, Vm.Push;
      ghost var was := stack[..top];
      var items := [];
      PopNone(was);
      for i := k downto 0
        invariant Valid() && i + |items| == k
        invariant stack[..top] == Rest(was, k - i)
        invariant items == Vm.PopMany(was, k - i)
      {
        PopOneMore(was, k - i - 1);
        var v := Pop();
        items := [v] + items;
      }
      Push(Arr(items));
    }

    /** Instructions with a one-byte operand. */
    method Exec1(m: Vm, op: byte, k: byte) returns (s: Signal)
      requires Valid() && OperandBytes(op) == 1
      modifies this, stack, globals, globals.entries
      ensures Valid() && (globals.entries == old(globals.entries) || fresh(globals.entries))
      ensures Is(s, m.Exec1(op, k, old(Abstract())))
    {
      hide CallNative;
      s := Continue;
      if op == OP_CONSTANT {
        if k >= |m.constants| {
          return Fault;
        }
        Push(m.constants[k]);
      } else if op == OP_GET_LOCAL {
        if k >= top {
          return Fault;
        }
        Push(stack[k]);
      } else if op == OP_SET_LOCAL {
        if k >= top {
          return Fault;
        }
        stack[k] := stack[top - 1];
      } else if op == OP_GET_GLOBAL {
        if k >= |m.constants| {
          return Fault;
        }
        s := GetGlobal(m, k);
      } else if op == OP_SET_GLOBAL {
        if k >= |m.constants| || (m.constants[k].Str? && top == 0) {
          return Fault;
        }
        if top == 0 {
          return Stopped(RuntimeError);
        }
        s := SetGlobal(m, k);
      } else if op == OP_CALL {
        if k >= top {
          return Fault;
        }
        s := Call(m, k);
      } else {
        MakeArray(k);
      }
    }

    /** Jumps. */
    method Exec2(m: Vm, op: byte, offset: nat) returns (s: Signal)
      requires Valid() && OperandBytes(op) == 2
      modifies this`pc
      ensures Valid() && Is(s, m.Exec2(op, offset, old(Abstract())))
    {
      s := Continue;
      if op == OP_JUMP {
        pc := pc + offset;
      } else if op == OP_JUMP_BACK {
        pc := pc - offset;
      } else if top == 0 {
        s := Fault;
      } else if Falsy(stack[top - 1]) {
        pc := pc + offset;
      }
    }

    /** One turn of the loop in sky_vm_execute. */
    method Turn(m: Vm) returns (s: Signal)
      requires Valid()
      modifies this, stack, globals, globals.entries
      ensures Valid() && (globals.entries == old(globals.entries) || fresh(globals.entries))
      ensures Is(s, m.Step(old(Abstract())))
    {
      hide Vm.Exec0, Vm.Exec1, Vm.Exec2;
      if pc < 0 || pc >= |m.code| {
        return Fault;
      }
      var at := pc;
      var op := m.code[at];
      var w := OperandBytes(op);
      if at + w >= |m.code| {
        return Fault;
      }
      pc := at + 1 + w;
      if w == 0 {
        s := Exec0(m, op);
      } else if w == 1 {
        s := Exec1(m, op, m.code[at + 1]);
      } else if w == 2 {
        s := Exec2(m, op, Short(m.code[at + 1], m.code[at + 2]));
      } else {
        var k := Short(m.code[at + 1], m.code[at + 2]) * 256 + m.code[at + 3];
        Push(if k < |m.constants| then m.constants[k] else Nil);
        s := Continue;
      }
    }

    /** sky_vm_execute, cut off after a given number of turns. */
    method Execute(m: Vm, turns: nat) returns (s: Signal)
      requires Valid()
      modifies this, stack, globals, globals.entries
      ensures Valid() && Is(s, m.Run(turns, old(Abstract())))
    {
      hide Vm.Step;
      ghost var start := Abstract();
      s := Continue;
      var i := 0;
      while i < turns && s == Continue
        invariant i <= turns && Valid() && (globals.entries == old(globals.entries) || fresh(globals.entries))
        invariant Is(s, m.Run(i, start))
      {
        m.RunAdd(i, 1, start);
        s := Turn(m);
        i := i + 1;
      }
      if i < turns {
        m.RunAdd(i, turns - i, start);
      }
    }
  }
}

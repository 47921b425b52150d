/** The main results about the compiler and the machine together. */
module CompilerCorrect {
  import opened Values
  import opened Bytecode
  import opened Ast
  import opened Semantics
  import opened CodeGen
  import opened Machine
  import opened ExprCorrect
  import opened StmtCorrect

  /** run_file (src/main.c:58-74): compile, append HALT, run. */
  function Load(P: Prims, program: seq<Stmt>, tolerant: bool): Vm {
    var g := GenProgram(program);
    Vm(P, g.code + [OP_HALT], g.s.constants, tolerant)
  }

  function Boot(): Conf {
    Running(0, [], NATIVES, [])
  }

  /** The programs that the compiler translates faithfully: the supported statements,
      used within the stack discipline, compiled without an error report, and short
      enough for 16-bit jumps (the compiler does not check backward ones). */
  predicate Compilable(program: seq<Stmt>) {
    && SupportedList(program)
    && AlignedList(program, 0, false, false)
    && !GenProgram(program).s.err
    && |GenProgram(program).code| < 0xffff
  }

  /** No statement ever needs more stack than the machine has. */
  ghost predicate NeverDeep(P: Prims, program: seq<Stmt>)
    requires SupportedList(program)
  {
    forall fuel: nat :: ExecProgram(P, program, fuel) != Deep
  }

  lemma SimProgram(P: Prims, program: seq<Stmt>, fuel: nat, tolerant: bool) returns (n: nat)
    requires Compilable(program) && (tolerant || BalancedList(program))
    ensures
      var m := Load(P, program, tolerant);
      match ExecProgram(P, program, fuel)
      case Stop(ending, globals, out) => m.Strict(n, Boot()) == Halted(ending, globals, out)
      case OutOfFuel => n >= fuel && m.Strict(n, Boot()).Running?
      case Deep => true
      case Next(_) => false
  {
    hide Vm.Strict, ExecList, GenStmts;
    var m := Load(P, program, tolerant);
    var s, st := Static([], [], false), Initial();
    var g := GenStmts(program, 0, s);
    assert At(m.code, 0, g.code + [OP_HALT]);
    AtSplit(m.code, 0, g.code, [OP_HALT]);
    assert Config(0, [], st, []) == Boot();
    var r;
    n, r := SimList(m, program, 0, false, false, s, 0, st, [], fuel);
    var o := ExecList(P, program, 0, st, fuel);
    if o.Next? {
      LandsConfig(m, n, Boot(), o, fuel, |g.code|, g.s, r);
      NextMatches(m, n, Boot(), o, fuel, |g.code|, g.s, r);
      StepStop(m, Config(|g.code|, r, o.st, []), OP_HALT);
      m.StrictAdd(n, 1, Boot());
      n := n + 1;
    }
  }

  /** Once a run has stopped it stays as it is, so two stopped runs agree. */
  lemma RunMonotone(m: Vm, c: Conf, j: nat, n: nat)
    requires j <= n
    ensures !m.Run(j, c).Running? ==> m.Run(n, c) == m.Run(j, c)
  {
    m.RunAdd(j, n - j, c);
  }

  /** What the machine does with a compiled program, for every amount of fuel. */
  lemma Simulates(P: Prims, program: seq<Stmt>, fuel: nat) returns (n: nat)
    requires Compilable(program)
    ensures
      var m := Load(P, program, true);
      match ExecProgram(P, program, fuel)
      case Stop(ending, globals, out) => m.Run(n, Boot()) == Halted(ending, globals, out)
      case OutOfFuel => n >= fuel && m.Run(n, Boot()).Running?
      case Deep => true
      case Next(_) => false
  {
    hide Vm.Strict, Vm.Run, ExecProgram, GenProgram;
    n := SimProgram(P, program, fuel, true);
    var m := Load(P, program, true);
    if m.Strict(n, Boot()) != Wild {
      m.StrictIsRun(n, Boot());
    }
  }

  /** The machine stops with this ending, globals and output. */
  ghost predicate MachineStops(m: Vm, k: Ending, globals: map<string, Value>, out: seq<Printed>) {
    exists n: nat :: m.Run(n, Boot()) == Halted(k, globals, out)
  }

  /** The program means this ending, globals and output. */
  ghost predicate ProgramStops(P: Prims, program: seq<Stmt>, k: Ending, globals: map<string, Value>, out: seq<Printed>)
    requires SupportedList(program)
  {
    exists fuel: nat :: ExecProgram(P, program, fuel) == Stop(k, globals, out)
  }

  ghost predicate MachineDiverges(m: Vm) {
    forall n: nat :: m.Run(n, Boot()).Running?
  }

  ghost predicate ProgramDiverges(P: Prims, program: seq<Stmt>)
    requires SupportedList(program)
  {
    forall fuel: nat :: ExecProgram(P, program, fuel) == OutOfFuel
  }

  /** Compiler correctness: the machine stops with exactly the ending, globals and
      output that the program's meaning gives, and runs forever exactly when the
      program diverges. It never reads memory that holds no live value. */
  lemma CompiledProgramIsCorrect(P: Prims, program: seq<Stmt>)
    requires Compilable(program) && NeverDeep(P, program)
    ensures
      var m := Load(P, program, true);
      && (forall k, globals, out ::
            MachineStops(m, k, globals, out) <==> ProgramStops(P, program, k, globals, out))
      && (MachineDiverges(m) <==> ProgramDiverges(P, program))
      && (forall n: nat :: m.Run(n, Boot()) != Wild)
  {
    hide Vm.Run, ExecProgram, GenProgram, SupportedList, AlignedList, MachineStops, ProgramStops, MachineDiverges,
         ProgramDiverges;
    var m := Load(P, program, true);
    forall k, globals, out
      ensures MachineStops(m, k, globals, out) <==> ProgramStops(P, program, k, globals, out)
    {
      StopsAlike(P, program, k, globals, out);
    }
    forall n: nat
      ensures m.Run(n, Boot()) != Wild
    {
      var _ := Progress(P, program, n);
    }
    DivergesAlike(P, program);
  }

  /** After `n` steps the machine is still going, or it has stopped the way the program does. */
  lemma Progress(P: Prims, program: seq<Stmt>, n: nat) returns (fuel: nat)
    requires Compilable(program) && NeverDeep(P, program)
    ensures
      match Load(P, program, true).Run(n, Boot())
      case Running(_, _, _, _) => true
      case Halted(k, globals, out) => ExecProgram(P, program, fuel) == Stop(k, globals, out)
      case Wild => false
  {
    hide Vm.Run, ExecProgram, GenProgram, SupportedList, AlignedList;
    fuel := n;
    var m := Load(P, program, true);
    var n1 := Simulates(P, program, fuel);
    assert ExecProgram(P, program, fuel) != Deep;
    if n <= n1 {
      RunMonotone(m, Boot(), n, n1);
    } else {
      RunMonotone(m, Boot(), n1, n);
    }
  }

  lemma StopsAlike(P: Prims, program: seq<Stmt>, k: Ending, globals: map<string, Value>, out: seq<Printed>)
    requires Compilable(program) && NeverDeep(P, program)
    ensures MachineStops(Load(P, program, true), k, globals, out) <==> ProgramStops(P, program, k, globals, out)
  {
    hide Vm.Run, ExecProgram, GenProgram, SupportedList, AlignedList;
    var m := Load(P, program, true);
    if n: nat :| m.Run(n, Boot()) == Halted(k, globals, out) {
      var fuel := Progress(P, program, n);
      assert ExecProgram(P, program, fuel) == Stop(k, globals, out);
    }
    if fuel: nat :| ExecProgram(P, program, fuel) == Stop(k, globals, out) {
      var n := Simulates(P, program, fuel);
      assert m.Run(n, Boot()) == Halted(k, globals, out);
    }
  }

  lemma DivergesAlike(P: Prims, program: seq<Stmt>)
    requires Compilable(program) && NeverDeep(P, program)
    ensures MachineDiverges(Load(P, program, true)) <==> ProgramDiverges(P, program)
  {
    hide Vm.Run, ExecProgram, GenProgram, SupportedList, AlignedList;
    var m := Load(P, program, true);
    if MachineDiverges(m) {
      forall fuel: nat
        ensures ExecProgram(P, program, fuel) == OutOfFuel
      {
        var n := Simulates(P, program, fuel);
        assert m.Run(n, Boot()).Running?;
      }
    }
    if ProgramDiverges(P, program) {
      forall n: nat
        ensures m.Run(n, Boot()).Running?
      {
        var n1 := Simulates(P, program, n);
        assert ExecProgram(P, program, n) == OutOfFuel;
        RunMonotone(m, Boot(), n, n1);
      }
    }
  }

  /** Stack discipline: no step of a compiled program pushes onto a full stack or takes
      values that are not there, but for an OP_POP that meets an empty stack; when every
      `if` has an `else` not even that happens. */
  lemma CompiledProgramIsClean(P: Prims, program: seq<Stmt>, n: nat, tolerant: bool)
    requires Compilable(program) && (tolerant || BalancedList(program)) && NeverDeep(P, program)
    ensures
      var m := Load(P, program, tolerant);
      m.Run(n, Boot()).Running? ==> m.Clean(m.Run(n, Boot()))
  {
    hide Vm.Run, Vm.Strict, Vm.Clean, ExecProgram, GenProgram, SupportedList, AlignedList, BalancedList;
    var m := Load(P, program, tolerant);
    var n1 := SimProgram(P, program, n + 1, tolerant);
    assert ExecProgram(P, program, n + 1) != Deep;
    m.StrictIsRun(n1, Boot());
    if n >= n1 {
      RunMonotone(m, Boot(), n1, n);
    }
  }
}

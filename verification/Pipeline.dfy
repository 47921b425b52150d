/** Running a source file (src/main.c): lexer, parser, compiler and machine in a row. */
module Pipeline {
  import opened Wrappers
  import opened Values
  import opened Ast
  import opened Syntax
  import opened Tokens
  import opened Lexing
  import opened LexExact
  import opened Grammar
  import opened ProgramComplete
  import opened Bytecode
  import opened Semantics
  import opened CodeGen
  import opened Machine
  import opened CompilerCorrect
  import L = LexRoundTrip
  import Lexer
  import Parser
  import Compiler
  import VirtualMachine

  /** What comes of a file; `Unfinished` after the given number of turns. */
  datatype Report =
    | ParseFailed
    | CompileFailed
    | Ended(ending: Ending, out: seq<Printed>)
    | Unfinished
    | Fault

  function Outcome(P: Prims, program: Option<seq<Stmt>>, turns: nat): Report {
    if program.None? then ParseFailed
    else if GenProgram(program.value).s.err then CompileFailed
    else
      match Load(P, program.value, true).Run(turns, Boot())
      case Running(_, _, _, _) => Unfinished
      case Halted(k, _, out) => Ended(k, out)
      case Wild => Fault
  }

  /** run_file, with a bound on the turns of the machine. */
  method RunFile(src: string, strtod: string -> Float, P: Prims, hash: string -> nat, turns: nat) returns (r: Report)
    requires Text(WithoutMark(src)).All(0).Some?
    ensures r == Outcome(P, Source(Text(WithoutMark(src)).All(0).value, strtod).ParseProgram(), turns)
  {
    hide Text.All, Vm.Run, GenProgram, Source.ParseProgram;
    var lexer := new Lexer.SkyLexer(src);
    var tokens := lexer.Drain();
    TokensEnded(WithoutMark(src));
    var parser := new Parser.SkyParser(Source(tokens, strtod));
    var program := parser.Parse();
    if program.None? {
      return ParseFailed;
    }
    var compiler := new Compiler.SkyCompiler();
    var ok := compiler.Compile(program.value);
    if !ok {
      return CompileFailed;
    }
    var machine := Vm(P, compiler.code + [OP_HALT], compiler.constants, true);
    var vm := new VirtualMachine.SkyVM(hash);
    var s := vm.Execute(machine, turns);
    r := match s
         case Continue => Unfinished
         case Stopped(k) => Ended(k, vm.out)
         case Fault => Fault;
  }

  lemma TokensEnded(src: string)
    requires Text(src).All(0).Some?
    ensures forall strtod :: Source(Text(src).All(0).value, strtod).Ended()
  {
  }

  /** A text without lexical errors is read as `program` if and only if it is a layout of
      tokens that are that program. */
  lemma SourceExactly(src: string, strtod: string -> Float, program: seq<Stmt>)
    requires Text(WithoutMark(src)).All(0).Some? && NoErrors(Text(WithoutMark(src)).All(0).value)
    ensures Source(Text(WithoutMark(src)).All(0).value, strtod).ParseProgram() == Some(program) <==>
      exists ts, gaps :: Lays(WithoutMark(src), ts, gaps) && IsProgram(Source(ts, strtod), program)
  {
    hide Text.All, Lays, IsProgram, Source.ParseProgram, WithoutMark;
    var read := Text(WithoutMark(src)).All(0).value;
    ParsesExactly(Source(read, strtod), program);
    LexesExactly(WithoutMark(src), read);
    if exists ts, gaps :: Lays(WithoutMark(src), ts, gaps) && IsProgram(Source(ts, strtod), program) {
      var ts, gaps :| Lays(WithoutMark(src), ts, gaps) && IsProgram(Source(ts, strtod), program);
      LaidIsRead(src, ts, gaps);
    }
  }

  lemma LaidIsRead(src: string, ts: seq<Token>, gaps: seq<string>)
    requires Lays(WithoutMark(src), ts, gaps)
    ensures Text(WithoutMark(src)).All(0) == Some(ts)
  {
    hide Text.All, L.TextOf, L.Laid, L.Writable, WithoutMark;
    var T := Text(WithoutMark(src));
    assert T.src[0..] == T.src;
    L.TextReads(T, 0, ts, gaps);
  }

  /** From text to output: a text of a program in the compilable fragment ends with this
      output exactly when its meaning does, and is never refused and never faults. */
  lemma TextToOutput(P: Prims, src: string, strtod: string -> Float, ts: seq<Token>, gaps: seq<string>,
                     program: seq<Stmt>, k: Ending, out: seq<Printed>)
    requires Compilable(program) && NeverDeep(P, program)
    requires Lays(WithoutMark(src), ts, gaps) && IsProgram(Source(ts, strtod), program)
    ensures
      var read := Text(WithoutMark(src)).All(0);
      && read.Some?
      && (forall turns: nat ::
        Outcome(P, Source(read.value, strtod).ParseProgram(), turns) !in {ParseFailed, CompileFailed, Fault})
      && ((exists turns: nat :: Outcome(P, Source(read.value, strtod).ParseProgram(), turns) == Ended(k, out))
          <==> exists globals :: ProgramStops(P, program, k, globals, out))
  {
    hide Text.All, Vm.Run, GenProgram, Source.ParseProgram, ProgramStops, SupportedList, IsProgram, Lays, WithoutMark;
    LaidIsRead(src, ts, gaps);
    ParsesExactly(Source(ts, strtod), program);
    CompiledProgramIsCorrect(P, program);
    var m := Load(P, program, true);
    assert forall turns: nat :: m.Run(turns, Boot()) != Wild;
    if exists turns: nat :: Outcome(P, Some(program), turns) == Ended(k, out) {
      var turns: nat :| Outcome(P, Some(program), turns) == Ended(k, out);
      var globals := m.Run(turns, Boot()).globals;
      assert MachineStops(m, k, globals, out);
      assert ProgramStops(P, program, k, globals, out);
    }
    if exists globals :: ProgramStops(P, program, k, globals, out) {
      var globals :| ProgramStops(P, program, k, globals, out);
      assert MachineStops(m, k, globals, out);
      var n: nat :| m.Run(n, Boot()) == Halted(k, globals, out);
      assert Outcome(P, Some(program), n) == Ended(k, out);
    }
  }
}

/** Big-step meaning of the statements that the compiler implements.

    Expressions always finish. Statements take a fuel argument that only loop
    iterations spend, so a program diverges when no fuel is enough. */
module Semantics {
  import opened Wrappers
  import opened Values
  import opened Ast

  /** `names` and `vals` are the block variables in scope, innermost last. `left`
      counts the stack values that top-level declarations have left behind; it
      decides nothing but whether a statement still fits the machine's stack. */
  datatype State = State(
    names: seq<string>,
    vals: seq<Value>,
    globals: map<string, Value>,
    out: seq<Printed>,
    left: nat)

  datatype Outcome =
    | Next(st: State)
    | Stop(ending: Ending, globals: map<string, Value>, out: seq<Printed>)
    | Deep       // the next statement would need more than STACK_MAX values
    | OutOfFuel

  datatype EResult = EVal(v: Value, st: State) | EFail(ending: Ending, failed: State)

  datatype EResults = EVals(vs: seq<Value>, st: State) | EsFail(ending: Ending, failed: State)

  predicate WellFormed(st: State) {
    |st.names| == |st.vals|
  }

  /** The innermost declaration of `name`, or -1. */
  function FindLast(names: seq<string>, name: string): (i: int)
    ensures -1 <= i < |names|
    ensures i >= 0 ==> names[i] == name
    ensures forall j :: i < j < |names| ==> names[j] != name
  {
    if names == [] then -1
    else if names[|names| - 1] == name then |names| - 1
    else FindLast(names[..|names| - 1], name)
  }

  // ----- the supported language -----

  predicate SupportedExpr(e: Expr)
    decreases e, 1
  {
    match e
    case Binary(_, l, r) => SupportedExpr(l) && SupportedExpr(r)
    case Unary(_, x) => SupportedExpr(x)
    case Call(f, args) => SupportedExpr(f) && |args| <= 255 && SupportedExprs(args)
    case ArrayLit(es) => |es| <= 255 && SupportedExprs(es)
    case Assign(t, x) => t.Ident? && SupportedExpr(x)
    case Dot(_, _) => false
    case Index(_, _) => false
    case _ => true
  }

  predicate SupportedExprs(es: seq<Expr>)
    decreases es, 0
  {
    es == [] || (SupportedExpr(es[0]) && SupportedExprs(es[1..]))
  }

  predicate SupportedOption(e: Option<Expr>) {
    e.Some? ==> SupportedExpr(e.value)
  }

  predicate Supported(s: Stmt)
    decreases s, 1
  {
    match s
    case Let(_, init) => SupportedOption(init)
    case If(c, t, e) =>
      && SupportedExpr(c)
      && t.Block? && Supported(t)
      && (e.Some? ==> (e.value.Block? || e.value.If?) && Supported(e.value))
    case While(c, b) => SupportedExpr(c) && b.Block? && SupportedList(b.stmts)
    case For(_, a, z, b) => SupportedExpr(a) && SupportedExpr(z) && b.Block? && SupportedList(b.stmts)
    case Block(ss) => SupportedList(ss)
    case Function(_, _, _, _) => true
    case Return(r) => SupportedOption(r)
    case Print(e) => SupportedExpr(e)
    case ExprStmt(e) => SupportedExpr(e)
    case _ => false
  }

  predicate SupportedList(ss: seq<Stmt>)
    decreases ss, 0
  {
    ss == [] || (Supported(ss[0]) && SupportedList(ss[1..]))
  }

  // ----- expressions -----

  function Max(a: nat, b: nat): nat {
    if a < b then b else a
  }

  /** How many stack values evaluating `e` needs. */
  function Need(e: Expr): (n: nat)
    ensures n >= 1
    decreases e, 1
  {
    match e
    case Binary(_, l, r) => Max(Need(l), 1 + Need(r))
    case Unary(_, x) => Need(x)
    case Call(f, args) => Max(Need(f), 1 + NeedAll(args))
    case ArrayLit(es) => Max(1, NeedAll(es))
    case Assign(_, x) => Need(x)
    case _ => 1
  }

  function NeedAll(es: seq<Expr>): nat
    decreases es, 0
  {
    if es == [] then 0 else Max(Need(es[0]), 1 + NeedAll(es[1..]))
  }

  function NeedOption(e: Option<Expr>): nat {
    if e.Some? then Need(e.value) else 1
  }

  /** Same block variables, same number of values left behind. */
  predicate SameShape(a: State, b: State) {
    a.names == b.names && |a.vals| == |b.vals| && a.left == b.left
  }

  function Store(st: State, name: string, v: Value): (st': State)
    requires WellFormed(st)
    ensures WellFormed(st') && SameShape(st, st')
  {
    var i := FindLast(st.names, name);
    if i >= 0 then st.(vals := st.vals[i := v])
    else st.(globals := st.globals[name := v])
  }

  function Eval(P: Prims, e: Expr, st: State): (r: EResult)
    requires SupportedExpr(e) && WellFormed(st)
    ensures r.EVal? ==> WellFormed(r.st) && SameShape(st, r.st)
    decreases e, 1
  {
    match e
    case IntLit(n) => EVal(Int(n), st)
    case FloatLit(f) => EVal(Flt(f), st)
    case StringLit(t) => EVal(Str(t), st)
    case BoolLit(b) => EVal(Bool(b), st)
    case NilLit => EVal(Nil, st)
    case Ident(x) =>
      var i := FindLast(st.names, x);
      if i >= 0 then EVal(st.vals[i], st)
      else if x in st.globals then EVal(st.globals[x], st)
      else EFail(RuntimeError, st)
    case Binary(op, l, r) =>
      // both operands are evaluated, also for `and` and `or`
      (match Eval(P, l, st)
       case EFail(k, f) => EFail(k, f)
       case EVal(a, st1) =>
         match Eval(P, r, st1)
         case EFail(k, f) => EFail(k, f)
         case EVal(b, st2) => Finish(ApplyBinary(P, op, a, b), st2))
    case Unary(op, x) =>
      (match Eval(P, x, st)
       case EFail(k, f) => EFail(k, f)
       case EVal(a, st1) => Finish(ApplyUnary(P, op, a), st1))
    case Call(f, args) =>
      (match Eval(P, f, st)
       case EFail(k, f) => EFail(k, f)
       case EVal(callee, st1) =>
         match EvalAll(P, args, st1)
         case EsFail(k, f) => EFail(k, f)
         case EVals(vs, st2) => Invoke(P, callee, vs, st2))
    case ArrayLit(es) =>
      (match EvalAll(P, es, st)
       case EsFail(k, f) => EFail(k, f)
       case EVals(vs, st1) => EVal(Arr(vs), st1))
    case Assign(t, x) =>
      (match Eval(P, x, st)
       case EFail(k, f) => EFail(k, f)
       case EVal(v, st1) => EVal(v, Store(st1, t.name, v)))
  }

  function Finish(r: OpResult, st: State): EResult {
    match r
    case Val(v) => EVal(v, st)
    case Err(k) => EFail(k, st)
  }

  /** Calls reach natives only; a user function is nil, and calling nil gives nil. */
  function Invoke(P: Prims, callee: Value, args: seq<Value>, st: State): EResult {
    match callee
    case Fn(fn) =>
      var (v, printed) := CallNative(P, fn, args);
      EVal(v, st.(out := st.out + printed))
    case Nil => EVal(Nil, st)
    case _ => EFail(RuntimeError, st)
  }

  function EvalAll(P: Prims, es: seq<Expr>, st: State): (r: EResults)
    requires SupportedExprs(es) && WellFormed(st)
    ensures r.EVals? ==> |r.vs| == |es| && WellFormed(r.st) && SameShape(st, r.st)
    decreases es, 0
  {
    if es == [] then EVals([], st)
    else
      match Eval(P, es[0], st)
      case EFail(k, f) => EsFail(k, f)
      case EVal(v, st1) =>
        match EvalAll(P, es[1..], st1)
        case EsFail(k, f) => EsFail(k, f)
        case EVals(vs, st2) => EVals([v] + vs, st2)
  }

  function EvalOption(P: Prims, e: Option<Expr>, st: State): (r: EResult)
    requires SupportedOption(e) && WellFormed(st)
    ensures r.EVal? ==> WellFormed(r.st) && SameShape(st, r.st)
  {
    if e.Some? then Eval(P, e.value, st) else EVal(Nil, st)
  }

  // ----- statements -----

  predicate Room(st: State, need: nat) {
    st.left + |st.vals| + need <= STACK_MAX
  }

  function Failed(k: Ending, st: State): Outcome {
    Stop(k, st.globals, st.out)
  }

  /** A declaration: a block variable inside a block, a global at the top level. */
  function Declare(name: string, v: Value, depth: nat, st: State): State {
    if depth > 0 then st.(names := st.names + [name], vals := st.vals + [v])
    else st.(globals := st.globals[name := v], left := st.left + 1)
  }

  /** The code of an `if` without `else` pops once more than it pushes when the
      condition holds, which costs one of the values left behind, if there are any. */
  function DropLeft(o: Outcome): Outcome {
    if o.Next? && o.st.left > 0 then Next(o.st.(left := o.st.left - 1)) else o
  }

  /** Leaving a scope that was entered with `n` block variables. */
  function Leave(o: Outcome, n: nat): Outcome {
    if o.Next? && n <= |o.st.names| && n <= |o.st.vals|
    then Next(o.st.(names := o.st.names[..n], vals := o.st.vals[..n]))
    else o
  }

  function Exec(P: Prims, s: Stmt, depth: nat, st: State, fuel: nat): (o: Outcome)
    requires Supported(s) && WellFormed(st)
    ensures o.Next? ==> WellFormed(o.st)
    decreases fuel, s, 2
  {
    match s
    case Let(name, init) =>
      if !Room(st, NeedOption(init)) then Deep
      else
        (match EvalOption(P, init, st)
         case EFail(k, f) => Failed(k, f)
         case EVal(v, st1) => Next(Declare(name, v, depth, st1)))
    case If(c, t, e) =>
      if !Room(st, Need(c)) then Deep
      else
        (match Eval(P, c, st)
         case EFail(k, f) => Failed(k, f)
         case EVal(v, st1) =>
           if e.None? then
             if Falsy(v) then Next(st1) else DropLeft(Exec(P, t, depth, st1, fuel))
           else Exec(P, if Falsy(v) then e.value else t, depth, st1, fuel))
    case While(c, b) =>
      if fuel == 0 then OutOfFuel
      else if !Room(st, Need(c)) then Deep
      else
        (match Eval(P, c, st)
         case EFail(k, f) => Failed(k, f)
         case EVal(v, st1) =>
           if Falsy(v) then Next(st1)
           else
             var o := ExecList(P, b.stmts, depth, st1, fuel);
             if o.Next? then Exec(P, s, depth, o.st, fuel - 1) else o)
    case For(name, a, z, b) =>
      if !Room(st, Need(a)) then Deep
      else
        (match Eval(P, a, st)
         case EFail(k, f) => Failed(k, f)
         case EVal(v, st1) =>
           Leave(ForLoop(P, s, |st.names|, depth + 1, Declare(name, v, depth + 1, st1), fuel), |st.names|))
    case Block(ss) =>
      Leave(ExecList(P, ss, depth + 1, st, fuel), |st.names|)
    case Function(name, _, _, _) =>
      // the body is not compiled: the name is bound to nil
      if !Room(st, 1) then Deep
      else Next(Declare(name, Nil, 0, st))
    case Return(r) =>
      if !Room(st, NeedOption(r)) then Deep
      else
        (match EvalOption(P, r, st)
         case EFail(k, f) => Failed(k, f)
         case EVal(_, st1) => Stop(Ok, st1.globals, st1.out))
    case Print(e) =>
      if !Room(st, Need(e)) then Deep
      else
        (match Eval(P, e, st)
         case EFail(k, f) => Failed(k, f)
         case EVal(v, st1) => Next(st1.(out := st1.out + [ByStatement(v)])))
    case ExprStmt(e) =>
      if !Room(st, Need(e)) then Deep
      else
        (match Eval(P, e, st)
         case EFail(k, f) => Failed(k, f)
         case EVal(_, st1) => Next(st1))
  }

  function ExecList(P: Prims, ss: seq<Stmt>, depth: nat, st: State, fuel: nat): (o: Outcome)
    requires SupportedList(ss) && WellFormed(st)
    ensures o.Next? ==> WellFormed(o.st)
    decreases fuel, ss, 0
  {
    if ss == [] then Next(st)
    else
      var o := Exec(P, ss[0], depth, st, fuel);
      if o.Next? then ExecList(P, ss[1..], depth, o.st, fuel) else o
  }

  /** The loop of `for`: block variable `k` counts up while it is below the end
      expression, which is evaluated again before every iteration. */
  function ForLoop(P: Prims, s: Stmt, k: nat, depth: nat, st: State, fuel: nat): (o: Outcome)
    requires s.For? && Supported(s) && WellFormed(st)
    ensures o.Next? ==> WellFormed(o.st)
    decreases fuel, s, 1
  {
    if fuel == 0 then OutOfFuel
    else if k >= |st.vals| || !Room(st, 1 + Need(s.end)) then Deep
    else
      match Eval(P, s.end, st)
      case EFail(ending, f) => Failed(ending, f)
      case EVal(bound, st1) =>
        match ApplyBinary(P, Less, st.vals[k], bound)
        case Err(ending) => Failed(ending, st1)
        case Val(v) =>
          if Falsy(v) then Next(st1) else ForRound(P, s, k, depth, st1, fuel)
  }

  /** One iteration: the body, then the increment, then the loop again. */
  function ForRound(P: Prims, s: Stmt, k: nat, depth: nat, st: State, fuel: nat): (o: Outcome)
    requires fuel > 0 && s.For? && Supported(s) && WellFormed(st)
    ensures o.Next? ==> WellFormed(o.st)
    decreases fuel, s, 0
  {
    var o := ExecList(P, s.body.stmts, depth, st, fuel);
    if !o.Next? then o
    else if k >= |o.st.vals| then Deep
    else
      match ApplyBinary(P, Add, o.st.vals[k], Int(1))
      case Err(ending) => Failed(ending, o.st)
      case Val(w) => ForLoop(P, s, k, depth, o.st.(vals := o.st.vals[k := w]), fuel - 1)
  }

  /** A whole program, run with the globals that `sky_vm_init` provides. */
  function Initial(): State {
    State([], [], NATIVES, [], 0)
  }

  const NATIVES: map<string, Value> :=
    map["print" := Fn(NativePrint), "str" := Fn(NativeStr), "len" := Fn(NativeLen)]

  /** A program that runs off its end stops normally, like one that returns. */
  function ExecProgram(P: Prims, program: seq<Stmt>, fuel: nat): (o: Outcome)
    requires SupportedList(program)
    ensures !o.Next?
  {
    match ExecList(P, program, 0, Initial(), fuel)
    case Next(st) => Stop(Ok, st.globals, st.out)
    case o => o
  }
}

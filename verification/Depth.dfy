/** A check on the program text that rules out stack overflow. */
module Depth {
  import opened Values
  import opened Ast
  import opened Semantics
  import opened StmtCorrect
  import opened CompilerCorrect

  /** Every loop leaves the stack as high as it found it. */
  predicate Steady(s: Stmt, depth: nat)
    decreases s, 1
  {
    match s
    case If(_, t, e) => Steady(t, depth) && (e.Some? ==> Steady(e.value, depth))
    case While(_, b) =>
      b.Block? && (depth > 0 ==> NoDeclaration(b.stmts)) && !LeavesAny(b.stmts, depth) && SteadyList(b.stmts, depth)
    case For(_, _, _, b) => b.Block? && NoDeclaration(b.stmts) && SteadyList(b.stmts, depth + 1)
    case Block(ss) => SteadyList(ss, depth + 1)
    case Function(_, _, _, _) => depth == 0
    case _ => true
  }

  predicate SteadyList(ss: seq<Stmt>, depth: nat)
    decreases ss, 0
  {
    ss == [] || (Steady(ss[0], depth) && SteadyList(ss[1..], depth))
  }

  /** How much higher the stack is behind `s`. */
  function Growth(s: Stmt, depth: nat): nat {
    if Leaves(s, depth) || Scopes(s, depth) then 1 else 0
  }

  /** The greatest height of the stack while `s` runs, started at height `h`. */
  function Height(s: Stmt, depth: nat, h: nat): nat
    decreases s, 1
  {
    match s
    case Let(_, init) => h + NeedOption(init)
    case If(c, t, e) =>
      Max(h + Need(c), Max(Height(t, depth, h), if e.Some? then Height(e.value, depth, h) else h))
    case While(c, b) => Max(h + Need(c), if b.Block? then HeightList(b.stmts, depth, h) else h)
    case For(_, a, z, b) =>
      Max(h + Need(a), Max(h + 2 + Need(z), if b.Block? then HeightList(b.stmts, depth + 1, h + 1) else h))
    case Block(ss) => HeightList(ss, depth + 1, h)
    case Function(_, _, _, _) => h + 1
    case Return(r) => h + NeedOption(r)
    case Print(e) => h + Need(e)
    case ExprStmt(e) => h + Need(e)
    case _ => h
  }

  function HeightList(ss: seq<Stmt>, depth: nat, h: nat): nat
    decreases ss, 0
  {
    if ss == [] then h
    else Max(Height(ss[0], depth, h), HeightList(ss[1..], depth, h + Growth(ss[0], depth)))
  }

  /** No overflow; block variables and left-behind values grow as the text says. */
  predicate Bounded(o: Outcome, st: State, leaves: bool, scopes: bool) {
    match o
    case Next(st') =>
      && |st'.vals| == |st.vals| + (if scopes then 1 else 0)
      && st'.left <= st.left + (if leaves then 1 else 0)
    case Deep => false
    case _ => true
  }

  predicate BoundedAfterList(o: Outcome, st: State, ss: seq<Stmt>, depth: nat) {
    match o
    case Next(st') =>
      && |st'.vals| >= |st.vals|
      && (depth == 0 || NoDeclaration(ss) ==> |st'.vals| == |st.vals|)
      && (!LeavesAny(ss, depth) ==> st'.left <= st.left)
    case Deep => false
    case _ => true
  }

  lemma LeavesFacts(s: Stmt, depth: nat)
    requires Steady(s, depth)
    ensures Leaves(s, depth) <==> depth == 0 && (s.Let? || s.Function?)
  {
  }

  lemma {:induction false} BoundedStmt(P: Prims, s: Stmt, depth: nat, st: State, fuel: nat, h: nat)
    requires Supported(s) && Steady(s, depth) && WellFormed(st)
    requires st.left + |st.vals| <= h && Height(s, depth, h) <= STACK_MAX
    ensures Bounded(Exec(P, s, depth, st, fuel), st, Leaves(s, depth), Scopes(s, depth))
    decreases fuel, s, 2
  {
    hide Eval, Need, SupportedExpr, Leaves, LeavesAny, SteadyList, HeightList, ExecList, SupportedList;
    LeavesFacts(s, depth);
    match s
    case If(c, t, e) =>
      if Room(st, Need(c)) {
        var r := Eval(P, c, st);
        if r.EVal? {
          LeavesFacts(t, depth);
          BoundedStmt(P, t, depth, r.st, fuel, h);
          if e.Some? {
            LeavesFacts(e.value, depth);
            BoundedStmt(P, e.value, depth, r.st, fuel, h);
          }
        }
      }
    case While(_, _) => BoundedWhile(P, s, depth, st, fuel, h);
    case For(name, a, z, b) =>
      if Room(st, Need(a)) {
        var r := Eval(P, a, st);
        if r.EVal? {
          BoundedLoop(P, s, |st.names|, depth + 1, Declare(name, r.v, depth + 1, r.st), fuel, h);
        }
      }
    case Block(ss) =>
      LeavesNothing(ss, depth + 1);
      BoundedList(P, ss, depth + 1, st, fuel, h);
    case _ =>
  }

  lemma {:induction false} BoundedWhile(P: Prims, s: Stmt, depth: nat, st: State, fuel: nat, h: nat)
    requires s.While? && Supported(s) && Steady(s, depth) && WellFormed(st)
    requires st.left + |st.vals| <= h && Height(s, depth, h) <= STACK_MAX
    ensures Bounded(Exec(P, s, depth, st, fuel), st, false, false)
    decreases fuel, s, 1
  {
    hide Eval, Need, SupportedExpr, Leaves, LeavesAny, SteadyList, HeightList, ExecList, SupportedList;
    if fuel > 0 && Room(st, Need(s.cond)) {
      var r := Eval(P, s.cond, st);
      if r.EVal? && !Falsy(r.v) {
        BoundedList(P, s.body.stmts, depth, r.st, fuel, h);
        var o := ExecList(P, s.body.stmts, depth, r.st, fuel);
        if o.Next? {
          BoundedWhile(P, s, depth, o.st, fuel - 1, h);
        }
      }
    }
  }

  lemma {:induction false} BoundedList(P: Prims, ss: seq<Stmt>, depth: nat, st: State, fuel: nat, h: nat)
    requires SupportedList(ss) && SteadyList(ss, depth) && WellFormed(st)
    requires st.left + |st.vals| <= h && HeightList(ss, depth, h) <= STACK_MAX
    ensures BoundedAfterList(ExecList(P, ss, depth, st, fuel), st, ss, depth)
    decreases fuel, ss, 0
  {
    hide Exec, Height, Supported, Steady;
    if ss != [] {
      BoundedStmt(P, ss[0], depth, st, fuel, h);
      var o := Exec(P, ss[0], depth, st, fuel);
      if o.Next? {
        BoundedList(P, ss[1..], depth, o.st, fuel, h + Growth(ss[0], depth));
        NoDeclarationTail(ss);
      }
    }
  }

  lemma NoDeclarationTail(ss: seq<Stmt>)
    requires ss != []
    ensures NoDeclaration(ss) ==> !ss[0].Let? && !ss[0].Function? && NoDeclaration(ss[1..])
  {
  }

  lemma {:induction false} BoundedLoop(P: Prims, s: Stmt, k: nat, depth: nat, st: State, fuel: nat, h: nat)
    requires s.For? && Supported(s) && s.body.Block? && depth > 0 && WellFormed(st)
    requires NoDeclaration(s.body.stmts) && SteadyList(s.body.stmts, depth)
    requires |st.vals| == k + 1 && st.left + k <= h
    requires h + 2 + Need(s.end) <= STACK_MAX && HeightList(s.body.stmts, depth, h + 1) <= STACK_MAX
    ensures Bounded(ForLoop(P, s, k, depth, st, fuel), st, false, false)
    decreases fuel, s, 0
  {
    hide Eval, Need, SupportedExpr, LeavesAny, SteadyList, HeightList, ExecList, SupportedList, ApplyBinary;
    if fuel > 0 {
      var r := Eval(P, s.end, st);
      if r.EVal? {
        LeavesNothing(s.body.stmts, depth);
        BoundedList(P, s.body.stmts, depth, r.st, fuel, h + 1);
        var o := ExecList(P, s.body.stmts, depth, r.st, fuel);
        if o.Next? {
          var w := ApplyBinary(P, Add, o.st.vals[k], Int(1));
          if w.Val? {
            BoundedLoop(P, s, k, depth, o.st.(vals := o.st.vals[k := w.v]), fuel - 1, h);
          }
        }
      }
    }
  }

  /** A program whose loops are steady and whose text never needs more than the
      machine's stack never overflows it. */
  lemma ShallowProgram(P: Prims, program: seq<Stmt>)
    requires SupportedList(program) && SteadyList(program, 0) && HeightList(program, 0, 0) <= STACK_MAX
    ensures NeverDeep(P, program)
  {
    hide ExecList;
    forall fuel: nat
      ensures ExecProgram(P, program, fuel) != Deep
    {
      BoundedList(P, program, 0, Initial(), fuel, 0);
    }
  }
}

/** How often a `for` loop over a range runs its body. */
module RangeLoop {
  import opened Wrappers
  import opened Values
  import opened Ast
  import opened Semantics

  // ----- statements that leave a name alone -----

  /** `e` does not assign `x`. */
  predicate KeepsInExpr(e: Expr, x: string)
    requires SupportedExpr(e)
    decreases e, 1
  {
    match e
    case Binary(_, l, r) => KeepsInExpr(l, x) && KeepsInExpr(r, x)
    case Unary(_, a) => KeepsInExpr(a, x)
    case Call(f, args) => KeepsInExpr(f, x) && KeepsInExprs(args, x)
    case ArrayLit(es) => KeepsInExprs(es, x)
    case Assign(t, a) => t != Ident(x) && KeepsInExpr(a, x)
    case _ => true
  }

  predicate KeepsInExprs(es: seq<Expr>, x: string)
    requires SupportedExprs(es)
    decreases es, 0
  {
    es == [] || (KeepsInExpr(es[0], x) && KeepsInExprs(es[1..], x))
  }

  predicate KeepsInOption(e: Option<Expr>, x: string)
    requires SupportedOption(e)
  {
    e.Some? ==> KeepsInExpr(e.value, x)
  }

  /** `s` neither assigns nor declares `x`. */
  predicate Keeps(s: Stmt, x: string)
    requires Supported(s)
    decreases s, 1
  {
    match s
    case Let(name, init) => name != x && KeepsInOption(init, x)
    case If(c, t, e) => KeepsInExpr(c, x) && Keeps(t, x) && (e.Some? ==> Keeps(e.value, x))
    case While(c, b) => KeepsInExpr(c, x) && KeepsAll(b.stmts, x)
    case For(name, a, z, b) => name != x && KeepsInExpr(a, x) && KeepsInExpr(z, x) && KeepsAll(b.stmts, x)
    case Block(ss) => KeepsAll(ss, x)
    case Function(name, _, _, _) => name != x
    case Return(r) => KeepsInOption(r, x)
    case Print(e) => KeepsInExpr(e, x)
    case ExprStmt(e) => KeepsInExpr(e, x)
  }

  predicate KeepsAll(ss: seq<Stmt>, x: string)
    requires SupportedList(ss)
    decreases ss, 0
  {
    ss == [] || (Keeps(ss[0], x) && KeepsAll(ss[1..], x))
  }

  /** The value of the variable that `x` names. */
  function Lookup(st: State, x: string): Option<Value>
    requires WellFormed(st)
  {
    var i := FindLast(st.names, x);
    if i >= 0 then Some(st.vals[i])
    else if x in st.globals then Some(st.globals[x])
    else None
  }

  /** From `st` to `st'` block variables were at most added, and `x` is the same variable
      with the same value. */
  predicate Unchanged(st: State, st': State, x: string) {
    && WellFormed(st) && WellFormed(st') && st.names <= st'.names
    && FindLast(st'.names, x) == FindLast(st.names, x) && Lookup(st', x) == Lookup(st, x)
  }

  lemma {:induction false} FindLastUnique(names: seq<string>, x: string, i: int)
    requires -1 <= i < |names| && (i >= 0 ==> names[i] == x) && forall j :: i < j < |names| ==> names[j] != x
    ensures FindLast(names, x) == i
  {
  }

  lemma StoreKeeps(st: State, name: string, v: Value, x: string)
    requires WellFormed(st) && name != x
    ensures Unchanged(st, Store(st, name, v), x)
  {
    hide FindLast;
  }

  lemma {:induction false} EvalKeeps(P: Prims, e: Expr, st: State, x: string)
    requires SupportedExpr(e) && WellFormed(st) && KeepsInExpr(e, x)
    ensures Eval(P, e, st).EVal? ==> Unchanged(st, Eval(P, e, st).st, x)
    decreases e, 1
  {
    hide FindLast, ApplyBinary, ApplyUnary, CallNative, Lookup;
    match e
    case Binary(_, l, r) =>
      EvalKeeps(P, l, st, x);
      var a := Eval(P, l, st);
      if a.EVal? {
        EvalKeeps(P, r, a.st, x);
      }
    case Unary(_, a) => EvalKeeps(P, a, st, x);
    case Call(f, args) =>
      EvalKeeps(P, f, st, x);
      var a := Eval(P, f, st);
      if a.EVal? {
        EvalAllKeeps(P, args, a.st, x);
        var b := EvalAll(P, args, a.st);
        if b.EVals? {
          InvokeKeeps(P, a.v, b.vs, b.st, x);
        }
      }
    case ArrayLit(es) => EvalAllKeeps(P, es, st, x);
    case Assign(t, a) =>
      EvalKeeps(P, a, st, x);
      var r := Eval(P, a, st);
      if r.EVal? {
        StoreKeeps(r.st, t.name, r.v, x);
      }
    case _ =>
  }

  lemma InvokeKeeps(P: Prims, callee: Value, args: seq<Value>, st: State, x: string)
    requires WellFormed(st)
    ensures Invoke(P, callee, args, st).EVal? ==> Unchanged(st, Invoke(P, callee, args, st).st, x)
  {
    hide FindLast, CallNative;
  }

  lemma {:induction false} EvalAllKeeps(P: Prims, es: seq<Expr>, st: State, x: string)
    requires SupportedExprs(es) && WellFormed(st) && KeepsInExprs(es, x)
    ensures EvalAll(P, es, st).EVals? ==> Unchanged(st, EvalAll(P, es, st).st, x)
    decreases es, 0
  {
    hide FindLast, Eval, Lookup, SupportedExpr, KeepsInExpr;
    if es != [] {
      EvalKeeps(P, es[0], st, x);
      var a := Eval(P, es[0], st);
      if a.EVal? {
        EvalAllKeeps(P, es[1..], a.st, x);
      }
    }
  }

  lemma OptionKeeps(P: Prims, e: Option<Expr>, st: State, x: string)
    requires SupportedOption(e) && WellFormed(st) && KeepsInOption(e, x)
    ensures EvalOption(P, e, st).EVal? ==> Unchanged(st, EvalOption(P, e, st).st, x)
  {
    hide FindLast, Eval, Lookup, SupportedExpr, KeepsInExpr;
    if e.Some? {
      EvalKeeps(P, e.value, st, x);
    }
  }

  lemma DeclareKeeps(name: string, v: Value, depth: nat, st: State, x: string)
    requires WellFormed(st) && name != x
    ensures Unchanged(st, Declare(name, v, depth, st), x)
  {
    hide FindLast;
    var i := FindLast(st.names, x);
    FindLastUnique(st.names + [name], x, i);
  }

  /** Leaving a scope that kept `x`. */
  lemma LeaveKeeps(st: State, o: Outcome, x: string)
    requires WellFormed(st) && (o.Next? ==> Unchanged(st, o.st, x))
    ensures Leave(o, |st.names|).Next? ==>
      Unchanged(st, Leave(o, |st.names|).st, x) && Leave(o, |st.names|).st.names == st.names
  {
    hide FindLast;
  }

  lemma DropKeeps(st: State, o: Outcome, x: string)
    requires WellFormed(st) && (o.Next? ==> Unchanged(st, o.st, x))
    ensures DropLeft(o).Next? ==> Unchanged(st, DropLeft(o).st, x)
  {
    hide FindLast;
  }

  lemma OutKeeps(st: State, st': State, out: seq<Printed>, x: string)
    requires Unchanged(st, st', x)
    ensures Unchanged(st, st'.(out := out), x)
  {
    hide FindLast;
  }

  lemma {:induction false} ExecKeeps(P: Prims, s: Stmt, depth: nat, st: State, fuel: nat, x: string)
    requires Supported(s) && WellFormed(st) && Keeps(s, x)
    ensures Exec(P, s, depth, st, fuel).Next? ==> Unchanged(st, Exec(P, s, depth, st, fuel).st, x)
    decreases fuel, s, 2
  {
    hide FindLast, Lookup, Eval, EvalOption, SupportedExpr, SupportedList, SupportedOption, KeepsInExpr,
         KeepsInOption, KeepsAll, Leave, DropLeft, Need, Room, ExecList, ForLoop;
    match s
    case Let(name, init) =>
      OptionKeeps(P, init, st, x);
      var r := EvalOption(P, init, st);
      if r.EVal? {
        DeclareKeeps(name, r.v, depth, r.st, x);
      }
    case If(c, t, e) =>
      EvalKeeps(P, c, st, x);
      var r := Eval(P, c, st);
      if r.EVal? {
        ExecKeeps(P, t, depth, r.st, fuel, x);
        DropKeeps(r.st, Exec(P, t, depth, r.st, fuel), x);
        if e.Some? {
          ExecKeeps(P, e.value, depth, r.st, fuel, x);
        }
      }
    case While(_, _) => WhileKeeps(P, s, depth, st, fuel, x);
    case For(name, a, _, _) =>
      EvalKeeps(P, a, st, x);
      var r := Eval(P, a, st);
      if r.EVal? {
        DeclareKeeps(name, r.v, depth + 1, r.st, x);
        LoopKeeps(P, s, |st.names|, depth + 1, Declare(name, r.v, depth + 1, r.st), fuel, x);
        LeaveKeeps(st, ForLoop(P, s, |st.names|, depth + 1, Declare(name, r.v, depth + 1, r.st), fuel), x);
      }
    case Block(ss) =>
      ExecListKeeps(P, ss, depth + 1, st, fuel, x);
      LeaveKeeps(st, ExecList(P, ss, depth + 1, st, fuel), x);
    case Function(name, _, _, _) => DeclareKeeps(name, Nil, 0, st, x);
    case Return(r) =>
    case Print(e) =>
      EvalKeeps(P, e, st, x);
      var r := Eval(P, e, st);
      if r.EVal? {
        OutKeeps(st, r.st, r.st.out + [ByStatement(r.v)], x);
      }
    case ExprStmt(e) => EvalKeeps(P, e, st, x);
  }

  lemma {:induction false} WhileKeeps(P: Prims, s: Stmt, depth: nat, st: State, fuel: nat, x: string)
    requires s.While? && Supported(s) && WellFormed(st) && Keeps(s, x)
    ensures Exec(P, s, depth, st, fuel).Next? ==> Unchanged(st, Exec(P, s, depth, st, fuel).st, x)
    decreases fuel, s, 1
  {
    hide FindLast, Lookup, Eval, SupportedExpr, SupportedList, KeepsInExpr, KeepsAll, Need, Room, ExecList;
    if fuel > 0 {
      EvalKeeps(P, s.cond, st, x);
      var r := Eval(P, s.cond, st);
      if r.EVal? {
        ExecListKeeps(P, s.body.stmts, depth, r.st, fuel, x);
        var o := ExecList(P, s.body.stmts, depth, r.st, fuel);
        if o.Next? {
          WhileKeeps(P, s, depth, o.st, fuel - 1, x);
        }
      }
    }
  }

  lemma {:induction false} ExecListKeeps(P: Prims, ss: seq<Stmt>, depth: nat, st: State, fuel: nat, x: string)
    requires SupportedList(ss) && WellFormed(st) && KeepsAll(ss, x)
    ensures ExecList(P, ss, depth, st, fuel).Next? ==> Unchanged(st, ExecList(P, ss, depth, st, fuel).st, x)
    decreases fuel, ss, 0
  {
    hide FindLast, Lookup, Exec, Supported, Keeps;
    if ss != [] {
      ExecKeeps(P, ss[0], depth, st, fuel, x);
      var o := Exec(P, ss[0], depth, st, fuel);
      if o.Next? {
        ExecListKeeps(P, ss[1..], depth, o.st, fuel, x);
      }
    }
  }

  /** Counting another loop's variable up. */
  lemma CountUpKeeps(st: State, k: nat, w: Value, x: string)
    requires WellFormed(st) && k < |st.vals| && st.names[k] != x
    ensures Unchanged(st, st.(vals := st.vals[k := w]), x)
  {
    hide FindLast;
  }

  lemma {:induction false} LoopKeeps(P: Prims, s: Stmt, k: nat, depth: nat, st: State, fuel: nat, x: string)
    requires s.For? && Supported(s) && WellFormed(st) && Keeps(s, x)
    requires k < |st.names| && st.names[k] == s.name
    ensures ForLoop(P, s, k, depth, st, fuel).Next? ==> Unchanged(st, ForLoop(P, s, k, depth, st, fuel).st, x)
    decreases fuel, s, 0
  {
    hide FindLast, Lookup, Eval, SupportedExpr, SupportedList, KeepsInExpr, KeepsAll, Need, Room, ExecList, ApplyBinary;
    if fuel > 0 {
      EvalKeeps(P, s.end, st, x);
      var r := Eval(P, s.end, st);
      if r.EVal? {
        ExecListKeeps(P, s.body.stmts, depth, r.st, fuel, x);
        var o := ExecList(P, s.body.stmts, depth, r.st, fuel);
        if o.Next? && k < |o.st.vals| {
          var w := ApplyBinary(P, Add, o.st.vals[k], Int(1));
          if w.Val? {
            CountUpKeeps(o.st, k, w.v, x);
            LoopKeeps(P, s, k, depth, o.st.(vals := o.st.vals[k := w.v]), fuel - 1, x);
          }
        }
      }
    }
  }

  // ----- statements that leave a slot alone -----

  /** `s` hides the name `x` from the statements after it. */
  predicate Hides(s: Stmt, x: string) {
    s.Let? && s.name == x
  }

  /** Inside a block, `s` has no assignment that resolves to the variable `x` from outside;
      once `x` is declared again, assignments are to the new variable. */
  predicate Spares(s: Stmt, x: string)
    requires Supported(s)
    decreases s, 1
  {
    match s
    case Let(_, init) => KeepsInOption(init, x)
    case If(c, t, e) => KeepsInExpr(c, x) && Spares(t, x) && (e.Some? ==> Spares(e.value, x))
    case While(c, b) => KeepsInExpr(c, x) && SparesAll(b.stmts, x)
    case For(name, a, z, b) => KeepsInExpr(a, x) && (name == x || (KeepsInExpr(z, x) && SparesAll(b.stmts, x)))
    case Block(ss) => SparesAll(ss, x)
    case Function(_, _, _, _) => true
    case Return(r) => KeepsInOption(r, x)
    case Print(e) => KeepsInExpr(e, x)
    case ExprStmt(e) => KeepsInExpr(e, x)
  }

  predicate SparesAll(ss: seq<Stmt>, x: string)
    requires SupportedList(ss)
    decreases ss, 0
  {
    ss == [] || (Spares(ss[0], x) && (Hides(ss[0], x) || SparesAll(ss[1..], x)))
  }

  /** Slot `k` belongs to a variable `x`. */
  predicate Owns(st: State, k: nat, x: string) {
    WellFormed(st) && k < |st.names| && st.names[k] == x
  }

  /** That variable is the one that `x` names now. */
  predicate Visible(st: State, k: nat, x: string) {
    FindLast(st.names, x) == k
  }

  /** From `st` to `st'` block variables were at most added, and slot `k` keeps its value. */
  predicate SlotSame(st: State, st': State, k: nat) {
    WellFormed(st) && WellFormed(st') && st.names <= st'.names && k < |st.vals| && st'.vals[k] == st.vals[k]
  }

  /** A hidden variable stays hidden while variables are added. */
  lemma StaysHidden(st: State, st': State, k: nat, x: string)
    requires Owns(st, k, x) && SlotSame(st, st', k) && !Visible(st, k, x)
    ensures Owns(st', k, x) && !Visible(st', k, x)
  {
    hide FindLast;
    var i := FindLast(st.names, x);
    assert i > k && st'.names[i] == x;
  }

  lemma StoreSpares(st: State, name: string, v: Value, k: nat, x: string)
    requires Owns(st, k, x) && (Visible(st, k, x) ==> name != x)
    ensures SlotSame(st, Store(st, name, v), k)
  {
    hide FindLast;
  }

  lemma {:induction false} EvalSpares(P: Prims, e: Expr, st: State, k: nat, x: string)
    requires SupportedExpr(e) && Owns(st, k, x) && (Visible(st, k, x) ==> KeepsInExpr(e, x))
    ensures Eval(P, e, st).EVal? ==> SlotSame(st, Eval(P, e, st).st, k)
    decreases e, 1
  {
    hide FindLast, ApplyBinary, ApplyUnary, CallNative;
    match e
    case Binary(_, l, r) =>
      EvalSpares(P, l, st, k, x);
      var a := Eval(P, l, st);
      if a.EVal? {
        EvalSpares(P, r, a.st, k, x);
      }
    case Unary(_, a) => EvalSpares(P, a, st, k, x);
    case Call(f, args) =>
      EvalSpares(P, f, st, k, x);
      var a := Eval(P, f, st);
      if a.EVal? {
        EvalAllSpares(P, args, a.st, k, x);
      }
    case ArrayLit(es) => EvalAllSpares(P, es, st, k, x);
    case Assign(t, a) =>
      EvalSpares(P, a, st, k, x);
      var r := Eval(P, a, st);
      if r.EVal? {
        StoreSpares(r.st, t.name, r.v, k, x);
      }
    case _ =>
  }

  lemma {:induction false} EvalAllSpares(P: Prims, es: seq<Expr>, st: State, k: nat, x: string)
    requires SupportedExprs(es) && Owns(st, k, x) && (Visible(st, k, x) ==> KeepsInExprs(es, x))
    ensures EvalAll(P, es, st).EVals? ==> SlotSame(st, EvalAll(P, es, st).st, k)
    decreases es, 0
  {
    hide FindLast, Eval, SupportedExpr, KeepsInExpr;
    if es != [] {
      EvalSpares(P, es[0], st, k, x);
      var a := Eval(P, es[0], st);
      if a.EVal? {
        EvalAllSpares(P, es[1..], a.st, k, x);
      }
    }
  }

  lemma OptionSpares(P: Prims, e: Option<Expr>, st: State, k: nat, x: string)
    requires SupportedOption(e) && Owns(st, k, x) && (Visible(st, k, x) ==> KeepsInOption(e, x))
    ensures EvalOption(P, e, st).EVal? ==> SlotSame(st, EvalOption(P, e, st).st, k)
  {
    hide FindLast, Eval, SupportedExpr, KeepsInExpr;
    if e.Some? {
      EvalSpares(P, e.value, st, k, x);
    }
  }

  /** A declaration adds a variable; one of the same name hides the old one. */
  lemma DeclareSpares(name: string, v: Value, depth: nat, st: State, k: nat, x: string)
    requires Owns(st, k, x)
    ensures SlotSame(st, Declare(name, v, depth, st), k)
    ensures name == x && depth > 0 ==> !Visible(Declare(name, v, depth, st), k, x)
  {
    hide FindLast;
    if name == x && depth > 0 {
      FindLastUnique(st.names + [name], x, |st.names|);
    }
  }

  lemma LeaveSpares(st: State, o: Outcome, k: nat)
    requires WellFormed(st) && k < |st.names| && (o.Next? ==> SlotSame(st, o.st, k))
    ensures Leave(o, |st.names|).Next? ==> SlotSame(st, Leave(o, |st.names|).st, k)
  {
  }

  lemma {:induction false} ExecSpares(P: Prims, s: Stmt, depth: nat, st: State, fuel: nat, k: nat, x: string)
    requires depth > 0 && Supported(s) && Owns(st, k, x) && (Visible(st, k, x) ==> Spares(s, x))
    ensures Exec(P, s, depth, st, fuel).Next? ==> SlotSame(st, Exec(P, s, depth, st, fuel).st, k)
    decreases fuel, s, 2
  {
    hide FindLast, Eval, EvalOption, SupportedExpr, SupportedList, SupportedOption, KeepsInExpr, KeepsInOption,
         SparesAll, Declare, Leave, Need, Room, ExecList, ForLoop;
    match s
    case Let(name, init) =>
      OptionSpares(P, init, st, k, x);
      var r := EvalOption(P, init, st);
      if r.EVal? {
        DeclareSpares(name, r.v, depth, r.st, k, x);
      }
    case If(c, t, e) =>
      EvalSpares(P, c, st, k, x);
      var r := Eval(P, c, st);
      if r.EVal? {
        ExecSpares(P, t, depth, r.st, fuel, k, x);
        if e.Some? {
          ExecSpares(P, e.value, depth, r.st, fuel, k, x);
        }
      }
    case While(_, _) => WhileSpares(P, s, depth, st, fuel, k, x);
    case For(_, _, _, _) => ForSpares(P, s, depth, st, fuel, k, x);
    case Block(ss) =>
      ListSpares(P, ss, depth + 1, st, fuel, k, x);
      LeaveSpares(st, ExecList(P, ss, depth + 1, st, fuel), k);
    case Function(name, _, _, _) => DeclareSpares(name, Nil, 0, st, k, x);
    case Return(r) =>
    case Print(e) => EvalSpares(P, e, st, k, x);
    case ExprStmt(e) => EvalSpares(P, e, st, k, x);
  }

  lemma {:induction false} WhileSpares(P: Prims, s: Stmt, depth: nat, st: State, fuel: nat, k: nat, x: string)
    requires s.While? && depth > 0 && Supported(s) && Owns(st, k, x) && (Visible(st, k, x) ==> Spares(s, x))
    ensures Exec(P, s, depth, st, fuel).Next? ==> SlotSame(st, Exec(P, s, depth, st, fuel).st, k)
    decreases fuel, s, 1
  {
    hide FindLast, Eval, SupportedExpr, SupportedList, KeepsInExpr, SparesAll, Need, Room, ExecList;
    if fuel > 0 {
      EvalSpares(P, s.cond, st, k, x);
      var r := Eval(P, s.cond, st);
      if r.EVal? {
        ListSpares(P, s.body.stmts, depth, r.st, fuel, k, x);
        var o := ExecList(P, s.body.stmts, depth, r.st, fuel);
        if o.Next? {
          if !Visible(st, k, x) {
            StaysHidden(st, o.st, k, x);
          }
          WhileSpares(P, s, depth, o.st, fuel - 1, k, x);
        }
      }
    }
  }

  lemma {:induction false} ListSpares(P: Prims, ss: seq<Stmt>, depth: nat, st: State, fuel: nat, k: nat, x: string)
    requires depth > 0 && SupportedList(ss) && Owns(st, k, x) && (Visible(st, k, x) ==> SparesAll(ss, x))
    ensures ExecList(P, ss, depth, st, fuel).Next? ==> SlotSame(st, ExecList(P, ss, depth, st, fuel).st, k)
    decreases fuel, ss, 0
  {
    hide FindLast, Exec, Supported, Spares, Visible, Hides;
    if ss != [] {
      ExecSpares(P, ss[0], depth, st, fuel, k, x);
      var o := Exec(P, ss[0], depth, st, fuel);
      if o.Next? {
        if !Visible(st, k, x) {
          StaysHidden(st, o.st, k, x);
        } else if Hides(ss[0], x) {
          HidesNow(P, ss[0], depth, st, fuel, k, x);
        }
        ListSpares(P, ss[1..], depth, o.st, fuel, k, x);
      }
    }
  }

  lemma HidesNow(P: Prims, s: Stmt, depth: nat, st: State, fuel: nat, k: nat, x: string)
    requires depth > 0 && Supported(s) && Owns(st, k, x) && Hides(s, x) && Exec(P, s, depth, st, fuel).Next?
    ensures !Visible(Exec(P, s, depth, st, fuel).st, k, x)
  {
    hide FindLast, EvalOption, SupportedOption, Declare;
    var r := EvalOption(P, s.init, st);
    DeclareSpares(s.name, r.v, depth, r.st, k, x);
  }

  lemma {:induction false} ForSpares(P: Prims, s: Stmt, depth: nat, st: State, fuel: nat, k: nat, x: string)
    requires s.For? && depth > 0 && Supported(s) && Owns(st, k, x) && (Visible(st, k, x) ==> Spares(s, x))
    ensures Exec(P, s, depth, st, fuel).Next? ==> SlotSame(st, Exec(P, s, depth, st, fuel).st, k)
    decreases fuel, s, 1
  {
    hide FindLast, Eval, SupportedExpr, SupportedList, KeepsInExpr, SparesAll, Need, Room, ForLoop, Leave;
    EvalSpares(P, s.start, st, k, x);
    var r := Eval(P, s.start, st);
    if r.EVal? {
      var st1 := Declare(s.name, r.v, depth + 1, r.st);
      DeclareSpares(s.name, r.v, depth + 1, r.st, k, x);
      if !Visible(st, k, x) {
        StaysHidden(st, st1, k, x);
      }
      LoopSpares(P, s, |st.names|, depth + 1, st1, fuel, k, x);
      LeaveSpares(st, ForLoop(P, s, |st.names|, depth + 1, st1, fuel), k);
    }
  }

  /** Another loop, whose variable is in slot `i`. */
  lemma {:induction false} LoopSpares(P: Prims, s: Stmt, i: nat, depth: nat, st: State, fuel: nat, k: nat, x: string)
    requires s.For? && depth > 0 && Supported(s) && Owns(st, k, x) && k < i
    requires Visible(st, k, x) ==> KeepsInExpr(s.end, x) && SparesAll(s.body.stmts, x)
    ensures ForLoop(P, s, i, depth, st, fuel).Next? ==> SlotSame(st, ForLoop(P, s, i, depth, st, fuel).st, k)
    decreases fuel, s, 0
  {
    hide FindLast, Eval, SupportedExpr, SupportedList, KeepsInExpr, SparesAll, Need, Room, ExecList, ApplyBinary,
         Visible;
    if fuel > 0 {
      EvalSpares(P, s.end, st, k, x);
      var r := Eval(P, s.end, st);
      if r.EVal? {
        SameVisible(st, r.st, k, x);
        ListSpares(P, s.body.stmts, depth, r.st, fuel, k, x);
        var o := ExecList(P, s.body.stmts, depth, r.st, fuel);
        if o.Next? && i < |o.st.vals| {
          var w := ApplyBinary(P, Add, o.st.vals[i], Int(1));
          if w.Val? {
            var next := o.st.(vals := o.st.vals[i := w.v]);
            assert SlotSame(st, next, k);
            if !Visible(st, k, x) {
              StaysHidden(st, next, k, x);
            }
            LoopSpares(P, s, i, depth, next, fuel - 1, k, x);
          }
        }
      }
    }
  }

  lemma SameVisible(st: State, st': State, k: nat, x: string)
    requires st.names == st'.names
    ensures Visible(st', k, x) == Visible(st, k, x)
  {
  }

  // ----- the rounds of a loop -----

  /** The states in which the loop starts its body, in order. */
  function Rounds(P: Prims, s: Stmt, k: nat, depth: nat, st: State, fuel: nat): seq<State>
    requires s.For? && Supported(s) && WellFormed(st)
    decreases fuel
  {
    if fuel == 0 || k >= |st.vals| || !Room(st, 1 + Need(s.end)) then []
    else
      match Eval(P, s.end, st)
      case EFail(_, _) => []
      case EVal(bound, st1) =>
        match ApplyBinary(P, Less, st.vals[k], bound)
        case Err(_) => []
        case Val(v) =>
          if Falsy(v) then []
          else
            var next := Counted(P, s, k, depth, st1, fuel);
            [st1] + if next.Some? then Rounds(P, s, k, depth, next.value, fuel - 1) else []
  }

  /** The state of the next test, if the body and the count come to their ends. */
  function Counted(P: Prims, s: Stmt, k: nat, depth: nat, st: State, fuel: nat): (next: Option<State>)
    requires s.For? && Supported(s) && WellFormed(st)
    ensures next.Some? ==> WellFormed(next.value) && k < |next.value.vals|
  {
    var o := ExecList(P, s.body.stmts, depth, st, fuel);
    if !o.Next? || k >= |o.st.vals| then None
    else
      match ApplyBinary(P, Add, o.st.vals[k], Int(1))
      case Err(_) => None
      case Val(w) => Some(o.st.(vals := o.st.vals[k := w]))
  }

  /** Whenever the loop evaluates its end, the value is `b`. */
  predicate EndStays(P: Prims, s: Stmt, k: nat, depth: nat, st: State, fuel: nat, b: int)
    requires s.For? && Supported(s) && WellFormed(st)
    decreases fuel
  {
    fuel > 0 && Eval(P, s.end, st).EVal? ==>
      var r := Eval(P, s.end, st);
      && r.v == Int(b)
      && (Counted(P, s, k, depth, r.st, fuel).Some? ==>
            EndStays(P, s, k, depth, Counted(P, s, k, depth, r.st, fuel).value, fuel - 1, b))
  }

  /** No assignment in the loop resolves to its own variable. */
  predicate KeepsVariable(s: Stmt)
    requires s.For? && Supported(s)
  {
    KeepsInExpr(s.end, s.name) && SparesAll(s.body.stmts, s.name)
  }

  /** Slot `k` is the loop variable's. */
  predicate AtVariable(s: Stmt, k: nat, st: State)
    requires s.For?
  {
    Owns(st, k, s.name)
  }

  /** How many numbers there are from `a` up to, not including, `b`. */
  function Count(a: int, b: int): nat {
    if a < b then b - a else 0
  }

  /** The variable's values are the numbers from `a` on, in order. */
  predicate Ascending(rounds: seq<State>, k: nat, a: int) {
    forall i :: 0 <= i < |rounds| ==> k < |rounds[i].vals| && rounds[i].vals[k] == Int(a + i)
  }

  /** The test and the round behind it, with the variable at `a`. */
  lemma OneRound(P: Prims, s: Stmt, k: nat, depth: nat, st: State, fuel: nat, a: int, b: int)
    requires depth > 0 && s.For? && Supported(s) && AtVariable(s, k, st) && st.vals[k] == Int(a) &&
      KeepsVariable(s) && fuel > 0
    requires Room(st, 1 + Need(s.end)) && Eval(P, s.end, st).EVal? && Eval(P, s.end, st).v == Int(b)
    ensures
      var st1 := Eval(P, s.end, st).st;
      var next := Counted(P, s, k, depth, st1, fuel);
      && st1.vals[k] == Int(a) && st1.names == st.names
      && (a >= b ==> ForLoop(P, s, k, depth, st, fuel) == Next(st1) && Rounds(P, s, k, depth, st, fuel) == [])
      && (a < b && next.Some? ==>
            && AtVariable(s, k, next.value) && next.value.vals[k] == Int(a + 1) && st.names <= next.value.names
            && ForLoop(P, s, k, depth, st, fuel) == ForLoop(P, s, k, depth, next.value, fuel - 1)
            && Rounds(P, s, k, depth, st, fuel) == [st1] + Rounds(P, s, k, depth, next.value, fuel - 1))
      && (a < b && next.None? ==> !ForLoop(P, s, k, depth, st, fuel).Next?)
  {
    hide Eval, ExecList, SupportedExpr, SupportedList, KeepsInExpr, SparesAll, FindLast;
    EvalSpares(P, s.end, st, k, s.name);
    var st1 := Eval(P, s.end, st).st;
    ListSpares(P, s.body.stmts, depth, st1, fuel, k, s.name);
  }

  /** A loop from `a` whose end stays `b` and which ends normally has run its body once for
      each number from `a` to `b`, in order. */
  lemma {:induction false} LoopCounts(P: Prims, s: Stmt, k: nat, depth: nat, st: State, fuel: nat, a: int, b: int)
    requires depth > 0 && s.For? && Supported(s) && AtVariable(s, k, st) && st.vals[k] == Int(a) && KeepsVariable(s)
    requires ForLoop(P, s, k, depth, st, fuel).Next? && EndStays(P, s, k, depth, st, fuel, b)
    ensures |Rounds(P, s, k, depth, st, fuel)| == Count(a, b) < fuel &&
      Ascending(Rounds(P, s, k, depth, st, fuel), k, a)
    ensures st.names <= ForLoop(P, s, k, depth, st, fuel).st.names
    decreases fuel
  {
    hide Eval, Counted, Rounds, ApplyBinary, KeepsVariable, AtVariable, Room;
    NormalLoop(P, s, k, depth, st, fuel);
    OneRound(P, s, k, depth, st, fuel, a, b);
    var next := Counted(P, s, k, depth, Eval(P, s.end, st).st, fuel);
    if a < b {
      LoopCounts(P, s, k, depth, next.value, fuel - 1, a + 1, b);
    }
  }

  lemma NormalLoop(P: Prims, s: Stmt, k: nat, depth: nat, st: State, fuel: nat)
    requires s.For? && Supported(s) && WellFormed(st) && ForLoop(P, s, k, depth, st, fuel).Next?
    ensures fuel > 0 && Room(st, 1 + Need(s.end)) && Eval(P, s.end, st).EVal?
  {
    hide Eval, ApplyBinary, ExecList, Room;
  }

  /** The body ends normally in every round, and there is room for every test. */
  predicate Smooth(P: Prims, s: Stmt, k: nat, depth: nat, st: State, fuel: nat, b: int)
    requires s.For? && Supported(s) && WellFormed(st)
    decreases fuel
  {
    fuel > 0 ==>
      var r := Eval(P, s.end, st);
      && k < |st.vals| && st.vals[k].Int? && Room(st, 1 + Need(s.end)) && r.EVal? && r.v == Int(b)
      && (st.vals[k].n < b ==>
            var next := Counted(P, s, k, depth, r.st, fuel);
            next.Some? && Smooth(P, s, k, depth, next.value, fuel - 1, b))
  }

  /** Such a loop ends exactly with fuel for one test more than there are rounds. */
  lemma {:induction false} LoopEnds(P: Prims, s: Stmt, k: nat, depth: nat, st: State, fuel: nat, a: int, b: int)
    requires depth > 0 && s.For? && Supported(s) && AtVariable(s, k, st) && st.vals[k] == Int(a) && KeepsVariable(s)
    requires Smooth(P, s, k, depth, st, fuel, b)
    ensures ForLoop(P, s, k, depth, st, fuel).Next? <==> fuel > Count(a, b)
    ensures fuel <= Count(a, b) ==> ForLoop(P, s, k, depth, st, fuel) == OutOfFuel
    decreases fuel
  {
    hide Eval, Counted, ApplyBinary, KeepsVariable, AtVariable, Room, Rounds;
    if fuel > 0 {
      OneRound(P, s, k, depth, st, fuel, a, b);
      if a < b {
        LoopEnds(P, s, k, depth, Counted(P, s, k, depth, Eval(P, s.end, st).st, fuel).value, fuel - 1, a + 1, b);
      }
    }
  }

  // ----- ends that stay the same -----

  /** The end reads only what the loop keeps: no calls, no assignments, not the variable. */
  predicate Stable(e: Expr, s: Stmt)
    requires s.For? && Supported(s)
    decreases e
  {
    match e
    case IntLit(_) => true
    case Ident(x) => x != s.name && KeepsInExpr(s.end, x) && KeepsAll(s.body.stmts, x)
    case Unary(_, a) => Stable(a, s)
    case Binary(_, l, r) => Stable(l, s) && Stable(r, s)
    case _ => false
  }

  /** All names that the loop keeps have the same values in both states. */
  ghost predicate SameReads(s: Stmt, st: State, st': State)
    requires s.For? && Supported(s) && WellFormed(st) && WellFormed(st')
  {
    forall x :: Stable(Ident(x), s) ==> Lookup(st', x) == Lookup(st, x)
  }

  lemma {:induction false} StableEval(P: Prims, e: Expr, s: Stmt, st: State, st': State)
    requires s.For? && Supported(s) && SupportedExpr(e) && WellFormed(st) && WellFormed(st')
    requires Stable(e, s) && SameReads(s, st, st') && Eval(P, e, st).EVal?
    ensures Eval(P, e, st).st == st && Eval(P, e, st') == EVal(Eval(P, e, st).v, st')
    decreases e
  {
    hide FindLast, ApplyBinary, ApplyUnary, KeepsAll, KeepsInExpr, Supported;
    match e
    case Unary(_, a) => StableEval(P, a, s, st, st');
    case Binary(_, l, r) =>
      StableEval(P, l, s, st, st');
      StableEval(P, r, s, st, st');
    case Ident(x) => assert Stable(Ident(x), s);
    case _ =>
  }

  /** Then it has the same value in every test. */
  lemma {:induction false} StableEnd(P: Prims, s: Stmt, k: nat, depth: nat, st: State, fuel: nat, b: int)
    requires depth > 0 && s.For? && Supported(s) && SupportedExpr(s.end) && AtVariable(s, k, st)
    requires KeepsVariable(s) && Stable(s.end, s)
    requires Eval(P, s.end, st).EVal? && Eval(P, s.end, st).v == Int(b)
    ensures EndStays(P, s, k, depth, st, fuel, b)
    decreases fuel
  {
    hide Eval, KeepsAll, SparesAll, KeepsInExpr, FindLast, Stable, Lookup, Counted;
    if fuel > 0 {
      var next := Counted(P, s, k, depth, st, fuel);
      assert SameReads(s, st, st);
      StableEval(P, s.end, s, st, st);
      if next.Some? {
        RoundKeepsReads(P, s, k, depth, st, fuel);
        StableEval(P, s.end, s, st, next.value);
        StableEnd(P, s, k, depth, next.value, fuel - 1, b);
      }
    }
  }

  /** A round keeps the variable's place and all that a stable end may read. */
  lemma RoundKeepsReads(P: Prims, s: Stmt, k: nat, depth: nat, st: State, fuel: nat)
    requires depth > 0 && s.For? && Supported(s) && AtVariable(s, k, st) && KeepsVariable(s)
    requires Counted(P, s, k, depth, st, fuel).Some?
    ensures var next := Counted(P, s, k, depth, st, fuel).value; AtVariable(s, k, next) && SameReads(s, st, next)
  {
    hide ExecList, KeepsAll, SparesAll, KeepsInExpr, FindLast, ApplyBinary, SupportedList, SupportedExpr;
    var o := ExecList(P, s.body.stmts, depth, st, fuel);
    var next := Counted(P, s, k, depth, st, fuel).value;
    ListSpares(P, s.body.stmts, depth, st, fuel, k, s.name);
    forall x | Stable(Ident(x), s)
      ensures Lookup(next, x) == Lookup(st, x)
    {
      ExecListKeeps(P, s.body.stmts, depth, st, fuel, x);
      CountUpKeeps(o.st, k, next.vals[k], x);
    }
  }

  // ----- the statement -----

  /** Where the loop of a `for` statement starts, after its start value. */
  function Entered(s: Stmt, depth: nat, start: EResult): (st: State)
    requires s.For? && start.EVal? && WellFormed(start.st)
    ensures WellFormed(st)
  {
    Declare(s.name, start.v, depth + 1, start.st)
  }

  lemma EnteredAt(s: Stmt, depth: nat, start: EResult)
    requires s.For? && start.EVal? && WellFormed(start.st)
    ensures var k := |start.st.names|;
      AtVariable(s, k, Entered(s, depth, start)) && Entered(s, depth, start).vals[k] == start.v
  {
  }

  /** A `for` over the integers from `a` to `b` that ends normally, whose end stays `b` and
      in which no assignment resolves to its variable, has run its body max(0, b - a) times, with the
      variable at `a` to `b - 1` in order, and then the variable is gone. */
  lemma ForCounts(P: Prims, s: Stmt, depth: nat, st: State, fuel: nat, a: int, b: int)
    requires s.For? && Supported(s) && WellFormed(st) && KeepsVariable(s)
    requires Eval(P, s.start, st).EVal? && Eval(P, s.start, st).v == Int(a)
    requires Exec(P, s, depth, st, fuel).Next?
    requires EndStays(P, s, |st.names|, depth + 1, Entered(s, depth, Eval(P, s.start, st)), fuel, b)
    ensures
      var rounds := Rounds(P, s, |st.names|, depth + 1, Entered(s, depth, Eval(P, s.start, st)), fuel);
      |rounds| == Count(a, b) && Ascending(rounds, |st.names|, a)
    ensures Exec(P, s, depth, st, fuel).st.names == st.names
  {
    hide Eval, Rounds, EndStays, KeepsVariable, AtVariable, ForLoop;
    var start := Eval(P, s.start, st);
    EnteredAt(s, depth, start);
    assert st.names <= Entered(s, depth, start).names;
    LoopCounts(P, s, |st.names|, depth + 1, Entered(s, depth, start), fuel, a, b);
  }

  /** The same for an end that the program text shows to stay. */
  lemma ForCountsByText(P: Prims, s: Stmt, depth: nat, st: State, fuel: nat, a: int, b: int)
    requires s.For? && Supported(s) && WellFormed(st) && KeepsVariable(s) && Stable(s.end, s)
    requires Eval(P, s.start, st).EVal? && Eval(P, s.start, st).v == Int(a)
    requires var r := Eval(P, s.end, Entered(s, depth, Eval(P, s.start, st))); r.EVal? && r.v == Int(b)
    requires Exec(P, s, depth, st, fuel).Next?
    ensures
      var rounds := Rounds(P, s, |st.names|, depth + 1, Entered(s, depth, Eval(P, s.start, st)), fuel);
      |rounds| == Count(a, b) && Ascending(rounds, |st.names|, a)
  {
    hide Eval, Rounds, KeepsVariable, AtVariable, Exec, Stable, EndStays, Entered, SupportedExpr;
    var start := Eval(P, s.start, st);
    EnteredAt(s, depth, start);
    StableEnd(P, s, |st.names|, depth + 1, Entered(s, depth, start), fuel, b);
    ForCounts(P, s, depth, st, fuel, a, b);
  }
}

/** Syntax trees (src/ast.h). Line numbers are left out. */
module Ast {
  import opened Wrappers
  import opened Values

  datatype Expr =
    | IntLit(value: int)
    | FloatLit(f: Float)
    | StringLit(text: string)
    | BoolLit(b: bool)
    | NilLit
    | Ident(name: string)
    | Binary(op: BinOp, left: Expr, right: Expr)
    | Unary(unop: UnOp, operand: Expr)
    | Call(callee: Expr, args: seq<Expr>)
    | Dot(base: Expr, field: string)
    | Index(base: Expr, index: Expr)
    | ArrayLit(elements: seq<Expr>)
    | Assign(target: Expr, source: Expr)

  datatype Param = Param(name: string, typeName: Option<string>)

  datatype Route = Route(verb: string, path: string, middleware: Option<string>, body: Stmt)

  datatype Stmt =
    | Let(name: string, init: Option<Expr>)
    | If(cond: Expr, thenBranch: Stmt, elseBranch: Option<Stmt>)
    | While(cond: Expr, body: Stmt)
    | For(name: string, start: Expr, end: Expr, body: Stmt)
    | ForIn(name: string, iterable: Expr, body: Stmt)
    | Block(stmts: seq<Stmt>)
    | Function(name: string, params: seq<Param>, returnType: Option<string>, body: Stmt)
    | Return(result: Option<Expr>)
    | Print(shown: Expr)
    | ExprStmt(expr: Expr)
    | Import(name: string)
    | Class(name: string, members: seq<Stmt>)
    | Server(name: string, port: int, routes: seq<Route>)
    | Respond(status: Expr, reply: Expr)
}

/**
 * The abstract syntax tree of PINS'24 as the back end receives it, the
 * failure values of the compiler (a user-facing error and an internal
 * error), and the two small wrappers used throughout.
 *
 * Tree nodes carry a NodeId.  The compiler keys its attribute tables by
 * node identity; the model keys them by these ids.
 */
module Ast {

  type NodeId = int

  datatype Option<+T> = None | Some(value: T)

  /** A compiler failure: `Report.Error` carries the node it is about (or,
      from the lexer, the line and column it stopped at),
      `Report.UnexpectedChar` the line, column and code of a character the
      lexer did not expect (its message text is a function of that code),
      `Report.InternalError` only a message; `Crash` stands for an unchecked
      Java runtime exception (an index out of range, an empty collection, a
      null reference) that the compiler does not catch. */
  datatype Report =
    | Error(node: NodeId, message: string)
    | ErrorAt(line: int, column: int, message: string)
    | UnexpectedChar(line: int, column: int, code: int)
    | InternalError(message: string)
    | Crash(message: string)

  datatype Result<+T> = Ok(value: T) | Fail(report: Report) {
    predicate IsFailure() { Fail? }
    function PropagateFailure<U>(): Result<U>
      requires Fail?
    {
      Fail(report)
    }
    function Extract(): T
      requires Ok?
    {
      value
    }
  }

  /** A state-changing step that either completes or raises a report. */
  datatype Outcome = Pass | Raise(report: Report) {
    predicate IsFailure() { Raise? }
    function PropagateFailure(): Outcome
      requires Raise?
    {
      this
    }
  }

  /** Kinds of literal atoms. */
  datatype AtomType = IntConst | ChrConst | StrConst

  /** A literal: its kind and its text as the front end stored it. */
  datatype Atom = Atom(id: NodeId, kind: AtomType, value: string)

  datatype UnOper = UnNot | UnAdd | UnSub | MemAddr | ValueAt

  datatype BinOper = Or | And | Equ | Neq | Gth | Lth | Geq | Leq | Add | Sub | Mul | Div | Mod

  datatype Expr =
    | AtomExpr(atom: Atom)
    | VarExpr(id: NodeId, name: string)
    | CallExpr(id: NodeId, name: string, args: seq<Expr>)
    | UnExpr(id: NodeId, unOper: UnOper, sub: Expr)
    | BinExpr(id: NodeId, binOper: BinOper, fstExpr: Expr, sndExpr: Expr)

  datatype Stmt =
    | ExprStmt(id: NodeId, expr: Expr)
    | AssignStmt(id: NodeId, dstExpr: Expr, srcExpr: Expr)
    | IfStmt(id: NodeId, cond: Expr, thenStmts: seq<Stmt>, elseStmts: seq<Stmt>)
    | WhileStmt(id: NodeId, cond: Expr, stmts: seq<Stmt>)
    | LetStmt(id: NodeId, defs: seq<Def>, stmts: seq<Stmt>)

  /** One initializer group: `num` copies of `value`. */
  datatype Init = Init(num: Atom, value: Atom)

  datatype ParDef = ParDef(id: NodeId, name: string)

  datatype Def =
    | FunDef(id: NodeId, name: string, pars: seq<ParDef>, stmts: seq<Stmt>)
    | VarDef(id: NodeId, name: string, inits: seq<Init>)

  /** What a name resolves to (the name-resolution attribute). */
  datatype DefRef = FunRef(funId: NodeId) | VarRef(varId: NodeId) | ParRef(parId: NodeId)
}

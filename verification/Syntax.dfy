/** A reduced syntax tree: every statement form, and expressions grouped by how the passes walk them. */
module Syntax {
  import opened Prelude

  type Name = string

  datatype PairOp = Assignment | CompoundAssignment | Operator | ElementAccess | Sequence

  datatype Expr =
    | Var(name: Name)
    | Leaf                        // literals, this and functions, which are scopes of their own
    | ClassExpr(outer: seq<Expr>) // by its heritage and computed keys; the rest of a class is scopes of its own
    | Template(parts: seq<Expr>)  // by its substitutions
    | NewTarget
    | SuperCall(args: seq<Expr>)
    | SuperMethod(args: seq<Expr>)
    | SuperProperty
    | SuperComputedProperty(key: Expr)
    | SuperComputedMethod(key: Expr, args: seq<Expr>)
    | Arrow(defaults: seq<Expr>, body: seq<Stmt>)   // keys and defaults of the parameters
    | Pair(op: PairOp, left: Expr, right: Expr)
    | Update(operand: Expr)       // ++ and --
    | AssignPattern(names: seq<Name>, parts: seq<Expr>)   // an array or object that is assigned to: the names, and all parts
    | Compound(parts: seq<Expr>)  // every other form, by its parts in order

  /** What a for-in or for-of head binds: var names, lexical names, or the name or first part it assigns to. */
  datatype HeadKind = HeadVar | HeadLexical | HeadTarget

  datatype CatchParam = Identifier(name: Name) | Pattern(names: seq<Name>, defaults: seq<Expr>)

  function BoundNames(p: CatchParam): seq<Name> {
    match p
    case Identifier(name) => [name]
    case Pattern(names, _) => names
  }

  datatype Case = Case(test: seq<Expr>, body: seq<Stmt>)

  datatype Stmt =
    | Simple(parts: seq<Expr>)                       // return, throw, debugger, break, continue
    | Expression(e: Expr)
    | Lexical(names: seq<Name>, inits: seq<Expr>, defaults: seq<Expr>)   // let, const, using; keys and defaults of a pattern
    | VarDecl(names: seq<Name>, inits: seq<Expr>, defaults: seq<Expr>)
    | Assign(name: Name, e: Expr)
    | Function(name: Name, params: seq<Name>, body: seq<Stmt>)
    | Class(name: Name, outer: seq<Expr>)            // heritage and computed keys
    | Block(body: seq<Stmt>)
    | If(test: Expr, body: seq<Stmt>, otherwise: seq<Stmt>)
    | For(init: seq<Stmt>, tests: seq<Expr>, update: seq<Stmt>, body: seq<Stmt>)
    | ForHead(kind: HeadKind, names: seq<Name>, parts: seq<Expr>, defaults: seq<Expr>, body: seq<Stmt>)   // for-in, for-of
    | While(test: Expr, body: seq<Stmt>)
    | DoWhile(body: seq<Stmt>, test: Expr)
    | With(test: Expr, body: seq<Stmt>)
    | Switch(subject: Expr, cases: seq<Case>)
    | Try(body: seq<Stmt>, param: Option<CatchParam>, handler: seq<Stmt>, finalizer: seq<Stmt>)
    | Label(inner: Stmt)
    | Import
    | Export(declaration: Option<Stmt>)
}

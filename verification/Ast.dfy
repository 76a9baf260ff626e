/** The restricted Python that the compiler front end accepts.

    Expressions that the transform treats alike share a constructor: `Compound` is every
    operator, display, comparison, conditional, f-string part or starred expression, with its
    operands in the order in which they are visited (for a dict: keys, then values);
    `Leaf` is every expression without dependencies (constants, slices, and what the
    sanitizer blocks). */
module Ast {
  import opened Wrappers

  datatype Expr =
    | Name(id: string)
    | Attribute(value: Expr, attr: string)
    | Subscript(value: Expr, slice: Expr)
    | Call(func: Expr, args: seq<Expr>, keywords: seq<Keyword>)
    | Compound(parts: seq<Expr>)
    | Leaf

  datatype Keyword = Keyword(arg: string, value: Expr)

  datatype WithItem = ParallelItem | GroupItem(title: string) | OtherItem

  datatype Pattern = Literal(text: string) | Capture | Unsupported

  datatype Case = Case(pattern: Pattern, body: seq<Stmt>)

  datatype Stmt =
    | Assign(targets: seq<Expr>, value: Expr)
    | AnnAssign(target: Expr, annotated: Option<Expr>)
    | AugAssign(target: Expr, value: Expr)
    | ExprStmt(value: Expr)
    | Return(returned: Option<Expr>)
    | If(test: Expr, body: seq<Stmt>, orelse: seq<Stmt>)
    | For(target: Expr, iter: Expr, body: seq<Stmt>)
    | With(item: WithItem, body: seq<Stmt>)
    | Match(subject: Expr, cases: seq<Case>)
    | Pass
    | Break
    | Continue
    | Raise
    | Assert(test: Expr)
    | OtherStmt

  datatype TopLevel =
    | Meta
    | FunctionDef(name: string, args: seq<string>, posonlyargs: seq<string>, body: seq<Stmt>)
    | OtherTop

  /** The name a call goes by: a plain name, or the last part of a dotted one. */
  function Callee(func: Expr): Option<string> {
    match func
    case Name(id) => Some(id)
    case Attribute(_, attr) => Some(attr)
    case _ => None
  }

  predicate IsBuiltin(name: string) {
    name in {"len", "range", "int", "str", "float", "bool", "list", "dict", "tuple", "set", "min", "max", "sum",
             "abs", "round", "print", "isinstance", "type", "reversed", "enumerate", "zip", "sorted", "any", "all"}
  }

  /** The statement always returns or raises. */
  predicate IsTerminal(s: Stmt) {
    match s
    case Return(_) => true
    case Raise => true
    case If(_, body, orelse) =>
      body != [] && orelse != [] && (forall c | c in body :: IsTerminal(c)) && (forall c | c in orelse :: IsTerminal(c))
    case _ => false
  }

  predicate AllTerminal(body: seq<Stmt>) {
    body != [] && forall c | c in body :: IsTerminal(c)
  }

  /** No `pass`, and no GROUP with an empty body: the statements whose ids name no node. */
  predicate Nameable(s: Stmt) {
    match s
    case Pass => false
    case If(_, body, orelse) => (forall c | c in body :: Nameable(c)) && (forall c | c in orelse :: Nameable(c))
    case For(_, _, body) => forall c | c in body :: Nameable(c)
    case With(item, body) => (item.GroupItem? ==> body != []) && forall c | c in body :: Nameable(c)
    case Match(_, cases) => forall k | k in cases :: forall c | c in k.body :: Nameable(c)
    case _ => true
  }
}

/** The operator and statement fragment of the language of src/lang/ast.h, and what it means.

    Values are the literals' values; what the operators do to them is a parameter (`Prims`), so
    every result below holds for every interpretation of +, <, not, truthiness and the rest.
 */
module Ast {

  datatype Option<T> = None | Some(value: T)

  datatype Value = Nil | Bool(b: bool) | Int(i: int) | Float(bits: nat) | Str(s: string)

  datatype BinOp = Add | Sub | Mul | Div | Mod | Eq | Ne | Lt | Le | Gt | Ge

  datatype UnOp = Neg | Not

  // What the virtual machines compute; None is a runtime error.
  datatype Prims = Prims(bin: (BinOp, Value, Value) -> Option<Value>, un: (UnOp, Value) -> Option<Value>,
                         truthy: Value -> bool)

  datatype Expr =
    | Lit(v: Value)
    | Ident(name: string)
    | Binary(op: BinOp, left: Expr, right: Expr)
    | And(left: Expr, right: Expr)
    | Or(left: Expr, right: Expr)
    | Unary(uop: UnOp, operand: Expr)
    | Ternary(cond: Expr, thn: Expr, els: Expr)
    | Assign(target: string, aop: Option<BinOp>, rhs: Expr)

  datatype Stmt =
    | Let(name: string, isConst: bool, init: Expr)
    | Eval(e: Expr)
    | IfStmt(branch: If)
    | While(cond: Expr, body: Stmts)
    | Block(stmts: Stmts)
    | Break
    | Continue

  datatype If = If(cond: Expr, thn: Stmts, els: Else)

  datatype Else = NoElse | ElseBlock(stmts: Stmts) | ElseIf(branch: If)

  datatype Stmts = Done | Then(head: Stmt, tail: Stmts)

  // --- Evaluation ---

  // Local variables are a stack of bindings, innermost last; everything else is a global.
  datatype Env = Env(globals: map<string, Value>, locals: seq<(string, Value)>)

  // The position of the innermost binding of a name, or -1.
  function Lookup(locals: seq<(string, Value)>, name: string): (i: int)
    ensures -1 <= i < |locals|
    ensures i >= 0 ==> locals[i].0 == name
  {
    if locals == [] then -1
    else if locals[|locals| - 1].0 == name then |locals| - 1
    else Lookup(locals[..|locals| - 1], name)
  }

  function Get(env: Env, name: string): Option<Value> {
    var i := Lookup(env.locals, name);
    if i >= 0 then Some(env.locals[i].1)
    else if name in env.globals then Some(env.globals[name])
    else None
  }

  function Set(env: Env, name: string, v: Value): Env {
    var i := Lookup(env.locals, name);
    if i >= 0 then env.(locals := env.locals[i := (name, v)])
    else env.(globals := env.globals[name := v])
  }

  datatype Result = Ok(v: Value, env: Env) | Fail

  function EvalBin(p: Prims, op: BinOp, a: Value, b: Value, env: Env): Result {
    match p.bin(op, a, b)
    case None => Fail
    case Some(v) => Ok(v, env)
  }

  function EvalUn(p: Prims, op: UnOp, a: Value, env: Env): Result {
    match p.un(op, a)
    case None => Fail
    case Some(v) => Ok(v, env)
  }

  function EvalExpr(p: Prims, e: Expr, env: Env): Result {
    match e
    case Lit(v) => Ok(v, env)
    case Ident(name) => (match Get(env, name) case None => Fail case Some(v) => Ok(v, env))
    case Binary(op, l, r) => (
      match EvalExpr(p, l, env)
      case Fail => Fail
      case Ok(a, env1) =>
        match EvalExpr(p, r, env1)
        case Fail => Fail
        case Ok(b, env2) => EvalBin(p, op, a, b, env2)
    )
    case And(l, r) => (
      match EvalExpr(p, l, env)
      case Fail => Fail
      case Ok(a, env1) => if p.truthy(a) then EvalExpr(p, r, env1) else Ok(a, env1)
    )
    case Or(l, r) => (
      match EvalExpr(p, l, env)
      case Fail => Fail
      case Ok(a, env1) => if p.truthy(a) then Ok(a, env1) else EvalExpr(p, r, env1)
    )
    case Unary(op, x) => (
      match EvalExpr(p, x, env)
      case Fail => Fail
      case Ok(a, env1) => EvalUn(p, op, a, env1)
    )
    case Ternary(c, t, f) => (
      match EvalExpr(p, c, env)
      case Fail => Fail
      case Ok(a, env1) => EvalExpr(p, if p.truthy(a) then t else f, env1)
    )
    case Assign(name, aop, rhs) =>
      match aop
      case None => (
        match EvalExpr(p, rhs, env)
        case Fail => Fail
        case Ok(v, env1) => Ok(v, Set(env1, name, v))
      )
      case Some(op) =>
        match Get(env, name)
        case None => Fail
        case Some(old_) =>
          match EvalExpr(p, rhs, env)
          case Fail => Fail
          case Ok(b, env1) =>
            match EvalBin(p, op, old_, b, env1)
            case Fail => Fail
            case Ok(v, env2) => Ok(v, Set(env2, name, v))
  }

  // --- Execution ---

  // How a statement ends. OutOfFuel: it has not ended after `fuel` rounds of some loop nest.
  datatype Outcome = Normal(env: Env) | Broke(env: Env) | Continued(env: Env) | Error | OutOfFuel

  function Trim(env: Env, n: nat): Env {
    if n <= |env.locals| then env.(locals := env.locals[..n]) else env
  }

  function TrimOutcome(o: Outcome, n: nat): Outcome {
    match o
    case Normal(env) => Normal(Trim(env, n))
    case Broke(env) => Broke(Trim(env, n))
    case Continued(env) => Continued(Trim(env, n))
    case _ => o
  }

  // A declaration outside every block makes a global, one inside a block a local.
  function Declare(env: Env, top: bool, name: string, v: Value): Env {
    if top then env.(globals := env.globals[name := v]) else env.(locals := env.locals + [(name, v)])
  }

  function Exec(p: Prims, s: Stmt, env: Env, top: bool, fuel: nat): Outcome
    decreases fuel, s, 1
  {
    match s
    case Let(name, isConst, e) => (
      match EvalExpr(p, e, env)
      case Fail => Error
      case Ok(v, env1) => Normal(Declare(env1, top, name, v))
    )
    case Eval(e) => (
      match EvalExpr(p, e, env)
      case Fail => Error
      case Ok(v, env1) => Normal(env1)
    )
    case IfStmt(i) => ExecIf(p, i, env, fuel)
    case While(c, body) => (
      if fuel == 0 then OutOfFuel
      else
        match EvalExpr(p, c, env)
        case Fail => Error
        case Ok(v, env1) =>
          if !p.truthy(v) then Normal(env1)
          else
            match ExecBlock(p, body, env1, fuel - 1)
            case Normal(env2) => Exec(p, s, env2, top, fuel - 1)
            case Continued(env2) => Exec(p, s, env2, top, fuel - 1)
            case Broke(env2) => Normal(env2)
            case Error => Error
            case OutOfFuel => OutOfFuel
    )
    case Block(stmts) => ExecBlock(p, stmts, env, fuel)
    case Break => Broke(env)
    case Continue => Continued(env)
  }

  function ExecBlock(p: Prims, ss: Stmts, env: Env, fuel: nat): Outcome
    decreases fuel, ss, 1
  {
    TrimOutcome(ExecList(p, ss, env, false, fuel), |env.locals|)
  }

  function ExecIf(p: Prims, i: If, env: Env, fuel: nat): Outcome
    decreases fuel, i, 0
  {
    match EvalExpr(p, i.cond, env)
    case Fail => Error
    case Ok(v, env1) =>
      if p.truthy(v) then ExecBlock(p, i.thn, env1, fuel) else ExecElse(p, i.els, env1, fuel)
  }

  function ExecElse(p: Prims, x: Else, env: Env, fuel: nat): Outcome
    decreases fuel, x, 0
  {
    match x
    case NoElse => Normal(env)
    case ElseBlock(ss) => ExecBlock(p, ss, env, fuel)
    case ElseIf(i) => ExecIf(p, i, env, fuel)
  }

  function ExecList(p: Prims, ss: Stmts, env: Env, top: bool, fuel: nat): Outcome
    decreases fuel, ss, 0
  {
    match ss
    case Done => Normal(env)
    case Then(s, rest) =>
      match Exec(p, s, env, top, fuel)
      case Normal(env1) => ExecList(p, rest, env1, top, fuel)
      case o => o
  }
}

/** The expression parser of src/lang/parser.c for the operator fragment.

    A concrete tree has its parentheses as nodes. The parser is shown to be the exact inverse of
    writing such a tree down, for every tree that obeys the precedence table.
 */
module Pratt {

  const MAX_DEPTH: nat := 256

  datatype InfixOp = Or | And | Eq | Ne | Lt | Le | Gt | Ge | Plus | Star | Slash | Percent

  // Minus is both prefix and infix. Other is every token that cannot continue an expression.
  datatype Tok = Atom(n: nat) | LParen | RParen | Question | Colon | Infix(op: InfixOp) | Minus | Not | Assign(aop: nat)
               | Range(inclusive: bool) | Other(n: nat)

  // --- The precedence table ---

  const PREC_ASSIGNMENT: nat := 1
  const PREC_RANGE: nat := 2
  const PREC_TERNARY: nat := 3
  const PREC_UNARY: nat := 10
  const PREC_CALL: nat := 11
  const PREC_PRIMARY: nat := 12

  // get_precedence.
  function Prec(t: Tok): nat {
    match t
    case Assign(_) => PREC_ASSIGNMENT
    case Range(_) => PREC_RANGE
    case Question => PREC_TERNARY
    case Minus => 8
    case LParen => PREC_CALL
    case Infix(op) => (
      match op
      case Or => 4
      case And => 5
      case Eq => 6 case Ne => 6
      case Lt => 7 case Le => 7 case Gt => 7 case Ge => 7
      case Plus => 8
      case Star => 9 case Slash => 9 case Percent => 9
    )
    case _ => 0
  }

  // --- Trees ---

  datatype Tree =
    | Leaf(n: nat)
    | Group(x: Tree)
    | Unary(op: Tok, x: Tree)
    | Binary(op: Tok, l: Tree, r: Tree)
    | Ternary(cond: Tree, thn: Tree, els: Tree)
    | RangeOf(inclusive: bool, l: Tree, r: Tree)
    | AssignTo(aop: nat, l: Tree, r: Tree)

  function Level(c: Tree): nat {
    match c
    case Unary(_, _) => PREC_UNARY
    case Binary(op, _, _) => Prec(op)
    case Ternary(_, _, _) => PREC_TERNARY
    case RangeOf(_, _, _) => PREC_RANGE
    case AssignTo(_, _, _) => PREC_ASSIGNMENT
    case _ => PREC_PRIMARY
  }

  predicate IsBinary(t: Tok) {
    t.Infix? || t.Minus?
  }

  predicate IsUnary(t: Tok) {
    t.Not? || t.Minus?
  }

  // Binary operators and ranges group to the left, assignments and conditionals to the right.
  predicate Obeys(c: Tree) {
    match c
    case Leaf(_) => true
    case Group(x) => Obeys(x)
    case Unary(op, x) => IsUnary(op) && Obeys(x) && Level(x) >= PREC_UNARY
    case Binary(op, l, r) => IsBinary(op) && Obeys(l) && Obeys(r) && Level(l) >= Prec(op) && Level(r) > Prec(op)
    case Ternary(x, t, f) => Obeys(x) && Obeys(t) && Obeys(f) && Level(x) > PREC_TERNARY && Level(f) >= PREC_TERNARY
    case RangeOf(_, l, r) => Obeys(l) && Obeys(r) && Level(l) >= PREC_RANGE && Level(r) > PREC_RANGE
    case AssignTo(_, l, r) => Obeys(l) && Obeys(r) && Level(l) > PREC_ASSIGNMENT
  }

  function Flatten(c: Tree): (r: seq<Tok>)
    ensures |r| > 0
  {
    match c
    case Leaf(n) => [Atom(n)]
    case Group(x) => [LParen] + (Flatten(x) + [RParen])
    case Unary(op, x) => [op] + Flatten(x)
    case Binary(op, l, r) => Flatten(l) + ([op] + Flatten(r))
    case Ternary(x, t, f) => Flatten(x) + ([Question] + (Flatten(t) + ([Colon] + Flatten(f))))
    case RangeOf(i, l, r) => Flatten(l) + ([Range(i)] + Flatten(r))
    case AssignTo(op, l, r) => Flatten(l) + ([Assign(op)] + Flatten(r))
  }

  function Max(a: nat, b: nat): nat {
    if a < b then b else a
  }

  // How many nested calls of parse_precedence the tree takes below the one that returns it.
  function Nesting(c: Tree): nat {
    match c
    case Leaf(_) => 0
    case Group(x) => 1 + Nesting(x)
    case Unary(_, x) => 1 + Nesting(x)
    case Binary(_, l, r) => Max(Nesting(l), 1 + Nesting(r))
    case Ternary(x, t, f) => Max(Nesting(x), Max(1 + Nesting(t), 1 + Nesting(f)))
    case RangeOf(_, l, r) => Max(Nesting(l), 1 + Nesting(r))
    case AssignTo(_, l, r) => Max(Nesting(l), 1 + Nesting(r))
  }

  // --- The parser ---

  datatype Res = Ok(c: Tree, pos: nat) | Err

  function Peek(toks: seq<Tok>, pos: nat): Tok {
    if pos < |toks| then toks[pos] else Other(0)
  }

  // parse_precedence with `depth` calls already active.
  function Parse(toks: seq<Tok>, pos: nat, min: nat, depth: nat): (r: Res)
    requires pos <= |toks| && min >= 1
    ensures r.Ok? ==> pos < r.pos <= |toks|
    decreases |toks| - pos, 1
  {
    if depth + 1 > MAX_DEPTH then Err
    else
      match Primary(toks, pos, depth + 1)
      case Err => Err
      case Ok(c, p) => Climb(toks, p, min, c, depth + 1)
  }

  function Primary(toks: seq<Tok>, pos: nat, depth: nat): (r: Res)
    requires pos <= |toks|
    ensures r.Ok? ==> pos < r.pos <= |toks|
    decreases |toks| - pos, 0
  {
    var t := Peek(toks, pos);
    if t.Atom? then Ok(Leaf(t.n), pos + 1)
    else if t.LParen? then
      (match Parse(toks, pos + 1, PREC_ASSIGNMENT, depth)
       case Err => Err
       case Ok(c, p) => if Peek(toks, p).RParen? then Ok(Group(c), p + 1) else Err)
    else if IsUnary(t) then
      (match Parse(toks, pos + 1, PREC_UNARY, depth) case Err => Err case Ok(c, p) => Ok(Unary(t, c), p))
    else Err
  }

  // The loop of parse_precedence: take operators that bind at least as tightly as `min`.
  function Climb(toks: seq<Tok>, pos: nat, min: nat, left: Tree, depth: nat): (r: Res)
    requires pos <= |toks| && min >= 1
    ensures r.Ok? ==> pos <= r.pos <= |toks|
    decreases |toks| - pos, 0
  {
    var t := Peek(toks, pos);
    if Prec(t) < min then Ok(left, pos)
    else
      match Operand(toks, pos, left, depth)
      case Err => Err
      case Ok(c, p) => Climb(toks, p, min, c, depth)
  }

  // parse_infix: the operator at `pos` and what it takes on its right.
  function Operand(toks: seq<Tok>, pos: nat, left: Tree, depth: nat): (r: Res)
    requires pos <= |toks| && Prec(Peek(toks, pos)) >= 1
    ensures r.Ok? ==> pos < r.pos <= |toks|
    decreases |toks| - pos, 0, 0
  {
    var t := Peek(toks, pos);
    if t.LParen? then Err
    else if t.Assign? then
      (match Parse(toks, pos + 1, PREC_ASSIGNMENT, depth) case Err => Err case Ok(c, p) => Ok(AssignTo(t.aop, left, c), p))
    else if t.Question? then
      (match Parse(toks, pos + 1, PREC_ASSIGNMENT, depth)
       case Err => Err
       case Ok(c, p) =>
         if !Peek(toks, p).Colon? then Err
         else match Parse(toks, p + 1, PREC_TERNARY, depth) case Err => Err case Ok(d, q) => Ok(Ternary(left, c, d), q))
    else if t.Range? then
      (match Parse(toks, pos + 1, PREC_RANGE + 1, depth) case Err => Err case Ok(c, p) => Ok(RangeOf(t.inclusive, left, c), p))
    else
      match Parse(toks, pos + 1, Prec(t) + 1, depth) case Err => Err case Ok(c, p) => Ok(Binary(t, left, c), p)
  }

  // --- Opening the parser ---

  // Infix operators with one operand on the right.
  predicate IsPair(t: Tok) {
    IsBinary(t) || t.Range? || t.Assign?
  }

  function RightMin(t: Tok): nat {
    if t.Assign? then PREC_ASSIGNMENT else Prec(t) + 1
  }

  function Build(t: Tok, l: Tree, r: Tree): Tree
    requires IsPair(t)
  {
    if t.Assign? then AssignTo(t.aop, l, r) else if t.Range? then RangeOf(t.inclusive, l, r) else Binary(t, l, r)
  }

  lemma PairOpened(toks: seq<Tok>, pos: nat, left: Tree, depth: nat)
    requires pos <= |toks| && IsPair(Peek(toks, pos))
    ensures var t := Peek(toks, pos);
            && Prec(t) >= 1 && pos < |toks|
            && Operand(toks, pos, left, depth) == match Parse(toks, pos + 1, RightMin(t), depth)
                                                  case Err => Err
                                                  case Ok(c, p) => Ok(Build(t, left, c), p)
  {
    hide Parse;
  }

  lemma TernaryOpened(toks: seq<Tok>, pos: nat, left: Tree, depth: nat)
    requires pos < |toks| && toks[pos].Question?
    ensures var a := Parse(toks, pos + 1, PREC_ASSIGNMENT, depth);
            Operand(toks, pos, left, depth) ==
              if a.Err? || !Peek(toks, a.pos).Colon? then Err
              else match Parse(toks, a.pos + 1, PREC_TERNARY, depth) case Err => Err case Ok(d, q) => Ok(Ternary(left, a.c, d), q)
  {
    hide Parse;
  }

  lemma ClimbOpened(toks: seq<Tok>, pos: nat, min: nat, left: Tree, depth: nat)
    requires pos <= |toks| && min >= 1
    ensures Prec(Peek(toks, pos)) < min ==> Climb(toks, pos, min, left, depth) == Ok(left, pos)
    ensures Prec(Peek(toks, pos)) >= min ==>
              Climb(toks, pos, min, left, depth) == match Operand(toks, pos, left, depth)
                                                    case Err => Err
                                                    case Ok(c, p) => Climb(toks, p, min, c, depth)
  {
    hide Operand;
  }

  lemma ParseOpened(toks: seq<Tok>, pos: nat, min: nat, depth: nat)
    requires pos <= |toks| && min >= 1
    ensures Parse(toks, pos, min, depth) ==
              if depth + 1 > MAX_DEPTH then Err
              else match Primary(toks, pos, depth + 1) case Err => Err case Ok(c, p) => Climb(toks, p, min, c, depth + 1)
  {
    hide Primary, Climb;
  }

  lemma PrimaryOpened(toks: seq<Tok>, pos: nat, depth: nat)
    requires pos < |toks|
    ensures toks[pos].Atom? ==> Primary(toks, pos, depth) == Ok(Leaf(toks[pos].n), pos + 1)
    ensures toks[pos].LParen? ==>
              Primary(toks, pos, depth) == match Parse(toks, pos + 1, PREC_ASSIGNMENT, depth)
                                           case Err => Err
                                           case Ok(c, p) => if Peek(toks, p).RParen? then Ok(Group(c), p + 1) else Err
    ensures IsUnary(toks[pos]) ==>
              Primary(toks, pos, depth) == match Parse(toks, pos + 1, PREC_UNARY, depth) case Err => Err case Ok(c, p) => Ok(Unary(toks[pos], c), p)
  {
    hide Parse;
  }

  // --- Tokens in place ---

  ghost predicate At(toks: seq<Tok>, pos: nat, s: seq<Tok>) {
    pos + |s| <= |toks| && toks[pos..pos + |s|] == s
  }

  lemma AtSplit(toks: seq<Tok>, pos: nat, a: seq<Tok>, b: seq<Tok>)
    requires At(toks, pos, a + b)
    ensures At(toks, pos, a) && At(toks, pos + |a|, b) && pos + |a| + |b| <= |toks|
  {
    var ab := toks[pos..pos + |a + b|];
    assert toks[pos..pos + |a|] == ab[..|a|];
    assert toks[pos + |a|..pos + |a| + |b|] == ab[|a|..];
  }

  lemma AtOne(toks: seq<Tok>, pos: nat, t: Tok, rest: seq<Tok>)
    requires At(toks, pos, [t] + rest)
    ensures pos < |toks| && toks[pos] == t && Peek(toks, pos) == t && At(toks, pos + 1, rest) && pos + 1 + |rest| <= |toks|
  {
    AtSplit(toks, pos, [t], rest);
    assert toks[pos] == toks[pos..pos + 1][0];
  }
}

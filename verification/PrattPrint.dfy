/** Printing with the fewest parentheses, and that parsing undoes it.
 */
module PrattPrint {
  import opened Pratt
  import opened PrattComplete

  // A tree without parentheses, as the compiler gets it.
  predicate Bare(c: Tree) {
    match c
    case Leaf(_) => true
    case Group(_) => false
    case Unary(op, x) => IsUnary(op) && Bare(x)
    case Binary(op, l, r) => IsBinary(op) && Bare(l) && Bare(r)
    case Ternary(x, t, f) => Bare(x) && Bare(t) && Bare(f)
    case RangeOf(_, l, r) => Bare(l) && Bare(r)
    case AssignTo(_, l, r) => Bare(l) && Bare(r)
  }

  function Strip(c: Tree): Tree {
    match c
    case Leaf(_) => c
    case Group(x) => Strip(x)
    case Unary(op, x) => Unary(op, Strip(x))
    case Binary(op, l, r) => Binary(op, Strip(l), Strip(r))
    case Ternary(x, t, f) => Ternary(Strip(x), Strip(t), Strip(f))
    case RangeOf(i, l, r) => RangeOf(i, Strip(l), Strip(r))
    case AssignTo(op, l, r) => AssignTo(op, Strip(l), Strip(r))
  }

  function Wrap(c: Tree, min: nat): Tree {
    if Level(c) < min then Group(c) else c
  }

  // Parentheses only around operands that bind too loosely for their place.
  function Parens(e: Tree): Tree {
    match e
    case Unary(op, x) => Unary(op, Wrap(Parens(x), PREC_UNARY))
    case Binary(op, l, r) => Binary(op, Wrap(Parens(l), Prec(op)), Wrap(Parens(r), Prec(op) + 1))
    case Ternary(x, t, f) => Ternary(Wrap(Parens(x), PREC_TERNARY + 1), Parens(t), Wrap(Parens(f), PREC_TERNARY))
    case RangeOf(i, l, r) => RangeOf(i, Wrap(Parens(l), PREC_RANGE), Wrap(Parens(r), PREC_RANGE + 1))
    case AssignTo(op, l, r) => AssignTo(op, Wrap(Parens(l), PREC_ASSIGNMENT + 1), Parens(r))
    case _ => e
  }

  function Groups(c: Tree): nat {
    match c
    case Leaf(_) => 0
    case Group(x) => 1 + Groups(x)
    case Unary(_, x) => Groups(x)
    case Binary(_, l, r) => Groups(l) + Groups(r)
    case Ternary(x, t, f) => Groups(x) + Groups(t) + Groups(f)
    case RangeOf(_, l, r) => Groups(l) + Groups(r)
    case AssignTo(_, l, r) => Groups(l) + Groups(r)
  }

  lemma {:induction false} ParensGood(e: Tree)
    requires Bare(e)
    ensures Obeys(Parens(e)) && Strip(Parens(e)) == e && Level(Parens(e)) == Level(e)
  {
    match e
    case Leaf(_) =>
    case Unary(_, x) => ParensGood(x);
    case Binary(_, l, r) => ParensGood(l); ParensGood(r);
    case Ternary(x, t, f) => ParensGood(x); ParensGood(t); ParensGood(f);
    case RangeOf(_, l, r) => ParensGood(l); ParensGood(r);
    case AssignTo(_, l, r) => ParensGood(l); ParensGood(r);
  }

  // No other way of writing the expression down needs fewer parentheses.
  lemma {:induction false} ParensFewest(c: Tree, min: nat)
    requires Obeys(c) && Level(c) >= min
    ensures Groups(Wrap(Parens(Strip(c)), min)) <= Groups(c)
    decreases c
  {
    match c
    case Leaf(_) =>
    case Group(x) =>
      ParensFewest(x, 0);
    case Unary(_, x) => ParensFewest(x, PREC_UNARY); SameLevel(c);
    case Binary(op, l, r) => ParensFewest(l, Prec(op)); ParensFewest(r, Prec(op) + 1); SameLevel(c);
    case Ternary(x, t, f) => ParensFewest(x, PREC_TERNARY + 1); ParensFewest(t, 0); ParensFewest(f, PREC_TERNARY); SameLevel(c);
    case RangeOf(_, l, r) => ParensFewest(l, PREC_RANGE); ParensFewest(r, PREC_RANGE + 1); SameLevel(c);
    case AssignTo(_, l, r) => ParensFewest(l, PREC_ASSIGNMENT + 1); ParensFewest(r, 0); SameLevel(c);
  }

  lemma SameLevel(c: Tree)
    requires !c.Group?
    ensures Level(Parens(Strip(c))) == Level(c)
  {
  }

  // Printing and parsing gives the same expression.
  lemma PrintParse(e: Tree)
    requires Bare(e)
    ensures var r := Parse(Flatten(Parens(e)), 0, PREC_ASSIGNMENT, 0);
            if 1 + Nesting(Parens(e)) <= MAX_DEPTH then r.Ok? && Strip(r.c) == e && r.pos == |Flatten(Parens(e))| else r == Err
  {
    hide Parse, Flatten, Nesting, Parens, Obeys, Strip;
    ParensGood(e);
    ParseUndoesFlatten(Parens(e), [], [], 0);
    assert [] + Flatten(Parens(e)) + [] == Flatten(Parens(e));
  }
}

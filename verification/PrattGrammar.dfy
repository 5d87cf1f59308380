/** What the precedence table comes to: which trees the parser gives, without numbers. The binary operators are
    classes, one after another; an operator of a later class binds more tightly.
 */
module PrattGrammar {
  import opened Pratt
  import opened PrattComplete
  import opened PrattSound

  const CLASSES: seq<seq<Tok>> := [
    [Infix(Or)],
    [Infix(And)],
    [Infix(Eq), Infix(Ne)],
    [Infix(Lt), Infix(Le), Infix(Gt), Infix(Ge)],
    [Infix(Plus), Minus],
    [Infix(Star), Infix(Slash), Infix(Percent)]
  ]

  // The second operator is of a later class than the first.
  predicate Tighter(t: Tok, u: Tok) {
    exists i, j :: 0 <= i < j < |CLASSES| && t in CLASSES[i] && u in CLASSES[j]
  }

  lemma ClassOf(t: Tok) returns (i: nat)
    requires IsBinary(t)
    ensures i < |CLASSES| && t in CLASSES[i] && Prec(t) == i + 4
    ensures forall j :: 0 <= j < |CLASSES| && t in CLASSES[j] ==> j == i
  {
    i := Prec(t) - 4;
    assert t in CLASSES[0] || t in CLASSES[1] || t in CLASSES[2] || t in CLASSES[3] || t in CLASSES[4] || t in CLASSES[5];
  }

  lemma TighterIff(t: Tok, u: Tok)
    requires IsBinary(t) && IsBinary(u)
    ensures Tighter(t, u) <==> Prec(t) < Prec(u)
  {
    var i := ClassOf(t);
    var j := ClassOf(u);
    hide Prec;
  }

  // --- Trees ---

  // Nothing but a single operand can stand on either side of a unary operator.
  predicate Operandlike(c: Tree) {
    c.Leaf? || c.Group? || c.Unary?
  }

  // Where no parentheses are needed. A binary operator has on its left one of its own class or a tighter one,
  // on its right only a tighter one; a conditional has conditionals only in the middle and at its end; a range
  // has ranges only on its left, an assignment assignments only on its right; and each of these may hold
  // what was named before it.
  predicate Grouped(c: Tree) {
    match c
    case Leaf(_) => true
    case Group(x) => Grouped(x)
    case Unary(op, x) => (op.Not? || op.Minus?) && Grouped(x) && Operandlike(x)
    case Binary(op, l, r) =>
      && (op.Infix? || op.Minus?) && Grouped(l) && Grouped(r)
      && (Operandlike(l) || (l.Binary? && !Tighter(l.op, op)))
      && (Operandlike(r) || (r.Binary? && Tighter(op, r.op)))
    case Ternary(x, t, f) =>
      && Grouped(x) && Grouped(t) && Grouped(f)
      && (Operandlike(x) || x.Binary?) && (Operandlike(f) || f.Binary? || f.Ternary?)
    case RangeOf(_, l, r) => Grouped(l) && Grouped(r) && !l.AssignTo? && !r.AssignTo? && !r.RangeOf?
    case AssignTo(_, l, r) => Grouped(l) && Grouped(r) && !l.AssignTo?
  }

  // No operator, and no parenthesis that would be a call.
  predicate Stops(t: Tok) {
    t.Atom? || t.RParen? || t.Colon? || t.Not? || t.Other?
  }

  lemma StopsIff(t: Tok)
    ensures Stops(t) <==> Prec(t) == 0
  {
  }

  lemma LevelIs(c: Tree)
    requires Obeys(c)
    ensures Operandlike(c) <==> Level(c) >= PREC_UNARY
    ensures c.Binary? <==> PREC_TERNARY < Level(c) < PREC_UNARY
    ensures c.Binary? ==> IsBinary(c.op) && Level(c) == Prec(c.op)
    ensures (c.Ternary? <==> Level(c) == PREC_TERNARY) && (c.RangeOf? <==> Level(c) == PREC_RANGE)
    ensures c.AssignTo? <==> Level(c) == PREC_ASSIGNMENT
  {
    if c.Binary? {
      var i := ClassOf(c.op);
    }
  }

  lemma {:induction false} GroupedIff(c: Tree)
    ensures Grouped(c) <==> Obeys(c)
    decreases c
  {
    match c
    case Leaf(_) =>
    case Group(x) => GroupedIff(x);
    case Unary(_, x) =>
      GroupedIff(x);
      if Obeys(x) {
        LevelIs(x);
      }
    case Binary(op, l, r) =>
      GroupedIff(l);
      GroupedIff(r);
      if IsBinary(op) && Obeys(l) && Obeys(r) {
        BinaryIff(op, l, r);
      }
    case Ternary(x, t, f) =>
      GroupedIff(x);
      GroupedIff(t);
      GroupedIff(f);
      if Obeys(x) && Obeys(f) {
        LevelIs(x);
        LevelIs(f);
      }
    case RangeOf(_, l, r) =>
      GroupedIff(l);
      GroupedIff(r);
      SidesIff(l, r);
    case AssignTo(_, l, r) =>
      GroupedIff(l);
      GroupedIff(r);
      SidesIff(l, r);
  }

  lemma SidesIff(l: Tree, r: Tree)
    ensures Obeys(l) ==> (!l.AssignTo? <==> Level(l) >= PREC_RANGE)
    ensures Obeys(r) ==> (!r.AssignTo? && !r.RangeOf? <==> Level(r) > PREC_RANGE)
  {
    if Obeys(l) {
      LevelIs(l);
    }
    if Obeys(r) {
      LevelIs(r);
    }
  }

  lemma BinaryIff(op: Tok, l: Tree, r: Tree)
    requires IsBinary(op) && Obeys(l) && Obeys(r)
    ensures Level(l) >= Prec(op) <==> Operandlike(l) || (l.Binary? && !Tighter(l.op, op))
    ensures Level(r) > Prec(op) <==> Operandlike(r) || (r.Binary? && Tighter(op, r.op))
  {
    var i := ClassOf(op);
    LevelIs(l);
    LevelIs(r);
    if l.Binary? {
      TighterIff(l.op, op);
    }
    if r.Binary? {
      TighterIff(op, r.op);
    }
    hide Tighter, Prec, Obeys, Level;
  }

  // --- What the parser gives ---

  // The parser gives a tree if and only if it is what is written there, grouped in this way, in front of
  // something that does not continue it, and not nested too deeply.
  lemma ParseExact(toks: seq<Tok>, pos: nat, depth: nat, c: Tree, end: nat)
    requires pos <= |toks|
    ensures Parse(toks, pos, PREC_ASSIGNMENT, depth) == Ok(c, end) <==>
            && Grouped(c) && At(toks, pos, Flatten(c)) && end == pos + |Flatten(c)| && Stops(Peek(toks, end))
            && depth + 1 + Nesting(c) <= 256
  {
    hide Parse, At, Peek, Flatten, Nesting, Grouped, Obeys, Stops, Prec;
    ParseIff(toks, pos, depth, c, end);
    GroupedIff(c);
    StopsIff(Peek(toks, end));
  }

  lemma WholeInput(toks: seq<Tok>, c: Tree)
    requires Grouped(c) && toks == Flatten(c) && Nesting(c) < 256
    ensures Parse(toks, 0, PREC_ASSIGNMENT, 0) == Ok(c, |toks|)
  {
    hide Parse, Flatten, Nesting, Grouped;
    assert toks[0..|toks|] == toks;
    ParseExact(toks, 0, 0, c, |toks|);
  }

  // --- Two operators ---

  predicate Operator(t: Tok) {
    t.Infix? || t.Minus?
  }

  // Two leaves with a binary operator, and with a conditional around three.
  lemma PairTree(t: Tok, a: nat, b: nat)
    requires Operator(t)
    ensures var c := Binary(t, Leaf(a), Leaf(b)); Flatten(c) == [Atom(a), t, Atom(b)] && Nesting(c) == 1 && Grouped(c)
  {
    assert Flatten(Leaf(a)) == [Atom(a)] && Flatten(Leaf(b)) == [Atom(b)] && Nesting(Leaf(a)) == 0 && Nesting(Leaf(b)) == 0;
    assert Grouped(Leaf(a)) && Grouped(Leaf(b));
  }

  lemma ChoiceTree(a: nat, b: nat, c: nat)
    ensures var x := Ternary(Leaf(a), Leaf(b), Leaf(c));
            Flatten(x) == [Atom(a), Question, Atom(b), Colon, Atom(c)] && Nesting(x) == 1 && Grouped(x)
  {
    assert Flatten(Leaf(a)) == [Atom(a)] && Flatten(Leaf(b)) == [Atom(b)] && Flatten(Leaf(c)) == [Atom(c)];
    assert Nesting(Leaf(a)) == 0 && Nesting(Leaf(b)) == 0 && Nesting(Leaf(c)) == 0;
    assert Grouped(Leaf(a)) && Grouped(Leaf(b)) && Grouped(Leaf(c));
  }

  // a t b u c groups to the right if and only if u binds more tightly than t.
  lemma TwoOperators(t: Tok, u: Tok, a: nat, b: nat, c: nat)
    requires Operator(t) && Operator(u)
    ensures var x, y, z := Leaf(a), Leaf(b), Leaf(c);
            Parse([Atom(a), t, Atom(b), u, Atom(c)], 0, PREC_ASSIGNMENT, 0) ==
            Ok(if Tighter(t, u) then Binary(t, x, Binary(u, y, z)) else Binary(u, Binary(t, x, y), z), 5)
  {
    hide Parse, Tighter;
    var toks, x, y, z := [Atom(a), t, Atom(b), u, Atom(c)], Leaf(a), Leaf(b), Leaf(c);
    if Tighter(t, u) {
      PairTree(u, b, c);
      RightOf(t, a, Binary(u, y, z));
      WholeInput(toks, Binary(t, x, Binary(u, y, z)));
    } else {
      PairTree(t, a, b);
      LeftOf(u, Binary(t, x, y), c);
      WholeInput(toks, Binary(u, Binary(t, x, y), z));
    }
  }

  lemma RightOf(t: Tok, a: nat, r: Tree)
    requires Operator(t) && Grouped(r) && (Operandlike(r) || (r.Binary? && Tighter(t, r.op)))
    ensures var c := Binary(t, Leaf(a), r); Flatten(c) == [Atom(a), t] + Flatten(r) && Nesting(c) == 1 + Nesting(r) && Grouped(c)
  {
    hide Tighter;
    assert Flatten(Leaf(a)) == [Atom(a)] && Nesting(Leaf(a)) == 0 && Grouped(Leaf(a));
  }

  lemma LeftOf(t: Tok, l: Tree, b: nat)
    requires Operator(t) && Grouped(l) && (Operandlike(l) || (l.Binary? && !Tighter(l.op, t)))
    ensures var c := Binary(t, l, Leaf(b)); Flatten(c) == Flatten(l) + [t, Atom(b)] && Nesting(c) <= 1 + Nesting(l) && Grouped(c)
  {
    hide Tighter;
    assert Flatten(Leaf(b)) == [Atom(b)] && Nesting(Leaf(b)) == 0 && Grouped(Leaf(b));
  }

  // A unary operator binds more tightly than every binary one.
  lemma UnaryFirst(m: Tok, t: Tok, a: nat, b: nat)
    requires (m.Not? || m.Minus?) && Operator(t)
    ensures Parse([m, Atom(a), t, Atom(b)], 0, PREC_ASSIGNMENT, 0) == Ok(Binary(t, Unary(m, Leaf(a)), Leaf(b)), 4)
  {
    hide Parse, Tighter;
    var l := Unary(m, Leaf(a));
    assert Flatten(l) == [m, Atom(a)] && Nesting(l) == 1 && Grouped(l) by {
      assert Flatten(Leaf(a)) == [Atom(a)] && Nesting(Leaf(a)) == 0 && Grouped(Leaf(a));
    }
    LeftOf(t, l, b);
    WholeInput([m, Atom(a), t, Atom(b)], Binary(t, l, Leaf(b)));
  }

  // A conditional binds less tightly than every binary operator, on both ends, and groups to the right.
  lemma TernaryLater(t: Tok, a: nat, b: nat, c: nat, d: nat, e: nat)
    requires Operator(t)
    ensures Parse([Atom(a), t, Atom(b), Question, Atom(c), Colon, Atom(d)], 0, PREC_ASSIGNMENT, 0) ==
            Ok(Ternary(Binary(t, Leaf(a), Leaf(b)), Leaf(c), Leaf(d)), 7)
    ensures Parse([Atom(a), Question, Atom(b), Colon, Atom(c), t, Atom(d)], 0, PREC_ASSIGNMENT, 0) ==
            Ok(Ternary(Leaf(a), Leaf(b), Binary(t, Leaf(c), Leaf(d))), 7)
    ensures Parse([Atom(a), Question, Atom(b), Colon, Atom(c), Question, Atom(d), Colon, Atom(e)], 0, PREC_ASSIGNMENT, 0) ==
            Ok(Ternary(Leaf(a), Leaf(b), Ternary(Leaf(c), Leaf(d), Leaf(e))), 9)
  {
    hide Parse, Tighter;
    PairTree(t, a, b);
    ChoiceOf(Binary(t, Leaf(a), Leaf(b)), c, Leaf(d));
    WholeInput([Atom(a), t, Atom(b), Question, Atom(c), Colon, Atom(d)], Ternary(Binary(t, Leaf(a), Leaf(b)), Leaf(c), Leaf(d)));
    PairTree(t, c, d);
    ChoiceOf(Leaf(a), b, Binary(t, Leaf(c), Leaf(d)));
    WholeInput([Atom(a), Question, Atom(b), Colon, Atom(c), t, Atom(d)], Ternary(Leaf(a), Leaf(b), Binary(t, Leaf(c), Leaf(d))));
    ChoiceTree(c, d, e);
    ChoiceOf(Leaf(a), b, Ternary(Leaf(c), Leaf(d), Leaf(e)));
    WholeInput([Atom(a), Question, Atom(b), Colon, Atom(c), Question, Atom(d), Colon, Atom(e)],
               Ternary(Leaf(a), Leaf(b), Ternary(Leaf(c), Leaf(d), Leaf(e))));
  }

  lemma LeafTree(a: nat)
    ensures Flatten(Leaf(a)) == [Atom(a)] && Nesting(Leaf(a)) == 0 && Grouped(Leaf(a))
  {
  }

  lemma ChoiceOf(x: Tree, b: nat, f: Tree)
    requires Grouped(x) && Grouped(f) && (Operandlike(x) || x.Binary?) && (Operandlike(f) || f.Binary? || f.Ternary?)
    ensures var c := Ternary(x, Leaf(b), f);
            Flatten(c) == Flatten(x) + [Question, Atom(b), Colon] + Flatten(f) && Nesting(c) <= 1 + Nesting(x) + Nesting(f) && Grouped(c)
    ensures x.Leaf? ==> Flatten(x) == [Atom(x.n)] && Nesting(x) == 0
    ensures f.Leaf? ==> Flatten(f) == [Atom(f.n)] && Nesting(f) == 0
  {
    LeafTree(b);
    assert Flatten(Ternary(x, Leaf(b), f)) == Flatten(x) + ([Question] + (Flatten(Leaf(b)) + ([Colon] + Flatten(f))));
  }

  // A range binds less tightly than conditionals and binary operators, and groups to the left.
  lemma RangeLater(i: bool, j: bool, t: Tok, a: nat, b: nat, c: nat, d: nat)
    requires Operator(t)
    ensures Parse([Atom(a), t, Atom(b), Range(i), Atom(c)], 0, PREC_ASSIGNMENT, 0) ==
            Ok(RangeOf(i, Binary(t, Leaf(a), Leaf(b)), Leaf(c)), 5)
    ensures Parse([Atom(a), Range(i), Atom(b), t, Atom(c)], 0, PREC_ASSIGNMENT, 0) ==
            Ok(RangeOf(i, Leaf(a), Binary(t, Leaf(b), Leaf(c))), 5)
    ensures Parse([Atom(a), Range(i), Atom(b), Question, Atom(c), Colon, Atom(d)], 0, PREC_ASSIGNMENT, 0) ==
            Ok(RangeOf(i, Leaf(a), Ternary(Leaf(b), Leaf(c), Leaf(d))), 7)
    ensures Parse([Atom(a), Question, Atom(b), Colon, Atom(c), Range(i), Atom(d)], 0, PREC_ASSIGNMENT, 0) ==
            Ok(RangeOf(i, Ternary(Leaf(a), Leaf(b), Leaf(c)), Leaf(d)), 7)
    ensures Parse([Atom(a), Range(i), Atom(b), Range(j), Atom(c)], 0, PREC_ASSIGNMENT, 0) ==
            Ok(RangeOf(j, RangeOf(i, Leaf(a), Leaf(b)), Leaf(c)), 5)
  {
    hide Parse, Tighter;
    PairTree(t, a, b);
    RangeTree(i, Binary(t, Leaf(a), Leaf(b)), Leaf(c));
    WholeInput([Atom(a), t, Atom(b), Range(i), Atom(c)], RangeOf(i, Binary(t, Leaf(a), Leaf(b)), Leaf(c)));
    PairTree(t, b, c);
    RangeTree(i, Leaf(a), Binary(t, Leaf(b), Leaf(c)));
    WholeInput([Atom(a), Range(i), Atom(b), t, Atom(c)], RangeOf(i, Leaf(a), Binary(t, Leaf(b), Leaf(c))));
    ChoiceTree(b, c, d);
    RangeTree(i, Leaf(a), Ternary(Leaf(b), Leaf(c), Leaf(d)));
    WholeInput([Atom(a), Range(i), Atom(b), Question, Atom(c), Colon, Atom(d)], RangeOf(i, Leaf(a), Ternary(Leaf(b), Leaf(c), Leaf(d))));
    ChoiceTree(a, b, c);
    RangeTree(i, Ternary(Leaf(a), Leaf(b), Leaf(c)), Leaf(d));
    WholeInput([Atom(a), Question, Atom(b), Colon, Atom(c), Range(i), Atom(d)], RangeOf(i, Ternary(Leaf(a), Leaf(b), Leaf(c)), Leaf(d)));
    RangeTree(i, Leaf(a), Leaf(b));
    RangeTree(j, RangeOf(i, Leaf(a), Leaf(b)), Leaf(c));
    WholeInput([Atom(a), Range(i), Atom(b), Range(j), Atom(c)], RangeOf(j, RangeOf(i, Leaf(a), Leaf(b)), Leaf(c)));
  }

  lemma RangeTree(i: bool, l: Tree, r: Tree)
    requires Grouped(l) && Grouped(r) && !l.AssignTo? && !r.AssignTo? && !r.RangeOf?
    ensures var c := RangeOf(i, l, r);
            Flatten(c) == Flatten(l) + [Range(i)] + Flatten(r) && Nesting(c) <= 1 + Nesting(l) + Nesting(r) && Grouped(c)
    ensures l.Leaf? ==> Flatten(l) == [Atom(l.n)] && Nesting(l) == 0
    ensures r.Leaf? ==> Flatten(r) == [Atom(r.n)] && Nesting(r) == 0
  {
    assert Flatten(RangeOf(i, l, r)) == Flatten(l) + ([Range(i)] + Flatten(r));
  }

  // An assignment binds least of all, and groups to the right: whatever is written on its right, up to
  // something that does not continue it, is assigned.
  lemma AssignLast(op: nat, l: Tree, r: Tree)
    requires Grouped(l) && Grouped(r) && !l.AssignTo? && Nesting(l) < 256 && Nesting(r) < 255
    ensures Parse(Flatten(l) + [Assign(op)] + Flatten(r), 0, PREC_ASSIGNMENT, 0) == Ok(AssignTo(op, l, r), |Flatten(l)| + 1 + |Flatten(r)|)
  {
    hide Parse;
    assert Flatten(l) + [Assign(op)] + Flatten(r) == Flatten(AssignTo(op, l, r));
    WholeInput(Flatten(l) + [Assign(op)] + Flatten(r), AssignTo(op, l, r));
  }
}

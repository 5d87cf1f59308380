/** Every tree that obeys the precedence table is parsed back from its tokens.
 */
module PrattComplete {
  import opened Pratt

  // An operator of this precedence may follow the tree without becoming part of it.
  predicate Follows(c: Tree, q: nat) {
    match c
    case Leaf(_) => q < PREC_CALL
    case Group(_) => q < PREC_CALL
    case Unary(_, _) => q < PREC_UNARY
    case Binary(op, _, _) => q <= Prec(op)
    case Ternary(_, _, _) => q < PREC_TERNARY
    case RangeOf(_, _, _) => q <= PREC_RANGE
    case AssignTo(_, _, _) => q < PREC_ASSIGNMENT
  }

  lemma FollowsLow(c: Tree, min: nat, q: nat)
    requires Level(c) >= min && q < min <= PREC_UNARY
    ensures Follows(c, q)
  {
  }

  predicate IsPairTree(c: Tree) {
    c.Binary? || c.RangeOf? || c.AssignTo?
  }

  function TokOf(c: Tree): Tok
    requires IsPairTree(c)
  {
    if c.AssignTo? then Assign(c.aop) else if c.RangeOf? then Range(c.inclusive) else c.op
  }

  lemma PairFacts(c: Tree)
    requires IsPairTree(c) && Obeys(c)
    ensures var t := TokOf(c);
            && IsPair(t) && Build(t, c.l, c.r) == c && Level(c) == Prec(t) && 1 <= RightMin(t) <= PREC_UNARY
            && Flatten(c) == Flatten(c.l) + ([t] + Flatten(c.r)) && Nesting(c) == Max(Nesting(c.l), 1 + Nesting(c.r))
            && (forall q: nat :: Follows(c, q) ==> q < RightMin(t))
  {
    hide Flatten, Nesting, Follows, Obeys;
    PairKind(c);
    FlattenPair(c);
    NestingPair(c);
    FollowsPair(c);
  }

  // Its operator is one of the binary ones.
  predicate PairTok(c: Tree) {
    IsPairTree(c) && (c.Binary? ==> IsBinary(c.op))
  }

  lemma PairKind(c: Tree)
    requires IsPairTree(c) && Obeys(c)
    ensures PairTok(c)
  {
    hide Flatten, Nesting, Follows, Level;
  }

  lemma NestingPair(c: Tree)
    requires IsPairTree(c)
    ensures Nesting(c) == Max(Nesting(c.l), 1 + Nesting(c.r))
  {
    hide Flatten, Follows, Obeys, Level;
  }

  lemma FollowsPair(c: Tree)
    requires PairTok(c)
    ensures forall q: nat :: Follows(c, q) ==> q < RightMin(TokOf(c))
  {
    hide Flatten, Nesting, Obeys;
  }

  lemma PairSides(c: Tree)
    requires IsPairTree(c) && Obeys(c)
    ensures var t := TokOf(c);
            && Obeys(c.l) && Obeys(c.r) && Level(c.l) >= Prec(t) && Level(c.r) >= RightMin(t) && Follows(c.l, Prec(t))
  {
    hide Flatten, Nesting;
    AtLeastOne(c.r);
  }

  lemma FlattenPair(c: Tree)
    requires IsPairTree(c)
    ensures Flatten(c) == Flatten(c.l) + ([TokOf(c)] + Flatten(c.r))
  {
  }

  // What parsing a written tree comes to: the loop with the tree as its left operand, or too deep.
  function Onward(toks: seq<Tok>, end: nat, min: nat, c: Tree, depth: nat): Res
    requires end <= |toks| && min >= 1
  {
    if depth + 1 + Nesting(c) <= MAX_DEPTH then Climb(toks, end, min, c, depth + 1) else Err
  }

  lemma Exact(c: Tree, toks: seq<Tok>, pos: nat, min: nat, depth: nat)
    requires Obeys(c) && Level(c) >= min >= 1 && At(toks, pos, Flatten(c)) && pos + |Flatten(c)| <= |toks|
    requires Follows(c, Prec(Peek(toks, pos + |Flatten(c)|)))
    ensures Parse(toks, pos, min, depth) == Onward(toks, pos + |Flatten(c)|, min, c, depth)
    decreases c, 1
  {
    hide Parse, Climb, At, Peek, Flatten, Onward, Nesting;
    if IsPairTree(c) {
      PairExact(c, toks, pos, min, depth);
    } else if c.Ternary? {
      TernaryExact(c, toks, pos, min, depth);
    } else {
      PrimaryExact(c, toks, pos, min, depth);
    }
  }

  // A tree that is not followed by anything that could belong to it.
  lemma Whole(c: Tree, toks: seq<Tok>, pos: nat, min: nat, depth: nat)
    requires Obeys(c) && Level(c) >= min >= 1 && min <= PREC_UNARY && At(toks, pos, Flatten(c)) && pos + |Flatten(c)| <= |toks|
    requires Prec(Peek(toks, pos + |Flatten(c)|)) < min
    ensures Parse(toks, pos, min, depth) == if depth + 1 + Nesting(c) <= MAX_DEPTH then Ok(c, pos + |Flatten(c)|) else Err
    decreases c, 2
  {
    hide Parse, Climb, At, Peek, Flatten, Nesting;
    var end := pos + |Flatten(c)|;
    FollowsLow(c, min, Prec(Peek(toks, end)));
    Exact(c, toks, pos, min, depth);
    ClimbOpened(toks, end, min, c, depth + 1);
  }

  lemma PrimaryExact(c: Tree, toks: seq<Tok>, pos: nat, min: nat, depth: nat)
    requires (c.Leaf? || c.Group? || c.Unary?) && Obeys(c) && min >= 1 && At(toks, pos, Flatten(c)) && pos + |Flatten(c)| <= |toks|
    requires Follows(c, Prec(Peek(toks, pos + |Flatten(c)|)))
    ensures Parse(toks, pos, min, depth) == Onward(toks, pos + |Flatten(c)|, min, c, depth)
    decreases c, 0
  {
    hide Parse, Climb, Primary, At, Peek, Flatten, Nesting, Prec, Obeys, Follows, Level;
    ParseOpened(toks, pos, min, depth);
    PrimaryFacts(c);
    match c
    case Leaf(n) =>
      AtOne(toks, pos, Atom(n), []);
      PrimaryOpened(toks, pos, depth + 1);
    case Group(x) =>
      AtOne(toks, pos, LParen, Flatten(x) + [RParen]);
      AtSplit(toks, pos + 1, Flatten(x), [RParen]);
      assert [RParen] == [RParen] + [];
      AtOne(toks, pos + 1 + |Flatten(x)|, RParen, []);
      PrimaryOpened(toks, pos, depth + 1);
      Whole(x, toks, pos + 1, PREC_ASSIGNMENT, depth + 1);
    case Unary(op, x) =>
      AtOne(toks, pos, op, Flatten(x));
      PrimaryOpened(toks, pos, depth + 1);
      Whole(x, toks, pos + 1, PREC_UNARY, depth + 1);
  }

  lemma PrimaryFacts(c: Tree)
    requires Obeys(c)
    ensures c.Leaf? ==> Flatten(c) == [Atom(c.n)] + [] && Nesting(c) == 0
    ensures c.Group? ==>
              Flatten(c) == [LParen] + (Flatten(c.x) + [RParen]) && Nesting(c) == 1 + Nesting(c.x) && Obeys(c.x)
              && Level(c.x) >= PREC_ASSIGNMENT && Prec(RParen) == 0
    ensures c.Unary? ==>
              Flatten(c) == [c.op] + Flatten(c.x) && Nesting(c) == 1 + Nesting(c.x) && Obeys(c.x) && Level(c.x) >= PREC_UNARY
              && IsUnary(c.op) && forall q: nat :: Follows(c, q) ==> q < PREC_UNARY
  {
    if c.Group? {
      AtLeastOne(c.x);
    }
  }

  lemma AtLeastOne(c: Tree)
    requires Obeys(c)
    ensures Level(c) >= PREC_ASSIGNMENT
  {
  }

  lemma PairExact(c: Tree, toks: seq<Tok>, pos: nat, min: nat, depth: nat)
    requires IsPairTree(c) && Obeys(c) && Level(c) >= min >= 1 && At(toks, pos, Flatten(c)) && pos + |Flatten(c)| <= |toks|
    requires Follows(c, Prec(Peek(toks, pos + |Flatten(c)|)))
    ensures Parse(toks, pos, min, depth) == Onward(toks, pos + |Flatten(c)|, min, c, depth)
    decreases c, 0
  {
    hide Parse, Climb, Operand, At, Peek, Flatten, Follows, Obeys, Level, Nesting, Prec, Build, IsPair, RightMin, TokOf;
    PairFacts(c);
    PairSides(c);
    var t, mid := TokOf(c), pos + |Flatten(c.l)|;
    AtSplit(toks, pos, Flatten(c.l), [t] + Flatten(c.r));
    AtOne(toks, mid, t, Flatten(c.r));
    Exact(c.l, toks, pos, min, depth);
    if depth + 1 + Nesting(c.l) <= MAX_DEPTH {
      ClimbOpened(toks, mid, min, c.l, depth + 1);
      PairOpened(toks, mid, c.l, depth + 1);
      Whole(c.r, toks, mid + 1, RightMin(t), depth + 1);
    }
  }

  lemma TernaryFacts(c: Tree)
    requires c.Ternary? && Obeys(c)
    ensures Obeys(c.cond) && Obeys(c.thn) && Obeys(c.els) && Follows(c.cond, PREC_TERNARY) && Level(c.cond) >= PREC_TERNARY
    ensures Level(c.thn) >= PREC_ASSIGNMENT && Level(c.els) >= PREC_TERNARY && Level(c) == PREC_TERNARY
    ensures Flatten(c) == Flatten(c.cond) + ([Question] + (Flatten(c.thn) + ([Colon] + Flatten(c.els))))
    ensures Nesting(c) == Max(Nesting(c.cond), Max(1 + Nesting(c.thn), 1 + Nesting(c.els)))
    ensures forall q: nat :: Follows(c, q) ==> q < PREC_TERNARY
  {
    AtLeastOne(c.thn);
  }

  lemma TernaryExact(c: Tree, toks: seq<Tok>, pos: nat, min: nat, depth: nat)
    requires c.Ternary? && Obeys(c) && Level(c) >= min >= 1 && At(toks, pos, Flatten(c)) && pos + |Flatten(c)| <= |toks|
    requires Follows(c, Prec(Peek(toks, pos + |Flatten(c)|)))
    ensures Parse(toks, pos, min, depth) == Onward(toks, pos + |Flatten(c)|, min, c, depth)
    decreases c, 0
  {
    hide Parse, Climb, Operand, At, Peek, Flatten, Follows, Obeys, Level, Nesting;
    TernaryFacts(c);
    var q := pos + |Flatten(c.cond)|;
    var k := q + 1 + |Flatten(c.thn)|;
    AtSplit(toks, pos, Flatten(c.cond), [Question] + (Flatten(c.thn) + ([Colon] + Flatten(c.els))));
    AtOne(toks, q, Question, Flatten(c.thn) + ([Colon] + Flatten(c.els)));
    AtSplit(toks, q + 1, Flatten(c.thn), [Colon] + Flatten(c.els));
    AtOne(toks, k, Colon, Flatten(c.els));
    Exact(c.cond, toks, pos, min, depth);
    if depth + 1 + Nesting(c.cond) <= MAX_DEPTH {
      ClimbOpened(toks, q, min, c.cond, depth + 1);
      TernaryOpened(toks, q, c.cond, depth + 1);
      Whole(c.thn, toks, q + 1, PREC_ASSIGNMENT, depth + 1);
      Whole(c.els, toks, k + 1, PREC_TERNARY, depth + 1);
    }
  }

  // For every tree that obeys the table, written down in front of anything that cannot continue an
  // expression: it is parsed back exactly if it fits the depth limit, and refused if it does not.
  lemma ParseUndoesFlatten(c: Tree, before: seq<Tok>, after: seq<Tok>, depth: nat)
    requires Obeys(c) && (after == [] || Prec(after[0]) == 0)
    ensures Parse(before + Flatten(c) + after, |before|, PREC_ASSIGNMENT, depth) ==
            if depth + 1 + Nesting(c) <= MAX_DEPTH then Ok(c, |before| + |Flatten(c)|) else Err
  {
    hide Parse, Flatten, Nesting;
    var toks := before + Flatten(c) + after;
    assert toks[|before|..|before| + |Flatten(c)|] == Flatten(c);
    assert after != [] ==> toks[|before| + |Flatten(c)|] == after[0];
    AtLeastOne(c);
    Whole(c, toks, |before|, PREC_ASSIGNMENT, depth);
  }
}

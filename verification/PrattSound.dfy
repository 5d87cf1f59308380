/** Whatever is parsed obeys the precedence table and is what was read.
 */
module PrattSound {
  import opened Pratt
  import opened PrattComplete

  lemma AtJoin(toks: seq<Tok>, pos: nat, a: seq<Tok>, b: seq<Tok>)
    requires At(toks, pos, a) && At(toks, pos + |a|, b)
    ensures At(toks, pos, a + b)
  {
    assert toks[pos..pos + |a + b|] == toks[pos..pos + |a|] + toks[pos + |a|..pos + |a| + |b|];
  }

  lemma AtCons(toks: seq<Tok>, pos: nat, rest: seq<Tok>)
    requires pos < |toks| && At(toks, pos + 1, rest)
    ensures At(toks, pos, [toks[pos]] + rest)
  {
    assert toks[pos..pos + 1] == [toks[pos]];
    AtJoin(toks, pos, [toks[pos]], rest);
  }

  // The tree stands written between two positions, obeys the table, and fits the depth limit.
  ghost predicate Read(toks: seq<Tok>, pos: nat, c: Tree, end: nat, depth: nat) {
    Obeys(c) && At(toks, pos, Flatten(c)) && end == pos + |Flatten(c)| && depth + Nesting(c) <= MAX_DEPTH
  }

  lemma {:induction false} ParseSound(toks: seq<Tok>, pos: nat, min: nat, depth: nat)
    requires pos <= |toks| && 1 <= min <= PREC_UNARY
    ensures var r := Parse(toks, pos, min, depth);
            r.Ok? ==> Read(toks, pos, r.c, r.pos, depth + 1) && Level(r.c) >= min && Prec(Peek(toks, r.pos)) < min
    decreases |toks| - pos, 3
  {
    hide Primary, Climb, Read, Level, Prec;
    if depth + 1 <= MAX_DEPTH {
      PrimarySound(toks, pos, depth + 1);
      var r := Primary(toks, pos, depth + 1);
      if r.Ok? {
        ClimbSound(toks, pos, r.pos, min, r.c, depth + 1);
      }
    }
  }

  // What may come next: something that leaves the tree alone, or an opening parenthesis.
  predicate Next(c: Tree, t: Tok) {
    t.LParen? || Follows(c, Prec(t))
  }

  lemma {:induction false} PrimarySound(toks: seq<Tok>, pos: nat, depth: nat)
    requires pos <= |toks| && depth <= MAX_DEPTH
    ensures var r := Primary(toks, pos, depth);
            r.Ok? ==> Read(toks, pos, r.c, r.pos, depth) && Level(r.c) >= PREC_UNARY && Next(r.c, Peek(toks, r.pos))
    decreases |toks| - pos, 1
  {
    hide Parse, At;
    if pos < |toks| {
      var t := toks[pos];
      if t.Atom? {
        assert Flatten(Leaf(t.n)) == [t] + [];
        AtNone(toks, pos + 1);
        AtCons(toks, pos, []);
      } else if t.LParen? {
        ParseSound(toks, pos + 1, PREC_ASSIGNMENT, depth);
        var r := Parse(toks, pos + 1, PREC_ASSIGNMENT, depth);
        if r.Ok? && Peek(toks, r.pos).RParen? {
          AtNone(toks, r.pos + 1);
          AtCons(toks, r.pos, []);
          assert [RParen] + [] == [RParen];
          AtJoin(toks, pos + 1, Flatten(r.c), [RParen]);
          AtCons(toks, pos, Flatten(r.c) + [RParen]);
        }
      } else if IsUnary(t) {
        ParseSound(toks, pos + 1, PREC_UNARY, depth);
        var r := Parse(toks, pos + 1, PREC_UNARY, depth);
        if r.Ok? {
          AtCons(toks, pos, Flatten(r.c));
        }
      }
    }
  }

  lemma AtNone(toks: seq<Tok>, pos: nat)
    requires pos <= |toks|
    ensures At(toks, pos, [])
  {
  }

  lemma {:induction false} ClimbSound(toks: seq<Tok>, start: nat, pos: nat, min: nat, left: Tree, depth: nat)
    requires pos <= |toks| && 1 <= min <= PREC_UNARY && Read(toks, start, left, pos, depth)
    requires Level(left) >= min && Next(left, Peek(toks, pos))
    ensures var r := Climb(toks, pos, min, left, depth);
            r.Ok? ==> Read(toks, start, r.c, r.pos, depth) && Level(r.c) >= min && Prec(Peek(toks, r.pos)) < min
    decreases |toks| - pos, 2
  {
    hide Operand, Read, Level, Prec, Next;
    if Prec(Peek(toks, pos)) >= min {
      OperandSound(toks, start, pos, left, depth);
      var r := Operand(toks, pos, left, depth);
      if r.Ok? {
        ClimbSound(toks, start, r.pos, min, r.c, depth);
      }
    }
  }

  lemma {:induction false} OperandSound(toks: seq<Tok>, start: nat, pos: nat, left: Tree, depth: nat)
    requires pos <= |toks| && Prec(Peek(toks, pos)) >= 1 && Read(toks, start, left, pos, depth) && Next(left, Peek(toks, pos))
    ensures var r := Operand(toks, pos, left, depth);
            r.Ok? ==> Read(toks, start, r.c, r.pos, depth) && Level(r.c) == Prec(Peek(toks, pos)) && Next(r.c, Peek(toks, r.pos))
    decreases |toks| - pos, 1
  {
    var t := Peek(toks, pos);
    if t.Question? {
      TernarySound(toks, start, pos, left, depth);
    } else if IsPair(t) {
      PairSound(toks, start, pos, left, depth);
    }
  }

  lemma {:induction false} PairSound(toks: seq<Tok>, start: nat, pos: nat, left: Tree, depth: nat)
    requires pos < |toks| && IsPair(toks[pos]) && Read(toks, start, left, pos, depth) && Next(left, toks[pos])
    ensures Peek(toks, pos) == toks[pos] && Prec(toks[pos]) >= 1
    ensures var r := Operand(toks, pos, left, depth);
            r.Ok? ==> Read(toks, start, r.c, r.pos, depth) && Level(r.c) == Prec(toks[pos]) && Next(r.c, Peek(toks, r.pos))
    decreases |toks| - pos, 0
  {
    hide Parse, Operand, At, Flatten, Nesting;
    var t := toks[pos];
    PairOpened(toks, pos, left, depth);
    ParseSound(toks, pos + 1, RightMin(t), depth);
    var r := Parse(toks, pos + 1, RightMin(t), depth);
    if r.Ok? {
      AtCons(toks, pos, Flatten(r.c));
      AtJoin(toks, start, Flatten(left), [t] + Flatten(r.c));
      PairObeys(t, left, r.c);
      BuildFacts(t, left, r.c);
    }
  }

  lemma PairObeys(t: Tok, l: Tree, r: Tree)
    requires IsPair(t) && Obeys(l) && Obeys(r) && Follows(l, Prec(t)) && Level(r) >= RightMin(t)
    ensures Obeys(Build(t, l, r)) && Level(Build(t, l, r)) == Prec(t)
    ensures forall q: nat :: q < RightMin(t) ==> Follows(Build(t, l, r), q)
  {
  }

  lemma BuildFacts(t: Tok, l: Tree, r: Tree)
    requires IsPair(t)
    ensures Flatten(Build(t, l, r)) == Flatten(l) + ([t] + Flatten(r)) && Nesting(Build(t, l, r)) == Max(Nesting(l), 1 + Nesting(r))
  {
  }

  lemma {:induction false} TernarySound(toks: seq<Tok>, start: nat, pos: nat, left: Tree, depth: nat)
    requires pos < |toks| && toks[pos].Question? && Read(toks, start, left, pos, depth) && Next(left, toks[pos])
    ensures Peek(toks, pos) == toks[pos] && Prec(toks[pos]) == PREC_TERNARY
    ensures var r := Operand(toks, pos, left, depth);
            r.Ok? ==> Read(toks, start, r.c, r.pos, depth) && Level(r.c) == PREC_TERNARY && Next(r.c, Peek(toks, r.pos))
    decreases |toks| - pos, 0
  {
    hide Parse, Operand, At, Flatten, Nesting;
    TernaryOpened(toks, pos, left, depth);
    ParseSound(toks, pos + 1, PREC_ASSIGNMENT, depth);
    var a := Parse(toks, pos + 1, PREC_ASSIGNMENT, depth);
    if a.Ok? && Peek(toks, a.pos).Colon? {
      ParseSound(toks, a.pos + 1, PREC_TERNARY, depth);
      var b := Parse(toks, a.pos + 1, PREC_TERNARY, depth);
      if b.Ok? {
        AtCons(toks, a.pos, Flatten(b.c));
        AtJoin(toks, pos + 1, Flatten(a.c), [Colon] + Flatten(b.c));
        AtCons(toks, pos, Flatten(a.c) + ([Colon] + Flatten(b.c)));
        AtJoin(toks, start, Flatten(left), [Question] + (Flatten(a.c) + ([Colon] + Flatten(b.c))));
        TernaryObeys(left, a.c, b.c);
      }
    }
  }

  lemma TernaryObeys(x: Tree, t: Tree, f: Tree)
    requires Obeys(x) && Obeys(t) && Obeys(f) && Follows(x, PREC_TERNARY) && Level(f) >= PREC_TERNARY
    ensures Obeys(Ternary(x, t, f))
    ensures Flatten(Ternary(x, t, f)) == Flatten(x) + ([Question] + (Flatten(t) + ([Colon] + Flatten(f))))
    ensures Nesting(Ternary(x, t, f)) == Max(Nesting(x), Max(1 + Nesting(t), 1 + Nesting(f)))
  {
  }

  // The parser accepts exactly the trees that obey the table and fit, followed by no operator.
  lemma ParseIff(toks: seq<Tok>, pos: nat, depth: nat, c: Tree, end: nat)
    requires pos <= |toks|
    ensures Parse(toks, pos, PREC_ASSIGNMENT, depth) == Ok(c, end) <==>
            && Obeys(c) && At(toks, pos, Flatten(c)) && end == pos + |Flatten(c)| && Prec(Peek(toks, end)) == 0
            && depth + 1 + Nesting(c) <= MAX_DEPTH
  {
    hide Parse, At, Peek, Flatten, Nesting;
    ParseSound(toks, pos, PREC_ASSIGNMENT, depth);
    if Obeys(c) && At(toks, pos, Flatten(c)) && Prec(Peek(toks, pos + |Flatten(c)|)) == 0 {
      AtLeastOne(c);
      AtBound(toks, pos, Flatten(c));
      Whole(c, toks, pos, PREC_ASSIGNMENT, depth);
    }
  }

  lemma AtBound(toks: seq<Tok>, pos: nat, s: seq<Tok>)
    requires At(toks, pos, s)
    ensures pos + |s| <= |toks|
  {
  }
}

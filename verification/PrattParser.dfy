/** The parser itself: tokens, a position and a depth, changed in place.
 */
module PrattParser {
  import opened Pratt
  import opened PrattComplete
  import opened PrattPrint

  datatype Option<T> = None | Some(value: T)

  class Parser {
    const toks: seq<Tok>
    var pos: nat
    var depth: nat
    var hadError: bool

    constructor (input: seq<Tok>)
      ensures toks == input && pos == 0 && depth == 0 && !hadError
    {
      toks, pos, depth, hadError := input, 0, 0, false;
    }

    ghost predicate Valid()
      reads this
    {
      pos <= |toks|
    }

    // On every return path the depth is restored and the position has not moved back. Without an
    // error before, the result is that of `spec`, without its parentheses, or there is an error now.
    twostate predicate Returns(new r: Option<Tree>, spec: Res)
      reads this
    {
      && Valid() && depth == old(depth) && old(pos) <= pos && (old(hadError) ==> hadError)
      && (!old(hadError) ==> (hadError <==> spec.Err?))
      && (!hadError ==> spec.Ok? && r == Some(Strip(spec.c)) && pos == spec.pos)
    }

    method Advance()
      requires Valid()
      modifies `pos
      ensures Valid() && pos == if old(pos) < |toks| then old(pos) + 1 else old(pos)
    {
      if pos < |toks| {
        pos := pos + 1;
      }
    }

    method Consume(t: Tok)
      requires Valid()
      modifies `pos, `hadError
      ensures Valid() && if Peek(toks, old(pos)) == t && old(pos) < |toks| then pos == old(pos) + 1 && hadError == old(hadError)
                         else pos == old(pos) && hadError
    {
      if pos < |toks| && toks[pos] == t {
        Advance();
        return;
      }
      hadError := true;
    }

    method ParsePrimary() returns (r: Option<Tree>)
      requires Valid()
      modifies this
      ensures Returns(r, Primary(toks, old(pos), old(depth)))
      decreases |toks| - pos, 0
    {
      hide Parse, Prec;
      var t := Peek(toks, pos);
      if t.Atom? {
        Advance();
        r := Some(Leaf(t.n));
      } else if t.LParen? {
        Advance();
        r := ParsePrecedence(PREC_ASSIGNMENT);
        Consume(RParen);
      } else if IsUnary(t) {
        Advance();
        r := ParsePrecedence(PREC_UNARY);
        r := Some(Unary(t, Child(r)));
      } else {
        hadError := true;
        r := None;
      }
    }

    // The operator has been read; parse what it takes on its right.
    method ParseInfix(left: Tree, t: Tok, ghost c: Tree) returns (r: Option<Tree>)
      requires 0 < pos <= |toks| && toks[pos - 1] == t && Prec(t) >= 1 && left == Strip(c)
      modifies this
      ensures Returns(r, Operand(toks, old(pos) - 1, c, old(depth)))
      decreases |toks| - pos, 3
    {
      hide Parse, Operand, Strip, Prec;
      OperatorKinds(t);
      if t.LParen? {
        CallOpened(toks, pos - 1, c, depth);
        hadError := true;
        r := None;
      } else if t.Question? {
        r := ParseTernary(left, c);
      } else {
        PairOpened(toks, pos - 1, c, depth);
        if t.Assign? {
          var value := ParsePrecedence(PREC_ASSIGNMENT);
          r := Some(AssignTo(t.aop, left, Child(value)));
        } else if t.Range? {
          var end := ParsePrecedence(Prec(t) + 1);
          r := Some(RangeOf(t.inclusive, left, Child(end)));
        } else {
          var right := ParsePrecedence(Prec(t) + 1);
          r := Some(Binary(t, left, Child(right)));
        }
        ghost var spec := Parse(toks, old(pos), RightMin(t), old(depth));
        if spec.Ok? {
          StripBuild(t, c, spec.c);
        }
      }
    }

    method ParseTernary(left: Tree, ghost c: Tree) returns (r: Option<Tree>)
      requires 0 < pos <= |toks| && toks[pos - 1] == Question && left == Strip(c)
      modifies this
      ensures Prec(Question) >= 1 && Returns(r, Operand(toks, old(pos) - 1, c, old(depth)))
      decreases |toks| - pos, 2
    {
      hide Parse, Operand, Strip;
      TernaryOpened(toks, pos - 1, c, depth);
      ghost var a := Parse(toks, pos, PREC_ASSIGNMENT, depth);
      var thn := ParsePrecedence(PREC_ASSIGNMENT);
      Consume(Colon);
      ghost var b := if a.Ok? && a.pos < |toks| then Parse(toks, a.pos + 1, PREC_TERNARY, depth) else Err;
      var els := ParsePrecedence(PREC_TERNARY);
      r := Some(Ternary(left, Child(thn), Child(els)));
      if !hadError {
        StripTernary(c, a.c, b.c);
      }
    }

    method ParsePrecedence(min: nat) returns (r: Option<Tree>)
      requires Valid() && min >= 1
      modifies this
      ensures Returns(r, Parse(toks, old(pos), min, old(depth)))
      decreases |toks| - pos, 1
    {
      hide Primary, Climb, Operand, Strip;
      ParseOpened(toks, pos, min, depth);
      depth := depth + 1;
      if depth > MAX_DEPTH {
        hadError := true;
        depth := depth - 1;
        return None;
      }
      ghost var first := Primary(toks, pos, depth);
      r := ParsePrimary();
      if r.None? {
        depth := depth - 1;
        return;
      }
      ghost var c := if first.Ok? then first.c else Leaf(0);
      ghost var whole := Climb(toks, pos, min, c, depth);
      while !hadError
        invariant Valid() && depth == old(depth) + 1 && old(pos) <= pos && (old(hadError) ==> hadError)
        invariant r.Some? && (!hadError ==> r == Some(Strip(c)) && Climb(toks, pos, min, c, depth) == Parse(toks, old(pos), min, old(depth)))
        invariant !old(hadError) && hadError ==> Parse(toks, old(pos), min, old(depth)).Err?
        decreases !hadError, |toks| - pos
      {
        var t := Peek(toks, pos);
        ClimbOpened(toks, pos, min, c, depth);
        if Prec(t) < min {
          break;
        }
        ghost var next := Operand(toks, pos, c, depth);
        Advance();
        r := ParseInfix(r.value, t, c);
        if r.None? {
          depth := depth - 1;
          return;
        }
        c := if next.Ok? then next.c else c;
      }
      depth := depth - 1;
    }
  }

  lemma OperatorKinds(t: Tok)
    requires Prec(t) >= 1
    ensures t.LParen? || t.Question? || IsPair(t)
  {
  }

  lemma CallOpened(toks: seq<Tok>, pos: nat, left: Tree, depth: nat)
    requires pos < |toks| && toks[pos].LParen?
    ensures Prec(toks[pos]) >= 1 && Operand(toks, pos, left, depth) == Err
  {
  }

  lemma StripBuild(t: Tok, l: Tree, r: Tree)
    requires IsPair(t)
    ensures Strip(Build(t, l, r)) == Build(t, Strip(l), Strip(r))
  {
  }

  lemma StripTernary(x: Tree, t: Tree, f: Tree)
    ensures Strip(Ternary(x, t, f)) == Ternary(Strip(x), Strip(t), Strip(f))
  {
  }

  // A missing operand, left behind by an error.
  function Child(r: Option<Tree>): Tree {
    if r.None? then Leaf(0) else r.value
  }
}

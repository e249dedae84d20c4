/** The calculator's language: tokens, trees with explicit parentheses, the Pratt parser as a
    function on token lists, and the proof that parsing is the inverse of printing. */
module CalcSyntax {
  import opened Options

  datatype Op = Add | Sub | Mul | Div | Mod | Pow

  /** A number carries its text. Bad stands where the lexer fails; Eof never occurs in a list. */
  datatype Token = Num(text: string) | Sym(op: Op) | LParen | RParen | Bad | Eof

  datatype Expr =
    | Number(text: string)
    | Unary(negative: bool, arg: Expr)
    | Binary(op: Op, left: Expr, right: Expr)
    | Paren(inner: Expr)

  function BP(op: Op): nat {
    match op
    case Add => 10
    case Sub => 10
    case Mul => 20
    case Div => 20
    case Mod => 20
    case Pow => 30
  }

  function NextBP(op: Op): nat {
    if op == Pow then BP(op) - 1 else BP(op)
  }

  const UNARY_BP: nat := 100

  function InfixBP(t: Token): nat {
    if t.Sym? then BP(t.op) else 0
  }

  function Head(ts: seq<Token>): Token {
    if ts == [] then Eof else ts[0]
  }

  // ---------------------------------------------------------------------------
  // Parsing
  // ---------------------------------------------------------------------------

  /** Moving on to a token that does not lex is an error. */
  function Advance(ts: seq<Token>): Option<seq<Token>>
    requires ts != []
  {
    if Head(ts[1..]) == Bad then None else Some(ts[1..])
  }

  type Parsed = Option<(Expr, seq<Token>)>

  function ParseExpr(ts: seq<Token>, minBP: nat): (r: Parsed)
    ensures r.Some? ==> |r.value.1| < |ts|
    decreases |ts|, 1
  {
    match ParsePrefix(ts)
    case None => None
    case Some((lhs, rest)) => ParseLoop(lhs, rest, minBP)
  }

  function ParseLoop(lhs: Expr, ts: seq<Token>, minBP: nat): (r: Parsed)
    ensures r.Some? ==> |r.value.1| <= |ts|
    decreases |ts|, 0
  {
    if InfixBP(Head(ts)) <= minBP then Some((lhs, ts))
    else
      match Advance(ts)
      case None => None
      case Some(ts') =>
        match ParseExpr(ts', NextBP(ts[0].op))
        case None => None
        case Some((rhs, rest)) => ParseLoop(Binary(ts[0].op, lhs, rhs), rest, minBP)
  }

  function ParsePrefix(ts: seq<Token>): (r: Parsed)
    ensures r.Some? ==> |r.value.1| < |ts|
    decreases |ts|, 0
  {
    if ts == [] then None
    else
      match ts[0]
      case Num(text) => (match Advance(ts) case None => None case Some(ts') => Some((Number(text), ts')))
      case LParen => (match Advance(ts) case None => None case Some(ts') => ParseParen(ts'))
      case Sym(op) =>
        if op != Sub && op != Add then None
        else (match Advance(ts) case None => None case Some(ts') => ParseUnary(op == Sub, ts'))
      case _ => None
  }

  function ParseUnary(negative: bool, ts: seq<Token>): (r: Parsed)
    ensures r.Some? ==> |r.value.1| < |ts|
    decreases |ts|, 2
  {
    match ParseExpr(ts, UNARY_BP)
    case None => None
    case Some((arg, rest)) => Some((Unary(negative, arg), rest))
  }

  function ParseParen(ts: seq<Token>): (r: Parsed)
    ensures r.Some? ==> |r.value.1| < |ts|
    decreases |ts|, 2
  {
    match ParseExpr(ts, 0)
    case None => None
    case Some((inner, rest)) =>
      if Head(rest) != RParen then None
      else match Advance(rest) case None => None case Some(ts') => Some((Paren(inner), ts'))
  }

  // ---------------------------------------------------------------------------
  // Printing, and which trees print faithfully
  // ---------------------------------------------------------------------------

  function Print(e: Expr): (ts: seq<Token>)
    ensures |ts| > 0
  {
    match e
    case Number(text) => [Num(text)]
    case Unary(negative, arg) => [Sym(if negative then Sub else Add)] + Print(arg)
    case Binary(op, l, r) => Print(l) + [Sym(op)] + Print(r)
    case Paren(inner) => [LParen] + Print(inner) + [RParen]
  }

  /** How low an operator may bind that follows e without being taken into e. */
  function RightEdge(e: Expr): nat {
    if e.Binary? then NextBP(e.op) else UNARY_BP
  }

  /** e can be read with this minimum binding power. */
  predicate Fits(e: Expr, minBP: nat) {
    e.Binary? ==> BP(e.op) > minBP
  }

  /** The parentheses in e are enough: dropping the tree and reading the tokens gives e back. */
  predicate WellFormed(e: Expr) {
    match e
    case Number(_) => true
    case Unary(_, arg) => !arg.Binary? && WellFormed(arg)
    case Binary(op, l, r) =>
      WellFormed(l) && WellFormed(r) && BP(op) <= RightEdge(l) && Fits(r, NextBP(op))
    case Paren(inner) => WellFormed(inner)
  }

  /** Whatever was parsed is well formed, and its tokens are exactly those consumed. */
  ghost predicate Sound(ts: seq<Token>, minBP: nat, p: Parsed) {
    p.Some? ==>
      && WellFormed(p.value.0) && Fits(p.value.0, minBP)
      && ts == Print(p.value.0) + p.value.1
      && InfixBP(Head(p.value.1)) <= minBP
      && Head(p.value.1) != Bad
  }

  lemma {:induction false} ParseExprSound(ts: seq<Token>, minBP: nat)
    ensures Sound(ts, minBP, ParseExpr(ts, minBP))
    decreases |ts|, 1
  {
    ParsePrefixSound(ts);
    var p := ParsePrefix(ts);
    if p.Some? {
      var (lhs, rest) := p.value;
      ParseLoopSound(lhs, rest, minBP);
      var q := ParseLoop(lhs, rest, minBP);
      if q.Some? {
        assert ts == Print(q.value.0) + q.value.1;
      }
    }
  }

  lemma {:induction false} ParseLoopSound(lhs: Expr, ts: seq<Token>, minBP: nat)
    requires WellFormed(lhs) && Fits(lhs, minBP) && Head(ts) != Bad && InfixBP(Head(ts)) <= RightEdge(lhs)
    ensures Sound(Print(lhs) + ts, minBP, ParseLoop(lhs, ts, minBP))
    decreases |ts|, 0
  {
    if ts != [] && ts[0].Sym? && BP(ts[0].op) > minBP && Head(ts[1..]) != Bad {
      var op := ts[0].op;
      ParseExprSound(ts[1..], NextBP(op));
      var p := ParseExpr(ts[1..], NextBP(op));
      if p.Some? {
        var (rhs, rest) := p.value;
        var e := Binary(op, lhs, rhs);
        assert Print(lhs) + ts == Print(e) + rest by {
          assert ts == [Sym(op)] + (Print(rhs) + rest);
        }
        ParseLoopSound(e, rest, minBP);
      }
    }
  }

  /** A prefix form is never a bare binary operation, so it fits anywhere. */
  lemma {:induction false} ParsePrefixSound(ts: seq<Token>)
    ensures var p := ParsePrefix(ts);
            p.Some? ==>
              && WellFormed(p.value.0) && !p.value.0.Binary?
              && ts == Print(p.value.0) + p.value.1
              && Head(p.value.1) != Bad
    decreases |ts|, 0
  {
    if ts != [] && Head(ts[1..]) != Bad {
      if ts[0] == LParen {
        ParseExprSound(ts[1..], 0);
        var p := ParseExpr(ts[1..], 0);
        if p.Some? && Head(p.value.1) == RParen {
          assert p.value.1 == [RParen] + p.value.1[1..];
          assert ts == [LParen] + ts[1..];
        }
      } else if ts[0].Sym? {
        ParseExprSound(ts[1..], UNARY_BP);
        assert ts == [ts[0]] + ts[1..];
      } else {
        assert ts == [ts[0]] + ts[1..];
      }
    }
  }

  /** Tokens may follow e when the first of them is neither an error nor taken into e. */
  predicate Follows(e: Expr, rest: seq<Token>) {
    Head(rest) != Bad && InfixBP(Head(rest)) <= RightEdge(e)
  }

  lemma {:induction false} PrintNoBad(e: Expr)
    ensures Head(Print(e)) != Bad && Head(Print(e)) != Eof
    ensures forall rest :: Head(Print(e) + rest) == Head(Print(e))
  {
    if e.Binary? { PrintNoBad(e.left); }
  }

  /** Reading the tokens of e in front of others gives e, and goes on from there. */
  lemma {:induction false} ParsePrintPrefix(e: Expr, rest: seq<Token>)
    requires WellFormed(e) && !e.Binary? && Head(rest) != Bad
    ensures ParsePrefix(Print(e) + rest) == Some((e, rest))
    decreases e, 1
  {
    match e
    case Number(text) => assert (Print(e) + rest)[1..] == rest;
    case Unary(_, arg) => ParsePrintSigned(e, rest);
    case Paren(inner) => ParsePrintParen(e, rest);
  }

  lemma ParsePrintSigned(e: Expr, rest: seq<Token>)
    requires e.Unary? && WellFormed(e) && Head(rest) != Bad
    ensures ParsePrefix(Print(e) + rest) == Some((e, rest))
    decreases e, 0
  {
    var ts := Print(e) + rest;
    assert ts[1..] == Print(e.arg) + rest;
    PrintNoBad(e.arg);
    ParsePrintPrefix(e.arg, rest);
    assert ParseLoop(e.arg, rest, UNARY_BP) == Some((e.arg, rest));
    assert ParseExpr(ts[1..], UNARY_BP) == Some((e.arg, rest));
    assert ParsePrefix(ts) == ParseUnary(e.negative, ts[1..]);
  }

  lemma ParsePrintParen(e: Expr, rest: seq<Token>)
    requires e.Paren? && WellFormed(e) && Head(rest) != Bad
    ensures ParsePrefix(Print(e) + rest) == Some((e, rest))
    decreases e, 0
  {
    var ts := Print(e) + rest;
    var closed := [RParen] + rest;
    assert ts[1..] == Print(e.inner) + closed;
    assert closed[1..] == rest;
    PrintNoBad(e.inner);
    ParsePrint(e.inner, closed, 0);
  }

  lemma {:induction false} ParsePrint(e: Expr, rest: seq<Token>, minBP: nat)
    requires WellFormed(e) && Fits(e, minBP) && Follows(e, rest)
    ensures ParseExpr(Print(e) + rest, minBP) == ParseLoop(e, rest, minBP)
    decreases e, 2
  {
    if e.Binary? {
      var after := [Sym(e.op)] + (Print(e.right) + rest);
      assert Print(e) + rest == Print(e.left) + after;
      ParsePrint(e.left, after, minBP);
      assert after[1..] == Print(e.right) + rest;
      PrintNoBad(e.right);
      ParsePrint(e.right, rest, NextBP(e.op));
    } else {
      ParsePrintPrefix(e, rest);
    }
  }

  /** Main result: parsing a whole token list succeeds with e exactly when e is well formed
      and prints as that list. So at most one well-formed tree prints as a given list. */
  lemma ParseIffPrint(ts: seq<Token>, e: Expr)
    ensures ParseExpr(ts, 0) == Some((e, [])) <==> WellFormed(e) && Print(e) == ts
  {
    ParseExprSound(ts, 0);
    if ParseExpr(ts, 0) == Some((e, [])) {
      assert Print(e) + [] == Print(e);
    }
    if WellFormed(e) && Print(e) == ts {
      assert Fits(e, 0);
      ParsePrint(e, [], 0);
      assert ts + [] == ts;
    }
  }

  // ---------------------------------------------------------------------------
  // Minimal parentheses
  // ---------------------------------------------------------------------------

  function Strip(e: Expr): Expr {
    match e
    case Number(_) => e
    case Unary(negative, arg) => Unary(negative, Strip(arg))
    case Binary(op, l, r) => Binary(op, Strip(l), Strip(r))
    case Paren(inner) => Strip(inner)
  }

  predicate Abstract(e: Expr) {
    match e
    case Number(_) => true
    case Unary(_, arg) => Abstract(arg)
    case Binary(_, l, r) => Abstract(l) && Abstract(r)
    case Paren(_) => false
  }

  function Wrap(needed: bool, e: Expr): Expr {
    if needed then Paren(e) else e
  }

  /** Unary binds tightest, ^ to the right, everything else to the left. */
  function Parenthesize(e: Expr): Expr {
    match e
    case Number(_) => e
    case Unary(negative, arg) => Unary(negative, Wrap(arg.Binary?, Parenthesize(arg)))
    case Binary(op, l, r) =>
      Binary(op, Wrap(BP(op) > RightEdge(l), Parenthesize(l)), Wrap(!Fits(r, NextBP(op)), Parenthesize(r)))
    case Paren(inner) => Parenthesize(inner)
  }

  function Parens(e: Expr): nat {
    match e
    case Number(_) => 0
    case Unary(_, arg) => Parens(arg)
    case Binary(_, l, r) => Parens(l) + Parens(r)
    case Paren(inner) => 1 + Parens(inner)
  }

  lemma {:induction false} ParenthesizeKeepsMeaning(e: Expr)
    requires Abstract(e)
    ensures WellFormed(Parenthesize(e)) && Strip(Parenthesize(e)) == e
    ensures Parenthesize(e).Binary? <==> e.Binary?
    ensures e.Binary? ==> Parenthesize(e).op == e.op
  {
    match e
    case Number(_) =>
    case Unary(_, arg) => ParenthesizeKeepsMeaning(arg);
    case Binary(_, l, r) =>
      ParenthesizeKeepsMeaning(l);
      ParenthesizeKeepsMeaning(r);
  }

  /** No way of writing the same tree uses fewer parentheses. */
  lemma {:induction false} ParenthesizeIsMinimal(c: Expr)
    requires WellFormed(c)
    ensures Parens(Parenthesize(Strip(c))) <= Parens(c)
    decreases c, 0
  {
    match c
    case Number(_) =>
    case Paren(inner) => ParenthesizeIsMinimal(inner);
    case Unary(_, arg) => WrapIsMinimal(arg, Strip(arg).Binary?);
    case Binary(op, l, r) =>
      WrapIsMinimal(l, BP(op) > RightEdge(Strip(l)));
      WrapIsMinimal(r, !Fits(Strip(r), NextBP(op)));
  }

  lemma WrapIsMinimal(c: Expr, needed: bool)
    requires WellFormed(c) && (needed ==> c.Paren?)
    ensures Parens(Wrap(needed, Parenthesize(Strip(c)))) <= Parens(c)
    decreases c, 1
  {
    if needed {
      ParenthesizeIsMinimal(c.inner);
    } else {
      ParenthesizeIsMinimal(c);
    }
  }

  /** Token-level round trip: a tree printed with minimal parentheses parses back to itself. */
  lemma ParsePrintMinimal(e: Expr)
    requires Abstract(e)
    ensures var p := ParseExpr(Print(Parenthesize(e)), 0);
            p.Some? && Strip(p.value.0) == e && p.value.1 == []
  {
    ParenthesizeKeepsMeaning(e);
    ParseIffPrint(Print(Parenthesize(e)), Parenthesize(e));
  }
}

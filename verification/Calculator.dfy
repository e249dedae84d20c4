/** evalExpr: a parser that evaluates while it parses, over any number type.

    The fused evaluator is compared with parsing to a tree first and evaluating afterwards;
    the lexer and parser objects are then proved to compute the fused evaluator. */
module Calculator {
  import opened Options
  import opened CalcSyntax
  import opened CalcLexer

  /** The arithmetic is a parameter: nothing below depends on how numbers round. */
  datatype Arith<!V> = Arith(
    scan: string -> Option<V>,
    signed: (bool, V) -> V,
    add: (V, V) -> V, sub: (V, V) -> V, mul: (V, V) -> V,
    div: (V, V) -> V, mod: (V, V) -> V, pow: (V, V) -> V,
    isZero: V -> bool,
    isFinite: V -> bool)

  function Scans<V>(ar: Arith<V>): string -> bool {
    text => ar.scan(text).Some?
  }

  function Apply<V>(ar: Arith<V>, op: Op, l: V, r: V): Option<V> {
    match op
    case Add => Some(ar.add(l, r))
    case Sub => Some(ar.sub(l, r))
    case Mul => Some(ar.mul(l, r))
    case Div => if ar.isZero(r) then None else Some(ar.div(l, r))
    case Mod => if ar.isZero(r) then None else Some(ar.mod(l, r))
    case Pow => Some(ar.pow(l, r))
  }

  /** The value of a tree, None when a divisor in it is zero. */
  function Eval<V>(ar: Arith<V>, e: Expr): Option<V> {
    match e
    case Number(text) => ar.scan(text)
    case Unary(negative, arg) =>
      (match Eval(ar, arg) case None => None case Some(v) => Some(ar.signed(negative, v)))
    case Binary(op, l, r) =>
      (match (Eval(ar, l), Eval(ar, r))
       case (Some(x), Some(y)) => Apply(ar, op, x, y)
       case _ => None)
    case Paren(inner) => Eval(ar, inner)
  }

  // ---------------------------------------------------------------------------
  // The fused evaluator
  // ---------------------------------------------------------------------------

  function FusedExpr<V>(ar: Arith<V>, ts: seq<Token>, minBP: nat): (r: Option<(V, seq<Token>)>)
    ensures r.Some? ==> |r.value.1| < |ts|
    decreases |ts|, 1
  {
    match FusedPrefix(ar, ts)
    case None => None
    case Some((lhs, rest)) => FusedLoop(ar, lhs, rest, minBP)
  }

  function FusedLoop<V>(ar: Arith<V>, lhs: V, ts: seq<Token>, minBP: nat): (r: Option<(V, seq<Token>)>)
    ensures r.Some? ==> |r.value.1| <= |ts|
    decreases |ts|, 0
  {
    if InfixBP(Head(ts)) <= minBP then Some((lhs, ts))
    else
      match Advance(ts)
      case None => None
      case Some(ts') =>
        match FusedExpr(ar, ts', NextBP(ts[0].op))
        case None => None
        case Some((rhs, rest)) =>
          match Apply(ar, ts[0].op, lhs, rhs)
          case None => None
          case Some(v) => FusedLoop(ar, v, rest, minBP)
  }

  function FusedPrefix<V>(ar: Arith<V>, ts: seq<Token>): (r: Option<(V, seq<Token>)>)
    ensures r.Some? ==> |r.value.1| < |ts|
    decreases |ts|, 0
  {
    if ts == [] then None
    else
      match ts[0]
      case Num(text) =>
        (match (Advance(ts), ar.scan(text)) case (Some(ts'), Some(v)) => Some((v, ts')) case _ => None)
      case LParen => (match Advance(ts) case None => None case Some(ts') => FusedParen(ar, ts'))
      case Sym(op) =>
        if op != Sub && op != Add then None
        else (match Advance(ts) case None => None case Some(ts') => FusedUnary(ar, op == Sub, ts'))
      case _ => None
  }

  function FusedUnary<V>(ar: Arith<V>, negative: bool, ts: seq<Token>): (r: Option<(V, seq<Token>)>)
    ensures r.Some? ==> |r.value.1| < |ts|
    decreases |ts|, 2
  {
    match FusedExpr(ar, ts, UNARY_BP)
    case None => None
    case Some((v, rest)) => Some((ar.signed(negative, v), rest))
  }

  function FusedParen<V>(ar: Arith<V>, ts: seq<Token>): (r: Option<(V, seq<Token>)>)
    ensures r.Some? ==> |r.value.1| < |ts|
    decreases |ts|, 2
  {
    match FusedExpr(ar, ts, 0)
    case None => None
    case Some((v, rest)) =>
      if Head(rest) != RParen then None
      else match Advance(rest) case None => None case Some(ts') => Some((v, ts'))
  }

  /** Parse first, evaluate afterwards. */
  function ThenEval<V>(ar: Arith<V>, p: Parsed): Option<(V, seq<Token>)> {
    match p
    case None => None
    case Some((e, rest)) => match Eval(ar, e) case None => None case Some(v) => Some((v, rest))
  }

  /** A left operand without a value leaves the whole loop without one. */
  lemma {:induction false} LoopKeepsFailure<V>(ar: Arith<V>, lhs: Expr, ts: seq<Token>, minBP: nat)
    requires Eval(ar, lhs).None?
    ensures ThenEval(ar, ParseLoop(lhs, ts, minBP)).None?
    decreases |ts|
  {
    if InfixBP(Head(ts)) > minBP && Advance(ts).Some? {
      var p := ParseExpr(ts[1..], NextBP(ts[0].op));
      if p.Some? {
        LoopKeepsFailure(ar, Binary(ts[0].op, lhs, p.value.0), p.value.1, minBP);
      }
    }
  }

  lemma {:induction false} FusedLoopIsParseThenEval<V>(ar: Arith<V>, lhs: Expr, ts: seq<Token>, minBP: nat)
    requires Eval(ar, lhs).Some?
    ensures FusedLoop(ar, Eval(ar, lhs).value, ts, minBP) == ThenEval(ar, ParseLoop(lhs, ts, minBP))
    decreases |ts|, 0
  {
    if InfixBP(Head(ts)) > minBP && Advance(ts).Some? {
      FusedIsParseThenEval(ar, ts[1..], NextBP(ts[0].op));
      var p := ParseExpr(ts[1..], NextBP(ts[0].op));
      if p.Some? {
        var e := Binary(ts[0].op, lhs, p.value.0);
        if Eval(ar, e).Some? {
          FusedLoopIsParseThenEval(ar, e, p.value.1, minBP);
        } else {
          LoopKeepsFailure(ar, e, p.value.1, minBP);
        }
      }
    }
  }

  lemma {:induction false} FusedPrefixIsParseThenEval<V>(ar: Arith<V>, ts: seq<Token>)
    ensures FusedPrefix(ar, ts) == ThenEval(ar, ParsePrefix(ts))
    decreases |ts|, 0
  {
    if ts != [] && Advance(ts).Some? {
      if ts[0] == LParen {
        FusedIsParseThenEval(ar, ts[1..], 0);
      } else if ts[0].Sym? {
        FusedIsParseThenEval(ar, ts[1..], UNARY_BP);
      }
    }
  }

  /** Evaluating while parsing gives the same answer, and stops at the same place, as parsing
      to a tree and evaluating it: an early division error never hides a good answer. */
  lemma {:induction false} FusedIsParseThenEval<V>(ar: Arith<V>, ts: seq<Token>, minBP: nat)
    ensures FusedExpr(ar, ts, minBP) == ThenEval(ar, ParseExpr(ts, minBP))
    decreases |ts|, 1
  {
    FusedPrefixIsParseThenEval(ar, ts);
    var p := ParsePrefix(ts);
    if p.Some? {
      if Eval(ar, p.value.0).Some? {
        FusedLoopIsParseThenEval(ar, p.value.0, p.value.1, minBP);
      } else {
        LoopKeepsFailure(ar, p.value.0, p.value.1, minBP);
      }
    }
  }

  /** What evalExpr returns for a text. */
  function EvalText<V>(ar: Arith<V>, input: string): Option<V> {
    var ts := Lex(Scans(ar), input);
    if Head(ts) == Bad then None
    else
      match FusedExpr(ar, ts, 0)
      case None => None
      case Some((v, rest)) => if rest == [] && ar.isFinite(v) then Some(v) else None
  }

  /** Main result: evalExpr returns v exactly when the whole text is the spelling of a
      well-formed tree whose value is v, and v is finite. */
  lemma EvalTextIffTree<V>(ar: Arith<V>, input: string, v: V)
    ensures EvalText(ar, input) == Some(v)
       <==> ar.isFinite(v)
            && exists e :: WellFormed(e) && Print(e) == Lex(Scans(ar), input) && Eval(ar, e) == Some(v)
  {
    var ts := Lex(Scans(ar), input);
    FusedIsParseThenEval(ar, ts, 0);
    var p := ParseExpr(ts, 0);
    if EvalText(ar, input) == Some(v) {
      ParseIffPrint(ts, p.value.0);
    }
    if e :| WellFormed(e) && Print(e) == ts && Eval(ar, e) == Some(v) {
      ParseIffPrint(ts, e);
      PrintNoBad(e);
    }
  }

  // ---------------------------------------------------------------------------
  // The lexer and parser objects
  // ---------------------------------------------------------------------------

  class Lexer {
    const input: string
    const valid: string -> bool
    var pos: nat

    ghost predicate Valid()
      reads this
    {
      pos <= |input|
    }

    ghost function Rest(): string
      reads this
      requires Valid()
    {
      input[pos..]
    }

    constructor (input: string, valid: string -> bool)
      ensures Valid() && this.input == input && this.valid == valid && Rest() == input
    {
      this.input, this.valid, pos := input, valid, 0;
    }

    method SkipSpaces()
      requires Valid()
      modifies this
      ensures Valid() && Rest() == Skip(old(Rest()))
    {
      while pos < |input| && input[pos] == ' '
        invariant Valid()
        invariant Skip(Rest()) == Skip(old(Rest()))
      {
        assert Rest()[1..] == input[pos + 1..];
        pos := pos + 1;
      }
    }

    method ReadNumber() returns (text: string)
      requires Valid()
      modifies this
      ensures Valid()
      ensures var n := NumeralLength(old(Rest()), false); text == old(Rest())[..n] && Rest() == old(Rest())[n..]
    {
      var start := pos;
      var hasDot := false;
      ghost var all := Rest();
      while pos < |input|
        invariant start <= pos <= |input|
        invariant pos - start + NumeralLength(Rest(), hasDot) == NumeralLength(all, false)
      {
        var ch := input[pos];
        assert Rest()[1..] == input[pos + 1..];
        if ch == '.' {
          if hasDot {
            break;
          }
          hasDot := true;
          pos := pos + 1;
        } else if IsDigit(ch) {
          pos := pos + 1;
        } else {
          break;
        }
      }
      text := input[start..pos];
    }

    /** The next token; Bad stands for an error. */
    method Next() returns (t: Token)
      requires Valid()
      modifies this
      ensures Valid()
      ensures match t
              case Eof => Lex(valid, old(Rest())) == [] && Rest() == []
              case Bad => Lex(valid, old(Rest())) == [Bad]
              case _ => Lex(valid, old(Rest())) == [t] + Lex(valid, Rest())
    {
      SkipSpaces();
      if pos >= |input| {
        return Eof;
      }
      ghost var r := Rest();
      var ch := input[pos];
      var symbol := SymbolOf(ch);
      if symbol.Some? {
        pos := pos + 1;
        assert Rest() == r[1..];
        return symbol.value;
      }
      if IsDigit(ch) || ch == '.' {
        var text := ReadNumber();
        if !valid(text) {
          return Bad;
        }
        return Num(text);
      }
      return Bad;
    }
  }

  class Parser<V> {
    const lex: Lexer
    const ar: Arith<V>
    var current: Token

    ghost predicate Valid()
      reads this, lex
    {
      lex.Valid() && current != Bad && lex.valid == Scans(ar)
      && (current == Eof ==> Lex(lex.valid, lex.Rest()) == [])
    }

    /** The current token and everything behind it. */
    ghost function Remaining(): seq<Token>
      reads this, lex
      requires Valid()
    {
      if current == Eof then [] else [current] + Lex(lex.valid, lex.Rest())
    }

    /** The lexer has read the first token, and it is not an error. */
    constructor (lex: Lexer, ar: Arith<V>, first: Token)
      requires lex.Valid() && lex.valid == Scans(ar) && first != Bad
      requires first == Eof ==> Lex(lex.valid, lex.Rest()) == []
      ensures Valid() && this.lex == lex && this.ar == ar
      ensures Remaining() == if first == Eof then [] else [first] + Lex(lex.valid, lex.Rest())
    {
      this.lex, this.ar, current := lex, ar, first;
    }

    method Step() returns (ok: bool)
      requires Valid() && Remaining() != []
      modifies this, lex
      ensures Valid()
      ensures ok <==> Advance(old(Remaining())).Some?
      ensures ok ==> Remaining() == Advance(old(Remaining())).value
    {
      assert Remaining()[1..] == Lex(lex.valid, lex.Rest());
      var t := lex.Next();
      if t == Bad {
        return false;
      }
      current := t;
      ok := true;
    }

    /** What the method computed, measured against the fused evaluator. */
    ghost predicate Agrees(r: Option<V>, spec: Option<(V, seq<Token>)>)
      reads this, lex
      requires Valid()
    {
      match spec
      case None => r.None?
      case Some((v, rest)) => r == Some(v) && Remaining() == rest
    }

    method ParseExpr(minBP: nat) returns (r: Option<V>)
      requires Valid()
      modifies this, lex
      ensures Valid() && Agrees(r, FusedExpr(ar, old(Remaining()), minBP))
      decreases |Remaining()|, 2
    {
      ghost var ts := Remaining();
      r := ParsePrefix();
      if r.None? {
        return;
      }
      while InfixBP(current) > minBP
        invariant Valid() && r.Some?
        invariant |Remaining()| < |ts|
        invariant FusedLoop(ar, r.value, Remaining(), minBP) == FusedExpr(ar, ts, minBP)
        decreases |Remaining()|
      {
        var op := current.op;
        var ok := Step();
        if !ok {
          return None;
        }
        var rhs := ParseExpr(NextBP(op));
        if rhs.None? {
          return None;
        }
        r := Apply(ar, op, r.value, rhs.value);
        if r.None? {
          return;
        }
      }
    }

    method ParsePrefix() returns (r: Option<V>)
      requires Valid()
      modifies this, lex
      ensures Valid() && Agrees(r, FusedPrefix(ar, old(Remaining())))
      decreases |Remaining()|, 1
    {
      match current
      case Num(text) =>
        var value := ar.scan(text);
        var ok := Step();
        r := if ok then value else None;
      case Sym(op) =>
        if op == Sub || op == Add {
          r := ParseUnary(op == Sub);
        } else {
          r := None;
        }
      case LParen => r := ParseParenthesized();
      case _ => r := None;
    }

    method ParseUnary(negative: bool) returns (r: Option<V>)
      requires Valid() && Remaining() != [] && current == Sym(if negative then Sub else Add)
      modifies this, lex
      ensures Valid() && Agrees(r, FusedPrefix(ar, old(Remaining())))
      decreases |Remaining()|, 0
    {
      ghost var ts := Remaining();
      var ok := Step();
      if !ok {
        return None;
      }
      assert FusedPrefix(ar, ts) == FusedUnary(ar, negative, Remaining());
      r := ParseExpr(UNARY_BP);
      if r.Some? {
        r := Some(ar.signed(negative, r.value));
      }
    }

    method ParseParenthesized() returns (r: Option<V>)
      requires Valid() && Remaining() != [] && current == LParen
      modifies this, lex
      ensures Valid() && Agrees(r, FusedPrefix(ar, old(Remaining())))
      decreases |Remaining()|, 0
    {
      ghost var ts := Remaining();
      var ok := Step();
      if !ok {
        return None;
      }
      assert FusedPrefix(ar, ts) == FusedParen(ar, Remaining());
      r := ParseExpr(0);
      if r.None? {
        return;
      }
      if current != RParen {
        return None;
      }
      ok := Step();
      if !ok {
        return None;
      }
    }
  }

  method EvalExpr<V>(ar: Arith<V>, input: string) returns (r: Option<V>)
    ensures r == EvalText(ar, input)
  {
    var lex := new Lexer(input, Scans(ar));
    var first := lex.Next();
    if first == Bad {
      return None;
    }
    var p := new Parser(lex, ar, first);
    assert p.Remaining() == Lex(Scans(ar), input);
    r := p.ParseExpr(0);
    if r.None? {
      return;
    }
    if p.current != Eof {
      return None;
    }
    if !ar.isFinite(r.value) {
      return None;
    }
  }
}

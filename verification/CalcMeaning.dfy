/** What the calculator means by a text, without binding powers: precedence and associativity as a
    layered grammar, and the value of each operation as the user types it. */
module CalcMeaning {
  import opened Options
  import opened CalcSyntax
  import opened CalcLexer
  import opened Calculator

  // ---------------------------------------------------------------------------
  // The layered grammar
  // ---------------------------------------------------------------------------

  /** sum: sum (+ | -) product, or a product. */
  predicate IsSum(e: Expr)
    decreases e, 3
  {
    if e.Binary? && (e.op == Add || e.op == Sub) then IsSum(e.left) && IsProduct(e.right) else IsProduct(e)
  }

  /** product: product (* | / | %) power, or a power. */
  predicate IsProduct(e: Expr)
    decreases e, 2
  {
    if e.Binary? && (e.op == Mul || e.op == Div || e.op == Mod) then IsProduct(e.left) && IsPower(e.right)
    else IsPower(e)
  }

  /** power: operand ^ power, or an operand. */
  predicate IsPower(e: Expr)
    decreases e, 1
  {
    if e.Binary? && e.op == Pow then IsOperand(e.left) && IsPower(e.right) else IsOperand(e)
  }

  /** operand: a number, a signed operand, or a sum in parentheses. */
  predicate IsOperand(e: Expr)
    decreases e, 0
  {
    match e
    case Number(_) => true
    case Unary(_, arg) => IsOperand(arg)
    case Paren(inner) => IsSum(inner)
    case Binary(_, _, _) => false
  }

  lemma NotBinary(e: Expr)
    requires !e.Binary?
    ensures IsSum(e) == IsProduct(e) == IsPower(e) == IsOperand(e)
  {}

  /** At each layer: well formed, and binding more tightly than the layer above. */
  lemma {:induction false} Layers(e: Expr)
    ensures IsSum(e) <==> WellFormed(e)
    ensures IsProduct(e) <==> WellFormed(e) && !(e.Binary? && (e.op == Add || e.op == Sub))
    ensures IsPower(e) <==> WellFormed(e) && !(e.Binary? && e.op != Pow)
    ensures IsOperand(e) <==> WellFormed(e) && !e.Binary?
  {
    match e
    case Number(_) => NotBinary(e);
    case Unary(_, arg) =>
      Layers(arg);
      NotBinary(e);
    case Paren(inner) =>
      Layers(inner);
      NotBinary(e);
    case Binary(op, l, r) =>
      Layers(l);
      Layers(r);
      assert !IsOperand(e);
      assert IsPower(e) <==> op == Pow && IsOperand(l) && IsPower(r);
      assert op == Mul || op == Div || op == Mod ==> (IsProduct(e) <==> IsProduct(l) && IsPower(r));
  }

  /** Main result: the calculator reads exactly the layered grammar: + and - below *, / and %, those
      below ^, ^ to the right and everything else to the left, and a sign tightest of all. */
  lemma ParsesTheGrammar(ts: seq<Token>, e: Expr)
    ensures ParseExpr(ts, 0) == Some((e, [])) <==> IsSum(e) && Print(e) == ts
  {
    ParseIffPrint(ts, e);
    Layers(e);
  }

  // ---------------------------------------------------------------------------
  // Two operators
  // ---------------------------------------------------------------------------

  /** p is applied before q, which stands right of it. */
  predicate First(p: Op, q: Op) {
    || (p in {Mul, Div, Mod} && q in {Add, Sub})
    || (p == Pow && q in {Add, Sub, Mul, Div, Mod})
    || (p in {Add, Sub} && q in {Add, Sub})
    || (p in {Mul, Div, Mod} && q in {Mul, Div, Mod})
  }

  lemma PrintNumber(a: string)
    ensures Print(Number(a)) == [Num(a)]
  {}

  lemma PrintTwo(a: string, b: string, c: string, p: Op, q: Op)
    ensures Print(Binary(q, Binary(p, Number(a), Number(b)), Number(c))) == [Num(a), Sym(p), Num(b), Sym(q), Num(c)]
    ensures Print(Binary(p, Number(a), Binary(q, Number(b), Number(c)))) == [Num(a), Sym(p), Num(b), Sym(q), Num(c)]
  {
    PrintNumber(a);
    PrintNumber(b);
    PrintNumber(c);
    assert Print(Binary(p, Number(a), Number(b))) == [Num(a), Sym(p), Num(b)];
    assert Print(Binary(q, Number(b), Number(c))) == [Num(b), Sym(q), Num(c)];
  }

  lemma {:induction false} TwoOperators(a: string, b: string, c: string, p: Op, q: Op)
    ensures ParseExpr([Num(a), Sym(p), Num(b), Sym(q), Num(c)], 0)
         == Some((if First(p, q) then Binary(q, Binary(p, Number(a), Number(b)), Number(c))
                  else Binary(p, Number(a), Binary(q, Number(b), Number(c))), []))
  {
    var ts := [Num(a), Sym(p), Num(b), Sym(q), Num(c)];
    assert WellFormed(Number(a)) && WellFormed(Number(b)) && WellFormed(Number(c));
    if First(p, q) {
      var e := Binary(q, Binary(p, Number(a), Number(b)), Number(c));
      assert WellFormed(e.left);
      assert Print(e) == ts by { PrintTwo(a, b, c, p, q); }
      ParseIffPrint(ts, e);
    } else {
      var e := Binary(p, Number(a), Binary(q, Number(b), Number(c)));
      assert WellFormed(e.right);
      assert Print(e) == ts by { PrintTwo(a, b, c, p, q); }
      ParseIffPrint(ts, e);
    }
  }

  /** A sign belongs to the number behind it, also before ^. */
  lemma {:induction false} SignFirst(negative: bool, a: string, q: Op, b: string)
    ensures ParseExpr([Sym(if negative then Sub else Add), Num(a), Sym(q), Num(b)], 0)
         == Some((Binary(q, Unary(negative, Number(a)), Number(b)), []))
  {
    var ts := [Sym(if negative then Sub else Add), Num(a), Sym(q), Num(b)];
    var e := Binary(q, Unary(negative, Number(a)), Number(b));
    assert WellFormed(e.left);
    PrintNumber(a);
    PrintNumber(b);
    assert Print(e) == Print(e.left) + [Sym(q)] + Print(e.right) == ts;
    ParseIffPrint(ts, e);
  }

  // ---------------------------------------------------------------------------
  // Numerals
  // ---------------------------------------------------------------------------

  /** Digits with at most one dot, anywhere. */
  predicate IsNumeral(s: string) {
    && (forall i :: 0 <= i < |s| ==> s[i] in "0123456789.")
    && (forall i, j :: 0 <= i < j < |s| ==> !(s[i] == '.' && s[j] == '.'))
  }

  lemma DigitsAre(c: char)
    ensures c in "0123456789." <==> IsDigit(c) || c == '.'
  {}

  lemma {:induction false} NumeralPart(s: string, hasDot: bool)
    ensures var n := NumeralLength(s, hasDot);
            && IsNumeral(s[..n])
            && (hasDot ==> '.' !in s[..n])
            && (n < |s| ==> s[n] !in "0123456789." || (s[n] == '.' && (hasDot || '.' in s[..n])))
  {
    var n := NumeralLength(s, hasDot);
    if s != "" {
      DigitsAre(s[0]);
      if n > 0 {
        NumeralPart(s[1..], hasDot || s[0] == '.');
        assert s[..n] == [s[0]] + s[1..][..n - 1];
      }
    }
  }

  /** The lexer takes the longest numeral there is. */
  lemma NumeralIsLongest(s: string, n: nat)
    requires n <= |s|
    ensures NumeralLength(s, false) == n <==> IsNumeral(s[..n]) && (n < |s| ==> !IsNumeral(s[..n + 1]))
  {
    var m := NumeralLength(s, false);
    NumeralPart(s, false);
    if m < |s| { EndsNumeral(s, m); }
    if n > m && IsNumeral(s[..n]) { PrefixIsNumeral(s, m + 1, n); }
    if n < m { PrefixIsNumeral(s, n + 1, m); }
  }

  lemma EndsNumeral(s: string, m: nat)
    requires m < |s| && (s[m] !in "0123456789." || (s[m] == '.' && '.' in s[..m]))
    ensures !IsNumeral(s[..m + 1])
  {
    var t := s[..m + 1];
    assert t[m] == s[m];
    if s[m] == '.' {
      var i :| 0 <= i < m && s[..m][i] == '.';
      assert t[i] == '.';
    }
  }

  lemma PrefixIsNumeral(s: string, m: nat, n: nat)
    requires m <= n <= |s| && IsNumeral(s[..n])
    ensures IsNumeral(s[..m])
  {
    assert s[..n][..m] == s[..m];
  }

  // ---------------------------------------------------------------------------
  // What the user typed
  // ---------------------------------------------------------------------------

  function Finite<V>(ar: Arith<V>, v: V): Option<V> {
    if ar.isFinite(v) then Some(v) else None
  }

  /** The answer to a text that spells a tree. */
  lemma EvalTextOfTree<V>(ar: Arith<V>, input: string, e: Expr)
    requires WellFormed(e) && Lex(Scans(ar), input) == Print(e)
    ensures EvalText(ar, input) == match Eval(ar, e) case None => None case Some(v) => Finite(ar, v)
  {
    ParseIffPrint(Print(e), e);
    PrintNoBad(e);
    FusedIsParseThenEval(ar, Print(e), 0);
  }

  lemma NumeralToken<V>(ar: Arith<V>, a: string)
    requires a != "" && IsNumeral(a) && ar.scan(a).Some?
    ensures TokenOk(Scans(ar), Num(a)) && Stops("")
  {
    NumeralIsLongest(a, |a|);
    assert a[..|a|] == a;
  }

  lemma LexNumeral<V>(ar: Arith<V>, a: string, rest: string)
    requires a != "" && IsNumeral(a) && ar.scan(a).Some? && Stops(rest)
    ensures Lex(Scans(ar), a + rest) == [Num(a)] + Lex(Scans(ar), rest)
  {
    NumeralToken(ar, a);
    LexToken(Scans(ar), Num(a), 0, rest);
    assert Blanks(0) + (a + rest) == a + rest;
  }

  lemma LexSymbol<V>(ar: Arith<V>, op: Op, rest: string)
    ensures Lex(Scans(ar), [OpText(op)] + rest) == [Sym(op)] + Lex(Scans(ar), rest)
    ensures Stops([OpText(op)] + rest)
  {
    LexToken(Scans(ar), Sym(op), 0, rest);
    assert Blanks(0) + (Text(Sym(op)) + rest) == [OpText(op)] + rest;
  }

  lemma LexNumber<V>(ar: Arith<V>, a: string)
    requires a != "" && IsNumeral(a) && ar.scan(a).Some?
    ensures Lex(Scans(ar), a) == [Num(a)]
  {
    LexNumeral(ar, a, "");
    assert a + "" == a;
  }

  lemma LexTwo<V>(ar: Arith<V>, a: string, op: Op, b: string)
    requires a != "" && IsNumeral(a) && ar.scan(a).Some?
    requires b != "" && IsNumeral(b) && ar.scan(b).Some?
    ensures Lex(Scans(ar), a + [OpText(op)] + b) == [Num(a), Sym(op), Num(b)]
  {
    LexNumber(ar, b);
    LexSymbol(ar, op, b);
    LexNumeral(ar, a, [OpText(op)] + b);
    assert a + ([OpText(op)] + b) == a + [OpText(op)] + b;
  }

  lemma ValueOfTwo<V>(ar: Arith<V>, a: string, op: Op, b: string)
    requires a != "" && IsNumeral(a) && ar.scan(a).Some?
    requires b != "" && IsNumeral(b) && ar.scan(b).Some?
    ensures EvalText(ar, a + [OpText(op)] + b)
         == match Apply(ar, op, ar.scan(a).value, ar.scan(b).value) case None => None case Some(v) => Finite(ar, v)
  {
    var e := Binary(op, Number(a), Number(b));
    LexTwo(ar, a, op, b);
    PrintNumber(a);
    PrintNumber(b);
    assert Print(e) == [Num(a), Sym(op), Num(b)];
    assert WellFormed(Number(a)) && WellFormed(Number(b));
    assert Eval(ar, Number(a)) == ar.scan(a) && Eval(ar, Number(b)) == ar.scan(b);
    EvalTextOfTree(ar, a + [OpText(op)] + b, e);
  }

  /** Main result: the six operations as they are typed. Dividing by zero, or a result that is not
      finite, is an error. */
  lemma TypedOperation<V>(ar: Arith<V>, a: string, b: string, x: V, y: V)
    requires a != "" && IsNumeral(a) && ar.scan(a) == Some(x)
    requires b != "" && IsNumeral(b) && ar.scan(b) == Some(y)
    ensures EvalText(ar, a + "+" + b) == Finite(ar, ar.add(x, y))
    ensures EvalText(ar, a + "-" + b) == Finite(ar, ar.sub(x, y))
    ensures EvalText(ar, a + "*" + b) == Finite(ar, ar.mul(x, y))
    ensures EvalText(ar, a + "/" + b) == if ar.isZero(y) then None else Finite(ar, ar.div(x, y))
    ensures EvalText(ar, a + "%" + b) == if ar.isZero(y) then None else Finite(ar, ar.mod(x, y))
    ensures EvalText(ar, a + "^" + b) == Finite(ar, ar.pow(x, y))
  {
    ValueOfTwo(ar, a, Add, b);
    ValueOfTwo(ar, a, Sub, b);
    ValueOfTwo(ar, a, Mul, b);
    ValueOfTwo(ar, a, Div, b);
    ValueOfTwo(ar, a, Mod, b);
    ValueOfTwo(ar, a, Pow, b);
  }

  /** A sign, parentheses, and neither. */
  lemma TypedNumber<V>(ar: Arith<V>, a: string, x: V)
    requires a != "" && IsNumeral(a) && ar.scan(a) == Some(x)
    ensures EvalText(ar, a) == Finite(ar, x)
    ensures EvalText(ar, "-" + a) == Finite(ar, ar.signed(true, x))
    ensures EvalText(ar, "+" + a) == Finite(ar, ar.signed(false, x))
    ensures EvalText(ar, "(" + a + ")") == Finite(ar, x)
  {
    LexNumber(ar, a);
    PrintNumber(a);
    assert WellFormed(Number(a)) && Eval(ar, Number(a)) == Some(x);
    EvalTextOfTree(ar, a, Number(a));
    TypedSign(ar, a, x, true);
    TypedSign(ar, a, x, false);
    TypedParens(ar, a, x);
  }

  lemma TypedSign<V>(ar: Arith<V>, a: string, x: V, negative: bool)
    requires a != "" && IsNumeral(a) && ar.scan(a) == Some(x)
    ensures EvalText(ar, (if negative then "-" else "+") + a) == Finite(ar, ar.signed(negative, x))
  {
    var op := if negative then Sub else Add;
    var e := Unary(negative, Number(a));
    LexNumber(ar, a);
    PrintNumber(a);
    LexToken(Scans(ar), Sym(op), 0, a);
    assert Blanks(0) + (Text(Sym(op)) + a) == (if negative then "-" else "+") + a;
    assert WellFormed(Number(a)) && Eval(ar, Number(a)) == Some(x);
    assert Print(e) == [Sym(op), Num(a)];
    EvalTextOfTree(ar, (if negative then "-" else "+") + a, e);
  }

  lemma TypedParens<V>(ar: Arith<V>, a: string, x: V)
    requires a != "" && IsNumeral(a) && ar.scan(a) == Some(x)
    ensures EvalText(ar, "(" + a + ")") == Finite(ar, x)
  {
    var e := Paren(Number(a));
    NumeralToken(ar, a);
    PrintNumber(a);
    LexToken(Scans(ar), RParen, 0, "");
    assert Blanks(0) + (Text(RParen) + "") == ")";
    LexToken(Scans(ar), Num(a), 0, ")");
    assert Blanks(0) + (a + ")") == a + ")";
    LexToken(Scans(ar), LParen, 0, a + ")");
    assert Blanks(0) + (Text(LParen) + (a + ")")) == "(" + a + ")";
    assert WellFormed(Number(a)) && Eval(ar, Number(a)) == Some(x);
    assert Print(e) == [LParen, Num(a), RParen];
    EvalTextOfTree(ar, "(" + a + ")", e);
  }
}

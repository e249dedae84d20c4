/** The calculator's lexer as a function on strings, and the proof that it undoes spelling. */
module CalcLexer {
  import opened Options
  import opened CalcSyntax

  predicate IsDigit(c: char) {
    '0' <= c <= '9'
  }

  function SymbolOf(c: char): Option<Token> {
    match c
    case '+' => Some(Sym(Add))
    case '-' => Some(Sym(Sub))
    case '*' => Some(Sym(Mul))
    case '/' => Some(Sym(Div))
    case '%' => Some(Sym(Mod))
    case '^' => Some(Sym(Pow))
    case '(' => Some(LParen)
    case ')' => Some(RParen)
    case _ => None
  }

  /** Only the blank is skipped, no tab or newline. */
  function Skip(s: string): (r: string)
    ensures |r| <= |s| && (r != [] ==> r[0] != ' ')
  {
    if s != [] && s[0] == ' ' then Skip(s[1..]) else s
  }

  /** The longest prefix of digits with at most one dot. */
  function NumeralLength(s: string, hasDot: bool): (n: nat)
    ensures n <= |s|
  {
    if s == [] then 0
    else if s[0] == '.' then if hasDot then 0 else 1 + NumeralLength(s[1..], true)
    else if IsDigit(s[0]) then 1 + NumeralLength(s[1..], hasDot)
    else 0
  }

  /** The tokens of s up to the first error. `valid` says which numerals scan as a number. */
  function Lex(valid: string -> bool, s: string): seq<Token>
    decreases |s|
  {
    var r := Skip(s);
    if r == [] then []
    else if SymbolOf(r[0]).Some? then [SymbolOf(r[0]).value] + Lex(valid, r[1..])
    else
      var n := NumeralLength(r, false);
      if n == 0 || !valid(r[..n]) then [Bad] else [Num(r[..n])] + Lex(valid, r[n..])
  }

  // ---------------------------------------------------------------------------
  // Spelling
  // ---------------------------------------------------------------------------

  predicate TokenOk(valid: string -> bool, t: Token) {
    match t
    case Num(text) => text != "" && NumeralLength(text, false) == |text| && valid(text)
    case Bad => false
    case Eof => false
    case _ => true
  }

  predicate TokensOk(valid: string -> bool, ts: seq<Token>) {
    forall t :: t in ts ==> TokenOk(valid, t)
  }

  function OpText(op: Op): char {
    match op
    case Add => '+'
    case Sub => '-'
    case Mul => '*'
    case Div => '/'
    case Mod => '%'
    case Pow => '^'
  }

  function Text(t: Token): string {
    match t
    case Num(text) => text
    case Sym(op) => [OpText(op)]
    case LParen => "("
    case RParen => ")"
    case _ => ""
  }

  function Blanks(n: nat): string {
    if n == 0 then "" else " " + Blanks(n - 1)
  }

  /** The tokens written out with gaps[i] blanks before the i-th and the last gap at the end. */
  function Spell(ts: seq<Token>, gaps: seq<nat>): string
    requires |gaps| == |ts| + 1
  {
    Blanks(gaps[0]) + (if ts == [] then "" else Text(ts[0]) + Spell(ts[1..], gaps[1..]))
  }

  /** Two numbers in a row must not run together. */
  predicate Apart(ts: seq<Token>, gaps: seq<nat>)
    requires |gaps| == |ts| + 1
  {
    forall i :: 0 <= i < |ts| - 1 && ts[i].Num? && ts[i + 1].Num? ==> gaps[i + 1] > 0
  }

  lemma {:induction false} SkipBlanks(n: nat, s: string)
    ensures Skip(Blanks(n) + s) == Skip(s)
  {
    if n > 0 {
      var t := Blanks(n) + s;
      assert t[0] == ' ' && t[1..] == Blanks(n - 1) + s;
      SkipBlanks(n - 1, s);
    } else {
      assert Blanks(n) + s == s;
    }
  }

  predicate Stops(rest: string) {
    rest == [] || !(IsDigit(rest[0]) || rest[0] == '.')
  }

  lemma {:induction false} NumeralThen(text: string, rest: string, hasDot: bool)
    requires NumeralLength(text, hasDot) == |text| && Stops(rest)
    ensures NumeralLength(text + rest, hasDot) == |text|
  {
    if text == "" {
      assert text + rest == rest;
    } else {
      assert (text + rest)[1..] == text[1..] + rest;
      NumeralThen(text[1..], rest, hasDot || text[0] == '.');
    }
  }

  lemma {:induction false} SpellStops(valid: string -> bool, ts: seq<Token>, gaps: seq<nat>)
    requires |gaps| == |ts| + 1 && TokensOk(valid, ts)
    requires ts == [] || !ts[0].Num? || gaps[0] > 0
    ensures Stops(Spell(ts, gaps))
  {
    if gaps[0] == 0 && ts != [] {
      NumeralHead(valid, ts[0]);
      assert Spell(ts, gaps)[0] == Text(ts[0])[0];
    }
  }

  /** One token in front of a text. */
  lemma LexToken(valid: string -> bool, t: Token, gap: nat, rest: string)
    requires TokenOk(valid, t) && (t.Num? ==> Stops(rest))
    ensures Lex(valid, Blanks(gap) + (Text(t) + rest)) == [t] + Lex(valid, rest)
  {
    var r := Text(t) + rest;
    NumeralHead(valid, t);
    SkipBlanks(gap, r);
    assert r[0] == Text(t)[0];
    assert Skip(r) == r;
    if t.Num? {
      NumeralThen(t.text, rest, false);
      assert r[..|t.text|] == t.text && r[|t.text|..] == rest;
    } else {
      assert r[1..] == rest;
    }
  }

  /** Lexing gives back whatever tokens were spelled, with any blanks between them. */
  lemma {:induction false} LexSpell(valid: string -> bool, ts: seq<Token>, gaps: seq<nat>)
    requires |gaps| == |ts| + 1 && TokensOk(valid, ts) && Apart(ts, gaps)
    ensures Lex(valid, Spell(ts, gaps)) == ts
    decreases |ts|
  {
    if ts == [] {
      SkipBlanks(gaps[0], "");
      assert Blanks(gaps[0]) + "" == Spell(ts, gaps);
    } else {
      var rest := Spell(ts[1..], gaps[1..]);
      if ts[0].Num? {
        SpellStops(valid, ts[1..], gaps[1..]);
      }
      LexToken(valid, ts[0], gaps[0], rest);
      assert Apart(ts[1..], gaps[1..]);
      LexSpell(valid, ts[1..], gaps[1..]);
    }
  }

  lemma {:induction false} NumeralHead(valid: string -> bool, t: Token)
    requires TokenOk(valid, t)
    ensures Text(t) != "" && Text(t)[0] != ' '
    ensures t.Num? ==> SymbolOf(Text(t)[0]).None?
    ensures !t.Num? ==> SymbolOf(Text(t)[0]) == Some(t) && |Text(t)| == 1
  {}

  // ---------------------------------------------------------------------------
  // Nothing is lost
  // ---------------------------------------------------------------------------

  function WithoutBlanks(s: string): string {
    if s == "" then "" else (if s[0] == ' ' then "" else [s[0]]) + WithoutBlanks(s[1..])
  }

  function Texts(ts: seq<Token>): string {
    if ts == [] then "" else Text(ts[0]) + Texts(ts[1..])
  }

  lemma {:induction false} WithoutBlanksConcat(a: string, b: string)
    ensures WithoutBlanks(a + b) == WithoutBlanks(a) + WithoutBlanks(b)
  {
    if a == "" {
      assert a + b == b;
    } else {
      assert (a + b)[1..] == a[1..] + b;
      WithoutBlanksConcat(a[1..], b);
    }
  }

  lemma {:induction false} NumeralHasNoBlanks(s: string, hasDot: bool)
    ensures WithoutBlanks(s[..NumeralLength(s, hasDot)]) == s[..NumeralLength(s, hasDot)]
  {
    var n := NumeralLength(s, hasDot);
    if n > 0 {
      NumeralHasNoBlanks(s[1..], hasDot || s[0] == '.');
      assert s[..n][1..] == s[1..][..n - 1];
      assert s[..n] == [s[0]] + s[1..][..n - 1];
    }
  }

  lemma {:induction false} NumeralPrefix(s: string, hasDot: bool)
    ensures NumeralLength(s[..NumeralLength(s, hasDot)], hasDot) == NumeralLength(s, hasDot)
  {
    var n := NumeralLength(s, hasDot);
    if n > 0 {
      NumeralPrefix(s[1..], hasDot || s[0] == '.');
      assert s[..n][1..] == s[1..][..n - 1];
    }
  }

  lemma {:induction false} SkipKeepsText(s: string)
    ensures WithoutBlanks(Skip(s)) == WithoutBlanks(s)
  {
    if s != "" && s[0] == ' ' { SkipKeepsText(s[1..]); }
  }

  lemma {:induction false} LexesFirst(valid: string -> bool, r: string) returns (t: Token, rest: string)
    requires r != [] && Skip(r) == r && Bad !in Lex(valid, r)
    ensures Lex(valid, r) == [t] + Lex(valid, rest) && |rest| < |r|
    ensures r == Text(t) + rest && TokenOk(valid, t) && WithoutBlanks(Text(t)) == Text(t)
  {
    var n := NumeralLength(r, false);
    if SymbolOf(r[0]).Some? {
      t, rest := SymbolOf(r[0]).value, r[1..];
      assert Text(t) == [r[0]];
    } else {
      assert Lex(valid, r) != [Bad];
      t, rest := Num(r[..n]), r[n..];
      NumeralHasNoBlanks(r, false);
      NumeralPrefix(r, false);
    }
  }

  /** Every token of a text that lexes is one that can be spelled, and together they are the
      text without its blanks. */
  lemma {:induction false} LexKeepsText(valid: string -> bool, s: string)
    requires Bad !in Lex(valid, s)
    ensures TokensOk(valid, Lex(valid, s))
    ensures Texts(Lex(valid, s)) == WithoutBlanks(s)
    decreases |s|
  {
    SkipKeepsText(s);
    SkipTwice(s);
    if Skip(s) != [] {
      var t, rest := LexesFirst(valid, Skip(s));
      assert Lex(valid, s) == [t] + Lex(valid, rest);
      LexKeepsText(valid, rest);
      WithoutBlanksConcat(Text(t), rest);
    }
  }

  lemma {:induction false} SkipTwice(s: string)
    ensures Skip(Skip(s)) == Skip(s)
  {}

  // ---------------------------------------------------------------------------
  // Text-level round trip
  // ---------------------------------------------------------------------------

  /** Every number of the tree is a numeral that scans. */
  predicate NumbersOk(valid: string -> bool, e: Expr) {
    match e
    case Number(text) => TokenOk(valid, Num(text))
    case Unary(_, arg) => NumbersOk(valid, arg)
    case Binary(_, l, r) => NumbersOk(valid, l) && NumbersOk(valid, r)
    case Paren(inner) => NumbersOk(valid, inner)
  }

  predicate NoTwoNumbers(ts: seq<Token>) {
    forall i :: 0 <= i < |ts| - 1 ==> !(ts[i].Num? && ts[i + 1].Num?)
  }

  lemma {:induction false} PrintIsSpellable(valid: string -> bool, e: Expr)
    requires NumbersOk(valid, e)
    ensures TokensOk(valid, Print(e)) && NoTwoNumbers(Print(e))
  {
    match e
    case Number(_) =>
    case Unary(_, arg) => PrintIsSpellable(valid, arg);
    case Binary(_, l, r) =>
      PrintIsSpellable(valid, l);
      PrintIsSpellable(valid, r);
    case Paren(inner) => PrintIsSpellable(valid, inner);
  }

  lemma {:induction false} ParenthesizeKeepsNumbers(valid: string -> bool, e: Expr)
    requires NumbersOk(valid, e)
    ensures NumbersOk(valid, Parenthesize(e))
  {
    match e
    case Number(_) =>
    case Unary(_, arg) => ParenthesizeKeepsNumbers(valid, arg);
    case Binary(_, l, r) =>
      ParenthesizeKeepsNumbers(valid, l);
      ParenthesizeKeepsNumbers(valid, r);
    case Paren(inner) => ParenthesizeKeepsNumbers(valid, inner);
  }

  /** Main result: every tree, written with minimal parentheses and any blanks, lexes and
      parses back to itself and nothing is left over. */
  lemma {:induction false} CalculatorRoundTrip(valid: string -> bool, e: Expr, gaps: seq<nat>)
    requires Abstract(e) && NumbersOk(valid, e) && |gaps| == |Print(Parenthesize(e))| + 1
    ensures var p := ParseExpr(Lex(valid, Spell(Print(Parenthesize(e)), gaps)), 0);
            p.Some? && Strip(p.value.0) == e && p.value.1 == []
  {
    ParenthesizeKeepsNumbers(valid, e);
    PrintIsSpellable(valid, Parenthesize(e));
    LexSpell(valid, Print(Parenthesize(e)), gaps);
    ParsePrintMinimal(e);
  }
}

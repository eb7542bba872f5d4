/** The evaluating parser (src/parser.rs): five mutually recursive grammar
    levels that compute the value of the expression while they read it from a
    cursor over the token sequence. */
module Parser {
  import opened Results
  import opened Arith
  import opened Tokenizer

  /** The ways evaluation aborts. */
  datatype ParseError =
    | ExpectedRParen(found: Token)    // a parenthesised expression is not closed
    | ExpectedLParen(found: Token)    // a function name is not followed by '('
    | Unexpected(found: Token)        // a token that cannot start a factor
    | DivisionByZero
    | RemainderByZero
    | NegativeExponent

  /** A value together with the cursor position after the tokens it came from. */
  datatype Parsed = Parsed(value: int, next: nat)

  /** The lookahead: the token at pos, or `Eof` past the end. */
  function PeekAt(ts: seq<Token>, pos: nat): Token
  {
    if pos < |ts| then ts[pos] else Eof
  }

  /** `peek` sees `EOF` exactly past the end or on an `EOF` token, and the
      token under the cursor otherwise. */
  lemma PeekAtEnd(ts: seq<Token>, pos: nat)
    ensures PeekAt(ts, pos) == Eof <==> pos >= |ts| || ts[pos] == Eof
    ensures pos < |ts| ==> PeekAt(ts, pos) == ts[pos]
  {
  }

  /** `sqrt`, `abs` and `fac` applied to their operand. */
  function ApplyFunction(f: Token, x: int): (r: int)
    requires f in {Sqrt, Abs, Fac}
    ensures f == Sqrt ==> r >= 0 && (x < 0 ==> r == 0) && (x >= 0 ==> r * r <= x < (r + 1) * (r + 1))
    ensures f == Abs ==> r >= 0 && (r == x || r == -x)
    ensures f == Fac ==> r == (if x < 0 then 1 else Factorial(x))
  {
    match f
    case Sqrt => SqrtToInt(x)
    case Abs => Arith.Abs(x)
    case Fac => FacIsFactorial(x); RangeProduct(2, x)
  }

  // ---------------------------------------------------------------------
  // The grammar as functions of (tokens, cursor): each level returns its
  // value and the cursor after it, or the error that aborts evaluation.
  // The `...Loop` functions are the while loops of the levels: acc is the
  // value so far and pos the cursor at the lookahead.

  /** expr := modulo (('+' | '-') modulo)* */
  function ParseExpr(ts: seq<Token>, pos: nat): (r: Result<Parsed, ParseError>)
    requires pos <= |ts|
    ensures r.Ok? ==> pos < r.value.next <= |ts|
    decreases |ts| - pos, 5
  {
    var first :- ParseModulo(ts, pos);
    ExprLoop(ts, first.next, first.value)
  }

  function ExprLoop(ts: seq<Token>, pos: nat, acc: int): (r: Result<Parsed, ParseError>)
    requires pos <= |ts|
    ensures r.Ok? ==> pos <= r.value.next <= |ts|
    decreases |ts| - pos, 0
  {
    var token := PeekAt(ts, pos);
    if token == Plus || token == Minus then
      var rhs :- ParseModulo(ts, pos + 1);
      ExprLoop(ts, rhs.next, if token == Plus then acc + rhs.value else acc - rhs.value)
    else
      Ok(Parsed(acc, pos))
  }

  /** modulo := term ('%' term)* */
  function ParseModulo(ts: seq<Token>, pos: nat): (r: Result<Parsed, ParseError>)
    requires pos <= |ts|
    ensures r.Ok? ==> pos < r.value.next <= |ts|
    decreases |ts| - pos, 4
  {
    var first :- ParseTerm(ts, pos);
    ModuloLoop(ts, first.next, first.value)
  }

  function ModuloLoop(ts: seq<Token>, pos: nat, acc: int): (r: Result<Parsed, ParseError>)
    requires pos <= |ts|
    ensures r.Ok? ==> pos <= r.value.next <= |ts|
    decreases |ts| - pos, 0
  {
    if PeekAt(ts, pos) == Mod then
      var rhs :- ParseTerm(ts, pos + 1);
      if rhs.value == 0 then Err(RemainderByZero)
      else ModuloLoop(ts, rhs.next, TruncRem(acc, rhs.value))
    else
      Ok(Parsed(acc, pos))
  }

  /** term := power (('*' | '/') power)* */
  function ParseTerm(ts: seq<Token>, pos: nat): (r: Result<Parsed, ParseError>)
    requires pos <= |ts|
    ensures r.Ok? ==> pos < r.value.next <= |ts|
    decreases |ts| - pos, 3
  {
    var first :- ParsePower(ts, pos);
    TermLoop(ts, first.next, first.value)
  }

  function TermLoop(ts: seq<Token>, pos: nat, acc: int): (r: Result<Parsed, ParseError>)
    requires pos <= |ts|
    ensures r.Ok? ==> pos <= r.value.next <= |ts|
    decreases |ts| - pos, 0
  {
    var token := PeekAt(ts, pos);
    if token == Mul || token == Div then
      var rhs :- ParsePower(ts, pos + 1);
      if token == Mul then TermLoop(ts, rhs.next, acc * rhs.value)
      else if rhs.value == 0 then Err(DivisionByZero)
      else TermLoop(ts, rhs.next, TruncDiv(acc, rhs.value))
    else
      Ok(Parsed(acc, pos))
  }

  /** power := factor ('^' factor)*, a loop, hence left-associative. */
  function ParsePower(ts: seq<Token>, pos: nat): (r: Result<Parsed, ParseError>)
    requires pos <= |ts|
    ensures r.Ok? ==> pos < r.value.next <= |ts|
    decreases |ts| - pos, 2
  {
    var first :- ParseFactor(ts, pos);
    PowerLoop(ts, first.next, first.value)
  }

  function PowerLoop(ts: seq<Token>, pos: nat, acc: int): (r: Result<Parsed, ParseError>)
    requires pos <= |ts|
    ensures r.Ok? ==> pos <= r.value.next <= |ts|
    decreases |ts| - pos, 0
  {
    if PeekAt(ts, pos) == Pow then
      var rhs :- ParseFactor(ts, pos + 1);
      if rhs.value < 0 then Err(NegativeExponent)
      else PowerLoop(ts, rhs.next, Arith.Pow(acc, rhs.value))
    else
      Ok(Parsed(acc, pos))
  }

  /** factor := NUM | '-' factor | '(' expr ')' | ('sqrt' | 'abs' | 'fac') factor,
      where the function name must be followed by '('. */
  function ParseFactor(ts: seq<Token>, pos: nat): (r: Result<Parsed, ParseError>)
    requires pos <= |ts|
    ensures r.Ok? ==> pos < r.value.next <= |ts|
    decreases |ts| - pos, 1
  {
    match PeekAt(ts, pos)
    case Num(n) => Ok(Parsed(n, pos + 1))
    case Minus =>
      var operand :- ParseFactor(ts, pos + 1);
      Ok(Parsed(-operand.value, operand.next))
    case LParen =>
      var inner :- ParseExpr(ts, pos + 1);
      if PeekAt(ts, inner.next) != RParen then Err(ExpectedRParen(PeekAt(ts, inner.next)))
      else Ok(Parsed(inner.value, inner.next + 1))
    case Sqrt => ParseCall(ts, pos)
    case Abs => ParseCall(ts, pos)
    case Fac => ParseCall(ts, pos)
    case _ => Err(Unexpected(PeekAt(ts, pos)))
  }

  /** A function token at pos, then '(' checked without being consumed, then
      the operand parsed as a factor starting at that '('. */
  function ParseCall(ts: seq<Token>, pos: nat): (r: Result<Parsed, ParseError>)
    requires pos < |ts| && ts[pos] in {Sqrt, Abs, Fac}
    ensures r.Ok? ==> pos + 4 <= r.value.next <= |ts|
    ensures r.Ok? ==> ts[pos + 1] == LParen && ts[r.value.next - 1] == RParen
    decreases |ts| - pos, 0
  {
    if PeekAt(ts, pos + 1) != LParen then Err(ExpectedLParen(PeekAt(ts, pos + 1)))
    else
      var operand :- ParseFactor(ts, pos + 1);
      Ok(Parsed(ApplyFunction(ts[pos], operand.value), operand.next))
  }

  /** `parse`: the value of the expression at the start of the tokens; tokens
      after it are not looked at. */
  function ParseTokens(ts: seq<Token>): (r: Result<int, ParseError>)
    ensures r.Ok? ==> ts != [] && ParseExpr(ts, 0).Ok? && r.value == ParseExpr(ts, 0).value.value
    ensures r.Err? ==> ParseExpr(ts, 0) == Err(r.error)
  {
    var r :- ParseExpr(ts, 0);
    Ok(r.value)
  }

  // ---------------------------------------------------------------------
  // The cursor and the grammar methods

  /** The cursor: the token sequence and the index of the lookahead. */
  class Tokens {
    var tokens: seq<Token>
    var current: nat

    /** `Tokens::new`: the cursor starts at the first token. */
    constructor (data: seq<Token>)
      ensures tokens == data && current == 0
    {
      tokens := data;
      current := 0;
    }

    /** `eat`: move past the lookahead; the tokens are untouched. */
    method Eat()
      modifies this`current
      ensures current == old(current) + 1
    {
      current := current + 1;
    }

    /** `peek`: the lookahead, `Eof` once the cursor is past the end. */
    method Peek() returns (t: Token)
      ensures current < |tokens| ==> t == tokens[current]
      ensures current >= |tokens| ==> t == Eof
    {
      if current >= |tokens| {
        t := Eof;
      } else {
        t := tokens[current];
      }
    }
  }

  /** A method's result seen as a parse result ending at the cursor pos. */
  function Outcome(r: Result<int, ParseError>, pos: nat): Result<Parsed, ParseError>
  {
    if r.Err? then Err(r.error) else Ok(Parsed(r.value, pos))
  }

  method Expr(toks: Tokens) returns (r: Result<int, ParseError>)
    requires toks.current <= |toks.tokens|
    modifies toks`current
    ensures toks.current <= |toks.tokens|
    ensures Outcome(r, toks.current) == ParseExpr(toks.tokens, old(toks.current))
    decreases |toks.tokens| - toks.current, 5
  {
    var first := Modulo(toks);
    if first.Err? {
      return first;
    }
    var value := first.value;
    var token := toks.Peek();
    while token == Plus || token == Minus
      invariant old(toks.current) < toks.current <= |toks.tokens|
      invariant token == PeekAt(toks.tokens, toks.current)
      invariant ParseExpr(toks.tokens, old(toks.current)) == ExprLoop(toks.tokens, toks.current, value)
      decreases |toks.tokens| - toks.current
    {
      toks.Eat();
      var rhs := Modulo(toks);
      if rhs.Err? {
        return rhs;
      }
      if token == Plus {
        value := value + rhs.value;
      } else {
        value := value - rhs.value;
      }
      token := toks.Peek();
    }
    r := Ok(value);
  }

  method Modulo(toks: Tokens) returns (r: Result<int, ParseError>)
    requires toks.current <= |toks.tokens|
    modifies toks`current
    ensures toks.current <= |toks.tokens|
    ensures Outcome(r, toks.current) == ParseModulo(toks.tokens, old(toks.current))
    decreases |toks.tokens| - toks.current, 4
  {
    var first := Term(toks);
    if first.Err? {
      return first;
    }
    var value := first.value;
    var token := toks.Peek();
    while token == Mod
      invariant old(toks.current) < toks.current <= |toks.tokens|
      invariant token == PeekAt(toks.tokens, toks.current)
      invariant ParseModulo(toks.tokens, old(toks.current)) == ModuloLoop(toks.tokens, toks.current, value)
      decreases |toks.tokens| - toks.current
    {
      toks.Eat();
      var rhs := Term(toks);
      if rhs.Err? {
        return rhs;
      }
      if rhs.value == 0 {
        return Err(RemainderByZero);
      }
      value := TruncRem(value, rhs.value);
      token := toks.Peek();
    }
    r := Ok(value);
  }

  method Term(toks: Tokens) returns (r: Result<int, ParseError>)
    requires toks.current <= |toks.tokens|
    modifies toks`current
    ensures toks.current <= |toks.tokens|
    ensures Outcome(r, toks.current) == ParseTerm(toks.tokens, old(toks.current))
    decreases |toks.tokens| - toks.current, 3
  {
    var first := Power(toks);
    if first.Err? {
      return first;
    }
    var value := first.value;
    var token := toks.Peek();
    while token == Mul || token == Div
      invariant old(toks.current) < toks.current <= |toks.tokens|
      invariant token == PeekAt(toks.tokens, toks.current)
      invariant ParseTerm(toks.tokens, old(toks.current)) == TermLoop(toks.tokens, toks.current, value)
      decreases |toks.tokens| - toks.current
    {
      toks.Eat();
      var rhs := Power(toks);
      if rhs.Err? {
        return rhs;
      }
      if token == Mul {
        value := value * rhs.value;
      } else {
        if rhs.value == 0 {
          return Err(DivisionByZero);
        }
        value := TruncDiv(value, rhs.value);
      }
      token := toks.Peek();
    }
    r := Ok(value);
  }

  method Power(toks: Tokens) returns (r: Result<int, ParseError>)
    requires toks.current <= |toks.tokens|
    modifies toks`current
    ensures toks.current <= |toks.tokens|
    ensures Outcome(r, toks.current) == ParsePower(toks.tokens, old(toks.current))
    decreases |toks.tokens| - toks.current, 2
  {
    var first := Factor(toks);
    if first.Err? {
      return first;
    }
    var value := first.value;
    var token := toks.Peek();
    while token == Pow
      invariant old(toks.current) < toks.current <= |toks.tokens|
      invariant token == PeekAt(toks.tokens, toks.current)
      invariant ParsePower(toks.tokens, old(toks.current)) == PowerLoop(toks.tokens, toks.current, value)
      decreases |toks.tokens| - toks.current
    {
      toks.Eat();
      var rhs := Factor(toks);
      if rhs.Err? {
        return rhs;
      }
      if rhs.value < 0 {
        return Err(NegativeExponent);
      }
      value := Arith.Pow(value, rhs.value);
      token := toks.Peek();
    }
    r := Ok(value);
  }

  method Factor(toks: Tokens) returns (r: Result<int, ParseError>)
    requires toks.current <= |toks.tokens|
    modifies toks`current
    ensures toks.current <= |toks.tokens|
    ensures Outcome(r, toks.current) == ParseFactor(toks.tokens, old(toks.current))
    decreases |toks.tokens| - toks.current, 1
  {
    var token := toks.Peek();
    match token
    case Num(n) =>
      toks.Eat();
      r := Ok(n);
    case Minus =>
      toks.Eat();
      var value := Factor(toks);
      if value.Err? {
        return value;
      }
      r := Ok(-value.value);
    case LParen =>
      toks.Eat();
      var value := Expr(toks);
      if value.Err? {
        return value;
      }
      var next := toks.Peek();
      if next != RParen {
        return Err(ExpectedRParen(next));
      }
      toks.Eat();
      r := value;
    case Sqrt =>
      r := Call(toks);
    case Abs =>
      r := Call(toks);
    case Fac =>
      r := Call(toks);
    case _ =>
      r := Err(Unexpected(token));
  }

  /** The `sqrt`, `abs` and `fac` arms of `factor`. */
  method Call(toks: Tokens) returns (r: Result<int, ParseError>)
    requires toks.current < |toks.tokens| && toks.tokens[toks.current] in {Sqrt, Abs, Fac}
    modifies toks`current
    ensures toks.current <= |toks.tokens|
    ensures Outcome(r, toks.current) == ParseCall(toks.tokens, old(toks.current))
    decreases |toks.tokens| - toks.current, 0
  {
    var f := toks.tokens[toks.current];
    toks.Eat();
    var next := toks.Peek();
    if next != LParen {
      return Err(ExpectedLParen(next));
    }
    var value := Factor(toks);
    if value.Err? {
      return value;
    }
    r := Ok(ApplyFunction(f, value.value));
  }

  /** `parse`: a fresh cursor at the first token, then one `expr`. */
  method Parse(tokens: seq<Token>) returns (r: Result<int, ParseError>)
    ensures r == ParseTokens(tokens)
  {
    var list := new Tokens(tokens);
    r := Expr(list);
  }
}

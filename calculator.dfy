/** The pipeline of `eval` (src/main.rs): tokenize the input, then parse and
    evaluate the tokens. */
module Calculator {
  import opened Results
  import opened Tokenizer
  import opened Parser
  import opened Grammar
  import opened Rendering

  /** Why an input has no value: the stage that aborted, and how. */
  datatype Failure = LexFailure(lex: LexError) | ParseFailure(parse: ParseError)

  function Evaluate(s: string): (r: Result<int, Failure>)
    ensures r.Ok? ==> Strip(s) != [] && Tokenized(s).Ok? && ParseTokens(Tokenized(s).value) == Ok(r.value)
    ensures Tokenized(s).Err? ==> r == Err(LexFailure(Tokenized(s).error))
    ensures Tokenized(s).Ok? && ParseTokens(Tokenized(s).value).Err? ==>
      r == Err(ParseFailure(ParseTokens(Tokenized(s).value).error))
  {
    match Tokenized(s)
    case Err(e) => Err(LexFailure(e))
    case Ok(ts) =>
      match ParseTokens(ts)
      case Err(e) => Err(ParseFailure(e))
      case Ok(v) => Ok(v)
  }

  /** `eval`: `tokenize`, then `parse`, stopping at the first failure. */
  method EvaluateText(expression: string) returns (r: Result<int, Failure>)
    ensures r == Evaluate(expression)
  {
    var tokens := Tokenize(expression);
    if tokens.Err? {
      return Err(LexFailure(tokens.error));
    }
    var value := Parse(tokens.value);
    if value.Err? {
      return Err(ParseFailure(value.error));
    }
    r := Ok(value.value);
  }

  /** Whitespace anywhere in the input does not change its value. */
  lemma EvaluateIgnoresWhitespace(s: string)
    ensures Evaluate(Strip(s)) == Evaluate(s)
  {
    TokenizedStripped(s);
  }

  /** In particular, deleting a stretch of whitespace does not change the
      value. */
  lemma EvaluateDropsWhitespace(a: string, w: string, b: string)
    requires forall i :: 0 <= i < |w| ==> IsWhitespace(w[i])
    ensures Evaluate(a + w + b) == Evaluate(a + b)
  {
    WhitespaceIgnored(a, w, b);
  }

  /** Trees whose literals are all non-negative; negative numbers are
      written with unary minus. */
  predicate NatLiterals(e: Ast)
  {
    match e
    case Lit(n) => n >= 0
    case Neg(a) => NatLiterals(a)
    case Bin(_, l, r) => NatLiterals(l) && NatLiterals(r)
    case Call(_, a) => NatLiterals(a)
    case Group(a) => NatLiterals(a)
  }

  /** Putting a token that is neither a number nor a function name between
      two separated pieces keeps them separated. */
  lemma SeparatedAround(A: seq<Token>, x: Token, B: seq<Token>)
    requires AllPrintable(A) && AllPrintable(B) && Separated(A) && Separated(B)
    requires Printable(x) && !x.Num? && !IsFunction(x)
    ensures AllPrintable(A + [x] + B) && Separated(A + [x] + B)
  {
    var s := A + [x] + B;
    forall i | 0 < i < |s|
      ensures !Glued(s[i - 1], s[i])
    {
      if i > |A| + 1 {
        assert s[i - 1] == B[i - 1 - |A| - 1] && s[i] == B[i - |A| - 1];
      } else if i < |A| {
        assert s[i - 1] == A[i - 1] && s[i] == A[i];
      }
    }
    forall i | 0 <= i < |s|
      ensures Printable(s[i])
    {
      if i > |A| {
        assert s[i] == B[i - |A| - 1];
      } else if i < |A| {
        assert s[i] == A[i];
      }
    }
  }

  /** Parentheses around printable, separated tokens keep them so. */
  lemma ParensSpellable(E: seq<Token>)
    requires AllPrintable(E) && Separated(E)
    ensures AllPrintable([LParen] + E + [RParen]) && Separated([LParen] + E + [RParen])
  {
    SeparatedAround([], LParen, E);
    assert [] + [LParen] + E == [LParen] + E;
    SeparatedAround([LParen] + E, RParen, []);
    assert [LParen] + E + [RParen] + [] == [LParen] + E + [RParen];
  }

  /** So does a function name with its parenthesised argument. */
  lemma CallSpellable(f: Fn, E: seq<Token>)
    requires AllPrintable(E) && Separated(E)
    ensures var C := [FnToken(f), LParen] + E + [RParen]; AllPrintable(C) && Separated(C)
  {
    SeparatedAround([FnToken(f)], LParen, E);
    SeparatedAround([FnToken(f)] + [LParen] + E, RParen, []);
    assert [FnToken(f)] + [LParen] + E + [RParen] + [] == [FnToken(f), LParen] + E + [RParen];
  }

  /** Printed trees with non-negative literals can be spelled, and no two
      neighbouring tokens run together. */
  lemma {:induction false} EmitSpellable(e: Ast, L: nat)
    requires L <= 4 && NatLiterals(e)
    ensures AllPrintable(Emit(e, L)) && Separated(Emit(e, L))
    decreases e, if Prec(e) < L then 1 else 0
  {
    if Prec(e) < L {
      EmitSpellable(e, 0);
      ParensSpellable(Emit(e, 0));
    } else {
      match e
      case Lit(n) =>
      case Neg(a) =>
        EmitSpellable(a, 4);
        SeparatedAround([], Minus, Emit(a, 4));
        assert Emit(e, L) == [] + [Minus] + Emit(a, 4);
      case Call(f, a) =>
        EmitSpellable(a, 0);
        CallSpellable(f, Emit(a, 0));
      case Group(a) =>
        EmitSpellable(a, 0);
        ParensSpellable(Emit(a, 0));
      case Bin(op, l, r) =>
        EmitSpellable(l, Level(op));
        EmitSpellable(r, Level(op) + 1);
        SeparatedAround(Emit(l, Level(op)), OpToken(op), Emit(r, Level(op) + 1));
    }
  }

  /** The source text of a tree, with the parentheses of each `Group` plus
      those that precedence requires, and no whitespace. */
  function Show(e: Ast): string
    requires NatLiterals(e)
  {
    EmitSpellable(e, 0);
    Text(Emit(e, 0))
  }

  /** End to end: the text of any tree with non-negative literals, written
      with the parentheses of each `Group` plus those that precedence
      requires, evaluates to the tree's value, or fails
      with the tree's arithmetic error. */
  lemma EvaluatePrinted(e: Ast)
    requires NatLiterals(e)
    ensures Eval(e).Ok? ==> Evaluate(Show(e)) == Ok(Eval(e).value)
    ensures Eval(e).Err? ==> Evaluate(Show(e)) == Err(ParseFailure(Eval(e).error))
  {
    EmitSpellable(e, 0);
    TokenizeText(Emit(e, 0));
    ParsePrintedAlone(e);
  }
}

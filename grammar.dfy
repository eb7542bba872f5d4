/** What the evaluating parser computes, stated against expression trees: a
    tree printed with the parentheses of each `Group` plus those that the
    grammar's precedence and left-associativity require parses back to the
    tree's value. */
module Grammar {
  import opened Results
  import Arith
  import opened Tokenizer
  import opened Parser

  /** The binary operators, in the order of the grammar levels. */
  datatype BinOp = Add | Sub | Rem | Times | Over | Raise

  /** The named functions. */
  datatype Fn = SqrtFn | AbsFn | FacFn

  datatype Ast =
    | Lit(n: int)
    | Neg(operand: Ast)
    | Bin(op: BinOp, left: Ast, right: Ast)
    | Call(f: Fn, arg: Ast)
    | Group(inner: Ast)      // parentheses written around a subexpression

  /** The grammar level that parses an operator: 0 is `expr` (loosest) and 3
      is `power` (tightest). */
  function Level(op: BinOp): nat
  {
    match op
    case Add => 0
    case Sub => 0
    case Rem => 1
    case Times => 2
    case Over => 2
    case Raise => 3
  }

  /** The level of a tree's root; 4 (`factor`) for everything but a binary
      operator. */
  function Prec(e: Ast): nat
  {
    if e.Bin? then Level(e.op) else 4
  }

  function OpToken(op: BinOp): Token
  {
    match op
    case Add => Plus
    case Sub => Minus
    case Rem => Mod
    case Times => Mul
    case Over => Div
    case Raise => Pow
  }

  function FnToken(f: Fn): Token
  {
    match f
    case SqrtFn => Sqrt
    case AbsFn => Tokenizer.Abs
    case FacFn => Fac
  }

  /** The level of a binary operator token, and -1 for any other token. */
  function OpLevel(t: Token): int
  {
    match t
    case Plus => 0
    case Minus => 0
    case Mod => 1
    case Mul => 2
    case Div => 2
    case Pow => 3
    case _ => -1
  }

  /** The reference value of a tree, operands left to right, failing on the
      same arithmetic errors as the parser. */
  function Combine(op: BinOp, x: int, y: int): Result<int, ParseError>
  {
    match op
    case Add => Ok(x + y)
    case Sub => Ok(x - y)
    case Rem => if y == 0 then Err(RemainderByZero) else Ok(Arith.TruncRem(x, y))
    case Times => Ok(x * y)
    case Over => if y == 0 then Err(DivisionByZero) else Ok(Arith.TruncDiv(x, y))
    case Raise => if y < 0 then Err(NegativeExponent) else Ok(Arith.Pow(x, y))
  }

  function Eval(e: Ast): Result<int, ParseError>
  {
    match e
    case Lit(n) => Ok(n)
    case Neg(a) =>
      var v :- Eval(a);
      Ok(-v)
    case Call(f, a) =>
      var v :- Eval(a);
      Ok(ApplyFunction(FnToken(f), v))
    case Group(a) => Eval(a)
    case Bin(op, l, r) =>
      var x :- Eval(l);
      var y :- Eval(r);
      Combine(op, x, y)
  }

  /** The tokens of e printed where the grammar expects level L: parenthesised
      when its root binds more loosely than L, otherwise bare, with the left
      operand of an operator at the operator's own level and the right one a
      level tighter (left-associativity), and a function's argument in
      parentheses. */
  function Emit(e: Ast, L: nat): seq<Token>
    requires L <= 4
    decreases e, if Prec(e) < L then 1 else 0
  {
    if Prec(e) < L then [LParen] + Emit(e, 0) + [RParen]
    else
      match e
      case Lit(n) => [Num(n)]
      case Neg(a) => [Minus] + Emit(a, 4)
      case Call(f, a) => [FnToken(f), LParen] + Emit(a, 0) + [RParen]
      case Group(a) => [LParen] + Emit(a, 0) + [RParen]
      case Bin(op, l, r) => Emit(l, Level(op)) + [OpToken(op)] + Emit(r, Level(op) + 1)
  }

  /** The grammar level L as one function of the level. */
  function ParseAt(L: nat, ts: seq<Token>, pos: nat): Result<Parsed, ParseError>
    requires L <= 4 && pos <= |ts|
  {
    match L
    case 0 => ParseExpr(ts, pos)
    case 1 => ParseModulo(ts, pos)
    case 2 => ParseTerm(ts, pos)
    case 3 => ParsePower(ts, pos)
    case 4 => ParseFactor(ts, pos)
  }

  /** The loop of level L; `factor` has none. */
  function LoopAt(L: nat, ts: seq<Token>, pos: nat, acc: int): Result<Parsed, ParseError>
    requires L <= 4 && pos <= |ts|
  {
    match L
    case 0 => ExprLoop(ts, pos, acc)
    case 1 => ModuloLoop(ts, pos, acc)
    case 2 => TermLoop(ts, pos, acc)
    case 3 => PowerLoop(ts, pos, acc)
    case 4 => Ok(Parsed(acc, pos))
  }

  /** The tokens ts hold E from position pos on. */
  predicate At(ts: seq<Token>, pos: nat, E: seq<Token>)
  {
    pos + |E| <= |ts| && ts[pos..pos + |E|] == E
  }

  lemma AtSplit(ts: seq<Token>, pos: nat, A: seq<Token>, B: seq<Token>)
    requires At(ts, pos, A + B)
    ensures At(ts, pos, A) && At(ts, pos + |A|, B)
  {
    assert ts[pos..pos + |A|] == (A + B)[..|A|];
    assert ts[pos + |A|..pos + |A| + |B|] == (A + B)[|A|..];
  }

  lemma AtHead(ts: seq<Token>, pos: nat, E: seq<Token>)
    requires At(ts, pos, E) && E != []
    ensures PeekAt(ts, pos) == E[0]
  {
    assert ts[pos..pos + |E|][0] == ts[pos];
  }

  lemma AtSplit3(ts: seq<Token>, pos: nat, A: seq<Token>, x: Token, B: seq<Token>)
    requires At(ts, pos, A + [x] + B)
    ensures At(ts, pos, A) && pos + |A| < |ts| && ts[pos + |A|] == x && At(ts, pos + |A| + 1, B)
  {
    AtSplit(ts, pos, A + [x], B);
    AtSplit(ts, pos, A, [x]);
    AtHead(ts, pos + |A|, [x]);
  }

  /** Level L < 4 first parses level L + 1, then runs its loop. */
  lemma Descend(L: nat, ts: seq<Token>, pos: nat)
    requires L < 4 && pos <= |ts|
    ensures ParseAt(L + 1, ts, pos).Err? ==> ParseAt(L, ts, pos) == ParseAt(L + 1, ts, pos)
    ensures ParseAt(L + 1, ts, pos).Ok? ==>
      ParseAt(L, ts, pos) == LoopAt(L, ts, ParseAt(L + 1, ts, pos).value.next, ParseAt(L + 1, ts, pos).value.value)
  {
  }

  /** A loop stops at a token that is not one of its operators. */
  lemma LoopStops(L: nat, ts: seq<Token>, pos: nat, acc: int)
    requires L <= 4 && pos <= |ts|
    requires OpLevel(PeekAt(ts, pos)) != L
    ensures LoopAt(L, ts, pos, acc) == Ok(Parsed(acc, pos))
  {
  }

  /** A loop at one of its operators parses the next operand one level
      tighter, combines, and goes on. */
  lemma LoopStep(op: BinOp, ts: seq<Token>, pos: nat, acc: int)
    requires pos < |ts| && ts[pos] == OpToken(op)
    ensures ParseAt(Level(op) + 1, ts, pos + 1).Err? ==>
      LoopAt(Level(op), ts, pos, acc) == ParseAt(Level(op) + 1, ts, pos + 1)
    ensures ParseAt(Level(op) + 1, ts, pos + 1).Ok? ==>
      var rhs := ParseAt(Level(op) + 1, ts, pos + 1).value;
      var c := Combine(op, acc, rhs.value);
      LoopAt(Level(op), ts, pos, acc) == if c.Err? then Err(c.error) else LoopAt(Level(op), ts, rhs.next, c.value)
  {
  }

  /** Parsing level L from pos ends as Eval(e) does: with Eval's error, or
      with Eval's value handed to the loop of level L at end. */
  ghost predicate Agrees(e: Ast, L: nat, ts: seq<Token>, pos: nat, end: nat)
    requires L <= 4 && pos <= |ts| && end <= |ts|
  {
    match Eval(e)
    case Err(err) => ParseAt(L, ts, pos) == Err(err)
    case Ok(v) => ParseAt(L, ts, pos) == LoopAt(L, ts, end, v)
  }

  lemma EmitDescends(e: Ast, L: nat)
    requires L < 4 && Prec(e) != L
    ensures Emit(e, L) == Emit(e, L + 1)
  {
  }

  /** What level L + 1 parses, level L parses too when the token after it
      does not continue level L + 1. */
  lemma AgreesDescend(e: Ast, L: nat, ts: seq<Token>, pos: nat, end: nat)
    requires L < 4 && pos <= end <= |ts|
    requires Agrees(e, L + 1, ts, pos, end)
    requires OpLevel(PeekAt(ts, end)) <= L
    ensures Agrees(e, L, ts, pos, end)
  {
    Descend(L, ts, pos);
    if Eval(e).Ok? {
      LoopStops(L + 1, ts, end, Eval(e).value);
    }
  }

  /** An operator at the root: the left operand at the operator's level, the
      operator, the right operand one level tighter. */
  lemma AgreesBin(op: BinOp, l: Ast, r: Ast, ts: seq<Token>, pos: nat, m: nat, end: nat)
    requires pos <= m < end <= |ts| && ts[m] == OpToken(op)
    requires Agrees(l, Level(op), ts, pos, m)
    requires Agrees(r, Level(op) + 1, ts, m + 1, end)
    requires OpLevel(PeekAt(ts, end)) <= Level(op)
    ensures Agrees(Bin(op, l, r), Level(op), ts, pos, end)
  {
    if Eval(l).Ok? {
      LoopStep(op, ts, m, Eval(l).value);
      if Eval(r).Ok? {
        LoopStops(Level(op) + 1, ts, end, Eval(r).value);
      }
    }
  }

  lemma AgreesParen(e: Ast, ts: seq<Token>, pos: nat, end: nat)
    requires pos < end < |ts| && ts[pos] == LParen && ts[end] == RParen
    requires Agrees(e, 0, ts, pos + 1, end)
    ensures Agrees(e, 4, ts, pos, end + 1)
  {
    if Eval(e).Ok? {
      LoopStops(0, ts, end, Eval(e).value);
    }
  }

  lemma AgreesNeg(a: Ast, ts: seq<Token>, pos: nat, end: nat)
    requires pos < end <= |ts| && ts[pos] == Minus
    requires Agrees(a, 4, ts, pos + 1, end)
    ensures Agrees(Neg(a), 4, ts, pos, end)
  {
  }

  lemma AgreesCall(f: Fn, a: Ast, ts: seq<Token>, pos: nat, end: nat)
    requires pos + 1 < end < |ts| && ts[pos] == FnToken(f) && ts[pos + 1] == LParen && ts[end] == RParen
    requires Agrees(a, 0, ts, pos + 2, end)
    ensures Agrees(Call(f, a), 4, ts, pos, end + 1)
  {
    assert ParseAt(4, ts, pos) == ParseCall(ts, pos) by {
      match f
      case SqrtFn =>
      case AbsFn =>
      case FacFn =>
    }
    AgreesParen(a, ts, pos + 1, end);
  }

  // How the printed tokens of each kind of tree lie in the token sequence.

  lemma EmitBin(op: BinOp, l: Ast, r: Ast)
    ensures Emit(Bin(op, l, r), Level(op)) == Emit(l, Level(op)) + [OpToken(op)] + Emit(r, Level(op) + 1)
  {
  }

  lemma EmitLit(n: int, L: nat)
    requires L <= 4
    ensures Emit(Lit(n), L) == [Num(n)]
  {
  }

  lemma AtParen(e: Ast, ts: seq<Token>, pos: nat)
    requires Prec(e) < 4 && At(ts, pos, Emit(e, 4))
    ensures At(ts, pos + 1, Emit(e, 0))
    ensures var end := pos + 1 + |Emit(e, 0)|;
      end < |ts| && ts[pos] == LParen && ts[end] == RParen && end + 1 == pos + |Emit(e, 4)|
  {
    var Ei := Emit(e, 0);
    assert Emit(e, 4) == [LParen] + Ei + [RParen];
    AtSplit(ts, pos, [LParen] + Ei, [RParen]);
    AtSplit(ts, pos, [LParen], Ei);
    AtHead(ts, pos, [LParen]);
    AtHead(ts, pos + 1 + |Ei|, [RParen]);
  }

  lemma AtGroup(a: Ast, ts: seq<Token>, pos: nat)
    requires At(ts, pos, Emit(Group(a), 4))
    ensures At(ts, pos + 1, Emit(a, 0))
    ensures var end := pos + 1 + |Emit(a, 0)|;
      end < |ts| && ts[pos] == LParen && ts[end] == RParen && end + 1 == pos + |Emit(Group(a), 4)|
  {
    var Ei := Emit(a, 0);
    assert Emit(Group(a), 4) == [LParen] + Ei + [RParen];
    AtSplit(ts, pos, [LParen] + Ei, [RParen]);
    AtSplit(ts, pos, [LParen], Ei);
    AtHead(ts, pos, [LParen]);
    AtHead(ts, pos + 1 + |Ei|, [RParen]);
  }

  lemma AtNeg(a: Ast, ts: seq<Token>, pos: nat)
    requires At(ts, pos, Emit(Neg(a), 4))
    ensures ts[pos] == Minus && At(ts, pos + 1, Emit(a, 4))
    ensures pos + 1 + |Emit(a, 4)| == pos + |Emit(Neg(a), 4)|
  {
    AtSplit(ts, pos, [Minus], Emit(a, 4));
    AtHead(ts, pos, [Minus]);
  }

  lemma AtCall(f: Fn, a: Ast, ts: seq<Token>, pos: nat)
    requires At(ts, pos, Emit(Call(f, a), 4))
    ensures At(ts, pos + 2, Emit(a, 0))
    ensures var end := pos + 2 + |Emit(a, 0)|;
      end < |ts| && ts[pos] == FnToken(f) && ts[pos + 1] == LParen && ts[end] == RParen
      && end + 1 == pos + |Emit(Call(f, a), 4)|
  {
    var Ei := Emit(a, 0);
    assert Emit(Call(f, a), 4) == [FnToken(f), LParen] + Ei + [RParen];
    AtSplit(ts, pos, [FnToken(f), LParen] + Ei, [RParen]);
    AtSplit(ts, pos, [FnToken(f), LParen], Ei);
    AtSplit(ts, pos, [FnToken(f)], [LParen]);
    AtHead(ts, pos, [FnToken(f)]);
    AtHead(ts, pos + 1, [LParen]);
    AtHead(ts, pos + 2 + |Ei|, [RParen]);
  }

  /** The parser agrees with the reference evaluation on printed trees: at
      grammar level L, the tokens of Emit(e, L) followed by a token that does
      not continue level L (an operator of a looser level, ')' or anything
      that is not an operator) make the parser fail with Eval's error, or
      reach the end of the printed tokens with Eval's value and hand it to
      the loop of level L. */
  lemma {:induction false} ParseEmitted(e: Ast, L: nat, ts: seq<Token>, pos: nat)
    requires L <= 4 && At(ts, pos, Emit(e, L))
    requires OpLevel(PeekAt(ts, pos + |Emit(e, L)|)) <= L
    ensures Agrees(e, L, ts, pos, pos + |Emit(e, L)|)
    decreases e, if Prec(e) < L then 1 else 0, 4 - L, 2
  {
    if L < 4 && Prec(e) != L {
      // printed as one level down, where the loop stops at once
      EmitDescends(e, L);
      ParseEmitted(e, L + 1, ts, pos);
      AgreesDescend(e, L, ts, pos, pos + |Emit(e, L)|);
    } else if L < 4 {
      ParseEmittedBin(e, ts, pos);
    } else if Prec(e) < 4 {
      ParseEmittedParen(e, ts, pos);
    } else {
      ParseEmittedFactor(e, ts, pos);
    }
  }

  /** An operator at its own level. */
  lemma {:induction false} ParseEmittedBin(e: Ast, ts: seq<Token>, pos: nat)
    requires e.Bin? && At(ts, pos, Emit(e, Prec(e)))
    requires OpLevel(PeekAt(ts, pos + |Emit(e, Prec(e))|)) <= Prec(e)
    ensures Agrees(e, Prec(e), ts, pos, pos + |Emit(e, Prec(e))|)
    decreases e, 0, 4 - Prec(e), 0
  {
    var op, l, r := e.op, e.left, e.right;
    var L := Level(op);
    EmitBin(op, l, r);
    AtSplit3(ts, pos, Emit(l, L), OpToken(op), Emit(r, L + 1));
    var m := pos + |Emit(l, L)|;
    ParseEmitted(l, L, ts, pos);
    ParseEmitted(r, L + 1, ts, m + 1);
    AgreesBin(op, l, r, ts, pos, m, pos + |Emit(e, L)|);
  }

  /** An operator tree inside parentheses, as a factor. */
  lemma {:induction false} ParseEmittedParen(e: Ast, ts: seq<Token>, pos: nat)
    requires Prec(e) < 4 && At(ts, pos, Emit(e, 4))
    ensures Agrees(e, 4, ts, pos, pos + |Emit(e, 4)|)
    decreases e, 1, 0, 0
  {
    AtParen(e, ts, pos);
    ParseEmitted(e, 0, ts, pos + 1);
    AgreesParen(e, ts, pos, pos + 1 + |Emit(e, 0)|);
  }

  /** A number, a negation, a function call or a parenthesised group. */
  lemma {:induction false} ParseEmittedFactor(e: Ast, ts: seq<Token>, pos: nat)
    requires !e.Bin? && At(ts, pos, Emit(e, 4))
    ensures Agrees(e, 4, ts, pos, pos + |Emit(e, 4)|)
    decreases e, 0, 0, 1
  {
    match e
    case Lit(n) => AtHead(ts, pos, Emit(e, 4));
    case Neg(a) => ParseEmittedNeg(a, ts, pos);
    case Call(f, a) => ParseEmittedCall(f, a, ts, pos);
    case Group(a) => ParseEmittedGroup(a, ts, pos);
  }

  lemma {:induction false} ParseEmittedNeg(a: Ast, ts: seq<Token>, pos: nat)
    requires At(ts, pos, Emit(Neg(a), 4))
    ensures Agrees(Neg(a), 4, ts, pos, pos + |Emit(Neg(a), 4)|)
    decreases Neg(a), 0, 0, 0
  {
    AtNeg(a, ts, pos);
    ParseEmitted(a, 4, ts, pos + 1);
    AgreesNeg(a, ts, pos, pos + |Emit(Neg(a), 4)|);
  }

  lemma {:induction false} ParseEmittedCall(f: Fn, a: Ast, ts: seq<Token>, pos: nat)
    requires At(ts, pos, Emit(Call(f, a), 4))
    ensures Agrees(Call(f, a), 4, ts, pos, pos + |Emit(Call(f, a), 4)|)
    decreases Call(f, a), 0, 0, 0
  {
    AtCall(f, a, ts, pos);
    ParseEmitted(a, 0, ts, pos + 2);
    AgreesCall(f, a, ts, pos, pos + 2 + |Emit(a, 0)|);
  }

  lemma {:induction false} ParseEmittedGroup(a: Ast, ts: seq<Token>, pos: nat)
    requires At(ts, pos, Emit(Group(a), 4))
    ensures Agrees(Group(a), 4, ts, pos, pos + |Emit(Group(a), 4)|)
    decreases Group(a), 0, 0, 0
  {
    AtGroup(a, ts, pos);
    ParseEmitted(a, 0, ts, pos + 1);
    AgreesParen(a, ts, pos, pos + 1 + |Emit(a, 0)|);
  }

  /** `parse` of a printed tree, possibly followed by tokens that are not
      operators (which it leaves unread), is the tree's value or error. */
  lemma ParsePrinted(e: Ast, rest: seq<Token>)
    requires rest == [] || OpLevel(rest[0]) < 0
    ensures ParseTokens(Emit(e, 0) + rest) == Eval(e)
  {
    var ts := Emit(e, 0) + rest;
    assert ts[0..|Emit(e, 0)|] == Emit(e, 0);
    ParseEmitted(e, 0, ts, 0);
    if Eval(e).Ok? {
      LoopStops(0, ts, |Emit(e, 0)|, Eval(e).value);
    }
  }

  lemma ParsePrintedAlone(e: Ast)
    ensures ParseTokens(Emit(e, 0)) == Eval(e)
  {
    assert Emit(e, 0) + [] == Emit(e, 0);
    ParsePrinted(e, []);
  }

  // ---------------------------------------------------------------------
  // Associativity and precedence

  /** `a - b - c` is `(a - b) - c`. */
  lemma SubLeftAssociative(a: int, b: int, c: int)
    ensures ParseTokens([Num(a), Minus, Num(b), Minus, Num(c)]) == Ok((a - b) - c)
  {
    var e := Bin(Sub, Bin(Sub, Lit(a), Lit(b)), Lit(c));
    EmitLit(a, 0); EmitLit(b, 1); EmitLit(c, 1);
    EmitBin(Sub, Lit(a), Lit(b));
    EmitBin(Sub, Bin(Sub, Lit(a), Lit(b)), Lit(c));
    assert Eval(Bin(Sub, Lit(a), Lit(b))) == Ok(a - b);
    assert Emit(e, 0) == [Num(a), Minus, Num(b), Minus, Num(c)];
    ParsePrintedAlone(e);
  }

  /** `a / b / c` is `(a / b) / c`, and fails when the divisor is zero. */
  lemma DivLeftAssociative(a: int, b: int, c: int)
    ensures b != 0 && c != 0 ==>
      ParseTokens([Num(a), Div, Num(b), Div, Num(c)]) == Ok(Arith.TruncDiv(Arith.TruncDiv(a, b), c))
    ensures b == 0 || c == 0 ==> ParseTokens([Num(a), Div, Num(b), Div, Num(c)]) == Err(DivisionByZero)
  {
    var e := Bin(Over, Bin(Over, Lit(a), Lit(b)), Lit(c));
    EmitLit(a, 2); EmitLit(b, 3); EmitLit(c, 3);
    EmitBin(Over, Lit(a), Lit(b));
    EmitBin(Over, Bin(Over, Lit(a), Lit(b)), Lit(c));
    assert b == 0 ==> Eval(Bin(Over, Lit(a), Lit(b))) == Err(DivisionByZero);
    assert b != 0 ==> Eval(Bin(Over, Lit(a), Lit(b))) == Ok(Arith.TruncDiv(a, b));
    assert Emit(e, 2) == [Num(a), Div, Num(b), Div, Num(c)];
    EmitDescends(e, 0);
    EmitDescends(e, 1);
    ParsePrintedAlone(e);
  }

  /** `^` is a loop too: `a ^ b ^ c` is `(a ^ b) ^ c`, which is a to the
      power b * c. */
  lemma PowLeftAssociative(a: int, b: nat, c: nat)
    ensures ParseTokens([Num(a), Pow, Num(b), Pow, Num(c)]) == Ok(Arith.Pow(a, b * c))
  {
    var e := Bin(Raise, Bin(Raise, Lit(a), Lit(b)), Lit(c));
    EmitLit(a, 3); EmitLit(b, 4); EmitLit(c, 4);
    EmitBin(Raise, Lit(a), Lit(b));
    EmitBin(Raise, Bin(Raise, Lit(a), Lit(b)), Lit(c));
    assert Eval(Bin(Raise, Lit(a), Lit(b))) == Ok(Arith.Pow(a, b));
    assert Emit(e, 3) == [Num(a), Pow, Num(b), Pow, Num(c)];
    EmitDescends(e, 0);
    EmitDescends(e, 1);
    EmitDescends(e, 2);
    ParsePrintedAlone(e);
    Arith.PowPow(a, b, c);
  }

  /** `*` binds tighter than `+`. */
  lemma MulBeforeAdd(a: int, b: int, c: int)
    ensures ParseTokens([Num(a), Plus, Num(b), Mul, Num(c)]) == Ok(a + b * c)
    ensures ParseTokens([Num(a), Mul, Num(b), Plus, Num(c)]) == Ok(a * b + c)
  {
    var e1 := Bin(Add, Lit(a), Bin(Times, Lit(b), Lit(c)));
    EmitLit(a, 0); EmitLit(b, 2); EmitLit(c, 3);
    EmitBin(Times, Lit(b), Lit(c));
    EmitDescends(Bin(Times, Lit(b), Lit(c)), 1);
    EmitBin(Add, Lit(a), Bin(Times, Lit(b), Lit(c)));
    assert Eval(Bin(Times, Lit(b), Lit(c))) == Ok(b * c);
    assert Emit(e1, 0) == [Num(a), Plus, Num(b), Mul, Num(c)];
    ParsePrintedAlone(e1);
    var e2 := Bin(Add, Bin(Times, Lit(a), Lit(b)), Lit(c));
    EmitLit(a, 2); EmitLit(b, 3); EmitLit(c, 1);
    EmitBin(Times, Lit(a), Lit(b));
    EmitDescends(Bin(Times, Lit(a), Lit(b)), 1);
    EmitDescends(Bin(Times, Lit(a), Lit(b)), 0);
    EmitBin(Add, Bin(Times, Lit(a), Lit(b)), Lit(c));
    assert Eval(Bin(Times, Lit(a), Lit(b))) == Ok(a * b);
    assert Emit(e2, 0) == [Num(a), Mul, Num(b), Plus, Num(c)];
    ParsePrintedAlone(e2);
  }

  /** `%` binds tighter than `+` but looser than `*`. */
  lemma ModBetweenAddAndMul(a: int, b: int, c: int)
    ensures c != 0 ==> ParseTokens([Num(a), Plus, Num(b), Mod, Num(c)]) == Ok(a + Arith.TruncRem(b, c))
    ensures c != 0 ==> ParseTokens([Num(a), Mul, Num(b), Mod, Num(c)]) == Ok(Arith.TruncRem(a * b, c))
    ensures b * c != 0 ==> ParseTokens([Num(a), Mod, Num(b), Mul, Num(c)]) == Ok(Arith.TruncRem(a, b * c))
    ensures b != 0 ==> ParseTokens([Num(a), Mod, Num(b), Plus, Num(c)]) == Ok(Arith.TruncRem(a, b) + c)
  {
    var e1 := Bin(Add, Lit(a), Bin(Rem, Lit(b), Lit(c)));
    EmitLit(a, 0); EmitLit(b, 1); EmitLit(c, 2);
    EmitBin(Rem, Lit(b), Lit(c));
    EmitBin(Add, Lit(a), Bin(Rem, Lit(b), Lit(c)));
    assert c != 0 ==> Eval(Bin(Rem, Lit(b), Lit(c))) == Ok(Arith.TruncRem(b, c));
    assert Emit(e1, 0) == [Num(a), Plus, Num(b), Mod, Num(c)];
    ParsePrintedAlone(e1);
    var e2 := Bin(Rem, Bin(Times, Lit(a), Lit(b)), Lit(c));
    EmitLit(a, 2); EmitLit(b, 3); EmitLit(c, 2);
    EmitBin(Times, Lit(a), Lit(b));
    EmitDescends(Bin(Times, Lit(a), Lit(b)), 1);
    EmitBin(Rem, Bin(Times, Lit(a), Lit(b)), Lit(c));
    assert Eval(Bin(Times, Lit(a), Lit(b))) == Ok(a * b);
    assert Emit(e2, 1) == [Num(a), Mul, Num(b), Mod, Num(c)];
    EmitDescends(e2, 0);
    ParsePrintedAlone(e2);
    var e3 := Bin(Rem, Lit(a), Bin(Times, Lit(b), Lit(c)));
    EmitLit(a, 1); EmitLit(b, 2); EmitLit(c, 3);
    EmitBin(Times, Lit(b), Lit(c));
    EmitBin(Rem, Lit(a), Bin(Times, Lit(b), Lit(c)));
    assert Eval(Bin(Times, Lit(b), Lit(c))) == Ok(b * c);
    assert Emit(e3, 1) == [Num(a), Mod, Num(b), Mul, Num(c)];
    EmitDescends(e3, 0);
    ParsePrintedAlone(e3);
    RemBeforeAdd(a, b, c);
  }

  /** The `+` case of `ModBetweenAddAndMul` with `%` on the left. */
  lemma RemBeforeAdd(a: int, b: int, c: int)
    ensures b != 0 ==> ParseTokens([Num(a), Mod, Num(b), Plus, Num(c)]) == Ok(Arith.TruncRem(a, b) + c)
  {
    var r := Bin(Rem, Lit(a), Lit(b));
    var e := Bin(Add, r, Lit(c));
    EmitLit(a, 1); EmitLit(b, 2); EmitLit(c, 1);
    EmitBin(Rem, Lit(a), Lit(b));
    EmitDescends(r, 0);
    EmitBin(Add, r, Lit(c));
    assert b != 0 ==> Eval(r) == Ok(Arith.TruncRem(a, b));
    assert Emit(e, 0) == [Num(a), Mod, Num(b), Plus, Num(c)];
    ParsePrintedAlone(e);
  }

  /** Unary minus is part of the factor, so `-a ^ b` is `(-a) ^ b`. */
  lemma NegBeforePow(a: int, b: nat)
    ensures ParseTokens([Minus, Num(a), Pow, Num(b)]) == Ok(Arith.Pow(-a, b))
  {
    var e := Bin(Raise, Neg(Lit(a)), Lit(b));
    EmitLit(a, 4); EmitLit(b, 4);
    assert Emit(Neg(Lit(a)), 3) == [Minus, Num(a)];
    EmitBin(Raise, Neg(Lit(a)), Lit(b));
    assert Eval(Neg(Lit(a))) == Ok(-a);
    assert Emit(e, 3) == [Minus, Num(a), Pow, Num(b)];
    EmitDescends(e, 0);
    EmitDescends(e, 1);
    EmitDescends(e, 2);
    ParsePrintedAlone(e);
  }

  // ---------------------------------------------------------------------
  // Failures

  /** A factor that fails at the start of a level makes the level fail the
      same way: nothing is tried after the first operand. */
  lemma {:induction false} FactorFailurePropagates(L: nat, ts: seq<Token>, pos: nat)
    requires L <= 4 && pos <= |ts| && ParseFactor(ts, pos).Err?
    ensures ParseAt(L, ts, pos) == ParseFactor(ts, pos)
    decreases 4 - L
  {
    if L < 4 {
      FactorFailurePropagates(L + 1, ts, pos);
      Descend(L, ts, pos);
    }
  }

  /** The tokens that can start a factor. */
  predicate StartsFactor(t: Token)
  {
    t.Num? || t == Minus || t == LParen || t == Sqrt || t == Tokenizer.Abs || t == Fac
  }

  /** An input that is empty or starts with a token no factor starts with
      (an operator other than '-', ')' or `Eof`) is rejected with that
      token. */
  lemma NoOperand(ts: seq<Token>)
    requires ts == [] || !StartsFactor(ts[0])
    ensures ParseTokens(ts) == Err(Unexpected(PeekAt(ts, 0)))
  {
    FactorFailurePropagates(0, ts, 0);
  }

  /** A function name that is not followed by '(' is rejected with the token
      found instead. */
  lemma CallWithoutParenthesis(f: Fn, rest: seq<Token>)
    requires rest == [] || rest[0] != LParen
    ensures ParseTokens([FnToken(f)] + rest) == Err(ExpectedLParen(PeekAt(rest, 0)))
  {
    var ts := [FnToken(f)] + rest;
    assert PeekAt(ts, 1) == PeekAt(rest, 0);
    assert ParseFactor(ts, 0) == ParseCall(ts, 0) by {
      match f
      case SqrtFn =>
      case AbsFn =>
      case FacFn =>
    }
    FactorFailurePropagates(0, ts, 0);
  }

  /** A parenthesised expression that is not closed: its own error if it has
      one, otherwise the token found where ')' belongs. */
  lemma UnclosedParenthesis(e: Ast, rest: seq<Token>)
    requires rest == [] || (OpLevel(rest[0]) < 0 && rest[0] != RParen)
    ensures ParseTokens([LParen] + Emit(e, 0) + rest) ==
      Err(if Eval(e).Err? then Eval(e).error else ExpectedRParen(PeekAt(rest, 0)))
  {
    var E := Emit(e, 0);
    var ts := [LParen] + E + rest;
    assert ts[1..1 + |E|] == E;
    assert PeekAt(ts, 1 + |E|) == PeekAt(rest, 0);
    ParseEmitted(e, 0, ts, 1);
    if Eval(e).Ok? {
      LoopStops(0, ts, 1 + |E|, Eval(e).value);
    }
    assert ParseFactor(ts, 0).Err?;
    FactorFailurePropagates(0, ts, 0);
  }
}

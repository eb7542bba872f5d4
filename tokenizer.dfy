/** The lexical stage (src/tokenizer.rs): whitespace is dropped, then the
    remaining characters are grouped into number literals, function names and
    one-character symbols. */
module Tokenizer {
  import opened Results

  /** One lexical unit. `Eof` is also what an unrecognised character becomes. */
  datatype Token =
    | Num(value: int)
    | Plus | Minus | Mul | Div
    | LParen | RParen
    | Mod | Pow
    | Sqrt | Abs | Fac
    | Eof

  /** The two ways tokenizing aborts. */
  datatype LexError =
    | UnknownOperation(word: string)    // a letter run that names no function
    | MalformedLiteral(text: string)    // a number run that does not convert

  /** Rust's `char::is_whitespace`: the Unicode White_Space code points. */
  predicate IsWhitespace(c: char)
    ensures c == ' ' || c == '\t' || c == '\n' || c == '\r' ==> IsWhitespace(c)
  {
    var n := c as int;
    (0x09 <= n <= 0x0D) || n == 0x20 || n == 0x85 || n == 0xA0 || n == 0x1680 ||
    (0x2000 <= n <= 0x200A) || n == 0x2028 || n == 0x2029 || n == 0x202F ||
    n == 0x205F || n == 0x3000
  }

  /** `is_digit(10)`. */
  predicate IsDigit(c: char)
  {
    '0' <= c <= '9'
  }

  /** `is_alphabetic`, restricted to ASCII letters. */
  predicate IsAlphabetic(c: char)
  {
    ('a' <= c <= 'z') || ('A' <= c <= 'Z')
  }

  /** The scan's branches are told apart by the first character: whitespace,
      digits and letters are three disjoint classes. */
  lemma CharClassesDisjoint(c: char)
    ensures IsDigit(c) ==> !IsWhitespace(c) && !IsAlphabetic(c)
    ensures IsAlphabetic(c) ==> !IsWhitespace(c) && !IsDigit(c)
  {
  }

  /** The characters a number run extends over. */
  predicate IsNumberChar(c: char)
  {
    IsDigit(c) || c == '.'
  }

  /** The input with every whitespace character removed (the filtered
      character iterator). */
  function Strip(s: string): (r: string)
    ensures |r| <= |s|
  {
    if s == [] then []
    else if IsWhitespace(s[0]) then Strip(s[1..])
    else [s[0]] + Strip(s[1..])
  }

  /** The length of the maximal prefix of t whose characters satisfy inRun. */
  function Span(t: string, inRun: char -> bool): (k: nat)
    ensures k <= |t|
    ensures forall i :: 0 <= i < k ==> inRun(t[i])
    ensures k == |t| || !inRun(t[k])
  {
    if t != [] && inRun(t[0]) then 1 + Span(t[1..], inRun) else 0
  }

  function DigitValue(c: char): nat
    requires IsDigit(c)
  {
    (c as int) - ('0' as int)
  }

  predicate AllDigits(s: string)
  {
    forall i :: 0 <= i < |s| ==> IsDigit(s[i])
  }

  /** The value of a string of decimal digits. */
  function DecimalValue(s: string): nat
    requires AllDigits(s)
  {
    if s == [] then 0 else 10 * DecimalValue(s[..|s| - 1]) + DigitValue(s[|s| - 1])
  }

  /** The literal conversion of a number run: a run of digits is its decimal
      value; any run holding a '.' does not convert to an integer. */
  function Literal(text: string): (r: Result<int, LexError>)
    ensures r.Ok? <==> forall i :: 0 <= i < |text| ==> IsDigit(text[i])
    ensures r.Ok? ==> r.value >= 0
    ensures r.Err? ==> r.error == MalformedLiteral(text)
  {
    if AllDigits(text) then Ok(DecimalValue(text)) else Err(MalformedLiteral(text))
  }

  /** The function token a letter run names, if any. */
  function Keyword(word: string): (r: Option<Token>)
    ensures r.Some? <==> word in ["sqrt", "abs", "fac"]
    ensures r.Some? ==> Spelling(r.value) == word
  {
    if word == "sqrt" then Some(Sqrt)
    else if word == "abs" then Some(Abs)
    else if word == "fac" then Some(Fac)
    else None
  }

  /** The token of a one-character symbol; `Eof` for every character that is
      not one of the eight operator and parenthesis symbols. */
  function Symbol(c: char): (r: Token)
    ensures r != Eof <==> c in "+-*/()%^"
    ensures r != Eof ==> Spelling(r) == [c]
  {
    match c
    case '+' => Plus
    case '-' => Minus
    case '*' => Mul
    case '/' => Div
    case '(' => LParen
    case ')' => RParen
    case '%' => Mod
    case '^' => Pow
    case _ => Eof
  }

  /** The source text of each operator, parenthesis and function token. */
  function Spelling(t: Token): string
  {
    match t
    case Plus => "+"
    case Minus => "-"
    case Mul => "*"
    case Div => "/"
    case LParen => "("
    case RParen => ")"
    case Mod => "%"
    case Pow => "^"
    case Sqrt => "sqrt"
    case Abs => "abs"
    case Fac => "fac"
    case _ => ""
  }

  /** t prepended to the tokens of r, unless r is an error. */
  function Cons(t: Token, r: Result<seq<Token>, LexError>): Result<seq<Token>, LexError>
  {
    if r.Err? then r else Ok([t] + r.value)
  }

  /** The specification of the scan over whitespace-free text t: one token per
      maximal number run, maximal letter run or single other character, in
      order, stopping at the first run that does not convert. */
  function Lex(t: string): (r: Result<seq<Token>, LexError>)
    ensures r.Ok? ==> |r.value| <= |t|
    decreases |t|
  {
    if t == [] then Ok([])
    else if IsDigit(t[0]) then
      var k := Span(t, IsNumberChar);
      var v :- Literal(t[..k]);
      Cons(Num(v), Lex(t[k..]))
    else if IsAlphabetic(t[0]) then
      var k := Span(t, IsAlphabetic);
      match Keyword(t[..k])
      case None => Err(UnknownOperation(t[..k]))
      case Some(f) => Cons(f, Lex(t[k..]))
    else
      Cons(Symbol(t[0]), Lex(t[1..]))
  }

  /** What `tokenize` computes for a whole input. Every token consumes at
      least one non-whitespace character. */
  function Tokenized(s: string): (r: Result<seq<Token>, LexError>)
    ensures r.Ok? ==> |r.value| <= |Strip(s)| <= |s|
  {
    Lex(Strip(s))
  }

  /** The tokens already pushed, followed by those still to come. */
  function Extend(done: seq<Token>, rest: Result<seq<Token>, LexError>): Result<seq<Token>, LexError>
  {
    if rest.Err? then rest else Ok(done + rest.value)
  }

  /** A span is determined by its two defining properties. */
  lemma SpanIs(t: string, inRun: char -> bool, m: nat)
    requires m <= |t|
    requires forall i :: 0 <= i < m ==> inRun(t[i])
    requires m == |t| || !inRun(t[m])
    ensures Span(t, inRun) == m
  {
  }

  lemma ExtendCons(done: seq<Token>, t: Token, rest: Result<seq<Token>, LexError>)
    ensures Extend(done, Cons(t, rest)) == Extend(done + [t], rest)
  {
    if rest.Ok? {
      assert done + ([t] + rest.value) == (done + [t]) + rest.value;
    }
  }

  /** One step of the scan at position i of the filtered text: the number run
      chars[i..j] becomes one literal, or the scan stops at its conversion. */
  lemma LexNumberRun(chars: string, i: nat, j: nat, done: seq<Token>)
    requires i < j <= |chars| && IsDigit(chars[i])
    requires forall k :: i <= k < j ==> IsNumberChar(chars[k])
    requires j == |chars| || !IsNumberChar(chars[j])
    ensures Literal(chars[i..j]).Err? ==>
      Extend(done, Lex(chars[i..])) == Err(Literal(chars[i..j]).error)
    ensures Literal(chars[i..j]).Ok? ==>
      Extend(done, Lex(chars[i..])) == Extend(done + [Num(Literal(chars[i..j]).value)], Lex(chars[j..]))
  {
    var t := chars[i..];
    SpanIs(t, IsNumberChar, j - i);
    assert t[..j - i] == chars[i..j];
    assert t[j - i..] == chars[j..];
    if Literal(chars[i..j]).Ok? {
      ExtendCons(done, Num(Literal(chars[i..j]).value), Lex(chars[j..]));
    }
  }

  /** One step of the scan: the letter run chars[i..j] becomes one function
      token, or the scan stops on an unknown name. */
  lemma LexWordRun(chars: string, i: nat, j: nat, done: seq<Token>)
    requires i < j <= |chars| && IsAlphabetic(chars[i])
    requires forall k :: i <= k < j ==> IsAlphabetic(chars[k])
    requires j == |chars| || !IsAlphabetic(chars[j])
    ensures Keyword(chars[i..j]).None? ==>
      Extend(done, Lex(chars[i..])) == Err(UnknownOperation(chars[i..j]))
    ensures Keyword(chars[i..j]).Some? ==>
      Extend(done, Lex(chars[i..])) == Extend(done + [Keyword(chars[i..j]).value], Lex(chars[j..]))
  {
    var t := chars[i..];
    SpanIs(t, IsAlphabetic, j - i);
    assert t[..j - i] == chars[i..j];
    assert t[j - i..] == chars[j..];
    if Keyword(chars[i..j]).Some? {
      ExtendCons(done, Keyword(chars[i..j]).value, Lex(chars[j..]));
    }
  }

  /** One step of the scan: any other character becomes one token. */
  lemma LexSymbolChar(chars: string, i: nat, done: seq<Token>)
    requires i < |chars| && !IsDigit(chars[i]) && !IsAlphabetic(chars[i])
    ensures Extend(done, Lex(chars[i..])) == Extend(done + [Symbol(chars[i])], Lex(chars[i + 1..]))
  {
    assert chars[i..][1..] == chars[i + 1..];
    ExtendCons(done, Symbol(chars[i]), Lex(chars[i + 1..]));
  }

  /** The scan invariant: the tokens pushed so far, followed by the tokens of
      the unscanned suffix, are the tokens of the whole text. */
  ghost predicate ScannedUpTo(chars: string, i: nat, done: seq<Token>)
    requires i <= |chars|
  {
    Lex(chars) == Extend(done, Lex(chars[i..]))
  }

  /** The inner loops of `tokenize`: starting at chars[i], push characters
      onto the string n while they belong to the run; stop at the first one
      that does not, or at the end of the input. */
  method TakeRun(chars: string, i: nat, inRun: char -> bool) returns (j: nat, n: string)
    requires i <= |chars|
    ensures i <= j <= |chars| && n == chars[i..j]
    ensures forall k :: i <= k < j ==> inRun(chars[k])
    ensures j == |chars| || !inRun(chars[j])
  {
    n := "";
    j := i;
    while j < |chars| && inRun(chars[j])
      invariant i <= j <= |chars|
      invariant n == chars[i..j]
      invariant forall k :: i <= k < j ==> inRun(chars[k])
      decreases |chars| - j
    {
      assert chars[i..j + 1] == chars[i..j] + [chars[j]];
      n := n + [chars[j]];
      j := j + 1;
    }
  }

  /** `tokenize`: the whitespace-filtered characters are scanned once, left to
      right; a digit or a letter starts a run that is collected whole. */
  method Tokenize(expr: string) returns (r: Result<seq<Token>, LexError>)
    ensures r == Tokenized(expr)
  {
    var chars := Strip(expr);
    var result: seq<Token> := [];
    var i := 0;
    assert chars[i..] == chars;
    assert Lex(chars).Ok? ==> [] + Lex(chars).value == Lex(chars).value;
    while i < |chars|
      invariant i <= |chars|
      invariant ScannedUpTo(chars, i, result)
      decreases |chars| - i
    {
      var c := chars[i];
      if IsDigit(c) {
        var j, n := TakeRun(chars, i, IsNumberChar);
        LexNumberRun(chars, i, j, result);
        var v := Literal(n);
        if v.Err? {
          return Err(v.error);
        }
        result := result + [Num(v.value)];
        i := j;
      } else if IsAlphabetic(c) {
        var j, n := TakeRun(chars, i, IsAlphabetic);
        LexWordRun(chars, i, j, result);
        var f := Keyword(n);
        if f.None? {
          return Err(UnknownOperation(n));
        }
        result := result + [f.value];
        i := j;
      } else {
        LexSymbolChar(chars, i, result);
        result := result + [Symbol(c)];
        i := i + 1;
      }
    }
    assert chars[i..] == [] && result + [] == result;
    r := Ok(result);
  }

  // ---------------------------------------------------------------------
  // Properties of the scan

  lemma {:induction false} StripConcat(a: string, b: string)
    ensures Strip(a + b) == Strip(a) + Strip(b)
  {
    if a == [] {
      assert a + b == b;
    } else {
      assert (a + b)[0] == a[0] && (a + b)[1..] == a[1..] + b;
      StripConcat(a[1..], b);
      if !IsWhitespace(a[0]) {
        assert [a[0]] + (Strip(a[1..]) + Strip(b)) == ([a[0]] + Strip(a[1..])) + Strip(b);
      }
    }
  }

  lemma {:induction false} StripAllWhitespace(w: string)
    requires forall i :: 0 <= i < |w| ==> IsWhitespace(w[i])
    ensures Strip(w) == []
  {
    if w != [] {
      StripAllWhitespace(w[1..]);
    }
  }

  lemma {:induction false} StripNoWhitespace(t: string)
    requires forall i :: 0 <= i < |t| ==> !IsWhitespace(t[i])
    ensures Strip(t) == t
  {
    if t != [] {
      StripNoWhitespace(t[1..]);
      assert t == [t[0]] + t[1..];
    }
  }

  lemma {:induction false} StripRemovesWhitespace(s: string)
    ensures forall i :: 0 <= i < |Strip(s)| ==> !IsWhitespace(Strip(s)[i])
  {
    if s != [] {
      StripRemovesWhitespace(s[1..]);
    }
  }

  /** Whitespace is removed before grouping: inserting whitespace anywhere
      leaves the tokens unchanged, even between two characters of what then
      becomes a single run. */
  lemma WhitespaceIgnored(a: string, w: string, b: string)
    requires forall i :: 0 <= i < |w| ==> IsWhitespace(w[i])
    ensures Tokenized(a + w + b) == Tokenized(a + b)
  {
    StripConcat(a + w, b);
    StripConcat(a, w);
    StripConcat(a, b);
    StripAllWhitespace(w);
    assert Strip(a) + [] == Strip(a);
  }

  /** Tokenizing the whitespace-free form of an input gives the same result. */
  lemma TokenizedStripped(s: string)
    ensures Tokenized(Strip(s)) == Tokenized(s)
  {
    StripRemovesWhitespace(s);
    StripNoWhitespace(Strip(s));
  }

  /** A character that is neither a digit nor a letter is one token on its
      own: its symbol token, or `Eof` when it is none of the eight symbols
      (a leading '.' among them). */
  lemma LexOtherChar(c: char, rest: string)
    requires !IsDigit(c) && !IsAlphabetic(c)
    ensures Lex([c] + rest) == Cons(Symbol(c), Lex(rest))
    ensures Symbol(c) == Eof <==> c !in "+-*/()%^"
  {
    assert ([c] + rest)[1..] == rest;
  }

  /** A number starts at a digit and extends over the maximal run of digits
      and dots; the run becomes one literal, or the scan fails at its
      conversion when it holds a dot, and the next token starts right after. */
  lemma LexNumber(d: string, rest: string)
    requires d != [] && IsDigit(d[0])
    requires forall i :: 0 <= i < |d| ==> IsNumberChar(d[i])
    requires rest == [] || !IsNumberChar(rest[0])
    ensures AllDigits(d) ==> Lex(d + rest) == Cons(Num(DecimalValue(d)), Lex(rest))
    ensures !AllDigits(d) ==> Lex(d + rest) == Err(MalformedLiteral(d))
  {
    var t := d + rest;
    SpanIs(t, IsNumberChar, |d|);
    assert t[..|d|] == d && t[|d|..] == rest;
  }

  /** A maximal letter run must spell exactly one function name; any other
      word aborts the scan. */
  lemma LexWord(w: string, rest: string)
    requires w != []
    requires forall i :: 0 <= i < |w| ==> IsAlphabetic(w[i])
    requires rest == [] || !IsAlphabetic(rest[0])
    ensures w == "sqrt" ==> Lex(w + rest) == Cons(Sqrt, Lex(rest))
    ensures w == "abs" ==> Lex(w + rest) == Cons(Abs, Lex(rest))
    ensures w == "fac" ==> Lex(w + rest) == Cons(Fac, Lex(rest))
    ensures w !in ["sqrt", "abs", "fac"] ==> Lex(w + rest) == Err(UnknownOperation(w))
  {
    var t := w + rest;
    SpanIs(t, IsAlphabetic, |w|);
    assert t[..|w|] == w && t[|w|..] == rest;
  }

  lemma ExtendEmpty(r: Result<seq<Token>, LexError>)
    ensures Extend([], r) == r
  {
    if r.Ok? {
      assert [] + r.value == r.value;
    }
  }

  /** A whole input that is one letter run: its function token, or the
      failure to name one. */
  lemma TokenizeWord(w: string)
    requires w != [] && forall i :: 0 <= i < |w| ==> IsAlphabetic(w[i])
    ensures Keyword(w).Some? ==> Tokenized(w) == Ok([Keyword(w).value])
    ensures Keyword(w).None? ==> Tokenized(w) == Err(UnknownOperation(w))
  {
    StripNoWhitespace(w);
    LexWordRun(w, 0, |w|, []);
    assert w[0..] == w && w[0..|w|] == w && w[|w|..] == [];
    ExtendEmpty(Lex(w));
    if Keyword(w).Some? {
      assert Lex([]) == Ok([]);
      assert [] + [Keyword(w).value] + [] == [Keyword(w).value];
    }
  }

  /** A whole input that is one number run: its literal, or the failure to
      convert it. */
  lemma TokenizeNumberRun(d: string)
    requires d != [] && IsDigit(d[0]) && forall i :: 0 <= i < |d| ==> IsNumberChar(d[i])
    ensures AllDigits(d) ==> Tokenized(d) == Ok([Num(DecimalValue(d))])
    ensures !AllDigits(d) ==> Tokenized(d) == Err(MalformedLiteral(d))
  {
    StripNoWhitespace(d);
    LexNumberRun(d, 0, |d|, []);
    assert d[0..] == d && d[0..|d|] == d && d[|d|..] == [];
    ExtendEmpty(Lex(d));
    if AllDigits(d) {
      assert Lex([]) == Ok([]);
      assert [] + [Num(DecimalValue(d))] + [] == [Num(DecimalValue(d))];
    }
  }

  /** The spelling of every operator, parenthesis and function token scans
      back to exactly that token. */
  lemma LexSpelling(t: Token)
    requires !t.Num? && t != Eof
    ensures Lex(Spelling(t)) == Ok([t])
  {
    var s := Spelling(t);
    assert s + [] == s;
    assert Lex([]) == Ok([]) && [t] + [] == [t];
    if t == Sqrt {
      LexWord("sqrt", []);
    } else if t == Abs {
      LexWord("abs", []);
    } else if t == Fac {
      LexWord("fac", []);
    } else {
      var c := s[0];
      assert s == [c] && [c] + [] == s;
      LexOtherChar(c, []);
      match t
      case Plus => assert Symbol(c) == Plus;
      case Minus => assert Symbol(c) == Minus;
      case Mul => assert Symbol(c) == Mul;
      case Div => assert Symbol(c) == Div;
      case LParen => assert Symbol(c) == LParen;
      case RParen => assert Symbol(c) == RParen;
      case Mod => assert Symbol(c) == Mod;
      case Pow => assert Symbol(c) == Pow;
    }
  }

  /** Two pieces of text that no run crosses. */
  predicate Boundary(a: string, b: string)
  {
    a == [] || b == [] ||
    (!(IsNumberChar(a[|a| - 1]) && IsNumberChar(b[0])) &&
     !(IsAlphabetic(a[|a| - 1]) && IsAlphabetic(b[0])))
  }

  /** The tokens of a followed by those of b; the first error wins. */
  function Join(ra: Result<seq<Token>, LexError>, rb: Result<seq<Token>, LexError>): Result<seq<Token>, LexError>
  {
    if ra.Err? then ra else Extend(ra.value, rb)
  }

  lemma ConsJoin(t: Token, ra: Result<seq<Token>, LexError>, rb: Result<seq<Token>, LexError>)
    ensures Cons(t, Join(ra, rb)) == Join(Cons(t, ra), rb)
  {
    if ra.Ok? && rb.Ok? {
      assert [t] + (ra.value + rb.value) == ([t] + ra.value) + rb.value;
    }
  }

  lemma SpanConcat(a: string, b: string, inRun: char -> bool)
    requires a != [] && inRun(a[0])
    requires b == [] || !inRun(a[|a| - 1]) || !inRun(b[0])
    ensures Span(a + b, inRun) == Span(a, inRun)
  {
    var k := Span(a, inRun);
    SpanIs(a + b, inRun, k);
  }

  /** The first token of a + b comes from a run that lies inside a. */
  lemma LexConcatStep(a: string, b: string, k: nat, first: Result<Token, LexError>)
    requires 0 < k <= |a| && Boundary(a, b)
    requires Lex(a) == (if first.Err? then Err(first.error) else Cons(first.value, Lex(a[k..])))
    requires Lex(a + b) == (if first.Err? then Err(first.error) else Cons(first.value, Lex(a[k..] + b)))
    requires Lex(a[k..] + b) == Join(Lex(a[k..]), Lex(b))
    ensures Lex(a + b) == Join(Lex(a), Lex(b))
  {
    if first.Ok? {
      ConsJoin(first.value, Lex(a[k..]), Lex(b));
    }
  }

  /** Tokens come out in the order of the text that produced them: when no run
      crosses from a into b, the tokens of a + b are those of a followed by
      those of b. */
  lemma {:induction false} LexConcat(a: string, b: string)
    requires Boundary(a, b)
    ensures Lex(a + b) == Join(Lex(a), Lex(b))
    decreases |a|
  {
    var t := a + b;
    if a == [] {
      assert t == b;
      if Lex(b).Ok? {
        assert [] + Lex(b).value == Lex(b).value;
      }
    } else {
      var k, first := FirstToken(a, b);
      LexConcat(a[k..], b);
      LexConcatStep(a, b, k, first);
    }
  }

  /** The run that starts a (non-empty) also starts a + b, with the same
      token, and a + b continues with what follows the run in a, then b. */
  lemma FirstToken(a: string, b: string) returns (k: nat, first: Result<Token, LexError>)
    requires a != [] && Boundary(a, b)
    ensures 0 < k <= |a| && Boundary(a[k..], b)
    ensures Lex(a) == (if first.Err? then Err(first.error) else Cons(first.value, Lex(a[k..])))
    ensures Lex(a + b) == (if first.Err? then Err(first.error) else Cons(first.value, Lex(a[k..] + b)))
  {
    if IsDigit(a[0]) {
      k, first := FirstRun(a, b, IsNumberChar);
    } else if IsAlphabetic(a[0]) {
      k, first := FirstRun(a, b, IsAlphabetic);
    } else {
      var t := a + b;
      assert t[0] == a[0] && t[1..] == a[1..] + b;
      k := 1;
      first := Ok(Symbol(a[0]));
    }
    if k < |a| {
      assert a[k..][|a[k..]| - 1] == a[|a| - 1];
    }
  }

  lemma DropConcat(a: string, b: string, k: nat)
    requires k <= |a|
    ensures (a + b)[k..] == a[k..] + b
  {
    forall i | 0 <= i < |a| + |b| - k
      ensures (a + b)[k..][i] == (a[k..] + b)[i]
    {
      if k + i < |a| {
        assert (a + b)[k + i] == a[k + i];
      }
    }
  }

  /** The number or letter run at the start of a is also the run at the start
      of a + b. */
  lemma FirstRun(a: string, b: string, inRun: char -> bool) returns (k: nat, first: Result<Token, LexError>)
    requires a != [] && Boundary(a, b)
    requires (IsDigit(a[0]) && inRun == IsNumberChar) || (!IsDigit(a[0]) && IsAlphabetic(a[0]) && inRun == IsAlphabetic)
    ensures 0 < k <= |a|
    ensures Lex(a) == (if first.Err? then Err(first.error) else Cons(first.value, Lex(a[k..])))
    ensures Lex(a + b) == (if first.Err? then Err(first.error) else Cons(first.value, Lex(a[k..] + b)))
  {
    var t := a + b;
    assert t[0] == a[0];
    SpanConcat(a, b, inRun);
    k := Span(a, inRun);
    DropConcat(a, b, k);
    assert t[..k] == a[..k];
    if IsDigit(a[0]) {
      first := if Literal(a[..k]).Err? then Err(Literal(a[..k]).error) else Ok(Num(Literal(a[..k]).value));
    } else {
      first := if Keyword(a[..k]).None? then Err(UnknownOperation(a[..k])) else Ok(Keyword(a[..k]).value);
    }
  }
}

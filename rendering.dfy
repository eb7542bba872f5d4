/** Printing tokens back to text, and the round trip through the tokenizer:
    the printed text of any token sequence that the tokenizer could have
    produced from separate runs tokenizes back to that sequence. */
module Rendering {
  import opened Results
  import opened Tokenizer

  function DigitChar(d: nat): (c: char)
    requires d < 10
    ensures IsDigit(c) && DigitValue(c) == d
  {
    ('0' as int + d) as char
  }

  /** The decimal numeral of n, most significant digit first. */
  function DecimalString(n: nat): (s: string)
    ensures s != [] && AllDigits(s) && DecimalValue(s) == n
  {
    if n < 10 then [DigitChar(n)]
    else
      var s := DecimalString(n / 10) + [DigitChar(n % 10)];
      assert s[..|s| - 1] == DecimalString(n / 10);
      s
  }

  predicate IsFunction(t: Token)
  {
    t == Sqrt || t == Tokenizer.Abs || t == Fac
  }

  /** Tokens with a spelling: no `Eof`, and numbers are not negative. */
  predicate Printable(t: Token)
  {
    t != Eof && (t.Num? ==> t.value >= 0)
  }

  function Spell(t: Token): string
    requires Printable(t)
  {
    if t.Num? then DecimalString(t.value) else Spelling(t)
  }

  /** The characters a token's spelling is made of: digits for a number,
      letters for a function name, and one character that is neither (and no
      whitespace) for a symbol. */
  predicate SpelledWith(t: Token, c: char)
  {
    if t.Num? then IsDigit(c)
    else if IsFunction(t) then IsAlphabetic(c)
    else !IsNumberChar(c) && !IsAlphabetic(c) && !IsWhitespace(c)
  }

  lemma SpellChars(t: Token)
    requires Printable(t)
    ensures Spell(t) != []
    ensures forall i :: 0 <= i < |Spell(t)| ==> SpelledWith(t, Spell(t)[i])
  {
  }

  /** A printable token's spelling tokenizes to that one token. */
  lemma SpellLexes(t: Token)
    requires Printable(t)
    ensures Lex(Spell(t)) == Ok([t])
  {
    if t.Num? {
      var d := DecimalString(t.value);
      LexNumber(d, []);
      assert d + [] == d;
      assert Lex([]) == Ok([]) && [t] + [] == [t];
    } else {
      LexSpelling(t);
    }
  }

  /** Two neighbours whose spellings would merge into one run. */
  predicate Glued(a: Token, b: Token)
  {
    (a.Num? && b.Num?) || (IsFunction(a) && IsFunction(b))
  }

  predicate Separated(ts: seq<Token>)
  {
    forall i :: 0 < i < |ts| ==> !Glued(ts[i - 1], ts[i])
  }

  predicate AllPrintable(ts: seq<Token>)
  {
    forall i :: 0 <= i < |ts| ==> Printable(ts[i])
  }

  /** The spellings of the tokens, one after the other with no separator. */
  function Text(ts: seq<Token>): string
    requires AllPrintable(ts)
  {
    if ts == [] then [] else Spell(ts[0]) + Text(ts[1..])
  }

  /** The first character of a text is the first of its first token's
      spelling, and no character of it is whitespace. */
  lemma {:induction false} TextChars(ts: seq<Token>)
    requires AllPrintable(ts)
    ensures ts != [] ==> Text(ts) != [] && SpelledWith(ts[0], Text(ts)[0])
    ensures forall i :: 0 <= i < |Text(ts)| ==> !IsWhitespace(Text(ts)[i])
  {
    if ts != [] {
      SpellChars(ts[0]);
      TextChars(ts[1..]);
      var a, b := Spell(ts[0]), Text(ts[1..]);
      forall i | 0 <= i < |a + b|
        ensures !IsWhitespace((a + b)[i])
      {
        if i < |a| {
          assert SpelledWith(ts[0], a[i]);
        } else {
          assert (a + b)[i] == b[i - |a|];
        }
      }
    }
  }

  /** Printing then lexing gives the tokens back. */
  lemma {:induction false} TextLexes(ts: seq<Token>)
    requires AllPrintable(ts) && Separated(ts)
    ensures Lex(Text(ts)) == Ok(ts)
  {
    if ts != [] {
      var t, rest := ts[0], ts[1..];
      assert Separated(rest) by {
        forall i | 0 < i < |rest|
          ensures !Glued(rest[i - 1], rest[i])
        {
          assert rest[i - 1] == ts[i] && rest[i] == ts[i + 1];
        }
      }
      var a := Spell(t);
      assert Boundary(a, Text(rest)) by {
        SpellChars(t);
        TextChars(rest);
        assert SpelledWith(t, a[|a| - 1]);
        assert rest != [] ==> !Glued(t, rest[0]) by {
          if rest != [] {
            assert ts[0] == t && ts[1] == rest[0];
          }
        }
      }
      assert Lex(a + Text(rest)) == Join(Ok([t]), Ok(rest)) by {
        TextLexes(rest);
        LexConcat(a, Text(rest));
        SpellLexes(t);
      }
      assert [t] + rest == ts;
    } else {
      assert Lex([]) == Ok([]);
    }
  }

  /** The full tokenizer on printed text: whitespace removal changes nothing,
      so `tokenize` returns the tokens that were printed. */
  lemma TokenizeText(ts: seq<Token>)
    requires AllPrintable(ts) && Separated(ts)
    ensures Tokenized(Text(ts)) == Ok(ts)
  {
    TextChars(ts);
    StripNoWhitespace(Text(ts));
    TextLexes(ts);
  }

  /** The tokens spelled with the whitespace gaps[i] before token i. */
  function Layout(ts: seq<Token>, gaps: seq<string>): string
    requires AllPrintable(ts) && |gaps| == |ts|
  {
    if ts == [] then [] else gaps[0] + Spell(ts[0]) + Layout(ts[1..], gaps[1..])
  }

  predicate AllWhitespace(gaps: seq<string>)
  {
    forall i, j :: 0 <= i < |gaps| && 0 <= j < |gaps[i]| ==> IsWhitespace(gaps[i][j])
  }

  lemma LayoutTails(ts: seq<Token>, gaps: seq<string>)
    requires ts != [] && AllPrintable(ts) && |gaps| == |ts| && AllWhitespace(gaps)
    ensures AllPrintable(ts[1..]) && AllWhitespace(gaps[1..])
    ensures forall j :: 0 <= j < |gaps[0]| ==> IsWhitespace(gaps[0][j])
  {
    forall i | 0 <= i < |ts[1..]|
      ensures Printable(ts[1..][i])
    {
      assert ts[1..][i] == ts[i + 1];
    }
    forall i, j | 0 <= i < |gaps[1..]| && 0 <= j < |gaps[1..][i]|
      ensures IsWhitespace(gaps[1..][i][j])
    {
      assert gaps[1..][i] == gaps[i + 1];
    }
  }

  lemma SpellNoWhitespace(t: Token)
    requires Printable(t)
    ensures forall i :: 0 <= i < |Spell(t)| ==> !IsWhitespace(Spell(t)[i])
  {
    SpellChars(t);
  }

  /** Stripping a gap followed by a word without whitespace. */
  lemma StripPiece(g: string, w: string, rest: string)
    requires forall j :: 0 <= j < |g| ==> IsWhitespace(g[j])
    requires forall j :: 0 <= j < |w| ==> !IsWhitespace(w[j])
    ensures Strip(g + w + rest) == w + Strip(rest)
  {
    assert Strip(g + w) == w by {
      StripConcat(g, w);
      StripAllWhitespace(g);
      StripNoWhitespace(w);
      assert [] + w == w;
    }
    StripConcat(g + w, rest);
  }

  /** Laid-out text tokenizes like the text without the gaps. */
  lemma {:induction false} LayoutStrips(ts: seq<Token>, gaps: seq<string>)
    requires AllPrintable(ts) && |gaps| == |ts| && AllWhitespace(gaps)
    ensures Strip(Layout(ts, gaps)) == Text(ts)
  {
    if ts != [] {
      LayoutTails(ts, gaps);
      LayoutStrips(ts[1..], gaps[1..]);
      SpellNoWhitespace(ts[0]);
      StripPiece(gaps[0], Spell(ts[0]), Layout(ts[1..], gaps[1..]));
    }
  }

  lemma TokenizeLayout(ts: seq<Token>, gaps: seq<string>)
    requires AllPrintable(ts) && Separated(ts) && |gaps| == |ts| && AllWhitespace(gaps)
    ensures Tokenized(Layout(ts, gaps)) == Ok(ts)
  {
    LayoutStrips(ts, gaps);
    TextLexes(ts);
  }
}

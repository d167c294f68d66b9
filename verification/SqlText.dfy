/** What the tokenizer makes of the pieces that printed expressions consist of. */
module SqlText {
  import opened Wrappers
  import opened StringUtil
  import opened SqlTokenizer
  import P = SqlParser

  lemma {:induction false} LeadingExactly(w: string, k: string, p: char -> bool)
    requires forall i :: 0 <= i < |w| ==> p(w[i])
    requires k == "" || !p(k[0])
    ensures Leading(w + k, p) == |w|
  {
    if w == "" {
      assert w + k == k;
    } else {
      assert (w + k)[1..] == w[1..] + k;
      LeadingExactly(w[1..], k, p);
    }
  }

  lemma {:induction false} TokensNext(s: string)
    requires s != "" && !IsSpace(s[0])
    ensures Tokens(s) == Next(s).tokens + Tokens(Next(s).rest)
  {
    hide Next;
    assert s[0..] == s;
    TokensStep(s);
  }

  lemma {:induction false} TokensSpace(c: char, k: string)
    requires IsSpace(c)
    ensures Tokens([c] + k) == Tokens(k)
  {
    hide Next;
    var s := [c] + k;
    assert s[1..] == k;
    assert s[Leading(s, IsSpace)..] == k[Leading(k, IsSpace)..];
    TokensStep(s);
    TokensStep(k);
  }

  lemma {:induction false} TokensSymbol(c: char, k: string)
    requires SymbolOf(c).Some?
    ensures Tokens([c] + k) == [P.Symbol(SymbolOf(c).value)] + Tokens(k)
  {
    hide Next, Tokens;
    var s := [c] + k;
    NextSymbol(s);
    TokensNext(s);
    assert s[1..] == k;
  }

  lemma {:induction false} NextSymbol(s: string)
    requires s != "" && SymbolOf(s[0]).Some?
    ensures !IsSpace(s[0]) && Next(s) == Scan([P.Symbol(SymbolOf(s[0]).value)], s[1..])
  {
  }

  lemma {:induction false} NextQuoted(s: string)
    requires s != "" && s[0] == '"'
    ensures var n := QuotedLength(s[1..], '"', 0);
            !IsSpace(s[0]) && Next(s) == Scan([P.Quoted(s[1..n + 1])], Drop(s, n + 2))
  {
    hide QuotedLength;
  }

  /** An identifier, or a keyword. */
  predicate IsPlainWord(w: string) {
    w != "" && !IsDigit(w[0]) && forall i :: 0 <= i < |w| ==> IsWord(w[i])
  }

  /** Nothing here continues a word or a number. */
  predicate Stops(k: string) {
    k == "" || k[0] == ',' || k[0] == '(' || k[0] == ')'
  }

  lemma {:induction false} TokensWord(w: string, k: string)
    requires IsPlainWord(w) && (k == "" || !IsWord(k[0]))
    ensures Tokens(w + k) == [WordToken(w)] + Tokens(k)
  {
    hide Leading, WordToken;
    var s := w + k;
    assert s[0] == w[0];
    TokensNext(s);
    LeadingExactly(w, k, IsWord);
    assert s[..|w|] == w && s[|w|..] == k;
  }

  lemma {:induction false} TokensNumeral(d: string, k: string)
    requires d != "" && IsDigit(d[0]) && (forall i :: 0 <= i < |d| ==> IsNumeric(d[i])) && (k == "" || !IsNumeric(k[0]))
    ensures Tokens(d + k) == [P.Numeric(d)] + Tokens(k)
  {
    hide Leading;
    var s := d + k;
    assert s[0] == d[0];
    TokensNext(s);
    LeadingExactly(d, k, IsNumeric);
    assert s[..|d|] == d && s[|d|..] == k;
  }

  lemma {:induction false} TokensNumber(d: string, k: string)
    requires d != "" && AllDigits(d) && Stops(k)
    ensures Tokens(d + k) == [P.Numeric(d)] + Tokens(k)
  {
    hide Tokens;
    TokensNumeral(d, k);
  }

  /** The number of backslashes at the end. */
  function Backslashes(s: string): nat {
    if s != "" && s[|s| - 1] == '\\' then 1 + Backslashes(s[..|s| - 1]) else 0
  }

  /** Reading on behind text without the quote character. */
  lemma {:induction false} QuotedBehind(s: string, k: string, quote: char, escape: nat)
    requires quote !in s && quote != '\\'
    ensures QuotedLength(s + k, quote, escape)
         == |s| + QuotedLength(k, quote, if Backslashes(s) == |s| then escape + |s| else Backslashes(s))
  {
    if s == "" {
      assert s + k == k;
    } else {
      assert (s + k)[1..] == s[1..] + k;
      BackslashesTail(s);
      QuotedBehind(s[1..], k, quote, if s[0] == '\\' then escape + 1 else 0);
    }
  }

  lemma {:induction false} BackslashesTail(s: string)
    requires s != ""
    ensures Backslashes(s) <= |s| && Backslashes(s[1..]) <= |s| - 1
    ensures Backslashes(s) == if Backslashes(s[1..]) == |s| - 1 && s[0] == '\\' then |s| else Backslashes(s[1..])
  {
    if |s| == 1 {
      assert s[..0] == "" && s[1..] == "";
    } else {
      var front := s[..|s| - 1];
      BackslashesTail(front);
      assert s[1..][..|s| - 2] == front[1..];
    }
  }

  /** Text whose printed form ends where the text ends. */
  predicate Quotable(s: string) {
    '"' !in s && Backslashes(s) % 2 == 0
  }

  lemma {:induction false} TokensQuoted(s: string, k: string)
    requires Quotable(s)
    ensures Tokens("\"" + s + "\"" + k) == [P.Quoted(s)] + Tokens(k)
  {
    hide QuotedLength, Next, Tokens;
    var text := "\"" + s + "\"" + k;
    NextQuoted(text);
    TokensNext(text);
    assert text[1..] == s + ("\"" + k);
    QuotedBehind(s, "\"" + k, '"', 0);
    QuoteCloses(k, if Backslashes(s) == |s| then |s| else Backslashes(s));
    assert text[1..|s| + 1] == s;
    assert Drop(text, |s| + 2) == k;
  }

  lemma {:induction false} QuoteCloses(k: string, escape: nat)
    requires escape % 2 == 0
    ensures QuotedLength("\"" + k, '"', escape) == 0
  {
  }
}

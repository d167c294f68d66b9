/**
  The tokenizer: one pass over the text, deciding each token by its first characters. The
  character read behind the end is NUL.
  */
module SqlTokenizer {
  import opened Wrappers
  import opened SqlParser
  import opened StringUtil

  /** The words that are not identifiers, in any mix of cases. */
  predicate IsKeyword(w: string) {
    match |w|
    case 2 =>
      w == "AS" || w == "BY" || w == "OR" || w == "ON"
    case 3 =>
      w == "ASC" || w == "NOT" || w == "AND" || w == "MOD" || w == "TOP" || w == "OFF"
    case 4 =>
      w == "DESC" || w == "TRUE" || w == "FROM" || w == "WITH" || w == "DRAW" || w == "LEFT" ||
      w == "AXIS" || w == "SHOW" || w == "GRID" || w == "OVER"
    case 5 =>
      w == "FALSE" || w == "WHERE" || w == "GROUP" || w == "ORDER" || w == "LIMIT" || w == "BEGIN" ||
      w == "RIGHT" || w == "TABLE" || w == "TITLE" || w == "TICKS"
    case 6 =>
      w == "SELECT" || w == "HAVING" || w == "OFFSET" || w == "CREATE" || w == "WITHIN" || w == "RECORD" ||
      w == "BOTTOM" || w == "IMPORT" || w == "TABLES" || w == "INVERT" || w == "LABELS" || w == "INSIDE" ||
      w == "ROTATE" || w == "LEGEND"
    case 7 =>
      w == "HEATMAP" || w == "STACKED" || w == "EXPLAIN" || w == "XDOMAIN" || w == "YDOMAIN" ||
      w == "ZDOMAIN" || w == "OUTSIDE"
    case 8 =>
      w == "BARCHART" || w == "VERTICAL" || w == "DESCRIBE" || w == "SUBTITLE"
    case 9 =>
      w == "LINECHART" || w == "AREACHART" || w == "HISTOGRAM"
    case 10 =>
      w == "POINTCHART" || w == "HORIZONTAL" || w == "TIMEWINDOW"
    case 11 =>
      w == "ORIENTATION" || w == "LOGARITHMIC"
    case _ => false
  }

  function UpperChar(c: char): char {
    if 'a' <= c <= 'z' then (c as int - 32) as char else c
  }

  function Upper(s: string): (u: string)
    ensures |u| == |s| && forall i :: 0 <= i < |s| ==> u[i] == UpperChar(s[i])
  {
    seq(|s|, i requires 0 <= i < |s| => UpperChar(s[i]))
  }

  function WordToken(word: string): Token {
    if IsKeyword(Upper(word)) then Keyword(Upper(word)) else Ident(word)
  }

  function At(s: string, i: nat): char {
    if i < |s| then s[i] else '\0'
  }

  predicate IsSpace(c: char) {
    c == ' ' || c == '\t' || c == '\n' || c == '\r'
  }

  /** `1.2.3` is a single token. */
  predicate IsNumeric(c: char) {
    IsDigit(c) || c == '.'
  }

  predicate IsComment(c: char) {
    c != '\n'
  }

  predicate IsQuote(c: char) {
    c == '`' || c == '"' || c == '\''
  }

  /** The characters that are a token by themselves. */
  function SymbolOf(c: char): Option<Sym> {
    match c
    case ';' => Some(SEMICOLON)
    case ',' => Some(COMMA)
    case '.' => Some(DOT)
    case '(' => Some(LPAREN)
    case ')' => Some(RPAREN)
    case '=' => Some(EQUAL)
    case '+' => Some(PLUS)
    case '*' => Some(ASTERISK)
    case '/' => Some(SLASH)
    case '^' => Some(CIRCUMFLEX)
    case '~' => Some(TILDE)
    case '%' => Some(PERCENT)
    case '&' => Some(AMPERSAND)
    case '|' => Some(PIPE)
    case _ => None
  }

  /** The characters whose token depends on the next one. */
  predicate IsDouble(c: char) {
    c == '-' || c == '!' || c == '<' || c == '>'
  }

  predicate IsWord(c: char) {
    !IsSpace(c) && !IsQuote(c) && SymbolOf(c).None? && !IsDouble(c)
  }

  /** How many of the first characters satisfy the predicate. */
  function Leading(s: string, p: char -> bool): (n: nat)
    ensures n <= |s| && (forall i :: 0 <= i < n ==> p(s[i])) && (n < |s| ==> !p(s[n]))
  {
    if s != "" && p(s[0]) then 1 + Leading(s[1..], p) else 0
  }

  /** The length of the quoted text before the closing quote, or before the end. A quote behind
      an odd number of backslashes does not close, and does not end the count either. */
  function QuotedLength(s: string, quote: char, escape: nat): (n: nat)
    ensures n <= |s|
  {
    if s == "" then 0
    else if s[0] == quote then
      if escape % 2 == 0 then 0 else 1 + QuotedLength(s[1..], quote, escape)
    else if s[0] == '\\' then 1 + QuotedLength(s[1..], quote, escape + 1)
    else 1 + QuotedLength(s[1..], quote, 0)
  }

  function Drop(s: string, n: nat): string {
    if n <= |s| then s[n..] else ""
  }

  datatype Scan = Scan(tokens: seq<Token>, rest: string)

  /** The token, if any, at the start of a text, and what is behind it. */
  function Next(s: string): (r: Scan)
    requires s != "" && !IsSpace(s[0])
    ensures |r.rest| < |s|
  {
    var c := s[0];
    if IsDigit(c) then
      var n := Leading(s, IsNumeric);
      Scan([Numeric(s[..n])], s[n..])
    else if IsQuote(c) then
      var n := QuotedLength(s[1..], c, 0);
      var text := s[1..n + 1];
      Scan([if c == '`' then Ident(text) else Quoted(text)], Drop(s, n + 2))
    else if SymbolOf(c).Some? then Scan([Symbol(SymbolOf(c).value)], s[1..])
    else if IsDouble(c) then NextDouble(s)
    else
      var n := Leading(s, IsWord);
      Scan([WordToken(s[..n])], s[n..])
  }

  function NextDouble(s: string): (r: Scan)
    requires s != "" && IsDouble(s[0])
    ensures |r.rest| < |s|
  {
    var c, d := s[0], At(s, 1);
    if c == '-' then
      if d == '-' then Scan([], s[Leading(s, IsComment)..]) else Scan([Symbol(MINUS)], s[1..])
    else if d == '=' then
      Scan([Symbol(if c == '!' then NEQUAL else if c == '<' then LTE else GTE)], s[2..])
    else Scan([Symbol(if c == '!' then BANG else if c == '<' then LT else GT)], s[1..])
  }

  function Tokens(s: string): seq<Token>
    decreases |s|
  {
    var text := s[Leading(s, IsSpace)..];
    if text == "" then []
    else
      var scan := Next(text);
      scan.tokens + Tokens(scan.rest)
  }

  // ------------------------------------------------------------------
  // The pass over the text
  // ------------------------------------------------------------------

  method SkipWhile(query: string, from: nat, p: char -> bool) returns (cur: nat)
    requires from <= |query|
    ensures cur == from + Leading(query[from..], p)
  {
    cur := from;
    while cur < |query| && p(query[cur])
      invariant from <= cur <= |query|
      invariant Leading(query[from..], p) == cur - from + Leading(query[cur..], p)
    {
      assert query[cur..][1..] == query[cur + 1..];
      cur := cur + 1;
    }
  }

  method SkipQuoted(query: string, from: nat, quote: char) returns (cur: nat)
    requires from <= |query|
    ensures cur == from + QuotedLength(query[from..], quote, 0)
  {
    cur := from;
    var escape := 0;
    while cur < |query|
      invariant from <= cur <= |query|
      invariant QuotedLength(query[from..], quote, 0) == cur - from + QuotedLength(query[cur..], quote, escape)
    {
      assert query[cur..][1..] == query[cur + 1..];
      if query[cur] == quote {
        if escape % 2 == 0 {
          break;
        }
      } else if query[cur] == '\\' {
        escape := escape + 1;
      } else {
        escape := 0;
      }
      cur := cur + 1;
    }
  }

  method NextToken(query: string, from: nat) returns (tokens: seq<Token>, cur: nat)
    requires from < |query| && !IsSpace(query[from])
    ensures Next(query[from..]) == Scan(tokens, Drop(query, cur))
  {
    hide Leading, QuotedLength;
    var c := query[from];
    var s := query[from..];
    if IsDigit(c) {
      cur := SkipWhile(query, from, IsNumeric);
      tokens := [Numeric(query[from..cur])];
      assert query[from..cur] == s[..cur - from];
    } else if IsQuote(c) {
      var end := SkipQuoted(query, from + 1, c);
      assert s[1..] == query[from + 1..];
      assert query[from + 1..end] == s[1..end - from];
      var text := query[from + 1..end];
      tokens := [if c == '`' then Ident(text) else Quoted(text)];
      cur := end + 1;
    } else if SymbolOf(c).Some? {
      tokens, cur := [Symbol(SymbolOf(c).value)], from + 1;
    } else if IsDouble(c) {
      tokens, cur := NextDoubleToken(query, from);
    } else {
      cur := SkipWhile(query, from, IsWord);
      tokens := [WordToken(query[from..cur])];
      assert query[from..cur] == s[..cur - from];
    }
  }

  method NextDoubleToken(query: string, from: nat) returns (tokens: seq<Token>, cur: nat)
    requires from < |query| && IsDouble(query[from])
    ensures NextDouble(query[from..]) == Scan(tokens, Drop(query, cur))
  {
    hide Leading;
    var c := query[from];
    var d := At(query, from + 1);
    assert d == At(query[from..], 1);
    if c == '-' {
      if d == '-' {
        cur := SkipWhile(query, from, IsComment);
        tokens := [];
      } else {
        tokens, cur := [Symbol(MINUS)], from + 1;
      }
    } else if d == '=' {
      tokens, cur := [Symbol(if c == '!' then NEQUAL else if c == '<' then LTE else GTE)], from + 2;
    } else {
      tokens, cur := [Symbol(if c == '!' then BANG else if c == '<' then LT else GT)], from + 1;
    }
  }

  method TokenizeQuery(query: string) returns (list: seq<Token>)
    ensures list == Tokens(query)
  {
    hide Next, Leading, Tokens;
    list := [];
    var cur: nat := 0;
    assert Drop(query, 0) == query;
    while true
      invariant list + Tokens(Drop(query, cur)) == Tokens(query)
      decreases |Drop(query, cur)|
    {
      TokensStep(Drop(query, cur));
      if cur < |query| {
        cur := SkipWhile(query, cur, IsSpace);
      }
      if cur >= |query| {
        return;
      }
      var more;
      ghost var rest := Tokens(Next(query[cur..]).rest);
      more, cur := NextToken(query, cur);
      assert list + (more + rest) == list + more + rest;
      list := list + more;
    }
  }

  lemma {:induction false} TokensStep(s: string)
    ensures var text := s[Leading(s, IsSpace)..];
            Tokens(s) == if text == "" then [] else Next(text).tokens + Tokens(Next(text).rest)
    ensures var text := s[Leading(s, IsSpace)..]; text != "" ==> !IsSpace(text[0])
  {
  }

  const INT_LIMIT: int := 0x8000_0000

  /** The number that a numeric token starts with, if it is one that fits. */
  function GetInteger(text: string): Option<nat> {
    var digits := text[..Leading(text, IsDigit)];
    if digits == "" || ToNumber(digits) >= INT_LIMIT then None else Some(ToNumber(digits))
  }

  lemma {:induction false} TokensNotEof(s: string)
    ensures Eof !in Tokens(s)
    decreases |s|
  {
    hide Leading, QuotedLength;
    TokensStep(s);
    var text := s[Leading(s, IsSpace)..];
    if text != "" {
      assert Eof !in Next(text).tokens;
      TokensNotEof(Next(text).rest);
    }
  }
}

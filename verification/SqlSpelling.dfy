/**
  SQL as characters: how every token is spelled, and that any text made of spellings, with blanks
  and comments between them where they are needed, is tokenized to exactly those tokens.
  */
module SqlSpelling {
  import opened Wrappers
  import opened StringUtil
  import opened SqlTokenizer
  import opened SqlText
  import P = SqlParser

  // ------------------------------------------------------------------
  // Spellings
  // ------------------------------------------------------------------

  function Spelled(sym: P.Sym): string {
    match sym
    case SEMICOLON => ";"
    case COMMA => ","
    case DOT => "."
    case LPAREN => "("
    case RPAREN => ")"
    case EQUAL => "="
    case NEQUAL => "!="
    case PLUS => "+"
    case MINUS => "-"
    case ASTERISK => "*"
    case SLASH => "/"
    case BANG => "!"
    case CIRCUMFLEX => "^"
    case TILDE => "~"
    case PERCENT => "%"
    case AMPERSAND => "&"
    case PIPE => "|"
    case LT => "<"
    case LTE => "<="
    case GT => ">"
    case GTE => ">="
  }

  /** The reserved words, in capitals. */
  predicate Reserved(word: string) {
    word in {
      "AS", "ASC", "DESC", "NOT", "TRUE", "FALSE", "SELECT", "FROM", "WHERE", "GROUP", "ORDER", "BY",
      "HAVING", "AND", "OR", "LIMIT", "OFFSET", "CREATE", "WITH", "BEGIN", "WITHIN", "RECORD", "MOD", "DRAW",
      "TOP", "RIGHT", "BOTTOM", "LEFT", "IMPORT", "TABLE", "TABLES", "AXIS", "BARCHART", "LINECHART",
      "AREACHART", "POINTCHART", "HEATMAP", "HISTOGRAM", "ORIENTATION", "HORIZONTAL", "VERTICAL", "STACKED",
      "ON", "OFF", "SHOW", "DESCRIBE", "EXPLAIN", "XDOMAIN", "YDOMAIN", "ZDOMAIN", "LOGARITHMIC", "INVERT",
      "TITLE", "SUBTITLE", "GRID", "LABELS", "TICKS", "INSIDE", "OUTSIDE", "ROTATE", "LEGEND", "OVER",
      "TIMEWINDOW"
    }
  }

  function Capital(c: char): char {
    match c
    case 'a' => 'A' case 'b' => 'B' case 'c' => 'C' case 'd' => 'D' case 'e' => 'E' case 'f' => 'F'
    case 'g' => 'G' case 'h' => 'H' case 'i' => 'I' case 'j' => 'J' case 'k' => 'K' case 'l' => 'L'
    case 'm' => 'M' case 'n' => 'N' case 'o' => 'O' case 'p' => 'P' case 'q' => 'Q' case 'r' => 'R'
    case 's' => 'S' case 't' => 'T' case 'u' => 'U' case 'v' => 'V' case 'w' => 'W' case 'x' => 'X'
    case 'y' => 'Y' case 'z' => 'Z'
    case _ => c
  }

  function Capitals(s: string): (u: string)
    ensures |u| == |s| && forall i :: 0 <= i < |s| ==> u[i] == Capital(s[i])
  {
    seq(|s|, i requires 0 <= i < |s| => Capital(s[i]))
  }

  /** What ends a word. */
  predicate Delimits(c: char) {
    c in " \t\n\r,.;()\"'`=+-*!/^~%&|<>"
  }

  /** A word as it stands, without quotes. */
  predicate IsBare(text: string) {
    text != "" && text[0] !in "0123456789" && forall i :: 0 <= i < |text| ==> !Delimits(text[i])
  }

  predicate IsNumeral(text: string) {
    text != "" && text[0] in "0123456789" && forall i :: 0 <= i < |text| ==> text[i] in "0123456789."
  }

  /** The backslashes in the run of backslashes and quotes at the end. */
  function Escaping(s: string, quote: char): nat {
    if s == "" then 0
    else
      var front, last := s[..|s| - 1], s[|s| - 1];
      if last == '\\' then Escaping(front, quote) + 1 else if last == quote then Escaping(front, quote) else 0
  }

  /** The quotes in the text are escaped, and the one behind it is not. */
  predicate Encloses(quote: char, text: string) {
    && Escaping(text, quote) % 2 == 0
    && forall i :: 0 <= i < |text| && text[i] == quote ==> Escaping(text[..i], quote) % 2 == 1
  }

  predicate SpellsName(text: string, name: string) {
    || (text == "`" + name + "`" && Encloses('`', name))
    || (text == name && IsBare(name) && !Reserved(Capitals(name)))
  }

  predicate SpellsText(text: string, s: string) {
    || (text == "'" + s + "'" && Encloses('\'', s))
    || (text == "\"" + s + "\"" && Encloses('"', s))
  }

  predicate Spells(text: string, t: P.Token) {
    match t
    case Symbol(sym) => text == Spelled(sym)
    case Keyword(word) => IsBare(text) && Capitals(text) == word && Reserved(word)
    case Ident(name) => SpellsName(text, name)
    case Numeric(number) => text == number && IsNumeral(number)
    case Quoted(s) => SpellsText(text, s)
    case Eof => false
  }

  /** The next character would be taken for a part of the token, or for a comment. */
  predicate RunsOn(text: string, t: P.Token, k: string) {
    k != "" &&
    match t
    case Symbol(sym) =>
      (sym == P.MINUS && k[0] == '-') || ((sym == P.BANG || sym == P.LT || sym == P.GT) && k[0] == '=')
    case Numeric(_) => k[0] in "0123456789."
    case Quoted(_) => false
    case _ => text != "" && text[0] != '`' && !Delimits(k[0])
  }

  // ------------------------------------------------------------------
  // One token
  // ------------------------------------------------------------------

  /** Every symbol is read from its spelling, in front of anything that does not extend it. */
  lemma {:induction false} SymbolIsRead(sym: P.Sym, k: string)
    requires !RunsOn(Spelled(sym), P.Symbol(sym), k)
    ensures Tokens(Spelled(sym) + k) == [P.Symbol(sym)] + Tokens(k)
  {
    hide Tokens, Next;
    match sym
    case MINUS | BANG | LT | GT =>
      var s := Spelled(sym) + k;
      assert IsDouble(s[0]) && s[1..] == k;
      SignIsNext(sym, s);
      TokensNext(s);
    case NEQUAL | LTE | GTE =>
      var s := Spelled(sym) + k;
      assert IsDouble(s[0]) && s[1] == '=' && s[2..] == k;
      SignIsNext(sym, s);
      TokensNext(s);
    case _ =>
      assert Spelled(sym) == [Spelled(sym)[0]];
      TokensSymbol(Spelled(sym)[0], k);
  }

  lemma {:induction false} SignIsNext(sym: P.Sym, s: string)
    requires sym.MINUS? || sym.BANG? || sym.LT? || sym.GT? || sym.NEQUAL? || sym.LTE? || sym.GTE?
    requires |Spelled(sym)| <= |s| && s[0] == Spelled(sym)[0]
    requires if |Spelled(sym)| == 2 then s[1] == '=' else |s| > 1 ==> s[1] != if sym.MINUS? then '-' else '='
    ensures !IsSpace(s[0]) && Next(s) == Scan([P.Symbol(sym)], s[|Spelled(sym)|..])
  {
    hide Leading, QuotedLength;
  }

  lemma {:induction false} CapitalsAreUpper(s: string)
    ensures Capitals(s) == Upper(s)
  {
    assert forall i :: 0 <= i < |s| ==> Capital(s[i]) == UpperChar(s[i]);
  }

  /** The reserved words are exactly the keywords. */
  lemma {:induction false} ReservedIff(word: string)
    ensures Reserved(word) <==> IsKeyword(word)
  {
  }

  lemma {:induction false} DelimitsIff(c: char)
    ensures Delimits(c) <==> !IsWord(c)
    ensures c in "0123456789" <==> IsDigit(c)
    ensures c in "0123456789." <==> IsNumeric(c)
  {
  }

  /** A word is a keyword, in any mix of cases, or else a name. */
  lemma {:induction false} WordIsRead(text: string, k: string)
    requires IsBare(text) && (k == "" || Delimits(k[0]))
    ensures Tokens(text + k)
         == [if Reserved(Capitals(text)) then P.Keyword(Capitals(text)) else P.Ident(text)] + Tokens(k)
  {
    hide Tokens, Delimits, IsWord, Reserved, IsKeyword;
    forall i | 0 <= i < |text| ensures IsWord(text[i]) {
      DelimitsIff(text[i]);
    }
    DelimitsIff(text[0]);
    if k != "" {
      DelimitsIff(k[0]);
    }
    CapitalsAreUpper(text);
    ReservedIff(Upper(text));
    TokensWord(text, k);
  }

  lemma {:induction false} NumeralIsRead(text: string, k: string)
    requires IsNumeral(text) && (k == "" || k[0] !in "0123456789.")
    ensures Tokens(text + k) == [P.Numeric(text)] + Tokens(k)
  {
    hide Tokens;
    forall i | 0 <= i < |text| ensures IsNumeric(text[i]) {
      DelimitsIff(text[i]);
    }
    DelimitsIff(text[0]);
    if k != "" {
      DelimitsIff(k[0]);
    }
    TokensNumeral(text, k);
  }

  /** Reading on in an enclosed text of which `p` has been read. */
  lemma {:induction false} EnclosedLength(p: string, s: string, quote: char, k: string)
    requires Encloses(quote, p + s) && quote != '\\'
    ensures QuotedLength(s + [quote] + k, quote, Escaping(p, quote)) == |s|
    decreases |s|
  {
    var all := s + [quote] + k;
    if s == "" {
      assert p + s == p;
    } else {
      var q := p + [s[0]];
      assert q + s[1..] == p + s && q[..|q| - 1] == p;
      assert (p + s)[..|p|] == p && (p + s)[|p|] == s[0];
      assert all[1..] == s[1..] + [quote] + k;
      EnclosedLength(q, s[1..], quote, k);
    }
  }

  lemma {:induction false} WholeLength(s: string, quote: char, k: string)
    requires Encloses(quote, s) && quote != '\\'
    ensures QuotedLength(s + [quote] + k, quote, 0) == |s|
  {
    assert "" + s == s;
    EnclosedLength("", s, quote, k);
  }

  /** Quoted text is taken as it stands, up to the first quote that is not escaped. */
  lemma {:induction false} EnclosedIsRead(quote: char, s: string, k: string)
    requires (quote == '`' || quote == '"' || quote == '\'') && Encloses(quote, s)
    ensures Tokens([quote] + s + [quote] + k) == [if quote == '`' then P.Ident(s) else P.Quoted(s)] + Tokens(k)
  {
    hide QuotedLength, Next, Tokens, Encloses;
    var text := [quote] + s + [quote] + k;
    WholeLength(s, quote, k);
    assert text[1..] == s + [quote] + k;
    NextEnclosed(text);
    TokensNext(text);
    assert text[1..|s| + 1] == s;
    assert Drop(text, |s| + 2) == k;
  }

  lemma {:induction false} NextEnclosed(s: string)
    requires s != "" && (s[0] == '`' || s[0] == '"' || s[0] == '\'')
    ensures var n := QuotedLength(s[1..], s[0], 0);
            && !IsSpace(s[0])
            && Next(s) == Scan([if s[0] == '`' then P.Ident(s[1..n + 1]) else P.Quoted(s[1..n + 1])], Drop(s, n + 2))
  {
    hide QuotedLength;
  }

  /** Every spelling of a token is read as that token. */
  lemma {:induction false} SpellingIsRead(text: string, t: P.Token, k: string)
    requires Spells(text, t) && !RunsOn(text, t, k)
    ensures text != "" && Tokens(text + k) == [t] + Tokens(k)
  {
    hide Tokens, Reserved, Delimits, Encloses, Capitals;
    match t
    case Symbol(sym) => SymbolIsRead(sym, k);
    case Keyword(_) =>
      BackquoteDelimits();
      WordIsRead(text, k);
    case Numeric(_) => NumeralIsRead(text, k);
    case Quoted(s) =>
      var quote := text[0];
      assert text == [quote] + s + [quote];
      EnclosedIsRead(quote, s, k);
    case Ident(name) =>
      if text == "`" + name + "`" && Encloses('`', name) {
        assert text == ['`'] + name + ['`'];
        EnclosedIsRead('`', name, k);
      } else {
        BackquoteDelimits();
        WordIsRead(text, k);
      }
  }

  lemma {:induction false} BackquoteDelimits()
    ensures Delimits('`')
  {
  }

  // ------------------------------------------------------------------
  // Texts
  // ------------------------------------------------------------------

  /** White space and comments to the end of their lines. */
  predicate IsBlank(s: string) {
    || s == ""
    || (s[0] in " \t\n\r" && IsBlank(s[1..]))
    || (exists n: nat :: n < |s| && IsComment(s[..n]) && s[n] == '\n' && IsBlank(s[n + 1..]))
  }

  predicate IsComment(c: string) {
    |c| >= 2 && c[0] == '-' && c[1] == '-' && '\n' !in c
  }

  lemma {:induction false} BlankIsSkipped(b: string, k: string)
    requires IsBlank(b)
    ensures Tokens(b + k) == Tokens(k)
    decreases |b|
  {
    hide Tokens, Next, IsComment;
    if b == "" {
      assert b + k == k;
    } else if b[0] in " \t\n\r" && IsBlank(b[1..]) {
      assert b + k == [b[0]] + (b[1..] + k);
      TokensSpace(b[0], b[1..] + k);
      BlankIsSkipped(b[1..], k);
    } else {
      var n: nat :| n < |b| && IsComment(b[..n]) && b[n] == '\n' && IsBlank(b[n + 1..]);
      CommentInFront(b, n, k);
      CommentIsSkipped(b[..n], b[n + 1..] + k);
      BlankIsSkipped(b[n + 1..], k);
    }
  }

  lemma {:induction false} CommentInFront(b: string, n: nat, k: string)
    requires n < |b| && b[n] == '\n'
    ensures b + k == b[..n] + (['\n'] + (b[n + 1..] + k))
  {
  }

  lemma {:induction false} CommentIsSkipped(c: string, k: string)
    requires IsComment(c)
    ensures Tokens(c + (['\n'] + k)) == Tokens(k)
  {
    hide Tokens, Next;
    CommentIsNext(c, ['\n'] + k);
    TokensNext(c + (['\n'] + k));
    assert [] + Tokens(['\n'] + k) == Tokens(['\n'] + k);
    TokensSpace('\n', k);
  }

  lemma {:induction false} CommentIsNext(c: string, k: string)
    requires IsComment(c) && k != "" && k[0] == '\n'
    ensures !IsSpace((c + k)[0]) && Next(c + k) == Scan([], k)
  {
    hide Leading, QuotedLength;
    LeadingExactly(c, k, SqlTokenizer.IsComment);
    assert (c + k)[|c|..] == k;
  }

  /** Behind the last token, the end of the text ends a comment too. */
  predicate IsEnd(s: string) {
    IsBlank(s) || exists n: nat :: n < |s| && IsBlank(s[..n]) && IsComment(s[n..])
  }

  lemma {:induction false} EndIsSkipped(s: string)
    requires IsEnd(s)
    ensures Tokens(s) == []
  {
    hide Tokens, Next, IsBlank, IsComment;
    NoTokens();
    if IsBlank(s) {
      BlankIsSkipped(s, "");
      assert s + "" == s;
    } else {
      var n: nat :| n < |s| && IsBlank(s[..n]) && IsComment(s[n..]);
      assert s == s[..n] + s[n..];
      BlankIsSkipped(s[..n], s[n..]);
      LastComment(s[n..]);
    }
  }

  lemma {:induction false} LastComment(c: string)
    requires IsComment(c)
    ensures Tokens(c) == []
  {
    hide Tokens, Next;
    LastCommentIsNext(c);
    TokensNext(c);
    NoTokens();
  }

  lemma {:induction false} LastCommentIsNext(c: string)
    requires IsComment(c)
    ensures c != "" && !IsSpace(c[0]) && Next(c) == Scan([], "")
  {
    hide Leading, QuotedLength;
    LeadingExactly(c, "", SqlTokenizer.IsComment);
    assert c + "" == c;
  }

  lemma {:induction false} NoTokens()
    ensures Tokens("") == []
  {
  }

  /** A spelling, and what stands in front of it. */
  datatype Piece = Piece(blank: string, spelling: string)

  /** Pieces one after the other, and what stands behind the last one. */
  function Text(ps: seq<Piece>, end: string): string {
    if ps == [] then end else ps[0].blank + (ps[0].spelling + Text(ps[1..], end))
  }

  /** The pieces spell the tokens, and none of them runs on into the text behind it. */
  predicate Writes(ps: seq<Piece>, end: string, ts: seq<P.Token>)
    decreases |ps|
  {
    if ps == [] then IsEnd(end) && ts == []
    else
      && ts != []
      && IsBlank(ps[0].blank)
      && Spells(ps[0].spelling, ts[0])
      && !RunsOn(ps[0].spelling, ts[0], Text(ps[1..], end))
      && Writes(ps[1..], end, ts[1..])
  }

  /** Text that spells some tokens is tokenized to exactly those tokens. */
  lemma {:induction false} TextIsRead(ps: seq<Piece>, end: string, ts: seq<P.Token>)
    requires Writes(ps, end, ts)
    ensures Tokens(Text(ps, end)) == ts
    decreases |ps|
  {
    hide Tokens, Spells, RunsOn, IsBlank, IsEnd;
    if ps == [] {
      EndIsSkipped(end);
    } else {
      var more := Text(ps[1..], end);
      BlankIsSkipped(ps[0].blank, ps[0].spelling + more);
      SpellingIsRead(ps[0].spelling, ts[0], more);
      TextIsRead(ps[1..], end, ts[1..]);
      assert [ts[0]] + ts[1..] == ts;
    }
  }

  function Spaced(texts: seq<string>): (ps: seq<Piece>)
    ensures |ps| == |texts| && forall i :: 0 <= i < |ps| ==> ps[i] == Piece(" ", texts[i])
  {
    seq(|texts|, i requires 0 <= i < |texts| => Piece(" ", texts[i]))
  }

  /** Spellings with a space in front of each never run on. */
  lemma {:induction false} SpacedWrites(texts: seq<string>, ts: seq<P.Token>)
    requires |texts| == |ts| && forall i :: 0 <= i < |ts| ==> Spells(texts[i], ts[i])
    ensures Writes(Spaced(texts), "", ts)
    decreases |texts|
  {
    hide Spells, IsBlank, Text, RunsOn;
    BlanksAre();
    var ps := Spaced(texts);
    if texts != [] {
      SpacedWrites(texts[1..], ts[1..]);
      assert ps[1..] == Spaced(texts[1..]);
      SpaceInFront(texts[1..]);
      SpaceEnds(texts[0], ts[0], Text(ps[1..], ""));
    }
  }

  lemma {:induction false} SpaceInFront(texts: seq<string>)
    ensures var k := Text(Spaced(texts), ""); k == "" || k[0] == ' '
  {
  }

  lemma {:induction false} SpaceEnds(text: string, t: P.Token, k: string)
    requires k == "" || k[0] == ' '
    ensures !RunsOn(text, t, k)
  {
  }

  lemma {:induction false} BlanksAre()
    ensures IsBlank("") && IsBlank(" ")
  {
    assert " "[1..] == "";
  }
}

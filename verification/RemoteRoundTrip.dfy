/**
  The remote side receives the expression that was sent: printing, tokenizing, parsing and
  building again give the same tree, for the trees that `Sendable` describes, and for calls
  and literals exactly for those.
  */
module RemoteRoundTrip {
  import opened Wrappers
  import opened StringUtil
  import opened SqlTokenizer
  import opened SqlText
  import opened RemoteSql
  import opened Precedence
  import P = SqlParser

  predicate IsIdentifier(w: string) {
    IsPlainWord(w) && !IsKeyword(Upper(w))
  }

  predicate NotDot(c: char) {
    c != '.'
  }

  /** The parts of a name between its dots. */
  function Segments(name: string): (parts: seq<string>)
    ensures parts != []
    decreases |name|
  {
    var n := Leading(name, NotDot);
    if n == |name| then [name] else [name[..n]] + Segments(name[n + 1..])
  }

  predicate SendableValue(v: Value) {
    match v
    case Int(n) => 0 <= n < LONG_LIMIT
    case Bool(_) => true
    case Text(s) => Quotable(s)
    case Decimal(_) => false
    case Null => false
  }

  /** A function that is written as a call and read back as one. */
  predicate SendableSymbol(symbol: string) {
    IsIdentifier(symbol) && symbol != "if" && symbol != "subquery_column"
  }

  predicate Sendable(e: Node) {
    match e
    case CallExpression(symbol, arguments) =>
      && SendableSymbol(symbol) && '$' !in symbol && arguments != []
      && forall i :: 0 <= i < |arguments| ==> Sendable(arguments[i])
    case IfExpression(c, y, n) =>
      && Sendable(c) && Sendable(y) && Sendable(n)
      && NoMark(ToSql(c), '1') && NoMark(ToSql(c), '2') && NoMark(ToSql(y), '2')
    case LiteralExpression(v) => SendableValue(v)
    case ColumnReference(name, index) =>
      if name == "" then index.Some? && index.value < INT_LIMIT
      else forall i :: 0 <= i < |Segments(name)| ==> IsIdentifier(Segments(name)[i])
  }

  /** The same expression; a reference by name is unresolved again, and a reference by index
      alone has got its index as its name. */
  function Arrived(e: Node): Node {
    match e
    case CallExpression(symbol, arguments) => CallExpression(symbol, AllArrived(arguments))
    case IfExpression(c, y, n) => IfExpression(Arrived(c), Arrived(y), Arrived(n))
    case LiteralExpression(_) => e
    case ColumnReference(name, index) =>
      if name == "" && index.Some? then ColumnReference(ToString(index.value), index)
      else ColumnReference(name, Some(UNRESOLVED))
  }

  function AllArrived(es: seq<Node>): (r: seq<Node>)
    ensures |r| == |es|
  {
    if es == [] then [] else [Arrived(es[0])] + AllArrived(es[1..])
  }

  // ------------------------------------------------------------------
  // The tree in between
  // ------------------------------------------------------------------

  ghost function ValueToken(v: Value): P.Token
    requires SendableValue(v)
  {
    match v
    case Int(n) => P.Numeric(ToString(n))
    case Bool(b) => P.Keyword(if b then "TRUE" else "FALSE")
    case Text(s) => P.Quoted(s)
  }

  ghost function AstOf(e: Node): P.Ast
    requires Sendable(e)
  {
    match e
    case CallExpression(symbol, arguments) => P.Call(P.METHOD_CALL, symbol, AllAstOf(arguments))
    case IfExpression(c, y, n) => P.Call(P.IF_EXPR, "if", [AstOf(c), AstOf(y), AstOf(n)])
    case LiteralExpression(v) => P.Literal(ValueToken(v))
    case ColumnReference(name, index) =>
      if name == "" then
        P.Call(P.COLUMN_INDEX, "subquery_column", [P.Literal(P.Numeric(ToString(index.value)))])
      else P.Column(Segments(name))
  }

  ghost function AllAstOf(es: seq<Node>): (ts: seq<P.Ast>)
    requires forall i :: 0 <= i < |es| ==> Sendable(es[i])
    ensures |ts| == |es| && forall i :: 0 <= i < |es| ==> ts[i] == AstOf(es[i])
  {
    if es == [] then [] else [AstOf(es[0])] + AllAstOf(es[1..])
  }

  lemma {:induction false} AstIsPrintable(e: Node)
    requires Sendable(e)
    ensures Printable(AstOf(e)) && !AstOf(e).Binary?
    decreases e
  {
    match e
    case CallExpression(symbol, arguments) =>
      forall i | 0 <= i < |arguments| ensures Printable(AllAstOf(arguments)[i]) {
        AstIsPrintable(arguments[i]);
      }
    case IfExpression(c, y, n) =>
      AstIsPrintable(c);
      AstIsPrintable(y);
      AstIsPrintable(n);
    case LiteralExpression(v) =>
    case ColumnReference(name, index) =>
  }

  // ------------------------------------------------------------------
  // Text to tokens
  // ------------------------------------------------------------------

  lemma {:induction false} LettersArePlain(w: string)
    requires w != "" && forall i :: 0 <= i < |w| ==> 'a' <= w[i] <= 'z' || w[i] == '_'
    ensures IsPlainWord(w)
  {
  }

  lemma {:induction false} WordIf()
    ensures IsIdentifier("if")
  {
    LettersArePlain("if");
    var w := Upper("if");
    assert w[0] == 'I' && w[1] == 'F';
  }

  lemma {:induction false} WordSubqueryColumn()
    ensures IsIdentifier("subquery_column")
  {
    LettersArePlain("subquery_column");
  }

  lemma {:induction false} WordTrue()
    ensures IsPlainWord("true") && WordToken("true") == P.Keyword("TRUE")
  {
    LettersArePlain("true");
    assert Upper("true") == "TRUE";
  }

  lemma {:induction false} WordFalse()
    ensures IsPlainWord("false") && WordToken("false") == P.Keyword("FALSE")
  {
    LettersArePlain("false");
    assert Upper("false") == "FALSE";
  }

  predicate AreWords(parts: seq<string>) {
    forall i :: 0 <= i < |parts| ==> IsPlainWord(parts[i])
  }

  /** Words with dots between them. */
  ghost function WordTokens(parts: seq<string>): seq<P.Token>
    requires parts != []
  {
    [WordToken(parts[0])] + if |parts| == 1 then [] else [P.Symbol(P.DOT)] + WordTokens(parts[1..])
  }

  lemma {:induction false} TokensWords(name: string, k: string)
    requires AreWords(Segments(name)) && Stops(k)
    ensures Tokens(name + k) == WordTokens(Segments(name)) + Tokens(k)
    decreases |name|
  {
    hide Tokens, Leading, WordToken, IsPlainWord;
    var n := Leading(name, NotDot);
    assert IsPlainWord(Segments(name)[0]);
    if n == |name| {
      TokensWord(name, k);
    } else {
      var rest := name[n + 1..];
      assert name == name[..n] + "." + rest;
      assert name + k == name[..n] + ("." + (rest + k));
      TokensWord(name[..n], "." + (rest + k));
      TokensSymbol('.', rest + k);
      assert Segments(name)[1..] == Segments(rest);
      forall i | 0 <= i < |Segments(rest)| ensures IsPlainWord(Segments(rest)[i]) {
        assert Segments(rest)[i] == Segments(name)[i + 1];
      }
      TokensWords(rest, k);
      var first := [WordToken(name[..n])];
      assert first + ([P.Symbol(P.DOT)] + (WordTokens(Segments(rest)) + Tokens(k)))
          == first + ([P.Symbol(P.DOT)] + WordTokens(Segments(rest))) + Tokens(k);
    }
  }

  lemma {:induction false} NamesAreWords(parts: seq<string>)
    requires parts != [] && forall i :: 0 <= i < |parts| ==> IsIdentifier(parts[i])
    ensures AreWords(parts) && WordTokens(parts) == PrintNames(parts)
    decreases |parts|
  {
    assert IsIdentifier(parts[0]);
    if |parts| > 1 {
      NamesAreWords(parts[1..]);
    }
  }

  lemma {:induction false} ColumnTokens(name: string, k: string)
    requires forall i :: 0 <= i < |Segments(name)| ==> IsIdentifier(Segments(name)[i])
    requires Stops(k)
    ensures Tokens(name + k) == PrintNames(Segments(name)) + Tokens(k)
  {
    hide Tokens, IsIdentifier, AreWords;
    NamesAreWords(Segments(name));
    TokensWords(name, k);
  }

  lemma {:induction false} SegmentsJoined(name: string)
    ensures Joined(Segments(name), ".") == name
    decreases |name|
  {
    hide Leading, Joined;
    var n := Leading(name, NotDot);
    if n < |name| {
      var rest := name[n + 1..];
      SegmentsJoined(rest);
      JoinedFirst(name[..n], Segments(rest));
      assert name == name[..n] + "." + rest;
    } else {
      JoinedOne(name);
    }
  }

  lemma {:induction false} JoinedFirst(part: string, parts: seq<string>)
    requires parts != []
    ensures Joined([part] + parts, ".") == part + "." + Joined(parts, ".")
  {
    assert ([part] + parts)[1..] == parts;
  }

  lemma {:induction false} JoinedOne(part: string)
    ensures Joined([part], ".") == part
  {
  }

  /** What a call looks like. */
  lemma {:induction false} CallSql(symbol: string, arguments: seq<Node>)
    requires '$' !in symbol
    ensures ToSql(CallExpression(symbol, arguments)) == symbol + "(" + Joined(AllToSql(arguments), ",") + ")"
  {
    hide Replaced, FormatFrom, AllToSql, Joined;
    var args := Joined(AllToSql(arguments), ",");
    assert "" + "$0" + ("(" + "$1" + ")") == "$0($1)";
    FormatTwo("", "(", ")", symbol, args);
    assert "" + symbol == symbol;
    assert [symbol] + [args] == [symbol, args];
  }

  lemma {:induction false} IfSql(c: Node, y: Node, n: Node)
    requires NoMark(ToSql(c), '1') && NoMark(ToSql(c), '2') && NoMark(ToSql(y), '2')
    ensures ToSql(IfExpression(c, y, n)) == "if(" + ToSql(c) + ", " + ToSql(y) + ", " + ToSql(n) + ")"
  {
    hide Replaced, FormatFrom;
    assert "if(" + "$0" + (", " + "$1" + (", " + "$2" + ")")) == "if($0, $1, $2)";
    FormatThree("if(", ", ", ", ", ")", ToSql(c), ToSql(y), ToSql(n));
    assert [ToSql(c)] + ([ToSql(y)] + [ToSql(n)]) == [ToSql(c), ToSql(y), ToSql(n)];
  }

  lemma {:induction false} IndexSql(index: nat)
    ensures ToSql(ColumnReference("", Some(index))) == "subquery_column(" + ToString(index) + ")"
  {
    hide Replaced, FormatFrom;
    assert "subquery_column(" + "$0" + ")" == "subquery_column($0)";
    FormatOne("subquery_column(", ")", ToString(index));
    assert [ToString(index)] + [] == [ToString(index)];
  }

  lemma {:induction false} TextSql(s: string)
    ensures ValueToSql(Text(s)) == "\"" + Replaced(s, "\"", "\\\"") + "\""
  {
    hide Replaced, FormatFrom;
    var r := Replaced(s, "\"", "\\\"");
    assert "\"" + "$0" + "\"" == "\"$0\"";
    FormatOne("\"", "\"", r);
    assert [r] + [] == [r];
  }

  lemma {:induction false} NothingReplaced(s: string, pattern: string, replacement: string)
    requires |pattern| == 1 && pattern[0] !in s
    ensures Replaced(s, pattern, replacement) == s
  {
    forall j | 0 <= j < |s| ensures !(pattern <= s[j..]) {
      assert s[j..][0] == s[j];
    }
    ReplacedBefore(s, |s|, pattern, replacement);
    assert s[|s|..] == "";
    assert s[..|s|] == s;
  }

  lemma {:induction false} ValueTokens(v: Value, k: string)
    requires SendableValue(v) && Stops(k)
    ensures Tokens(ValueToSql(v) + k) == [ValueToken(v)] + Tokens(k)
  {
    hide Tokens, Replaced, Format;
    match v
    case Int(n) => TokensNumber(ToString(n), k);
    case Bool(b) =>
      WordTrue();
      WordFalse();
      TokensWord(if b then "true" else "false", k);
    case Text(s) =>
      TextSql(s);
      NothingReplaced(s, "\"", "\\\"");
      TokensQuoted(s, k);
  }

  /** The text of an expression, in front of a comma, a parenthesis or the end, becomes the
      tokens of its tree. */
  lemma {:induction false} SqlTokens(e: Node, k: string)
    requires Sendable(e) && Stops(k)
    ensures Printable(AstOf(e)) && !AstOf(e).Binary?
    ensures Tokens(ToSql(e) + k) == Bare(AstOf(e)) + Tokens(k)
    decreases e, 1
  {
    hide Tokens, Format, Bare, Joined;
    AstIsPrintable(e);
    match e
    case CallExpression(symbol, arguments) =>
      CallSql(symbol, arguments);
      var args := Joined(AllToSql(arguments), ",");
      assert ToSql(e) + k == symbol + ("(" + (args + (")" + k)));
      ArgsTokens(arguments, ")" + k);
      CallTokens(symbol, P.METHOD_CALL, AllAstOf(arguments), args, k);
    case IfExpression(c, y, n) =>
      IfTokens(e, k);
    case LiteralExpression(v) =>
      ValueTokens(v, k);
      BareLiteral(ValueToken(v));
    case ColumnReference(name, index) =>
      if name == "" {
        IndexTokens(index.value, k);
      } else {
        ColumnTokens(name, k);
        BareColumn(Segments(name));
      }
  }

  lemma {:induction false} BareLiteral(t: P.Token)
    requires P.IsLiteral(t)
    ensures Bare(P.Literal(t)) == [t]
  {
  }

  lemma {:induction false} BareColumn(names: seq<string>)
    requires names != []
    ensures Bare(P.Column(names)) == PrintNames(names)
  {
  }

  lemma {:induction false} BareCall(kind: P.CallKind, name: string, args: seq<P.Ast>)
    requires Printable(P.Call(kind, name, args)) && kind != P.METHOD_CALL_WITHIN_RECORD
    ensures Bare(P.Call(kind, name, args))
         == [P.Ident(name), P.Symbol(P.LPAREN)] + PrintArgs(args) + [P.Symbol(P.RPAREN)]
  {
    hide PrintArgs;
    var ts := [P.Ident(name), P.Symbol(P.LPAREN)] + PrintArgs(args) + [P.Symbol(P.RPAREN)];
    assert ts + [] == ts;
  }

  /** A name, parentheses, and in between the text of the arguments. */
  lemma {:induction false} CallTokens(name: string, kind: P.CallKind, asts: seq<P.Ast>, args: string, k: string)
    requires IsIdentifier(name) && kind != P.METHOD_CALL_WITHIN_RECORD && Printable(P.Call(kind, name, asts))
    requires asts != [] && forall i :: 0 <= i < |asts| ==> Printable(asts[i])
    requires Tokens(args + (")" + k)) == PrintArgs(asts) + Tokens(")" + k)
    ensures Tokens(name + ("(" + (args + (")" + k)))) == Bare(P.Call(kind, name, asts)) + Tokens(k)
  {
    hide Tokens, Bare, PrintArgs, Printable;
    TokensWord(name, "(" + (args + (")" + k)));
    TokensSymbol('(', args + (")" + k));
    TokensSymbol(')', k);
    BareCall(kind, name, asts);
    var a, b, c := [P.Ident(name)], [P.Symbol(P.LPAREN)], [P.Symbol(P.RPAREN)];
    Flatten(a, b, PrintArgs(asts), c, Tokens(k));
    assert a + b == [P.Ident(name), P.Symbol(P.LPAREN)];
  }

  lemma {:induction false} Flatten<T>(a: seq<T>, b: seq<T>, c: seq<T>, d: seq<T>, e: seq<T>)
    ensures a + (b + (c + (d + e))) == (a + b) + c + d + e
  {
  }

  lemma {:induction false} Insert<T>(a: seq<T>, b: seq<T>, c: seq<T>, d: seq<T>)
    ensures a + (b + (c + d)) == a + (b + c) + d
  {
  }

  lemma {:induction false} ArgsTokens(arguments: seq<Node>, k: string)
    requires arguments != [] && k != "" && k[0] == ')'
    requires forall i :: 0 <= i < |arguments| ==> Sendable(arguments[i])
    ensures forall i :: 0 <= i < |arguments| ==> Printable(AllAstOf(arguments)[i])
    ensures Tokens(Joined(AllToSql(arguments), ",") + k) == PrintArgs(AllAstOf(arguments)) + Tokens(k)
    decreases arguments
  {
    hide Tokens, Bare, ToSql, Sendable, Printable, PrintArgs;
    var asts := AllAstOf(arguments);
    forall i | 0 <= i < |arguments| ensures Printable(asts[i]) {
      AstIsPrintable(arguments[i]);
    }
    var first, more := arguments[0], arguments[1..];
    if more == [] {
      assert AllToSql(arguments) == [ToSql(first)];
      SqlTokens(first, k);
    } else {
      var rest := Joined(AllToSql(more), ",");
      assert AllToSql(arguments)[1..] == AllToSql(more);
      assert Joined(AllToSql(arguments), ",") == ToSql(first) + "," + rest;
      var tail := "," + (rest + k);
      Flatten(ToSql(first), ",", rest, k, "");
      assert rest + (k + "") == rest + k && ToSql(first) + "," + rest + k + "" == ToSql(first) + "," + rest + k;
      SqlTokens(first, tail);
      TokensSymbol(',', rest + k);
      ArgsTokens(more, k);
      assert asts[1..] == AllAstOf(more);
      Insert(Bare(AstOf(first)), [P.Symbol(P.COMMA)], PrintArgs(AllAstOf(more)), Tokens(k));
    }
    PrintOneArg(asts);
  }

  lemma {:induction false} PrintOneArg(asts: seq<P.Ast>)
    requires asts != [] && (forall i :: 0 <= i < |asts| ==> Printable(asts[i])) && !asts[0].Binary?
    ensures PrintArgs(asts)
         == Bare(asts[0]) + (if |asts| == 1 then [] else [P.Symbol(P.COMMA)] + PrintArgs(asts[1..]))
  {
  }

  lemma {:induction false} IndexTokens(index: nat, k: string)
    requires Stops(k)
    ensures var ast := P.Call(P.COLUMN_INDEX, "subquery_column", [P.Literal(P.Numeric(ToString(index)))]);
            && Printable(ast)
            && Tokens(ToSql(ColumnReference("", Some(index))) + k) == Bare(ast) + Tokens(k)
  {
    hide Tokens, Bare, ToSql, PrintArgs, IsKeyword;
    var d := ToString(index);
    var asts := [P.Literal(P.Numeric(d))];
    WordSubqueryColumn();
    IndexSql(index);
    TokensNumber(d, ")" + k);
    PrintOneArg(asts);
    BareLiteral(P.Numeric(d));
    assert "subquery_column(" + d + ")" + k == "subquery_column" + ("(" + (d + (")" + k)));
    CallTokens("subquery_column", P.COLUMN_INDEX, asts, d, k);
  }

  lemma {:induction false} IfTokens(e: Node, k: string)
    requires e.IfExpression? && Sendable(e) && Printable(AstOf(e)) && Stops(k)
    ensures Tokens(ToSql(e) + k) == Bare(AstOf(e)) + Tokens(k)
    decreases e, 0
  {
    hide Tokens, Bare, ToSql, Printable, PrintArgs;
    var c, y, n := e.condition, e.yes, e.no;
    var asts := [AstOf(c), AstOf(y), AstOf(n)];
    IfSql(c, y, n);
    var close := ")" + k;
    var third := " " + (ToSql(n) + close);
    var second := " " + (ToSql(y) + ("," + third));
    var args := ToSql(c) + ", " + ToSql(y) + ", " + ToSql(n);
    assert ToSql(e) + k == "if" + ("(" + (args + close));
    assert args + close == ToSql(c) + ("," + second);
    SqlTokens(c, "," + second);
    TokensSymbol(',', second);
    TokensSpace(' ', ToSql(y) + ("," + third));
    SqlTokens(y, "," + third);
    TokensSymbol(',', third);
    TokensSpace(' ', ToSql(n) + close);
    SqlTokens(n, close);
    ThreeArgs(AstOf(c), AstOf(y), AstOf(n), Tokens(close));
    WordIf();
    CallTokens("if", P.IF_EXPR, asts, args, k);
  }

  lemma {:induction false} ThreeArgs(a: P.Ast, b: P.Ast, c: P.Ast, rest: seq<P.Token>)
    requires Printable(a) && Printable(b) && Printable(c) && !a.Binary? && !b.Binary? && !c.Binary?
    ensures Bare(a) + ([P.Symbol(P.COMMA)] + (Bare(b) + ([P.Symbol(P.COMMA)] + (Bare(c) + rest))))
         == PrintArgs([a, b, c]) + rest
  {
    hide Bare, PrintArgs;
    PrintOneArg([a, b, c]);
    PrintOneArg([b, c]);
    PrintOneArg([c]);
    assert [a, b, c][1..] == [b, c] && [b, c][1..] == [c];
  }

  // ------------------------------------------------------------------
  // Tree to expression
  // ------------------------------------------------------------------

  lemma {:induction false} BuildGivesArrived(e: Node)
    requires Sendable(e)
    ensures Build(AstOf(e)) == Some(Arrived(e))
    decreases e
  {
    hide Segments, Joined, ToSql, IsPlainWord, IsKeyword, BuildColumnIndex;
    match e
    case CallExpression(symbol, arguments) =>
      BuildAllGivesArrived(arguments);
    case IfExpression(c, y, n) =>
      BuildGivesArrived(c);
      BuildGivesArrived(y);
      BuildGivesArrived(n);
      BuildThree(AstOf(c), AstOf(y), AstOf(n));
    case LiteralExpression(v) =>
      if v.Int? {
        NumberRoundTrip(v.n);
      }
    case ColumnReference(name, index) =>
      if name == "" {
        BuildIndex(index.value);
      } else {
        SegmentsJoined(name);
      }
  }

  lemma {:induction false} BuildIndex(index: nat)
    requires index < INT_LIMIT
    ensures BuildColumnIndex([P.Literal(P.Numeric(ToString(index)))])
         == Some(ColumnReference(ToString(index), Some(index)))
  {
    hide Leading;
    var d := ToString(index);
    NumberRoundTrip(index);
    LeadingExactly(d, "", IsDigit);
    assert d + "" == d;
    assert d[..|d|] == d;
  }

  lemma {:induction false} BuildAllStep(t: P.Ast, ts: seq<P.Ast>)
    requires Build(t).Some? && BuildAll(ts).Some?
    ensures BuildAll([t] + ts) == Some([Build(t).value] + BuildAll(ts).value)
  {
    hide Build;
    assert ([t] + ts)[1..] == ts;
  }

  lemma {:induction false} BuildThree(a: P.Ast, b: P.Ast, c: P.Ast)
    requires Build(a).Some? && Build(b).Some? && Build(c).Some?
    ensures BuildAll([a, b, c]) == Some([Build(a).value, Build(b).value, Build(c).value])
  {
    hide Build;
    BuildAllStep(c, []);
    BuildAllStep(b, [c] + []);
    BuildAllStep(a, [b] + ([c] + []));
    assert [a] + ([b] + ([c] + [])) == [a, b, c];
    var x, y, z := Build(a).value, Build(b).value, Build(c).value;
    assert [x] + ([y] + ([z] + [])) == [x, y, z];
  }

  lemma {:induction false} BuildAllGivesArrived(es: seq<Node>)
    requires forall i :: 0 <= i < |es| ==> Sendable(es[i])
    ensures BuildAll(AllAstOf(es)) == Some(AllArrived(es))
    decreases es
  {
    if es != [] {
      BuildGivesArrived(es[0]);
      BuildAllGivesArrived(es[1..]);
      assert AllAstOf(es)[1..] == AllAstOf(es[1..]);
    }
  }

  // ------------------------------------------------------------------
  // There and back
  // ------------------------------------------------------------------

  /** The expression that was sent is the one received. */
  lemma {:induction false} Arrives(e: Node)
    requires Sendable(e)
    ensures Received(ToSql(e)) == Some(Arrived(e))
  {
    hide Tokens, ToSql, Build, Bare;
    var ast := AstOf(e);
    SqlTokens(e, "");
    assert ToSql(e) + "" == ToSql(e);
    NoTokens();
    BareStart(ast);
    CompleteText(ToSql(e), ast, []);
    BuildGivesArrived(e);
  }

  lemma {:induction false} NoTokens()
    ensures Tokens("") == []
  {
    assert Leading("", IsSpace) == 0;
  }

  /** Text that starts with a complete expression. */
  lemma {:induction false} CompleteText(sql: string, ast: P.Ast, rest: seq<P.Token>)
    requires Printable(ast) && !ast.Binary? && Tokens(sql) == Bare(ast) + rest && Bare(ast) != []
    requires Closed(rest + [P.Eof]) && Refused(rest + [P.Eof], 0)
    ensures Received(sql) == Build(ast)
  {
    hide Tokens, Build, Bare, P.Expr;
    Parses(ast, 0, rest + [P.Eof]);
    assert Print(ast, 0) == Bare(ast);
    assert Tokens(sql) + [P.Eof] == Bare(ast) + (rest + [P.Eof]);
  }
}

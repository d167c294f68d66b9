/**
  Where the trip over SQL text goes wrong: for literals, for calls with arguments that arrive, and
  for columns named by words and dots, the conditions in `Sendable` are exact.
  */
module RemoteLimits {
  import opened Wrappers
  import opened StringUtil
  import opened SqlTokenizer
  import opened SqlText
  import opened RemoteSql
  import opened RemoteRoundTrip
  import opened Precedence
  import P = SqlParser

  /** What an operand can become in the loop of `expr`. */
  lemma {:induction false} ClimbShape(lhs: P.Ast, ts: seq<P.Token>, precedence: nat)
    requires lhs != P.Missing
    ensures var p := P.Climb(lhs, ts, precedence); p.Ok? ==> p.ast == lhs || p.ast.Binary?
    decreases |ts|
  {
    var op := P.OpOf(P.Head(ts));
    if op.Some? && precedence < P.Level(op.value) {
      var rhs := P.Expr(ts[1..], P.RightLevel(op.value));
      if rhs.Ok? && rhs.ast != P.Missing {
        ClimbShape(P.Binary(op.value, lhs, rhs.ast), rhs.rest, precedence);
      }
    }
  }

  /** Text whose first token is a literal: the expression is that literal, an operator or an error. */
  lemma {:induction false} FirstLiteral(sql: string, t: P.Token)
    requires Tokens(sql) != [] && Tokens(sql)[0] == t && P.IsLiteral(t)
    ensures Received(sql).Some? ==>
              Received(sql).value.CallExpression? || Received(sql) == Build(P.Literal(t))
  {
    hide Tokens;
    var ts := Tokens(sql) + [P.Eof];
    assert P.Unary(ts) == P.Ok(P.Literal(t), ts[1..]);
    ExprAfterOperand(ts, P.Literal(t), ts[1..], 0);
    ClimbShape(P.Literal(t), ts[1..], 0);
  }

  // ------------------------------------------------------------------
  // Literals
  // ------------------------------------------------------------------

  /** The first token of printed text. */
  lemma {:induction false} FirstQuoted(s: string)
    ensures var body := Replaced(s, "\"", "\\\"") + "\"";
            var ts := Tokens(ValueToSql(Text(s)));
            ts != [] && ts[0] == P.Quoted(body[..QuotedLength(body, '"', 0)])
  {
    hide Tokens, QuotedLength, Next, Replaced, Format;
    TextSql(s);
    var body := Replaced(s, "\"", "\\\"") + "\"";
    var text := ValueToSql(Text(s));
    assert text == "\"" + body;
    NextQuoted(text);
    TokensNext(text);
    assert text[1..] == body;
    assert text[1..QuotedLength(body, '"', 0) + 1] == body[..QuotedLength(body, '"', 0)];
  }

  /** Text that is not quotable is read as other text. */
  lemma {:induction false} NotQuotable(s: string)
    requires !Quotable(s)
    ensures var ts := Tokens(ValueToSql(Text(s)));
            ts != [] && ts[0].Quoted? && ts[0].text != s
  {
    hide Tokens, QuotedLength, Replaced, Format, Find;
    FirstQuoted(s);
    if '"' !in s {
      NothingReplaced(s, "\"", "\\\"");
      QuotedBehind(s, "\"", '"', 0);
      QuoteEscaped(if Backslashes(s) == |s| then |s| else Backslashes(s));
    } else {
      QuoteInside(s);
    }
  }

  /** Where the text has its first quote, its printed form has a backslash. */
  lemma {:induction false} QuoteInside(s: string)
    requires '"' in s
    ensures var body := Replaced(s, "\"", "\\\"") + "\"";
            body[..QuotedLength(body, '"', 0)] != s
  {
    hide QuotedLength, Replaced, Find;
    var i := Find(s, "\"");
    QuoteIndex(s);
    ReplacedFirst(s, "\"", "\\\"");
    var body := Replaced(s, "\"", "\\\"") + "\"";
    var k := "\\\"" + Replaced(s[i + 1..], "\"", "\\\"") + "\"";
    assert body == s[..i] + k;
    QuotedBehind(s[..i], k, '"', 0);
    BackslashReadOn(k, if Backslashes(s[..i]) == i then i else Backslashes(s[..i]));
    assert body[i] == k[0];
  }

  lemma {:induction false} QuoteIndex(s: string)
    requires '"' in s
    ensures Find(s, "\"") < |s| && s[Find(s, "\"")] == '"' && '"' !in s[..Find(s, "\"")]
  {
    var i := Find(s, "\"");
    FindIsFirst(s, "\"");
    forall j | 0 <= j < |s| && s[j] == '"' ensures j >= i {
      assert s[j..] == ['"'] + s[j + 1..];
      assert "\"" <= s[j..];
    }
    if i < |s| {
      assert s[i..][0] == s[i];
    }
  }

  lemma {:induction false} QuoteEscaped(escape: nat)
    requires escape % 2 == 1
    ensures QuotedLength("\"", '"', escape) == 1
  {
    assert "\""[1..] == "";
  }

  lemma {:induction false} BackslashReadOn(k: string, escape: nat)
    requires k != "" && k[0] == '\\'
    ensures QuotedLength(k, '"', escape) >= 1
  {
  }

  /** A literal arrives as it was sent exactly if it is a number that is not negative, a
      boolean, or text without quotes and without an odd number of backslashes at the end. */
  lemma {:induction false} LiteralArrivesIff(v: Value)
    requires v.Int? ==> -LONG_LIMIT <= v.n < LONG_LIMIT
    requires !v.Decimal?
    ensures var e := LiteralExpression(v); Received(ToSql(e)) == Some(e) <==> SendableValue(v)
  {
    hide Tokens, Replaced, Format, Received;
    var e := LiteralExpression(v);
    if SendableValue(v) {
      Arrives(e);
    } else {
      match v
      case Int(n) => NegativeBecomesCall(n);
      case Text(s) =>
        NotQuotable(s);
        FirstLiteral(ToSql(e), Tokens(ToSql(e))[0]);
      case Null => NullBecomesColumn();
    }
  }

  lemma {:induction false} NullIsNoKeyword()
    ensures IsIdentifier("NULL")
  {
    var u := Upper("NULL");
    assert u[0] == 'N' && u[1] == 'U' && u[2] == 'L';
  }

  /** NULL arrives as a reference to a column of that name. */
  lemma {:induction false} NullBecomesColumn()
    ensures Received(ToSql(LiteralExpression(Null))) == Some(ColumnReference("NULL", Some(UNRESOLVED)))
  {
    hide Tokens, Received, Format, Bare, IsKeyword;
    NullIsNoKeyword();
    var w := "NULL";
    TokensWord(w, "");
    assert w + "" == w;
    NoTokens();
    var ast := P.Column([w]);
    BareColumn([w]);
    assert Bare(ast) == [P.Ident(w)];
    CompleteText(w, ast, []);
  }

  /** A negative number arrives as a call, unless its magnitude is no number any more. */
  lemma {:induction false} NegativeBecomesCall(n: int)
    requires -LONG_LIMIT <= n < 0
    ensures Received(ToSql(LiteralExpression(Int(n))))
         == if -n < LONG_LIMIT then Some(CallExpression("neg", [LiteralExpression(Int(-n))])) else None
  {
    hide Tokens, Format, Bare, Next, P.Expr;
    var d := ToString(-n);
    var sql := "-" + d;
    NextMinus(sql);
    TokensNext(sql);
    assert sql[1..] == d;
    TokensNumber(d, "");
    assert d + "" == d;
    NoTokens();
    var operand := P.Literal(P.Numeric(d));
    BareLiteral(P.Numeric(d));
    MinusTakesAll(operand, 0, [P.Eof]);
    assert Print(operand, 0) == [P.Numeric(d)];
    assert Tokens(sql) + [P.Eof] == [P.Symbol(P.MINUS)] + Print(operand, 0) + [P.Eof];
    NumberRoundTrip(-n);
    assert ToSql(LiteralExpression(Int(n))) == sql;
    assert Build(operand) == NumericLiteral(d);
    assert Received(sql) == Build(P.Negate(operand));
  }

  lemma {:induction false} NextMinus(s: string)
    requires |s| >= 2 && s[0] == '-' && s[1] != '-'
    ensures Next(s) == Scan([P.Symbol(P.MINUS)], s[1..])
  {
  }

  /** A reference by index has its index as a name after one trip, and is a number after two. */
  lemma {:induction false} SecondTrip(index: nat)
    requires index < INT_LIMIT
    ensures var once := Received(ToSql(ColumnReference("", Some(index))));
            && once == Some(ColumnReference(ToString(index), Some(index)))
            && Received(ToSql(once.value)) == Some(LiteralExpression(Int(index)))
  {
    hide Tokens, Format, Received;
    Arrives(ColumnReference("", Some(index)));
    Arrives(LiteralExpression(Int(index)));
  }

  // ------------------------------------------------------------------
  // Calls
  // ------------------------------------------------------------------

  /** A printed call starts with its name and a parenthesis. */
  lemma {:induction false} CallStarts(symbol: string, arguments: seq<Node>)
    requires IsPlainWord(symbol) && '$' !in symbol
    ensures Tokens(ToSql(CallExpression(symbol, arguments)))
         == [WordToken(symbol), P.Symbol(P.LPAREN)] + Tokens(Joined(AllToSql(arguments), ",") + ")")
  {
    hide Tokens, ToSql, WordToken, IsPlainWord, Joined;
    CallSql(symbol, arguments);
    var joined := Joined(AllToSql(arguments), ",");
    Flatten(symbol, "(", joined, ")", "");
    assert ")" + "" == ")" && symbol + "(" + joined + ")" + "" == symbol + "(" + joined + ")";
    TokensWord(symbol, "(" + (joined + ")"));
    TokensSymbol('(', joined + ")");
    assert [WordToken(symbol)] + ([P.Symbol(P.LPAREN)] + Tokens(joined + ")"))
        == [WordToken(symbol), P.Symbol(P.LPAREN)] + Tokens(joined + ")");
  }

  lemma {:induction false} LastParenthesis()
    ensures Tokens(")") == [P.Symbol(P.RPAREN)]
  {
    hide Tokens;
    TokensSymbol(')', "");
    assert ")" + "" == ")";
    NoTokens();
  }

  /** A call with a name of one word and arguments that can be sent arrives as a call of that
      name exactly if it has an argument and its name is no keyword, not `if` and not
      `subquery_column`. */
  lemma {:induction false} CallArrivesIff(symbol: string, arguments: seq<Node>)
    requires IsPlainWord(symbol) && '$' !in symbol
    requires forall i :: 0 <= i < |arguments| ==> Sendable(arguments[i])
    ensures var e := CallExpression(symbol, arguments);
            Received(ToSql(e)) == Some(CallExpression(symbol, AllArrived(arguments)))
            <==> SendableSymbol(symbol) && arguments != []
  {
    hide Tokens, ToSql, Received, Sendable;
    var e := CallExpression(symbol, arguments);
    if SendableSymbol(symbol) && arguments != [] {
      CallSendable(symbol, arguments);
      Arrives(e);
    } else if IsKeyword(Upper(symbol)) {
      KeywordCallFails(symbol, arguments);
    } else if arguments == [] {
      EmptyCallFails(symbol);
    } else {
      SpecialCallFails(symbol, arguments);
    }
  }

  lemma {:induction false} CallSendable(symbol: string, arguments: seq<Node>)
    requires SendableSymbol(symbol) && '$' !in symbol && arguments != []
    requires forall i :: 0 <= i < |arguments| ==> Sendable(arguments[i])
    ensures Sendable(CallExpression(symbol, arguments))
  {
  }

  /** `mod(a, b)`, for one. */
  lemma {:induction false} KeywordCallFails(symbol: string, arguments: seq<Node>)
    requires IsPlainWord(symbol) && '$' !in symbol && IsKeyword(Upper(symbol))
    ensures var r := Received(ToSql(CallExpression(symbol, arguments)));
            r.Some? ==> !(r.value.CallExpression? && r.value.symbol == symbol)
  {
    hide Tokens, ToSql;
    CallStarts(symbol, arguments);
    var sql := ToSql(CallExpression(symbol, arguments));
    var t := WordToken(symbol);
    var ts := Tokens(sql) + [P.Eof];
    assert ts[0] == t && ts[1] == P.Symbol(P.LPAREN);
    if P.IsLiteral(t) {
      assert P.Unary(ts) == P.Ok(P.Literal(t), ts[1..]);
      ClimbStops(P.Literal(t), ts[1..], 0);
      ExprAfterOperand(ts, P.Literal(t), ts[1..], 0);
    } else if P.IsNegation(t) {
      NegatedShape(ts);
      assert Upper(symbol) == "NOT" && |Upper(symbol)| == |symbol|;
      assert Upper("neg")[1] == 'E' && "NOT"[1] == 'O';
    } else {
      assert P.Unary(ts) == P.Ok(P.Missing, ts);
    }
  }

  lemma {:induction false} NegatedShape(ts: seq<P.Token>)
    requires ts != [] && P.IsNegation(ts[0])
    ensures var p := P.Expr(ts, 0); p.Ok? ==> p.ast.Negate? || p.ast.Binary?
    ensures var p := P.Expr(ts, 0); p.Ok? && p.ast.Negate? && Build(p.ast).Some? ==> Build(p.ast).value.symbol == "neg"
  {
    var u := P.Unary(ts);
    if u.Ok? {
      ExprAfterOperand(ts, u.ast, u.rest, 0);
      ClimbShape(u.ast, u.rest, 0);
    }
  }

  /** A call without arguments is read with a missing argument, which cannot be built. */
  lemma {:induction false} EmptyCallFails(symbol: string)
    requires IsIdentifier(symbol) && '$' !in symbol
    ensures Received(ToSql(CallExpression(symbol, []))) == None
  {
    hide Tokens, ToSql, P.Expr;
    CallStarts(symbol, []);
    LastParenthesis();
    var sql := ToSql(CallExpression(symbol, []));
    assert AllToSql([]) == [] && Joined([], ",") + ")" == ")";
    assert Tokens(sql) + [P.Eof] == [P.Ident(symbol), P.Symbol(P.LPAREN), P.Symbol(P.RPAREN), P.Eof];
    EmptyCallParses(symbol);
    assert BuildAll([P.Missing]) == None;
  }

  lemma {:induction false} EmptyCallParses(symbol: string)
    ensures P.Expr([P.Ident(symbol), P.Symbol(P.LPAREN), P.Symbol(P.RPAREN), P.Eof], 0)
         == P.Ok(P.Call(P.KindOf(symbol), symbol, [P.Missing]), [P.Eof])
  {
    hide P.Climb, P.Args;
    var ts := [P.Ident(symbol), P.Symbol(P.LPAREN), P.Symbol(P.RPAREN), P.Eof];
    var rest := [P.Symbol(P.RPAREN), P.Eof];
    assert ts[2..] == rest && rest[1..] == [P.Eof];
    P.ArgsUnfold(rest);
    assert P.FirstArg(rest) == P.Ok(P.Missing, rest);
    assert P.Args(rest) == P.OkArgs([P.Missing], rest);
    var ast := P.Call(P.KindOf(symbol), symbol, [P.Missing]);
    assert P.MethodCall(ts) == P.Ok(ast, [P.Eof]);
    assert P.Unary(ts) == P.Ok(ast, [P.Eof]);
    ExprAfterOperand(ts, ast, [P.Eof], 0);
    ClimbStops(ast, [P.Eof], 0);
  }

  /** `if` and `subquery_column` are not read as calls. */
  lemma {:induction false} SpecialCallFails(symbol: string, arguments: seq<Node>)
    requires IsIdentifier(symbol) && '$' !in symbol && (symbol == "if" || symbol == "subquery_column")
    requires arguments != [] && forall i :: 0 <= i < |arguments| ==> Sendable(arguments[i])
    ensures var r := Received(ToSql(CallExpression(symbol, arguments))); r.Some? ==> !r.value.CallExpression?
  {
    hide Tokens, ToSql, Sendable, PrintArgs, Bare;
    CallStarts(symbol, arguments);
    ArgsTokens(arguments, ")");
    LastParenthesis();
    var asts := AllAstOf(arguments);
    var ast := P.Call(P.KindOf(symbol), symbol, asts);
    BareCall(P.KindOf(symbol), symbol, asts);
    var sql := ToSql(CallExpression(symbol, arguments));
    assert Tokens(sql) == Bare(ast) + [];
    CompleteText(sql, ast, []);
  }

  /** A text without a dollar sign holds no placeholder. */
  lemma {:induction false} PlainHasNoMark(s: string)
    requires '$' !in s
    ensures NoMark(s, '1') && NoMark(s, '2')
  {
  }

  /** An operand that holds the placeholder of a later one is filled with it: a condition on the
      column `$1` arrives as a condition on the value of the first branch. */
  lemma {:induction false} PlaceholderIsFilled(y: Node, n: Node)
    requires Sendable(y) && Sendable(n) && '$' !in ToSql(y)
    ensures Received(ToSql(IfExpression(ColumnReference("$1", None), y, n)))
         == Some(IfExpression(Arrived(y), Arrived(y), Arrived(n)))
  {
    hide Tokens, Received, Replaced, FormatFrom;
    PlainHasNoMark(ToSql(y));
    var e := IfExpression(y, y, n);
    Arrives(e);
    SameIf(ToSql(y), ToSql(n));
    FilledIf(ToSql(y), ToSql(n));
  }

  lemma {:induction false} SameIf(y: string, n: string)
    requires '$' !in y
    ensures Format("if($0, $1, $2)", [y, y, n]) == "if(" + y + ", " + y + ", " + n + ")"
  {
    hide Replaced, FormatFrom;
    PlainHasNoMark(y);
    assert "if(" + "$0" + (", " + "$1" + (", " + "$2" + ")")) == "if($0, $1, $2)";
    FormatThree("if(", ", ", ", ", ")", y, y, n);
    assert [y] + ([y] + [n]) == [y, y, n];
  }

  lemma {:induction false} FilledIf(y: string, n: string)
    requires '$' !in y
    ensures Format("if($0, $1, $2)", ["$1", y, n]) == "if(" + y + ", " + y + ", " + n + ")"
  {
    hide Replaced;
    hide FormatFrom;
    assert ToString(0) == "0" && ToString(1) == "1" && ToString(2) == "2";
    assert "$" + "0" == "$0" && "$" + "1" == "$1" && "$" + "2" == "$2";
    var last := ", " + ("$" + "2") + ")";
    var tail := ", " + ("$" + "1") + last;
    var template := "if(" + ("$" + "0") + tail;
    assert template == "if($0, $1, $2)";
    FillPlaceholder("if(", 0, tail, "$1");
    SkipTwo(", ", "1", ", ", "2", ")", 0, "$1");
    FormatStep(template, 0, "$1", [y] + [n]);
    var scratch := "if(" + ("$" + "1") + tail;
    FillPlaceholder("if(", 1, tail, y);
    FillPlaceholder(", ", 1, last, y);
    SkipOther(", ", "2", ")", 1, y);
    FormatStep(scratch, 1, y, [n]);
    var two := "if(" + y + ", " + y + ", ";
    PlainHasNoMark(two);
    assert "if(" + y + (", " + y + last) == two + ("$" + "2") + ")";
    FillPlaceholder(two, 2, ")", n);
    NoPlaceholder(")", 2, n);
    FormatStep(two + ("$" + "2") + ")", 2, n, []);
    assert [n] + [] == [n] && ["$1"] + ([y] + [n]) == ["$1", y, n];
    NothingToFill(two + n + ")");
  }

  lemma {:induction false} NothingToFill(s: string)
    ensures FormatFrom(s, 3, []) == s
  {
  }

  // ------------------------------------------------------------------
  // Names of columns
  // ------------------------------------------------------------------

  predicate HasKeyword(parts: seq<string>) {
    parts != [] && (IsKeyword(Upper(parts[0])) || HasKeyword(parts[1..]))
  }

  lemma {:induction false} NoKeyword(parts: seq<string>)
    requires AreWords(parts)
    ensures !HasKeyword(parts) <==> forall i :: 0 <= i < |parts| ==> IsIdentifier(parts[i])
  {
    hide IsPlainWord, IsKeyword;
    if parts != [] {
      NoKeyword(parts[1..]);
      assert forall i :: 0 < i < |parts| ==> parts[i] == parts[1..][i - 1];
    }
  }

  /** A keyword behind a dot is an error. */
  lemma {:induction false} KeywordBehindDot(names: seq<string>, parts: seq<string>, ts: seq<P.Token>)
    requires parts != [] && HasKeyword(parts)
    requires ts == [P.Symbol(P.DOT)] + WordTokens(parts) + [P.Eof]
    ensures P.Dotted(names, ts) == P.Error
    decreases |parts|
  {
    hide IsKeyword;
    assert ts[1] == WordToken(parts[0]);
    if !IsKeyword(Upper(parts[0])) {
      RestHasKeyword(parts);
      assert ts[2..] == [P.Symbol(P.DOT)] + WordTokens(parts[1..]) + [P.Eof];
      KeywordBehindDot(names + [parts[0]], parts[1..], ts[2..]);
    }
  }

  /** What stands behind the first part of a name: a dot or the end. */
  lemma {:induction false} BehindFirst(parts: seq<string>)
    requires parts != []
    ensures var ts := WordTokens(parts) + [P.Eof];
            && |ts| > 1 && ts[0] == WordToken(parts[0])
            && ts[1..] == (if |parts| == 1 then [P.Eof] else [P.Symbol(P.DOT)] + WordTokens(parts[1..]) + [P.Eof])
            && Refused(ts[1..], 0)
  {
    hide WordToken;
    var ts := WordTokens(parts) + [P.Eof];
    assert ts[1..] == if |parts| == 1 then [P.Eof] else [P.Symbol(P.DOT)] + WordTokens(parts[1..]) + [P.Eof];
  }

  lemma {:induction false} KeywordInName(parts: seq<string>)
    requires parts != [] && HasKeyword(parts)
    ensures var p := P.Expr(WordTokens(parts) + [P.Eof], 0); p.Ok? ==> !p.ast.Column? && !p.ast.Call?
  {
    hide IsKeyword, WordTokens, HasKeyword, P.Climb;
    var ts, t := WordTokens(parts) + [P.Eof], WordToken(parts[0]);
    BehindFirst(parts);
    if !IsKeyword(Upper(parts[0])) {
      RestHasKeyword(parts);
      KeywordBehindDot([parts[0]], parts[1..], ts[1..]);
      assert P.Unary(ts) == P.Error;
    } else if P.IsLiteral(t) {
      assert P.Unary(ts) == P.Ok(P.Literal(t), ts[1..]);
      ClimbStops(P.Literal(t), ts[1..], 0);
      ExprAfterOperand(ts, P.Literal(t), ts[1..], 0);
    } else if P.IsNegation(t) {
      NegatedShape(ts);
    } else {
      assert P.Unary(ts) == P.Ok(P.Missing, ts);
    }
  }

  lemma {:induction false} RestHasKeyword(parts: seq<string>)
    requires HasKeyword(parts) && !IsKeyword(Upper(parts[0]))
    ensures |parts| > 1 && HasKeyword(parts[1..])
  {
  }

  /** A column whose name is words with dots between them arrives under its name exactly if none of
      them is a keyword. */
  lemma {:induction false} ColumnArrivesIff(name: string, index: Option<nat>)
    requires name != "" && AreWords(Segments(name))
    ensures Received(ToSql(ColumnReference(name, index))) == Some(ColumnReference(name, Some(UNRESOLVED)))
            <==> !HasKeyword(Segments(name))
  {
    hide Tokens, IsKeyword, Segments, AreWords, HasKeyword, WordTokens, P.Expr;
    var e, parts := ColumnReference(name, index), Segments(name);
    NoKeyword(parts);
    if HasKeyword(parts) {
      TokensWords(name, "");
      NoTokens();
      assert name + "" == name && WordTokens(parts) + [] == WordTokens(parts);
      KeywordInName(parts);
      var p := P.Expr(WordTokens(parts) + [P.Eof], 0);
      if p.Ok? {
        OnlyColumns(p.ast);
      }
    } else {
      Arrives(e);
    }
  }

  /** Only columns and indexes become references. */
  lemma {:induction false} OnlyColumns(t: P.Ast)
    requires !t.Column?
    ensures Build(t).Some? && Build(t).value.ColumnReference? ==> t.Call? && t.kind == P.COLUMN_INDEX
  {
  }
}

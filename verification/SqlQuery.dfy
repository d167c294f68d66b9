/**
  From the characters of a query to what its plan puts out, and from the characters of an operator
  to the function it calls.
  */
module SqlQuery {
  import opened Wrappers
  import P = SqlParser
  import S = SqlStatement
  import T = StatementText
  import R = RemoteSql
  import opened Precedence
  import opened SqlTokenizer
  import opened SqlSpelling
  import opened StatementPlan
  import PlanBuilder
  import PlanPrepare
  import PlanStages
  import PlanMeaning
  import PlanExistence

  // ------------------------------------------------------------------
  // Statements in front of the end of a query
  // ------------------------------------------------------------------

  /** The text of a part only gets longer if more follows it. */
  ghost predicate Extends<A(!new)>(text: (A, seq<P.Token>) -> seq<P.Token>) {
    forall x, a, b :: text(x, a + b) == text(x, a) + b
  }

  lemma {:induction false} Joined(a: seq<P.Token>, b: seq<P.Token>, c: seq<P.Token>)
    ensures a + (b + c) == a + b + c
  {
  }

  lemma {:induction false} PartsExtend()
    ensures Extends(T.ExprText) && Extends(T.TableText) && Extends(T.ItemText) && Extends(T.SortText)
  {
    hide Print, Printable;
    forall e: P.Ast, a, b ensures T.ExprText(e, a + b) == T.ExprText(e, a) + b {
      Joined(if Printable(e) then Print(e, 0) else [], a, b);
    }
    forall name: string, a, b ensures T.TableText(name, a + b) == T.TableText(name, a) + b {
      Joined([P.Ident(name)], a, b);
    }
    forall i: S.Item, a, b ensures T.ItemText(i, a + b) == T.ItemText(i, a) + b {
      match i
      case All => Joined([P.Symbol(P.ASTERISK)], a, b);
      case AllOf(table) => Joined([P.Ident(table), P.Symbol(P.DOT), P.Symbol(P.ASTERISK)], a, b);
      case Derived(e, alias) =>
        if alias.Some? {
          Joined([P.Keyword("AS"), P.Ident(alias.value)], a, b);
        }
        ExprExtends(e, if alias.None? then a else [P.Keyword("AS"), P.Ident(alias.value)] + a, b);
    }
    forall s: S.Sort, a, b ensures T.SortText(s, a + b) == T.SortText(s, a) + b {
      if s.order.Some? {
        Joined([P.Keyword(s.order.value)], a, b);
      }
      ExprExtends(s.expr, if s.order.None? then a else [P.Keyword(s.order.value)] + a, b);
    }
  }

  lemma {:induction false} ExprExtends(e: P.Ast, a: seq<P.Token>, b: seq<P.Token>)
    ensures T.ExprText(e, a + b) == T.ExprText(e, a) + b
  {
    hide Print, Printable;
    Joined(if Printable(e) then Print(e, 0) else [], a, b);
  }

  lemma {:induction false} ListExtends<A(!new)>(
    text: (A, seq<P.Token>) -> seq<P.Token>, xs: seq<A>, a: seq<P.Token>, b: seq<P.Token>)
    requires Extends(text)
    ensures T.ListText(text, xs, a + b) == T.ListText(text, xs, a) + b
    decreases |xs|
  {
    if |xs| == 1 {
      assert text(xs[0], a + b) == text(xs[0], a) + b;
    } else if |xs| > 1 {
      ListExtends(text, xs[1..], a, b);
      var more := T.ListText(text, xs[1..], a);
      Joined([P.Symbol(P.COMMA)], more, b);
      assert text(xs[0], ([P.Symbol(P.COMMA)] + more) + b) == text(xs[0], [P.Symbol(P.COMMA)] + more) + b;
    }
  }

  lemma {:induction false} FilterExtends(word: string, e: Option<P.Ast>, a: seq<P.Token>, b: seq<P.Token>)
    ensures T.FilterText(word, e, a + b) == T.FilterText(word, e, a) + b
  {
    hide T.ExprText;
    if e.Some? {
      ExprExtends(e.value, a, b);
      Joined([P.Keyword(word)], T.ExprText(e.value, a), b);
    }
  }

  lemma {:induction false} KeysExtend(es: seq<P.Ast>, a: seq<P.Token>, b: seq<P.Token>)
    ensures var word := [P.Keyword("BY")]; word + T.ListText(T.ExprText, es, a + b) == word + T.ListText(T.ExprText, es, a) + b
  {
    hide T.ExprText, T.ListText;
    PartsExtend();
    ListExtends(T.ExprText, es, a, b);
    Joined([P.Keyword("BY")], T.ListText(T.ExprText, es, a), b);
  }

  lemma {:induction false} WindowEndExtends(step: Option<P.Ast>, es: seq<P.Ast>, a: seq<P.Token>, b: seq<P.Token>)
    ensures T.WindowEndText(step, es, a + b) == T.WindowEndText(step, es, a) + b
  {
    hide T.ExprText, T.ListText;
    KeysExtend(es, a, b);
    var keys := if es == [] then a else [P.Keyword("BY")] + T.ListText(T.ExprText, es, a);
    Joined([P.Symbol(P.RPAREN)], keys, b);
    var end := [P.Symbol(P.RPAREN)] + keys;
    if step.Some? {
      ExprExtends(step.value, end, b);
      Joined([P.Symbol(P.COMMA)], T.ExprText(step.value, end), b);
    }
  }

  lemma {:induction false} WindowExtends(time: P.Ast, window: P.Ast, a: seq<P.Token>, b: seq<P.Token>)
    ensures var comma := [P.Symbol(P.COMMA)];
            T.ExprText(time, comma + T.ExprText(window, a + b)) == T.ExprText(time, comma + T.ExprText(window, a)) + b
  {
    hide T.ExprText;
    ExprExtends(window, a, b);
    Joined([P.Symbol(P.COMMA)], T.ExprText(window, a), b);
    ExprExtends(time, [P.Symbol(P.COMMA)] + T.ExprText(window, a), b);
  }

  lemma {:induction false} GroupExtends(g: Option<S.Grouping>, a: seq<P.Token>, b: seq<P.Token>)
    ensures T.GroupText(g, a + b) == T.GroupText(g, a) + b
  {
    hide T.ExprText, T.ListText, T.WindowEndText;
    match g
    case None =>
    case Some(ByExprs(es)) =>
      KeysExtend(es, a, b);
      Joined([P.Keyword("GROUP")], [P.Keyword("BY")] + T.ListText(T.ExprText, es, a), b);
    case Some(OverWindow(time, window, step, es)) =>
      var end := T.WindowEndText(step, es, a);
      WindowEndExtends(step, es, a, b);
      WindowExtends(time, window, end, b);
      var inside := T.ExprText(time, [P.Symbol(P.COMMA)] + T.ExprText(window, end));
      var opening := [P.Keyword("TIMEWINDOW"), P.Symbol(P.LPAREN)];
      Joined(opening, inside, b);
      Joined([P.Keyword("OVER")], opening + inside, b);
      Joined([P.Keyword("GROUP")], [P.Keyword("OVER")] + (opening + inside), b);
  }

  lemma {:induction false} OrderExtends(o: Option<seq<S.Sort>>, a: seq<P.Token>, b: seq<P.Token>)
    ensures T.OrderText(o, a + b) == T.OrderText(o, a) + b
  {
    hide T.SortText, T.ListText;
    if o.Some? {
      PartsExtend();
      ListExtends(T.SortText, o.value, a, b);
      var keys := T.ListText(T.SortText, o.value, a);
      Joined([P.Keyword("BY")], keys, b);
      Joined([P.Keyword("ORDER")], [P.Keyword("BY")] + keys, b);
    }
  }

  lemma {:induction false} LimitExtends(l: Option<S.Limit>, a: seq<P.Token>, b: seq<P.Token>)
    ensures T.LimitText(l, a + b) == T.LimitText(l, a) + b
  {
    match l
    case None =>
    case Some(Limit(limit, None)) =>
      Joined([P.Numeric(limit)], a, b);
      Joined([P.Keyword("LIMIT")], [P.Numeric(limit)] + a, b);
    case Some(Limit(limit, Some(offset))) =>
      var words := [P.Numeric(limit), P.Keyword("OFFSET"), P.Numeric(offset)];
      Joined(words, a, b);
      Joined([P.Keyword("LIMIT")], words + a, b);
  }

  lemma {:induction false} ClausesExtend(s: S.Select, a: seq<P.Token>, b: seq<P.Token>)
    ensures T.ClausesText(s, a + b) == T.ClausesText(s, a) + b
  {
    hide T.FilterText, T.GroupText, T.OrderText, T.LimitText;
    LimitExtends(s.limit, a, b);
    var limit := T.LimitText(s.limit, a);
    OrderExtends(s.order, limit, b);
    var order := T.OrderText(s.order, limit);
    FilterExtends("HAVING", s.having, order, b);
    var having := T.FilterText("HAVING", s.having, order);
    GroupExtends(s.group, having, b);
    FilterExtends("WHERE", s.filter, T.GroupText(s.group, having), b);
  }

  lemma {:induction false} FromExtends(from: Option<seq<string>>, a: seq<P.Token>, b: seq<P.Token>)
    ensures T.FromText(from, a + b) == T.FromText(from, a) + b
  {
    hide T.TableText, T.ListText;
    if from.Some? {
      PartsExtend();
      ListExtends(T.TableText, from.value, a, b);
      Joined([P.Keyword("FROM")], T.ListText(T.TableText, from.value, a), b);
    }
  }

  lemma {:induction false} SelectExtends(s: S.Select, a: seq<P.Token>, b: seq<P.Token>)
    ensures T.SelectText(s, a + b) == T.SelectText(s, a) + b
  {
    hide T.ItemText, T.ListText, T.FromText, T.ClausesText;
    ClausesExtend(s, a, b);
    FromExtends(s.from, T.ClausesText(s, a), b);
    PartsExtend();
    ListExtends(T.ItemText, s.list, T.FromText(s.from, T.ClausesText(s, a)), b);
  }

  // ------------------------------------------------------------------
  // Queries as characters
  // ------------------------------------------------------------------

  /** The tokens of statements, each with its semicolon; the last one needs none. */
  ghost function Batch(ss: seq<S.Select>, semicolon: bool): seq<P.Token> {
    if ss == [] then []
    else if |ss| == 1 && !semicolon then [P.Keyword("SELECT")] + T.SelectText(ss[0], [])
    else [P.Keyword("SELECT")] + T.SelectText(ss[0], [P.Symbol(P.SEMICOLON)]) + Batch(ss[1..], semicolon)
  }

  lemma {:induction false} BatchIsRead(ss: seq<S.Select>, semicolon: bool)
    requires forall i :: 0 <= i < |ss| ==> T.Writable(ss[i])
    requires semicolon || ss == [] || ss[|ss| - 1].from.Some?
    ensures S.StatementsOf(Batch(ss, semicolon) + [P.Eof]) == S.Done(T.Queries(ss), [P.Eof])
    decreases |ss|
  {
    hide S.StatementOf, T.SelectText, T.Writable;
    if ss != [] {
      var end := [P.Eof];
      if |ss| == 1 && !semicolon {
        T.SelectIsRead(ss[0], end);
        SelectExtends(ss[0], [], end);
        assert [] + end == end;
        Joined([P.Keyword("SELECT")], T.SelectText(ss[0], []), end);
        assert ss[1..] == [];
      } else {
        var stop := [P.Symbol(P.SEMICOLON)];
        var more := Batch(ss[1..], semicolon) + end;
        T.SelectIsRead(ss[0], stop + more);
        assert (stop + more)[1..] == more;
        BatchIsRead(ss[1..], semicolon);
        SelectExtends(ss[0], stop, more);
        var first := [P.Keyword("SELECT")] + T.SelectText(ss[0], stop);
        Joined([P.Keyword("SELECT")], T.SelectText(ss[0], stop), more);
        Joined(first, Batch(ss[1..], semicolon), end);
      }
    }
  }

  /** Any text that spells SELECT statements, in any layout, is read as those statements. */
  lemma {:induction false} TextIsQuery(ss: seq<S.Select>, semicolon: bool, ps: seq<Piece>, end: string)
    requires ss != [] && forall i :: 0 <= i < |ss| ==> T.Writable(ss[i])
    requires semicolon || ss[|ss| - 1].from.Some?
    requires Writes(ps, end, Batch(ss, semicolon))
    ensures S.ReadOf(Text(ps, end)) == Some(T.Queries(ss))
  {
    hide Tokens, Writes, Text, S.StatementsOf, T.SelectText, T.Writable;
    TextIsRead(ps, end, Batch(ss, semicolon));
    BatchIsRead(ss, semicolon);
  }

  /** From the characters of a SELECT statement to what its plan puts out: the statement is read as
      itself, it has a plan exactly if its parts admit one, and the plan puts out what the statement
      asks for. */
  lemma {:induction false} TextMeansAnswer(
    s: S.Select, semicolon: bool, ps: seq<Piece>, end: string, c: PlanPrepare.Catalog, en: PlanMeaning.Engine)
    requires T.Writable(s) && s.from.Some? && AreApart(s.list) && c.isAggregate == en.meaning.isAggregate
    requires Writes(ps, end, Batch([s], semicolon))
    ensures S.ReadOf(Text(ps, end)) == Some([S.Query(s)])
    ensures var ast := SelectNode(s);
            && PlanStages.IsStatement(ast)
            && (PlanBuilder.IsCalm(ast, c.isAggregate) ==>
                  var plan := PlanBuilder.PlanOf(ast, c);
                  && (plan.Some? <==> PlanExistence.HasPlan(s, c))
                  && (plan.Some? ==> PlanMeaning.Run(en, plan.value) == PlanMeaning.Answer(en, s, c)))
  {
    hide Writes, Text, T.Writable, HasShape, IsWholeSelect, PlanStages.IsStatement, PlanBuilder.IsCalm, PlanBuilder.PlanOf,
         PlanExistence.HasPlan, PlanMeaning.Run, PlanMeaning.Answer, AreApart, SelectNode, Batch, S.ReadOf;
    TextIsQuery([s], semicolon, ps, end);
    OneQuery(s);
    WritableIsWhole(s);
    SelectIsStatement(s);
    if PlanBuilder.IsCalm(SelectNode(s), c.isAggregate) {
      PlanExistence.PlanExistsIff(s, c);
      PlanMeaning.PlanMeansStatement(s, c, en);
    }
  }

  lemma {:induction false} OneQuery(s: S.Select)
    ensures T.Queries([s]) == [S.Query(s)]
  {
    assert [s][1..] == [];
  }

  // ------------------------------------------------------------------
  // Operators
  // ------------------------------------------------------------------

  /** An operator: how it is spelled, its level in the table of the parser's header, and the function
      it calls. */
  datatype Operator = Operator(sign: string, level: nat, calls: string)

  predicate IsOperator(o: Operator) {
    || o == Operator("OR", 1, "logical_or")
    || o == Operator("AND", 3, "logical_and")
    || o == Operator("=", 6, "eq") || o == Operator("!=", 6, "neq")
    || o == Operator("<", 6, "lt") || o == Operator("<=", 6, "lte")
    || o == Operator(">", 6, "gt") || o == Operator(">=", 6, "gte")
    || o == Operator("+", 10, "add") || o == Operator("-", 10, "sub")
    || o == Operator("*", 11, "mul") || o == Operator("/", 11, "div")
    || o == Operator("%", 11, "mod") || o == Operator("MOD", 11, "mod")
    || o == Operator("^", 12, "pow")
  }

  /** The token of an operator. */
  predicate IsSign(t: P.Token, o: Operator) {
    IsOperator(o) && ((t.Symbol? && Spelled(t.sym) == o.sign) || (t == P.Keyword(o.sign) && Reserved(o.sign)))
  }

  /** The call that an operator becomes. */
  function CallOf(o: Operator, left: Option<R.Node>, right: Option<R.Node>): Option<R.Node> {
    if left.None? || right.None? then None else Some(R.CallExpression(o.calls, [left.value, right.value]))
  }

  /** Of two operators, the first takes the operand between them unless the second binds tighter; `^`
      leaves it to another `^`. */
  predicate TakesFirst(first: Operator, second: Operator) {
    first.level > second.level || (first.level == second.level && first.sign != "^")
  }

  lemma {:induction false} SymbolSignIs(sym: P.Sym, o: Operator)
    requires IsOperator(o) && Spelled(sym) == o.sign
    ensures P.OpOf(P.Symbol(sym)).Some?
    ensures Describes(P.OpOf(P.Symbol(sym)).value, o)
  {
  }

  lemma {:induction false} WordSignIs(o: Operator)
    requires IsOperator(o) && Reserved(o.sign)
    ensures P.OpOf(P.Keyword(o.sign)).Some?
    ensures Describes(P.OpOf(P.Keyword(o.sign)).value, o)
  {
    assert o.sign == "OR" || o.sign == "AND" || o.sign == "MOD";
  }

  predicate Describes(op: P.Op, o: Operator) {
    && P.Level(op) == o.level
    && P.RightLevel(op) == (if o.sign == "^" then o.level - 1 else o.level)
    && R.OperatorName(op) == o.calls
  }

  lemma {:induction false} SignIs(t: P.Token, o: Operator)
    requires IsSign(t, o)
    ensures IsOperator(o) && 0 < o.level && P.OpOf(t).Some? && Describes(P.OpOf(t).value, o)
  {
    hide P.OpOf, P.Level, P.RightLevel, R.OperatorName, Spelled, Reserved, Describes;
    if t.Symbol? {
      SymbolSignIs(t.sym, o);
    } else {
      WordSignIs(o);
    }
  }

  ghost predicate IsOperand(e: P.Ast) {
    Printable(e) && !e.Binary?
  }

  lemma {:induction false} OperandThen(e: P.Ast, tail: seq<P.Token>, precedence: nat)
    requires IsOperand(e) && Closed(tail)
    ensures e != P.Missing && P.Expr(Bare(e) + tail, precedence) == P.Climb(e, tail, precedence)
  {
    hide P.Expr, P.Unary, P.Climb, Bare;
    OperandParses(e, tail);
    ExprAfterOperand(Bare(e) + tail, e, tail, precedence);
  }

  lemma {:induction false} ClimbTakes(l: P.Ast, t: P.Token, ts: seq<P.Token>, precedence: nat, r: P.Ast, rest: seq<P.Token>)
    requires l != P.Missing && r != P.Missing && P.OpOf(t).Some?
    requires var op := P.OpOf(t).value; precedence < P.Level(op) && P.Expr(ts, P.RightLevel(op)) == P.Ok(r, rest)
    ensures P.Climb(l, [t] + ts, precedence) == P.Climb(P.Binary(P.OpOf(t).value, l, r), rest, precedence)
  {
    hide P.Expr, P.OpOf, P.Level, P.RightLevel;
    assert ([t] + ts)[1..] == ts;
  }

  lemma {:induction false} SignCloses(t: P.Token, ts: seq<P.Token>)
    requires P.OpOf(t).Some?
    ensures Closed([t] + ts) && P.Head([t] + ts) == t
  {
  }

  /** The last operand in front of what is no operator. */
  lemma {:induction false} LastOperand(e: P.Ast, rest: seq<P.Token>, precedence: nat)
    requires IsOperand(e) && Closed(rest) && P.OpOf(P.Head(rest)).None?
    ensures e != P.Missing && P.Expr(Bare(e) + rest, precedence) == P.Ok(e, rest)
  {
    hide P.Expr, P.Climb, Bare, P.OpOf;
    OperandThen(e, rest, precedence);
    ClimbStops(e, rest, precedence);
  }

  lemma {:induction false} OperatorBuilds(op: P.Op, o: Operator, l: P.Ast, r: P.Ast)
    requires Describes(op, o)
    ensures R.Build(P.Binary(op, l, r)) == CallOf(o, R.Build(l), R.Build(r))
  {
  }

  /** One operator between two operands calls its function on them, in their order. */
  lemma {:induction false} OperatorCalls(a: P.Ast, t: P.Token, o: Operator, b: P.Ast, rest: seq<P.Token>)
    requires IsOperand(a) && IsOperand(b) && IsSign(t, o) && Closed(rest) && P.OpOf(P.Head(rest)).None?
    ensures var p := P.Expr(Bare(a) + ([t] + (Bare(b) + rest)), 0);
            p.Ok? && p.rest == rest && R.Build(p.ast) == CallOf(o, R.Build(a), R.Build(b))
  {
    hide P.Expr, P.Climb, Bare, P.OpOf, P.Level, P.RightLevel, R.OperatorName, IsSign, Closed;
    SignIs(t, o);
    var op := P.OpOf(t).value;
    SignCloses(t, Bare(b) + rest);
    OperandThen(a, [t] + (Bare(b) + rest), 0);
    LastOperand(b, rest, P.RightLevel(op));
    ClimbTakes(a, t, Bare(b) + rest, 0, b, rest);
    ClimbStops(P.Binary(op, a, b), rest, 0);
  }

  ghost function TwoOperators(
    a: P.Ast, t: P.Token, b: P.Ast, u: P.Token, c: P.Ast, rest: seq<P.Token>): seq<P.Token>
    requires IsOperand(a) && IsOperand(b) && IsOperand(c)
  {
    Bare(a) + ([t] + (Bare(b) + ([u] + (Bare(c) + rest))))
  }

  lemma {:induction false} FirstTakes(a: P.Ast, t: P.Token, b: P.Ast, u: P.Token, c: P.Ast, rest: seq<P.Token>)
    requires IsOperand(a) && IsOperand(b) && IsOperand(c) && P.OpOf(t).Some? && P.OpOf(u).Some?
    requires Closed(rest) && P.OpOf(P.Head(rest)).None?
    requires var first, second := P.OpOf(t).value, P.OpOf(u).value;
             0 < P.Level(first) && 0 < P.Level(second) <= P.RightLevel(first)
    ensures P.Expr(TwoOperators(a, t, b, u, c, rest), 0)
         == P.Ok(P.Binary(P.OpOf(u).value, P.Binary(P.OpOf(t).value, a, b), c), rest)
  {
    hide P.Expr, P.Climb, Bare, P.OpOf, P.Level, P.RightLevel, Closed, Printable;
    var first, second := P.OpOf(t).value, P.OpOf(u).value;
    var tail := [u] + (Bare(c) + rest);
    SignCloses(t, Bare(b) + tail);
    SignCloses(u, Bare(c) + rest);
    OperandThen(a, [t] + (Bare(b) + tail), 0);
    OperandThen(b, tail, P.RightLevel(first));
    ClimbStops(b, tail, P.RightLevel(first));
    ClimbTakes(a, t, Bare(b) + tail, 0, b, tail);
    LastOperand(c, rest, P.RightLevel(second));
    ClimbTakes(P.Binary(first, a, b), u, Bare(c) + rest, 0, c, rest);
    ClimbStops(P.Binary(second, P.Binary(first, a, b), c), rest, 0);
  }

  lemma {:induction false} SecondTakes(a: P.Ast, t: P.Token, b: P.Ast, u: P.Token, c: P.Ast, rest: seq<P.Token>)
    requires IsOperand(a) && IsOperand(b) && IsOperand(c) && P.OpOf(t).Some? && P.OpOf(u).Some?
    requires Closed(rest) && P.OpOf(P.Head(rest)).None?
    requires var first, second := P.OpOf(t).value, P.OpOf(u).value;
             0 < P.Level(first) && P.RightLevel(first) < P.Level(second)
    ensures P.Expr(TwoOperators(a, t, b, u, c, rest), 0)
         == P.Ok(P.Binary(P.OpOf(t).value, a, P.Binary(P.OpOf(u).value, b, c)), rest)
  {
    hide P.Expr, P.Climb, Bare, P.OpOf, P.Level, P.RightLevel, Closed, Printable;
    var first, second := P.OpOf(t).value, P.OpOf(u).value;
    var tail := [u] + (Bare(c) + rest);
    var right := P.Binary(second, b, c);
    SignCloses(t, Bare(b) + tail);
    SignCloses(u, Bare(c) + rest);
    OperandThen(a, [t] + (Bare(b) + tail), 0);
    OperandThen(b, tail, P.RightLevel(first));
    LastOperand(c, rest, P.RightLevel(second));
    ClimbTakes(b, u, Bare(c) + rest, P.RightLevel(first), c, rest);
    ClimbStops(right, rest, P.RightLevel(first));
    ClimbTakes(a, t, Bare(b) + tail, 0, right, rest);
    ClimbStops(P.Binary(first, a, right), rest, 0);
  }

  /** Two operators group as the table of levels in the parser's header says. */
  lemma {:induction false} TwoOperatorsGroup(
    a: P.Ast, t: P.Token, o: Operator, b: P.Ast, u: P.Token, q: Operator, c: P.Ast, rest: seq<P.Token>)
    requires IsOperand(a) && IsOperand(b) && IsOperand(c) && IsSign(t, o) && IsSign(u, q)
    requires Closed(rest) && P.OpOf(P.Head(rest)).None?
    ensures var p := P.Expr(TwoOperators(a, t, b, u, c, rest), 0);
            var x, y, z := R.Build(a), R.Build(b), R.Build(c);
            && p.Ok? && p.rest == rest
            && R.Build(p.ast) == if TakesFirst(o, q) then CallOf(q, CallOf(o, x, y), z) else CallOf(o, x, CallOf(q, y, z))
  {
    hide P.Expr, TwoOperators, P.OpOf, P.Level, P.RightLevel, R.OperatorName, IsSign, IsOperator, Closed, Printable, R.Build, CallOf;
    SignIs(t, o);
    SignIs(u, q);
    var first, second := P.OpOf(t).value, P.OpOf(u).value;
    if TakesFirst(o, q) {
      FirstTakes(a, t, b, u, c, rest);
      OperatorBuilds(first, o, a, b);
      OperatorBuilds(second, q, P.Binary(first, a, b), c);
    } else {
      LevelsAre(o, q);
      SecondTakes(a, t, b, u, c, rest);
      OperatorBuilds(second, q, b, c);
      OperatorBuilds(first, o, a, P.Binary(second, b, c));
    }
  }

  /** Only `^` has its level. */
  lemma {:induction false} LevelsAre(o: Operator, q: Operator)
    requires IsOperator(o) && IsOperator(q) && !TakesFirst(o, q)
    ensures (if o.sign == "^" then o.level - 1 else o.level) < q.level
  {
  }

  /** What a prefix that negates is spelled like. */
  predicate IsPrefix(t: P.Token) {
    t == P.Keyword("NOT") || (t.Symbol? && (Spelled(t.sym) == "!" || Spelled(t.sym) == "-"))
  }

  /** Each of the three prefixes negates the whole expression behind it, whatever operators are there:
      the table of levels in the header gives `!` and the unary minus the highest ones. */
  lemma {:induction false} PrefixTakesAll(t: P.Token, e: P.Ast, precedence: nat, rest: seq<P.Token>)
    requires IsPrefix(t) && Printable(e) && Closed(rest) && Refused(rest, 0)
    ensures var p := P.Expr([t] + Print(e, 0) + rest, precedence);
            && p == P.Ok(P.Negate(e), rest)
            && R.Build(p.ast) == if R.Build(e).None? then None else Some(R.CallExpression("neg", [R.Build(e).value]))
  {
    hide P.Climb, Print;
    var ts := [t] + Print(e, 0) + rest;
    assert ts[1..] == Print(e, 0) + rest;
    Parses(e, 0, rest);
    assert P.Unary(ts) == P.Ok(P.Negate(e), rest);
    ExprAfterOperand(ts, P.Negate(e), rest, precedence);
    ClimbStops(P.Negate(e), rest, precedence);
  }
}

/**
  Statements: SELECT with its clauses, and the smaller ones. As for expressions, the parser is a
  cursor over the tokens that is moved by every method, and what it reads is given by functions of
  the tokens ahead. DRAW is read for its effect on the cursor only.
  */
module SqlStatement {
  import opened Wrappers
  import opened SqlParser
  import opened SqlTokenizer

  datatype Item = All | AllOf(table: string) | Derived(expr: Ast, alias: Option<string>)

  datatype Grouping =
    | ByExprs(exprs: seq<Ast>)
    | OverWindow(time: Ast, window: Ast, step: Option<Ast>, exprs: seq<Ast>)

  datatype Sort = Sort(expr: Ast, order: Option<string>)

  datatype Limit = Limit(limit: string, offset: Option<string>)

  datatype Select = Select(
    list: seq<Item>,
    from: Option<seq<string>>,
    filter: Option<Ast>,
    group: Option<Grouping>,
    having: Option<Ast>,
    order: Option<seq<Sort>>,
    limit: Option<Limit>)

  datatype Statement =
    | Query(select: Select)
    | Explain(select: Select)
    | Describe(table: string)
    | ShowTables
    | Import(tables: seq<string>, source: Ast)
    | Draw

  datatype Result<+T> = Done(value: T, rest: seq<Token>) | Failed

  // ------------------------------------------------------------------
  // Reading as functions of the tokens
  // ------------------------------------------------------------------

  function Tail(ts: seq<Token>): (r: seq<Token>)
    ensures |r| <= |ts| && (ts != [] ==> |r| < |ts|)
  {
    if ts == [] then [] else ts[1..]
  }

  /** An expression; it may be missing. */
  function ExprOf(ts: seq<Token>): (r: Result<Ast>)
    ensures r.Done? ==> |r.rest| <= |ts| && (r.value != Missing ==> |r.rest| < |ts|)
  {
    var e := Expr(ts, 0);
    if e.Error? then Failed else Done(e.ast, e.rest)
  }

  /** An expression that must be there. */
  function ValueExprOf(ts: seq<Token>): (r: Result<Ast>)
    ensures r.Done? ==> |r.rest| < |ts| && r.value != Missing
  {
    var e := ExprOf(ts);
    if e.Failed? || e.value == Missing then Failed else e
  }

  function TableOf(ts: seq<Token>): (r: Result<string>)
    ensures r.Done? ==> |r.rest| < |ts|
  {
    if Head(ts).Ident? || Head(ts).Quoted? then MoreOf(ts[0].text, ts[1..]) else Failed
  }

  /** The rest of a dotted table name. */
  function MoreOf(name: string, ts: seq<Token>): (r: Result<string>)
    ensures r.Done? ==> |r.rest| <= |ts|
    decreases |ts|
  {
    if Head(ts) != Symbol(DOT) then Done(name, ts)
    else if !Second(ts).Ident? then Failed
    else MoreOf(name + "." + ts[1].text, ts[2..])
  }

  predicate IsAllOf(ts: seq<Token>) {
    |ts| > 2 && ts[0].Ident? && ts[1] == Symbol(DOT) && ts[2] == Symbol(ASTERISK)
  }

  function ItemOf(ts: seq<Token>): (r: Result<Item>)
    ensures r.Done? ==> |r.rest| < |ts|
  {
    if IsAllOf(ts) then Done(AllOf(ts[0].text), ts[3..])
    else
      var e := ValueExprOf(ts);
      if e.Failed? then Failed else AliasOf(e.value, e.rest)
  }

  function AliasOf(expr: Ast, ts: seq<Token>): (r: Result<Item>)
    ensures r.Done? ==> |r.rest| <= |ts|
  {
    var rest := if Head(ts) == Keyword("AS") then Tail(ts) else ts;
    if Head(rest).Ident? then Done(Derived(expr, Some(rest[0].text)), rest[1..])
    else if Head(ts) == Keyword("AS") then Failed
    else Done(Derived(expr, None), rest)
  }

  function SortOf(ts: seq<Token>): (r: Result<Sort>)
    ensures r.Done? ==> |r.rest| <= |ts|
  {
    var e := ExprOf(ts);
    if e.Failed? then Failed
    else if Head(e.rest) == Keyword("ASC") || Head(e.rest) == Keyword("DESC") then
      Done(Sort(e.value, Some(e.rest[0].word)), e.rest[1..])
    else Done(Sort(e.value, None), e.rest)
  }

  ghost predicate Shortens<T(!new)>(one: seq<Token> -> Result<T>) {
    forall ts: seq<Token> :: one(ts).Done? ==> |one(ts).rest| <= |ts|
  }

  /** One or more, with commas between them. */
  function ListOf<T(!new)>(one: seq<Token> -> Result<T>, ts: seq<Token>): (r: Result<seq<T>>)
    requires Shortens(one)
    ensures r.Done? ==> |r.rest| <= |ts| && r.value != []
    decreases |ts|
  {
    var first := one(ts);
    if first.Failed? then Failed
    else if first.rest != [] && first.rest[0] == Symbol(COMMA) then
      InFront([first.value], ListOf(one, first.rest[1..]))
    else Done([first.value], first.rest)
  }

  function InFront<T>(xs: seq<T>, r: Result<seq<T>>): Result<seq<T>> {
    if r.Failed? then Failed else Done(xs + r.value, r.rest)
  }

  lemma {:induction false} InFrontTwice<T>(xs: seq<T>, ys: seq<T>, r: Result<seq<T>>)
    ensures InFront(xs, InFront(ys, r)) == InFront(xs + ys, r)
  {
    if r.Done? {
      assert xs + (ys + r.value) == xs + ys + r.value;
    }
  }

  lemma {:induction false} InFrontNothing<T>(r: Result<seq<T>>)
    ensures InFront([], r) == r
  {
    if r.Done? {
      assert [] + r.value == r.value;
    }
  }

  lemma {:induction false} ReadersShorten()
    ensures Shortens(ExprOf) && Shortens(TableOf) && Shortens(ItemOf) && Shortens(SortOf)
  {
    hide ExprOf, TableOf, ItemOf, SortOf;
  }

  /** An optional clause behind its keyword. */
  function ClauseOf<T(!new)>(word: string, body: seq<Token> -> Result<T>, ts: seq<Token>): (r: Result<Option<T>>)
    requires Shortens(body)
    ensures r.Done? ==> |r.rest| <= |ts|
  {
    if Head(ts) != Keyword(word) then Done(None, ts)
    else
      var b := body(ts[1..]);
      if b.Failed? then Failed else Done(Some(b.value), b.rest)
  }

  function FromOf(ts: seq<Token>): (r: Result<Option<seq<string>>>)
    ensures r.Done? ==> |r.rest| <= |ts|
  {
    ReadersShorten();
    if Head(ts) == Symbol(SEMICOLON) then Done(None, ts)
    else if Head(ts) != Keyword("FROM") then Failed
    else
      var l := ListOf(TableOf, ts[1..]);
      if l.Failed? then Failed else Done(Some(l.value), l.rest)
  }

  /** Behind GROUP. */
  function GroupOf(ts: seq<Token>): (r: Result<Grouping>)
    ensures r.Done? ==> |r.rest| <= |ts|
  {
    ReadersShorten();
    if Head(ts) == Keyword("OVER") then WindowOf(ts[1..])
    else if Head(ts) != Keyword("BY") then Failed
    else
      var l := ListOf(ExprOf, ts[1..]);
      if l.Failed? then Failed else Done(ByExprs(l.value), l.rest)
  }

  /** Behind GROUP OVER. */
  function WindowOf(ts: seq<Token>): (r: Result<Grouping>)
    ensures r.Done? ==> |r.rest| <= |ts|
  {
    if Head(ts) != Keyword("TIMEWINDOW") || Second(ts) != Symbol(LPAREN) then Failed else WindowTimeOf(ts[2..])
  }

  function WindowTimeOf(ts: seq<Token>): (r: Result<Grouping>)
    ensures r.Done? ==> |r.rest| <= |ts|
  {
    var time := ValueExprOf(ts);
    if time.Failed? || Head(time.rest) != Symbol(COMMA) then Failed
    else
      var window := ValueExprOf(Tail(time.rest));
      if window.Failed? then Failed else WindowEndOf(time.value, window.value, window.rest)
  }

  /** Behind the size of the window. */
  function WindowEndOf(time: Ast, window: Ast, ts: seq<Token>): (r: Result<Grouping>)
    ensures r.Done? ==> |r.rest| <= |ts|
  {
    var step := StepOf(ts);
    if step.Failed? || Head(step.rest) != Symbol(RPAREN) then Failed
    else WindowKeysOf(time, window, step.value, Tail(step.rest))
  }

  function StepOf(ts: seq<Token>): (r: Result<Option<Ast>>)
    ensures r.Done? ==> |r.rest| <= |ts|
  {
    if Head(ts) != Symbol(COMMA) then Done(None, ts)
    else
      var e := ValueExprOf(Tail(ts));
      if e.Failed? then Failed else Done(Some(e.value), e.rest)
  }

  function WindowKeysOf(time: Ast, window: Ast, step: Option<Ast>, ts: seq<Token>): (r: Result<Grouping>)
    ensures r.Done? ==> |r.rest| <= |ts|
  {
    ReadersShorten();
    if Head(ts) != Keyword("BY") then Done(OverWindow(time, window, step, []), ts)
    else
      var l := ListOf(ExprOf, ts[1..]);
      if l.Failed? then Failed else Done(OverWindow(time, window, step, l.value), l.rest)
  }

  /** Behind ORDER. */
  function OrderOf(ts: seq<Token>): (r: Result<seq<Sort>>)
    ensures r.Done? ==> |r.rest| <= |ts|
  {
    ReadersShorten();
    if Head(ts) != Keyword("BY") then Failed else ListOf(SortOf, ts[1..])
  }

  /** Behind LIMIT. */
  function LimitOf(ts: seq<Token>): (r: Result<Limit>)
    ensures r.Done? ==> |r.rest| <= |ts|
  {
    if !Head(ts).Numeric? then Failed
    else if Second(ts) != Keyword("OFFSET") then Done(Limit(ts[0].text, None), ts[1..])
    else if |ts| < 3 || !ts[2].Numeric? then Failed
    else Done(Limit(ts[0].text, Some(ts[2].text)), ts[3..])
  }

  /** The select list, behind SELECT. */
  function SelectListOf(ts: seq<Token>): (r: Result<seq<Item>>)
    ensures r.Done? ==> |r.rest| <= |ts|
  {
    ReadersShorten();
    if Head(ts) == Symbol(ASTERISK) then Done([All], ts[1..]) else ListOf(ItemOf, ts)
  }

  lemma {:induction false} ClausesShorten()
    ensures Shortens(ExprOf) && Shortens(GroupOf) && Shortens(OrderOf) && Shortens(LimitOf)
  {
    hide ExprOf, GroupOf, OrderOf, LimitOf;
  }

  /** Behind SELECT. */
  function SelectOf(ts: seq<Token>): (r: Result<Select>)
    ensures r.Done? ==> |r.rest| <= |ts|
  {
    var list := SelectListOf(ts);
    if list.Failed? then Failed
    else
      var from := FromOf(list.rest);
      if from.Failed? then Failed else ClausesOf(list.value, from.value, from.rest)
  }

  function ClausesOf(list: seq<Item>, from: Option<seq<string>>, ts: seq<Token>): (r: Result<Select>)
    ensures r.Done? ==> |r.rest| <= |ts|
  {
    ClausesShorten();
    var filter := ClauseOf("WHERE", ExprOf, ts);
    if filter.Failed? then Failed
    else
      var group := ClauseOf("GROUP", GroupOf, filter.rest);
      if group.Failed? then Failed
      else
        var having := ClauseOf("HAVING", ExprOf, group.rest);
        if having.Failed? then Failed
        else LastClausesOf(Select(list, from, filter.value, group.value, having.value, None, None), having.rest)
  }

  /** ORDER BY and LIMIT, and the semicolon. */
  function LastClausesOf(s: Select, ts: seq<Token>): (r: Result<Select>)
    ensures r.Done? ==> |r.rest| <= |ts|
  {
    ClausesShorten();
    var order := ClauseOf("ORDER", OrderOf, ts);
    if order.Failed? then Failed
    else
      var limit := ClauseOf("LIMIT", LimitOf, order.rest);
      if limit.Failed? then Failed
      else Done(s.(order := order.value, limit := limit.value), AfterSemicolon(limit.rest))
  }

  function AfterSemicolon(ts: seq<Token>): (r: seq<Token>)
    ensures |r| <= |ts|
  {
    if Head(ts) == Symbol(SEMICOLON) then Tail(ts) else ts
  }

  function StatementOf(ts: seq<Token>): (r: Result<Statement>)
    ensures r.Done? ==> |r.rest| < |ts|
  {
    if !Head(ts).Keyword? then Failed
    else
      var word := ts[0].word;
      if word == "SELECT" then
        var s := SelectOf(ts[1..]);
        if s.Failed? then Failed else Done(Query(s.value), s.rest)
      else if word == "SHOW" then
        if Second(ts) == Keyword("TABLES") then Done(ShowTables, AfterSemicolon(ts[2..])) else Failed
      else if word == "DESCRIBE" || word == "EXPLAIN" then ExplainOf(ts[1..])
      else if word == "IMPORT" then ImportOf(ts[1..])
      else Failed
  }

  /** Behind EXPLAIN or DESCRIBE. */
  function ExplainOf(ts: seq<Token>): (r: Result<Statement>)
    ensures r.Done? ==> |r.rest| <= |ts|
  {
    if Head(ts) == Keyword("SELECT") then
      var s := SelectOf(ts[1..]);
      if s.Failed? then Failed else Done(Explain(s.value), AfterSemicolon(s.rest))
    else
      var t := TableOf(ts);
      if t.Failed? then Failed else Done(Describe(t.value), AfterSemicolon(t.rest))
  }

  /** Behind IMPORT. At most two tables are read. */
  function ImportOf(ts: seq<Token>): (r: Result<Statement>)
    ensures r.Done? ==> |r.rest| <= |ts|
  {
    if Head(ts) != Keyword("TABLE") then Failed
    else
      var a := TableOf(ts[1..]);
      if a.Failed? then Failed
      else if Head(a.rest) != Symbol(COMMA) then ImportFrom([a.value], a.rest)
      else
        var b := TableOf(Tail(a.rest));
        if b.Failed? then Failed else ImportFrom([a.value, b.value], b.rest)
  }

  function ImportFrom(tables: seq<string>, ts: seq<Token>): (r: Result<Statement>)
    ensures r.Done? ==> |r.rest| <= |ts|
  {
    if Head(ts) != Keyword("FROM") then Failed
    else
      var e := ValueExprOf(ts[1..]);
      if e.Failed? then Failed else Done(Import(tables, e.value), AfterSemicolon(e.rest))
  }

  /** Statements up to the end marker. */
  function StatementsOf(ts: seq<Token>): (r: Result<seq<Statement>>)
    decreases |ts|
  {
    if Head(ts) == Eof then Done([], ts)
    else
      var first := StatementOf(ts);
      if first.Failed? then Failed else InFront([first.value], StatementsOf(first.rest))
  }

  // ------------------------------------------------------------------
  // The parser
  // ------------------------------------------------------------------

  /** A method has read what the function reads, and left the cursor behind it. */
  ghost predicate Left<T(!new)>(p: Parser, spec: Result<T>, r: Option<T>)
    reads p
  {
    && r.Some? == spec.Done?
    && (r.Some? ==> p.Valid() && r.value == spec.value && spec.rest == p.Ahead())
  }

  method Expression(p: Parser) returns (r: Option<Ast>)
    requires p.Valid()
    modifies p`cur
    ensures Left(p, ExprOf(old(p.Ahead())), r)
  {
    var ok, ast := p.ParseExpr(0);
    r := if ok then Some(ast) else None;
  }

  method ExpectAndConsumeValueExpr(p: Parser) returns (r: Option<Ast>)
    requires p.Valid()
    modifies p`cur
    ensures Left(p, ValueExprOf(old(p.Ahead())), r)
  {
    hide ExprOf;
    r := Expression(p);
    if r == Some(Missing) {
      r := None;
    }
  }

  method TableName(p: Parser) returns (r: Option<string>)
    requires p.Valid()
    modifies p`cur
    ensures Left(p, TableOf(old(p.Ahead())), r)
  {
    var t := p.tokens[p.cur];
    if !t.Ident? && !t.Quoted? {
      return None;
    }
    var _ := p.ConsumeToken();
    var name := t.text;
    ghost var result := MoreOf(name, p.Ahead());
    while p.tokens[p.cur] == Symbol(DOT)
      invariant p.Valid() && MoreOf(name, p.Ahead()) == result
      decreases |p.tokens| - p.cur
    {
      ghost var ahead := p.Ahead();
      var _ := p.ConsumeToken();
      if !p.tokens[p.cur].Ident? {
        return None;
      }
      var next := p.ConsumeToken();
      assert p.Ahead() == ahead[2..] && next == ahead[1];
      name := name + "." + next.text;
    }
    r := Some(name);
  }

  method SelectSublist(p: Parser) returns (r: Option<Item>)
    requires p.Valid()
    modifies p`cur
    ensures Left(p, ItemOf(old(p.Ahead())), r)
  {
    hide ValueExprOf;
    var t := p.tokens[p.cur];
    var dot := p.Lookahead(1, Symbol(DOT));
    var asterisk := p.Lookahead(2, Symbol(ASTERISK));
    if t.Ident? && dot && asterisk {
      var _ := p.ConsumeToken();
      var _ := p.ConsumeToken();
      var _ := p.ConsumeToken();
      return Some(AllOf(t.text));
    }
    var e := ExpectAndConsumeValueExpr(p);
    if e.None? {
      return None;
    }
    var named := p.ConsumeIf(Keyword("AS"));
    if p.tokens[p.cur].Ident? {
      var alias := p.ConsumeToken();
      r := Some(Derived(e.value, Some(alias.text)));
    } else {
      r := if named then None else Some(Derived(e.value, None));
    }
  }

  method SelectList(p: Parser) returns (r: Option<seq<Item>>)
    requires p.Valid()
    modifies p`cur
    ensures Left(p, SelectListOf(old(p.Ahead())), r)
  {
    hide ItemOf;
    ReadersShorten();
    var all := p.ConsumeIf(Symbol(ASTERISK));
    if all {
      return Some([All]);
    }
    ghost var result := ListOf(ItemOf, p.Ahead());
    InFrontNothing(result);
    var list: seq<Item> := [];
    while true
      invariant p.Valid() && InFront(list, ListOf(ItemOf, p.Ahead())) == result
      decreases |p.tokens| - p.cur
    {
      ghost var ahead := p.Ahead();
      var item := SelectSublist(p);
      if item.None? {
        return None;
      }
      var comma := p.ConsumeIf(Symbol(COMMA));
      if !comma {
        return Some(list + [item.value]);
      }
      InFrontTwice(list, [item.value], ListOf(ItemOf, p.Ahead()));
      list := list + [item.value];
    }
  }

  method FromClause(p: Parser) returns (r: Option<seq<string>>)
    requires p.Valid() && p.tokens[p.cur] != Symbol(SEMICOLON)
    modifies p`cur
    ensures r.Some? == FromOf(old(p.Ahead())).Done?
    ensures r.Some? ==> p.Valid() && FromOf(old(p.Ahead())) == Done(Some(r.value), p.Ahead())
  {
    hide TableOf;
    ReadersShorten();
    if p.tokens[p.cur] != Keyword("FROM") {
      return None;
    }
    ghost var result := ListOf(TableOf, p.Ahead()[1..]);
    InFrontNothing(result);
    var list: seq<string> := [];
    while true
      invariant p.Valid() && p.tokens[p.cur] != Eof
      invariant InFront(list, ListOf(TableOf, p.Ahead()[1..])) == result
      decreases |p.tokens| - p.cur
    {
      var _ := p.ConsumeToken();
      var name := TableName(p);
      if name.None? {
        return None;
      }
      if p.tokens[p.cur] != Symbol(COMMA) {
        return Some(list + [name.value]);
      }
      InFrontTwice(list, [name.value], ListOf(TableOf, p.Ahead()[1..]));
      list := list + [name.value];
    }
  }

  method Expressions(p: Parser) returns (r: Option<seq<Ast>>)
    requires p.Valid() && Shortens(ExprOf)
    modifies p`cur
    ensures Left(p, ListOf(ExprOf, old(p.Ahead())), r)
  {
    hide ExprOf;
    ghost var result := ListOf(ExprOf, p.Ahead());
    InFrontNothing(result);
    var list: seq<Ast> := [];
    while true
      invariant p.Valid() && InFront(list, ListOf(ExprOf, p.Ahead())) == result
      decreases |p.tokens| - p.cur
    {
      var e := Expression(p);
      if e.None? {
        return None;
      }
      var comma := p.ConsumeIf(Symbol(COMMA));
      if !comma {
        return Some(list + [e.value]);
      }
      InFrontTwice(list, [e.value], ListOf(ExprOf, p.Ahead()));
      list := list + [e.value];
    }
  }

  method WhereClause(p: Parser, word: string) returns (r: Option<Option<Ast>>)
    requires p.Valid() && Shortens(ExprOf)
    modifies p`cur
    ensures Left(p, ClauseOf(word, ExprOf, old(p.Ahead())), r)
  {
    hide ExprOf;
    var there := p.ConsumeIf(Keyword(word));
    if !there {
      return Some(None);
    }
    var e := Expression(p);
    r := if e.None? then None else Some(e);
  }

  method GroupByClause(p: Parser) returns (r: Option<Option<Grouping>>)
    requires p.Valid() && Shortens(GroupOf)
    modifies p`cur
    ensures Left(p, ClauseOf("GROUP", GroupOf, old(p.Ahead())), r)
  {
    hide ExprOf, WindowOf;
    ReadersShorten();
    var there := p.ConsumeIf(Keyword("GROUP"));
    if !there {
      return Some(None);
    }
    var over := p.ConsumeIf(Keyword("OVER"));
    if over {
      var g := GroupOverClause(p);
      return if g.None? then None else Some(g);
    }
    var keys := p.ConsumeIf(Keyword("BY"));
    if !keys {
      return None;
    }
    var l := Expressions(p);
    r := if l.None? then None else Some(Some(ByExprs(l.value)));
  }

  method GroupOverClause(p: Parser) returns (r: Option<Grouping>)
    requires p.Valid()
    modifies p`cur
    ensures Left(p, WindowOf(old(p.Ahead())), r)
  {
    hide WindowTimeOf;
    ghost var ahead := p.Ahead();
    var word := p.ConsumeIf(Keyword("TIMEWINDOW"));
    if !word {
      return None;
    }
    var open := p.ConsumeIf(Symbol(LPAREN));
    if !open {
      return None;
    }
    assert p.Ahead() == ahead[2..];
    r := GroupOverWindow(p);
  }

  method GroupOverWindow(p: Parser) returns (r: Option<Grouping>)
    requires p.Valid()
    modifies p`cur
    ensures Left(p, WindowTimeOf(old(p.Ahead())), r)
  {
    hide ValueExprOf, WindowEndOf;
    var time := ExpectAndConsumeValueExpr(p);
    if time.None? {
      return None;
    }
    var comma := p.ConsumeIf(Symbol(COMMA));
    if !comma {
      return None;
    }
    var window := ExpectAndConsumeValueExpr(p);
    if window.None? {
      return None;
    }
    r := GroupOverEnd(p, time.value, window.value);
  }

  method GroupOverEnd(p: Parser, time: Ast, window: Ast) returns (r: Option<Grouping>)
    requires p.Valid()
    modifies p`cur
    ensures Left(p, WindowEndOf(time, window, old(p.Ahead())), r)
  {
    hide StepOf, WindowKeysOf;
    var step := WindowStep(p);
    if step.None? {
      return None;
    }
    var close := p.ConsumeIf(Symbol(RPAREN));
    if !close {
      return None;
    }
    r := WindowKeys(p, time, window, step.value);
  }

  method WindowStep(p: Parser) returns (r: Option<Option<Ast>>)
    requires p.Valid()
    modifies p`cur
    ensures Left(p, StepOf(old(p.Ahead())), r)
  {
    hide ValueExprOf;
    var comma := p.ConsumeIf(Symbol(COMMA));
    if !comma {
      return Some(None);
    }
    var e := ExpectAndConsumeValueExpr(p);
    r := if e.None? then None else Some(e);
  }

  method WindowKeys(p: Parser, time: Ast, window: Ast, step: Option<Ast>) returns (r: Option<Grouping>)
    requires p.Valid()
    modifies p`cur
    ensures Left(p, WindowKeysOf(time, window, step, old(p.Ahead())), r)
  {
    hide ExprOf, ListOf;
    ReadersShorten();
    var keys := p.ConsumeIf(Keyword("BY"));
    if !keys {
      return Some(OverWindow(time, window, step, []));
    }
    var l := Expressions(p);
    r := if l.None? then None else Some(OverWindow(time, window, step, l.value));
  }

  method OrderByClause(p: Parser) returns (r: Option<Option<seq<Sort>>>)
    requires p.Valid() && Shortens(OrderOf)
    modifies p`cur
    ensures Left(p, ClauseOf("ORDER", OrderOf, old(p.Ahead())), r)
  {
    hide SortOf, ListOf;
    ReadersShorten();
    var there := p.ConsumeIf(Keyword("ORDER"));
    if !there {
      return Some(None);
    }
    var keys := p.ConsumeIf(Keyword("BY"));
    if !keys {
      return None;
    }
    var l := SortSpecs(p);
    r := if l.None? then None else Some(l);
  }

  method SortSpecs(p: Parser) returns (r: Option<seq<Sort>>)
    requires p.Valid() && Shortens(SortOf)
    modifies p`cur
    ensures Left(p, ListOf(SortOf, old(p.Ahead())), r)
  {
    hide SortOf;
    ghost var result := ListOf(SortOf, p.Ahead());
    InFrontNothing(result);
    var list: seq<Sort> := [];
    while true
      invariant p.Valid() && InFront(list, ListOf(SortOf, p.Ahead())) == result
      decreases |p.tokens| - p.cur
    {
      var spec := SortSpec(p);
      if spec.None? {
        return None;
      }
      var comma := p.ConsumeIf(Symbol(COMMA));
      if !comma {
        return Some(list + [spec.value]);
      }
      InFrontTwice(list, [spec.value], ListOf(SortOf, p.Ahead()));
      list := list + [spec.value];
    }
  }

  method SortSpec(p: Parser) returns (r: Option<Sort>)
    requires p.Valid()
    modifies p`cur
    ensures Left(p, SortOf(old(p.Ahead())), r)
  {
    hide ExprOf;
    var e := Expression(p);
    if e.None? {
      return None;
    }
    if p.tokens[p.cur] == Keyword("ASC") || p.tokens[p.cur] == Keyword("DESC") {
      var order := p.ConsumeToken();
      r := Some(Sort(e.value, Some(order.word)));
    } else {
      r := Some(Sort(e.value, None));
    }
  }

  method LimitClause(p: Parser) returns (r: Option<Option<Limit>>)
    requires p.Valid() && Shortens(LimitOf)
    modifies p`cur
    ensures Left(p, ClauseOf("LIMIT", LimitOf, old(p.Ahead())), r)
  {
    var there := p.ConsumeIf(Keyword("LIMIT"));
    if !there {
      return Some(None);
    }
    if !p.tokens[p.cur].Numeric? {
      return None;
    }
    var limit := p.ConsumeToken();
    var more := p.ConsumeIf(Keyword("OFFSET"));
    if !more {
      return Some(Some(Limit(limit.text, None)));
    }
    if !p.tokens[p.cur].Numeric? {
      return None;
    }
    var offset := p.ConsumeToken();
    r := Some(Some(Limit(limit.text, Some(offset.text))));
  }

  /** Behind SELECT. */
  method SelectStatement(p: Parser) returns (r: Option<Select>)
    requires p.Valid()
    modifies p`cur
    ensures Left(p, SelectOf(old(p.Ahead())), r)
  {
    hide SelectListOf, FromOf, ClausesOf;
    var list := SelectList(p);
    if list.None? {
      return None;
    }
    var from: Option<seq<string>> := None;
    if p.tokens[p.cur] != Symbol(SEMICOLON) {
      from := FromClause(p);
      if from.None? {
        return None;
      }
    } else {
      NoFrom(p.Ahead());
    }
    r := Clauses(p, list.value, from);
  }

  lemma {:induction false} NoFrom(ts: seq<Token>)
    requires Head(ts) == Symbol(SEMICOLON)
    ensures FromOf(ts) == Done(None, ts)
  {
  }

  method Clauses(p: Parser, list: seq<Item>, from: Option<seq<string>>) returns (r: Option<Select>)
    requires p.Valid()
    modifies p`cur
    ensures Left(p, ClausesOf(list, from, old(p.Ahead())), r)
  {
    hide ExprOf, GroupOf, ClauseOf, LastClausesOf;
    ClausesShorten();
    var filter := WhereClause(p, "WHERE");
    if filter.None? {
      return None;
    }
    var group := GroupByClause(p);
    if group.None? {
      return None;
    }
    var having := WhereClause(p, "HAVING");
    if having.None? {
      return None;
    }
    r := LastClauses(p, Select(list, from, filter.value, group.value, having.value, None, None));
  }

  method LastClauses(p: Parser, s: Select) returns (r: Option<Select>)
    requires p.Valid()
    modifies p`cur
    ensures Left(p, LastClausesOf(s, old(p.Ahead())), r)
  {
    hide OrderOf, LimitOf, ClauseOf;
    ClausesShorten();
    var order := OrderByClause(p);
    if order.None? {
      return None;
    }
    var limit := LimitClause(p);
    if limit.None? {
      return None;
    }
    var _ := p.ConsumeIf(Symbol(SEMICOLON));
    r := Some(s.(order := order.value, limit := limit.value));
  }

  // ------------------------------------------------------------------
  // DRAW
  // ------------------------------------------------------------------

  predicate IsOneOf(t: Token, words: seq<string>) {
    t.Keyword? && t.word in words
  }

  const CHARTS := ["AREACHART", "BARCHART", "HEATMAP", "HISTOGRAM", "POINTCHART", "LINECHART"]
  const POSITIONS := ["TOP", "RIGHT", "BOTTOM", "LEFT"]

  method ExpectOneOf(p: Parser, words: seq<string>) returns (ok: bool)
    requires p.Valid()
    modifies p`cur
    ensures p.Valid() && ok == IsOneOf(Head(old(p.Ahead())), words)
    ensures p.cur == old(p.cur) + if ok then 1 else 0
  {
    ok := IsOneOf(p.tokens[p.cur], words);
    if ok {
      var _ := p.ConsumeToken();
    }
  }

  /** Behind DRAW. Every property takes at least one token, and at the end marker there is none. */
  method DrawStatement(p: Parser) returns (ok: bool)
    requires p.Valid()
    modifies p`cur
    ensures ok ==> p.Valid() && p.cur > old(p.cur)
  {
    ok := ExpectOneOf(p, CHARTS);
    if !ok {
      return;
    }
    var _ := p.ConsumeIf(Keyword("WITH"));
    while p.tokens[p.cur] != Symbol(SEMICOLON)
      invariant ok && p.Valid() && p.cur > old(p.cur)
      decreases |p.tokens| - p.cur
    {
      ok := ChartProperty(p);
      if !ok {
        return;
      }
    }
    var _ := p.ConsumeToken();
  }

  method ChartProperty(p: Parser) returns (ok: bool)
    requires p.Valid()
    modifies p`cur
    ensures ok ==> p.Valid() && p.cur > old(p.cur)
  {
    var t := p.tokens[p.cur];
    ok := t.Keyword?;
    if !ok {
      return;
    }
    if t.word == "AXIS" {
      ok := AxisClause(p);
    } else if t.word in ["XDOMAIN", "YDOMAIN", "ZDOMAIN"] {
      ok := DomainClause(p);
    } else if t.word == "LEGEND" {
      ok := LegendClause(p);
    } else if t.word == "GRID" {
      var _ := p.ConsumeToken();
      for i := 0 to 2
        invariant p.Valid() && p.cur > old(p.cur)
      {
        var _ := ExpectOneOf(p, ["HORIZONTAL", "VERTICAL"]);
      }
    } else if t.word == "ORIENTATION" {
      var _ := p.ConsumeToken();
      ok := ExpectOneOf(p, ["HORIZONTAL", "VERTICAL"]);
    } else if t.word == "STACKED" || t.word == "LABELS" {
      var _ := p.ConsumeToken();
    } else if t.word == "TITLE" || t.word == "SUBTITLE" {
      ok := TitleProperty(p);
    } else {
      ok := false;
    }
  }

  /** A word and an expression. */
  method TitleProperty(p: Parser) returns (ok: bool)
    requires p.Valid() && p.tokens[p.cur].Keyword?
    modifies p`cur
    ensures ok ==> p.Valid() && p.cur > old(p.cur)
  {
    hide ValueExprOf;
    var _ := p.ConsumeToken();
    var e := ExpectAndConsumeValueExpr(p);
    ok := e.Some?;
  }

  method AxisClause(p: Parser) returns (ok: bool)
    requires p.Valid() && p.tokens[p.cur].Keyword?
    modifies p`cur
    ensures ok ==> p.Valid() && p.cur > old(p.cur)
  {
    var _ := p.ConsumeToken();
    ok := ExpectOneOf(p, POSITIONS);
    while ok && (p.tokens[p.cur] == Keyword("TITLE") || p.tokens[p.cur] == Keyword("TICKS"))
      invariant ok ==> p.Valid() && p.cur > old(p.cur)
      invariant p.cur < |p.tokens|
      decreases |p.tokens| - p.cur, ok
    {
      if p.tokens[p.cur] == Keyword("TITLE") {
        ok := TitleProperty(p);
      } else {
        ok := TicksProperty(p);
      }
      if !ok {
        return;
      }
    }
  }

  method TicksProperty(p: Parser) returns (ok: bool)
    requires p.Valid() && p.tokens[p.cur].Keyword?
    modifies p`cur
    ensures ok ==> p.Valid() && p.cur > old(p.cur)
  {
    var _ := p.ConsumeToken();
    ok := true;
    for i := 0 to 2
      invariant ok && p.Valid() && p.cur > old(p.cur)
    {
      var placed := ExpectOneOf(p, ["INSIDE", "OUTSIDE", "OFF"]);
      if !placed && p.tokens[p.cur] == Keyword("ROTATE") {
        ok := TitleProperty(p);
        if !ok {
          return;
        }
      }
    }
  }

  method DomainClause(p: Parser) returns (ok: bool)
    requires p.Valid() && p.tokens[p.cur].Keyword?
    modifies p`cur
    ensures ok ==> p.Valid() && p.cur > old(p.cur)
  {
    hide ExprOf, ValueExprOf;
    var _ := p.ConsumeToken();
    var min := Expression(p);
    ok := min.Some?;
    if ok && min.value != Missing {
      ok := p.ConsumeIf(Symbol(COMMA));
      if ok {
        var max := ExpectAndConsumeValueExpr(p);
        ok := max.Some?;
      }
    }
    if ok {
      var more := ExpectOneOf(p, ["INVERT", "LOGARITHMIC"]);
      if more {
        more := ExpectOneOf(p, ["INVERT", "LOGARITHMIC"]);
      }
    }
  }

  method LegendClause(p: Parser) returns (ok: bool)
    requires p.Valid() && p.tokens[p.cur].Keyword?
    modifies p`cur
    ensures ok ==> p.Valid() && p.cur > old(p.cur)
  {
    var _ := p.ConsumeToken();
    for i := 0 to 3
      invariant p.Valid() && p.cur > old(p.cur)
    {
      ok := ExpectOneOf(p, POSITIONS + ["INSIDE", "OUTSIDE"]);
      if !ok {
        return;
      }
    }
    ok := true;
    if p.tokens[p.cur] == Keyword("TITLE") {
      ok := TitleProperty(p);
    }
  }

  // ------------------------------------------------------------------
  // Queries
  // ------------------------------------------------------------------

  method ReadStatement(p: Parser) returns (r: Option<Statement>)
    requires p.Valid()
    modifies p`cur
    ensures Head(old(p.Ahead())) != Keyword("DRAW") ==> Left(p, StatementOf(old(p.Ahead())), r)
    ensures r.Some? ==> p.Valid() && p.cur > old(p.cur)
  {
    hide SelectOf, ExplainOf, ImportOf;
    var t := p.tokens[p.cur];
    if !t.Keyword? {
      return None;
    }
    if t.word == "SELECT" {
      var _ := p.ConsumeToken();
      var s := SelectStatement(p);
      r := if s.None? then None else Some(Query(s.value));
    } else if t.word == "SHOW" {
      var _ := p.ConsumeToken();
      var tables := p.ConsumeIf(Keyword("TABLES"));
      if tables {
        var _ := p.ConsumeIf(Symbol(SEMICOLON));
      }
      r := if tables then Some(ShowTables) else None;
    } else if t.word == "DESCRIBE" || t.word == "EXPLAIN" {
      var _ := p.ConsumeToken();
      r := ExplainStatement(p);
    } else if t.word == "IMPORT" {
      var _ := p.ConsumeToken();
      r := ImportStatement(p);
    } else if t.word == "DRAW" {
      var _ := p.ConsumeToken();
      var ok := DrawStatement(p);
      r := if ok then Some(Draw) else None;
    } else {
      r := None;
    }
  }

  method ExplainStatement(p: Parser) returns (r: Option<Statement>)
    requires p.Valid()
    modifies p`cur
    ensures Left(p, ExplainOf(old(p.Ahead())), r)
  {
    hide SelectOf, TableOf;
    var query := p.ConsumeIf(Keyword("SELECT"));
    if query {
      var s := SelectStatement(p);
      if s.None? {
        return None;
      }
      var _ := p.ConsumeIf(Symbol(SEMICOLON));
      return Some(Explain(s.value));
    }
    var table := TableName(p);
    if table.None? {
      return None;
    }
    var _ := p.ConsumeIf(Symbol(SEMICOLON));
    r := Some(Describe(table.value));
  }

  method ImportStatement(p: Parser) returns (r: Option<Statement>)
    requires p.Valid()
    modifies p`cur
    ensures Left(p, ImportOf(old(p.Ahead())), r)
  {
    hide TableOf, ImportFrom;
    var word := p.ConsumeIf(Keyword("TABLE"));
    if !word {
      return None;
    }
    var a := TableName(p);
    if a.None? {
      return None;
    }
    var comma := p.ConsumeIf(Symbol(COMMA));
    if !comma {
      r := ImportSource(p, [a.value]);
      return;
    }
    var b := TableName(p);
    if b.None? {
      return None;
    }
    r := ImportSource(p, [a.value, b.value]);
  }

  method ImportSource(p: Parser, tables: seq<string>) returns (r: Option<Statement>)
    requires p.Valid()
    modifies p`cur
    ensures Left(p, ImportFrom(tables, old(p.Ahead())), r)
  {
    hide ValueExprOf;
    var from := p.ConsumeIf(Keyword("FROM"));
    if !from {
      return None;
    }
    var e := ExpectAndConsumeValueExpr(p);
    if e.None? {
      return None;
    }
    var _ := p.ConsumeIf(Symbol(SEMICOLON));
    r := Some(Import(tables, e.value));
  }

  /** What is read from a query without DRAW. */
  function ReadOf(query: string): Option<seq<Statement>> {
    var tokens := Tokens(query);
    var r := StatementsOf(tokens + [Eof]);
    if tokens == [] || r.Failed? then None else Some(r.value)
  }

  /** Every query is read to its end or refused; every statement takes at least one token, and the
      cursor never passes the end marker. */
  method ParseQuery(query: string) returns (r: Option<seq<Statement>>)
    ensures Keyword("DRAW") !in Tokens(query) ==> r == ReadOf(query)
    ensures r.Some? ==> |r.value| <= |Tokens(query)|
  {
    hide StatementOf, Tokens;
    var tokens := TokenizeQuery(query);
    if tokens == [] {
      return None;
    }
    TokensNotEof(query);
    var p := new Parser(tokens + [Eof]);
    assert p.Ahead() == tokens + [Eof];
    ghost var result := StatementsOf(p.Ahead());
    InFrontNothing(result);
    var list: seq<Statement> := [];
    while p.tokens[p.cur] != Eof
      invariant p.Valid() && p.tokens == tokens + [Eof]
      invariant Keyword("DRAW") !in tokens ==> InFront(list, StatementsOf(p.Ahead())) == result
      invariant |list| <= p.cur
      decreases |p.tokens| - p.cur
    {
      assert p.tokens[p.cur] in tokens;
      var s := ReadStatement(p);
      if s.None? {
        return None;
      }
      InFrontTwice(list, [s.value], StatementsOf(p.Ahead()));
      list := list + [s.value];
    }
    assert list + [] == list;
    r := Some(list);
  }
}

/**
  Where building a plan never ends, and where a sort column keeps it from that: the statements that
  the condition is about.
  */
module PlanLimits {
  import opened Wrappers
  import P = SqlParser
  import S = SqlStatement
  import opened AstNode
  import opened SelectList
  import opened PlanPrepare
  import opened PlanStages
  import opened PlanBuilder
  import opened StatementPlan

  function OnlyList(list: seq<S.Item>, table: string, order: Option<seq<S.Sort>>): S.Select {
    S.Select(list, Some([table]), None, None, None, order, None)
  }

  /** `f(g(x)) WITHIN RECORD` */
  function NestedCall(f: string, g: string, x: string): P.Ast {
    P.Call(P.METHOD_CALL_WITHIN_RECORD, f, [P.Call(P.METHOD_CALL, g, [P.Column([x])])])
  }

  /** The tree of the call. */
  lemma {:induction false} NestedNode(f: string, g: string, x: string, isAggregate: string -> bool)
    requires isAggregate(g)
    ensures var n := ExprNode(NestedCall(f, g, x));
            && n.kind.METHOD_CALL_WITHIN_RECORD? && n.token == Some(P.Ident(f))
            && HasAggregation(n, isAggregate) && Nested(n, isAggregate)
  {
    var inner := ExprNode(P.Call(P.METHOD_CALL, g, [P.Column([x])]));
    assert HasAggregation(inner, isAggregate);
    assert ExprNode(NestedCall(f, g, x)).children == [inner];
  }

  lemma {:induction false} NestedIsWhole(f: string, g: string, x: string)
    ensures IsWhole(NestedCall(f, g, x))
  {
    var inner := P.Call(P.METHOD_CALL, g, [P.Column([x])]);
    assert IsWhole(P.Column([x]));
    assert IsWhole(inner);
  }

  /** A column of a list with a name. */
  function ItemWithAlias(n: Node): Node {
    NamedColumn(Plain(DERIVED_COLUMN, [n]))
  }

  lemma {:induction false} ItemHas(n: Node, isAggregate: string -> bool)
    ensures AnyAggregation([ItemWithAlias(n)], isAggregate) == HasAggregation(n, isAggregate)
    ensures AnyNested([ItemWithAlias(n)], isAggregate) == Nested(n, isAggregate)
  {
    var item := Plain(DERIVED_COLUMN, [n]);
    OnlyChild(item, n, isAggregate);
    NamedKeepsOne(item, isAggregate);
    assert [ItemWithAlias(n)][1..] == [];
  }

  lemma {:induction false} OneColumnNode(e: P.Ast, table: string, order: Option<seq<S.Sort>>)
    ensures var ast := SelectNode(OnlyList([S.Derived(e, None)], table, order));
            |ast.children| >= 2 && ast.children[0].children == [Plain(DERIVED_COLUMN, [ExprNode(e)])]
  {
    hide ExprNode, OrderNode, FromNode;
    assert [ExprNode(e)] + [] == [ExprNode(e)];
    assert ItemNodes([S.Derived(e, None)]) == [Plain(DERIVED_COLUMN, [ExprNode(e)])];
  }

  /** The statement prepared: its only column has a name. */
  lemma {:induction false} OneColumnPrepared(e: P.Ast, table: string, order: Option<seq<S.Sort>>, c: Catalog)
    requires IsWhole(e) && (order.Some? ==> AllWholeSorts(order.value))
    ensures var s := OnlyList([S.Derived(e, None)], table, order);
            var ast := SelectNode(s);
            && IsStatement(ast) && Prepared(ast, c.describe).Some?
            && var p := Prepared(ast, c.describe).value;
               && IsStatement(p) && SameClauses(ast, p) && |p.children| == |ast.children| >= 2
               && p.children[0].children == [ItemWithAlias(ExprNode(e))]
  {
    hide ExprNode, FromParser, Prepared, SelectNode, HasTables, Count, FirstOf, NamedColumn, SameClauses, IsWhole, AllWholeSorts;
    var s := OnlyList([S.Derived(e, None)], table, order);
    SelectIsStatement(s);
    OneColumnNode(e, table, order);
    PreparedWithoutWildcard(SelectNode(s), c.describe);
    PreparedStatement(SelectNode(s), c);
  }

  /** Grouping `f(g(x)) WITHIN RECORD` raises no error: it becomes a reference. */
  lemma {:induction false} NestedGroups(n: Node, ast: Node, isAggregate: string -> bool)
    requires IsStatement(ast) && !Has(ast.children, GROUP_BY)
    requires n.kind.METHOD_CALL_WITHIN_RECORD? && ast.children[0].children == [ItemWithAlias(n)]
    ensures GroupOf(ast, isAggregate).GroupStage?
  {
    hide FromParser;
    EntriesGroup(ast, isAggregate);
  }

  /** `SELECT f(g(x)) WITHIN RECORD FROM t` with an aggregate g: building never ends. */
  lemma {:induction false} NestedCallNeverEnds(f: string, g: string, x: string, table: string, c: Catalog)
    requires c.isAggregate(g)
    ensures var ast := SelectNode(OnlyList([S.Derived(NestedCall(f, g, x), None)], table, None));
            IsStatement(ast) && Loops(ast, c) && forall n: nat :: !Ends(ast, n, c)
  {
    hide ExprNode, FromParser, Prepared, Count, FirstOf, Has, GroupOf, HasAggregation, Nested, AnyNested, AnyAggregation,
         SelectNode, NestedCall;
    var e := NestedCall(f, g, x);
    NestedIsWhole(f, g, x);
    var s := OnlyList([S.Derived(e, None)], table, None);
    var ast := SelectNode(s);
    OneColumnPrepared(e, table, None, c);
    NestedNode(f, g, x, c.isAggregate);
    ItemHas(ExprNode(e), c.isAggregate);
    var p := Prepared(ast, c.describe).value;
    CountClauses(s, LIMIT);
    CountClauses(s, ORDER_BY);
    CountClauses(s, GROUP_BY);
    NoCount(p.children, LIMIT);
    NoCount(p.children, ORDER_BY);
    NoCount(p.children, GROUP_BY);
    NestedGroups(ExprNode(e), p, c.isAggregate);
    forall n: nat ensures !Ends(ast, n, c) {
      LoopNeverEnds(ast, n, c);
    }
  }

  // ------------------------------------------------------------------
  // Sort columns that are found
  // ------------------------------------------------------------------

  /** Every column to sort by has the name of a column of the list. */
  ghost predicate AllFound(list: seq<Node>, specs: seq<Node>) {
    forall i :: 0 <= i < |specs| ==> exists j :: 0 <= j < |list| && IsAlias(list[j], NameOf(SortColumn(specs[i])))
  }

  lemma {:induction false} AliasFound(list: seq<Node>, name: string)
    requires exists j :: 0 <= j < |list| && IsAlias(list[j], name)
    ensures AliasPlace(list, name) < |list|
  {
    if list != [] && !IsAlias(list[0], name) {
      AliasFound(list[1..], name);
    }
  }

  /** Then nothing is appended to the list, whatever expressions the columns are. */
  lemma {:induction false} FoundColumnsAddNothing(list: seq<Node>, specs: seq<Node>)
    requires AllFound(list, specs)
    ensures SortBy(list, specs).list == list
    decreases |specs|
  {
    hide IsAlias, AliasPlace;
    if specs != [] {
      AliasFound(list, NameOf(SortColumn(specs[0])));
      FoundColumnsAddNothing(list, specs[1..]);
    }
  }

  /** A selected column has its own name, so sorting by it appends nothing. */
  lemma {:induction false} ColumnIsItsAlias(x: string)
    ensures IsAlias(ItemWithAlias(ExprNode(P.Column([x]))), x)
  {
    assert ExprNode(P.Column([x])) == Node(COLUMN_NAME, Some(P.Ident(x)), None, []);
    assert ExprNames([]) == [] && [x] + [] == [x];
  }

  /** The call has the name of the only column. */
  lemma {:induction false} CallIsFound(f: string, g: string, x: string)
    ensures var list := [ItemWithAlias(ExprNode(P.Column([f])))];
            SortBy(list, [SortNode(S.Sort(NestedCall(f, g, x), None))]).list == list
  {
    hide SortBy, IsAlias, ItemWithAlias;
    var list, specs := [ItemWithAlias(ExprNode(P.Column([f])))], [SortNode(S.Sort(NestedCall(f, g, x), None))];
    ColumnIsItsAlias(f);
    assert NameOf(SortColumn(specs[0])) == f;
    assert AllFound(list, specs) by {
      assert IsAlias(list[0], NameOf(SortColumn(specs[0])));
    }
    FoundColumnsAddNothing(list, specs);
  }

  /** `SELECT f FROM t ORDER BY f(g(x)) WITHIN RECORD`: the call has the name of the column, so
      nothing is appended, and building ends. */
  lemma {:induction false} AliasStopsNesting(f: string, g: string, x: string, table: string, c: Catalog)
    ensures var ast := SelectNode(OnlyList([S.Derived(P.Column([f]), None)], table, Some([S.Sort(NestedCall(f, g, x), None)])));
            IsStatement(ast) && !Loops(Core(ast, c), c) && Ends(ast, 4, c)
  {
    hide FromParser, Prepared, Count, FirstOf, Has, GroupOf, HasAggregation, Nested, AnyNested, AnyAggregation,
         SelectNode, IsScan, IsExpressions, SortBy, HasTables, IsWhole, ItemWithAlias, NestedCall, ExprNode, IsAlias;
    var e := P.Column([f]);
    var order := [S.Sort(NestedCall(f, g, x), None)];
    ParsedWhole(f, g, x);
    var s := OnlyList([S.Derived(e, None)], table, Some(order));
    var ast := SelectNode(s);
    OneColumnPrepared(e, table, Some(order), c);
    ColumnHasNone(f, c.isAggregate);
    var p := Prepared(ast, c.describe).value;
    LimitAndOrder(s, LIMIT);
    LimitAndOrder(s, ORDER_BY);
    CountClauses(s, GROUP_BY);
    assert SortSpecs(p) == [SortNode(order[0])];
    CallIsFound(f, g, x);
    if NextStage(ast, c).OrderStage? {
      OrderDescends(p, c.isAggregate);
      var child := NextStage(ast, c).child;
      ChildCount(p, c);
      PlainEnds(child, c);
      assert Core(child, c) == child;
      OuterDescends(ast, c);
    } else {
      assert NextStage(ast, c).ErrorStage?;
    }
  }

  lemma {:induction false} ParsedWhole(f: string, g: string, x: string)
    ensures IsWhole(P.Column([f])) && IsWhole(NestedCall(f, g, x))
  {
    NestedIsWhole(f, g, x);
  }

  lemma {:induction false} ColumnHasNone(x: string, isAggregate: string -> bool)
    ensures var list := [ItemWithAlias(ExprNode(P.Column([x])))];
            !AnyAggregation(list, isAggregate) && !AnyNested(list, isAggregate)
  {
    var n := ExprNode(P.Column([x]));
    assert n == Node(COLUMN_NAME, Some(P.Ident(x)), None, []);
    ItemHas(n, isAggregate);
  }

  lemma {:induction false} ChildCount(ast: Node, c: Catalog)
    requires IsStatement(ast) && OrderOf(ast).OrderStage?
    ensures Count(OrderOf(ast).child.children, GROUP_BY) == Count(ast.children, GROUP_BY)
    ensures FirstOf(OrderOf(ast).child.children, LIMIT) == FirstOf(ast.children, LIMIT)
  {
    OrderChild(ast, c.isAggregate);
  }

  /** Without aggregates and clauses the statement is a leaf. */
  lemma {:induction false} PlainEnds(ast: Node, c: Catalog)
    requires IsStatement(ast) && !AnyAggregation(ast.children[0].children, c.isAggregate)
    requires LimitOf(ast).NoStage? && !Has(ast.children, ORDER_BY) && Count(ast.children, GROUP_BY) == 0
    ensures NextStage(ast, c).LeafStage? || NextStage(ast, c).ErrorStage?
    ensures Ends(ast, 1, c) && !Loops(ast, c)
  {
    hide FromParser, Prepared, Count, FirstOf, Has, AnyAggregation, IsScan, IsExpressions, GroupOf, LimitOf, OrderOf, HasTables;
    NoClauseNoStage(ast, c);
    if Prepared(ast, c.describe).Some? {
      PreparedStatement(ast, c);
      PreparedKeepsAny(ast, c);
      NoCount(Prepared(ast, c.describe).value.children, GROUP_BY);
    }
  }
}

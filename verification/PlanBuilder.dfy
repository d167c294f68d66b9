/**
  Building the plan of a SELECT statement: one clause after the other becomes a node of the
  plan, and the rest of the statement is built as its child.
  */
module PlanBuilder {
  import opened Wrappers
  import opened AstNode
  import opened SelectList
  import opened PlanPrepare
  import opened PlanStages
  import P = SqlParser

  datatype Plan =
    | LimitPlan(limit: nat, offset: nat, child: Plan)
    | OrderPlan(sorts: seq<Sort>, width: nat, child: Plan)
    | GroupPlan(selects: seq<Node>, groups: seq<Node>, child: Plan)
    | LeafPlan(leaf: Leaf)

  /** How far out a node belongs: Limit outside OrderBy outside GroupBy outside a leaf. */
  function Rank(p: Plan): nat {
    match p
    case LimitPlan(_, _, _) => 3
    case OrderPlan(_, _, _) => 2
    case GroupPlan(_, _, _) => 1
    case LeafPlan(_) => 0
  }

  ghost predicate IsNested(p: Plan) {
    !p.LeafPlan? ==> Rank(p.child) < Rank(p) && IsNested(p.child)
  }

  /** The number of columns that a plan puts out. */
  function Width(p: Plan): nat {
    match p
    case LimitPlan(_, _, child) => Width(child)
    case OrderPlan(_, width, _) => width
    case GroupPlan(selects, _, _) => |selects|
    case LeafPlan(leaf) => |leaf.selects|
  }

  /** Every column to sort by is a column of the child. */
  ghost predicate SortsInside(p: Plan) {
    match p
    case LimitPlan(_, _, child) => SortsInside(child)
    case OrderPlan(sorts, _, child) =>
      SortsInside(child) && forall i :: 0 <= i < |sorts| ==> sorts[i].column < Width(child)
    case GroupPlan(_, _, child) => SortsInside(child)
    case LeafPlan(_) => true
  }

  /** No aggregate is nested in a WITHIN RECORD call. */
  ghost predicate IsCalm(ast: Node, isAggregate: string -> bool)
    requires IsSelect(ast)
  {
    && !AnyNested(ast.children[0].children, isAggregate)
    && !AnyNested(SortColumns(SortSpecs(ast)), isAggregate)
    && !AnyNested(GroupExpressions(ast), isAggregate)
  }

  // ------------------------------------------------------------------
  // Preparing changes nothing but the list
  // ------------------------------------------------------------------

  lemma {:induction false} ExpandedKeepsAny(
    list: seq<Node>, i: nat, n: nat, columns: Option<seq<Node>>, isAggregate: string -> bool)
    requires AllFromParser(list)
    requires columns.Some? ==>
               && AllFromParser(columns.value)
               && !AnyAggregation(columns.value, isAggregate) && !AnyNested(columns.value, isAggregate)
    ensures var r := ExpandedFrom(list, i, n, columns);
            r.Some? ==>
              && AnyAggregation(r.value, isAggregate) == AnyAggregation(list, isAggregate)
              && AnyNested(r.value, isAggregate) == AnyNested(list, isAggregate)
    decreases if i < n then n - i else 0
  {
    hide FromParser, AnyAggregation, AnyNested;
    if i < n && i < |list| {
      if !list[i].kind.ALL? {
        ExpandedKeepsAny(list, i + 1, n, columns, isAggregate);
      } else if columns.Some? {
        var front, behind := list[..i], list[i + 1..];
        assert list == front + ([list[i]] + behind);
        AnyConcat(front, [list[i]] + behind, isAggregate);
        AnyConcat([list[i]], behind, isAggregate);
        WildcardHasNone(list[i], isAggregate);
        AnyConcat(front, behind, isAggregate);
        AnyConcat(front + behind, columns.value, isAggregate);
        ExpandedKeepsAny(front + behind + columns.value, i + 1, n, columns, isAggregate);
      }
    }
  }

  lemma {:induction false} WildcardHasNone(n: Node, isAggregate: string -> bool)
    requires FromParser(n) && n.kind.ALL?
    ensures !AnyAggregation([n], isAggregate) && !AnyNested([n], isAggregate)
  {
    assert AnyAggregation(n.children, isAggregate) == AnyNested(n.children, isAggregate) == false;
    assert [n][1..] == [];
  }

  lemma {:induction false} TableColumnsHaveNone(table: Node, columns: seq<string>, isAggregate: string -> bool)
    ensures var cs := TableColumns(table, columns);
            AllFromParser(cs) && !AnyAggregation(cs, isAggregate) && !AnyNested(cs, isAggregate)
    decreases columns
  {
    if columns != [] {
      TableColumnHasNone(table, columns[0], isAggregate);
      TableColumnFromParser(table, columns[0]);
      TableColumnsHaveNone(table, columns[1..], isAggregate);
      assert TableColumns(table, columns) == [TableColumn(table, columns[0])] + TableColumns(table, columns[1..]);
    }
  }

  lemma {:induction false} TableColumnHasNone(table: Node, column: string, isAggregate: string -> bool)
    ensures !HasAggregation(TableColumn(table, column), isAggregate) && !Nested(TableColumn(table, column), isAggregate)
  {
    var name := Node(COLUMN_NAME, Some(P.Ident(column)), None, []);
    var inside := Node(TABLE_NAME, table.token, None, [name]);
    OnlyChild(inside, name, isAggregate);
    assert !HasAggregation(Alias(column), isAggregate) && !Nested(Alias(column), isAggregate);
    AnyConcat([inside], [Alias(column)], isAggregate);
    assert TableColumn(table, column).children == [inside] + [Alias(column)];
    assert [Alias(column)][1..] == [];
  }

  lemma {:induction false} NamedKeepsAny(list: seq<Node>, isAggregate: string -> bool)
    ensures AnyAggregation(Named(list), isAggregate) == AnyAggregation(list, isAggregate)
    ensures AnyNested(Named(list), isAggregate) == AnyNested(list, isAggregate)
  {
    if list != [] {
      NamedKeepsOne(list[0], isAggregate);
      NamedKeepsAny(list[1..], isAggregate);
      assert Named(list)[1..] == Named(list[1..]);
    }
  }

  lemma {:induction false} NamedKeepsOne(d: Node, isAggregate: string -> bool)
    ensures HasAggregation(NamedColumn(d), isAggregate) == HasAggregation(d, isAggregate)
    ensures Nested(NamedColumn(d), isAggregate) == Nested(d, isAggregate)
  {
    if d.kind.DERIVED_COLUMN? && |d.children| == 1 {
      var alias := Alias(ExprName(d.children[0]));
      AnyConcat(d.children, [alias], isAggregate);
      assert !HasAggregation(alias, isAggregate) && !Nested(alias, isAggregate);
      assert [alias][1..] == [];
    }
  }

  ghost predicate SameClauses(a: Node, b: Node) {
    && Count(a.children, LIMIT) == Count(b.children, LIMIT)
    && Count(a.children, ORDER_BY) == Count(b.children, ORDER_BY)
    && Count(a.children, GROUP_BY) == Count(b.children, GROUP_BY)
    && FirstOf(a.children, LIMIT) == FirstOf(b.children, LIMIT)
    && FirstOf(a.children, ORDER_BY) == FirstOf(b.children, ORDER_BY)
    && FirstOf(a.children, GROUP_BY) == FirstOf(b.children, GROUP_BY)
  }

  lemma {:induction false} SameBehind(a: Node, b: Node)
    requires IsSelect(a) && IsSelect(b) && a.children[1..] == b.children[1..]
    ensures SameClauses(a, b)
  {
    hide Count, FirstOf;
    HeadIgnored(a.children, LIMIT);
    HeadIgnored(b.children, LIMIT);
    HeadIgnored(a.children, ORDER_BY);
    HeadIgnored(b.children, ORDER_BY);
    HeadIgnored(a.children, GROUP_BY);
    HeadIgnored(b.children, GROUP_BY);
  }

  lemma {:induction false} PreparedKeepsAny(ast: Node, c: Catalog)
    requires IsStatement(ast) && Prepared(ast, c.describe).Some?
    ensures var list, after := ast.children[0].children, Prepared(ast, c.describe).value.children[0].children;
            && AnyAggregation(after, c.isAggregate) == AnyAggregation(list, c.isAggregate)
            && AnyNested(after, c.isAggregate) == AnyNested(list, c.isAggregate)
  {
    hide AnyAggregation, AnyNested, FromParser;
    if |ast.children| > 1 {
      var list, from := ast.children[0].children, ast.children[1];
      var columns := WildcardColumns(from, c.describe);
      if columns.Some? {
        TableColumnsHaveNone(from.children[0], c.describe(NameOf(from.children[0])).value, c.isAggregate);
      }
      ListFromParser(ast);
      ExpandedKeepsAny(list, 0, |list|, columns, c.isAggregate);
      NamedKeepsAny(Expanded(list, from, c.describe).value, c.isAggregate);
    }
  }

  lemma {:induction false} ListFromParser(ast: Node)
    requires IsSelect(ast) && FromParser(ast)
    ensures AllFromParser(ast.children[0].children)
  {
    assert FromParser(ast.children[0]);
  }

  /** A statement that has been prepared is a statement with the same clauses. */
  lemma {:induction false} PreparedStatement(ast: Node, c: Catalog)
    requires IsStatement(ast) && Prepared(ast, c.describe).Some?
    ensures var p := Prepared(ast, c.describe).value;
            && IsStatement(p) && SameClauses(ast, p)
            && (IsCalm(p, c.isAggregate) <==> IsCalm(ast, c.isAggregate))
  {
    hide Count, FirstOf, AnyNested, Prepared;
    PreparedFromParser(ast, c.describe);
    PreparedKeepsAny(ast, c);
    var p := Prepared(ast, c.describe).value;
    SameBehind(ast, p);
    if |ast.children| > 1 {
      assert p.children[1] == p.children[1..][0] == ast.children[1];
    }
  }

  // ------------------------------------------------------------------
  // One stage
  // ------------------------------------------------------------------

  /** How many nodes the plan can have, by the kind of the outermost one that is left. */
  function StagesLeft(ast: Node, c: Catalog): nat
    requires IsSelect(ast)
  {
    match NextStage(ast, c)
    case LimitStage(_, _, _) => 3
    case OrderStage(_, _, _) => 2
    case GroupStage(_, _, _) => 1
    case _ => 0
  }

  /** A clause that is not there is no stage. */
  lemma {:induction false} NoClauseNoStage(ast: Node, c: Catalog)
    requires IsStatement(ast)
    ensures LimitOf(ast).NoStage? ==> !NextStage(ast, c).LimitStage?
    ensures LimitOf(ast).NoStage? && !Has(ast.children, ORDER_BY) ==> !NextStage(ast, c).OrderStage?
    ensures LimitOf(ast).NoStage? && Prepared(ast, c.describe).Some? ==>
              LimitOf(Prepared(ast, c.describe).value).NoStage?
    ensures !Has(ast.children, ORDER_BY) && Prepared(ast, c.describe).Some? ==>
              OrderOf(Prepared(ast, c.describe).value).NoStage?
  {
    hide Prepared, GroupOf, NeedsGroup, IsScan, IsExpressions, Count, FirstOf, FromParser, HasTables, SortBy, CanSort, Erased, AllCopies;
    if Prepared(ast, c.describe).Some? {
      PreparedStatement(ast, c);
    }
  }

  lemma {:induction false} SameLimit(a: Node, b: Node)
    requires LimitOf(a).NoStage?
    requires FirstOf(b.children, LIMIT) == FirstOf(a.children, LIMIT) && |b.children| <= |a.children|
    ensures LimitOf(b).NoStage?
  {
  }

  lemma {:induction false} LimitDescends(ast: Node, isAggregate: string -> bool)
    requires IsStatement(ast) && LimitOf(ast).LimitStage?
    ensures var child := LimitOf(ast).child;
            && IsChild(ast, ast.kind, ast.children[0].children, LIMIT, child)
            && LimitOf(child).NoStage?
            && (IsCalm(ast, isAggregate) ==> IsCalm(child, isAggregate))
  {
    LimitChild(ast);
    hide AnyNested, Count, FromParser, HasTables;
  }

  lemma {:induction false} OrderDescends(ast: Node, isAggregate: string -> bool)
    requires IsStatement(ast) && LimitOf(ast).NoStage? && OrderOf(ast).OrderStage?
    ensures var child := OrderOf(ast).child;
            && IsStatement(child) && LimitOf(child).NoStage? && !Has(child.children, ORDER_BY)
            && child.children[0].children == SortBy(ast.children[0].children, SortSpecs(ast)).list
            && (IsCalm(ast, isAggregate) ==> IsCalm(child, isAggregate))
            && (forall i :: 0 <= i < |OrderOf(ast).sorts| ==>
                  OrderOf(ast).sorts[i].column < |child.children[0].children|)
  {
    OrderChild(ast, isAggregate);
    hide OrderOf, LimitOf, AnyNested, SortBy, Has, FirstOf, Count, SortSpecs, SortColumns, FromParser, HasTables;
    var child := OrderOf(ast).child;
    SameLimit(ast, child);
    NothingToSortBy(child, isAggregate);
  }

  lemma {:induction false} NothingToSortBy(child: Node, isAggregate: string -> bool)
    requires IsSelect(child) && !Has(child.children, ORDER_BY)
    ensures !AnyNested(SortColumns(SortSpecs(child)), isAggregate)
  {
  }

  // ------------------------------------------------------------------
  // The child of a grouping
  // ------------------------------------------------------------------

  /** What a grouping asks of its child: a WITHIN RECORD call or a column. */
  ghost predicate IsEntry(e: Node) {
    && e.kind.DERIVED_COLUMN? && e.children != []
    && (e.children[0].kind.METHOD_CALL_WITHIN_RECORD? || e.children[0].kind.COLUMN_NAME?)
  }

  ghost predicate AllEntries(list: seq<Node>) {
    forall i :: 0 <= i < |list| ==> IsEntry(list[i])
  }

  lemma {:induction false} RewriteMakesEntries(
    n: Node, list: seq<Node>, inAggregation: bool, isAggregate: string -> bool)
    requires AllEntries(list)
    ensures var r := Rewrite(n, list, inAggregation, isAggregate); r.Split? ==> AllEntries(r.list)
    decreases n
  {
    if !n.kind.METHOD_CALL_WITHIN_RECORD? && !n.kind.COLUMN_NAME? {
      RewriteAllMakesEntries(n.children, list, Inside(n, inAggregation, isAggregate), isAggregate);
    }
  }

  lemma {:induction false} RewriteAllMakesEntries(
    ns: seq<Node>, list: seq<Node>, inAggregation: bool, isAggregate: string -> bool)
    requires AllEntries(list)
    ensures var r := RewriteAll(ns, list, inAggregation, isAggregate); r.SplitAll? ==> AllEntries(r.list)
    decreases ns
  {
    hide Rewrite, AllEntries;
    if ns != [] {
      RewriteMakesEntries(ns[0], list, inAggregation, isAggregate);
      var first := Rewrite(ns[0], list, inAggregation, isAggregate);
      if first.Split? {
        RewriteAllMakesEntries(ns[1..], first.list, inAggregation, isAggregate);
      }
    }
  }

  /** An entry, grouped once more, is a reference, and that can be built. */
  lemma {:induction false} RewriteEntry(e: Node, list: seq<Node>, isAggregate: string -> bool)
    requires IsEntry(e)
    ensures var r := Rewrite(e, list, false, isAggregate); r.Split? ==> CanBuildItem(r.node)
  {
    hide Place;
    var r := RewriteAll(e.children, list, false, isAggregate);
    if r.SplitAll? {
      var first := Rewrite(e.children[0], list, false, isAggregate);
      assert r.nodes[0] == first.node;
    }
  }

  lemma {:induction false} RewriteEntries(es: seq<Node>, list: seq<Node>, isAggregate: string -> bool)
    requires AllEntries(es)
    ensures var r := RewriteAll(es, list, false, isAggregate); r.SplitAll? ==> CanBuildItems(r.nodes)
    decreases es
  {
    hide Rewrite, IsEntry, CanBuildItem;
    if es != [] {
      RewriteEntry(es[0], list, isAggregate);
      var first := Rewrite(es[0], list, false, isAggregate);
      if first.Split? {
        RewriteEntries(es[1..], first.list, isAggregate);
      }
    }
  }

  lemma {:induction false} NamedEntries(list: seq<Node>)
    requires AllEntries(list)
    ensures AllEntries(Named(list)) && NoWildcard(list)
  {
  }

  /** The child of a grouping can always be grouped. */
  lemma {:induction false} EntriesGroup(ast: Node, isAggregate: string -> bool)
    requires IsStatement(ast) && !Has(ast.children, GROUP_BY) && AllEntries(ast.children[0].children)
    ensures GroupOf(ast, isAggregate).GroupStage?
  {
    hide RewriteAll, AllEntries, CanBuildItems;
    var list := ast.children[0].children;
    ListFromParser(ast);
    CopiesAreSame(list);
    RewriteAllInherits(list, [], false, isAggregate);
    RewriteEntries(list, [], isAggregate);
    var inner := RewriteAll(list, [], false, isAggregate).list;
    NothingRewritten(inner, isAggregate);
  }

  lemma {:induction false} NothingRewritten(list: seq<Node>, isAggregate: string -> bool)
    ensures RewriteAll([], list, false, isAggregate) == SplitAll([], list) && AllCopies([]) == []
  {
  }

  /** What makes the grouping come back in the child. */
  ghost predicate Renews(ast: Node, isAggregate: string -> bool)
    requires IsSelect(ast)
  {
    && (AnyNested(ast.children[0].children, isAggregate) || AnyNested(GroupExpressions(ast), isAggregate))
    && |ast.children| - Count(ast.children, GROUP_BY) >= 2
  }

  lemma {:induction false} GroupChildEntries(ast: Node, isAggregate: string -> bool)
    requires IsStatement(ast) && GroupOf(ast, isAggregate).GroupStage?
    ensures var child := GroupOf(ast, isAggregate).child; IsSelect(child) && AllEntries(child.children[0].children)
  {
    GroupChild(ast, isAggregate);
    hide AnyNested, AnyAggregation, RewriteAll, AllEntries, SameBut, FromParser;
    var selects := RewriteAll(AllCopies(ast.children[0].children), [], false, isAggregate);
    NoEntries();
    RewriteAllMakesEntries(AllCopies(ast.children[0].children), [], false, isAggregate);
    RewriteAllMakesEntries(AllCopies(GroupExpressions(ast)), selects.list, false, isAggregate);
    GroupChildList(ast, isAggregate);
  }

  lemma {:induction false} NoEntries()
    ensures AllEntries([])
  {
  }

  lemma {:induction false} GroupChildList(ast: Node, isAggregate: string -> bool)
    requires IsStatement(ast) && GroupOf(ast, isAggregate).GroupStage?
    ensures var selects := RewriteAll(AllCopies(ast.children[0].children), [], false, isAggregate);
            var groups := RewriteAll(AllCopies(GroupExpressions(ast)), selects.list, false, isAggregate);
            && selects.SplitAll? && groups.SplitAll?
            && GroupOf(ast, isAggregate).child.children != []
            && GroupOf(ast, isAggregate).child.children[0].children == groups.list
  {
    hide AnyNested, AnyAggregation, RewriteAll, AllCopies;
    var selects := RewriteAll(AllCopies(ast.children[0].children), [], false, isAggregate);
    var groups := RewriteAll(AllCopies(GroupExpressions(ast)), selects.list, false, isAggregate);
    var cs := [Plain(SELECT_LIST, groups.list)] + AllCopies(ast.children[1..]);
    assert cs[0].kind != GROUP_BY;
  }

  /** The child of a grouping is a grouping again exactly if an aggregate is nested in a WITHIN
      RECORD call and the child still reads from a table; and then it comes back again. */
  lemma {:induction false} GroupDescends(ast: Node, c: Catalog)
    requires IsStatement(ast) && StageOf(ast, c.isAggregate).GroupStage?
    ensures var child := GroupOf(ast, c.isAggregate).child;
            && IsStatement(child) && AllEntries(child.children[0].children)
            && !Has(child.children, ORDER_BY) && !Has(child.children, GROUP_BY)
            && (if Renews(ast, c.isAggregate) then
                  && Prepared(child, c.describe).Some? && NextStage(child, c).GroupStage?
                  && Renews(Prepared(child, c.describe).value, c.isAggregate)
                else NextStage(child, c).LeafStage? || NextStage(child, c).ErrorStage?)
  {
    GroupChild(ast, c.isAggregate);
    GroupChildEntries(ast, c.isAggregate);
    hide AnyNested, AnyAggregation, RewriteAll, AllEntries, FromParser, Count, FirstOf, Has, Prepared, GroupOf, OrderOf;
    var child := GroupOf(ast, c.isAggregate).child;
    SameLimit(ast, child);
    NothingSorted(ast, child);
    NoCount(child.children, GROUP_BY);
    NoClauseNoStage(child, c);
    NamedEntries(child.children[0].children);
    PreparedWithoutWildcard(child, c.describe);
    PreparedStatement(child, c);
    PreparedKeepsAny(child, c);
    var p := Prepared(child, c.describe).value;
    NoCount(p.children, GROUP_BY);
    if Renews(ast, c.isAggregate) {
      EntriesGroup(p, c.isAggregate);
    }
  }

  lemma {:induction false} NothingSorted(ast: Node, child: Node)
    requires IsSelect(ast) && OrderOf(ast).NoStage? && Count(child.children, ORDER_BY) == Count(ast.children, ORDER_BY)
    requires |ast.children| >= 2
    ensures !Has(child.children, ORDER_BY)
  {
    NoCount(ast.children, ORDER_BY);
    NoCount(child.children, ORDER_BY);
  }

  // ------------------------------------------------------------------
  // Termination
  // ------------------------------------------------------------------

  /** Building comes to a leaf or an error within so many steps. */
  ghost predicate Ends(ast: Node, n: nat, c: Catalog)
    decreases n
  {
    n > 0
    && (IsSelect(ast) ==>
          match NextStage(ast, c)
          case LimitStage(_, _, child) => Ends(child, n - 1, c)
          case OrderStage(_, _, child) => Ends(child, n - 1, c)
          case GroupStage(_, _, child) => Ends(child, n - 1, c)
          case LeafStage(_) => true
          case ErrorStage => true)
  }

  /** The children of limit and order have fewer stages left. */
  lemma {:induction false} OuterDescends(ast: Node, c: Catalog)
    requires IsStatement(ast) && (NextStage(ast, c).LimitStage? || NextStage(ast, c).OrderStage?)
    ensures IsStatement(NextStage(ast, c).child)
    ensures StagesLeft(NextStage(ast, c).child, c) < StagesLeft(ast, c)
    ensures IsCalm(ast, c.isAggregate) ==> IsCalm(NextStage(ast, c).child, c.isAggregate)
  {
    hide GroupOf, OrderOf, LimitOf, Prepared, IsCalm, NeedsGroup, IsScan, IsExpressions, Has, SortBy, SortSpecs;
    PreparedStatement(ast, c);
    var p := Prepared(ast, c.describe).value;
    if NextStage(ast, c).LimitStage? {
      LimitDescends(p, c.isAggregate);
    } else {
      OrderDescends(p, c.isAggregate);
    }
    NoClauseNoStage(NextStage(ast, c).child, c);
  }

  /** The statement behind the limit and the order. */
  ghost function Core(ast: Node, c: Catalog): (core: Node)
    requires IsStatement(ast)
    ensures IsStatement(core)
    decreases StagesLeft(ast, c)
  {
    hide FromParser, HasTables, NextStage, StagesLeft;
    var s := NextStage(ast, c);
    if s.LimitStage? || s.OrderStage? then
      OuterDescends(ast, c);
      Core(s.child, c)
    else ast
  }

  /** A grouping that comes back in its own child. */
  ghost predicate Loops(ast: Node, c: Catalog)
    requires IsSelect(ast)
  {
    NextStage(ast, c).GroupStage? && Renews(Prepared(ast, c.describe).value, c.isAggregate)
  }

  lemma {:induction false} LoopNeverEnds(ast: Node, n: nat, c: Catalog)
    requires IsStatement(ast) && Loops(ast, c)
    ensures !Ends(ast, n, c)
    decreases n
  {
    hide GroupOf, OrderOf, LimitOf, AnyNested, Prepared, FromParser, HasTables, Renews, NeedsGroup, IsScan, IsExpressions;
    if n > 0 {
      PreparedStatement(ast, c);
      var p := Prepared(ast, c.describe).value;
      GroupDescends(p, c);
      LoopNeverEnds(GroupOf(p, c.isAggregate).child, n - 1, c);
    }
  }

  /** Building a statement ends, within five steps, exactly if the statement behind the limit and
      the order is not a grouping with an aggregate nested in a WITHIN RECORD call. */
  lemma {:induction false} BuildEndsIff(ast: Node, c: Catalog)
    requires IsStatement(ast)
    ensures !Loops(Core(ast, c), c) ==> Ends(ast, 2 + StagesLeft(ast, c), c)
    ensures Loops(Core(ast, c), c) ==> forall n: nat :: !Ends(ast, n, c)
    decreases StagesLeft(ast, c), 1
  {
    hide GroupOf, OrderOf, LimitOf, AnyNested, Prepared, FromParser, HasTables, Renews, NeedsGroup, IsScan, IsExpressions;
    var s := NextStage(ast, c);
    if s.LimitStage? || s.OrderStage? {
      OuterDescends(ast, c);
      StepEnds(ast, s.child, c);
    } else if s.GroupStage? {
      if Loops(ast, c) {
        forall n: nat ensures !Ends(ast, n, c) {
          LoopNeverEnds(ast, n, c);
        }
      } else {
        PreparedStatement(ast, c);
        GroupDescends(Prepared(ast, c.describe).value, c);
        assert Ends(s.child, 2, c);
      }
    }
  }

  lemma {:induction false} StepEnds(ast: Node, child: Node, c: Catalog)
    requires IsStatement(ast) && IsStatement(child)
    requires var s := NextStage(ast, c); (s.LimitStage? || s.OrderStage?) && s.child == child
    requires StagesLeft(child, c) < StagesLeft(ast, c)
    requires Core(child, c) == Core(ast, c)
    ensures !Loops(Core(ast, c), c) ==> Ends(ast, 2 + StagesLeft(ast, c), c)
    ensures Loops(Core(ast, c), c) ==> forall n: nat :: !Ends(ast, n, c)
    decreases StagesLeft(ast, c), 0
  {
    hide NextStage, FromParser, HasTables, Loops;
    BuildEndsIff(child, c);
    if Loops(Core(ast, c), c) {
      forall n: nat ensures !Ends(ast, n, c) {
        assert n > 0 ==> !Ends(child, n - 1, c);
      }
    } else {
      EndsLater(child, 2 + StagesLeft(child, c), 1 + StagesLeft(ast, c), c);
    }
  }

  lemma {:induction false} EndsLater(ast: Node, n: nat, m: nat, c: Catalog)
    requires Ends(ast, n, c) && n <= m
    ensures Ends(ast, m, c)
    decreases n
  {
    hide NextStage;
    if IsSelect(ast) {
      match NextStage(ast, c)
      case LimitStage(_, _, child) => EndsLater(child, n - 1, m - 1, c);
      case OrderStage(_, _, child) => EndsLater(child, n - 1, m - 1, c);
      case GroupStage(_, _, child) => EndsLater(child, n - 1, m - 1, c);
      case LeafStage(_) =>
      case ErrorStage =>
    }
  }

  // ------------------------------------------------------------------
  // The plan
  // ------------------------------------------------------------------

  lemma {:induction false} NothingToGroupBy(child: Node, isAggregate: string -> bool)
    requires !Has(child.children, GROUP_BY)
    ensures !AnyNested(GroupExpressions(child), isAggregate)
  {
  }

  lemma {:induction false} CalmGroup(ast: Node, c: Catalog)
    requires IsStatement(ast) && IsCalm(ast, c.isAggregate) && StageOf(ast, c.isAggregate).GroupStage?
    ensures var child := GroupOf(ast, c.isAggregate).child;
            && IsStatement(child) && IsCalm(child, c.isAggregate) && NoWildcard(child.children[0].children)
            && child.kind.SELECT_DEEP?
            && (NextStage(child, c).LeafStage? || NextStage(child, c).ErrorStage?)
  {
    hide AnyNested, AnyAggregation, SortSpecs, SortColumns, FirstOf, Has, Count, FromParser, HasTables, GroupExpressions, NextStage;
    GroupDescends(ast, c);
    GroupChild(ast, c.isAggregate);
    var child := GroupOf(ast, c.isAggregate).child;
    NamedEntries(child.children[0].children);
    NothingToSortBy(child, c.isAggregate);
    NothingToGroupBy(child, c.isAggregate);
  }

  predicate HasChild(s: Stage) {
    s.LimitStage? || s.OrderStage? || s.GroupStage?
  }

  /** Building a calm statement comes closer to a leaf with every node, and stays calm. */
  lemma {:induction false} StageDescends(ast: Node, c: Catalog)
    requires IsStatement(ast) && IsCalm(ast, c.isAggregate) && HasChild(NextStage(ast, c))
    ensures var child := NextStage(ast, c).child;
            && IsStatement(child) && IsCalm(child, c.isAggregate)
            && StagesLeft(child, c) < StagesLeft(ast, c)
  {
    hide GroupOf, OrderOf, LimitOf, Prepared, IsCalm, NeedsGroup, IsScan, IsExpressions, FromParser, HasTables;
    if NextStage(ast, c).GroupStage? {
      PreparedStatement(ast, c);
      CalmGroup(Prepared(ast, c.describe).value, c);
    } else {
      OuterDescends(ast, c);
    }
  }

  /** The plan of a calm statement; None stands for an exception. */
  ghost function PlanOf(ast: Node, c: Catalog): Option<Plan>
    requires IsStatement(ast) && IsCalm(ast, c.isAggregate)
    decreases StagesLeft(ast, c)
  {
    hide NextStage, FromParser, HasTables, IsCalm, StagesLeft;
    var s := NextStage(ast, c);
    if s.LeafStage? then Some(LeafPlan(s.leaf))
    else if !HasChild(s) then None
    else
      StageDescends(ast, c);
      WithChild(s, PlanOf(s.child, c))
  }

  /** A node of the plan on top of the plan of its child. */
  function WithChild(s: Stage, child: Option<Plan>): Option<Plan>
    requires HasChild(s)
  {
    if child.None? then None
    else
      match s
      case LimitStage(limit, offset, _) => Some(LimitPlan(limit, offset, child.value))
      case OrderStage(sorts, width, _) => Some(OrderPlan(sorts, width, child.value))
      case GroupStage(selects, groups, _) => Some(GroupPlan(selects, groups, child.value))
  }

  lemma {:induction false} GroupWidth(ast: Node, isAggregate: string -> bool)
    requires IsSelect(ast) && GroupOf(ast, isAggregate).GroupStage?
    ensures |GroupOf(ast, isAggregate).selects| == |ast.children[0].children|
  {
  }

  lemma {:induction false} OrderWidth(ast: Node)
    requires IsSelect(ast) && OrderOf(ast).OrderStage?
    ensures OrderOf(ast).width == |ast.children[0].children|
  {
  }

  lemma {:induction false} SortedWithoutWildcard(list: seq<Node>, specs: seq<Node>)
    requires NoWildcard(list)
    ensures NoWildcard(SortBy(list, specs).list)
    decreases |specs|
  {
    if specs != [] {
      var i := AliasPlace(list, NameOf(SortColumn(specs[0])));
      SortedWithoutWildcard(if i < |list| then list else list + [Plain(DERIVED_COLUMN, [SortColumn(specs[0])])], specs[1..]);
    }
  }

  /** The number of columns that a list stands for. */
  function ListWidth(ast: Node, c: Catalog): nat
    requires IsSelect(ast)
  {
    ColumnCount(ast.children[0].children, TableWidth(ast, c.describe))
  }

  /** A prepared list without wildcards is that of its child. */
  lemma {:induction false} ChildWidth(child: Node, c: Catalog)
    requires IsStatement(child) && NoWildcard(child.children[0].children)
    ensures !HasPair(child.children[0].children, ALL) && ListWidth(child, c) == |child.children[0].children|
  {
    NoneOfKind(child.children[0].children);
    NothingErased(child.children[0].children, ALL);
    CountPlain(child.children[0].children, TableWidth(child, c.describe));
  }

  /** The list of a statement that becomes a node is as wide as it stands for. */
  lemma {:induction false} PreparedWidth(ast: Node, c: Catalog)
    requires IsStatement(ast) && !NextStage(ast, c).ErrorStage? && !HasPair(ast.children[0].children, ALL)
    ensures var l := Prepared(ast, c.describe).value.children[0].children; NoWildcard(l) && |l| == ListWidth(ast, c)
  {
    hide HasPair, Erased, FromParser, Count, Prepared;
    if |ast.children| > 1 {
      PreparedIff(ast, c.describe);
    } else {
      OnlyBuilt(ast, c);
      CountPlain(ast.children[0].children, TableWidth(ast, c.describe));
    }
  }

  /** Without a table there is no wildcard that can be built. */
  lemma {:induction false} OnlyBuilt(ast: Node, c: Catalog)
    requires IsStatement(ast) && !NextStage(ast, c).ErrorStage? && |ast.children| == 1
    ensures NextStage(ast, c).LeafStage? && Prepared(ast, c.describe) == Some(ast) && NoWildcard(ast.children[0].children)
  {
    hide FromParser, CanBuild, AnyAggregation, AnyWithinRecord, Count, FirstOf, GroupOf, IsScan;
    assert LimitOf(ast).NoStage? && OrderOf(ast).NoStage? && !NeedsGroup(ast, c.isAggregate);
    assert !IsScan(ast, c.isAggregate) by {
      ScanHasTable(ast, c.isAggregate);
    }
    var list := ast.children[0].children;
    ListFromParser(ast);
    forall i | 0 <= i < |list| ensures !list[i].kind.ALL? {
      assert FromParser(list[i]) && CanBuildItem(list[i]);
      if list[i].kind.ALL? {
        WildcardIsEmpty(list[i]);
      }
    }
  }

  lemma {:induction false} ScanHasTable(ast: Node, isAggregate: string -> bool)
    requires IsSelect(ast)
    ensures IsScan(ast, isAggregate) ==> |ast.children| >= 2
  {
  }

  lemma {:induction false} WildcardIsEmpty(n: Node)
    requires FromParser(n) && n.kind.ALL?
    ensures n.children == []
  {
  }

  /** Records are aggregated below a grouping only deeply, elsewhere only flat, and no scan
      aggregates all of them. */
  ghost predicate HasStrategies(p: Plan, deep: bool) {
    match p
    case LimitPlan(_, _, child) => HasStrategies(child, deep)
    case OrderPlan(_, _, child) => HasStrategies(child, deep)
    case GroupPlan(_, _, child) => HasStrategies(child, true)
    case LeafPlan(SequentialScan(_, _, _, strategy)) =>
      strategy == NO_AGGREGATION
      || strategy == if deep then AGGREGATE_WITHIN_RECORD_DEEP else AGGREGATE_WITHIN_RECORD_FLAT
    case LeafPlan(SelectExpression(_)) => true
  }

  lemma {:induction false} LeafStrategy(ast: Node, c: Catalog)
    requires IsStatement(ast) && NextStage(ast, c).LeafStage?
    ensures HasStrategies(LeafPlan(NextStage(ast, c).leaf), ast.kind.SELECT_DEEP?)
  {
    hide FromParser, HasTables, CanBuildItems, AnyAggregation, AnyWithinRecord, Count, GroupOf, LimitOf, OrderOf, Prepared;
    if |Prepared(ast, c.describe).value.children| > 1 {
      assert !NeedsGroup(Prepared(ast, c.describe).value, c.isAggregate);
    }
  }

  /** Every plan has the limit outside the order outside the grouping outside the leaf, and scans
      with the strategies for their places. Where no two wildcards are neighbours it has as many
      output columns as the select list stands for, and sorts by columns that the child has. */
  lemma {:induction false} PlanShape(ast: Node, c: Catalog)
    requires IsStatement(ast) && IsCalm(ast, c.isAggregate)
    ensures var p := PlanOf(ast, c);
            p.Some? ==>
              && Rank(p.value) == StagesLeft(ast, c) && IsNested(p.value) && HasStrategies(p.value, ast.kind.SELECT_DEEP?)
              && (!HasPair(ast.children[0].children, ALL) ==> Width(p.value) == ListWidth(ast, c) && SortsInside(p.value))
    decreases StagesLeft(ast, c)
  {
    hide GroupOf, OrderOf, LimitOf, AnyNested, FromParser, Count, IsCalm, Prepared, SortBy, SortSpecs, ListWidth,
         NeedsGroup, IsScan, IsExpressions, HasTables, NoWildcard, HasPair, GroupExpressions, LeafOf;
    var s := NextStage(ast, c);
    if !s.ErrorStage? {
      PreparedStatement(ast, c);
      var p := Prepared(ast, c.describe).value;
      if !HasPair(ast.children[0].children, ALL) {
        PreparedWidth(ast, c);
      }
            match s
      case LimitStage(_, _, child) =>
        OuterDescends(ast, c);
        LimitDescends(p, c.isAggregate);
        PlanShape(child, c);
        if NoWildcard(p.children[0].children) {
          ChildWidth(child, c);
        }
      case OrderStage(_, _, child) =>
        OuterDescends(ast, c);
        OrderDescends(p, c.isAggregate);
        OrderKind(p, c.isAggregate);
        PlanShape(child, c);
        OrderWidth(p);
        if NoWildcard(p.children[0].children) {
          SortedWithoutWildcard(p.children[0].children, SortSpecs(p));
          ChildWidth(child, c);
        }
      case GroupStage(_, _, child) =>
        CalmGroup(p, c);
        PlanShape(child, c);
        GroupWidth(p, c.isAggregate);
      case LeafStage(_) =>
        LeafIs(ast, c);
        LeafStrategy(ast, c);
    }
  }

  lemma {:induction false} OrderKind(ast: Node, isAggregate: string -> bool)
    requires IsStatement(ast) && OrderOf(ast).OrderStage?
    ensures OrderOf(ast).child.kind == ast.kind
  {
    OrderChild(ast, isAggregate);
  }

  lemma {:induction false} LeafIs(ast: Node, c: Catalog)
    requires IsSelect(ast) && NextStage(ast, c).LeafStage?
    ensures Prepared(ast, c.describe).Some?
    ensures NextStage(ast, c).leaf == LeafOf(Prepared(ast, c.describe).value, c.isAggregate)
  {
    hide GroupOf, OrderOf, LimitOf, Prepared, NeedsGroup, IsScan, IsExpressions;
  }

  // ------------------------------------------------------------------
  // The builder
  // ------------------------------------------------------------------

  ghost function SortedBehind(sorts: seq<Sort>, r: Sorted): Sorted {
    Sorted(sorts + r.sorts, r.list)
  }

  lemma {:induction false} NothingBefore(r: Sorted)
    ensures SortedBehind([], r) == r
  {
    assert [] + r.sorts == r.sorts;
  }

  lemma {:induction false} SortOneMore(sorts: seq<Sort>, sort: Sort, r: Sorted)
    ensures SortedBehind(sorts, SortedBehind([sort], r)) == SortedBehind(sorts + [sort], r)
  {
    assert sorts + ([sort] + r.sorts) == sorts + [sort] + r.sorts;
  }

  lemma {:induction false} SortStep(list: seq<Node>, specs: seq<Node>)
    requires specs != []
    ensures var i := AliasPlace(list, NameOf(SortColumn(specs[0])));
            var more := if i < |list| then list else list + [Plain(DERIVED_COLUMN, [SortColumn(specs[0])])];
            SortBy(list, specs) == SortedBehind([Sort(i, specs[0].token == Some(P.Keyword("DESC")))], SortBy(more, specs[1..]))
  {
  }

  lemma {:induction false} NoMoreToSort(list: seq<Node>)
    ensures SortBy(list, []) == Sorted([], list)
  {
  }

  class QueryPlanBuilder {
    const catalog: Catalog

    constructor (catalog: Catalog)
      ensures this.catalog == catalog
    {
      this.catalog := catalog;
    }

    method Build(ast: Node) returns (plan: Option<Plan>)
      requires IsStatement(ast) && IsCalm(ast, catalog.isAggregate)
      ensures plan == PlanOf(ast, catalog)
      decreases StagesLeft(ast, catalog)
    {
      hide GroupOf, OrderOf, LimitOf, AnyNested, SortColumns, SortSpecs, FromParser, Count, IsCalm, NeedsGroup,
           Prepared, IsScan, IsExpressions;
      var p := Prepare(ast, catalog.describe);
      if p.None? {
        return None;
      }
      var stage := BuildStage(p.value);
      if stage.LeafStage? {
        return Some(LeafPlan(stage.leaf));
      }
      if !HasChild(stage) {
        return None;
      }
      StageDescends(ast, catalog);
      var child := Build(stage.child);
      plan := WithChild(stage, child);
    }

    method BuildStage(ast: Node) returns (stage: Stage)
      requires IsSelect(ast)
      ensures stage == StageOf(ast, catalog.isAggregate)
    {
      hide GroupOf, OrderOf, LimitOf, NeedsGroup, IsScan, IsExpressions;
      stage := BuildLimitClause(ast);
      if !stage.NoStage? {
        return;
      }
      stage := BuildOrderByClause(ast);
      if !stage.NoStage? {
        return;
      }
      if NeedsGroup(ast, catalog.isAggregate) {
        stage := BuildGroupBy(ast);
        return;
      }
      stage := if IsScan(ast, catalog.isAggregate) || IsExpressions(ast, catalog.isAggregate)
               then LeafStage(LeafOf(ast, catalog.isAggregate)) else ErrorStage;
    }

    method BuildLimitClause(ast: Node) returns (s: Stage)
      requires IsSelect(ast)
      ensures s == LimitOf(ast)
    {
      hide Erased, AllCopies, NumberOf, Has;
      if |ast.children| < 3 {
        return NoStage;
      }
      var i := 0;
      assert ast.children[0..] == ast.children;
      while i < |ast.children|
        invariant i <= |ast.children|
        invariant FirstOf(ast.children, LIMIT) == FirstOf(ast.children[i..], LIMIT)
      {
        var clause := ast.children[i];
        if clause.kind == LIMIT {
          var limit := NumberOf(clause.token);
          if limit.None? {
            return ErrorStage;
          }
          var offset: Option<nat> := Some(0);
          if |clause.children| == 1 {
            var o := clause.children[0];
            offset := if o.kind.OFFSET? then NumberOf(o.token) else None;
          }
          if offset.None? {
            return ErrorStage;
          }
          var children := RemoveChildrenByType(AllCopies(ast.children), LIMIT);
          return LimitStage(limit.value, offset.value, Node(ast.kind, ast.token, None, children));
        }
        assert ast.children[i..][1..] == ast.children[i + 1..];
        i := i + 1;
      }
      s := NoStage;
    }

    method FindAlias(list: seq<Node>, name: string) returns (i: nat)
      ensures i == AliasPlace(list, name)
    {
      i := 0;
      while i < |list|
        invariant i <= |list| && AliasPlace(list, name) == i + AliasPlace(list[i..], name)
      {
        if IsAlias(list[i], name) {
          return;
        }
        assert list[i..][1..] == list[i + 1..];
        i := i + 1;
      }
    }

    method BuildSorts(copy: seq<Node>, specs: seq<Node>) returns (sorts: seq<Sort>, list: seq<Node>)
      ensures SortBy(copy, specs) == Sorted(sorts, list)
    {
      hide SortBy, AliasPlace, IsAlias;
      list, sorts := copy, [];
      ghost var result := SortBy(copy, specs);
      assert specs[0..] == specs;
      NothingBefore(result);
      for i := 0 to |specs|
        invariant result == SortedBehind(sorts, SortBy(list, specs[i..]))
      {
        var column := SortColumn(specs[i]);
        var index := FindAlias(list, NameOf(column));
        SortStep(list, specs[i..]);
        if index == |list| {
          list := list + [Plain(DERIVED_COLUMN, [column])];
        }
        assert specs[i..][1..] == specs[i + 1..];
        var sort := Sort(index, specs[i].token == Some(P.Keyword("DESC")));
        SortOneMore(sorts, sort, SortBy(list, specs[i + 1..]));
        sorts := sorts + [sort];
      }
      NoMoreToSort(list);
      assert sorts + [] == sorts;
    }

    method BuildOrderByClause(ast: Node) returns (s: Stage)
      requires IsSelect(ast)
      ensures s == OrderOf(ast)
    {
      hide Erased, AllCopies, SortBy, CanSort;
      var clause := FirstOf(ast.children, ORDER_BY);
      if |ast.children| < 2 || clause.None? {
        return NoStage;
      }
      var copy := AllCopies(ast.children[0].children);
      if !CanSort(copy, clause.value.children) {
        return ErrorStage;
      }
      var sorts, list := BuildSorts(copy, clause.value.children);
      var children := RemoveChildrenByType([Plain(SELECT_LIST, list)] + AllCopies(ast.children[1..]), ORDER_BY);
      s := OrderStage(sorts, |ast.children[0].children|, Node(ast.kind, ast.token, None, children));
    }

    method BuildGroupBy(ast: Node) returns (s: Stage)
      requires IsSelect(ast)
      ensures s == GroupOf(ast, catalog.isAggregate)
    {
      hide Erased, AllCopies, RewriteAll;
      var builder := new Builder();
      var ok, selects := builder.BuildChildren(AllCopies(ast.children[0].children), false, catalog.isAggregate);
      if !ok {
        return ErrorStage;
      }
      var groups;
      ok, groups := builder.BuildChildren(AllCopies(GroupExpressions(ast)), false, catalog.isAggregate);
      if !ok || AnyAggregation(groups, catalog.isAggregate) || !CanBuildAll(groups) || !CanBuildItems(selects) {
        return ErrorStage;
      }
      var children := RemoveChildrenByType(
        [Plain(SELECT_LIST, builder.target)] + AllCopies(ast.children[1..]), GROUP_BY);
      s := GroupStage(selects, groups, Node(SELECT_DEEP, ast.token, None, children));
    }
  }
}

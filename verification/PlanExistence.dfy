/**
  Exactly which statements have a plan: which of their parts have to be there, to be known and to be
  expressions that can be built.
  */
module PlanExistence {
  import opened Wrappers
  import P = SqlParser
  import S = SqlStatement
  import R = RemoteSql
  import opened SqlTokenizer
  import opened AstNode
  import opened SelectList
  import opened PlanPrepare
  import opened PlanStages
  import opened PlanBuilder
  import opened StatementPlan
  import opened PlanClauses
  import opened PlanMeaning

  // ------------------------------------------------------------------
  // Expressions that can be built
  // ------------------------------------------------------------------

  predicate Builds(e: P.Ast) {
    R.Build(e).Some?
  }

  predicate AllBuild(es: seq<P.Ast>) {
    forall i :: 0 <= i < |es| ==> Builds(es[i])
  }

  lemma {:induction false} BuildAllIff(es: seq<P.Ast>)
    ensures R.BuildAll(es).Some? <==> AllBuild(es)
    ensures R.BuildAll(es).Some? ==> |R.BuildAll(es).value| == |es|
  {
    if es != [] {
      BuildAllIff(es[1..]);
      assert AllBuild(es) <==> Builds(es[0]) && AllBuild(es[1..]) by {
        assert forall i :: 0 < i < |es| ==> es[i] == es[1..][i - 1];
      }
    }
  }

  /** A tree can be built exactly if its expression can. */
  lemma {:induction false} CanBuildIff(e: P.Ast)
    requires IsWhole(e)
    ensures CanBuild(ExprNode(e)) <==> Builds(e)
    decreases e
  {
    match e
    case Call(kind, name, args) =>
      CanBuildAllIff(args);
      CallBuilds(kind, name, args);
    case Negate(operand) =>
      CanBuildIff(operand);
      OneBuilds(ExprNode(operand));
    case Binary(op, left, right) =>
      CanBuildIff(left);
      CanBuildIff(right);
      TwoBuild(ExprNode(left), ExprNode(right));
    case _ =>
  }

  lemma {:induction false} CallBuilds(kind: P.CallKind, name: string, args: seq<P.Ast>)
    requires CanBuildAll(ExprNodes(args)) <==> AllBuild(args)
    ensures CanBuild(ExprNode(P.Call(kind, name, args))) <==> Builds(P.Call(kind, name, args))
  {
    hide ExprNodes, AllBuild, CanBuildAll, R.BuildAll, Builds, GetInteger;
    BuildAllIff(args);
    CallBuildsIf(kind, name, args);
    if kind == P.COLUMN_INDEX && |args| == 1 {
      OnlyLiteralsAreNumbers(args[0]);
      assert ExprNode(P.Call(kind, name, args)).children[0] == ExprNode(args[0]);
    }
  }

  lemma {:induction false} CallBuildsIf(kind: P.CallKind, name: string, args: seq<P.Ast>)
    ensures Builds(P.Call(kind, name, args))
       <==> if kind == P.COLUMN_INDEX then
              |args| == 1 && args[0].Literal? && args[0].token.Numeric? && GetInteger(args[0].token.text).Some?
            else R.BuildAll(args).Some? && (kind == P.IF_EXPR ==> |R.BuildAll(args).value| == 3)
  {
    hide R.BuildAll, GetInteger;
  }

  lemma {:induction false} TwoBuild(a: Node, b: Node)
    ensures CanBuildAll([a, b]) <==> CanBuild(a) && CanBuild(b)
  {
    OneBuilds(b);
    assert [a, b][1..] == [b];
  }

  lemma {:induction false} OneBuilds(n: Node)
    ensures CanBuildAll([n]) <==> CanBuild(n)
  {
    assert [n][1..] == [];
  }

  lemma {:induction false} OnlyLiteralsAreNumbers(e: P.Ast)
    ensures var n := ExprNode(e); n.token.Some? && n.token.value.Numeric? <==> e.Literal? && e.token.Numeric?
  {
  }

  lemma {:induction false} CanBuildAllIff(es: seq<P.Ast>)
    requires AllWhole(es)
    ensures CanBuildAll(ExprNodes(es)) <==> AllBuild(es)
    decreases es
  {
    if es != [] {
      CanBuildIff(es[0]);
      CanBuildAllIff(es[1..]);
      assert AllBuild(es) <==> Builds(es[0]) && AllBuild(es[1..]) by {
        assert forall i :: 0 < i < |es| ==> es[i] == es[1..][i - 1];
      }
    }
  }

  lemma {:induction false} StandsForBuilds(d: Node, e: P.Ast)
    requires StandsFor(d, e) && IsWhole(e)
    ensures CanBuildItem(d) <==> Builds(e)
  {
    CanBuildIff(e);
  }

  lemma {:induction false} ListBuilds(list: seq<Node>, es: seq<P.Ast>)
    requires ListStands(list, es) && AllWhole(es)
    ensures CanBuildItems(list) <==> AllBuild(es)
  {
    hide StandsFor, IsWhole, CanBuildItem, Builds;
    forall i | 0 <= i < |list| ensures CanBuildItem(list[i]) <==> Builds(es[i]) {
      StandsForBuilds(list[i], es[i]);
    }
  }

  // ------------------------------------------------------------------
  // Building what a grouping consists of
  // ------------------------------------------------------------------

  lemma {:induction false} ItemsConcat(a: seq<Node>, d: Node)
    ensures CanBuildItems(a + [d]) <==> CanBuildItems(a) && CanBuildItem(d)
  {
    hide CanBuildItem;
    var all := a + [d];
    assert all[|a|] == d;
    assert forall i :: 0 <= i < |a| ==> all[i] == a[i];
  }

  lemma {:induction false} ColumnEntryBuilds(column: Node, inAggregation: bool)
    requires column.kind.COLUMN_NAME?
    ensures CanBuildItem(ColumnEntry(column, inAggregation))
  {
    OneBuilds(DeepCopy(column));
  }

  /** An expression, split, can be built with all entries of the list exactly if it can be built. */
  lemma {:induction false} RewriteBuilds(e: P.Ast, list: seq<Node>, inAggregation: bool, isAggregate: string -> bool)
    requires IsWhole(e)
    ensures OneSplitBuilds(e, list, inAggregation, isAggregate)
    decreases e
  {
    hide Place, CanBuildItems, CanBuildAll, Rewrite, Builds, ColumnEntry, CanBuild, ExprNodes, AllBuild;
    var n := ExprNode(e);
    CanBuildIff(e);
    match e
    case Column(names) => ColumnBuilds(n, list, inAggregation, isAggregate, names);
    case Call(kind, name, args) =>
      if kind == P.METHOD_CALL_WITHIN_RECORD {
        ExprFromParser(e);
        RecordBuilds(n, list, inAggregation, isAggregate);
      } else {
        var inside := Inside(n, inAggregation, isAggregate);
        RewriteAllBuilds(args, list, inside, isAggregate);
        ChildrenBuild(n, args, list, inAggregation, isAggregate);
        CanBuildAllIff(args);
      }
    case Negate(operand) =>
      RewriteBuilds(operand, list, inAggregation, isAggregate);
      assert [operand][1..] == [];
      NothingBuilds(Rewrite(ExprNode(operand), list, inAggregation, isAggregate).list, inAggregation, isAggregate);
      OneMoreBuilds([operand], list, inAggregation, isAggregate);
      OneExpr(operand);
      ChildrenBuild(n, [operand], list, inAggregation, isAggregate);
      CanBuildAllIff([operand]);
    case Binary(_, left, right) =>
      RewriteBuilds(left, list, inAggregation, isAggregate);
      var first := Rewrite(ExprNode(left), list, inAggregation, isAggregate);
      RewriteBuilds(right, first.list, inAggregation, isAggregate);
      assert [left, right][1..] == [right] && [right][1..] == [];
      NothingBuilds(Rewrite(ExprNode(right), first.list, inAggregation, isAggregate).list, inAggregation, isAggregate);
      OneMoreBuilds([right], first.list, inAggregation, isAggregate);
      OneMoreBuilds([left, right], list, inAggregation, isAggregate);
      TwoExprs(left, right);
      ChildrenBuild(n, [left, right], list, inAggregation, isAggregate);
      CanBuildAllIff([left, right]);
    case _ =>
      LeafStays(n, list, inAggregation, isAggregate);
  }

  lemma {:induction false} OneExpr(e: P.Ast)
    ensures ExprNodes([e]) == [ExprNode(e)]
  {
  }

  lemma {:induction false} TwoExprs(a: P.Ast, b: P.Ast)
    ensures ExprNodes([a, b]) == [ExprNode(a), ExprNode(b)]
  {
  }

  lemma {:induction false} LeafStays(n: Node, list: seq<Node>, inAggregation: bool, isAggregate: string -> bool)
    requires n.children == [] && (n.kind.LITERAL? || n.kind.VOID?)
    ensures var r := Rewrite(n, list, inAggregation, isAggregate); r.Split? && r.list == list && CanBuild(r.node) == CanBuild(n)
  {
  }

  lemma {:induction false} ColumnBuilds(n: Node, list: seq<Node>, inAggregation: bool, isAggregate: string -> bool, names: seq<string>)
    requires n == ColumnNode(names)
    ensures var r := Rewrite(n, list, inAggregation, isAggregate);
            && r.Split?
            && (CanBuild(r.node) && CanBuildItems(r.list) <==> CanBuild(n) && CanBuildItems(list))
  {
    hide Place, CanBuildItems, ColumnEntry;
    ColumnFromParser(names);
    ColumnEntryBuilds(n, inAggregation);
    ItemsConcat(list, ColumnEntry(n, inAggregation));
  }

  lemma {:induction false} RecordBuilds(n: Node, list: seq<Node>, inAggregation: bool, isAggregate: string -> bool)
    requires n.kind.METHOD_CALL_WITHIN_RECORD? && FromParser(n)
    ensures var r := Rewrite(n, list, inAggregation, isAggregate);
            && r.Split?
            && (CanBuild(r.node) && CanBuildItems(r.list) <==> CanBuild(n) && CanBuildItems(list))
  {
    hide CanBuildItems, CanBuildAll, FromParser;
    CopyIsSame(n);
    ItemsConcat(list, Plain(DERIVED_COLUMN, [n]));
  }

  /** A node that is built from its children. */
  lemma {:induction false} ChildrenBuild(
    n: Node, args: seq<P.Ast>, list: seq<Node>, inAggregation: bool, isAggregate: string -> bool)
    requires n.children == ExprNodes(args) && AllWhole(args)
    requires n.kind.METHOD_CALL? || n.kind.IF_EXPR? || n.kind.COLUMN_INDEX? || n.kind.NEGATE_EXPR? || n.kind.OPERATOR?
    requires n.kind.METHOD_CALL? ==> n.token.Some?
    requires AllSplitBuild(args, list, Inside(n, inAggregation, isAggregate), isAggregate)
    ensures var r := Rewrite(n, list, inAggregation, isAggregate);
            && r.Split?
            && (CanBuild(r.node) && CanBuildItems(r.list) <==> CanBuild(n) && CanBuildItems(list))
  {
    hide CanBuildItems, CanBuildAll, ExprNodes, AllBuild, AllWhole, RewriteAll;
    CanBuildAllIff(args);
    if n.kind.COLUMN_INDEX? {
      IndexBuilds(args, list, Inside(n, inAggregation, isAggregate), isAggregate);
      if |args| == 1 {
        OnlyLiteralsAreNumbers(args[0]);
      }
    }
  }

  /** An index is built from the text of its argument, if that is a number. */
  lemma {:induction false} IndexBuilds(args: seq<P.Ast>, list: seq<Node>, inAggregation: bool, isAggregate: string -> bool)
    ensures var r := RewriteAll(ExprNodes(args), list, inAggregation, isAggregate);
            r.SplitAll? && |args| == 1 ==>
              var n := r.nodes[0];
              && (n.token.Some? && n.token.value.Numeric? <==> args[0].Literal? && args[0].token.Numeric?)
              && (args[0].Literal? ==> n == ExprNode(args[0]) && r.list == list)
  {
    hide Rewrite;
    if |args| == 1 {
      var n := ExprNode(args[0]);
      OneExpr(args[0]);
      assert args == [args[0]] && [n][1..] == [];
      TokenStays(args[0], list, inAggregation, isAggregate);
      var first := Rewrite(n, list, inAggregation, isAggregate);
      if first.Split? {
        assert RewriteAll([], first.list, inAggregation, isAggregate) == SplitAll([], first.list);
        assert RewriteAll([n], list, inAggregation, isAggregate) == SplitAll([first.node] + [], first.list);
      }
    }
  }

  lemma {:induction false} TokenStays(e: P.Ast, list: seq<Node>, inAggregation: bool, isAggregate: string -> bool)
    ensures var r := Rewrite(ExprNode(e), list, inAggregation, isAggregate);
            r.Split? ==>
              && (r.node.token.Some? && r.node.token.value.Numeric? <==> e.Literal? && e.token.Numeric?)
              && (e.Literal? ==> r.node == ExprNode(e) && r.list == list)
  {
    hide Place, ColumnEntry;
    OnlyLiteralsAreNumbers(e);
  }

  /** All of the expressions are split, and can be built with the list exactly if they can be built. */
  ghost predicate AllSplitBuild(es: seq<P.Ast>, list: seq<Node>, inAggregation: bool, isAggregate: string -> bool) {
    var r := RewriteAll(ExprNodes(es), list, inAggregation, isAggregate);
    r.SplitAll? && (CanBuildAll(r.nodes) && CanBuildItems(r.list) <==> AllBuild(es) && CanBuildItems(list))
  }

  ghost predicate OneSplitBuilds(e: P.Ast, list: seq<Node>, inAggregation: bool, isAggregate: string -> bool) {
    var r := Rewrite(ExprNode(e), list, inAggregation, isAggregate);
    r.Split? && (CanBuild(r.node) && CanBuildItems(r.list) <==> Builds(e) && CanBuildItems(list))
  }

  lemma {:induction false} NothingBuilds(list: seq<Node>, inAggregation: bool, isAggregate: string -> bool)
    ensures AllSplitBuild([], list, inAggregation, isAggregate)
  {
    assert ExprNodes([]) == [];
  }

  lemma {:induction false} OneMoreBuilds(es: seq<P.Ast>, list: seq<Node>, inAggregation: bool, isAggregate: string -> bool)
    requires es != [] && OneSplitBuilds(es[0], list, inAggregation, isAggregate)
    requires AllSplitBuild(es[1..], Rewrite(ExprNode(es[0]), list, inAggregation, isAggregate).list, inAggregation, isAggregate)
    ensures AllSplitBuild(es, list, inAggregation, isAggregate)
  {
    hide Rewrite, CanBuildItems, Builds, ExprNode;
    var first := Rewrite(ExprNode(es[0]), list, inAggregation, isAggregate);
    var more := RewriteAll(ExprNodes(es[1..]), first.list, inAggregation, isAggregate);
    assert ExprNodes(es)[1..] == ExprNodes(es[1..]);
    assert ([first.node] + more.nodes)[1..] == more.nodes;
    assert AllBuild(es) <==> Builds(es[0]) && AllBuild(es[1..]) by {
      assert forall i :: 0 < i < |es| ==> es[i] == es[1..][i - 1];
    }
  }

  lemma {:induction false} RewriteAllBuilds(es: seq<P.Ast>, list: seq<Node>, inAggregation: bool, isAggregate: string -> bool)
    requires AllWhole(es)
    ensures AllSplitBuild(es, list, inAggregation, isAggregate)
    decreases es
  {
    hide Rewrite, CanBuildItems, Builds, IsWhole, ExprNode, AllSplitBuild;
    if es == [] {
      NothingBuilds(list, inAggregation, isAggregate);
    } else {
      RewriteBuilds(es[0], list, inAggregation, isAggregate);
      var first := Rewrite(ExprNode(es[0]), list, inAggregation, isAggregate);
      RewriteAllBuilds(es[1..], first.list, inAggregation, isAggregate);
      OneMoreBuilds(es, list, inAggregation, isAggregate);
    }
  }

  /** The items of a list. */
  lemma {:induction false} ItemBuilds(d: Node, e: P.Ast, list: seq<Node>, isAggregate: string -> bool)
    requires StandsFor(d, e) && IsWhole(e)
    ensures var r := Rewrite(d, list, false, isAggregate);
            && r.Split?
            && (CanBuildItem(r.node) && CanBuildItems(r.list) <==> Builds(e) && CanBuildItems(list))
  {
    hide Rewrite, CanBuildItems, Builds, IsWhole, ExprNode, IsNodeOf;
    var n := d.children[0];
    InnerBuilds(n, e, list, isAggregate);
    var first := Rewrite(n, list, false, isAggregate);
    FirstChild(d, list, isAggregate);
  }

  lemma {:induction false} InnerBuilds(n: Node, e: P.Ast, list: seq<Node>, isAggregate: string -> bool)
    requires IsNodeOf(n, e) && IsWhole(e)
    ensures var r := Rewrite(n, list, false, isAggregate);
            && r.Split?
            && (CanBuild(r.node) && CanBuildItems(r.list) <==> Builds(e) && CanBuildItems(list))
  {
    hide CanBuildItems, Builds, IsWhole, ExprNode, Place, ColumnEntry, CanBuild;
    RewriteBuilds(e, list, false, isAggregate);
    if n != ExprNode(e) {
      TableBuilds(n, e, list, isAggregate);
    }
  }

  lemma {:induction false} TableBuilds(n: Node, e: P.Ast, list: seq<Node>, isAggregate: string -> bool)
    requires n.kind.TABLE_NAME? && e.Column? && n.children == [ExprNode(e)] && IsWhole(e)
    ensures var r, inner := Rewrite(n, list, false, isAggregate), Rewrite(ExprNode(e), list, false, isAggregate);
            r.Split? && inner.Split? && r.list == inner.list && CanBuild(r.node) && CanBuild(inner.node)
  {
    hide Place, ColumnEntry;
    ColumnFromParser(e.names);
    var inner := Rewrite(ExprNode(e), list, false, isAggregate);
    assert [ExprNode(e)][1..] == [];
    assert RewriteAll([], inner.list, false, isAggregate) == SplitAll([], inner.list);
    assert RewriteAll([ExprNode(e)], list, false, isAggregate) == SplitAll([inner.node] + [], inner.list);
  }

  /** The first child of an item is split, and the name is left. */
  lemma {:induction false} FirstChild(d: Node, list: seq<Node>, isAggregate: string -> bool)
    requires d.kind.DERIVED_COLUMN? && 1 <= |d.children| <= 2 && Rewrite(d.children[0], list, false, isAggregate).Split?
    requires |d.children| == 2 ==> d.children[1].kind.COLUMN_ALIAS? && d.children[1].children == []
    ensures var r, first := Rewrite(d, list, false, isAggregate), Rewrite(d.children[0], list, false, isAggregate);
            r.Split? && r.list == first.list && r.node.children != [] && r.node.children[0] == first.node
  {
    hide Place, ColumnEntry;
    var first := Rewrite(d.children[0], list, false, isAggregate);
    assert RewriteAll([], first.list, false, isAggregate) == SplitAll([], first.list);
    if |d.children| == 2 {
      var alias := d.children[1];
      assert Rewrite(alias, first.list, false, isAggregate) == Split(alias, first.list);
      assert d.children[1..] == [alias] && [alias][1..] == [];
      assert RewriteAll([alias], first.list, false, isAggregate) == SplitAll([alias] + [], first.list);
    } else {
      assert d.children[1..] == [];
    }
  }

  lemma {:induction false} ItemsBuild(items: seq<Node>, es: seq<P.Ast>, list: seq<Node>, isAggregate: string -> bool)
    requires ListStands(items, es) && AllWhole(es)
    ensures var r := RewriteAll(items, list, false, isAggregate);
            && r.SplitAll?
            && (CanBuildItems(r.nodes) && CanBuildItems(r.list) <==> AllBuild(es) && CanBuildItems(list))
    decreases |items|
  {
    hide Rewrite, CanBuildItem, Builds, IsWhole, StandsFor;
    if items != [] {
      ItemBuilds(items[0], es[0], list, isAggregate);
      var first := Rewrite(items[0], list, false, isAggregate);
      ItemsBuild(items[1..], es[1..], first.list, isAggregate);
      var more := RewriteAll(items[1..], first.list, false, isAggregate);
      ItemsSplit(first.node, more.nodes);
      assert AllBuild(es) <==> Builds(es[0]) && AllBuild(es[1..]) by {
        assert forall i :: 0 < i < |es| ==> es[i] == es[1..][i - 1];
      }
    }
  }

  lemma {:induction false} ItemsSplit(d: Node, ds: seq<Node>)
    ensures CanBuildItems([d] + ds) <==> CanBuildItem(d) && CanBuildItems(ds)
  {
    hide CanBuildItem;
    var all := [d] + ds;
    assert all[0] == d && forall i :: 0 <= i < |ds| ==> all[i + 1] == ds[i];
    assert forall i :: 0 < i < |all| ==> all[i] == ds[i - 1];
  }

  /** Splitting keeps the aggregates that are not nested in calls WITHIN RECORD. */
  lemma {:induction false} RewriteKeepsAggregates(n: Node, list: seq<Node>, inAggregation: bool, isAggregate: string -> bool)
    requires FromParser(n) && !Nested(n, isAggregate)
    ensures var r := Rewrite(n, list, inAggregation, isAggregate);
            r.Split? ==> (HasAggregation(r.node, isAggregate) <==> HasAggregation(n, isAggregate))
    decreases n
  {
    hide Place, ColumnEntry;
    if n.kind.COLUMN_NAME? {
      NamesHaveNoCalls(n, isAggregate);
    } else if !n.kind.METHOD_CALL_WITHIN_RECORD? {
      RewriteAllKeepsAggregates(n.children, list, Inside(n, inAggregation, isAggregate), isAggregate);
    }
  }

  lemma {:induction false} RewriteAllKeepsAggregates(
    ns: seq<Node>, list: seq<Node>, inAggregation: bool, isAggregate: string -> bool)
    requires AllFromParser(ns) && !AnyNested(ns, isAggregate)
    ensures var r := RewriteAll(ns, list, inAggregation, isAggregate);
            r.SplitAll? ==> (AnyAggregation(r.nodes, isAggregate) <==> AnyAggregation(ns, isAggregate))
    decreases ns
  {
    hide Rewrite, FromParser, HasAggregation, Nested;
    if ns != [] {
      RewriteKeepsAggregates(ns[0], list, inAggregation, isAggregate);
      var first := Rewrite(ns[0], list, inAggregation, isAggregate);
      if first.Split? {
        RewriteAllKeepsAggregates(ns[1..], first.list, inAggregation, isAggregate);
        var more := RewriteAll(ns[1..], first.list, inAggregation, isAggregate);
        assert more.SplitAll? ==> ([first.node] + more.nodes)[1..] == more.nodes;
      }
    }
  }

  // ------------------------------------------------------------------
  // Stages that there are
  // ------------------------------------------------------------------

  /** Everything behind the list is as in the statement. */
  ghost predicate Behind(ast: Node, s: S.Select) {
    IsSelect(ast) && s.from.Some? && s.from.value != [] && ast.children[1..] == SelectNode(s).children[1..]
  }

  lemma {:induction false} BehindHas(ast: Node, s: S.Select)
    requires Behind(ast, s)
    ensures HasClauses(ast, s) && HasOrder(ast, s) && HasLimit(ast, s) && |ast.children| >= 2
    ensures s.limit.Some? ==> |ast.children| >= 3
  {
    hide HasClauses, HasOrder, HasLimit, FirstOf;
    FromHasShape(s);
    SelectHasClauses(s);
    NodeIsSelect(s);
    PreparedHas(SelectNode(s), ast, s);
    ClausesCount(s);
    WithTable(ast, s);
  }

  lemma {:induction false} FromHasShape(s: S.Select)
    requires s.from.Some? && s.from.value != []
    ensures HasShape(s)
  {
  }

  lemma {:induction false} NodeIsSelect(s: S.Select)
    ensures IsSelect(SelectNode(s)) && SelectNode(s).children[0].kind.SELECT_LIST?
  {
    hide ItemNodes;
  }

  /** Without a clause, everything behind the list is as in the statement without it. */
  lemma {:induction false} BehindWithout(ast: Node, child: Node, s: S.Select, clause: Kind)
    requires Behind(ast, s) && IsSelect(child) && child.children[1..] == Without(ast.children[1..], clause)
    requires clause.LIMIT? || clause.ORDER_BY? || clause.GROUP_BY?
    ensures Behind(child, Idle(s, clause))
  {
    NodeIsSelect(s);
    DroppedSelect(s, clause);
    var all := SelectNode(s).children;
    hide SelectNode;
    assert all == [all[0]] + all[1..];
    assert Without(all, clause) == [all[0]] + Without(all[1..], clause);
  }

  /** What a scan needs: one table, a condition that can be built, and no clause in its place. */
  predicate CanScan(s: S.Select, isAggregate: string -> bool) {
    && s.from.Some? && |s.from.value| == 1
    && (s.filter.None? ==> s.having.None? && !HasWindow(s))
    && (s.filter.Some? ==> !HasAggregate(s.filter.value, isAggregate) && Builds(s.filter.value))
  }

  lemma {:induction false} ThirdClause(s: S.Select)
    requires s.from.Some? && s.order.None? && s.limit.None? && (s.group.Some? ==> HasWindow(s))
    ensures var cs := SelectNode(s).children;
            if s.filter.Some? then |cs| > 2 && cs[2] == Plain(WHERE, [ExprNode(s.filter.value)])
            else if HasWindow(s) || s.having.Some? then |cs| > 2 && !cs[2].kind.WHERE?
            else |cs| == 2
  {
    hide ItemNodes, ExprNode, GroupNode, FromNode;
    var cs := SelectNode(s).children;
    if s.filter.Some? {
      assert cs[2] == Plain(WHERE, [ExprNode(s.filter.value)]);
    } else if HasWindow(s) {
      WindowKind(s.group.value);
      assert cs[2] == GroupNode(s.group.value);
    } else if s.having.Some? {
      assert cs[2] == Plain(HAVING, [ExprNode(s.having.value)]);
    }
  }

  lemma {:induction false} WindowKind(g: S.Grouping)
    requires g.OverWindow?
    ensures GroupNode(g).kind.GROUP_OVER_TIMEWINDOW?
  {
  }

  lemma {:induction false} ScanIff(p: Node, s: S.Select, isAggregate: string -> bool)
    requires Behind(p, s) && s.order.None? && s.limit.None? && (s.group.Some? ==> HasWindow(s))
    requires s.filter.Some? ==> IsWhole(s.filter.value)
    requires !AnyAggregation(p.children[0].children, isAggregate)
    ensures |p.children| >= 2 && !IsExpressions(p, isAggregate)
    ensures IsScan(p, isAggregate) <==> CanScan(s, isAggregate) && CanBuildItems(p.children[0].children)
  {
    hide CanBuild, CanBuildItems, Builds, AnyAggregation, AnyWithinRecord, HasAggregation, HasAggregate, IsWhole, ExprNode,
         IsExpressions, HasClauses, HasOrder, HasLimit, Asks, AsksRecord;
    ThirdClause(s);
    BehindHas(p, s);
    FromIs(p, s);
    if |p.children| > 2 {
      assert p.children[2] == p.children[1..][1] == SelectNode(s).children[2];
    }
    assert |p.children| == |SelectNode(s).children|;
    if s.filter.Some? {
      CanBuildIff(s.filter.value);
      NodeAsks(s.filter.value, true, isAggregate);
    }
    TwoIsNoExpressions(p, isAggregate);
  }

  lemma {:induction false} FromIs(p: Node, s: S.Select)
    requires HasClauses(p, s)
    ensures |p.children| >= 2 && s.from.Some? && p.children[1].kind.FROM? && |p.children[1].children| == |s.from.value|
    ensures forall i :: 0 <= i < |s.from.value| ==>
              p.children[1].children[i].kind.TABLE_NAME? && p.children[1].children[i].token.Some?
  {
  }

  lemma {:induction false} TwoIsNoExpressions(p: Node, isAggregate: string -> bool)
    requires IsSelect(p) && |p.children| >= 2
    ensures !IsExpressions(p, isAggregate)
  {
  }

  /** What can be put out of a table: items and keys that can be built, no aggregates in keys. */
  predicate CanPutOut(s: S.Select, es: seq<P.Ast>, isAggregate: string -> bool) {
    && CanScan(s, isAggregate) && AllBuild(es) && AllBuild(GroupKeys(s))
    && !AnyAggregate(GroupKeys(s), isAggregate)
  }

  lemma {:induction false} LeafIff(ast: Node, s: S.Select, es: seq<P.Ast>, c: Catalog)
    requires IsStatement(ast) && Behind(ast, s) && NoWildcard(ast.children[0].children)
    requires s.order.None? && s.limit.None? && (s.group.Some? ==> HasWindow(s)) && (s.filter.Some? ==> IsWhole(s.filter.value))
    requires !AnyAggregation(ast.children[0].children, c.isAggregate)
    ensures NextStage(ast, c).LeafStage? <==> CanScan(s, c.isAggregate) && CanBuildItems(ast.children[0].children)
    ensures NextStage(ast, c).LeafStage? || NextStage(ast, c).ErrorStage?
  {
    hide FromParser, HasTables, Count, IsScan, IsExpressions, LeafOf, GroupOf, AnyAggregation, Behind, HasClauses,
         CanScan, CanBuildItems, Prepared, Named, FirstOf;
    BehindHas(ast, s);
    PreparedWithoutWildcard(ast, c.describe);
    PreparedStatement(ast, c);
    PreparedKeepsAny(ast, c);
    var p := Prepared(ast, c.describe).value;
    BehindPrepared(ast, p, s);
    BehindHas(p, s);
    ScanIff(p, s, c.isAggregate);
    NoStages(p, s, c.isAggregate);
    NamedBuilds(ast.children[0].children);
  }

  lemma {:induction false} BehindPrepared(ast: Node, p: Node, s: S.Select)
    requires Behind(ast, s) && IsSelect(p) && p.children[1..] == ast.children[1..]
    ensures Behind(p, s)
  {
  }

  lemma {:induction false} NoStages(p: Node, s: S.Select, isAggregate: string -> bool)
    requires IsSelect(p) && HasClauses(p, s) && HasOrder(p, s) && HasLimit(p, s) && s.order.None? && s.limit.None?
    ensures LimitOf(p).NoStage? && OrderOf(p).NoStage?
    ensures NeedsGroup(p, isAggregate) ==>
              (s.group.Some? && s.group.value.ByExprs?) || AnyAggregation(p.children[0].children, isAggregate)
    ensures (p.kind.SELECT? && s.group.Some? && s.group.value.ByExprs?) || AnyAggregation(p.children[0].children, isAggregate)
            ==> NeedsGroup(p, isAggregate)
  {
    hide AnyAggregation;
  }

  lemma {:induction false} NamedBuilds(list: seq<Node>)
    ensures CanBuildItems(Named(list)) <==> CanBuildItems(list)
  {
    hide CanBuild;
    forall i | 0 <= i < |list| ensures CanBuildItem(Named(list)[i]) <==> CanBuildItem(list[i]) {
    }
  }

  /** When a grouping can be built. */
  lemma {:induction false} GroupIff(p: Node, s: S.Select, es: seq<P.Ast>, isAggregate: string -> bool)
    requires IsStatement(p) && IsCalm(p, isAggregate) && HasClauses(p, s) && ListStands(p.children[0].children, es)
    requires AllWhole(es) && AllWhole(GroupKeys(s))
    ensures var stage := GroupOf(p, isAggregate);
            && (AllBuild(es) && AllBuild(GroupKeys(s)) && !AnyAggregate(GroupKeys(s), isAggregate)
                <==> stage.GroupStage? && stage.child.children != [] && CanBuildItems(stage.child.children[0].children))
  {
    hide FromParser, HasTables, Count, RewriteAll, AllBuild, AllWhole, ListStands, AnyNested, AnyAggregation, AnyAggregate, HasClauses,
         CanBuildItems, CanBuildAll, ExprNodes, GroupKeys, GroupExpressions, Erased;
    var list, keys := p.children[0].children, GroupExpressions(p);
    KeysOfClauses(p, s);
    ListFromParser(p);
    CopiesAreSame(list);
    ClauseFromParser(p, GROUP_BY);
    KeysOfParser(p);
    CopiesAreSame(keys);
    var selects := RewriteAll(list, [], false, isAggregate);
    ItemsBuild(list, es, [], isAggregate);
    NothingToBuild();
    RewriteAllBuilds(GroupKeys(s), selects.list, false, isAggregate);
    RewriteAllKeepsAggregates(keys, selects.list, false, isAggregate);
    NodesAsk(GroupKeys(s), false, isAggregate);
    RewriteAllResolvesList(keys, selects.list, isAggregate);
    if GroupOf(p, isAggregate).GroupStage? {
      GroupChildList(p, isAggregate);
    }
  }

  lemma {:induction false} NothingToBuild()
    ensures CanBuildItems([])
  {
  }

  lemma {:induction false} KeysOfParser(p: Node)
    requires FromParser(p)
    ensures AllFromParser(GroupExpressions(p))
  {
    ClauseFromParser(p, GROUP_BY);
  }

  /** The list of the grouping is part of the final one. */
  lemma {:induction false} RewriteAllResolvesList(keys: seq<Node>, list: seq<Node>, isAggregate: string -> bool)
    requires AllFromParser(keys)
    ensures var r := RewriteAll(keys, list, false, isAggregate);
            r.SplitAll? ==> list <= r.list && (CanBuildItems(r.list) ==> CanBuildItems(list))
  {
    hide CanBuildItem;
    AllUnresolved(keys);
    RewriteAllResolves(keys, list, false, isAggregate);
    var r := RewriteAll(keys, list, false, isAggregate);
    if r.SplitAll? {
      assert forall i :: 0 <= i < |list| ==> list[i] == r.list[i];
    }
  }

  /** Statements without limit and order. */
  lemma {:induction false} BaseIff(ast: Node, s: S.Select, es: seq<P.Ast>, c: Catalog)
    requires IsStatement(ast) && ast.kind.SELECT? && IsCalm(ast, c.isAggregate) && Behind(ast, s)
    requires NoWildcard(ast.children[0].children) && s.order.None? && s.limit.None?
    requires ListStands(ast.children[0].children, es) && AllWhole(es) && IsWholeSelect(s)
    ensures PlanOf(ast, c).Some? <==> CanPutOut(s, es, c.isAggregate)
  {
    hide FromParser, HasTables, Count, IsScan, IsExpressions, LeafOf, GroupOf, AnyAggregation, Behind, HasClauses, HasOrder, HasLimit,
         CanBuildItems, Prepared, Named, FirstOf, NeedsGroup, ListStands, AllWhole, IsWhole, AllWholeItems, IsCalm,
         NoWildcard, StagesLeft, AllBuild, AnyAggregate, LimitOf, OrderOf;
    BehindHas(ast, s);
    PreparedWithoutWildcard(ast, c.describe);
    PreparedStatement(ast, c);
    PreparedKeepsAny(ast, c);
    var p := Prepared(ast, c.describe).value;
    BehindPrepared(ast, p, s);
    BehindHas(p, s);
    NoStages(p, s, c.isAggregate);
    KeysAreWhole(s);
    if NeedsGroup(p, c.isAggregate) {
      ListStandsNamed(ast.children[0].children, es);
      GroupIff(p, s, es, c.isAggregate);
      if GroupOf(p, c.isAggregate).GroupStage? {
        GroupChildIff(ast, p, s, c);
      }
    } else {
      NoKeys(s);
      ListBuilds(ast.children[0].children, es);
      LeafIff(ast, s, es, c);
      LeafPlanned(ast, c);
    }
  }

  lemma {:induction false} NoKeys(s: S.Select)
    requires !(s.group.Some? && s.group.value.ByExprs?)
    ensures GroupKeys(s) == [] && AllBuild(GroupKeys(s)) && forall isAggregate :: !AnyAggregate(GroupKeys(s), isAggregate)
    ensures s.group.Some? ==> HasWindow(s)
  {
  }

  lemma {:induction false} LeafPlanned(ast: Node, c: Catalog)
    requires IsStatement(ast) && IsCalm(ast, c.isAggregate)
    requires NextStage(ast, c).LeafStage? || NextStage(ast, c).ErrorStage?
    ensures PlanOf(ast, c).Some? <==> NextStage(ast, c).LeafStage?
  {
    hide NextStage, FromParser, HasTables, IsCalm, StagesLeft, Count;
  }

  /** The child of a grouping is a leaf exactly if the table can be scanned and the entries can be
      built. */
  lemma {:induction false} GroupChildIff(ast: Node, p: Node, s: S.Select, c: Catalog)
    requires IsStatement(ast) && IsCalm(ast, c.isAggregate) && Prepared(ast, c.describe) == Some(p)
    requires IsStatement(p) && IsCalm(p, c.isAggregate) && Behind(p, s) && s.order.None? && s.limit.None? && IsWholeSelect(s)
    requires StageOf(p, c.isAggregate) == GroupOf(p, c.isAggregate) && GroupOf(p, c.isAggregate).GroupStage?
    ensures var child := GroupOf(p, c.isAggregate).child;
            && child.children != []
            && (PlanOf(ast, c).Some? <==> CanScan(s, c.isAggregate) && CanBuildItems(child.children[0].children))
  {
    hide FromParser, HasTables, Count, AnyAggregation, Behind, HasClauses, CanBuildItems, Prepared, IsWhole, IsCalm,
         NoWildcard, StagesLeft, AnyNested, NeedsGroup, CanScan, SelectNode, SameOf, GroupOf, StageOf;
    CalmGroup(p, c);
    GroupChild(p, c.isAggregate);
    var child := GroupOf(p, c.isAggregate).child;
    CalmIs(p, c.isAggregate);
    BehindWithout(p, child, s, GROUP_BY);
    var t := Idle(s, GROUP_BY);
    IdleScans(s, c.isAggregate);
    LeafIff(child, t, [], c);
    LeafPlanned(child, c);
    GroupPlanned(ast, child, c);
  }

  lemma {:induction false} CalmIs(p: Node, isAggregate: string -> bool)
    requires IsSelect(p) && IsCalm(p, isAggregate)
    ensures !AnyNested(p.children[0].children, isAggregate) && !AnyNested(GroupExpressions(p), isAggregate)
  {
  }

  lemma {:induction false} IdleScans(s: S.Select, isAggregate: string -> bool)
    ensures var t := Idle(s, GROUP_BY);
            && (CanScan(t, isAggregate) <==> CanScan(s, isAggregate)) && (t.group.Some? ==> HasWindow(t))
            && t.filter == s.filter && t.order == s.order && t.limit == s.limit
  {
    hide Builds, HasAggregate, ExprNodes, ExprNode;
  }

  lemma {:induction false} GroupPlanned(ast: Node, child: Node, c: Catalog)
    requires IsStatement(ast) && IsCalm(ast, c.isAggregate) && IsStatement(child) && IsCalm(child, c.isAggregate)
    requires NextStage(ast, c).GroupStage? && NextStage(ast, c).child == child
    ensures PlanOf(ast, c).Some? <==> PlanOf(child, c).Some?
  {
    hide NextStage, FromParser, HasTables, IsCalm, StagesLeft, Count;
    StageDescends(ast, c);
  }

  // ------------------------------------------------------------------
  // Order and limit
  // ------------------------------------------------------------------

  predicate AllTokens(order: seq<S.Sort>) {
    forall i :: 0 <= i < |order| ==> HasToken(order[i].expr)
  }

  /** All columns have names. */
  ghost predicate AllNamed(list: seq<Node>, names: seq<Option<string>>) {
    NamesStand(list, names) && forall i :: 0 <= i < |names| ==> names[i].Some?
  }

  lemma {:induction false} NamedHaveAlias(list: seq<Node>, es: seq<P.Ast>, names: seq<Option<string>>)
    requires ListStands(list, es) && AllNamed(list, names)
    ensures AnyAlias(list) <==> es != []
  {
    if list != [] {
      assert StandsFor(list[0], es[0]) && HasNameOf(list[0], names[0]);
      assert HasAlias(list[0]);
    }
  }

  /** What an ordered statement needs. */
  predicate CanOrder(s: S.Select, es: seq<P.Ast>, names: seq<Option<string>>, isAggregate: string -> bool) {
    if s.order.None? then CanPutOut(s, es, isAggregate)
    else
      && (es != [] ==> AllTokens(s.order.value))
      && CanPutOut(s, SortColumnsFor(es, names, s.order.value).exprs, isAggregate)
  }

  lemma {:induction false} OrderedIff(ast: Node, s: S.Select, es: seq<P.Ast>, names: seq<Option<string>>, c: Catalog)
    requires IsStatement(ast) && ast.kind.SELECT? && IsCalm(ast, c.isAggregate) && Behind(ast, s) && IsPrepared(ast)
    requires s.limit.None? && ListStands(ast.children[0].children, es) && AllNamed(ast.children[0].children, names)
    requires AllWhole(es) && IsWholeSelect(s)
    ensures PlanOf(ast, c).Some? <==> CanOrder(s, es, names, c.isAggregate)
  {
    hide FromParser, HasTables, Count, ListStands, AllWhole, IsWholeSelect, IsCalm, HasClauses, HasOrder, HasLimit, StagesLeft,
         Named, CanPutOut, SortColumnsFor, AllNamed, Behind, NextStage, NoWildcard, LimitOf, CanSort, AllCopies, SortBy,
         AnyAlias, AllTokens, OrderNode, SortNodes, Has, FirstOf;
    if s.order.None? {
      BaseIff(ast, s, es, c);
    } else {
      var order := s.order.value;
      BehindHas(ast, s);
      PreparedTwice(ast, c);
      NoLimit(ast, s);
      OrderStageIs(ast, s, c);
      CanSortIff(ast.children[0].children, order);
      NamedHaveAlias(ast.children[0].children, es, names);
      assert AllTokens(order) <==> !(exists i :: 0 <= i < |order| && !HasToken(order[i].expr)) by {
        TokensAre(order);
      }
      if NextStage(ast, c).OrderStage? {
        OrderChildIff(ast, s, es, names, c);
      } else {
        ErrorHasNoPlan(ast, c);
      }
    }
  }

  lemma {:induction false} TokensAre(order: seq<S.Sort>)
    ensures AllTokens(order) <==> !(exists i :: 0 <= i < |order| && !HasToken(order[i].expr))
  {
  }

  lemma {:induction false} ErrorHasNoPlan(ast: Node, c: Catalog)
    requires IsStatement(ast) && IsCalm(ast, c.isAggregate) && NextStage(ast, c).ErrorStage?
    ensures PlanOf(ast, c).None?
  {
    hide NextStage, FromParser, HasTables, IsCalm, StagesLeft, Count;
  }

  lemma {:induction false} OrderStageIs(ast: Node, s: S.Select, c: Catalog)
    requires IsSelect(ast) && |ast.children| >= 2 && HasOrder(ast, s) && s.order.Some? && LimitOf(ast).NoStage?
    requires Prepared(ast, c.describe) == Some(ast)
    ensures NextStage(ast, c).OrderStage? || NextStage(ast, c).ErrorStage?
    ensures NextStage(ast, c).OrderStage?
            <==> CanSort(AllCopies(ast.children[0].children), OrderNode(s.order.value).children)
  {
    hide CanSort, AllCopies, SortBy, LimitOf, Prepared;
  }

  lemma {:induction false} OrderChildIff(ast: Node, s: S.Select, es: seq<P.Ast>, names: seq<Option<string>>, c: Catalog)
    requires IsStatement(ast) && ast.kind.SELECT? && IsCalm(ast, c.isAggregate) && Behind(ast, s) && IsPrepared(ast)
    requires s.limit.None? && s.order.Some? && NextStage(ast, c).OrderStage? && LimitOf(ast).NoStage?
    requires ListStands(ast.children[0].children, es) && AllNamed(ast.children[0].children, names)
    requires AllWhole(es) && IsWholeSelect(s)
    ensures PlanOf(ast, c).Some? <==> CanPutOut(s, SortColumnsFor(es, names, s.order.value).exprs, c.isAggregate)
  {
    hide FromParser, HasTables, Count, ListStands, AllWhole, IsCalm, HasClauses, HasOrder, HasLimit, StagesLeft, LimitOf, OrderOf,
         Named, CanPutOut, SortColumnsFor, NamesStand, Behind, NoWildcard, SortBy, Prepared, GroupOf, NeedsGroup, IsScan,
         IsExpressions, Has, FirstOf, SameOf, IsWhole, IsWholeGrouping, AllWholeItems, AllWholeSorts, SelectNode;
    BehindHas(ast, s);
    PreparedTwice(ast, c);
    var order, child := s.order.value, NextStage(ast, c).child;
    OrderSpecs(ast, s);
    SortByMeans(ast.children[0].children, es, names, order);
    SortedExprsWhole(es, names, order);
    OuterDescends(ast, c);
    OrderDescends(ast, c.isAggregate);
    OrderChild(ast, c.isAggregate);
    SortedWithoutWildcard(ast.children[0].children, SortSpecs(ast));
    BehindWithout(ast, child, s, ORDER_BY);
    BaseIff(child, Idle(s, ORDER_BY), SortColumnsFor(es, names, order).exprs, c);
    IdlePutsOut(s, SortColumnsFor(es, names, order).exprs, c.isAggregate);
    OuterPlanned(ast, child, c);
  }

  lemma {:induction false} IdlePutsOut(s: S.Select, es: seq<P.Ast>, isAggregate: string -> bool)
    ensures CanPutOut(s.(order := None), es, isAggregate) <==> CanPutOut(s, es, isAggregate)
    ensures CanPutOut(s.(limit := None), es, isAggregate) <==> CanPutOut(s, es, isAggregate)
  {
    hide Builds, HasAggregate, AllBuild, AnyAggregate;
  }

  lemma {:induction false} OuterPlanned(ast: Node, child: Node, c: Catalog)
    requires IsStatement(ast) && IsCalm(ast, c.isAggregate) && IsStatement(child) && IsCalm(child, c.isAggregate)
    requires (NextStage(ast, c).OrderStage? || NextStage(ast, c).LimitStage?) && NextStage(ast, c).child == child
    ensures PlanOf(ast, c).Some? <==> PlanOf(child, c).Some?
  {
    hide NextStage, FromParser, HasTables, IsCalm, StagesLeft, Count;
    StageDescends(ast, c);
  }

  /** The numbers of a limit fit. */
  predicate HasNumbers(limit: Option<S.Limit>) {
    limit.Some? ==>
      GetInteger(limit.value.limit).Some? && (limit.value.offset.Some? ==> GetInteger(limit.value.offset.value).Some?)
  }

  lemma {:induction false} LimitStageIff(ast: Node, s: S.Select, c: Catalog)
    requires IsSelect(ast) && HasLimit(ast, s) && s.limit.Some? && |ast.children| >= 3
    requires Prepared(ast, c.describe) == Some(ast)
    ensures if HasNumbers(s.limit) then NextStage(ast, c).LimitStage? else NextStage(ast, c).ErrorStage?
  {
    hide GetInteger, Erased, AllCopies, Prepared;
  }

  lemma {:induction false} LimitedIff(ast: Node, s: S.Select, es: seq<P.Ast>, names: seq<Option<string>>, c: Catalog)
    requires IsStatement(ast) && ast.kind.SELECT? && IsCalm(ast, c.isAggregate) && Behind(ast, s) && IsPrepared(ast)
    requires ListStands(ast.children[0].children, es) && AllNamed(ast.children[0].children, names)
    requires AllWhole(es) && IsWholeSelect(s)
    ensures PlanOf(ast, c).Some? <==> HasNumbers(s.limit) && CanOrder(s, es, names, c.isAggregate)
  {
    hide FromParser, HasTables, Count, ListStands, AllWhole, IsCalm, HasClauses, HasOrder, HasLimit, StagesLeft, LimitOf,
         Named, CanPutOut, SortColumnsFor, AllNamed, Behind, NextStage, NoWildcard, HasNumbers, Prepared, SelectNode, SameOf,
         IsWhole, IsWholeGrouping, AllWholeItems, AllWholeSorts, AllTokens;
    if s.limit.None? {
      OrderedIff(ast, s, es, names, c);
      assert HasNumbers(s.limit) by { NoNumbers(); }
    } else {
      BehindHas(ast, s);
      PreparedTwice(ast, c);
      LimitStageIff(ast, s, c);
      if HasNumbers(s.limit) {
        LimitChildIff(ast, s, es, names, c);
      } else {
        ErrorHasNoPlan(ast, c);
      }
    }
  }

  lemma {:induction false} NoNumbers()
    ensures HasNumbers(None)
  {
  }

  lemma {:induction false} LimitChildIff(ast: Node, s: S.Select, es: seq<P.Ast>, names: seq<Option<string>>, c: Catalog)
    requires IsStatement(ast) && ast.kind.SELECT? && IsCalm(ast, c.isAggregate) && Behind(ast, s) && IsPrepared(ast)
    requires ListStands(ast.children[0].children, es) && AllNamed(ast.children[0].children, names)
    requires AllWhole(es) && IsWholeSelect(s) && NextStage(ast, c).LimitStage? && s.limit.Some?
    ensures PlanOf(ast, c).Some? <==> CanOrder(s, es, names, c.isAggregate)
  {
    hide FromParser, HasTables, Count, ListStands, AllWhole, IsCalm, HasClauses, HasOrder, HasLimit, StagesLeft, LimitOf, OrderOf,
         Named, CanPutOut, SortColumnsFor, AllNamed, Behind, NoWildcard, Prepared, SelectNode, SameOf, GroupOf, NeedsGroup,
         IsWhole, IsWholeGrouping, AllWholeItems, AllWholeSorts, AllTokens, IsScan, IsExpressions;
    BehindHas(ast, s);
    PreparedTwice(ast, c);
    var child := NextStage(ast, c).child;
    LimitDescends(ast, c.isAggregate);
    BehindWithout(ast, child, s, LIMIT);
    BehindHas(child, Idle(s, LIMIT));
    OrderedIff(child, Idle(s, LIMIT), es, names, c);
    IdlePutsOut(s, es, c.isAggregate);
    if s.order.Some? {
      IdlePutsOut(s, SortColumnsFor(es, names, s.order.value).exprs, c.isAggregate);
    }
    OuterPlanned(ast, child, c);
  }

  // ------------------------------------------------------------------
  // Statements that have a plan
  // ------------------------------------------------------------------

  lemma {:induction false} NamesAreGiven(s: S.Select, c: Catalog)
    ensures forall i :: 0 <= i < |Names(s, c)| ==> Names(s, c)[i].Some?
  {
    ItemNamesGiven(s.list);
    TimesGiven(AsNames(KnownColumns(s, c)), WildcardsIn(s.list));
  }

  lemma {:induction false} ItemNamesGiven(items: seq<S.Item>)
    ensures forall i :: 0 <= i < |DerivedNames(items)| ==> DerivedNames(items)[i].Some?
  {
    hide ExprName, ExprNode;
    if items != [] {
      ItemNamesGiven(items[1..]);
    }
  }

  lemma {:induction false} TimesGiven(names: seq<Option<string>>, n: nat)
    requires forall i :: 0 <= i < |names| ==> names[i].Some?
    ensures forall i :: 0 <= i < |Times(names, n)| ==> Times(names, n)[i].Some?
  {
    if n > 0 {
      TimesGiven(names, n - 1);
    }
  }

  /** Which statements have a plan. */
  predicate HasPlan(s: S.Select, c: Catalog) {
    && (HasWildcard(s.list) ==> HasKnownTable(s, c))
    && HasNumbers(s.limit)
    && CanOrder(s, Exprs(s, c), Names(s, c), c.isAggregate)
  }

  /** Exactly those: wildcards with one known table, numbers that fit behind LIMIT and OFFSET, a word
      to find every column to sort by, one table to scan, no HAVING or window without WHERE, and
      conditions, keys and items that can be built, without aggregates in conditions and keys. */
  lemma {:induction false} PlanExistsIff(s: S.Select, c: Catalog)
    requires HasShape(s) && IsWholeSelect(s) && s.from.Some? && AreApart(s.list)
    requires (SelectIsStatement(s); IsCalm(SelectNode(s), c.isAggregate))
    ensures IsStatement(SelectNode(s)) && (PlanOf(SelectNode(s), c).Some? <==> HasPlan(s, c))
  {
    hide FromParser, HasTables, Count, IsCalm, Prepared, PlanOf, SelectNode, Exprs, Names, ListStands, NamesStand, IsPrepared,
         AllWhole, HasClauses, HasOrder, HasLimit, StagesLeft, IsWholeSelect, CanOrder, HasNumbers, HasWildcard, HasKnownTable;
    SelectIsStatement(s);
    var ast := SelectNode(s);
    SelectTables(s);
    ListPrepared(s, c);
    if Prepared(ast, c.describe).Some? {
      PreparedStands(s, c);
      var p := Prepared(ast, c.describe).value;
      PlanOfPrepared(ast, p, c);
      ShapeHasTable(s);
      assert Behind(p, s);
      ExprsWhole(s, c);
      NamesAreGiven(s, c);
      NodeIsSelect(s);
      PreparedKind(ast, c);
      LimitedIff(p, s, Exprs(s, c), Names(s, c), c);
    } else {
      NotPrepared(ast, c);
    }
  }

  lemma {:induction false} ShapeHasTable(s: S.Select)
    requires HasShape(s) && s.from.Some?
    ensures s.from.value != [] && SelectNode(s).kind.SELECT?
  {
  }

  lemma {:induction false} PreparedKind(ast: Node, c: Catalog)
    requires IsSelect(ast) && Prepared(ast, c.describe).Some?
    ensures Prepared(ast, c.describe).value.kind == ast.kind
  {
  }

  lemma {:induction false} NotPrepared(ast: Node, c: Catalog)
    requires IsStatement(ast) && IsCalm(ast, c.isAggregate) && Prepared(ast, c.describe).None?
    ensures PlanOf(ast, c).None?
  {
    hide FromParser, HasTables, IsCalm, StagesLeft, Count, Prepared;
  }
}

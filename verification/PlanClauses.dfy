/**
  Clauses that become no node of the plan: what HAVING and GROUP OVER TIMEWINDOW do to a statement,
  and what ORDER BY and two wildcards beside each other do to its columns.
  */
module PlanClauses {
  import opened Wrappers
  import P = SqlParser
  import S = SqlStatement
  import opened SqlTokenizer
  import opened AstNode
  import opened SelectList
  import opened PlanPrepare
  import opened PlanStages
  import opened PlanBuilder
  import opened StatementPlan

  // ------------------------------------------------------------------
  // The clauses of a child
  // ------------------------------------------------------------------

  /** The clause that a node of the plan stands for. */
  function ClauseOf(s: Stage): Kind
    requires HasChild(s)
  {
    match s
    case LimitStage(_, _, _) => LIMIT
    case OrderStage(_, _, _) => ORDER_BY
    case GroupStage(_, _, _) => GROUP_BY
  }

  /** A child has all clauses of its parent but that one. */
  lemma {:induction false} ChildClauses(ast: Node, c: Catalog)
    requires IsStatement(ast) && HasChild(NextStage(ast, c))
    ensures var s := NextStage(ast, c);
            s.child.children != [] && s.child.children[1..] == Without(ast.children[1..], ClauseOf(s))
  {
    hide GroupOf, OrderOf, LimitOf, Prepared, NeedsGroup, IsScan, IsExpressions, FromParser, HasTables, Count, FirstOf, Has,
         AnyNested, AnyAggregation, SortBy, Without;
    PreparedStatement(ast, c);
    var p := Prepared(ast, c.describe).value;
    match NextStage(ast, c)
    case LimitStage(_, _, _) => LimitChild(p);
    case OrderStage(_, _, _) => OrderChild(p, c.isAggregate);
    case GroupStage(_, _, _) => GroupChild(p, c.isAggregate);
  }

  lemma {:induction false} HasWithout(ns: seq<Node>, clause: Kind, kind: Kind)
    requires clause != kind
    ensures Has(Without(ns, clause), kind) <==> Has(ns, kind)
  {
    OthersStay(ns, clause, kind);
  }

  // ------------------------------------------------------------------
  // Without WHERE
  // ------------------------------------------------------------------

  /** The clauses that nothing is built from. */
  predicate IsIdle(kind: Kind) {
    kind.HAVING? || kind.GROUP_OVER_TIMEWINDOW?
  }

  /** Such a clause, and no condition in front of it. */
  predicate IsBlocked(ast: Node, kind: Kind) {
    ast.children != [] && Has(ast.children[1..], kind) && !Has(ast.children[1..], WHERE)
  }

  /** What stands behind the table of a scan is its condition. */
  lemma {:induction false} ScanIsNotBlocked(ast: Node, kind: Kind, isAggregate: string -> bool)
    requires IsSelect(ast) && IsIdle(kind) && (IsScan(ast, isAggregate) || IsExpressions(ast, isAggregate))
    ensures !IsBlocked(ast, kind)
  {
    hide CanBuild, AnyAggregation, HasAggregation, AnyWithinRecord;
    var behind := ast.children[1..];
    if |ast.children| > 2 {
      assert behind[1..][0] == behind[1] == ast.children[2];
      assert Has(behind[1..], WHERE) && Has(behind, WHERE);
    } else if |ast.children| == 2 {
      OnlyOne(ast.children[1], kind);
      assert behind == [ast.children[1]];
    }
  }

  lemma {:induction false} BlockedStage(ast: Node, kind: Kind, c: Catalog)
    requires IsStatement(ast) && IsIdle(kind) && IsBlocked(ast, kind)
    ensures !NextStage(ast, c).LeafStage?
  {
    hide GroupOf, OrderOf, LimitOf, NeedsGroup, IsScan, IsExpressions, FromParser, HasTables, Count, Prepared;
    var p := Prepared(ast, c.describe);
    if p.Some? && (IsScan(p.value, c.isAggregate) || IsExpressions(p.value, c.isAggregate)) {
      ScanIsNotBlocked(p.value, kind, c.isAggregate);
    }
  }

  /** Neither limit nor order nor grouping helps. */
  lemma {:induction false} BlockedHasNoPlan(ast: Node, kind: Kind, c: Catalog)
    requires IsStatement(ast) && IsCalm(ast, c.isAggregate) && IsIdle(kind) && IsBlocked(ast, kind)
    ensures PlanOf(ast, c) == None
    decreases StagesLeft(ast, c)
  {
    hide NextStage, FromParser, HasTables, IsCalm, StagesLeft, Has, Count;
    BlockedStage(ast, kind, c);
    var s := NextStage(ast, c);
    if HasChild(s) {
      StageDescends(ast, c);
      ChildClauses(ast, c);
      HasWithout(ast.children[1..], ClauseOf(s), kind);
      HasWithout(ast.children[1..], ClauseOf(s), WHERE);
      BlockedHasNoPlan(s.child, kind, c);
    }
  }

  lemma {:induction false} HasConcat(a: seq<Node>, b: seq<Node>, kind: Kind)
    ensures Has(a + b, kind) <==> Has(a, kind) || Has(b, kind)
  {
    if a == [] {
      assert a + b == b;
    } else {
      assert (a + b)[1..] == a[1..] + b;
      HasConcat(a[1..], b, kind);
    }
  }

  lemma {:induction false} HasOptional<A>(before: seq<Node>, a: Option<A>, node: A -> Node, kind: Kind)
    ensures Has(before + Optional(a, node), kind) <==> Has(before, kind) || (a.Some? && node(a.value).kind == kind)
  {
    HasConcat(before, Optional(a, node), kind);
    if a.Some? {
      assert [node(a.value)][1..] == [];
    }
  }

  predicate HasWindow(s: S.Select) {
    s.group.Some? && s.group.value.OverWindow?
  }

  lemma {:induction false} ClausesHave(s: S.Select, kind: Kind)
    requires kind.WHERE? || IsIdle(kind)
    ensures Has(SelectNode(s).children[1..], kind)
         <==> if kind.WHERE? then s.filter.Some? else if kind.HAVING? then s.having.Some? else HasWindow(s)
  {
    hide Has, ItemNodes, Optional;
    var list := [Plain(SELECT_LIST, ItemNodes(s.list))];
    var filter := (e: P.Ast) => Plain(WHERE, [ExprNode(e)]);
    var having := (e: P.Ast) => Plain(HAVING, [ExprNode(e)]);
    OnlyOne(list[0], kind);
    HasOptional(list, s.from, FromNode, kind);
    var a := list + Optional(s.from, FromNode);
    HasOptional(a, s.filter, filter, kind);
    var b := a + Optional(s.filter, filter);
    HasOptional(b, s.group, GroupNode, kind);
    var c := b + Optional(s.group, GroupNode);
    HasOptional(c, s.having, having, kind);
    var d := c + Optional(s.having, having);
    HasOptional(d, s.order, OrderNode, kind);
    var e := d + Optional(s.order, OrderNode);
    HasOptional(e, s.limit, LimitNode, kind);
    var all := SelectNode(s).children;
    assert all == [all[0]] + all[1..];
    HasConcat([all[0]], all[1..], kind);
    OnlyOne(all[0], kind);
  }

  lemma {:induction false} OnlyOne(n: Node, kind: Kind)
    requires n.kind != kind
    ensures !Has([n], kind)
  {
    assert [n][1..] == [];
  }

  /** A statement with HAVING or GROUP OVER TIMEWINDOW, but without WHERE, has no plan, whether it is
      grouped, sorted or limited or not. */
  lemma {:induction false} HavingNeedsWhere(s: S.Select, c: Catalog)
    requires HasShape(s) && IsWholeSelect(s) && s.filter.None? && (s.having.Some? || HasWindow(s))
    requires (SelectIsStatement(s); IsCalm(SelectNode(s), c.isAggregate))
    ensures IsStatement(SelectNode(s)) && PlanOf(SelectNode(s), c) == None
  {
    hide IsStatement, IsCalm, Has, SelectNode;
    SelectIsStatement(s);
    var kind := if s.having.Some? then HAVING else GROUP_OVER_TIMEWINDOW;
    ClausesHave(s, kind);
    ClausesHave(s, WHERE);
    BlockedHasNoPlan(SelectNode(s), kind, c);
  }

  // ------------------------------------------------------------------
  // Behind WHERE
  // ------------------------------------------------------------------

  function Dropped(ast: Node, kind: Kind): Node {
    Node(ast.kind, ast.token, ast.id, Without(ast.children, kind))
  }

  predicate IsFiltered(ast: Node) {
    |ast.children| > 2 && ast.children[1].kind.FROM? && ast.children[2].kind.WHERE?
  }

  lemma {:induction false} WithoutTwice(ns: seq<Node>, a: Kind, b: Kind)
    ensures Without(Without(ns, a), b) == Without(Without(ns, b), a)
  {
    if ns != [] {
      var rest := ns[1..];
      WithoutTwice(rest, a, b);
      if ns[0].kind == a {
        assert Without(ns, a) == Without(rest, a);
      } else {
        assert Without(ns, a) == [ns[0]] + Without(rest, a) && Without(ns, a)[1..] == Without(rest, a);
      }
      if ns[0].kind == b {
        assert Without(ns, b) == Without(rest, b);
      } else {
        assert Without(ns, b) == [ns[0]] + Without(rest, b) && Without(ns, b)[1..] == Without(rest, b);
      }
    }
  }

  lemma {:induction false} ErasedWithout(ns: seq<Node>, clause: Kind, kind: Kind)
    requires clause != kind && Count(ns, clause) <= 1
    ensures Erased(Without(ns, kind), clause) == Without(Erased(ns, clause), kind)
  {
    hide Erased, Without, Count;
    OthersStay(ns, kind, clause);
    ErasedOnce(ns, clause);
    ErasedOnce(Without(ns, kind), clause);
    WithoutTwice(ns, clause, kind);
  }

  /** The list, the tables and the condition stay. */
  lemma {:induction false} FrontStays(ns: seq<Node>, kind: Kind)
    requires |ns| > 2 && ns[0].kind != kind && ns[1].kind != kind && ns[2].kind != kind
    ensures var w := Without(ns, kind);
            |w| > 2 && w[0] == ns[0] && w[1] == ns[1] && w[2] == ns[2] && w[1..] == Without(ns[1..], kind)
  {
    assert ns[1..][1..] == ns[2..] && ns[2..][1..] == ns[3..];
    assert Without(ns[2..], kind) == [ns[2]] + Without(ns[3..], kind);
    assert Without(ns[1..], kind) == [ns[1]] + Without(ns[2..], kind);
    assert Without(ns, kind) == [ns[0]] + Without(ns[1..], kind);
  }

  /** Without the clause, the statement has the same parts. */
  lemma {:induction false} DroppedStatement(ast: Node, kind: Kind, isAggregate: string -> bool)
    requires IsStatement(ast) && IsFiltered(ast) && IsIdle(kind)
    ensures var d := Dropped(ast, kind);
            && IsStatement(d) && IsFiltered(d) && SameClauses(ast, d)
            && (IsCalm(d, isAggregate) <==> IsCalm(ast, isAggregate))
            && d.children[0] == ast.children[0] && d.children[1] == ast.children[1] && d.children[2] == ast.children[2]
            && d.children[1..] == Without(ast.children[1..], kind)
  {
    hide Without, Count, FirstOf, AnyNested, SortColumns;
    FrontStays(ast.children, kind);
    OthersStay(ast.children, kind, LIMIT);
    OthersStay(ast.children, kind, ORDER_BY);
    OthersStay(ast.children, kind, GROUP_BY);
    DroppedFromParser(ast, kind);
    hide FromParser;
  }

  lemma {:induction false} DroppedFromParser(ast: Node, kind: Kind)
    requires FromParser(ast) && (ast.kind.SELECT? || ast.kind.SELECT_DEEP?)
    ensures FromParser(Dropped(ast, kind))
  {
    hide Without;
    WithoutFromParser(ast.children, kind);
  }

  /** Another list in front of the clauses, one of them erased, and the clause dropped. */
  lemma {:induction false} DroppedChild(ast: Node, head: Node, clause: Kind, kind: Kind)
    requires IsStatement(ast) && IsFiltered(ast) && IsIdle(kind) && head.kind.SELECT_LIST?
    requires (clause.LIMIT? || clause.ORDER_BY? || clause.GROUP_BY?)
    ensures Erased([head] + Dropped(ast, kind).children[1..], clause)
         == Without(Erased([head] + ast.children[1..], clause), kind)
  {
    hide Erased, Count, FirstOf;
    var all := [head] + ast.children[1..];
    assert all[1..] == ast.children[1..];
    HeadIgnored(all, clause);
    HeadIgnored(ast.children, clause);
    FrontStays(ast.children, kind);
    assert Without(all, kind) == [head] + Without(ast.children[1..], kind);
    ErasedWithout(all, clause, kind);
  }

  function DroppedStage(s: Stage, kind: Kind): Stage {
    match s
    case LimitStage(limit, offset, child) => LimitStage(limit, offset, Dropped(child, kind))
    case OrderStage(sorts, width, child) => OrderStage(sorts, width, Dropped(child, kind))
    case GroupStage(selects, groups, child) => GroupStage(selects, groups, Dropped(child, kind))
    case _ => s
  }

  lemma {:induction false} DroppedLimit(ast: Node, kind: Kind, isAggregate: string -> bool)
    requires IsStatement(ast) && IsFiltered(ast) && IsIdle(kind)
    ensures LimitOf(Dropped(ast, kind)) == DroppedStage(LimitOf(ast), kind)
  {
    DroppedStatement(ast, kind, isAggregate);
    var d := Dropped(ast, kind);
    CopiesAreSame(ast.children);
    CopiesAreSame(d.children);
    hide LimitOf, Erased, Without, Count, FirstOf, FromParser, HasTables, AllCopies, IsCalm;
    assert [ast.children[0]] + ast.children[1..] == ast.children;
    assert [ast.children[0]] + d.children[1..] == d.children;
    DroppedChild(ast, ast.children[0], LIMIT, kind);
    LimitIs(ast, d, kind);
  }

  lemma {:induction false} LimitIs(ast: Node, d: Node, kind: Kind)
    requires |ast.children| > 2 && |d.children| > 2 && FirstOf(d.children, LIMIT) == FirstOf(ast.children, LIMIT)
    requires d.kind == ast.kind && d.token == ast.token
    requires Erased(AllCopies(d.children), LIMIT) == Without(Erased(AllCopies(ast.children), LIMIT), kind)
    ensures LimitOf(d) == DroppedStage(LimitOf(ast), kind)
  {
    hide Erased, Without, FirstOf, AllCopies, NumberOf, OffsetOf;
  }

  lemma {:induction false} DroppedAst(ast: Node, to: Kind, list: seq<Node>, clause: Kind, kind: Kind, isAggregate: string -> bool)
    requires IsStatement(ast) && IsFiltered(ast) && IsIdle(kind)
    requires clause.LIMIT? || clause.ORDER_BY? || clause.GROUP_BY?
    ensures IsSelect(Dropped(ast, kind))
    ensures ChildAst(Dropped(ast, kind), to, list, clause) == Dropped(ChildAst(ast, to, list, clause), kind)
  {
    DroppedStatement(ast, kind, isAggregate);
    var d := Dropped(ast, kind);
    BehindFromParser(ast);
    BehindFromParser(d);
    CopiesAreSame(ast.children[1..]);
    CopiesAreSame(d.children[1..]);
    hide Erased, Without, Count, FirstOf, AnyNested, FromParser, AllCopies, HasTables, IsCalm;
    DroppedChild(ast, Plain(SELECT_LIST, list), clause, kind);
  }

  lemma {:induction false} BehindFromParser(ast: Node)
    requires IsSelect(ast) && FromParser(ast)
    ensures AllFromParser(ast.children[1..])
  {
  }

  lemma {:induction false} DroppedOrder(ast: Node, kind: Kind, isAggregate: string -> bool)
    requires IsStatement(ast) && IsFiltered(ast) && IsIdle(kind)
    ensures IsSelect(Dropped(ast, kind)) && OrderOf(Dropped(ast, kind)) == DroppedStage(OrderOf(ast), kind)
  {
    hide Erased, Without, Count, FirstOf, AnyNested, FromParser, AllCopies, HasTables, IsCalm, CanSort, SortBy, ChildAst;
    DroppedStatement(ast, kind, isAggregate);
    if OrderOf(ast).OrderStage? {
      var list := SortBy(AllCopies(ast.children[0].children), SortSpecs(ast)).list;
      DroppedAst(ast, ast.kind, list, ORDER_BY, kind, isAggregate);
    }
  }

  lemma {:induction false} DroppedGroup(ast: Node, kind: Kind, isAggregate: string -> bool)
    requires IsStatement(ast) && IsFiltered(ast) && IsIdle(kind)
    ensures IsSelect(Dropped(ast, kind))
    ensures NeedsGroup(Dropped(ast, kind), isAggregate) <==> NeedsGroup(ast, isAggregate)
    ensures GroupOf(Dropped(ast, kind), isAggregate) == DroppedStage(GroupOf(ast, isAggregate), kind)
  {
    hide Erased, Without, Count, AnyNested, FromParser, AllCopies, HasTables, IsCalm, CanBuild, RewriteAll, ChildAst,
         AnyAggregation, FirstOf, CanBuildItems, CanBuildAll;
    DroppedStatement(ast, kind, isAggregate);
    assert GroupExpressions(Dropped(ast, kind)) == GroupExpressions(ast);
    if GroupOf(ast, isAggregate).GroupStage? {
      var selects := RewriteAll(AllCopies(ast.children[0].children), [], false, isAggregate);
      var groups := RewriteAll(AllCopies(GroupExpressions(ast)), selects.list, false, isAggregate);
      DroppedAst(ast, SELECT_DEEP, groups.list, GROUP_BY, kind, isAggregate);
    }
  }

  lemma {:induction false} DroppedLeaf(ast: Node, kind: Kind, isAggregate: string -> bool)
    requires IsStatement(ast) && IsFiltered(ast) && IsIdle(kind)
    ensures var d := Dropped(ast, kind);
            && IsSelect(d)
            && (IsScan(d, isAggregate) <==> IsScan(ast, isAggregate))
            && !IsExpressions(d, isAggregate) && !IsExpressions(ast, isAggregate)
            && LeafOf(d, isAggregate) == LeafOf(ast, isAggregate)
  {
    hide Without, Count, FirstOf, AnyNested, FromParser, IsCalm, CanBuild, HasAggregation, AnyAggregation, AnyWithinRecord;
    DroppedStatement(ast, kind, isAggregate);
  }

  lemma {:induction false} DroppedStageOf(ast: Node, kind: Kind, isAggregate: string -> bool)
    requires IsStatement(ast) && IsFiltered(ast) && IsIdle(kind)
    ensures IsSelect(Dropped(ast, kind))
    ensures StageOf(Dropped(ast, kind), isAggregate) == DroppedStage(StageOf(ast, isAggregate), kind)
  {
    hide LimitOf, OrderOf, GroupOf, NeedsGroup, IsScan, IsExpressions, LeafOf, FromParser, HasTables, Count, Dropped;
    DroppedLimit(ast, kind, isAggregate);
    DroppedOrder(ast, kind, isAggregate);
    DroppedGroup(ast, kind, isAggregate);
    DroppedLeaf(ast, kind, isAggregate);
  }

  lemma {:induction false} DroppedPrepared(ast: Node, kind: Kind, c: Catalog)
    requires IsStatement(ast) && IsFiltered(ast) && IsIdle(kind)
    ensures IsSelect(Dropped(ast, kind))
    ensures var p, q := Prepared(ast, c.describe), Prepared(Dropped(ast, kind), c.describe);
            if p.None? then q.None? else q == Some(Dropped(p.value, kind)) && IsFiltered(p.value)
  {
    hide Expanded, Count, FirstOf, AnyNested, FromParser, IsCalm, HasTables;
    DroppedStatement(ast, kind, c.isAggregate);
    var p := Prepared(ast, c.describe);
    if p.Some? {
      assert p.value.children[1] == p.value.children[1..][0] == ast.children[1];
      assert p.value.children[2] == p.value.children[1..][1] == ast.children[2];
      FrontStays(p.value.children, kind);
    }
  }

  lemma {:induction false} DroppedNext(ast: Node, kind: Kind, c: Catalog)
    requires IsStatement(ast) && IsFiltered(ast) && IsIdle(kind)
    ensures IsSelect(Dropped(ast, kind))
    ensures NextStage(Dropped(ast, kind), c) == DroppedStage(NextStage(ast, c), kind)
  {
    hide Prepared, StageOf, Dropped, FromParser, HasTables, Count;
    DroppedPrepared(ast, kind, c);
    if Prepared(ast, c.describe).Some? {
      PreparedStatement(ast, c);
      DroppedStageOf(Prepared(ast, c.describe).value, kind, c.isAggregate);
    }
  }

  lemma {:induction false} ChildIsFiltered(ast: Node, c: Catalog)
    requires IsStatement(ast) && IsFiltered(ast) && HasChild(NextStage(ast, c))
    ensures IsFiltered(NextStage(ast, c).child)
  {
    hide NextStage, FromParser, HasTables, Count;
    ChildClauses(ast, c);
    FrontStays(ast.children, ClauseOf(NextStage(ast, c)));
    var child := NextStage(ast, c).child;
    assert child.children[1] == child.children[1..][0] && child.children[2] == child.children[1..][1];
  }

  /** Behind WHERE the clause changes nothing: the plan is that of the statement without it. */
  lemma {:induction false} DroppedPlan(ast: Node, kind: Kind, c: Catalog)
    requires IsStatement(ast) && IsCalm(ast, c.isAggregate) && IsFiltered(ast) && IsIdle(kind)
    ensures IsStatement(Dropped(ast, kind)) && IsCalm(Dropped(ast, kind), c.isAggregate)
    ensures PlanOf(Dropped(ast, kind), c) == PlanOf(ast, c)
    decreases StagesLeft(ast, c)
  {
    hide NextStage, FromParser, HasTables, IsCalm, StagesLeft, Count, Dropped, SameClauses, IsFiltered;
    DroppedStatement(ast, kind, c.isAggregate);
    DroppedNext(ast, kind, c);
    var s := NextStage(ast, c);
    if HasChild(s) {
      StageDescends(ast, c);
      ChildIsFiltered(ast, c);
      DroppedPlan(s.child, kind, c);
    }
  }

  lemma {:induction false} WithoutConcat(a: seq<Node>, b: seq<Node>, kind: Kind)
    ensures Without(a + b, kind) == Without(a, kind) + Without(b, kind)
  {
    if a == [] {
      assert a + b == b;
    } else {
      assert (a + b)[1..] == a[1..] + b;
      WithoutConcat(a[1..], b, kind);
      var first := if a[0].kind == kind then [] else [a[0]];
      assert first + (Without(a[1..], kind) + Without(b, kind)) == first + Without(a[1..], kind) + Without(b, kind);
    }
  }

  lemma {:induction false} WithoutOptional<A>(before: seq<Node>, a: Option<A>, node: A -> Node, kind: Kind)
    ensures Without(before + Optional(a, node), kind)
         == Without(before, kind) + Optional(if a.Some? && node(a.value).kind == kind then None else a, node)
  {
    WithoutConcat(before, Optional(a, node), kind);
    if a.Some? {
      assert [node(a.value)][1..] == [];
    }
  }

  /** The statement without the clause. */
  function Idle(s: S.Select, kind: Kind): S.Select {
    if kind.HAVING? then s.(having := None)
    else if kind.ORDER_BY? then s.(order := None)
    else if kind.LIMIT? then s.(limit := None)
    else if s.group.Some? && GroupNode(s.group.value).kind == kind then s.(group := None)
    else s
  }

  lemma {:induction false} DroppedSelect(s: S.Select, kind: Kind)
    requires IsIdle(kind) || kind.LIMIT? || kind.ORDER_BY? || kind.GROUP_BY?
    ensures Dropped(SelectNode(s), kind) == SelectNode(Idle(s, kind))
  {
    hide Without, ItemNodes, Optional;
    var list := [Plain(SELECT_LIST, ItemNodes(s.list))];
    var filter := (e: P.Ast) => Plain(WHERE, [ExprNode(e)]);
    var having := (e: P.Ast) => Plain(HAVING, [ExprNode(e)]);
    hide OrderNode, LimitNode, GroupNode, ExprNode, FromNode, Idle;
    IdleParts(s, kind);
    WithoutOther(list[0], kind);
    WithoutOptional(list, s.from, FromNode, kind);
    var a := list + Optional(s.from, FromNode);
    WithoutOptional(a, s.filter, filter, kind);
    var b := a + Optional(s.filter, filter);
    WithoutOptional(b, s.group, GroupNode, kind);
    var c := b + Optional(s.group, GroupNode);
    WithoutOptional(c, s.having, having, kind);
    var d := c + Optional(s.having, having);
    WithoutOptional(d, s.order, OrderNode, kind);
    var e := d + Optional(s.order, OrderNode);
    WithoutOptional(e, s.limit, LimitNode, kind);
  }

  lemma {:induction false} IdleParts(s: S.Select, kind: Kind)
    requires IsIdle(kind) || kind.LIMIT? || kind.ORDER_BY? || kind.GROUP_BY?
    ensures var t := Idle(s, kind);
            && t.list == s.list && t.from == s.from && t.filter == s.filter
            && (s.from.Some? ==> FromNode(s.from.value).kind != kind)
            && t.group == (if s.group.Some? && GroupNode(s.group.value).kind == kind then None else s.group)
            && t.having == (if s.having.Some? && kind == HAVING then None else s.having)
            && t.order == (if s.order.Some? && OrderNode(s.order.value).kind == kind then None else s.order)
            && t.limit == (if s.limit.Some? && LimitNode(s.limit.value).kind == kind then None else s.limit)
  {
    hide ExprNode, ExprNodes;
  }

  lemma {:induction false} WithoutOther(n: Node, kind: Kind)
    requires n.kind != kind
    ensures Without([n], kind) == [n]
  {
    assert [n][1..] == [];
  }

  lemma {:induction false} SelectIsFiltered(s: S.Select)
    requires s.from.Some? && s.filter.Some?
    ensures IsFiltered(SelectNode(s))
  {
    hide ItemNodes, ExprNode, GroupNode, OrderNode, LimitNode;
    var front := [Plain(SELECT_LIST, ItemNodes(s.list)), FromNode(s.from.value), Plain(WHERE, [ExprNode(s.filter.value)])];
    assert front <= SelectNode(s).children;
    assert FromNode(s.from.value).kind.FROM?;
  }

  lemma {:induction false} IdlePlan(s: S.Select, kind: Kind, c: Catalog)
    requires HasShape(s) && IsWholeSelect(s) && s.from.Some? && s.filter.Some? && IsIdle(kind)
    requires (SelectIsStatement(s); IsCalm(SelectNode(s), c.isAggregate))
    ensures IsStatement(SelectNode(s)) && IsStatement(SelectNode(Idle(s, kind)))
    ensures IsCalm(SelectNode(Idle(s, kind)), c.isAggregate)
    ensures PlanOf(SelectNode(Idle(s, kind)), c) == PlanOf(SelectNode(s), c)
  {
    hide IsStatement, IsCalm, SelectNode, Dropped, IsFiltered;
    SelectIsStatement(s);
    SelectIsFiltered(s);
    DroppedSelect(s, kind);
    DroppedPlan(SelectNode(s), kind, c);
  }

  /** Behind WHERE, HAVING is not looked at: any other HAVING, or none, gives the same plan, and in
      it the same scan. */
  lemma {:induction false} HavingIsIgnored(s: S.Select, other: Option<P.Ast>, c: Catalog)
    requires HasShape(s) && IsWholeSelect(s) && s.from.Some? && s.filter.Some? && (other.Some? ==> IsWhole(other.value))
    requires (SelectIsStatement(s); IsCalm(SelectNode(s), c.isAggregate))
    ensures var t := s.(having := other);
            && IsStatement(SelectNode(s)) && IsStatement(SelectNode(t)) && IsCalm(SelectNode(t), c.isAggregate)
            && PlanOf(SelectNode(t), c) == PlanOf(SelectNode(s), c)
  {
    hide IsStatement, IsCalm, SelectNode, IsWhole, AllWholeItems, IsWholeGrouping, AllWholeSorts;
    var t := s.(having := other);
    SelectIsStatement(s);
    SelectIsStatement(t);
    assert Idle(t, HAVING) == Idle(s, HAVING);
    SameCalm(s, t, c.isAggregate);
    IdlePlan(s, HAVING, c);
    IdlePlan(t, HAVING, c);
  }

  lemma {:induction false} SameCalm(s: S.Select, t: S.Select, isAggregate: string -> bool)
    requires HasShape(s) && IsWholeSelect(s) && s.from.Some? && s.filter.Some?
    requires HasShape(t) && IsWholeSelect(t) && t.from.Some? && t.filter.Some? && Idle(t, HAVING) == Idle(s, HAVING)
    ensures IsSelect(SelectNode(s)) && IsSelect(SelectNode(t))
    ensures IsCalm(SelectNode(s), isAggregate) <==> IsCalm(SelectNode(t), isAggregate)
  {
    hide IsStatement, IsCalm, SelectNode, Dropped, IsFiltered, IsWholeSelect, SameClauses;
    SelectIsStatement(s);
    SelectIsStatement(t);
    SelectIsFiltered(s);
    SelectIsFiltered(t);
    DroppedSelect(s, HAVING);
    DroppedSelect(t, HAVING);
    DroppedStatement(SelectNode(s), HAVING, isAggregate);
    DroppedStatement(SelectNode(t), HAVING, isAggregate);
  }

  /** Nor is GROUP OVER TIMEWINDOW: the statement is not grouped by it. */
  lemma {:induction false} WindowIsIgnored(s: S.Select, c: Catalog)
    requires HasShape(s) && IsWholeSelect(s) && s.from.Some? && s.filter.Some? && HasWindow(s)
    requires (SelectIsStatement(s); IsCalm(SelectNode(s), c.isAggregate))
    ensures var t := s.(group := None);
            && IsStatement(SelectNode(s)) && IsStatement(SelectNode(t)) && IsCalm(SelectNode(t), c.isAggregate)
            && PlanOf(SelectNode(t), c) == PlanOf(SelectNode(s), c)
  {
    hide IsStatement, IsCalm, SelectNode;
    IdlePlan(s, GROUP_OVER_TIMEWINDOW, c);
  }

  // ------------------------------------------------------------------
  // Sort expressions without a token
  // ------------------------------------------------------------------

  /** Operators, a prefix minus or NOT, and a missing expression have none. */
  predicate HasToken(e: P.Ast) {
    e.Literal? || e.Call? || (e.Column? && e.names != [])
  }

  lemma {:induction false} TokenIs(e: P.Ast)
    ensures ExprNode(e).token.Some? <==> HasToken(e)
  {
  }

  predicate AnyAlias(list: seq<Node>) {
    exists j :: 0 <= j < |list| && HasAlias(list[j])
  }

  lemma {:induction false} NamedAlias(d: Node)
    ensures HasAlias(NamedColumn(d)) <==> HasAlias(d) || (d.kind.DERIVED_COLUMN? && |d.children| == 1)
  {
  }

  /** Every item but a wildcard has a name when it is prepared. */
  lemma {:induction false} ItemAlias(item: S.Item)
    ensures HasAlias(NamedColumn(ItemNode(item))) <==> item.Derived?
  {
  }

  lemma {:induction false} WithoutKeeps(ns: seq<Node>, kind: Kind, n: Node)
    ensures n in Without(ns, kind) <==> n in ns && n.kind != kind
  {
    if ns != [] {
      WithoutKeeps(ns[1..], kind, n);
    }
  }

  lemma {:induction false} ErasedKeeps(ns: seq<Node>, kind: Kind, n: Node)
    requires n.kind != kind
    ensures n in Erased(ns, kind) <==> n in ns
  {
    ErasedKeepsOthers(ns, kind);
    WithoutKeeps(ns, kind, n);
    WithoutKeeps(Erased(ns, kind), kind, n);
  }

  /** Some column has a name: one that is asked for, or one that a wildcard stands for. */
  predicate HasName(s: S.Select, c: Catalog) {
    (exists i :: 0 <= i < |s.list| && s.list[i].Derived?) || KnownColumns(s, c) != []
  }

  /** A node that has a name once it is prepared. */
  ghost predicate AnyNamed(list: seq<Node>) {
    exists n :: n in list && HasAlias(NamedColumn(n))
  }

  lemma {:induction false} NamedIsAny(list: seq<Node>)
    ensures AnyAlias(Named(list)) <==> AnyNamed(list)
  {
    if AnyAlias(Named(list)) {
      var j :| 0 <= j < |Named(list)| && HasAlias(Named(list)[j]);
      assert list[j] in list && HasAlias(NamedColumn(list[j]));
    }
    if AnyNamed(list) {
      var n :| n in list && HasAlias(NamedColumn(n));
      var j :| 0 <= j < |list| && list[j] == n;
      assert HasAlias(Named(list)[j]);
    }
  }

  lemma {:induction false} AnyOfItems(items: seq<S.Item>)
    ensures AnyNamed(Erased(ItemNodes(items), ALL)) <==> exists i :: 0 <= i < |items| && items[i].Derived?
    ensures AnyNamed(ItemNodes(items)) <==> exists i :: 0 <= i < |items| && items[i].Derived?
  {
    hide ItemNode, NamedColumn, HasAlias, Erased;
    var ns := ItemNodes(items);
    forall n ensures n in Erased(ns, ALL) && HasAlias(NamedColumn(n)) <==> n in ns && HasAlias(NamedColumn(n)) {
      WildcardHasNoAlias(n);
      if n.kind != ALL {
        ErasedKeeps(ns, ALL, n);
      }
    }
    forall i | 0 <= i < |items| ensures ns[i] in ns && (HasAlias(NamedColumn(ns[i])) <==> items[i].Derived?) {
      ItemAlias(items[i]);
    }
  }

  lemma {:induction false} WildcardHasNoAlias(n: Node)
    ensures HasAlias(NamedColumn(n)) ==> n.kind != ALL
  {
  }

  lemma {:induction false} AnyOfTable(table: Node, columns: seq<string>, k: nat)
    ensures AnyNamed(Times(TableColumns(table, columns), k)) <==> k > 0 && columns != []
  {
    var cs := TableColumns(table, columns);
    if k > 0 && columns != [] {
      var n := cs[0];
      assert n in Times(cs, k) && HasAlias(NamedColumn(n));
    } else {
      NothingTimes(cs, k);
    }
  }

  lemma {:induction false} NothingTimes(columns: seq<Node>, k: nat)
    requires k == 0 || columns == []
    ensures Times(columns, k) == []
  {
    if k > 0 {
      NothingTimes(columns, k - 1);
    }
  }

  lemma {:induction false} ErasedShrinks(ns: seq<Node>, kind: Kind)
    requires Has(ns, kind)
    ensures |Erased(ns, kind)| < |ns|
  {
    if ns[0].kind == kind {
      if |ns| > 1 {
        ErasedIsShorter(ns[2..], kind);
      }
    } else {
      ErasedShrinks(ns[1..], kind);
    }
  }

  lemma {:induction false} AnyInEither(a: seq<Node>, b: seq<Node>)
    ensures AnyNamed(a + b) <==> AnyNamed(a) || AnyNamed(b)
  {
    hide HasAlias, NamedColumn;
  }

  lemma {:induction false} PreparedNames(s: S.Select, c: Catalog)
    requires HasShape(s) && s.from.Some? && s.list != []
    requires (SelectTables(s); Prepared(SelectNode(s), c.describe).Some?)
    ensures (SelectTables(s); AnyAlias(Prepared(SelectNode(s), c.describe).value.children[0].children)) <==> HasName(s, c)
  {
    hide Prepared, SelectNode, AnyAlias, AnyNamed, Erased, Times, HasPair, ColumnCount, NamedColumn, ItemNode;
    var ast := SelectNode(s);
    SelectTables(s);
    TableIs(s, c);
    ListPrepared(s, c);
    ItemsAre(s.list, 0);
    AnyOfItems(s.list);
    if HasWildcard(s.list) {
      PreparedIff(ast, c.describe);
      NoneOfKind(ItemNodes(s.list));
      ErasedShrinks(ItemNodes(s.list), ALL);
      var left, from := Erased(ItemNodes(s.list), ALL), ast.children[1].children;
      var k := |s.list| - |left|;
      var columns := c.describe(NameOf(from[0])).value;
      AnyOfTable(from[0], columns, k);
      AnyInEither(left, Times(TableColumns(from[0], columns), k));
      NamedIsAny(left + Times(TableColumns(from[0], columns), k));
    } else {
      PreparedWithoutWildcard(ast, c.describe);
      NamedIsAny(ItemNodes(s.list));
      assert s.list[0].Derived?;
    }
  }

  /** Whether the stage that comes first, the order, can be built. */
  lemma {:induction false} OrderStageIff(ast: Node, c: Catalog)
    requires IsSelect(ast) && |ast.children| >= 2
    requires FirstOf(ast.children, LIMIT).None? && Has(ast.children, ORDER_BY)
    ensures NextStage(ast, c).ErrorStage?
       <==> var p := Prepared(ast, c.describe);
            p.None? || !CanSort(AllCopies(p.value.children[0].children), SortSpecs(ast))
    ensures NextStage(ast, c).ErrorStage? || NextStage(ast, c).OrderStage?
  {
    hide Prepared, CanSort, AllCopies, SortBy, GroupOf, NeedsGroup, IsScan, IsExpressions, Has, Count, FirstOf;
    var p := Prepared(ast, c.describe);
    if p.Some? {
      SameBehind(ast, p.value);
    }
  }

  lemma {:induction false} CanSortIff(list: seq<Node>, order: seq<S.Sort>)
    ensures CanSort(AllCopies(list), OrderNode(order).children)
       <==> !(AnyAlias(list) && exists i :: 0 <= i < |order| && !HasToken(order[i].expr))
  {
    hide HasToken, ExprNode;
    var copies, specs := AllCopies(list), OrderNode(order).children;
    forall j | 0 <= j < |list| ensures HasAlias(copies[j]) <==> HasAlias(list[j]) {
      assert copies[j] == DeepCopy(list[j]);
    }
    assert (exists j :: 0 <= j < |copies| && HasAlias(copies[j])) <==> AnyAlias(list);
    forall i | 0 <= i < |order|
      ensures specs[i].children != [] && (specs[i].children[0].token.Some? <==> HasToken(order[i].expr))
    {
      TokenIs(order[i].expr);
      assert specs[i] == SortNode(order[i]);
    }
  }

  /**
    Sorting without a limit fails exactly if the list cannot be prepared, or some column of it has a
    name and some expression to sort by has no token. Sort expressions may be missing here, all
    others are there.
    */
  lemma {:induction false} SortNeedsToken(s: S.Select, c: Catalog)
    requires HasShape(s) && s.from.Some? && s.order.Some? && s.limit.None? && s.list != []
    requires IsWholeSelect(s.(order := None))
    requires forall i :: 0 <= i < |s.order.value| ==> s.order.value[i].expr.Missing? || IsWhole(s.order.value[i].expr)
    ensures IsSelect(SelectNode(s))
    ensures var stage := NextStage(SelectNode(s), c);
            && (stage.ErrorStage? || stage.OrderStage?)
            && (stage.ErrorStage?
                <==> || (HasWildcard(s.list) && !HasKnownTable(s, c))
                     || (HasName(s, c) && exists i :: 0 <= i < |s.order.value| && !HasToken(s.order.value[i].expr)))
  {
    hide SelectNode, Prepared, CanSort, AllCopies, AnyAlias, HasName, HasWildcard, HasKnownTable, HasToken, IsWhole, FirstOf,
         NextStage, OrderNode;
    var ast := SelectNode(s);
    SelectTables(s);
    TableIs(s, c);
    LimitAndOrder(s, LIMIT);
    LimitAndOrder(s, ORDER_BY);
    ListPrepared(s, c);
    OrderStageIff(ast, c);
    var p := Prepared(ast, c.describe);
    if p.Some? {
      PreparedNames(s, c);
      CanSortIff(p.value.children[0].children, s.order.value);
    }
  }

  // ------------------------------------------------------------------
  // Wildcards that are left over
  // ------------------------------------------------------------------

  /** `SELECT t.*, t.* FROM t ORDER BY x` */
  function TwoWildcards(table: string, x: string): S.Select {
    S.Select([S.AllOf(table), S.AllOf(table)], Some([table]), None, None, None, Some([S.Sort(P.Column([x]), None)]), None)
  }

  function TableNode(table: string): Node {
    Node(TABLE_NAME, Some(P.Ident(table)), None, [])
  }

  /** The second of two wildcards is left over, and stands for the columns one stage later. */
  lemma {:induction false} LeftOver(a: Node, b: Node, columns: seq<Node>)
    requires a.kind.ALL? && b.kind.ALL? && NoWildcard(columns) && columns != []
    ensures Times(columns, 1) == columns
    ensures Erased([a, b], ALL) == [b] && Erased([b] + columns, ALL) == columns
  {
    assert Times(columns, 1) == columns + Times(columns, 0) == columns;
    assert [a, b][2..] == [];
    assert ([b] + columns)[2..] == columns[1..];
    NoneOfKind(columns[1..]);
    NothingErased(columns[1..], ALL);
    assert Erased([b] + columns, ALL) == [columns[0]] + columns[1..] == columns;
  }

  /** What has a name keeps it. */
  lemma {:induction false} NamedAlready(list: seq<Node>)
    requires forall i :: 0 <= i < |list| ==> NamedColumn(list[i]) == list[i]
    ensures Named(list) == list
  {
  }

  lemma {:induction false} TableScanned(table: Node, columns: seq<string>, isAggregate: string -> bool)
    ensures var cs := TableColumns(table, columns);
            && NoWildcard(cs) && Named(cs) == cs
            && forall i :: 0 <= i < |cs| ==>
                 HasAlias(cs[i]) && NameOf(cs[i].children[1]) == columns[i] && CanBuildItem(cs[i])
                 && !HasAggregation(cs[i], isAggregate) && !HasWithinRecord(cs[i])
  {
    forall i | 0 <= i < |columns|
      ensures !HasAggregation(TableColumn(table, columns[i]), isAggregate) && !HasWithinRecord(TableColumn(table, columns[i]))
    {
      TableColumnHasNone(table, columns[i], isAggregate);
      NoRecordIn(table, columns[i]);
    }
  }

  lemma {:induction false} NoRecordIn(table: Node, column: string)
    ensures !HasWithinRecord(TableColumn(table, column))
  {
    var name := Node(COLUMN_NAME, Some(P.Ident(column)), None, []);
    var inside := Node(TABLE_NAME, table.token, None, [name]);
    assert !HasWithinRecord(name) && !HasWithinRecord(Alias(column));
    assert [name][1..] == [] && !AnyWithinRecord([name]);
    assert !HasWithinRecord(inside);
    assert [inside, Alias(column)][1..] == [Alias(column)] && [Alias(column)][1..] == [];
    assert !AnyWithinRecord([inside, Alias(column)]);
  }

  lemma {:induction false} NoneOfThem(list: seq<Node>, isAggregate: string -> bool)
    requires forall i :: 0 <= i < |list| ==> !HasAggregation(list[i], isAggregate) && !HasWithinRecord(list[i])
    ensures !AnyAggregation(list, isAggregate) && !AnyWithinRecord(list)
  {
    if list != [] {
      NoneOfThem(list[1..], isAggregate);
    }
  }

  /** A scan of the table and nothing else is a leaf. */
  lemma {:induction false} ScanIsLeaf(ast: Node, table: string, list: seq<Node>, isAggregate: string -> bool)
    requires IsSelect(ast) && ast.kind.SELECT? && |ast.children| == 2 && ast.children[0].children == list
    requires ast.children[1] == FromNode([table])
    requires forall i :: 0 <= i < |list| ==>
               CanBuildItem(list[i]) && !HasAggregation(list[i], isAggregate) && !HasWithinRecord(list[i])
    ensures StageOf(ast, isAggregate) == LeafStage(SequentialScan(table, list, None, NO_AGGREGATION))
  {
    hide CanBuildItem, HasAggregation, HasWithinRecord;
    NoneOfThem(list, isAggregate);
    assert ast.children == [ast.children[0]] + [ast.children[1]];
    NoneAmong(ast.children[0], ast.children[1], ORDER_BY);
    NoneAmong(ast.children[0], ast.children[1], GROUP_BY);
    assert FirstOf(ast.children, ORDER_BY).None? && !NeedsGroup(ast, isAggregate);
  }

  lemma {:induction false} NoneAmong(a: Node, b: Node, kind: Kind)
    requires a.kind != kind && b.kind != kind
    ensures !Has([a] + [b], kind)
  {
    OnlyOne(a, kind);
    OnlyOne(b, kind);
    HasConcat([a], [b], kind);
  }

  lemma {:induction false} TwoWildcardsNode(table: string, x: string)
    ensures var s := TwoWildcards(table, x);
            var w := ItemNode(S.AllOf(table));
            && HasShape(s) && IsWholeSelect(s)
            && SelectNode(s) == Plain(SELECT, [Plain(SELECT_LIST, [w, w]), FromNode([table]), OrderNode(s.order.value)])
  {
    var s := TwoWildcards(table, x);
    assert ItemNodes(s.list) == [ItemNode(S.AllOf(table)), ItemNode(S.AllOf(table))];
  }

  lemma {:induction false} TwoWildcardsCalm(table: string, x: string, isAggregate: string -> bool)
    ensures var ast := SelectNode(TwoWildcards(table, x)); IsStatement(ast) && IsCalm(ast, isAggregate)
  {
    var s := TwoWildcards(table, x);
    TwoWildcardsNode(table, x);
    SelectIsStatement(s);
    hide FromParser, HasTables, Count, IsWholeSelect;
    var w := ItemNode(S.AllOf(table));
    var column := ExprNode(P.Column([x]));
    assert w.children == [] && !Nested(w, isAggregate) && !Nested(column, isAggregate);
    assert [w, w][1..] == [w] && [w][1..] == [] && !AnyNested([w], isAggregate);
    assert !AnyNested([w, w], isAggregate);
    var spec := SortNode(s.order.value[0]);
    LimitAndOrder(s, ORDER_BY);
    assert SortSpecs(SelectNode(s)) == [spec] && [spec][1..] == [] && spec.children == [column];
    assert SortColumns([]) == [] && SortColumns([spec]) == [column] + [];
    assert [column][1..] == [] && !AnyNested([column], isAggregate);
    CountClauses(s, GROUP_BY);
    NoCount(SelectNode(s).children, GROUP_BY);
    NothingToGroupBy(SelectNode(s), isAggregate);
  }

  /** The columns behind a wildcard that is left over: the first is found at place 1. */
  lemma {:induction false} SortedBehindWildcard(w: Node, cs: seq<Node>, spec: Node, x: string)
    requires w.kind.ALL? && cs != [] && HasAlias(cs[0]) && NameOf(cs[0].children[1]) == x
    requires spec.children != [] && NameOf(spec.children[0]) == x && spec.token.None?
    ensures SortBy([w] + cs, [spec]) == Sorted([Sort(1, false)], [w] + cs)
  {
    assert ([w] + cs)[1..] == cs && AliasPlace(cs, x) == 0;
    assert !IsAlias(w, x) && AliasPlace([w] + cs, x) == 1;
    assert [spec][1..] == [] && SortBy([w] + cs, []) == Sorted([], [w] + cs);
    assert [Sort(1, false)] + [] == [Sort(1, false)];
  }

  /** The first stage: the order takes its columns from a list with one wildcard left over. */
  lemma {:induction false} FirstStage(table: string, columns: seq<string>, c: Catalog)
    requires columns != [] && c.describe(table) == Some(columns)
    ensures var ast := SelectNode(TwoWildcards(table, columns[0]));
            var stage := (TwoWildcardsCalm(table, columns[0], c.isAggregate); NextStage(ast, c));
            && stage.OrderStage? && stage.sorts == [Sort(1, false)] && stage.width == 1 + |columns|
            && stage.child.kind.SELECT? && |stage.child.children| == 2 && stage.child.children[0].kind.SELECT_LIST?
            && stage.child.children[0].children == [ItemNode(S.AllOf(table))] + TableColumns(TableNode(table), columns)
            && stage.child.children[1] == FromNode([table])
  {
    hide Prepared, FromParser, HasTables, Count, IsCalm, SortBy, ExprNode;
    var s := TwoWildcards(table, columns[0]);
    var ast, w, cs := SelectNode(s), ItemNode(S.AllOf(table)), TableColumns(TableNode(table), columns);
    TwoWildcardsNode(table, columns[0]);
    TwoWildcardsCalm(table, columns[0], c.isAggregate);
    TableScanned(TableNode(table), columns, c.isAggregate);
    assert ast.children[1].children == [TableNode(table)];
    PreparedIff(ast, c.describe);
    LeftOver(w, w, cs);
    var p := Prepared(ast, c.describe).value;
    NamedAlready([w] + cs);
    assert p.children[0].children == [w] + cs;
    PreparedStatement(ast, c);
    OrderOfTwo(p, w, cs, table, columns[0], c.isAggregate);
  }

  /** The same of the statement that has been prepared. */
  lemma {:induction false} OrderOfTwo(p: Node, w: Node, cs: seq<Node>, table: string, x: string, isAggregate: string -> bool)
    requires IsStatement(p) && p.kind.SELECT? && p.children[0].children == [w] + cs
    requires w.kind.ALL? && cs != [] && HasAlias(cs[0]) && NameOf(cs[0].children[1]) == x
    requires p.children[1..] == [FromNode([table]), OrderNode([S.Sort(P.Column([x]), None)])]
    ensures var stage := StageOf(p, isAggregate);
            && stage.OrderStage? && stage.sorts == [Sort(1, false)] && stage.width == 1 + |cs|
            && stage.child.kind.SELECT? && |stage.child.children| == 2 && stage.child.children[0].kind.SELECT_LIST?
            && stage.child.children[0].children == [w] + cs && stage.child.children[1] == FromNode([table])
  {
    hide FromParser, HasTables, Count, SortBy, GroupOf, IsScan, IsExpressions, NeedsGroup, OrderOf, LimitOf, Has, FirstOf, CanSort,
         StageOf, SameOf, Without;
    var spec := SortNode(S.Sort(P.Column([x]), None));
    assert OrderNode([S.Sort(P.Column([x]), None)]).children == [spec];
    TwoClauses(p, FromNode([table]), OrderNode([S.Sort(P.Column([x]), None)]));
    SortedBehindWildcard(w, cs, spec, x);
    OrderParts(p, isAggregate);
    var child := StageOf(p, isAggregate).child;
    assert child.children[1..] == [FromNode([table])];
    assert child.children[1] == child.children[1..][0];
  }

  /** The tables and the order are all there is behind the list. */
  lemma {:induction false} TwoClauses(p: Node, from: Node, order: Node)
    requires IsStatement(p) && p.children[1..] == [from, order] && from.kind.FROM? && order.kind.ORDER_BY?
    requires forall i :: 0 <= i < |order.children| ==> order.children[i].children != [] && order.children[i].children[0].token.Some?
    ensures LimitOf(p).NoStage? && SortSpecs(p) == order.children && Has(p.children, ORDER_BY)
    ensures CanSort(p.children[0].children, SortSpecs(p))
    ensures |p.children| == 3 && Without(p.children[1..], ORDER_BY) == [from]
  {
    hide FromParser, HasTables, Count;
    var head := p.children[0];
    assert p.children == [head] + [from, order];
    assert p.children[1..][1..] == [order] && [order][1..] == [];
    assert FirstOf([order], ORDER_BY) == Some(order) && FirstOf([order], LIMIT) == None;
    assert FirstOf([from, order], ORDER_BY) == Some(order) && FirstOf([from, order], LIMIT) == None;
    assert Without([order], ORDER_BY) == [] && Without([from, order], ORDER_BY) == [from] + [];
  }

  /** What the order stage of a statement consists of. */
  lemma {:induction false} OrderParts(ast: Node, isAggregate: string -> bool)
    requires IsStatement(ast) && LimitOf(ast).NoStage? && |ast.children| >= 2
    requires Has(ast.children, ORDER_BY) && CanSort(ast.children[0].children, SortSpecs(ast))
    ensures var stage, r := StageOf(ast, isAggregate), SortBy(ast.children[0].children, SortSpecs(ast));
            && stage.OrderStage? && stage.sorts == r.sorts && stage.width == |ast.children[0].children|
            && IsChild(ast, ast.kind, r.list, ORDER_BY, stage.child)
  {
    hide FromParser, HasTables, Count, SortBy, GroupOf, IsScan, IsExpressions, NeedsGroup, LimitOf, CanSort, IsChild, Erased;
    ListFromParser(ast);
    CopiesAreSame(ast.children[0].children);
    OrderChild(ast, isAggregate);
  }

  /** Sorting by the first of two or more columns of a table whose columns are asked for twice: the
      scan has all columns twice, but the rows are cut to one more than the columns of the table, and
      they are sorted by the second. */
  lemma {:induction false} TwoWildcardsShiftSort(table: string, columns: seq<string>, c: Catalog)
    requires |columns| > 1 && c.describe(table) == Some(columns)
    ensures var ast := SelectNode(TwoWildcards(table, columns[0]));
            var cs := TableColumns(TableNode(table), columns);
            && IsStatement(ast) && IsCalm(ast, c.isAggregate)
            && PlanOf(ast, c) == Some(OrderPlan([Sort(1, false)], 1 + |columns|,
                                                LeafPlan(SequentialScan(table, cs + cs, None, NO_AGGREGATION))))
            && (cs + cs)[1] == TableColumn(TableNode(table), columns[1])
            && 1 + |columns| < |cs + cs|
  {
    hide FromParser, HasTables, Count, IsCalm, NextStage, StagesLeft, SelectNode;
    var ast, cs := SelectNode(TwoWildcards(table, columns[0])), TableColumns(TableNode(table), columns);
    TwoWildcardsCalm(table, columns[0], c.isAggregate);
    FirstStage(table, columns, c);
    StageDescends(ast, c);
    var child := NextStage(ast, c).child;
    SecondStage(child, table, columns, c);
    assert PlanOf(child, c) == Some(LeafPlan(SequentialScan(table, cs + cs, None, NO_AGGREGATION)));
  }

  lemma {:induction false} SecondStage(child: Node, table: string, columns: seq<string>, c: Catalog)
    requires IsStatement(child) && child.kind.SELECT? && |child.children| == 2 && child.children[1] == FromNode([table])
    requires child.children[0].children == [ItemNode(S.AllOf(table))] + TableColumns(TableNode(table), columns)
    requires columns != [] && c.describe(table) == Some(columns)
    ensures var cs := TableColumns(TableNode(table), columns);
            NextStage(child, c) == LeafStage(SequentialScan(table, cs + cs, None, NO_AGGREGATION))
  {
    hide Prepared, FromParser, Count, StageOf, CanBuildItem, HasAggregation, HasWithinRecord;
    var w, cs := ItemNode(S.AllOf(table)), TableColumns(TableNode(table), columns);
    assert child.children[1].children == [TableNode(table)];
    TableScanned(TableNode(table), columns, c.isAggregate);
    PreparedIff(child, c.describe);
    LeftOver(w, w, cs);
    var p := Prepared(child, c.describe).value;
    NamedAlready(cs + cs);
    assert p.children[0].children == cs + cs;
    assert p.children[1] == p.children[1..][0] == child.children[1];
    ScanIsLeaf(p, table, cs + cs, c.isAggregate);
  }
}

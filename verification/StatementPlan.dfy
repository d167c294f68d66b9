/**
  From the text of a SELECT statement to its plan: the tree that the parser appends, clause by
  clause, is one that the plan builder can take.
  */
module StatementPlan {
  import opened Wrappers
  import P = SqlParser
  import S = SqlStatement
  import opened SqlTokenizer
  import T = StatementText
  import W = Precedence
  import opened AstNode
  import opened SelectList
  import opened PlanPrepare
  import opened PlanStages
  import opened PlanBuilder

  // ------------------------------------------------------------------
  // The tree of a statement
  // ------------------------------------------------------------------

  /** A missing expression is a null child. */
  function ExprNode(e: P.Ast): Node {
    match e
    case Missing => Plain(MISSING, [])
    case Void => Plain(VOID, [])
    case Literal(token) => Node(LITERAL, Some(token), None, [])
    case Column(names) => ColumnNode(names)
    case Call(kind, name, args) => Node(CallKind(kind), Some(P.Ident(name)), None, ExprNodes(args))
    case Negate(operand) => Plain(NEGATE_EXPR, [ExprNode(operand)])
    case Binary(op, l, r) => Plain(OPERATOR(op), [ExprNode(l), ExprNode(r)])
  }

  function ExprNodes(es: seq<P.Ast>): (ns: seq<Node>)
    ensures |ns| == |es| && forall i :: 0 <= i < |es| ==> ns[i] == ExprNode(es[i])
  {
    if es == [] then [] else [ExprNode(es[0])] + ExprNodes(es[1..])
  }

  function CallKind(kind: P.CallKind): Kind {
    match kind
    case METHOD_CALL => METHOD_CALL
    case IF_EXPR => IF_EXPR
    case COLUMN_INDEX => COLUMN_INDEX
    case METHOD_CALL_WITHIN_RECORD => METHOD_CALL_WITHIN_RECORD
  }

  /** A dotted name: every part below the one before. */
  function ColumnNode(names: seq<string>): Node {
    if names == [] then Plain(COLUMN_NAME, [])
    else Node(COLUMN_NAME, Some(P.Ident(names[0])), None, if |names| == 1 then [] else [ColumnNode(names[1..])])
  }

  function ItemNode(i: S.Item): Node {
    match i
    case All => Plain(ALL, [])
    case AllOf(table) => Node(ALL, Some(P.Ident(table)), None, [])
    case Derived(e, alias) =>
      Plain(DERIVED_COLUMN,
            [ExprNode(e)]
            + if alias.None? then [] else [Node(COLUMN_ALIAS, Some(P.Ident(alias.value)), None, [])])
  }

  function ItemNodes(items: seq<S.Item>): (ns: seq<Node>)
    ensures |ns| == |items| && forall i :: 0 <= i < |items| ==> ns[i] == ItemNode(items[i])
  {
    seq(|items|, i requires 0 <= i < |items| => ItemNode(items[i]))
  }

  function FromNode(tables: seq<string>): Node {
    Plain(FROM, seq(|tables|, i requires 0 <= i < |tables| => Node(TABLE_NAME, Some(P.Ident(tables[i])), None, [])))
  }

  function GroupNode(g: S.Grouping): Node {
    match g
    case ByExprs(es) => Plain(GROUP_BY, ExprNodes(es))
    case OverWindow(time, window, step, es) =>
      Plain(GROUP_OVER_TIMEWINDOW,
            [ExprNode(time), Plain(GROUP_BY, ExprNodes(es)), ExprNode(window)]
            + if step.None? then [] else [ExprNode(step.value)])
  }

  function SortNode(s: S.Sort): Node {
    Node(SORT_SPEC, if s.order.None? then None else Some(P.Keyword(s.order.value)), None, [ExprNode(s.expr)])
  }

  function OrderNode(o: seq<S.Sort>): Node {
    Plain(ORDER_BY, seq(|o|, i requires 0 <= i < |o| => SortNode(o[i])))
  }

  function LimitNode(l: S.Limit): Node {
    Node(LIMIT, Some(P.Numeric(l.limit)), None,
         if l.offset.None? then [] else [Node(OFFSET, Some(P.Numeric(l.offset.value)), None, [])])
  }

  function Optional<A>(a: Option<A>, node: A -> Node): seq<Node> {
    if a.None? then [] else [node(a.value)]
  }

  function SelectNode(s: S.Select): Node {
    Plain(SELECT,
          [Plain(SELECT_LIST, ItemNodes(s.list))]
          + Optional(s.from, FromNode)
          + Optional(s.filter, e => Plain(WHERE, [ExprNode(e)]))
          + Optional(s.group, GroupNode)
          + Optional(s.having, e => Plain(HAVING, [ExprNode(e)]))
          + Optional(s.order, OrderNode)
          + Optional(s.limit, LimitNode))
  }

  // ------------------------------------------------------------------
  // The tree is a statement for the plan builder
  // ------------------------------------------------------------------

  lemma {:induction false} ColumnFromParser(names: seq<string>)
    ensures (FromParser(ColumnNode(names)) <==> names != []) && ColumnNode(names).kind.COLUMN_NAME?
    decreases names
  {
    if |names| > 1 {
      ColumnFromParser(names[1..]);
    }
  }

  /** No expression is missing in it, and no name. */
  predicate IsWhole(e: P.Ast) {
    match e
    case Missing => false
    case Column(names) => names != []
    case Call(_, _, args) => AllWhole(args)
    case Negate(operand) => IsWhole(operand)
    case Binary(_, l, r) => IsWhole(l) && IsWhole(r)
    case _ => true
  }

  predicate AllWhole(es: seq<P.Ast>) {
    forall i :: 0 <= i < |es| ==> IsWhole(es[i])
  }

  predicate AllWholeItems(items: seq<S.Item>) {
    forall i :: 0 <= i < |items| && items[i].Derived? ==> IsWhole(items[i].expr)
  }

  predicate AllWholeSorts(o: seq<S.Sort>) {
    forall i :: 0 <= i < |o| ==> IsWhole(o[i].expr)
  }

  predicate IsWholeGrouping(g: S.Grouping) {
    match g
    case ByExprs(es) => AllWhole(es)
    case OverWindow(time, window, step, es) =>
      IsWhole(time) && IsWhole(window) && (step.Some? ==> IsWhole(step.value)) && AllWhole(es)
  }

  /** No expression of the statement is missing. */
  predicate IsWholeSelect(s: S.Select) {
    && AllWholeItems(s.list)
    && (s.filter.Some? ==> IsWhole(s.filter.value))
    && (s.group.Some? ==> IsWholeGrouping(s.group.value))
    && (s.having.Some? ==> IsWhole(s.having.value))
    && (s.order.Some? ==> AllWholeSorts(s.order.value))
  }

  /** What can be written is whole. */
  lemma {:induction false} PrintableIsWhole(e: P.Ast)
    requires W.Printable(e)
    ensures IsWhole(e)
    decreases e
  {
    match e
    case Call(_, _, args) =>
      forall i | 0 <= i < |args| ensures IsWhole(args[i]) {
        if args[i] != P.Void {
          PrintableIsWhole(args[i]);
        }
      }
    case Negate(operand) => PrintableIsWhole(operand);
    case Binary(_, l, r) =>
      PrintableIsWhole(l);
      PrintableIsWhole(r);
    case _ =>
  }

  lemma {:induction false} AllPrintableAreWhole(es: seq<P.Ast>)
    requires T.AllPrintable(es)
    ensures AllWhole(es)
  {
    forall i | 0 <= i < |es| ensures IsWhole(es[i]) {
      PrintableIsWhole(es[i]);
    }
  }

  lemma {:induction false} WritableIsWhole(s: S.Select)
    requires T.Writable(s)
    ensures IsWholeSelect(s) && HasShape(s)
  {
    hide W.Printable, IsWhole;
    forall i | 0 <= i < |s.list| && s.list[i].Derived? ensures IsWhole(s.list[i].expr) {
      PrintableIsWhole(s.list[i].expr);
    }
    if s.filter.Some? {
      PrintableIsWhole(s.filter.value);
    }
    if s.having.Some? {
      PrintableIsWhole(s.having.value);
    }
    if s.order.Some? {
      forall i | 0 <= i < |s.order.value| ensures IsWhole(s.order.value[i].expr) {
        assert T.IsSort(s.order.value[i]);
        PrintableIsWhole(s.order.value[i].expr);
      }
    }
    if s.group.Some? {
      match s.group.value
      case ByExprs(es) => AllPrintableAreWhole(es);
      case OverWindow(time, window, step, es) =>
        PrintableIsWhole(time);
        PrintableIsWhole(window);
        if step.Some? {
          PrintableIsWhole(step.value);
        }
        AllPrintableAreWhole(es);
    }
  }

  /** A tree is one for the plan builder exactly if no expression is missing. */
  lemma {:induction false} ExprFromParser(e: P.Ast)
    ensures FromParser(ExprNode(e)) <==> IsWhole(e)
    decreases e
  {
    match e
    case Column(names) => ColumnFromParser(names);
    case Call(_, _, args) => ExprsFromParser(args);
    case Negate(operand) =>
      ExprFromParser(operand);
      assert ExprNode(e).children[0] == ExprNode(operand);
    case Binary(_, l, r) =>
      ExprFromParser(l);
      ExprFromParser(r);
      var cs := ExprNode(e).children;
      assert cs[0] == ExprNode(l) && cs[1] == ExprNode(r);
    case _ =>
  }

  lemma {:induction false} ExprsFromParser(es: seq<P.Ast>)
    ensures AllFromParser(ExprNodes(es)) <==> AllWhole(es)
    decreases es
  {
    forall i | 0 <= i < |es| ensures FromParser(ExprNodes(es)[i]) <==> IsWhole(es[i]) {
      ExprFromParser(es[i]);
    }
  }

  lemma {:induction false} ItemFromParser(item: S.Item)
    ensures FromParser(ItemNode(item)) <==> (item.Derived? ==> IsWhole(item.expr))
  {
    if item.Derived? {
      ExprFromParser(item.expr);
      assert ItemNode(item).children[0] == ExprNode(item.expr);
    }
  }

  lemma {:induction false} ItemsFromParser(items: seq<S.Item>)
    ensures AllFromParser(ItemNodes(items)) <==> AllWholeItems(items)
  {
    hide FromParser, IsWhole, ItemNode;
    forall i | 0 <= i < |items| ensures FromParser(ItemNodes(items)[i]) <==> (items[i].Derived? ==> IsWhole(items[i].expr)) {
      ItemFromParser(items[i]);
    }
  }

  lemma {:induction false} GroupFromParser(g: S.Grouping)
    ensures FromParser(GroupNode(g)) <==> IsWholeGrouping(g)
  {
    hide FromParser, ExprNode, ExprNodes, IsWhole, AllWhole;
    match g
    case ByExprs(es) => KeysFromParser(es);
    case OverWindow(time, window, step, es) =>
      ExprFromParser(time);
      ExprFromParser(window);
      KeysFromParser(es);
      var keys := Plain(GROUP_BY, ExprNodes(es));
      WindowFromParser(ExprNode(time), keys, ExprNode(window), if step.None? then [] else [ExprNode(step.value)]);
      if step.Some? {
        ExprFromParser(step.value);
        assert [ExprNode(step.value)][0] == ExprNode(step.value);
      }
  }

  lemma {:induction false} WindowFromParser(time: Node, keys: Node, window: Node, step: seq<Node>)
    ensures FromParser(Plain(GROUP_OVER_TIMEWINDOW, [time, keys, window] + step))
            <==> FromParser(time) && FromParser(keys) && FromParser(window) && AllFromParser(step)
  {
    var cs := [time, keys, window] + step;
    assert FromParser(Plain(GROUP_OVER_TIMEWINDOW, cs)) <==> AllFromParser(cs);
    hide FromParser;
    assert cs[0] == time && cs[1] == keys && cs[2] == window;
    AllConcat([time, keys, window], step);
  }

  lemma {:induction false} KeysFromParser(es: seq<P.Ast>)
    ensures FromParser(Plain(GROUP_BY, ExprNodes(es))) <==> AllWhole(es)
  {
    ExprsFromParser(es);
  }

  lemma {:induction false} SortFromParser(s: S.Sort)
    ensures FromParser(SortNode(s)) <==> IsWhole(s.expr)
  {
    ExprFromParser(s.expr);
    assert SortNode(s).children[0] == ExprNode(s.expr);
  }

  lemma {:induction false} OrderFromParser(o: seq<S.Sort>)
    ensures FromParser(OrderNode(o)) <==> AllWholeSorts(o)
  {
    var sorts := OrderNode(o).children;
    forall i | 0 <= i < |o| ensures FromParser(sorts[i]) <==> IsWhole(o[i].expr) {
      SortFromParser(o[i]);
    }
  }

  lemma {:induction false} CountConcat(a: seq<Node>, b: seq<Node>, kind: Kind)
    ensures Count(a + b, kind) == Count(a, kind) + Count(b, kind)
  {
    if a == [] {
      assert a + b == b;
    } else {
      assert (a + b)[1..] == a[1..] + b;
      CountConcat(a[1..], b, kind);
    }
  }

  lemma {:induction false} CountOptional<A>(before: seq<Node>, a: Option<A>, node: A -> Node, kind: Kind)
    ensures Count(before + Optional(a, node), kind)
         == Count(before, kind) + if a.Some? && node(a.value).kind == kind then 1 else 0
  {
    CountConcat(before, Optional(a, node), kind);
    if a.Some? {
      assert [node(a.value)][1..] == [];
    }
  }

  lemma {:induction false} CountClauses(s: S.Select, kind: Kind)
    requires kind == LIMIT || kind == ORDER_BY || kind == GROUP_BY
    ensures Count(SelectNode(s).children, kind)
         == if kind == LIMIT then (if s.limit.Some? then 1 else 0)
            else if kind == ORDER_BY then (if s.order.Some? then 1 else 0)
            else if s.group.Some? && s.group.value.ByExprs? then 1
            else 0
  {
    hide Count, ItemNodes, Optional;
    var list := [Plain(SELECT_LIST, ItemNodes(s.list))];
    var filter := (e: P.Ast) => Plain(WHERE, [ExprNode(e)]);
    var having := (e: P.Ast) => Plain(HAVING, [ExprNode(e)]);
    OnlyList(list[0], kind);
    CountOptional(list, s.from, FromNode, kind);
    var a := list + Optional(s.from, FromNode);
    CountOptional(a, s.filter, filter, kind);
    var b := a + Optional(s.filter, filter);
    CountOptional(b, s.group, GroupNode, kind);
    var c := b + Optional(s.group, GroupNode);
    CountOptional(c, s.having, having, kind);
    var d := c + Optional(s.having, having);
    CountOptional(d, s.order, OrderNode, kind);
    var e := d + Optional(s.order, OrderNode);
    CountOptional(e, s.limit, LimitNode, kind);
  }

  lemma {:induction false} OnlyList(list: Node, kind: Kind)
    requires list.kind != kind
    ensures Count([list], kind) == 0
  {
    assert [list][1..] == [];
  }

  lemma {:induction false} AllConcat(a: seq<Node>, b: seq<Node>)
    ensures AllFromParser(a + b) <==> AllFromParser(a) && AllFromParser(b)
  {
    hide FromParser;
    assert forall i :: 0 <= i < |a| ==> a[i] == (a + b)[i];
    assert forall i :: 0 <= i < |b| ==> b[i] == (a + b)[|a| + i];
  }

  lemma {:induction false} AllOptional<A>(before: seq<Node>, a: Option<A>, node: A -> Node)
    ensures AllFromParser(before + Optional(a, node))
            <==> AllFromParser(before) && (a.Some? ==> FromParser(node(a.value)))
  {
    hide FromParser;
    AllConcat(before, Optional(a, node));
    if a.Some? {
      assert Optional(a, node)[0] == node(a.value);
    }
  }

  lemma {:induction false} ClausesFromParser(s: S.Select)
    ensures AllFromParser(SelectNode(s).children) <==> IsWholeSelect(s)
  {
    hide FromParser, AllFromParser, ExprNode, ItemNodes, GroupNode, OrderNode, LimitNode, FromNode, Optional,
         AllWholeItems, AllWholeSorts, IsWhole, IsWholeGrouping;
    PartsFromParser(s);
    var list := [Plain(SELECT_LIST, ItemNodes(s.list))];
    var filter := (e: P.Ast) => Plain(WHERE, [ExprNode(e)]);
    var having := (e: P.Ast) => Plain(HAVING, [ExprNode(e)]);
    AllOptional(list, s.from, FromNode);
    var a := list + Optional(s.from, FromNode);
    AllOptional(a, s.filter, filter);
    var b := a + Optional(s.filter, filter);
    AllOptional(b, s.group, GroupNode);
    var c := b + Optional(s.group, GroupNode);
    AllOptional(c, s.having, having);
    var d := c + Optional(s.having, having);
    AllOptional(d, s.order, OrderNode);
    var e := d + Optional(s.order, OrderNode);
    AllOptional(e, s.limit, LimitNode);
  }

  lemma {:induction false} ClauseFromExpr(kind: Kind, e: P.Ast)
    requires kind.WHERE? || kind.HAVING?
    ensures FromParser(Plain(kind, [ExprNode(e)])) <==> IsWhole(e)
  {
    ExprFromParser(e);
    assert Plain(kind, [ExprNode(e)]).children[0] == ExprNode(e);
  }

  lemma {:induction false} ListFromItems(items: seq<S.Item>)
    ensures AllFromParser([Plain(SELECT_LIST, ItemNodes(items))]) <==> AllWholeItems(items)
  {
    ItemsFromParser(items);
    var list := Plain(SELECT_LIST, ItemNodes(items));
    assert FromParser(list) <==> AllFromParser(ItemNodes(items));
    assert [list][0] == list;
  }

  lemma {:induction false} PartsFromParser(s: S.Select)
    ensures AllFromParser([Plain(SELECT_LIST, ItemNodes(s.list))]) <==> AllWholeItems(s.list)
    ensures s.from.Some? ==> FromParser(FromNode(s.from.value))
    ensures s.filter.Some? ==> (FromParser(Plain(WHERE, [ExprNode(s.filter.value)])) <==> IsWhole(s.filter.value))
    ensures s.group.Some? ==> (FromParser(GroupNode(s.group.value)) <==> IsWholeGrouping(s.group.value))
    ensures s.having.Some? ==> (FromParser(Plain(HAVING, [ExprNode(s.having.value)])) <==> IsWhole(s.having.value))
    ensures s.order.Some? ==> (FromParser(OrderNode(s.order.value)) <==> AllWholeSorts(s.order.value))
    ensures s.limit.Some? ==> FromParser(LimitNode(s.limit.value))
  {
    hide ExprNode, ItemNodes, GroupNode, OrderNode, IsWhole, IsWholeGrouping, AllWholeItems, AllWholeSorts, AllFromParser;
    ListFromItems(s.list);
    if s.filter.Some? {
      ClauseFromExpr(WHERE, s.filter.value);
    }
    if s.group.Some? {
      GroupFromParser(s.group.value);
    }
    if s.having.Some? {
      ClauseFromExpr(HAVING, s.having.value);
    }
    if s.order.Some? {
      OrderFromParser(s.order.value);
    }
  }

  /** What the parser reads has tables behind FROM, and without FROM no clause. */
  predicate HasShape(s: S.Select) {
    if s.from.Some? then s.from.value != []
    else s.filter.None? && s.group.None? && s.having.None? && s.order.None? && s.limit.None?
  }

  lemma {:induction false} ParsedHasShape(ts: seq<P.Token>)
    requires S.SelectOf(ts).Done?
    ensures HasShape(S.SelectOf(ts).value)
  {
    hide S.SelectListOf, S.TableOf, S.ListOf, S.GroupOf, S.OrderOf, S.LimitOf, S.ExprOf;
    S.ReadersShorten();
    S.ClausesShorten();
  }

  /** The parser never appends two clauses of a kind, and nothing but what it has read. */
  lemma {:induction false} SelectIsStatement(s: S.Select)
    requires HasShape(s)
    ensures IsSelect(SelectNode(s)) && (IsStatement(SelectNode(s)) <==> IsWholeSelect(s))
  {
    hide Count, ItemNodes, ExprNode, GroupNode, OrderNode, LimitNode, IsWholeSelect;
    CountClauses(s, LIMIT);
    CountClauses(s, ORDER_BY);
    CountClauses(s, GROUP_BY);
    ClausesFromParser(s);
    assert FromParser(SelectNode(s)) <==> AllFromParser(SelectNode(s).children);
    if s.from.Some? {
      assert SelectNode(s).children[1] == FromNode(s.from.value);
    }
  }

  /** A SELECT that is parsed, from any tokens, is a statement for the plan builder exactly if no
      expression is missing in it. */
  lemma {:induction false} ParsedIsStatement(ts: seq<P.Token>)
    requires S.SelectOf(ts).Done?
    ensures var s := S.SelectOf(ts).value; HasShape(s) && (IsStatement(SelectNode(s)) <==> IsWholeSelect(s))
  {
    hide S.SelectOf, IsStatement, SelectNode, IsWholeSelect;
    ParsedHasShape(ts);
    SelectIsStatement(S.SelectOf(ts).value);
  }

  lemma {:induction false} FirstConcat(a: seq<Node>, b: seq<Node>, kind: Kind)
    ensures FirstOf(a + b, kind) == if FirstOf(a, kind).Some? then FirstOf(a, kind) else FirstOf(b, kind)
  {
    if a == [] {
      assert a + b == b;
    } else {
      assert (a + b)[1..] == a[1..] + b;
      FirstConcat(a[1..], b, kind);
    }
  }

  lemma {:induction false} FirstOptional<A>(before: seq<Node>, a: Option<A>, node: A -> Node, kind: Kind)
    ensures FirstOf(before + Optional(a, node), kind)
         == if FirstOf(before, kind).Some? then FirstOf(before, kind)
            else if a.Some? && node(a.value).kind == kind then Some(node(a.value))
            else None
  {
    FirstConcat(before, Optional(a, node), kind);
    if a.Some? {
      assert [node(a.value)][1..] == [];
    }
  }

  lemma {:induction false} LimitAndOrder(s: S.Select, kind: Kind)
    requires kind == LIMIT || kind == ORDER_BY
    ensures FirstOf(SelectNode(s).children, kind)
         == if kind == LIMIT then (if s.limit.None? then None else Some(LimitNode(s.limit.value)))
            else if s.order.None? then None
            else Some(OrderNode(s.order.value))
  {
    hide FirstOf, ItemNodes, Optional;
    var list := [Plain(SELECT_LIST, ItemNodes(s.list))];
    var filter := (e: P.Ast) => Plain(WHERE, [ExprNode(e)]);
    var having := (e: P.Ast) => Plain(HAVING, [ExprNode(e)]);
    NotFirst(list[0], kind);
    FirstOptional(list, s.from, FromNode, kind);
    var a := list + Optional(s.from, FromNode);
    FirstOptional(a, s.filter, filter, kind);
    var b := a + Optional(s.filter, filter);
    FirstOptional(b, s.group, GroupNode, kind);
    var c := b + Optional(s.group, GroupNode);
    FirstOptional(c, s.having, having, kind);
    var d := c + Optional(s.having, having);
    FirstOptional(d, s.order, OrderNode, kind);
    var e := d + Optional(s.order, OrderNode);
    FirstOptional(e, s.limit, LimitNode, kind);
  }

  lemma {:induction false} NotFirst(n: Node, kind: Kind)
    requires n.kind != kind
    ensures FirstOf([n], kind) == None
  {
    assert [n][1..] == [];
  }

  lemma {:induction false} LimitStageIs(ast: Node, l: S.Limit)
    requires |ast.children| >= 3 && FirstOf(ast.children, LIMIT) == Some(LimitNode(l))
    ensures var stage := LimitOf(ast);
            || stage.ErrorStage?
            || (stage.LimitStage? && Some(stage.limit) == GetInteger(l.limit)
                && (if l.offset.None? then stage.offset == 0 else Some(stage.offset) == GetInteger(l.offset.value)))
  {
    hide GetInteger, Erased, AllCopies;
  }

  /** Which node comes outermost is what the statement says, unless there is an error. */
  lemma {:induction false} OutermostStage(s: S.Select, c: Catalog)
    requires HasShape(s) && IsWholeSelect(s) && s.from.Some?
    ensures var stage := (SelectIsStatement(s); NextStage(SelectNode(s), c));
            stage.ErrorStage? ||
            if s.limit.Some? then
              && stage.LimitStage? && Some(stage.limit) == GetInteger(s.limit.value.limit)
              && (if s.limit.value.offset.None? then stage.offset == 0
                  else Some(stage.offset) == GetInteger(s.limit.value.offset.value))
            else if s.order.Some? then stage.OrderStage? && |stage.sorts| == |s.order.value|
            else !stage.LimitStage? && !stage.OrderStage?
  {
    hide FirstOf, GroupOf, NeedsGroup, SortBy, SortNode, ChildAst, Erased, AllCopies, GetInteger, NumberOf, OffsetOf,
         Prepared, IsScan, IsExpressions, CanSort, SelectNode, Count, FromParser, HasTables;
    LimitAndOrder(s, LIMIT);
    LimitAndOrder(s, ORDER_BY);
    SelectIsStatement(s);
    ClausesCount(s);
    if Prepared(SelectNode(s), c.describe).Some? {
      PreparedStatement(SelectNode(s), c);
      if s.limit.Some? {
        LimitStageIs(Prepared(SelectNode(s), c.describe).value, s.limit.value);
      }
    }
  }

  lemma {:induction false} ClausesCount(s: S.Select)
    requires s.from.Some?
    ensures |SelectNode(s).children| >= 2
    ensures s.limit.Some? || s.order.Some? ==> |SelectNode(s).children| >= 3
  {
    hide ItemNodes, ExprNode, GroupNode, OrderNode, LimitNode, FromNode;
  }

  /** No two wildcards beside each other. */
  predicate AreApart(items: seq<S.Item>) {
    |items| > 1 ==> (items[0].Derived? || items[1].Derived?) && AreApart(items[1..])
  }

  predicate HasWildcard(items: seq<S.Item>) {
    exists i :: 0 <= i < |items| && !items[i].Derived?
  }

  /** How many columns a list stands for if a wildcard stands for so many. */
  function ColumnsOf(items: seq<S.Item>, columns: nat): nat {
    if items == [] then 0 else (if items[0].Derived? then 1 else columns) + ColumnsOf(items[1..], columns)
  }

  /** There is one table, and it is known. */
  predicate HasKnownTable(s: S.Select, c: Catalog) {
    s.from.Some? && |s.from.value| == 1 && c.describe(s.from.value[0]).Some?
  }

  function KnownColumns(s: S.Select, c: Catalog): seq<string> {
    if HasKnownTable(s, c) then c.describe(s.from.value[0]).value else []
  }

  lemma {:induction false} ItemsAre(items: seq<S.Item>, columns: nat)
    ensures NoWildcard(ItemNodes(items)) <==> !HasWildcard(items)
    ensures HasPair(ItemNodes(items), ALL) <==> !AreApart(items)
    ensures ColumnCount(ItemNodes(items), columns) == ColumnsOf(items, columns)
  {
    var ns := ItemNodes(items);
    assert forall i :: 0 <= i < |items| ==> (ns[i].kind.ALL? <==> !items[i].Derived?);
    if items != [] {
      ItemsAre(items[1..], columns);
      assert ns[1..] == ItemNodes(items[1..]);
    }
  }

  lemma {:induction false} TableIs(s: S.Select, c: Catalog)
    requires HasShape(s) && s.from.Some?
    ensures var from := SelectNode(s).children[1].children;
            && |from| == |s.from.value| && NameOf(from[0]) == s.from.value[0] && IsSelect(SelectNode(s))
            && |SelectNode(s).children| > 1 && TableWidth(SelectNode(s), c.describe) == |KnownColumns(s, c)|
  {
    hide ItemNodes, ExprNode, GroupNode, OrderNode, LimitNode;
    assert SelectNode(s).children[1] == FromNode(s.from.value);
  }

  /** The list of any statement with tables: preparing it is an error exactly if it has a wildcard and
      not just one table, that is known; and a wildcard is left over exactly if two are neighbours. */
  lemma {:induction false} ListPrepared(s: S.Select, c: Catalog)
    requires HasShape(s) && s.from.Some?
    ensures var ast := SelectNode(s);
            var p := Prepared(ast, c.describe);
            && (p.None? <==> HasWildcard(s.list) && !HasKnownTable(s, c))
            && (p.Some? ==>
                  var l := p.value.children[0].children;
                  && (NoWildcard(l) <==> AreApart(s.list))
                  && (NoWildcard(l) ==> |l| == ColumnsOf(s.list, |KnownColumns(s, c)|)))
  {
    hide Prepared, SelectNode, TableWidth, HasPair, AreApart, HasWildcard;
    var ast := SelectNode(s);
    TableIs(s, c);
    SelectTables(s);
    PreparedIff(ast, c.describe);
    ItemsAre(s.list, |KnownColumns(s, c)|);
  }

  lemma {:induction false} SelectTables(s: S.Select)
    requires HasShape(s) && s.from.Some?
    ensures var ast := SelectNode(s); IsSelect(ast) && HasTables(ast) && ast.children[0].children == ItemNodes(s.list)
  {
    hide ItemNodes, ExprNode, GroupNode, OrderNode, LimitNode;
    assert SelectNode(s).children[1] == FromNode(s.from.value);
  }

  /** `SELECT *` has the columns of its table, if there is one and it is known. */
  lemma {:induction false} WildcardExpanded(s: S.Select, c: Catalog)
    requires HasShape(s) && s.list == [S.All] && s.from.Some?
    ensures var p := (SelectTables(s); Prepared(SelectNode(s), c.describe));
            if HasKnownTable(s, c) then
              p.Some? && NoWildcard(p.value.children[0].children) && |p.value.children[0].children| == |KnownColumns(s, c)|
            else p.None?
  {
    hide Prepared, SelectNode;
    ListPrepared(s, c);
    assert s.list[0] == S.All && HasWildcard(s.list) && s.list[1..] == [];
  }

  /** A statement from its text to its plan: it is read as itself, and its plan has the limit outside
      the order outside the grouping. A wildcard needs one known table. If no two wildcards are
      neighbours, the plan has a column for every item and every column of the table for a wildcard,
      and sorts by columns that there are. */
  lemma {:induction false} TextToPlan(s: S.Select, tail: seq<P.Token>, c: Catalog)
    requires T.Writable(s) && T.Place(tail) == 6
    requires s.from.None? ==> P.Head(tail) == P.Symbol(P.SEMICOLON)
    ensures S.StatementOf([P.Keyword("SELECT")] + T.SelectText(s, tail)) == S.Done(S.Query(s), S.AfterSemicolon(tail))
    ensures var ast := SelectNode(s);
            && IsStatement(ast)
            && (IsCalm(ast, c.isAggregate) && PlanOf(ast, c).Some? ==>
                  var plan := PlanOf(ast, c).value;
                  && IsNested(plan) && HasStrategies(plan, false)
                  && (HasWildcard(s.list) ==> HasKnownTable(s, c))
                  && (AreApart(s.list) ==> Width(plan) == ColumnsOf(s.list, |KnownColumns(s, c)|) && SortsInside(plan))
                  && (s.from.Some? ==>
                        && (plan.LimitPlan? <==> s.limit.Some?)
                        && (plan.OrderPlan? <==> s.limit.None? && s.order.Some?)))
  {
    hide FromParser, HasTables, Count, IsCalm, NextStage, IsNested, SortsInside, S.StatementOf, T.SelectText, Prepared,
         T.HasClauses, T.IsItem, SelectNode, PlanOf, Width, HasStrategies, AreApart, HasWildcard, HasPair, ColumnsOf,
         KnownColumns, T.Writable, IsWholeSelect, HasShape, ListWidth, HasKnownTable, IsSelect;
    T.SelectIsRead(s, tail);
    WritableIsWhole(s);
    SelectIsStatement(s);
    var ast := SelectNode(s);
    if IsCalm(ast, c.isAggregate) && PlanOf(ast, c).Some? {
      PlanShape(ast, c);
      NodeKind(s);
      OutermostPlan(ast, c);
      ListStandsFor(s, c);
      if s.from.Some? {
        OutermostStage(s, c);
      }
    }
  }

  lemma {:induction false} NodeKind(s: S.Select)
    ensures SelectNode(s).kind.SELECT?
  {
  }

  /** A statement that gets a plan has a list whose wildcards stand for something. */
  lemma {:induction false} ListStandsFor(s: S.Select, c: Catalog)
    requires HasShape(s) && IsStatement(SelectNode(s)) && !NextStage(SelectNode(s), c).ErrorStage?
    ensures HasWildcard(s.list) ==> HasKnownTable(s, c)
    ensures HasPair(SelectNode(s).children[0].children, ALL) <==> !AreApart(s.list)
    ensures ListWidth(SelectNode(s), c) == ColumnsOf(s.list, |KnownColumns(s, c)|)
  {
    hide FromParser, Count, Prepared, AreApart, HasWildcard, HasPair, ColumnsOf, ColumnCount, StageOf, SelectNode, TableWidth,
         HasKnownTable, HasTables;
    ItemsAre(s.list, |KnownColumns(s, c)|);
    NodeList(s);
    if s.from.Some? {
      TableIs(s, c);
      ListPrepared(s, c);
    } else {
      NoTable(s, c);
      OnlyBuilt(SelectNode(s), c);
    }
  }

  lemma {:induction false} NodeList(s: S.Select)
    ensures SelectNode(s).children[0].children == ItemNodes(s.list)
  {
  }

  lemma {:induction false} NoTable(s: S.Select, c: Catalog)
    requires HasShape(s) && s.from.None?
    ensures |SelectNode(s).children| == 1 && TableWidth(SelectNode(s), c.describe) == 0 == |KnownColumns(s, c)|
  {
  }

  lemma {:induction false} OutermostPlan(ast: Node, c: Catalog)
    requires IsStatement(ast) && IsCalm(ast, c.isAggregate) && PlanOf(ast, c).Some?
    ensures var stage, plan := NextStage(ast, c), PlanOf(ast, c).value;
            && !stage.ErrorStage?
            && (plan.LimitPlan? <==> stage.LimitStage?) && (plan.OrderPlan? <==> stage.OrderStage?)
  {
    hide NextStage, IsCalm, FromParser, HasTables;
  }
}

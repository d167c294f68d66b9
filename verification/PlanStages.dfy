/**
  The stages of building a plan: which clause of a statement that has been prepared becomes the
  outermost node, and which statement is left for its child.
  */
module PlanStages {
  import opened Wrappers
  import opened AstNode
  import opened SelectList
  import opened SqlTokenizer
  import opened PlanPrepare
  import P = SqlParser

  // ------------------------------------------------------------------
  // Aggregates in a tree
  // ------------------------------------------------------------------

  predicate HasAggregation(n: Node, isAggregate: string -> bool)
    decreases n, 0
  {
    (n.kind.METHOD_CALL? && isAggregate(NameOf(n))) || AnyAggregation(n.children, isAggregate)
  }

  predicate AnyAggregation(ns: seq<Node>, isAggregate: string -> bool)
    decreases ns, 0
  {
    ns != [] && (HasAggregation(ns[0], isAggregate) || AnyAggregation(ns[1..], isAggregate))
  }

  /** An aggregate inside a WITHIN RECORD call. */
  predicate Nested(n: Node, isAggregate: string -> bool) {
    (n.kind.METHOD_CALL_WITHIN_RECORD? && HasAggregation(n, isAggregate)) || AnyNested(n.children, isAggregate)
  }

  predicate AnyNested(ns: seq<Node>, isAggregate: string -> bool) {
    ns != [] && (Nested(ns[0], isAggregate) || AnyNested(ns[1..], isAggregate))
  }

  lemma {:induction false} AnyConcat(a: seq<Node>, b: seq<Node>, isAggregate: string -> bool)
    ensures AnyAggregation(a + b, isAggregate) <==> AnyAggregation(a, isAggregate) || AnyAggregation(b, isAggregate)
    ensures AnyNested(a + b, isAggregate) <==> AnyNested(a, isAggregate) || AnyNested(b, isAggregate)
  {
    hide HasAggregation, Nested;
    if a == [] {
      assert a + b == b;
    } else {
      assert (a + b)[1..] == a[1..] + b;
      AnyConcat(a[1..], b, isAggregate);
    }
  }

  lemma {:induction false} NestedHasAggregation(n: Node, isAggregate: string -> bool)
    requires Nested(n, isAggregate)
    ensures HasAggregation(n, isAggregate)
    decreases n
  {
    if AnyNested(n.children, isAggregate) {
      AnyNestedHasAggregation(n.children, isAggregate);
    }
  }

  lemma {:induction false} AnyNestedHasAggregation(ns: seq<Node>, isAggregate: string -> bool)
    requires AnyNested(ns, isAggregate)
    ensures AnyAggregation(ns, isAggregate)
    decreases ns
  {
    if Nested(ns[0], isAggregate) {
      NestedHasAggregation(ns[0], isAggregate);
    } else {
      AnyNestedHasAggregation(ns[1..], isAggregate);
    }
  }

  // ------------------------------------------------------------------
  // Trees from the parser
  // ------------------------------------------------------------------

  lemma {:induction false} CopyIsSame(n: Node)
    requires FromParser(n)
    ensures DeepCopy(n) == n
    decreases n
  {
    CopiesAreSame(n.children);
  }

  lemma {:induction false} CopiesAreSame(ns: seq<Node>)
    requires AllFromParser(ns)
    ensures AllCopies(ns) == ns
    decreases ns
  {
    forall i | 0 <= i < |ns| ensures AllCopies(ns)[i] == ns[i] {
      CopyIsSame(ns[i]);
    }
  }

  lemma {:induction false} NamesHaveNoCalls(n: Node, isAggregate: string -> bool)
    requires FromParser(n) && n.kind.COLUMN_NAME?
    ensures !HasAggregation(n, isAggregate) && !Nested(n, isAggregate)
    decreases n
  {
    AllNamesHaveNoCalls(n.children, isAggregate);
  }

  lemma {:induction false} AllNamesHaveNoCalls(ns: seq<Node>, isAggregate: string -> bool)
    requires AllFromParser(ns) && forall i :: 0 <= i < |ns| ==> ns[i].kind.COLUMN_NAME?
    ensures !AnyAggregation(ns, isAggregate) && !AnyNested(ns, isAggregate)
    decreases ns
  {
    if ns != [] {
      NamesHaveNoCalls(ns[0], isAggregate);
      AllNamesHaveNoCalls(ns[1..], isAggregate);
    }
  }

  // ------------------------------------------------------------------
  // What the child's select list inherits
  // ------------------------------------------------------------------

  /** Aggregates get into the child's list exactly with the WITHIN RECORD calls around them. */
  lemma {:induction false} RewriteInherits(
    n: Node, list: seq<Node>, inAggregation: bool, isAggregate: string -> bool)
    requires FromParser(n) && AllFromParser(list)
    ensures var r := Rewrite(n, list, inAggregation, isAggregate);
            && r.Split? && AllFromParser(r.list)
            && (AnyAggregation(r.list, isAggregate) <==> AnyAggregation(list, isAggregate) || Nested(n, isAggregate))
            && (AnyNested(r.list, isAggregate) <==> AnyNested(list, isAggregate) || Nested(n, isAggregate))
    decreases n
  {
    hide Place, ColumnEntry;
    if n.kind.METHOD_CALL_WITHIN_RECORD? {
      CallEntryInherits(n, isAggregate);
      AnyConcat(list, [Plain(DERIVED_COLUMN, [DeepCopy(n)])], isAggregate);
    } else if n.kind.COLUMN_NAME? {
      NamesHaveNoCalls(n, isAggregate);
      ColumnEntryInherits(n, inAggregation, isAggregate);
      AnyConcat(list, [ColumnEntry(n, inAggregation)], isAggregate);
    } else {
      RewriteAllInherits(n.children, list, Inside(n, inAggregation, isAggregate), isAggregate);
    }
  }

  /** A node that is no plain call has the aggregates of its only child. */
  lemma {:induction false} OnlyChild(n: Node, child: Node, isAggregate: string -> bool)
    requires n.children == [child] && !n.kind.METHOD_CALL?
    ensures AnyAggregation([n], isAggregate) == HasAggregation(n, isAggregate) == HasAggregation(child, isAggregate)
    ensures AnyNested([n], isAggregate) == Nested(n, isAggregate)
    ensures !n.kind.METHOD_CALL_WITHIN_RECORD? ==> Nested(n, isAggregate) == Nested(child, isAggregate)
    ensures n.kind.METHOD_CALL_WITHIN_RECORD? && !HasAggregation(child, isAggregate) && !Nested(child, isAggregate) ==>
              !Nested(n, isAggregate)
  {
    assert AnyAggregation([child], isAggregate) == HasAggregation(child, isAggregate);
    assert AnyNested([child], isAggregate) == Nested(child, isAggregate);
  }

  lemma {:induction false} CallEntryInherits(n: Node, isAggregate: string -> bool)
    requires FromParser(n) && n.kind.METHOD_CALL_WITHIN_RECORD?
    ensures var entry := Plain(DERIVED_COLUMN, [DeepCopy(n)]);
            && FromParser(entry)
            && AnyAggregation([entry], isAggregate) == Nested(n, isAggregate)
            && AnyNested([entry], isAggregate) == Nested(n, isAggregate)
  {
    CopyIsSame(n);
    if AnyNested(n.children, isAggregate) {
      AnyNestedHasAggregation(n.children, isAggregate);
    }
    assert Nested(n, isAggregate) == HasAggregation(n, isAggregate);
    OnlyChild(Plain(DERIVED_COLUMN, [n]), n, isAggregate);
  }

  lemma {:induction false} ColumnEntryInherits(column: Node, inAggregation: bool, isAggregate: string -> bool)
    requires FromParser(column) && column.kind.COLUMN_NAME?
    ensures var entry := ColumnEntry(column, inAggregation);
            FromParser(entry) && !AnyAggregation([entry], isAggregate) && !AnyNested([entry], isAggregate)
  {
    hide HasAggregation, Nested;
    CopyIsSame(column);
    NamesHaveNoCalls(column, isAggregate);
    var call := Node(METHOD_CALL_WITHIN_RECORD, Some(P.Ident("repeat_value")), None, [column]);
    OnlyChild(call, column, isAggregate);
    OnlyChild(ColumnEntry(column, inAggregation), if inAggregation then column else call, isAggregate);
    assert FromParser(call);
  }

  lemma {:induction false} RewriteAllInherits(
    ns: seq<Node>, list: seq<Node>, inAggregation: bool, isAggregate: string -> bool)
    requires AllFromParser(ns) && AllFromParser(list)
    ensures var r := RewriteAll(ns, list, inAggregation, isAggregate);
            && r.SplitAll? && AllFromParser(r.list)
            && (AnyAggregation(r.list, isAggregate)
                <==> AnyAggregation(list, isAggregate) || AnyNested(ns, isAggregate))
            && (AnyNested(r.list, isAggregate) <==> AnyNested(list, isAggregate) || AnyNested(ns, isAggregate))
    decreases ns
  {
    hide Rewrite, Nested, HasAggregation, FromParser;
    if ns != [] {
      RewriteInherits(ns[0], list, inAggregation, isAggregate);
      var first := Rewrite(ns[0], list, inAggregation, isAggregate);
      RewriteAllInherits(ns[1..], first.list, inAggregation, isAggregate);
    }
  }

  // ------------------------------------------------------------------
  // One step of building
  // ------------------------------------------------------------------

  datatype Sort = Sort(column: nat, descending: bool)

  datatype Strategy =
    | NO_AGGREGATION | AGGREGATE_ALL | AGGREGATE_WITHIN_RECORD_FLAT | AGGREGATE_WITHIN_RECORD_DEEP

  /** The nodes without a child, with all that they hold: a scan of one table, and expressions
      without a table. */
  datatype Leaf =
    | SequentialScan(table: string, selects: seq<Node>, filter: Option<Node>, strategy: Strategy)
    | SelectExpression(selects: seq<Node>)

  /** What the outermost node of the plan is, and the statement that becomes its child. `NoStage` is
      a clause that is not there, `ErrorStage` an exception or a null pointer. */
  datatype Stage =
    | LimitStage(limit: nat, offset: nat, child: Node)
    | OrderStage(sorts: seq<Sort>, width: nat, child: Node)
    | GroupStage(selects: seq<Node>, groups: seq<Node>, child: Node)
    | LeafStage(leaf: Leaf)
    | NoStage
    | ErrorStage

  function FirstOf(ns: seq<Node>, kind: Kind): (first: Option<Node>)
    ensures first.Some? <==> Has(ns, kind)
    ensures first.Some? ==> first.value.kind == kind && first.value in ns
  {
    if ns == [] then None else if ns[0].kind == kind then Some(ns[0]) else FirstOf(ns[1..], kind)
  }

  /** The statement with another select list, and without a clause. */
  function ChildAst(ast: Node, kind: Kind, list: seq<Node>, clause: Kind): Node
    requires IsSelect(ast)
  {
    Node(kind, ast.token, None, Erased([Plain(SELECT_LIST, list)] + AllCopies(ast.children[1..]), clause))
  }

  /** The number in a token; None stands for an exception. */
  function NumberOf(token: Option<P.Token>): Option<nat> {
    if token.Some? && token.value.Numeric? then GetInteger(token.value.text) else None
  }

  function LimitOf(ast: Node): (s: Stage)
    ensures s.LimitStage? || s.NoStage? || s.ErrorStage?
  {
    var clause := FirstOf(ast.children, LIMIT);
    if |ast.children| < 3 || clause.None? then NoStage
    else
      var limit := NumberOf(clause.value.token);
      var offset := OffsetOf(clause.value.children);
      if limit.None? || offset.None? then ErrorStage
      else LimitStage(limit.value, offset.value, Node(ast.kind, ast.token, None, Erased(AllCopies(ast.children), LIMIT)))
  }

  function OffsetOf(offset: seq<Node>): Option<nat> {
    if |offset| != 1 then Some(0)
    else if !offset[0].kind.OFFSET? then None
    else NumberOf(offset[0].token)
  }

  predicate IsAlias(derived: Node, name: string) {
    HasAlias(derived) && NameOf(derived.children[1]) == name
  }

  predicate HasAlias(derived: Node) {
    derived.kind.DERIVED_COLUMN? && |derived.children| > 1 && derived.children[1].kind.COLUMN_ALIAS?
  }

  /** The name of a column to sort by is compared with the aliases, if there are any; then it must
      have a token. */
  predicate CanSort(list: seq<Node>, specs: seq<Node>) {
    forall i :: 0 <= i < |specs| ==>
      specs[i].children != []
      && ((exists j :: 0 <= j < |list| && HasAlias(list[j])) ==> specs[i].children[0].token.Some?)
  }

  /** The first column of that name, or the length of the list. */
  function AliasPlace(list: seq<Node>, name: string): (i: nat)
    ensures i <= |list| && (i < |list| ==> IsAlias(list[i], name))
  {
    if list == [] || IsAlias(list[0], name) then 0 else 1 + AliasPlace(list[1..], name)
  }

  function SortColumn(spec: Node): Node {
    if spec.children == [] then spec else spec.children[0]
  }

  datatype Sorted = Sorted(sorts: seq<Sort>, list: seq<Node>)

  /** The columns to sort by; those that the list does not have are appended to it. */
  function SortBy(list: seq<Node>, specs: seq<Node>): (r: Sorted)
    ensures list <= r.list && |r.sorts| == |specs| && forall i :: 0 <= i < |specs| ==> r.sorts[i].column < |r.list|
    decreases |specs|
  {
    if specs == [] then Sorted([], list)
    else
      var i := AliasPlace(list, NameOf(SortColumn(specs[0])));
      var more := SortBy(if i < |list| then list else list + [Plain(DERIVED_COLUMN, [SortColumn(specs[0])])], specs[1..]);
      Sorted([Sort(i, specs[0].token == Some(P.Keyword("DESC")))] + more.sorts, more.list)
  }

  function OrderOf(ast: Node): (s: Stage)
    requires IsSelect(ast)
    ensures s.OrderStage? || s.NoStage? || s.ErrorStage?
  {
    var clause := FirstOf(ast.children, ORDER_BY);
    if |ast.children| < 2 || clause.None? then NoStage
    else if !CanSort(AllCopies(ast.children[0].children), clause.value.children) then ErrorStage
    else
      var r := SortBy(AllCopies(ast.children[0].children), clause.value.children);
      OrderStage(r.sorts, |ast.children[0].children|, ChildAst(ast, ast.kind, r.list, ORDER_BY))
  }

  predicate NeedsGroup(ast: Node, isAggregate: string -> bool)
    requires IsSelect(ast)
  {
    |ast.children| >= 2
    && ((ast.kind.SELECT? && Has(ast.children, GROUP_BY)) || AnyAggregation(ast.children[0].children, isAggregate))
  }

  function GroupExpressions(ast: Node): seq<Node> {
    var clause := FirstOf(ast.children, GROUP_BY);
    if clause.None? then [] else clause.value.children
  }

  function GroupOf(ast: Node, isAggregate: string -> bool): (s: Stage)
    requires IsSelect(ast)
    ensures s.GroupStage? || s.ErrorStage?
  {
    var selects := RewriteAll(AllCopies(ast.children[0].children), [], false, isAggregate);
    if selects.CorruptChild? then ErrorStage
    else
      var groups := RewriteAll(AllCopies(GroupExpressions(ast)), selects.list, false, isAggregate);
      if groups.CorruptChild? || AnyAggregation(groups.nodes, isAggregate) then ErrorStage
      else if !CanBuildAll(groups.nodes) || !CanBuildItems(selects.nodes) then ErrorStage
      else GroupStage(selects.nodes, groups.nodes, ChildAst(ast, SELECT_DEEP, groups.list, GROUP_BY))
  }

  predicate HasWithinRecord(n: Node) {
    n.kind.METHOD_CALL_WITHIN_RECORD? || AnyWithinRecord(n.children)
  }

  predicate AnyWithinRecord(ns: seq<Node>) {
    ns != [] && (HasWithinRecord(ns[0]) || AnyWithinRecord(ns[1..]))
  }

  /** A scan of one table, with nothing but a condition behind it. */
  predicate IsScan(ast: Node, isAggregate: string -> bool)
    requires IsSelect(ast)
  {
    && |ast.children| >= 2
    && ast.children[1].kind.FROM? && |ast.children[1].children| == 1
    && ast.children[1].children[0].kind.TABLE_NAME? && ast.children[1].children[0].token.Some?
    && (|ast.children| > 2 ==>
          && ast.children[2].kind.WHERE? && |ast.children[2].children| == 1
          && !HasAggregation(ast.children[2].children[0], isAggregate) && CanBuild(ast.children[2].children[0]))
    && CanBuildItems(ast.children[0].children)
    && !(AnyAggregation(ast.children[0].children, isAggregate) && AnyWithinRecord(ast.children[0].children))
  }

  /** A statement without a table. */
  predicate IsExpressions(ast: Node, isAggregate: string -> bool)
    requires IsSelect(ast)
  {
    && |ast.children| == 1
    && !AnyAggregation(ast.children[0].children, isAggregate) && !AnyWithinRecord(ast.children[0].children)
    && CanBuildItems(ast.children[0].children)
  }

  function StrategyOf(ast: Node, isAggregate: string -> bool): Strategy
    requires IsSelect(ast)
  {
    if AnyWithinRecord(ast.children[0].children) then
      if ast.kind.SELECT_DEEP? then AGGREGATE_WITHIN_RECORD_DEEP else AGGREGATE_WITHIN_RECORD_FLAT
    else if AnyAggregation(ast.children[0].children, isAggregate) then AGGREGATE_ALL
    else NO_AGGREGATION
  }

  function LeafOf(ast: Node, isAggregate: string -> bool): (leaf: Leaf)
    requires IsSelect(ast)
    ensures leaf.selects == ast.children[0].children
  {
    if |ast.children| == 1 then SelectExpression(ast.children[0].children)
    else
      var tables := ast.children[1].children;
      var filter := if |ast.children| > 2 && ast.children[2].children != [] then Some(ast.children[2].children[0]) else None;
      SequentialScan(if tables == [] then "" else NameOf(tables[0]), ast.children[0].children, filter, StrategyOf(ast, isAggregate))
  }

  /** The stage of a statement that has been prepared. */
  function StageOf(ast: Node, isAggregate: string -> bool): (s: Stage)
    requires IsSelect(ast)
    ensures !s.NoStage?
  {
    var limit := LimitOf(ast);
    if !limit.NoStage? then limit
    else
      var order := OrderOf(ast);
      if !order.NoStage? then order
      else if NeedsGroup(ast, isAggregate) then GroupOf(ast, isAggregate)
      else if IsScan(ast, isAggregate) || IsExpressions(ast, isAggregate) then LeafStage(LeafOf(ast, isAggregate))
      else ErrorStage
  }

  function NextStage(ast: Node, c: Catalog): (s: Stage)
    requires IsSelect(ast)
    ensures !s.NoStage?
  {
    var p := Prepared(ast, c.describe);
    if p.None? then ErrorStage else StageOf(p.value, c.isAggregate)
  }

  // ------------------------------------------------------------------
  // Statements
  // ------------------------------------------------------------------

  function Count(ns: seq<Node>, kind: Kind): nat {
    if ns == [] then 0 else (if ns[0].kind == kind then 1 else 0) + Count(ns[1..], kind)
  }

  /** A SELECT statement with at most one clause of each kind, and its tables behind the list. */
  ghost predicate IsStatement(ast: Node) {
    && IsSelect(ast) && FromParser(ast) && HasTables(ast)
    && Count(ast.children, LIMIT) <= 1 && Count(ast.children, ORDER_BY) <= 1 && Count(ast.children, GROUP_BY) <= 1
  }

  /** Erasing the only clause of its kind. */
  lemma {:induction false} ErasedOnce(ns: seq<Node>, kind: Kind)
    requires Count(ns, kind) <= 1
    ensures Erased(ns, kind) == Without(ns, kind) && |Erased(ns, kind)| == |ns| - Count(ns, kind)
    ensures !Has(Erased(ns, kind), kind)
    decreases |ns|
  {
    if ns != [] && ns[0].kind == kind {
      NoneLeft(ns[1..], kind);
      assert |ns| > 1 ==> ns[1..] == [ns[1]] + ns[2..];
      assert |ns| > 1 ==> Without(ns[2..], kind) == ns[2..] && Erased(ns[2..], kind) == ns[2..] by {
        if |ns| > 1 {
          NoneLeft(ns[2..], kind);
        }
      }
    } else if ns != [] {
      ErasedOnce(ns[1..], kind);
      assert Erased(ns, kind)[1..] == Erased(ns[1..], kind);
    }
  }

  lemma {:induction false} NoneLeft(ns: seq<Node>, kind: Kind)
    requires Count(ns, kind) == 0
    ensures Without(ns, kind) == ns && Erased(ns, kind) == ns && !Has(ns, kind)
  {
    if ns != [] {
      NoneLeft(ns[1..], kind);
    }
  }

  /** Other clauses stay. */
  lemma {:induction false} OthersStay(ns: seq<Node>, kind: Kind, other: Kind)
    requires kind != other
    ensures Count(Without(ns, kind), other) == Count(ns, other)
    ensures FirstOf(Without(ns, kind), other) == FirstOf(ns, other)
  {
    if ns != [] {
      var rest := Without(ns[1..], kind);
      OthersStay(ns[1..], kind, other);
      if ns[0].kind == kind {
        assert Without(ns, kind) == rest;
      } else {
        assert Without(ns, kind)[1..] == rest;
      }
    }
  }

  lemma {:induction false} WithoutFromParser(ns: seq<Node>, kind: Kind)
    requires AllFromParser(ns)
    ensures AllFromParser(Without(ns, kind))
  {
    hide FromParser;
    if ns != [] {
      WithoutFromParser(ns[1..], kind);
    }
  }

  /** The same clauses but for one kind. */
  ghost predicate SameBut(clause: Kind, before: seq<Node>, after: seq<Node>) {
    && !Has(after, clause)
    && |after| == |before| - Count(before, clause)
    && before != [] && after != [] && after[1..] == Without(before[1..], clause)
    && SameOf(LIMIT, clause, before, after)
    && SameOf(ORDER_BY, clause, before, after)
    && SameOf(GROUP_BY, clause, before, after)
  }

  ghost predicate SameOf(kind: Kind, clause: Kind, before: seq<Node>, after: seq<Node>) {
    kind != clause ==> Count(after, kind) == Count(before, kind) && FirstOf(after, kind) == FirstOf(before, kind)
  }

  /** Another select list, and a clause erased. */
  lemma {:induction false} SwappedAndErased(ns: seq<Node>, head: Node, clause: Kind)
    requires ns != [] && ns[0].kind.SELECT_LIST? && head.kind.SELECT_LIST? && AllFromParser(ns[1..])
    requires !clause.SELECT_LIST? && Count(ns, clause) <= 1
    ensures var after := Erased([head] + ns[1..], clause);
            && after != [] && after[0] == head && AllFromParser(after[1..])
            && SameBut(clause, ns, after)
            && (|ns| > 1 && ns[1].kind != clause ==> |after| > 1 && after[1] == ns[1])
            && (|ns| == 1 ==> |after| == 1)
  {
    hide FromParser, Erased, Count, FirstOf, Has, SameOf;
    var all := [head] + ns[1..];
    assert all[1..] == ns[1..];
    HeadIgnored(ns, clause);
    HeadIgnored(all, clause);
    ErasedOnce(all, clause);
    WithoutFromParser(ns[1..], clause);
    assert Without(all, clause)[1..] == Without(ns[1..], clause);
    assert |ns| > 1 ==> all[1..][1..] == ns[2..];
    Stays(all, clause, LIMIT, ns);
    Stays(all, clause, ORDER_BY, ns);
    Stays(all, clause, GROUP_BY, ns);
  }

  lemma {:induction false} Stays(all: seq<Node>, clause: Kind, kind: Kind, ns: seq<Node>)
    requires all != [] && ns != [] && all[1..] == ns[1..] && all[0].kind.SELECT_LIST? && ns[0].kind.SELECT_LIST?
    requires !kind.SELECT_LIST?
    ensures SameOf(kind, clause, ns, Without(all, clause))
  {
    hide Count, FirstOf, Without;
    if kind != clause {
      OthersStay(all, clause, kind);
      HeadIgnored(all, kind);
      HeadIgnored(ns, kind);
    }
  }

  lemma {:induction false} HeadIgnored(ns: seq<Node>, kind: Kind)
    requires ns != [] && ns[0].kind != kind
    ensures Count(ns, kind) == Count(ns[1..], kind) && FirstOf(ns, kind) == FirstOf(ns[1..], kind)
  {
  }

  /** The statement that is built as the child: the same but for the select list and one clause. */
  ghost predicate IsChild(ast: Node, kind: Kind, list: seq<Node>, clause: Kind, child: Node) {
    && IsStatement(child) && child.kind == kind && child.children[0].children == list
    && SameBut(clause, ast.children, child.children)
  }

  lemma {:induction false} NoCount(ns: seq<Node>, kind: Kind)
    ensures !Has(ns, kind) <==> Count(ns, kind) == 0
  {
    if ns != [] {
      NoCount(ns[1..], kind);
    }
  }

  lemma {:induction false} StatementChild(ast: Node, kind: Kind, head: Node, clause: Kind, child: Node)
    requires IsStatement(ast) && FromParser(head) && head.kind.SELECT_LIST? && (kind.SELECT? || kind.SELECT_DEEP?)
    requires clause.LIMIT? || clause.ORDER_BY? || clause.GROUP_BY?
    requires child == Node(kind, ast.token, None, Erased([head] + ast.children[1..], clause))
    ensures IsChild(ast, kind, head.children, clause, child)
  {
    SwappedAndErased(ast.children, head, clause);
    hide Erased, Has, FirstOf;
    NoCount(child.children, clause);
    var cs := child.children;
    assert forall i :: 0 <= i < |cs| ==> cs[i] == head || cs[i] == cs[1..][i - 1];
  }

  lemma {:induction false} LimitChild(ast: Node)
    requires IsStatement(ast) && LimitOf(ast).LimitStage?
    ensures IsChild(ast, ast.kind, ast.children[0].children, LIMIT, LimitOf(ast).child)
  {
    CopiesAreSame(ast.children);
    assert [ast.children[0]] + ast.children[1..] == ast.children;
    StatementChild(ast, ast.kind, ast.children[0], LIMIT, LimitOf(ast).child);
  }

  lemma {:induction false} ChildAstIs(ast: Node, kind: Kind, list: seq<Node>, clause: Kind)
    requires IsStatement(ast) && AllFromParser(list) && (kind.SELECT? || kind.SELECT_DEEP?)
    requires clause.LIMIT? || clause.ORDER_BY? || clause.GROUP_BY?
    ensures IsChild(ast, kind, list, clause, ChildAst(ast, kind, list, clause))
  {
    CopiesAreSame(ast.children[1..]);
    assert FromParser(Plain(SELECT_LIST, list));
    StatementChild(ast, kind, Plain(SELECT_LIST, list), clause, ChildAst(ast, kind, list, clause));
  }

  // ------------------------------------------------------------------
  // Sorting
  // ------------------------------------------------------------------

  function SortColumns(specs: seq<Node>): seq<Node> {
    if specs == [] then [] else [SortColumn(specs[0])] + SortColumns(specs[1..])
  }

  /** The list gets no aggregates but those of the columns to sort by. */
  lemma {:induction false} SortByInherits(list: seq<Node>, specs: seq<Node>, isAggregate: string -> bool)
    requires AllFromParser(list) && AllFromParser(specs)
    ensures var r := SortBy(list, specs).list;
            && AllFromParser(r)
            && (AnyNested(list, isAggregate) ==> AnyNested(r, isAggregate))
            && (AnyNested(r, isAggregate) ==>
                  AnyNested(list, isAggregate) || AnyNested(SortColumns(specs), isAggregate))
    decreases |specs|
  {
    hide AliasPlace, HasAggregation, Nested;
    if specs != [] {
      var column := SortColumn(specs[0]);
      var entry := Plain(DERIVED_COLUMN, [column]);
      assert FromParser(column);
      assert FromParser(entry);
      AnyConcat(list, [entry], isAggregate);
      EntryNested(column, isAggregate);
      var i := AliasPlace(list, NameOf(column));
      var more := if i < |list| then list else list + [entry];
      SortByInherits(more, specs[1..], isAggregate);
      assert SortColumns(specs)[1..] == SortColumns(specs[1..]);
    }
  }

  lemma {:induction false} EntryNested(column: Node, isAggregate: string -> bool)
    ensures AnyNested([Plain(DERIVED_COLUMN, [column])], isAggregate) <==> Nested(column, isAggregate)
  {
    OnlyChild(Plain(DERIVED_COLUMN, [column]), column, isAggregate);
  }

  function SortSpecs(ast: Node): seq<Node> {
    var clause := FirstOf(ast.children, ORDER_BY);
    if clause.None? then [] else clause.value.children
  }

  lemma {:induction false} ClauseFromParser(ast: Node, kind: Kind)
    requires FromParser(ast)
    ensures var clause := FirstOf(ast.children, kind); clause.Some? ==> AllFromParser(clause.value.children)
  {
    var clause := FirstOf(ast.children, kind);
    if clause.Some? {
      var i :| 0 <= i < |ast.children| && ast.children[i] == clause.value;
      assert FromParser(ast.children[i]);
    }
  }

  lemma {:induction false} OrderChild(ast: Node, isAggregate: string -> bool)
    requires IsStatement(ast) && OrderOf(ast).OrderStage?
    ensures var list := SortBy(ast.children[0].children, SortSpecs(ast)).list;
            && IsChild(ast, ast.kind, list, ORDER_BY, OrderOf(ast).child)
            && (AnyNested(ast.children[0].children, isAggregate) ==> AnyNested(list, isAggregate))
            && (AnyNested(list, isAggregate) ==>
                  AnyNested(ast.children[0].children, isAggregate)
                  || AnyNested(SortColumns(SortSpecs(ast)), isAggregate))
            && forall i :: 0 <= i < |OrderOf(ast).sorts| ==> OrderOf(ast).sorts[i].column < |list|
  {
    hide HasAggregation, Nested, SortBy;
    var list := ast.children[0].children;
    assert FromParser(ast.children[0]);
    CopiesAreSame(list);
    ClauseFromParser(ast, ORDER_BY);
    SortByInherits(list, SortSpecs(ast), isAggregate);
    ChildAstIs(ast, ast.kind, SortBy(list, SortSpecs(ast)).list, ORDER_BY);
  }

  // ------------------------------------------------------------------
  // Grouping
  // ------------------------------------------------------------------

  /** The child of a grouping has an aggregate exactly if one is nested in a WITHIN RECORD call. */
  lemma {:induction false} GroupChild(ast: Node, isAggregate: string -> bool)
    requires IsStatement(ast) && GroupOf(ast, isAggregate).GroupStage?
    ensures var child := GroupOf(ast, isAggregate).child;
            var nested := AnyNested(ast.children[0].children, isAggregate) || AnyNested(GroupExpressions(ast), isAggregate);
            && child.children != [] && IsChild(ast, SELECT_DEEP, child.children[0].children, GROUP_BY, child)
            && (AnyAggregation(child.children[0].children, isAggregate) <==> nested)
            && (AnyNested(child.children[0].children, isAggregate) <==> nested)
  {
    hide HasAggregation, Nested, RewriteAll;
    var list, groups := ast.children[0].children, GroupExpressions(ast);
    assert FromParser(ast.children[0]);
    CopiesAreSame(list);
    ClauseFromParser(ast, GROUP_BY);
    CopiesAreSame(groups);
    RewriteAllInherits(list, [], false, isAggregate);
    var inner := RewriteAll(list, [], false, isAggregate).list;
    RewriteAllInherits(groups, inner, false, isAggregate);
    ChildAstIs(ast, SELECT_DEEP, RewriteAll(groups, inner, false, isAggregate).list, GROUP_BY);
  }
}

/**
  What a plan does, and what a SELECT statement asks for, on any tables and for any functions,
  aggregates and orders. The statement is read as the parser leaves it; its meaning is given clause
  by clause, without the trees and the select lists that the plan builder goes through.
  */
module PlanMeaning {
  import opened Wrappers
  import P = SqlParser
  import S = SqlStatement
  import opened SqlTokenizer
  import opened AstNode
  import opened SelectList
  import opened PlanPrepare
  import opened PlanStages
  import opened PlanBuilder
  import opened StatementPlan

  /** What plans and statements are run on: the rows that a scan of a table delivers, which conditions
      hold, how rows fall into groups by their keys, which row of a group stands for it, and how rows
      are arranged by what they are sorted by, descending or not. */
  datatype Engine = Engine(
    meaning: Meaning,
    rowsOf: (string, Strategy) -> seq<Row>,
    holds: int -> bool,
    parts: seq<seq<int>> -> seq<seq<nat>>,
    pick: nat -> nat,
    arrange: (seq<seq<int>>, seq<bool>) -> seq<nat>)

  type Cells = seq<int>

  // ------------------------------------------------------------------
  // Rows
  // ------------------------------------------------------------------

  /** The elements at some places. */
  function Chosen<T>(xs: seq<T>, places: seq<nat>): seq<T> {
    if places == [] then []
    else (if places[0] < |xs| then [xs[places[0]]] else []) + Chosen(xs, places[1..])
  }

  function Limited(rows: seq<Cells>, limit: nat, offset: nat): seq<Cells> {
    if offset >= |rows| then []
    else if offset + limit >= |rows| then rows[offset..]
    else rows[offset..offset + limit]
  }

  /** The values of a row in some columns. */
  function Taken(row: Cells, columns: seq<nat>): (t: Cells)
    ensures |t| == |columns|
  {
    seq(|columns|, i requires 0 <= i < |columns| => if columns[i] < |row| then row[columns[i]] else 0)
  }

  function AllTaken(rows: seq<Cells>, columns: seq<nat>): (t: seq<Cells>)
    ensures |t| == |rows| && forall i :: 0 <= i < |rows| ==> t[i] == Taken(rows[i], columns)
  {
    seq(|rows|, i requires 0 <= i < |rows| => Taken(rows[i], columns))
  }

  function Cut(rows: seq<Cells>, width: nat): (t: seq<Cells>)
    ensures |t| == |rows|
  {
    seq(|rows|, i requires 0 <= i < |rows| => if |rows[i]| < width then rows[i] else rows[i][..width])
  }

  /** Rows sorted by some of their columns, and then cut. */
  function Sorted(en: Engine, rows: seq<Cells>, columns: seq<nat>, descending: seq<bool>, width: nat): seq<Cells> {
    Cut(Chosen(rows, en.arrange(AllTaken(rows, columns), descending)), width)
  }

  /** The row that stands for a group. */
  function Member(en: Engine, rows: seq<Row>): Row
    requires rows != []
  {
    if en.pick(|rows|) < |rows| then rows[en.pick(|rows|)] else rows[0]
  }

  // ------------------------------------------------------------------
  // What a plan does
  // ------------------------------------------------------------------

  function Kept(en: Engine, filter: Option<Node>, rows: seq<Row>): seq<Row> {
    if rows == [] then []
    else
      (if filter.None? || en.holds(Eval(en.meaning, filter.value, true, [rows[0]], rows[0])) then [rows[0]] else [])
      + Kept(en, filter, rows[1..])
  }

  /** The values of a list in every row. */
  function EachRow(m: Meaning, list: seq<Node>, rows: seq<Row>): seq<Cells> {
    if rows == [] then [] else [EvalAll(m, list, true, [rows[0]], rows[0])] + EachRow(m, list, rows[1..])
  }

  function KeysOf(m: Meaning, keys: seq<Node>, rows: seq<Row>, over: seq<Row>): seq<Cells> {
    if over == [] then [] else [EvalAll(m, keys, false, rows, over[0])] + KeysOf(m, keys, rows, over[1..])
  }

  function GroupRows(en: Engine, selects: seq<Node>, rows: seq<Row>, parts: seq<seq<nat>>): seq<Cells> {
    if parts == [] then []
    else
      var members := Chosen(rows, parts[0]);
      (if members == [] then [] else [EvalAll(en.meaning, selects, false, members, Member(en, members))])
      + GroupRows(en, selects, rows, parts[1..])
  }

  function Grouped(en: Engine, selects: seq<Node>, keys: seq<Node>, rows: seq<Row>): seq<Cells> {
    GroupRows(en, selects, rows, en.parts(KeysOf(en.meaning, keys, rows, rows)))
  }

  function AsRows(rows: seq<Cells>): (r: seq<Row>)
    ensures |r| == |rows| && forall i :: 0 <= i < |rows| ==> r[i] == Child(rows[i])
  {
    seq(|rows|, i requires 0 <= i < |rows| => Child(rows[i]))
  }

  function ColumnsOf(sorts: seq<Sort>): (columns: seq<nat>)
    ensures |columns| == |sorts| && forall i :: 0 <= i < |sorts| ==> columns[i] == sorts[i].column
  {
    seq(|sorts|, i requires 0 <= i < |sorts| => sorts[i].column)
  }

  function FlagsOf(sorts: seq<Sort>): (flags: seq<bool>)
    ensures |flags| == |sorts| && forall i :: 0 <= i < |sorts| ==> flags[i] == sorts[i].descending
  {
    seq(|sorts|, i requires 0 <= i < |sorts| => sorts[i].descending)
  }

  /** The rows that a plan puts out. */
  function Run(en: Engine, p: Plan): seq<Cells> {
    match p
    case LimitPlan(limit, offset, child) => Limited(Run(en, child), limit, offset)
    case OrderPlan(sorts, width, child) => Sorted(en, Run(en, child), ColumnsOf(sorts), FlagsOf(sorts), width)
    case GroupPlan(selects, groups, child) => Grouped(en, selects, groups, AsRows(Run(en, child)))
    case LeafPlan(SequentialScan(table, selects, filter, strategy)) =>
      EachRow(en.meaning, selects, Kept(en, filter, en.rowsOf(table, strategy)))
    case LeafPlan(SelectExpression(selects)) => EachRow(en.meaning, selects, [Child([])])
  }

  // ------------------------------------------------------------------
  // What an expression of a statement means
  // ------------------------------------------------------------------

  function ColumnValue(r: Row, names: seq<string>): int {
    if r.Source? then r.columns(names) else 0
  }

  function RepeatedValue(m: Meaning, r: Row, names: seq<string>): int {
    var record := r.Record();
    m.aggregate("repeat_value", seq(|record|, i requires 0 <= i < |record| => [ColumnValue(record[i], names)]))
  }

  /** As for `Eval`: own values of columns or repeated ones, aggregates over `rows`, and calls WITHIN
      RECORD over the record. */
  function Value(m: Meaning, e: P.Ast, own: bool, rows: seq<Row>, r: Row): int
    decreases e, 0, 0
  {
    match e
    case Missing => 0
    case Void => m.pure(VOID, None, [])
    case Literal(token) => m.literal(Some(token))
    case Column(names) => if own then ColumnValue(r, names) else RepeatedValue(m, r, names)
    case Call(METHOD_CALL, name, args) =>
      if m.isAggregate(name) then m.aggregate(name, ValuesOver(m, args, rows, rows))
      else m.pure(METHOD_CALL, Some(P.Ident(name)), Values(m, args, own, rows, r))
    case Call(METHOD_CALL_WITHIN_RECORD, name, args) => m.aggregate(name, ValuesOver(m, args, r.Record(), r.Record()))
    case Call(IF_EXPR, name, args) => m.pure(IF_EXPR, Some(P.Ident(name)), Values(m, args, own, rows, r))
    case Call(COLUMN_INDEX, name, args) => m.pure(COLUMN_INDEX, Some(P.Ident(name)), Values(m, args, own, rows, r))
    case Negate(operand) => m.pure(NEGATE_EXPR, None, [Value(m, operand, own, rows, r)])
    case Binary(op, left, right) =>
      m.pure(OPERATOR(op), None, [Value(m, left, own, rows, r), Value(m, right, own, rows, r)])
  }

  function Values(m: Meaning, es: seq<P.Ast>, own: bool, rows: seq<Row>, r: Row): (vs: seq<int>)
    ensures |vs| == |es|
    decreases es, 0, 0
  {
    if es == [] then [] else [Value(m, es[0], own, rows, r)] + Values(m, es[1..], own, rows, r)
  }

  function ValuesOver(m: Meaning, es: seq<P.Ast>, rows: seq<Row>, over: seq<Row>): seq<seq<int>>
    decreases es, 1, |over|
  {
    if over == [] then [] else [Values(m, es, true, rows, over[0])] + ValuesOver(m, es, rows, over[1..])
  }

  lemma {:induction false} NamesOfColumn(names: seq<string>)
    requires names != []
    ensures NamesOf(ColumnNode(names)) == names
    decreases names
  {
    if |names| > 1 {
      NamesOfColumn(names[1..]);
    }
  }

  /** The tree of an expression has its value. */
  lemma {:induction false} NodeValue(m: Meaning, e: P.Ast, own: bool, rows: seq<Row>, r: Row)
    requires IsWhole(e)
    ensures Eval(m, ExprNode(e), own, rows, r) == Value(m, e, own, rows, r)
    decreases e, 0, 0
  {
    match e
    case Void => assert AllCopies([]) == [];
    case Literal(_) =>
    case Column(names) =>
      NamesOfColumn(names);
      ColumnFromParser(names);
      var record := r.Record();
      assert ValuesIn(record, ColumnNode(names))
          == seq(|record|, i requires 0 <= i < |record| => [ColumnValue(record[i], names)]);
    case Call(_, _, args) =>
      NodeValues(m, args, own, rows, r);
      NodeValuesOver(m, args, rows, rows);
      NodeValuesOver(m, args, r.Record(), r.Record());
      CallValue(m, e, own, rows, r);
    case Negate(operand) =>
      NodeValue(m, operand, own, rows, r);
      OneValue(m, ExprNode(operand), own, rows, r);
    case Binary(_, left, right) =>
      NodeValue(m, left, own, rows, r);
      NodeValue(m, right, own, rows, r);
      TwoValues(m, ExprNode(left), ExprNode(right), own, rows, r);
  }

  lemma {:induction false} CallValue(m: Meaning, e: P.Ast, own: bool, rows: seq<Row>, r: Row)
    requires e.Call? && EvalAll(m, ExprNodes(e.args), own, rows, r) == Values(m, e.args, own, rows, r)
    requires EvalOver(m, ExprNodes(e.args), rows, rows) == ValuesOver(m, e.args, rows, rows)
    requires EvalOver(m, ExprNodes(e.args), r.Record(), r.Record()) == ValuesOver(m, e.args, r.Record(), r.Record())
    ensures Eval(m, ExprNode(e), own, rows, r) == Value(m, e, own, rows, r)
  {
    hide ExprNodes, EvalAll, EvalOver, Values, ValuesOver;
  }

  lemma {:induction false} OneValue(m: Meaning, n: Node, own: bool, rows: seq<Row>, r: Row)
    ensures EvalAll(m, [n], own, rows, r) == [Eval(m, n, own, rows, r)]
  {
    assert [n][1..] == [];
  }

  lemma {:induction false} TwoValues(m: Meaning, a: Node, b: Node, own: bool, rows: seq<Row>, r: Row)
    ensures EvalAll(m, [a, b], own, rows, r) == [Eval(m, a, own, rows, r), Eval(m, b, own, rows, r)]
  {
    OneValue(m, b, own, rows, r);
    assert [a, b][1..] == [b];
  }

  lemma {:induction false} NodeValues(m: Meaning, es: seq<P.Ast>, own: bool, rows: seq<Row>, r: Row)
    requires AllWhole(es)
    ensures EvalAll(m, ExprNodes(es), own, rows, r) == Values(m, es, own, rows, r)
    decreases es, 0, 0
  {
    if es != [] {
      NodeValue(m, es[0], own, rows, r);
      NodeValues(m, es[1..], own, rows, r);
    }
  }

  lemma {:induction false} NodeValuesOver(m: Meaning, es: seq<P.Ast>, rows: seq<Row>, over: seq<Row>)
    requires AllWhole(es)
    ensures EvalOver(m, ExprNodes(es), rows, over) == ValuesOver(m, es, rows, over)
    decreases es, 1, |over|
  {
    if over != [] {
      NodeValues(m, es, true, rows, over[0]);
      NodeValuesOver(m, es, rows, over[1..]);
    }
  }

  // ------------------------------------------------------------------
  // What a statement asks for
  // ------------------------------------------------------------------

  /** An aggregate anywhere in an expression. */
  predicate HasAggregate(e: P.Ast, isAggregate: string -> bool) {
    match e
    case Call(kind, name, args) => (kind == P.METHOD_CALL && isAggregate(name)) || AnyAggregate(args, isAggregate)
    case Negate(operand) => HasAggregate(operand, isAggregate)
    case Binary(_, left, right) => HasAggregate(left, isAggregate) || HasAggregate(right, isAggregate)
    case _ => false
  }

  predicate AnyAggregate(es: seq<P.Ast>, isAggregate: string -> bool) {
    es != [] && (HasAggregate(es[0], isAggregate) || AnyAggregate(es[1..], isAggregate))
  }

  /** Whether an expression needs the records of rows: for a call WITHIN RECORD or, unless columns are
      their own values, for a column outside of aggregates. */
  predicate AsksRecord(e: P.Ast, own: bool, isAggregate: string -> bool) {
    match e
    case Column(_) => !own
    case Call(kind, name, args) =>
      kind == P.METHOD_CALL_WITHIN_RECORD
      || AnyAsks(args, own || (kind == P.METHOD_CALL && isAggregate(name)), isAggregate)
    case Negate(operand) => AsksRecord(operand, own, isAggregate)
    case Binary(_, left, right) => AsksRecord(left, own, isAggregate) || AsksRecord(right, own, isAggregate)
    case _ => false
  }

  predicate AnyAsks(es: seq<P.Ast>, own: bool, isAggregate: string -> bool) {
    es != [] && (AsksRecord(es[0], own, isAggregate) || AnyAsks(es[1..], own, isAggregate))
  }

  function Remaining(en: Engine, filter: Option<P.Ast>, rows: seq<Row>): seq<Row> {
    if rows == [] then []
    else
      (if filter.None? || en.holds(Value(en.meaning, filter.value, true, [rows[0]], rows[0])) then [rows[0]] else [])
      + Remaining(en, filter, rows[1..])
  }

  function EachValue(m: Meaning, es: seq<P.Ast>, rows: seq<Row>): seq<Cells> {
    if rows == [] then [] else [Values(m, es, true, [rows[0]], rows[0])] + EachValue(m, es, rows[1..])
  }

  function KeyValues(m: Meaning, keys: seq<P.Ast>, rows: seq<Row>, over: seq<Row>): seq<Cells> {
    if over == [] then [] else [Values(m, keys, false, rows, over[0])] + KeyValues(m, keys, rows, over[1..])
  }

  function GroupValues(en: Engine, es: seq<P.Ast>, rows: seq<Row>, parts: seq<seq<nat>>): seq<Cells> {
    if parts == [] then []
    else
      var members := Chosen(rows, parts[0]);
      (if members == [] then [] else [Values(en.meaning, es, false, members, Member(en, members))])
      + GroupValues(en, es, rows, parts[1..])
  }

  function GroupKeys(s: S.Select): seq<P.Ast> {
    if s.group.Some? && s.group.value.ByExprs? then s.group.value.exprs else []
  }

  predicate IsGrouped(s: S.Select, es: seq<P.Ast>, isAggregate: string -> bool) {
    (s.group.Some? && s.group.value.ByExprs?) || AnyAggregate(es, isAggregate)
  }

  /** How the table is to be scanned for some expressions. */
  function StrategyFor(s: S.Select, es: seq<P.Ast>, isAggregate: string -> bool): Strategy {
    if IsGrouped(s, es, isAggregate) then
      if AnyAsks(es, false, isAggregate) || AnyAsks(GroupKeys(s), false, isAggregate)
      then AGGREGATE_WITHIN_RECORD_DEEP else NO_AGGREGATION
    else if AnyAsks(es, true, isAggregate) then AGGREGATE_WITHIN_RECORD_FLAT
    else NO_AGGREGATION
  }

  /** The rows for which the condition holds, in groups or one by one. */
  function Base(en: Engine, s: S.Select, es: seq<P.Ast>): seq<Cells>
    requires s.from.Some? && s.from.value != []
  {
    var m := en.meaning;
    var rows := Remaining(en, s.filter, en.rowsOf(s.from.value[0], StrategyFor(s, es, m.isAggregate)));
    if IsGrouped(s, es, m.isAggregate)
    then GroupValues(en, es, rows, en.parts(KeyValues(m, GroupKeys(s), rows, rows)))
    else EachValue(m, es, rows)
  }

  /** The expressions of a list, with all columns of the table at the end for every wildcard. */
  function DerivedOf(items: seq<S.Item>): seq<P.Ast> {
    if items == [] then [] else (if items[0].Derived? then [items[0].expr] else []) + DerivedOf(items[1..])
  }

  function WildcardsIn(items: seq<S.Item>): nat {
    if items == [] then 0 else (if items[0].Derived? then 0 else 1) + WildcardsIn(items[1..])
  }

  function AsColumns(columns: seq<string>): (es: seq<P.Ast>)
    ensures |es| == |columns| && forall i :: 0 <= i < |columns| ==> es[i] == P.Column([columns[i]])
  {
    seq(|columns|, i requires 0 <= i < |columns| => P.Column([columns[i]]))
  }

  function Exprs(s: S.Select, c: Catalog): seq<P.Ast> {
    DerivedOf(s.list) + Times(AsColumns(KnownColumns(s, c)), WildcardsIn(s.list))
  }

  /** Their names: the one given, or the one made of the expression. */
  function DerivedNames(items: seq<S.Item>): seq<Option<string>> {
    if items == [] then []
    else
      (if items[0].Derived? then
         [Some(if items[0].alias.Some? then items[0].alias.value else ExprName(ExprNode(items[0].expr)))]
       else [])
      + DerivedNames(items[1..])
  }

  function AsNames(columns: seq<string>): (names: seq<Option<string>>)
    ensures |names| == |columns| && forall i :: 0 <= i < |columns| ==> names[i] == Some(columns[i])
  {
    seq(|columns|, i requires 0 <= i < |columns| => Some(columns[i]))
  }

  function Names(s: S.Select, c: Catalog): seq<Option<string>> {
    DerivedNames(s.list) + Times(AsNames(KnownColumns(s, c)), WildcardsIn(s.list))
  }

  /** The first word of an expression. */
  function WordOf(e: P.Ast): string {
    match e
    case Literal(token) => Text(token)
    case Column(names) => if names == [] then "" else names[0]
    case Call(_, name, _) => name
    case _ => ""
  }

  function FirstNamed(names: seq<Option<string>>, word: string): (i: nat)
    ensures i <= |names|
  {
    if names == [] || names[0] == Some(word) then 0 else 1 + FirstNamed(names[1..], word)
  }

  datatype SortedBy = SortedBy(columns: seq<nat>, exprs: seq<P.Ast>)

  /** The columns to sort by: the first one of that name, or else the expression as another column. */
  function SortColumnsFor(es: seq<P.Ast>, names: seq<Option<string>>, order: seq<S.Sort>): SortedBy
    decreases |order|
  {
    if order == [] then SortedBy([], es)
    else
      var i := FirstNamed(names, WordOf(order[0].expr));
      var more := if i < |names| then SortColumnsFor(es, names, order[1..])
                  else SortColumnsFor(es + [order[0].expr], names + [None], order[1..]);
      SortedBy([i] + more.columns, more.exprs)
  }

  function Descending(order: seq<S.Sort>): (flags: seq<bool>)
    ensures |flags| == |order| && forall i :: 0 <= i < |order| ==> flags[i] == (order[i].order == Some("DESC"))
  {
    seq(|order|, i requires 0 <= i < |order| => order[i].order == Some("DESC"))
  }

  function NumberIn(text: string): nat {
    var n := GetInteger(text);
    if n.Some? then n.value else 0
  }

  /** The rows that a statement asks for. */
  function Answer(en: Engine, s: S.Select, c: Catalog): seq<Cells>
    requires s.from.Some? && s.from.value != []
  {
    var es := Exprs(s, c);
    var rows :=
      if s.order.None? then Base(en, s, es)
      else
        var sorted := SortColumnsFor(es, Names(s, c), s.order.value);
        Sorted(en, Base(en, s, sorted.exprs), sorted.columns, Descending(s.order.value), |es|);
    match s.limit
    case None => rows
    case Some(Limit(limit, None)) => Limited(rows, NumberIn(limit), 0)
    case Some(Limit(limit, Some(offset))) => Limited(rows, NumberIn(limit), NumberIn(offset))
  }

  // ------------------------------------------------------------------
  // Lists of nodes that stand for lists of expressions
  // ------------------------------------------------------------------

  /** The tree of an expression, or a column of a table with the table in front. */
  ghost predicate IsNodeOf(n: Node, e: P.Ast) {
    n == ExprNode(e) || (n.kind.TABLE_NAME? && e.Column? && n.children == [ExprNode(e)])
  }

  /** A column of a list that stands for an expression; it may have a name. */
  ghost predicate StandsFor(d: Node, e: P.Ast) {
    && d.kind.DERIVED_COLUMN? && 1 <= |d.children| <= 2 && IsNodeOf(d.children[0], e)
    && (|d.children| == 2 ==> d.children[1].kind.COLUMN_ALIAS? && d.children[1].children == [])
  }

  ghost predicate ListStands(list: seq<Node>, es: seq<P.Ast>) {
    |list| == |es| && forall i :: 0 <= i < |list| ==> StandsFor(list[i], es[i])
  }

  lemma {:induction false} StandsForValue(m: Meaning, d: Node, e: P.Ast, own: bool, rows: seq<Row>, r: Row)
    requires StandsFor(d, e) && IsWhole(e)
    ensures Eval(m, d, own, rows, r) == Value(m, e, own, rows, r)
  {
    hide ExprNode, Value, IsWhole;
    NodeValue(m, e, own, rows, r);
  }

  lemma {:induction false} ListValues(m: Meaning, list: seq<Node>, es: seq<P.Ast>, own: bool, rows: seq<Row>, r: Row)
    requires ListStands(list, es) && AllWhole(es)
    ensures EvalAll(m, list, own, rows, r) == Values(m, es, own, rows, r)
    decreases |list|
  {
    hide StandsFor, Eval, Value, IsWhole;
    if list != [] {
      StandsForValue(m, list[0], es[0], own, rows, r);
      ListValues(m, list[1..], es[1..], own, rows, r);
    }
  }

  lemma {:induction false} EachRowIsValue(m: Meaning, list: seq<Node>, es: seq<P.Ast>, rows: seq<Row>)
    requires ListStands(list, es) && AllWhole(es)
    ensures EachRow(m, list, rows) == EachValue(m, es, rows)
  {
    hide ListStands, AllWhole, EvalAll, Values;
    if rows != [] {
      ListValues(m, list, es, true, [rows[0]], rows[0]);
      EachRowIsValue(m, list, es, rows[1..]);
    }
  }

  lemma {:induction false} KeysAreValues(m: Meaning, keys: seq<P.Ast>, rows: seq<Row>, over: seq<Row>)
    requires AllWhole(keys)
    ensures KeysOf(m, ExprNodes(keys), rows, over) == KeyValues(m, keys, rows, over)
  {
    hide AllWhole, EvalAll, Values;
    if over != [] {
      NodeValues(m, keys, false, rows, over[0]);
      KeysAreValues(m, keys, rows, over[1..]);
    }
  }

  lemma {:induction false} GroupRowsAreValues(en: Engine, list: seq<Node>, es: seq<P.Ast>, rows: seq<Row>, parts: seq<seq<nat>>)
    requires ListStands(list, es) && AllWhole(es)
    ensures GroupRows(en, list, rows, parts) == GroupValues(en, es, rows, parts)
    decreases |parts|
  {
    hide ListStands, AllWhole, EvalAll, Values, Chosen;
    if parts != [] {
      var members := Chosen(rows, parts[0]);
      if members != [] {
        ListValues(en.meaning, list, es, false, members, Member(en, members));
      }
      GroupRowsAreValues(en, list, es, rows, parts[1..]);
    }
  }

  lemma {:induction false} KeptIsRemaining(en: Engine, node: Option<Node>, filter: Option<P.Ast>, rows: seq<Row>)
    requires if filter.None? then node.None? else node == Some(ExprNode(filter.value)) && IsWhole(filter.value)
    ensures Kept(en, node, rows) == Remaining(en, filter, rows)
  {
    hide IsWhole, Eval, Value, ExprNode;
    if rows != [] {
      if filter.Some? {
        NodeValue(en.meaning, filter.value, true, [rows[0]], rows[0]);
      }
      KeptIsRemaining(en, node, filter, rows[1..]);
    }
  }

  // ------------------------------------------------------------------
  // Aggregates and records, in trees and in expressions
  // ------------------------------------------------------------------

  /** The same for trees. */
  predicate Asks(n: Node, own: bool, isAggregate: string -> bool) {
    if n.kind.METHOD_CALL_WITHIN_RECORD? then true
    else if n.kind.COLUMN_NAME? then !own
    else AllAsk(n.children, Inside(n, own, isAggregate), isAggregate)
  }

  /** Some of them asks. */
  predicate AllAsk(ns: seq<Node>, own: bool, isAggregate: string -> bool) {
    ns != [] && (Asks(ns[0], own, isAggregate) || AllAsk(ns[1..], own, isAggregate))
  }

  lemma {:induction false} NodeAsks(e: P.Ast, own: bool, isAggregate: string -> bool)
    requires IsWhole(e)
    ensures HasAggregation(ExprNode(e), isAggregate) <==> HasAggregate(e, isAggregate)
    ensures Asks(ExprNode(e), own, isAggregate) <==> AsksRecord(e, own, isAggregate)
    decreases e
  {
    match e
    case Column(names) =>
      ColumnFromParser(names);
      NamesHaveNoCalls(ColumnNode(names), isAggregate);
    case Call(kind, name, args) =>
      NodesAsk(args, Inside(ExprNode(e), own, isAggregate), isAggregate);
    case Negate(operand) =>
      NodeAsks(operand, own, isAggregate);
      OneAsks(ExprNode(operand), own, isAggregate);
    case Binary(_, left, right) =>
      NodeAsks(left, own, isAggregate);
      NodeAsks(right, own, isAggregate);
      OneAsks(ExprNode(right), own, isAggregate);
      assert [ExprNode(left), ExprNode(right)][1..] == [ExprNode(right)];
    case _ =>
  }

  lemma {:induction false} NodesAsk(es: seq<P.Ast>, own: bool, isAggregate: string -> bool)
    requires AllWhole(es)
    ensures AnyAggregation(ExprNodes(es), isAggregate) <==> AnyAggregate(es, isAggregate)
    ensures AllAsk(ExprNodes(es), own, isAggregate) <==> AnyAsks(es, own, isAggregate)
    decreases es
  {
    if es != [] {
      NodeAsks(es[0], own, isAggregate);
      NodesAsk(es[1..], own, isAggregate);
    }
  }

  lemma {:induction false} StandsForAsks(d: Node, e: P.Ast, own: bool, isAggregate: string -> bool)
    requires StandsFor(d, e) && IsWhole(e)
    ensures HasAggregation(d, isAggregate) <==> HasAggregate(e, isAggregate)
    ensures Asks(d, own, isAggregate) <==> AsksRecord(e, own, isAggregate)
  {
    hide ExprNode, IsWhole, HasAggregate, AsksRecord;
    NodeAsks(e, own, isAggregate);
    var n := d.children[0];
    if n != ExprNode(e) {
      OnlyOneAsks(n, ExprNode(e), own, isAggregate);
    }
    assert HasAggregation(n, isAggregate) == HasAggregation(ExprNode(e), isAggregate);
    assert Asks(n, own, isAggregate) == Asks(ExprNode(e), own, isAggregate);
    if |d.children| == 2 {
      var alias := d.children[1];
      NothingAsks(alias, own, isAggregate);
      OneAsks(alias, own, isAggregate);
      assert d.children[1..] == [alias];
    } else {
      OnlyOneAsks(d, n, own, isAggregate);
    }
  }

  lemma {:induction false} OnlyOneAsks(d: Node, n: Node, own: bool, isAggregate: string -> bool)
    requires (d.kind.DERIVED_COLUMN? || d.kind.TABLE_NAME?) && d.children == [n]
    ensures HasAggregation(d, isAggregate) == HasAggregation(n, isAggregate)
    ensures Asks(d, own, isAggregate) == Asks(n, own, isAggregate)
  {
    OneAsks(n, own, isAggregate);
  }

  lemma {:induction false} OneAsks(n: Node, own: bool, isAggregate: string -> bool)
    ensures AnyAggregation([n], isAggregate) == HasAggregation(n, isAggregate)
    ensures AllAsk([n], own, isAggregate) == Asks(n, own, isAggregate)
  {
    assert [n][1..] == [];
  }

  lemma {:induction false} NothingAsks(n: Node, own: bool, isAggregate: string -> bool)
    requires n.kind.COLUMN_ALIAS? && n.children == []
    ensures !HasAggregation(n, isAggregate) && !Asks(n, own, isAggregate)
  {
    assert !AllAsk([], Inside(n, own, isAggregate), isAggregate);
  }

  lemma {:induction false} ListAsks(list: seq<Node>, es: seq<P.Ast>, own: bool, isAggregate: string -> bool)
    requires ListStands(list, es) && AllWhole(es)
    ensures AnyAggregation(list, isAggregate) <==> AnyAggregate(es, isAggregate)
    ensures AllAsk(list, own, isAggregate) <==> AnyAsks(es, own, isAggregate)
    decreases |list|
  {
    hide StandsFor, HasAggregation, HasAggregate, Asks, AsksRecord, IsWhole;
    if list != [] {
      StandsForAsks(list[0], es[0], own, isAggregate);
      ListAsks(list[1..], es[1..], own, isAggregate);
    }
  }

  // ------------------------------------------------------------------
  // Names of columns do not matter to values
  // ------------------------------------------------------------------

  lemma {:induction false} EvalAllAt(m: Meaning, ns: seq<Node>, own: bool, rows: seq<Row>, r: Row, i: nat)
    requires i < |ns|
    ensures EvalAll(m, ns, own, rows, r)[i] == Eval(m, ns[i], own, rows, r)
  {
    if i > 0 {
      EvalAllAt(m, ns[1..], own, rows, r, i - 1);
    }
  }

  lemma {:induction false} EvalNamed(m: Meaning, list: seq<Node>, own: bool, rows: seq<Row>, r: Row)
    ensures EvalAll(m, Named(list), own, rows, r) == EvalAll(m, list, own, rows, r)
  {
    hide Eval;
    forall i | 0 <= i < |list| ensures EvalAll(m, Named(list), own, rows, r)[i] == EvalAll(m, list, own, rows, r)[i] {
      EvalAllAt(m, Named(list), own, rows, r, i);
      EvalAllAt(m, list, own, rows, r, i);
      EvalNamedOne(m, list[i], own, rows, r);
    }
  }

  lemma {:induction false} EvalNamedOne(m: Meaning, d: Node, own: bool, rows: seq<Row>, r: Row)
    ensures Eval(m, NamedColumn(d), own, rows, r) == Eval(m, d, own, rows, r)
  {
  }

  lemma {:induction false} EachRowNamed(m: Meaning, list: seq<Node>, rows: seq<Row>)
    ensures EachRow(m, Named(list), rows) == EachRow(m, list, rows)
  {
    hide EvalAll, Named;
    if rows != [] {
      EvalNamed(m, list, true, [rows[0]], rows[0]);
      EachRowNamed(m, list, rows[1..]);
    }
  }

  lemma {:induction false} ListStandsNamed(list: seq<Node>, es: seq<P.Ast>)
    requires ListStands(list, es)
    ensures ListStands(Named(list), es)
  {
    hide IsNodeOf;
    forall i | 0 <= i < |list| ensures StandsFor(Named(list)[i], es[i]) {
      assert StandsFor(list[i], es[i]);
    }
  }

  // ------------------------------------------------------------------
  // Records that are asked for
  // ------------------------------------------------------------------

  lemma {:induction false} NamesHaveNoRecord(n: Node)
    requires FromParser(n) && n.kind.COLUMN_NAME?
    ensures !HasWithinRecord(n)
    decreases n
  {
    AllNamesHaveNoRecord(n.children);
  }

  lemma {:induction false} AllNamesHaveNoRecord(ns: seq<Node>)
    requires AllFromParser(ns) && forall i :: 0 <= i < |ns| ==> ns[i].kind.COLUMN_NAME?
    ensures !AnyWithinRecord(ns)
    decreases ns
  {
    if ns != [] {
      NamesHaveNoRecord(ns[0]);
      AllNamesHaveNoRecord(ns[1..]);
    }
  }

  /** Where columns are their own values, only calls WITHIN RECORD ask for records. */
  lemma {:induction false} AsksIsWithin(n: Node, isAggregate: string -> bool)
    requires FromParser(n)
    ensures Asks(n, true, isAggregate) <==> HasWithinRecord(n)
    decreases n
  {
    if n.kind.COLUMN_NAME? {
      NamesHaveNoRecord(n);
    } else {
      AllAskIsWithin(n.children, isAggregate);
    }
  }

  lemma {:induction false} AllAskIsWithin(ns: seq<Node>, isAggregate: string -> bool)
    requires AllFromParser(ns)
    ensures AllAsk(ns, true, isAggregate) <==> AnyWithinRecord(ns)
    decreases ns
  {
    hide FromParser, HasWithinRecord, Asks;
    if ns != [] {
      AsksIsWithin(ns[0], isAggregate);
      AllAskIsWithin(ns[1..], isAggregate);
    }
  }

  lemma {:induction false} WithinConcat(a: seq<Node>, b: seq<Node>)
    ensures AnyWithinRecord(a + b) <==> AnyWithinRecord(a) || AnyWithinRecord(b)
  {
    hide HasWithinRecord;
    if a == [] {
      assert a + b == b;
    } else {
      assert (a + b)[1..] == a[1..] + b;
      WithinConcat(a[1..], b);
    }
  }

  lemma {:induction false} WithinCopy(n: Node)
    ensures HasWithinRecord(DeepCopy(n)) <==> HasWithinRecord(n)
    decreases n
  {
    WithinCopies(n.children);
  }

  lemma {:induction false} WithinCopies(ns: seq<Node>)
    ensures AnyWithinRecord(AllCopies(ns)) <==> AnyWithinRecord(ns)
    decreases ns
  {
    if ns != [] {
      WithinCopy(ns[0]);
      WithinCopies(ns[1..]);
      assert AllCopies(ns)[1..] == AllCopies(ns[1..]);
    }
  }

  lemma {:induction false} OneWithin(n: Node)
    ensures AnyWithinRecord([n]) <==> HasWithinRecord(n)
    ensures HasWithinRecord(Plain(DERIVED_COLUMN, [n])) <==> HasWithinRecord(n)
  {
    assert [n][1..] == [];
    assert AnyWithinRecord([n]) <==> HasWithinRecord(n);
  }

  lemma {:induction false} WithinAt(list: seq<Node>, i: nat)
    requires i < |list| && HasWithinRecord(list[i])
    ensures AnyWithinRecord(list)
  {
    if i > 0 {
      WithinAt(list[1..], i - 1);
    }
  }

  lemma {:induction false} EntryWithin(column: Node, inAggregation: bool)
    requires FromParser(column) && column.kind.COLUMN_NAME?
    ensures HasWithinRecord(ColumnEntry(column, inAggregation)) <==> !inAggregation
  {
    hide FromParser;
    var copy := DeepCopy(column);
    WithinCopy(column);
    NamesHaveNoRecord(column);
    OneWithin(if inAggregation then copy else Node(METHOD_CALL_WITHIN_RECORD, Some(P.Ident("repeat_value")), None, [copy]));
  }

  /** The child's list has calls WITHIN RECORD exactly for what asks for records. */
  lemma {:induction false} RewriteAsks(n: Node, list: seq<Node>, inAggregation: bool, isAggregate: string -> bool)
    requires FromParser(n)
    ensures var r := Rewrite(n, list, inAggregation, isAggregate);
            r.Split? ==> (AnyWithinRecord(r.list) <==> AnyWithinRecord(list) || Asks(n, inAggregation, isAggregate))
    decreases n
  {
    hide Place, ColumnEntry, Compare, DeepCopy;
    if n.kind.METHOD_CALL_WITHIN_RECORD? {
      WithinCopy(n);
      OneWithin(DeepCopy(n));
      OneWithin(Plain(DERIVED_COLUMN, [DeepCopy(n)]));
      WithinConcat(list, [Plain(DERIVED_COLUMN, [DeepCopy(n)])]);
    } else if n.kind.COLUMN_NAME? {
      var entry := ColumnEntry(n, inAggregation);
      EntryWithin(n, inAggregation);
      OneWithin(entry);
      WithinConcat(list, [entry]);
      var i := Place(entry, list);
      if i < |list| {
        CompareIff(entry, list[i]);
        WithinCopy(entry);
        WithinCopy(list[i]);
        if HasWithinRecord(list[i]) {
          WithinAt(list, i);
        }
      }
    } else {
      RewriteAllAsks(n.children, list, Inside(n, inAggregation, isAggregate), isAggregate);
    }
  }

  lemma {:induction false} RewriteAllAsks(ns: seq<Node>, list: seq<Node>, inAggregation: bool, isAggregate: string -> bool)
    requires AllFromParser(ns)
    ensures var r := RewriteAll(ns, list, inAggregation, isAggregate);
            r.SplitAll? ==> (AnyWithinRecord(r.list) <==> AnyWithinRecord(list) || AllAsk(ns, inAggregation, isAggregate))
    decreases ns
  {
    hide Rewrite, Asks, FromParser, HasWithinRecord;
    if ns != [] {
      RewriteAsks(ns[0], list, inAggregation, isAggregate);
      var first := Rewrite(ns[0], list, inAggregation, isAggregate);
      if first.Split? {
        RewriteAllAsks(ns[1..], first.list, inAggregation, isAggregate);
      }
    }
  }

  lemma {:induction false} WithinNamed(list: seq<Node>)
    ensures AnyWithinRecord(Named(list)) <==> AnyWithinRecord(list)
  {
    if list != [] {
      WithinNamedOne(list[0]);
      WithinNamed(list[1..]);
      assert Named(list)[1..] == Named(list[1..]);
    }
  }

  lemma {:induction false} WithinNamedOne(d: Node)
    ensures HasWithinRecord(NamedColumn(d)) <==> HasWithinRecord(d)
  {
    if d.kind.DERIVED_COLUMN? && |d.children| == 1 {
      var alias := Alias(ExprName(d.children[0]));
      WithinConcat(d.children, [alias]);
      assert !HasWithinRecord(alias) && [alias][1..] == [];
    }
  }

  // ------------------------------------------------------------------
  // A grouping and its child
  // ------------------------------------------------------------------

  lemma {:induction false} FromParserUnresolved(n: Node)
    requires FromParser(n)
    ensures Unresolved(n)
    decreases n
  {
    forall i | 0 <= i < |n.children| ensures Unresolved(n.children[i]) {
      FromParserUnresolved(n.children[i]);
    }
  }

  lemma {:induction false} AllUnresolved(ns: seq<Node>)
    requires AllFromParser(ns)
    ensures forall i :: 0 <= i < |ns| ==> Unresolved(ns[i])
  {
    forall i | 0 <= i < |ns| ensures Unresolved(ns[i]) {
      FromParserUnresolved(ns[i]);
    }
  }

  lemma {:induction false} ChildIs(m: Meaning, list: seq<Node>, rows: seq<Row>)
    ensures AsRows(EachRow(m, list, rows)) == ChildRows(m, list, rows)
  {
    hide Eval;
    if rows != [] {
      ChildIs(m, list, rows[1..]);
      var r := rows[0];
      forall i | 0 <= i < |list| ensures EvalAll(m, list, true, [r], r)[i] == Eval(m, list[i], true, [r], r) {
        EvalAllAt(m, list, true, [r], r, i);
      }
      assert Child(EvalAll(m, list, true, [r], r)) == ChildRow(m, list, r);
      assert AsRows(EachRow(m, list, rows)) == [Child(EvalAll(m, list, true, [r], r))] + AsRows(EachRow(m, list, rows[1..]));
      assert ChildRows(m, list, rows) == [ChildRow(m, list, r)] + ChildRows(m, list, rows[1..]);
    }
  }

  lemma {:induction false} ChosenChildren(m: Meaning, list: seq<Node>, rows: seq<Row>, places: seq<nat>)
    ensures Chosen(ChildRows(m, list, rows), places) == ChildRows(m, list, Chosen(rows, places))
    decreases |places|
  {
    hide ChildRow;
    if places != [] {
      ChosenChildren(m, list, rows, places[1..]);
      var first := if places[0] < |rows| then [rows[places[0]]] else [];
      assert ChildRows(m, list, first + Chosen(rows, places[1..]))
          == ChildRows(m, list, first) + ChildRows(m, list, Chosen(rows, places[1..]));
    }
  }

  /** Keys over the rows of the child are the keys over the rows of the table. */
  lemma {:induction false} KeysMeanSame(
    m: Meaning, keys: seq<Node>, list: seq<Node>, final: seq<Node>, rows: seq<Row>, over: seq<Row>)
    requires forall i :: 0 <= i < |keys| ==> Unresolved(keys[i])
    requires var s := RewriteAll(keys, list, false, m.isAggregate); s.SplitAll? && s.list <= final
    ensures var s := RewriteAll(keys, list, false, m.isAggregate);
            KeysOf(m, s.nodes, ChildRows(m, final, rows), ChildRows(m, final, over)) == KeysOf(m, keys, rows, over)
    decreases |over|
  {
    hide RewriteAll, EvalAll, ChildRow;
    if over != [] {
      RewriteAllMeansSame(m, keys, list, false, final, rows, over[0]);
      KeysMeanSame(m, keys, list, final, rows, over[1..]);
      assert ChildRows(m, final, over)[1..] == ChildRows(m, final, over[1..]);
    }
  }

  /** So are the selected values of every group. */
  lemma {:induction false} GroupsMeanSame(
    en: Engine, selects: seq<Node>, list: seq<Node>, final: seq<Node>, rows: seq<Row>, parts: seq<seq<nat>>)
    requires forall i :: 0 <= i < |selects| ==> Unresolved(selects[i])
    requires var s := RewriteAll(selects, list, false, en.meaning.isAggregate); s.SplitAll? && s.list <= final
    ensures var s := RewriteAll(selects, list, false, en.meaning.isAggregate);
            GroupRows(en, s.nodes, ChildRows(en.meaning, final, rows), parts) == GroupRows(en, selects, rows, parts)
    decreases |parts|
  {
    hide RewriteAll, EvalAll, ChildRow, Chosen;
    if parts != [] {
      var m := en.meaning;
      var members := Chosen(rows, parts[0]);
      ChosenChildren(m, final, rows, parts[0]);
      if members != [] {
        RewriteAllMeansSame(m, selects, list, false, final, members, Member(en, members));
        assert Member(en, ChildRows(m, final, members)) == ChildRow(m, final, Member(en, members));
      }
      GroupsMeanSame(en, selects, list, final, rows, parts[1..]);
    }
  }

  /** A grouping over the rows of its child is the grouping of the statement over the rows of the
      table. */
  lemma {:induction false} GroupingMeansSame(ast: Node, en: Engine, rows: seq<Row>)
    requires IsStatement(ast) && GroupOf(ast, en.meaning.isAggregate).GroupStage?
    ensures var stage := GroupOf(ast, en.meaning.isAggregate);
            && stage.child.children != []
            && Grouped(en, stage.selects, stage.groups, AsRows(EachRow(en.meaning, stage.child.children[0].children, rows)))
               == Grouped(en, ast.children[0].children, GroupExpressions(ast), rows)
  {
    hide RewriteAll, EvalAll, FromParser, HasTables, Count, AnyAggregation, CanBuildAll, CanBuildItems, EachRow, KeysOf,
         GroupRows, AllCopies, ChildAst;
    var m := en.meaning;
    var list, keys := ast.children[0].children, GroupExpressions(ast);
    ListFromParser(ast);
    CopiesAreSame(list);
    ClauseFromParser(ast, GROUP_BY);
    CopiesAreSame(keys);
    GroupChildList(ast, m.isAggregate);
    AllUnresolved(list);
    AllUnresolved(keys);
    var inner := RewriteAll(list, [], false, m.isAggregate);
    var final := RewriteAll(keys, inner.list, false, m.isAggregate).list;
    RewriteAllResolves(keys, inner.list, false, m.isAggregate);
    ChildIs(m, final, rows);
    KeysMeanSame(m, keys, inner.list, final, rows, rows);
    GroupsMeanSame(en, list, [], final, rows, en.parts(KeysOf(m, keys, rows, rows)));
  }

  /** The child has calls WITHIN RECORD exactly if the list or a key asks for records. */
  lemma {:induction false} GroupingAsks(ast: Node, isAggregate: string -> bool)
    requires IsStatement(ast) && GroupOf(ast, isAggregate).GroupStage?
    ensures var child := GroupOf(ast, isAggregate).child;
            && child.children != []
            && (AnyWithinRecord(child.children[0].children)
                <==> AllAsk(ast.children[0].children, false, isAggregate)
                     || AllAsk(GroupExpressions(ast), false, isAggregate))
  {
    hide RewriteAll, FromParser, HasTables, Count, AnyAggregation, CanBuildAll, CanBuildItems, AllCopies, ChildAst, HasWithinRecord;
    var list, keys := ast.children[0].children, GroupExpressions(ast);
    ListFromParser(ast);
    CopiesAreSame(list);
    ClauseFromParser(ast, GROUP_BY);
    CopiesAreSame(keys);
    GroupChildList(ast, isAggregate);
    var inner := RewriteAll(list, [], false, isAggregate);
    RewriteAllAsks(list, [], false, isAggregate);
    RewriteAllAsks(keys, inner.list, false, isAggregate);
  }

  // ------------------------------------------------------------------
  // Statements without limit and order
  // ------------------------------------------------------------------

  function FilterNode(s: S.Select): Option<Node> {
    if s.filter.None? then None else Some(ExprNode(s.filter.value))
  }

  /** The tables, the condition and the keys are those of the statement. */
  ghost predicate HasClauses(ast: Node, s: S.Select) {
    && |ast.children| >= 2
    && s.from.Some? && s.from.value != [] && ast.children[1] == FromNode(s.from.value)
    && FirstOf(ast.children, WHERE)
       == (if s.filter.None? then None else Some(Plain(WHERE, [ExprNode(s.filter.value)])))
    && FirstOf(ast.children, GROUP_BY)
       == (if s.group.Some? && s.group.value.ByExprs? then Some(Plain(GROUP_BY, ExprNodes(s.group.value.exprs))) else None)
  }

  lemma {:induction false} SameClausesBehind(a: Node, b: Node, s: S.Select)
    requires HasClauses(a, s) && IsSelect(a) && IsSelect(b) && a.children[1..] == b.children[1..]
    ensures HasClauses(b, s)
  {
    HeadIgnored(a.children, WHERE);
    HeadIgnored(b.children, WHERE);
    HeadIgnored(a.children, GROUP_BY);
    HeadIgnored(b.children, GROUP_BY);
    assert |b.children| == |a.children| && b.children[1] == b.children[1..][0] == a.children[1];
  }

  /** Erasing another clause leaves them. */
  lemma {:induction false} ClausesWithout(a: Node, b: Node, clause: Kind, s: S.Select)
    requires HasClauses(a, s) && IsSelect(a) && IsSelect(b) && b.children[1..] == Without(a.children[1..], clause)
    requires clause.LIMIT? || clause.ORDER_BY?
    ensures HasClauses(b, s)
  {
    HeadIgnored(a.children, WHERE);
    HeadIgnored(b.children, WHERE);
    HeadIgnored(a.children, GROUP_BY);
    HeadIgnored(b.children, GROUP_BY);
    OthersStay(a.children[1..], clause, WHERE);
    OthersStay(a.children[1..], clause, GROUP_BY);
    var behind := a.children[1..];
    assert Without(behind, clause) == [behind[0]] + Without(behind[1..], clause);
    assert b.children[1] == b.children[1..][0] == behind[0];
  }

  function ScanStrategy(list: seq<Node>, deep: bool): Strategy {
    if !AnyWithinRecord(list) then NO_AGGREGATION
    else if deep then AGGREGATE_WITHIN_RECORD_DEEP
    else AGGREGATE_WITHIN_RECORD_FLAT
  }

  lemma {:induction false} FilterOfScan(p: Node, s: S.Select, isAggregate: string -> bool)
    requires IsSelect(p) && HasClauses(p, s) && IsScan(p, isAggregate) && !AnyAggregation(p.children[0].children, isAggregate)
    ensures LeafOf(p, isAggregate)
         == SequentialScan(s.from.value[0], p.children[0].children, FilterNode(s), ScanStrategy(p.children[0].children, p.kind.SELECT_DEEP?))
  {
    hide AnyAggregation, CanBuild, CanBuildItems, AnyWithinRecord, HasAggregation, ExprNode, ExprNodes;
    assert p.children[1].children[0] == Node(TABLE_NAME, Some(P.Ident(s.from.value[0])), None, []);
    var behind := p.children[1..];
    HeadIgnored(p.children, WHERE);
    HeadIgnored(behind, WHERE);
    if |p.children| > 2 {
      assert behind[1..][0] == p.children[2];
    } else {
      assert behind[1..] == [];
    }
  }

  /** What a leaf is, of a statement with a table. */
  lemma {:induction false} LeafOfStatement(ast: Node, s: S.Select, c: Catalog)
    requires IsStatement(ast) && HasClauses(ast, s) && NoWildcard(ast.children[0].children) && NextStage(ast, c).LeafStage?
    ensures var list := Named(ast.children[0].children);
            && NextStage(ast, c).leaf
               == SequentialScan(s.from.value[0], list, FilterNode(s), ScanStrategy(list, ast.kind.SELECT_DEEP?))
            && Prepared(ast, c.describe).Some? && !NeedsGroup(Prepared(ast, c.describe).value, c.isAggregate)
  {
    hide FromParser, HasTables, Count, HasClauses, LimitOf, OrderOf, GroupOf, IsScan, LeafOf, AnyWithinRecord, Prepared,
         AnyAggregation, Named;
    PreparedWithoutWildcard(ast, c.describe);
    var p := Prepared(ast, c.describe).value;
    SameClausesBehind(ast, p, s);
    WithTable(ast, s);
    WithTable(p, s);
    assert !IsExpressions(p, c.isAggregate);
    FilterOfScan(p, s, c.isAggregate);
  }

  lemma {:induction false} WithTable(ast: Node, s: S.Select)
    requires HasClauses(ast, s)
    ensures |ast.children| >= 2 && s.from.Some? && s.from.value != []
  {
  }

  /** Values of a statement that is not grouped. */
  lemma {:induction false} LeafMeans(ast: Node, s: S.Select, es: seq<P.Ast>, c: Catalog, en: Engine)
    requires IsStatement(ast) && ast.kind.SELECT? && HasClauses(ast, s) && NoWildcard(ast.children[0].children)
    requires NextStage(ast, c).LeafStage? && c.isAggregate == en.meaning.isAggregate
    requires ListStands(ast.children[0].children, es) && AllWhole(es) && IsWholeSelect(s)
    ensures s.from.Some? && s.from.value != [] && Run(en, LeafPlan(NextStage(ast, c).leaf)) == Base(en, s, es)
  {
    hide FromParser, HasTables, Count, NextStage, AnyWithinRecord, Prepared, AnyAggregation, Named, AllWhole, EachRow, ListStands,
         Kept, Remaining, EachValue, AnyAggregate, AnyAsks, AllAsk, GroupValues, KeyValues, IsWhole, IsWholeGrouping, AllWholeItems;
    WithTable(ast, s);
    LeafOfStatement(ast, s, c);
    var list, m := ast.children[0].children, en.meaning;
    NotGrouped(ast, s, c);
    ListStandsNamed(list, es);
    ListAsks(list, es, true, m.isAggregate);
    ListFromParser(ast);
    AllAskIsWithin(list, m.isAggregate);
    WithinNamed(list);
    var strategy := StrategyFor(s, es, m.isAggregate);
    KeptIsRemaining(en, FilterNode(s), s.filter, en.rowsOf(s.from.value[0], strategy));
    EachRowIsValue(m, Named(list), es, Remaining(en, s.filter, en.rowsOf(s.from.value[0], strategy)));
  }

  lemma {:induction false} NotGrouped(ast: Node, s: S.Select, c: Catalog)
    requires IsStatement(ast) && ast.kind.SELECT? && HasClauses(ast, s) && NoWildcard(ast.children[0].children)
    requires Prepared(ast, c.describe).Some?
    ensures NeedsGroup(Prepared(ast, c.describe).value, c.isAggregate)
            <==> (s.group.Some? && s.group.value.ByExprs?) || AnyAggregation(ast.children[0].children, c.isAggregate)
  {
    hide FromParser, HasTables, Prepared, AnyAggregation, FirstOf, Count, Has;
    PreparedStatement(ast, c);
    PreparedKeepsAny(ast, c);
  }

  lemma {:induction false} ChildIsSelect(ast: Node)
    requires IsStatement(ast)
    ensures IsSelect(ast)
  {
    hide FromParser, HasTables, Count;
  }

  lemma {:induction false} ChildHasClauses(p: Node, s: S.Select, isAggregate: string -> bool)
    requires IsStatement(p) && HasClauses(p, s) && GroupOf(p, isAggregate).GroupStage?
    ensures var child := GroupOf(p, isAggregate).child;
            child.children != [] && HasClauses(child, s.(group := None))
  {
    hide FromParser, HasTables, RewriteAll, AnyAggregation, AnyNested, CanBuildAll, CanBuildItems, ExprNode, ExprNodes;
    hide GroupOf, ChildAst, SameOf, IsStatement;
    ChildIsSelect(p);
    GroupChild(p, isAggregate);
    var child := GroupOf(p, isAggregate).child;
    ChildIsSelect(child);
    var behind := p.children[1..];
    HeadIgnored(p.children, WHERE);
    HeadIgnored(child.children, WHERE);
    OthersStay(behind, GROUP_BY, WHERE);
    assert Without(behind, GROUP_BY) == [behind[0]] + Without(behind[1..], GROUP_BY);
    assert child.children[1] == child.children[1..][0] == behind[0];
  }

  /** Values of a statement that is grouped. */
  lemma {:induction false} GroupMeans(ast: Node, s: S.Select, es: seq<P.Ast>, c: Catalog, en: Engine)
    requires IsStatement(ast) && ast.kind.SELECT? && IsCalm(ast, c.isAggregate) && HasClauses(ast, s)
    requires NoWildcard(ast.children[0].children)
    requires NextStage(ast, c).GroupStage? && PlanOf(ast, c).Some? && c.isAggregate == en.meaning.isAggregate
    requires ListStands(ast.children[0].children, es) && AllWhole(es) && IsWholeSelect(s)
    ensures s.from.Some? && s.from.value != [] && Run(en, PlanOf(ast, c).value) == Base(en, s, es)
  {
    hide FromParser, HasTables, Count, LimitOf, OrderOf, GroupOf, AnyWithinRecord, Prepared, AnyAggregation, Named, AllWhole, EachRow,
         ListStands, Kept, Remaining, EachValue, AnyAggregate, AnyAsks, AllAsk, GroupValues, KeyValues, GroupRows, KeysOf,
         IsWhole, AllWholeItems, AllWholeSorts, IsCalm, NeedsGroup, StagesLeft, HasClauses, ExprNode, ExprNodes, LeafOf;
    WithTable(ast, s);
    var list, m := ast.children[0].children, en.meaning;
    PreparedWithoutWildcard(ast, c.describe);
    PreparedStatement(ast, c);
    var p := Prepared(ast, c.describe).value;
    NotGrouped(ast, s, c);
    SameClausesBehind(ast, p, s);
    ListStandsNamed(list, es);
    ListAsks(list, es, false, m.isAggregate);
    ListAsks(Named(list), es, false, m.isAggregate);
    CalmGroup(p, c);
    var child := GroupOf(p, c.isAggregate).child;
    ChildHasClauses(p, s, c.isAggregate);
    ChildPlan(ast, child, c);
    LeafOfStatement(child, s.(group := None), c);
    GroupedBase(p, s, es, child, en);
  }

  lemma {:induction false} ChildPlan(ast: Node, child: Node, c: Catalog)
    requires IsStatement(ast) && IsCalm(ast, c.isAggregate) && IsStatement(child) && IsCalm(child, c.isAggregate)
    requires NextStage(ast, c).GroupStage? && NextStage(ast, c).child == child && PlanOf(ast, c).Some?
    requires NextStage(child, c).LeafStage? || NextStage(child, c).ErrorStage?
    ensures var stage := NextStage(ast, c);
            && NextStage(child, c).LeafStage?
            && PlanOf(ast, c).value == GroupPlan(stage.selects, stage.groups, LeafPlan(NextStage(child, c).leaf))
  {
    hide NextStage, FromParser, HasTables, IsCalm, StagesLeft, Count;
    StageDescends(ast, c);
  }

  lemma {:induction false} KeysOfClauses(p: Node, s: S.Select)
    requires HasClauses(p, s)
    ensures GroupExpressions(p) == ExprNodes(GroupKeys(s))
  {
    assert ExprNodes([]) == [];
  }

  lemma {:induction false} GroupedBase(p: Node, s: S.Select, es: seq<P.Ast>, child: Node, en: Engine)
    requires IsStatement(p) && HasClauses(p, s) && GroupOf(p, en.meaning.isAggregate).GroupStage?
    requires GroupOf(p, en.meaning.isAggregate).child == child && child.children != []
    requires ListStands(p.children[0].children, es) && AllWhole(es) && IsWholeSelect(s)
    requires IsGrouped(s, es, en.meaning.isAggregate)
    ensures s.from.Some? && s.from.value != []
    ensures var stage := GroupOf(p, en.meaning.isAggregate);
            var final := Named(child.children[0].children);
            Run(en, GroupPlan(stage.selects, stage.groups,
                              LeafPlan(SequentialScan(s.from.value[0], final, FilterNode(s), ScanStrategy(final, true)))))
            == Base(en, s, es)
  {
    hide FromParser, HasTables, Count, GroupOf, AnyWithinRecord, AnyAggregation, Named, AllWhole, EachRow, ListStands, Kept, Remaining,
         EachValue, AnyAggregate, AnyAsks, AllAsk, GroupValues, KeyValues, GroupRows, KeysOf, IsWhole, AllWholeItems,
         AllWholeSorts, ExprNode, ExprNodes, IsStatement, GroupExpressions;
    WithTable(p, s);
    var m, list, keys := en.meaning, p.children[0].children, GroupKeys(s);
    var final := child.children[0].children;
    KeysOfClauses(p, s);
    KeysAreWhole(s);
    GroupingAsks(p, m.isAggregate);
    ListAsks(list, es, false, m.isAggregate);
    NodesAsk(keys, false, m.isAggregate);
    WithinNamed(final);
    var strategy := StrategyFor(s, es, m.isAggregate);
    KeptIsRemaining(en, FilterNode(s), s.filter, en.rowsOf(s.from.value[0], strategy));
    var rows := Remaining(en, s.filter, en.rowsOf(s.from.value[0], strategy));
    assert strategy == ScanStrategy(Named(final), true);
    EachRowNamed(m, final, rows);
    GroupingMeansSame(p, en, rows);
    GroupedIsValues(en, list, es, keys, rows);
  }

  lemma {:induction false} GroupedIsValues(en: Engine, list: seq<Node>, es: seq<P.Ast>, keys: seq<P.Ast>, rows: seq<Row>)
    requires ListStands(list, es) && AllWhole(es) && AllWhole(keys)
    ensures Grouped(en, list, ExprNodes(keys), rows)
         == GroupValues(en, es, rows, en.parts(KeyValues(en.meaning, keys, rows, rows)))
  {
    hide ListStands, AllWhole, ExprNodes, GroupRows, GroupValues, KeysOf, KeyValues;
    KeysAreValues(en.meaning, keys, rows, rows);
    GroupRowsAreValues(en, list, es, rows, en.parts(KeyValues(en.meaning, keys, rows, rows)));
  }

  lemma {:induction false} KeysAreWhole(s: S.Select)
    requires IsWholeSelect(s)
    ensures AllWhole(GroupKeys(s))
  {
  }

  /** Without limit and order, the plan puts out the rows that the statement asks for. */
  lemma {:induction false} BaseMeans(ast: Node, s: S.Select, es: seq<P.Ast>, c: Catalog, en: Engine)
    requires IsStatement(ast) && ast.kind.SELECT? && IsCalm(ast, c.isAggregate) && HasClauses(ast, s)
    requires NoWildcard(ast.children[0].children) && LimitOf(ast).NoStage? && !Has(ast.children, ORDER_BY)
    requires PlanOf(ast, c).Some? && c.isAggregate == en.meaning.isAggregate
    requires ListStands(ast.children[0].children, es) && AllWhole(es) && IsWholeSelect(s)
    ensures s.from.Some? && s.from.value != [] && Run(en, PlanOf(ast, c).value) == Base(en, s, es)
  {
    hide FromParser, HasTables, Count, NextStage, LimitOf, Has, NoWildcard, ListStands, AllWhole, IsWholeSelect, IsCalm, HasClauses,
         Base, Run, StagesLeft;
    NoClauseNoStage(ast, c);
    match NextStage(ast, c)
    case LeafStage(_) => LeafMeans(ast, s, es, c, en);
    case GroupStage(_, _, _) => GroupMeans(ast, s, es, c, en);
    case ErrorStage =>
  }

  // ------------------------------------------------------------------
  // Order
  // ------------------------------------------------------------------

  /** A column has this name, or none. */
  ghost predicate HasNameOf(d: Node, name: Option<string>) {
    if name.None? then |d.children| == 1 else |d.children| == 2 && NameOf(d.children[1]) == name.value
  }

  ghost predicate NamesStand(list: seq<Node>, names: seq<Option<string>>) {
    |list| == |names| && forall i :: 0 <= i < |list| ==> HasNameOf(list[i], names[i])
  }

  lemma {:induction false} AliasIsName(d: Node, e: P.Ast, name: Option<string>, word: string)
    requires StandsFor(d, e) && HasNameOf(d, name)
    ensures IsAlias(d, word) <==> name == Some(word)
  {
  }

  lemma {:induction false} PlaceIsFirst(list: seq<Node>, es: seq<P.Ast>, names: seq<Option<string>>, word: string)
    requires ListStands(list, es) && NamesStand(list, names)
    ensures AliasPlace(list, word) == FirstNamed(names, word)
    decreases |list|
  {
    hide StandsFor, HasNameOf, IsAlias;
    if list != [] {
      AliasIsName(list[0], es[0], names[0], word);
      PlaceIsFirst(list[1..], es[1..], names[1..], word);
    }
  }

  lemma {:induction false} WordIsName(e: P.Ast)
    requires IsWhole(e)
    ensures NameOf(ExprNode(e)) == WordOf(e)
  {
  }

  function SortNodes(order: seq<S.Sort>): (specs: seq<Node>)
    ensures |specs| == |order| && forall i :: 0 <= i < |order| ==> specs[i] == SortNode(order[i])
  {
    seq(|order|, i requires 0 <= i < |order| => SortNode(order[i]))
  }

  /** The columns to sort by, in trees and in expressions. */
  lemma {:induction false} SortByMeans(list: seq<Node>, es: seq<P.Ast>, names: seq<Option<string>>, order: seq<S.Sort>)
    requires ListStands(list, es) && NamesStand(list, names) && AllWholeSorts(order)
    ensures var r, sorted := SortBy(list, SortNodes(order)), SortColumnsFor(es, names, order);
            && ColumnsOf(r.sorts) == sorted.columns && FlagsOf(r.sorts) == Descending(order)
            && ListStands(r.list, sorted.exprs)
    decreases |order|
  {
    hide IsWhole, AliasPlace, FirstNamed, StandsFor, HasNameOf, ExprNode, WordOf;
    if order != [] {
      var spec, e := SortNodes(order)[0], order[0].expr;
      assert spec == SortNode(order[0]) && SortColumn(spec) == ExprNode(e);
      WordIsName(e);
      PlaceIsFirst(list, es, names, WordOf(e));
      var i := FirstNamed(names, WordOf(e));
      var entry := Plain(DERIVED_COLUMN, [ExprNode(e)]);
      OneMoreStands(list, es, names, e);
      assert SortNodes(order)[1..] == SortNodes(order[1..]);
      var list1, es1, names1 := if i < |names| then list else list + [entry], if i < |names| then es else es + [e],
                                if i < |names| then names else names + [None];
      SortByMeans(list1, es1, names1, order[1..]);
      DescendingIs(order[0]);
      SortsInFront(Sort(i, order[0].order == Some("DESC")), SortBy(list1, SortNodes(order[1..])).sorts);
      assert Descending(order) == [order[0].order == Some("DESC")] + Descending(order[1..]);
    }
  }

  lemma {:induction false} DescendingIs(o: S.Sort)
    ensures SortNode(o).token == Some(P.Keyword("DESC")) <==> o.order == Some("DESC")
  {
  }

  lemma {:induction false} SortsInFront(sort: Sort, sorts: seq<Sort>)
    ensures ColumnsOf([sort] + sorts) == [sort.column] + ColumnsOf(sorts)
    ensures FlagsOf([sort] + sorts) == [sort.descending] + FlagsOf(sorts)
  {
  }

  lemma {:induction false} OneMoreStands(list: seq<Node>, es: seq<P.Ast>, names: seq<Option<string>>, e: P.Ast)
    requires ListStands(list, es) && NamesStand(list, names)
    ensures var entry := Plain(DERIVED_COLUMN, [ExprNode(e)]);
            ListStands(list + [entry], es + [e]) && NamesStand(list + [entry], names + [None])
  {
    var entry := Plain(DERIVED_COLUMN, [ExprNode(e)]);
    assert StandsFor(entry, e) && HasNameOf(entry, None);
    hide StandsFor, HasNameOf;
    assert forall i :: 0 <= i < |list| ==> StandsFor((list + [entry])[i], (es + [e])[i]);
    assert forall i :: 0 <= i < |list| ==> HasNameOf((list + [entry])[i], (names + [None])[i]);
  }

  lemma {:induction false} SortedExprsWhole(es: seq<P.Ast>, names: seq<Option<string>>, order: seq<S.Sort>)
    requires AllWhole(es) && AllWholeSorts(order)
    ensures AllWhole(SortColumnsFor(es, names, order).exprs)
    decreases |order|
  {
    hide IsWhole, FirstNamed, WordOf;
    if order != [] {
      if FirstNamed(names, WordOf(order[0].expr)) < |names| {
        SortedExprsWhole(es, names, order[1..]);
      } else {
        SortedExprsWhole(es + [order[0].expr], names + [None], order[1..]);
      }
    }
  }

  /** The rows of a statement without limit, for a list of expressions with names. */
  function OrderedRows(en: Engine, s: S.Select, es: seq<P.Ast>, names: seq<Option<string>>): seq<Cells>
    requires s.from.Some? && s.from.value != []
  {
    if s.order.None? then Base(en, s, es)
    else
      var sorted := SortColumnsFor(es, names, s.order.value);
      Sorted(en, Base(en, s, sorted.exprs), sorted.columns, Descending(s.order.value), |es|)
  }

  /** The order of the statement is there, unless there is none. */
  ghost predicate HasOrder(ast: Node, s: S.Select) {
    FirstOf(ast.children, ORDER_BY) == (if s.order.None? then None else Some(OrderNode(s.order.value)))
  }

  lemma {:induction false} OrderSpecs(ast: Node, s: S.Select)
    requires HasOrder(ast, s) && s.order.Some?
    ensures SortSpecs(ast) == SortNodes(s.order.value)
  {
  }

  lemma {:induction false} OrderedMeans(
    ast: Node, s: S.Select, es: seq<P.Ast>, names: seq<Option<string>>, c: Catalog, en: Engine)
    requires IsStatement(ast) && ast.kind.SELECT? && IsCalm(ast, c.isAggregate) && HasClauses(ast, s) && HasOrder(ast, s)
    requires NoWildcard(ast.children[0].children) && Named(ast.children[0].children) == ast.children[0].children
    requires LimitOf(ast).NoStage? && PlanOf(ast, c).Some? && c.isAggregate == en.meaning.isAggregate
    requires ListStands(ast.children[0].children, es) && NamesStand(ast.children[0].children, names)
    requires AllWhole(es) && IsWholeSelect(s)
    ensures s.from.Some? && s.from.value != [] && Run(en, PlanOf(ast, c).value) == OrderedRows(en, s, es, names)
  {
    hide FromParser, HasTables, Count, NextStage, LimitOf, ListStands, AllWhole, IsWholeSelect, IsCalm, HasClauses,
         Base, StagesLeft, NoWildcard, NamesStand, Sorted, SortColumnsFor, Descending;
    WithTable(ast, s);
    if s.order.None? {
      BaseMeans(ast, s, es, c, en);
    } else {
      OrderStageMeans(ast, s, es, names, c, en);
    }
  }

  lemma {:induction false} OrderStageMeans(
    ast: Node, s: S.Select, es: seq<P.Ast>, names: seq<Option<string>>, c: Catalog, en: Engine)
    requires IsStatement(ast) && ast.kind.SELECT? && IsCalm(ast, c.isAggregate) && HasClauses(ast, s) && HasOrder(ast, s)
    requires s.order.Some? && NoWildcard(ast.children[0].children)
    requires Named(ast.children[0].children) == ast.children[0].children
    requires LimitOf(ast).NoStage? && PlanOf(ast, c).Some? && c.isAggregate == en.meaning.isAggregate
    requires ListStands(ast.children[0].children, es) && NamesStand(ast.children[0].children, names)
    requires AllWhole(es) && IsWholeSelect(s)
    ensures s.from.Some? && s.from.value != [] && Run(en, PlanOf(ast, c).value) == OrderedRows(en, s, es, names)
  {
    hide FromParser, HasTables, Count, LimitOf, OrderOf, ListStands, AllWhole, IsCalm, HasClauses, Prepared,
         Base, StagesLeft, NoWildcard, NamesStand, Sorted, SortColumnsFor, Descending, SortBy, IsWhole, IsWholeGrouping, AllWholeItems,
         AllWholeSorts, StageOf, Has, FirstOf, IsChild, Named;
    WithTable(ast, s);
    var list, order := ast.children[0].children, s.order.value;
    PreparedWithoutWildcard(ast, c.describe);
    PreparedStatement(ast, c);
    var p := Prepared(ast, c.describe).value;
    SameClausesBehind(ast, p, s);
    PreparedOrder(ast, p, s);
    OrderSpecs(p, s);
    SortByMeans(list, es, names, order);
    SortedExprsWhole(es, names, order);
    PlannedOrder(ast, p, s, c);
    var stage := NextStage(ast, c);
    var child := stage.child;
    BaseMeans(child, s, SortColumnsFor(es, names, order).exprs, c, en);
    StandsLength(list, es);
  }

  lemma {:induction false} StandsLength(list: seq<Node>, es: seq<P.Ast>)
    requires ListStands(list, es)
    ensures |list| == |es|
  {
  }

  lemma {:induction false} PreparedOrder(ast: Node, p: Node, s: S.Select)
    requires IsSelect(ast) && IsSelect(p) && SameClauses(ast, p) && HasOrder(ast, s)
    ensures HasOrder(p, s)
  {
  }

  /** The stage of the order and the plan of its child. */
  lemma {:induction false} PlannedOrder(ast: Node, p: Node, s: S.Select, c: Catalog)
    requires IsStatement(ast) && ast.kind.SELECT? && IsCalm(ast, c.isAggregate) && HasClauses(ast, s) && HasOrder(ast, s)
    requires s.order.Some? && LimitOf(ast).NoStage? && PlanOf(ast, c).Some?
    requires Prepared(ast, c.describe) == Some(p) && HasClauses(p, s) && HasOrder(p, s) && IsStatement(p)
    requires p.children[0].children == ast.children[0].children && NoWildcard(ast.children[0].children)
    ensures var stage, r := NextStage(ast, c), SortBy(p.children[0].children, SortSpecs(p));
            && stage.OrderStage? && stage.sorts == r.sorts && stage.width == |p.children[0].children|
            && IsStatement(stage.child) && stage.child.kind.SELECT? && IsCalm(stage.child, c.isAggregate)
            && HasClauses(stage.child, s) && NoWildcard(stage.child.children[0].children)
            && LimitOf(stage.child).NoStage? && !Has(stage.child.children, ORDER_BY)
            && stage.child.children[0].children == r.list
            && PlanOf(stage.child, c).Some?
            && PlanOf(ast, c) == Some(OrderPlan(stage.sorts, stage.width, PlanOf(stage.child, c).value))
  {
    hide FromParser, HasTables, Count, OrderOf, LimitOf, IsCalm, StagesLeft, SortBy, SortSpecs, GroupOf, NeedsGroup,
         IsScan, IsExpressions, Has, FirstOf, NoWildcard, Erased, AllCopies, CanSort, HasClauses;
    WithTable(p, s);
    NoClauseNoStage(ast, c);
    OrderThere(p, s);
    var stage := NextStage(ast, c);
    assert stage.OrderStage?;
    OuterDescends(ast, c);
    OrderDescends(p, c.isAggregate);
    OrderKind(p, c.isAggregate);
    OrderSorts(p, c.isAggregate);
    OrderWidth(p);
    ChildClausesOf(p, stage.child, s, c.isAggregate);
    SortedWithoutWildcard(p.children[0].children, SortSpecs(p));
    StageDescends(ast, c);
  }

  lemma {:induction false} OrderThere(p: Node, s: S.Select)
    requires IsSelect(p) && HasOrder(p, s) && s.order.Some? && |p.children| >= 2
    ensures Has(p.children, ORDER_BY) && !OrderOf(p).NoStage?
  {
  }

  lemma {:induction false} OrderSorts(p: Node, isAggregate: string -> bool)
    requires IsStatement(p) && OrderOf(p).OrderStage?
    ensures OrderOf(p).sorts == SortBy(p.children[0].children, SortSpecs(p)).sorts
  {
    ListFromParser(p);
    CopiesAreSame(p.children[0].children);
  }

  lemma {:induction false} ChildClausesOf(p: Node, child: Node, s: S.Select, isAggregate: string -> bool)
    requires IsStatement(p) && HasClauses(p, s) && OrderOf(p).OrderStage? && OrderOf(p).child == child
    ensures IsSelect(child) && HasClauses(child, s)
  {
    hide HasClauses, SortBy, SameOf;
    OrderChild(p, isAggregate);
    ClausesWithout(p, child, ORDER_BY, s);
  }

  // ------------------------------------------------------------------
  // Limit
  // ------------------------------------------------------------------

  ghost predicate HasLimit(ast: Node, s: S.Select) {
    FirstOf(ast.children, LIMIT) == (if s.limit.None? then None else Some(LimitNode(s.limit.value)))
  }

  function LimitedRows(rows: seq<Cells>, limit: Option<S.Limit>): seq<Cells> {
    match limit
    case None => rows
    case Some(Limit(limit, None)) => Limited(rows, NumberIn(limit), 0)
    case Some(Limit(limit, Some(offset))) => Limited(rows, NumberIn(limit), NumberIn(offset))
  }

  /** A statement whose list has been prepared. */
  ghost predicate IsPrepared(ast: Node) {
    && IsSelect(ast) && |ast.children| >= 2 && NoWildcard(ast.children[0].children)
    && Named(ast.children[0].children) == ast.children[0].children
  }

  lemma {:induction false} PreparedTwice(ast: Node, c: Catalog)
    requires IsStatement(ast) && IsPrepared(ast)
    ensures Prepared(ast, c.describe) == Some(ast)
  {
    hide FromParser, Count;
    PreparedWithoutWildcard(ast, c.describe);
    var p := Prepared(ast, c.describe).value;
    assert p.children == [p.children[0]] + p.children[1..] && ast.children == [ast.children[0]] + ast.children[1..];
  }

  /** What is limited, and how. */
  lemma {:induction false} PlannedLimit(ast: Node, s: S.Select, c: Catalog)
    requires IsStatement(ast) && ast.kind.SELECT? && IsCalm(ast, c.isAggregate) && HasClauses(ast, s) && HasOrder(ast, s)
    requires HasLimit(ast, s) && s.limit.Some? && |ast.children| >= 3 && IsPrepared(ast) && PlanOf(ast, c).Some?
    ensures var stage := NextStage(ast, c);
            && stage.LimitStage?
            && Some(stage.limit) == GetInteger(s.limit.value.limit)
            && (if s.limit.value.offset.None? then stage.offset == 0
                else Some(stage.offset) == GetInteger(s.limit.value.offset.value))
            && IsStatement(stage.child) && stage.child.kind.SELECT? && IsCalm(stage.child, c.isAggregate)
            && HasClauses(stage.child, s) && HasOrder(stage.child, s) && LimitOf(stage.child).NoStage?
            && stage.child.children[0].children == ast.children[0].children
            && PlanOf(stage.child, c).Some?
            && PlanOf(ast, c) == Some(LimitPlan(stage.limit, stage.offset, PlanOf(stage.child, c).value))
  {
    hide FromParser, HasTables, Count, OrderOf, LimitOf, IsCalm, StagesLeft, GroupOf, NeedsGroup, IsScan, IsExpressions, Has, FirstOf,
         NoWildcard, Erased, AllCopies, CanSort, HasClauses, GetInteger, Prepared, Named;
    PreparedTwice(ast, c);
    LimitStageIs(ast, s.limit.value);
    LimitThere(ast, s);
    var stage := NextStage(ast, c);
    LimitDescends(ast, c.isAggregate);
    LimitClauses(ast, stage.child, s);
    StageDescends(ast, c);
  }

  lemma {:induction false} LimitThere(ast: Node, s: S.Select)
    requires HasLimit(ast, s) && s.limit.Some? && |ast.children| >= 3
    ensures !LimitOf(ast).NoStage?
  {
  }

  lemma {:induction false} LimitClauses(p: Node, child: Node, s: S.Select)
    requires IsStatement(p) && HasClauses(p, s) && HasOrder(p, s) && LimitOf(p).LimitStage? && LimitOf(p).child == child
    ensures IsSelect(child) && HasClauses(child, s) && HasOrder(child, s)
  {
    hide HasClauses;
    LimitChild(p);
    ClausesWithout(p, child, LIMIT, s);
  }

  lemma {:induction false} LimitedMeans(
    ast: Node, s: S.Select, es: seq<P.Ast>, names: seq<Option<string>>, c: Catalog, en: Engine)
    requires IsStatement(ast) && ast.kind.SELECT? && IsCalm(ast, c.isAggregate) && HasClauses(ast, s) && HasOrder(ast, s)
    requires HasLimit(ast, s) && (s.limit.Some? ==> |ast.children| >= 3) && IsPrepared(ast)
    requires PlanOf(ast, c).Some? && c.isAggregate == en.meaning.isAggregate
    requires ListStands(ast.children[0].children, es) && NamesStand(ast.children[0].children, names)
    requires AllWhole(es) && IsWholeSelect(s)
    ensures s.from.Some? && s.from.value != []
    ensures Run(en, PlanOf(ast, c).value) == LimitedRows(OrderedRows(en, s, es, names), s.limit)
  {
    hide FromParser, HasTables, Count, NextStage, LimitOf, ListStands, AllWhole, IsWholeSelect, IsCalm, HasClauses, OrderedRows,
         Base, StagesLeft, NoWildcard, NamesStand, Limited, GetInteger, HasOrder, PlanOf;
    WithTable(ast, s);
    if s.limit.None? {
      NoLimit(ast, s);
      OrderedMeans(ast, s, es, names, c, en);
    } else {
      PlannedLimit(ast, s, c);
      OrderedMeans(NextStage(ast, c).child, s, es, names, c, en);
    }
  }

  lemma {:induction false} NoLimit(ast: Node, s: S.Select)
    requires HasLimit(ast, s) && s.limit.None?
    ensures LimitOf(ast).NoStage?
  {
  }

  // ------------------------------------------------------------------
  // The list of a statement
  // ------------------------------------------------------------------

  lemma {:induction false} StandsConcat(
    a: seq<Node>, b: seq<Node>, x: seq<P.Ast>, y: seq<P.Ast>, m: seq<Option<string>>, n: seq<Option<string>>)
    requires ListStands(a, x) && ListStands(b, y) && NamesStand(a, m) && NamesStand(b, n)
    ensures ListStands(a + b, x + y) && NamesStand(a + b, m + n)
  {
    hide StandsFor, HasNameOf;
  }

  lemma {:induction false} ItemStands(item: S.Item)
    requires item.Derived?
    ensures StandsFor(NamedColumn(ItemNode(item)), item.expr)
    ensures HasNameOf(NamedColumn(ItemNode(item)),
                      Some(if item.alias.Some? then item.alias.value else ExprName(ExprNode(item.expr))))
  {
    hide ExprNode, ExprName;
  }

  lemma {:induction false} ItemsStand(items: seq<S.Item>)
    ensures var left := Without(ItemNodes(items), ALL);
            && |left| == |DerivedOf(items)| && |items| - |left| == WildcardsIn(items)
            && ListStands(Named(left), DerivedOf(items)) && NamesStand(Named(left), DerivedNames(items))
  {
    hide StandsFor, HasNameOf, ItemNode, ExprName;
    if items != [] {
      var rest := items[1..];
      ItemsStand(rest);
      assert ItemNodes(items)[1..] == ItemNodes(rest);
      ItemIsWildcard(items[0]);
      if items[0].Derived? {
        ItemStands(items[0]);
        var first := [ItemNode(items[0])];
        var left := Without(ItemNodes(rest), ALL);
        assert Named(first + left) == Named(first) + Named(left);
        StandsConcat(Named(first), Named(left), [items[0].expr], DerivedOf(rest), [DerivedNames(items)[0]], DerivedNames(rest));
      }
    }
  }

  lemma {:induction false} ItemIsWildcard(item: S.Item)
    ensures ItemNode(item).kind.ALL? <==> !item.Derived?
  {
  }

  lemma {:induction false} ColumnsStand(table: Node, columns: seq<string>)
    ensures var cs := TableColumns(table, columns);
            Named(cs) == cs && ListStands(cs, AsColumns(columns)) && NamesStand(cs, AsNames(columns))
  {
    forall i | 0 <= i < |columns|
      ensures StandsFor(TableColumn(table, columns[i]), P.Column([columns[i]]))
      ensures HasNameOf(TableColumn(table, columns[i]), Some(columns[i]))
    {
    }
    hide StandsFor, HasNameOf;
    assert forall i :: 0 <= i < |columns| ==> StandsFor(TableColumns(table, columns)[i], AsColumns(columns)[i]);
  }

  lemma {:induction false} TimesStand(cs: seq<Node>, es: seq<P.Ast>, names: seq<Option<string>>, n: nat)
    requires Named(cs) == cs && ListStands(cs, es) && NamesStand(cs, names)
    ensures var more := Times(cs, n);
            Named(more) == more && ListStands(more, Times(es, n)) && NamesStand(more, Times(names, n))
  {
    hide ListStands, NamesStand;
    if n == 0 {
      NothingStands();
    } else {
      TimesStand(cs, es, names, n - 1);
      StandsConcat(cs, Times(cs, n - 1), es, Times(es, n - 1), names, Times(names, n - 1));
      assert Named(cs + Times(cs, n - 1)) == Named(cs) + Named(Times(cs, n - 1));
    }
  }

  lemma {:induction false} NothingStands()
    ensures ListStands([], []) && NamesStand([], [])
  {
  }

  lemma {:induction false} NoTimes<A>(n: nat)
    ensures Times<A>([], n) == []
  {
    if n > 0 {
      NoTimes<A>(n - 1);
    }
  }

  /** The list of a statement that has been prepared stands for its expressions, with their names. */
  lemma {:induction false} PreparedStands(s: S.Select, c: Catalog)
    requires HasShape(s) && s.from.Some? && AreApart(s.list)
    requires (SelectTables(s); Prepared(SelectNode(s), c.describe).Some?)
    ensures var p := (SelectTables(s); Prepared(SelectNode(s), c.describe)).value;
            && IsPrepared(p)
            && ListStands(p.children[0].children, Exprs(s, c)) && NamesStand(p.children[0].children, Names(s, c))
  {
    hide Prepared, SelectNode, ListStands, NamesStand, Erased, HasPair, ColumnCount, TableWidth, ItemNode, DerivedOf, DerivedNames,
         WildcardsIn, NoWildcard, Named, AreApart, Without, HasWildcard;
    var ast, items := SelectNode(s), ItemNodes(s.list);
    SelectTables(s);
    TableIs(s, c);
    ListPrepared(s, c);
    ItemsAre(s.list, 0);
    ErasedIsWithout(items, ALL);
    ItemsStand(s.list);
    var left, k := Without(items, ALL), WildcardsIn(s.list);
    var p := Prepared(ast, c.describe).value;
    PreparedIff(ast, c.describe);
    var table := ast.children[1].children[0];
    ColumnsStand(table, KnownColumns(s, c));
    var cs := TableColumns(table, KnownColumns(s, c));
    TimesStand(cs, AsColumns(KnownColumns(s, c)), AsNames(KnownColumns(s, c)), k);
    StandsConcat(Named(left), Times(cs, k), DerivedOf(s.list), Times(AsColumns(KnownColumns(s, c)), k),
                 DerivedNames(s.list), Times(AsNames(KnownColumns(s, c)), k));
    NamedConcat(left, Times(cs, k));
    NamedAgain(left + Times(cs, k));
    if !HasKnownTable(s, c) {
      NoneOfKind(items);
      NothingErased(items, ALL);
      PreparedWithoutWildcard(ast, c.describe);
      NoTimes<Node>(k);
      assert cs == [] && left + [] == left;
    }
    assert p.children[0].children == Named(left + Times(cs, k));
  }

  lemma {:induction false} NamedConcat(a: seq<Node>, b: seq<Node>)
    ensures Named(a + b) == Named(a) + Named(b)
  {
  }

  lemma {:induction false} NamedAgain(list: seq<Node>)
    ensures Named(Named(list)) == Named(list)
  {
  }

  lemma {:induction false} ExprsWhole(s: S.Select, c: Catalog)
    requires IsWholeSelect(s)
    ensures AllWhole(Exprs(s, c))
  {
    DerivedWhole(s.list);
    ColumnsWhole(KnownColumns(s, c), WildcardsIn(s.list));
  }

  lemma {:induction false} DerivedWhole(items: seq<S.Item>)
    requires AllWholeItems(items)
    ensures AllWhole(DerivedOf(items))
  {
    hide IsWhole;
    if items != [] {
      DerivedWhole(items[1..]);
    }
  }

  lemma {:induction false} ColumnsWhole(columns: seq<string>, n: nat)
    ensures AllWhole(Times(AsColumns(columns), n))
  {
    if n > 0 {
      ColumnsWhole(columns, n - 1);
    }
  }

  lemma {:induction false} FilterAndGroup(s: S.Select, kind: Kind)
    requires kind == WHERE || kind == GROUP_BY
    ensures FirstOf(SelectNode(s).children, kind)
         == if kind == WHERE then (if s.filter.None? then None else Some(Plain(WHERE, [ExprNode(s.filter.value)])))
            else if s.group.Some? && s.group.value.ByExprs? then Some(Plain(GROUP_BY, ExprNodes(s.group.value.exprs)))
            else None
  {
    hide FirstOf, ItemNodes, Optional, ExprNode, ExprNodes;
    var list := [Plain(SELECT_LIST, ItemNodes(s.list))];
    var filter := (e: P.Ast) => Plain(WHERE, [ExprNode(e)]);
    var having := (e: P.Ast) => Plain(HAVING, [ExprNode(e)]);
    NotFirst(list[0], kind);
    FirstOptional(list, s.from, FromNode, kind);
    var a := list + Optional(s.from, FromNode);
    FirstOptional(a, s.filter, filter, kind);
    var b := a + Optional(s.filter, filter);
    FirstOptional(b, s.group, GroupNode, kind);
    var c := b + Optional(s.group, GroupNode);
    FirstOptional(c, s.having, having, kind);
    var d := c + Optional(s.having, having);
    FirstOptional(d, s.order, OrderNode, kind);
    var e := d + Optional(s.order, OrderNode);
    FirstOptional(e, s.limit, LimitNode, kind);
  }

  lemma {:induction false} SelectHasClauses(s: S.Select)
    requires HasShape(s) && s.from.Some?
    ensures var ast := SelectNode(s);
            && ast.kind.SELECT? && HasClauses(ast, s) && HasOrder(ast, s) && HasLimit(ast, s)
            && (s.limit.Some? ==> |ast.children| >= 3)
  {
    hide FirstOf, SelectNode, GroupNode, ExprNode, ExprNodes, OrderNode, LimitNode, FromNode;
    FilterAndGroup(s, WHERE);
    FilterAndGroup(s, GROUP_BY);
    LimitAndOrder(s, ORDER_BY);
    LimitAndOrder(s, LIMIT);
    ClausesCount(s);
    SecondIsFrom(s);
  }

  lemma {:induction false} SecondIsFrom(s: S.Select)
    requires s.from.Some?
    ensures |SelectNode(s).children| >= 2 && SelectNode(s).children[1] == FromNode(s.from.value) && SelectNode(s).kind.SELECT?
  {
    hide ItemNodes, GroupNode, ExprNode, ExprNodes, OrderNode, LimitNode, FromNode;
  }

  lemma {:induction false} PreparedHas(ast: Node, p: Node, s: S.Select)
    requires IsSelect(ast) && IsSelect(p) && HasClauses(ast, s) && HasOrder(ast, s) && HasLimit(ast, s)
    requires p.children[1..] == ast.children[1..]
    ensures HasClauses(p, s) && HasOrder(p, s) && HasLimit(p, s)
  {
    hide HasClauses, FirstOf;
    SameClausesBehind(ast, p, s);
    SameBehind(ast, p);
  }

  /** Preparing first makes no difference to the plan. */
  lemma {:induction false} PlanOfPrepared(ast: Node, p: Node, c: Catalog)
    requires IsStatement(ast) && IsCalm(ast, c.isAggregate) && Prepared(ast, c.describe) == Some(p) && IsPrepared(p)
    ensures IsStatement(p) && IsCalm(p, c.isAggregate) && PlanOf(p, c) == PlanOf(ast, c)
  {
    hide FromParser, HasTables, Count, IsCalm, StageOf, Prepared, IsPrepared, SameClauses;
    PreparedStatement(ast, c);
    PreparedTwice(p, c);
    assert NextStage(p, c) == NextStage(ast, c);
  }

  lemma {:induction false} PlanIsPrepared(ast: Node, c: Catalog)
    requires IsStatement(ast) && IsCalm(ast, c.isAggregate) && PlanOf(ast, c).Some?
    ensures Prepared(ast, c.describe).Some?
  {
    hide FromParser, HasTables, Count, IsCalm, StageOf, Prepared;
  }

  /**
    The plan of a statement puts out the rows that the statement asks for: with its condition, its
    keys, its list, its order, its limit, from its table, scanned as it needs it; whatever the table
    holds, and whatever calls, operators, aggregates and orders mean.
    */
  lemma {:induction false} PlanMeansStatement(s: S.Select, c: Catalog, en: Engine)
    requires HasShape(s) && IsWholeSelect(s) && s.from.Some? && AreApart(s.list) && c.isAggregate == en.meaning.isAggregate
    requires (SelectIsStatement(s); IsCalm(SelectNode(s), c.isAggregate))
    ensures IsStatement(SelectNode(s))
    ensures var plan := PlanOf(SelectNode(s), c); plan.Some? ==> Run(en, plan.value) == Answer(en, s, c)
  {
    hide FromParser, HasTables, Count, IsCalm, Prepared, PlanOf, SelectNode, Exprs, Names, ListStands, NamesStand, IsPrepared,
         AllWhole, HasClauses, HasOrder, HasLimit, Base, SortColumnsFor, Limited, Sorted, NumberIn, Descending, StagesLeft,
         IsWholeSelect;
    SelectIsStatement(s);
    var ast := SelectNode(s);
    if PlanOf(ast, c).Some? {
      PlanIsPrepared(ast, c);
      SelectTables(s);
      PreparedStands(s, c);
      var p := Prepared(ast, c.describe).value;
      PlanOfPrepared(ast, p, c);
      SelectHasClauses(s);
      PreparedHas(ast, p, s);
      ExprsWhole(s, c);
      LimitedMeans(p, s, Exprs(s, c), Names(s, c), c, en);
      assert Answer(en, s, c) == LimitedRows(OrderedRows(en, s, Exprs(s, c), Names(s, c)), s.limit);
    }
  }
}

/**
  What happens to a SELECT statement before any clause of it is built: wildcards become the columns
  of the table, and every column gets a name.
  */
module PlanPrepare {
  import opened Wrappers
  import opened StringUtil
  import opened SqlTokenizer
  import opened AstNode
  import opened SelectList
  import P = SqlParser
  import R = RemoteSql

  /** The functions that aggregate, and the columns of the tables that there are. */
  datatype Catalog = Catalog(isAggregate: string -> bool, describe: string -> Option<seq<string>>)

  // ------------------------------------------------------------------
  // Trees from the parser
  // ------------------------------------------------------------------

  /** A tree as the parser makes it where no expression is missing: nothing resolved, names under
      names only, calls and columns with a name, nothing under a wildcard. */
  ghost predicate FromParser(n: Node) {
    && n.id.None? && !n.kind.RESOLVED_COLUMN? && !n.kind.MISSING?
    && (n.kind.METHOD_CALL? || n.kind.COLUMN_NAME? ==> n.token.Some?)
    && (n.kind.ALL? ==> n.children == [])
    && (n.kind.COLUMN_NAME? ==> forall i :: 0 <= i < |n.children| ==> n.children[i].kind.COLUMN_NAME?)
    && forall i :: 0 <= i < |n.children| ==> FromParser(n.children[i])
  }

  ghost predicate AllFromParser(ns: seq<Node>) {
    forall i :: 0 <= i < |ns| ==> FromParser(ns[i])
  }

  predicate IsSelect(ast: Node) {
    (ast.kind.SELECT? || ast.kind.SELECT_DEEP?) && ast.children != [] && ast.children[0].kind.SELECT_LIST?
  }

  // ------------------------------------------------------------------
  // Names for columns
  // ------------------------------------------------------------------

  function OperatorText(op: P.Op): string {
    match op
    case Eq => " == "
    case Neq => " != "
    case Lt => " < "
    case Lte => " <= "
    case Gt => " > "
    case Gte => " >= "
    case And => " AND "
    case Or => " OR "
    case Add => " + "
    case Sub => " - "
    case Mul => " * "
    case Div => " / "
    case Mod => " % "
    case Pow => " ^ "
  }

  function ExprName(n: Node): string {
    match n.kind
    case LITERAL => NameOf(n)
    case COLUMN_NAME | TABLE_NAME | RESOLVED_COLUMN => Joined([NameOf(n)] + ExprNames(n.children), ".")
    case METHOD_CALL => Format("$0($1)", [NameOf(n), Joined(ExprNames(n.children), ", ")])
    case METHOD_CALL_WITHIN_RECORD =>
      Format("$0($1) WITHIN RECORD", [NameOf(n), Joined(ExprNames(n.children), ", ")])
    case IF_EXPR => Format("if($0)", [Joined(ExprNames(n.children), ", ")])
    case NEGATE_EXPR => Format("!($0)", [Joined(ExprNames(n.children), ", ")])
    case OPERATOR(op) => Format("($0)", [Joined(ExprNames(n.children), OperatorText(op))])
    case _ => "<expr>"
  }

  function ExprNames(ns: seq<Node>): (names: seq<string>)
    ensures |names| == |ns|
  {
    if ns == [] then [] else [ExprName(ns[0])] + ExprNames(ns[1..])
  }

  function Alias(name: string): Node {
    Node(COLUMN_ALIAS, Some(P.Ident(name)), None, [])
  }

  /** A column with a name of its own; it keeps the one that it has. */
  function NamedColumn(d: Node): Node {
    if d.kind.DERIVED_COLUMN? && |d.children| == 1 then
      Node(d.kind, d.token, d.id, d.children + [Alias(ExprName(d.children[0]))])
    else d
  }

  function Named(list: seq<Node>): (named: seq<Node>)
    ensures |named| == |list| && forall i :: 0 <= i < |list| ==> named[i] == NamedColumn(list[i])
  {
    seq(|list|, i requires 0 <= i < |list| => NamedColumn(list[i]))
  }

  method AssignExplicitColumnNames(list: seq<Node>) returns (named: seq<Node>)
    ensures named == Named(list)
  {
    named := list;
    for i := 0 to |list|
      invariant |named| == |list|
      invariant forall j :: 0 <= j < |list| ==> named[j] == if j < i then NamedColumn(list[j]) else list[j]
    {
      if named[i].kind.DERIVED_COLUMN? && |named[i].children| == 1 {
        named := named[i := NamedColumn(named[i])];
      }
    }
  }

  // ------------------------------------------------------------------
  // Wildcards
  // ------------------------------------------------------------------

  /** A column of a table, in front of its name. */
  function TableColumn(table: Node, column: string): Node {
    Plain(DERIVED_COLUMN,
          [Node(TABLE_NAME, table.token, None, [Node(COLUMN_NAME, Some(P.Ident(column)), None, [])]), Alias(column)])
  }

  function TableColumns(table: Node, columns: seq<string>): (cs: seq<Node>)
    ensures |cs| == |columns| && forall i :: 0 <= i < |columns| ==> cs[i] == TableColumn(table, columns[i])
  {
    seq(|columns|, i requires 0 <= i < |columns| => TableColumn(table, columns[i]))
  }

  /** The columns that a wildcard stands for; none if there is not exactly one table, and known. */
  function WildcardColumns(from: Node, describe: string -> Option<seq<string>>): Option<seq<Node>> {
    if |from.children| != 1 || !from.children[0].kind.TABLE_NAME? || from.children[0].token.None? then None
    else
      var columns := describe(NameOf(from.children[0]));
      if columns.None? then None else Some(TableColumns(from.children[0], columns.value))
  }

  /** The loop over the n children that there are at first: a wildcard is taken out of its place
      and its columns are appended, so the child behind it is passed over. */
  function ExpandedFrom(list: seq<Node>, i: nat, n: nat, columns: Option<seq<Node>>): Option<seq<Node>>
    decreases if i < n then n - i else 0
  {
    if i >= n || i >= |list| then Some(list)
    else if !list[i].kind.ALL? then ExpandedFrom(list, i + 1, n, columns)
    else if columns.None? then None
    else ExpandedFrom(list[..i] + list[i + 1..] + columns.value, i + 1, n, columns)
  }

  /** Whether a column is not one that a wildcard has been expanded to. */
  predicate IsUnexpanded(d: Node) {
    !(d.kind.DERIVED_COLUMN? && |d.children| == 1 && d.children[0].kind.TABLE_NAME?
      && |d.children[0].children| == 1 && d.children[0].children[0].kind.COLUMN_NAME?)
  }

  predicate AnyUnexpanded(list: seq<Node>) {
    exists i :: 0 <= i < |list| && IsUnexpanded(list[i])
  }

  function Expanded(list: seq<Node>, from: Node, describe: string -> Option<seq<string>>): Option<seq<Node>> {
    if !AnyUnexpanded(list) then Some(list)
    else if !from.kind.FROM? || from.children == [] then None
    else ExpandedFrom(list, 0, |list|, WildcardColumns(from, describe))
  }

  method ExpandColumns(list: seq<Node>, from: Node, describe: string -> Option<seq<string>>)
    returns (expanded: Option<seq<Node>>)
    ensures expanded == Expanded(list, from, describe)
  {
    if !AnyUnexpanded(list) {
      return Some(list);
    }
    if !from.kind.FROM? || from.children == [] {
      return None;
    }
    var left := list;
    var i: nat := 0;
    while i < |list| && i < |left|
      invariant ExpandedFrom(left, i, |list|, WildcardColumns(from, describe)) == Expanded(list, from, describe)
      decreases |list| - i
    {
      if left[i].kind.ALL? {
        var columns := WildcardColumns(from, describe);
        if columns.None? {
          return None;
        }
        left := left[..i] + left[i + 1..] + columns.value;
      }
      i := i + 1;
    }
    expanded := Some(left);
  }

  // ------------------------------------------------------------------
  // The statement prepared
  // ------------------------------------------------------------------

  function WithList(ast: Node, list: seq<Node>): (p: Node)
    requires IsSelect(ast)
    ensures IsSelect(p) && p.children[0].children == list && p.children[1..] == ast.children[1..]
    ensures |p.children| == |ast.children|
  {
    var head := ast.children[0];
    Node(ast.kind, ast.token, ast.id, [Node(head.kind, head.token, head.id, list)] + ast.children[1..])
  }

  /** None stands for an exception. */
  function Prepared(ast: Node, describe: string -> Option<seq<string>>): (p: Option<Node>)
    requires IsSelect(ast)
    ensures p.Some? ==>
              && IsSelect(p.value) && p.value.kind == ast.kind && p.value.children[1..] == ast.children[1..]
              && |p.value.children| == |ast.children|
  {
    if |ast.children| == 1 then Some(ast)
    else
      var list := Expanded(ast.children[0].children, ast.children[1], describe);
      if list.None? then None else Some(WithList(ast, Named(list.value)))
  }

  method Prepare(ast: Node, describe: string -> Option<seq<string>>) returns (p: Option<Node>)
    requires IsSelect(ast)
    ensures p == Prepared(ast, describe)
  {
    hide Expanded;
    if |ast.children| == 1 {
      return Some(ast);
    }
    var list := ExpandColumns(ast.children[0].children, ast.children[1], describe);
    if list.None? {
      return None;
    }
    var named := AssignExplicitColumnNames(list.value);
    p := Some(WithList(ast, named));
  }

  // ------------------------------------------------------------------
  // How many columns there are
  // ------------------------------------------------------------------

  ghost predicate NoWildcard(list: seq<Node>) {
    forall i :: 0 <= i < |list| ==> !list[i].kind.ALL?
  }

  lemma {:induction false} NoneOfKind(list: seq<Node>)
    ensures NoWildcard(list) <==> !Has(list, ALL)
  {
    if list != [] {
      NoneOfKind(list[1..]);
    }
  }

  /** Behind place i there is nothing to do. */
  lemma {:induction false} NothingToExpand(list: seq<Node>, i: nat, n: nat, columns: Option<seq<Node>>)
    requires forall j :: i <= j < |list| ==> !list[j].kind.ALL?
    ensures ExpandedFrom(list, i, n, columns) == Some(list)
    decreases if i < n then n - i else 0
  {
    if i < n && i < |list| {
      NothingToExpand(list, i + 1, n, columns);
    }
  }

  /** The same columns, so many times. */
  function Times<A>(columns: seq<A>, n: nat): seq<A> {
    if n == 0 then [] else columns + Times(columns, n - 1)
  }

  lemma {:induction false} ErasedIsShorter(list: seq<Node>, kind: Kind)
    ensures |Erased(list, kind)| <= |list|
    decreases |list|
  {
    if |list| > 1 && list[0].kind == kind {
      ErasedIsShorter(list[2..], kind);
    } else if list != [] {
      ErasedIsShorter(list[1..], kind);
    }
  }

  /** What the loop leaves of items r behind p, with columns t appended so far. */
  function Rest(p: seq<Node>, r: seq<Node>, t: seq<Node>, columns: seq<Node>): seq<Node> {
    var left := Erased(r, ALL);
    p + left + (t + Times(columns, if |left| <= |r| then |r| - |left| else 0))
  }

  lemma {:induction false} RestOfPlain(p: seq<Node>, r: seq<Node>, t: seq<Node>, columns: seq<Node>)
    requires r != [] && !r[0].kind.ALL?
    ensures Rest(p + [r[0]], r[1..], t, columns) == Rest(p, r, t, columns)
  {
    assert (p + [r[0]]) + Erased(r[1..], ALL) == p + Erased(r, ALL);
  }

  lemma {:induction false} RestOfPair(p: seq<Node>, r: seq<Node>, t: seq<Node>, columns: seq<Node>)
    requires |r| > 1 && r[0].kind.ALL?
    ensures Rest(p + [r[1]], r[2..], t + columns, columns) == Rest(p, r, t, columns)
  {
    ErasedIsShorter(r[2..], ALL);
    var k := |r| - |Erased(r, ALL)|;
    assert (t + columns) + Times(columns, k - 1) == t + Times(columns, k);
    assert (p + [r[1]]) + Erased(r[2..], ALL) == p + Erased(r, ALL);
  }

  lemma {:induction false} RestOfLast(p: seq<Node>, r: seq<Node>, t: seq<Node>, columns: seq<Node>)
    requires r == [] || (|r| == 1 && r[0].kind.ALL?)
    ensures Rest(p, r, t, columns) == if r == [] then p + t else p + (t + columns)
  {
    assert t + [] == t && p + [] == p;
    assert Times(columns, 1) == columns + Times(columns, 0) == columns;
  }

  /** The loop from place |p| on. */
  lemma {:induction false} ExpandedRest(p: seq<Node>, r: seq<Node>, t: seq<Node>, n: nat, columns: seq<Node>)
    requires NoWildcard(t) && NoWildcard(columns) && |p| + |r| <= n
    ensures ExpandedFrom(p + r + t, |p|, n, Some(columns)) == Some(Rest(p, r, t, columns))
    decreases |r|
  {
    hide Rest;
    var list := p + r + t;
    if r == [] {
      assert list == p + t;
      RestOfLast(p, r, t, columns);
      NothingToExpand(list, |p|, n, Some(columns));
    } else if !r[0].kind.ALL? {
      assert list == (p + [r[0]]) + r[1..] + t;
      ExpandedRest(p + [r[0]], r[1..], t, n, columns);
      RestOfPlain(p, r, t, columns);
    } else {
      var left := list[..|p|] + list[|p| + 1..] + columns;
      if |r| == 1 {
        assert left == p + (t + columns);
        RestOfLast(p, r, t, columns);
        NothingToExpand(left, |p| + 1, n, Some(columns));
      } else {
        assert left == (p + [r[1]]) + r[2..] + (t + columns);
        ExpandedRest(p + [r[1]], r[2..], t + columns, n, columns);
        RestOfPair(p, r, t, columns);
      }
    }
  }

  /** What becomes of any list: the columns of the table come last, once for every wildcard that is
      taken out, and a wildcard is left over exactly if two of them are neighbours. */
  lemma {:induction false} WildcardsExpanded(list: seq<Node>, columns: seq<Node>)
    requires NoWildcard(columns)
    ensures var r := ExpandedFrom(list, 0, |list|, Some(columns));
            && |Erased(list, ALL)| <= |list|
            && r == Some(Erased(list, ALL) + Times(columns, |list| - |Erased(list, ALL)|))
            && (NoWildcard(r.value) <==> !HasPair(list, ALL))
  {
    hide ExpandedFrom, HasPair, Erased, Times;
    assert [] + list + [] == list;
    ExpandedRest([], list, [], |list|, columns);
    ErasedIsShorter(list, ALL);
    var left, more := Erased(list, ALL), Times(columns, |list| - |Erased(list, ALL)|);
    assert [] + left + ([] + more) == left + more;
    NoneInTimes(columns, |list| - |left|);
    ErasedIff(list, ALL);
    NoneOfKind(left);
    assert forall i :: 0 <= i < |left| ==> left[i] == (left + more)[i];
  }

  lemma {:induction false} NoneInTimes(columns: seq<Node>, n: nat)
    requires NoWildcard(columns)
    ensures NoWildcard(Times(columns, n))
  {
    if n > 0 {
      NoneInTimes(columns, n - 1);
    }
  }

  /** Where the table is not known, the first wildcard is an error. */
  lemma {:induction false} NoColumns(list: seq<Node>, i: nat)
    requires i <= |list| && forall j :: 0 <= j < i ==> !list[j].kind.ALL?
    ensures ExpandedFrom(list, i, |list|, None) == if NoWildcard(list) then Some(list) else None
    decreases |list| - i
  {
    if i < |list| && !list[i].kind.ALL? {
      NoColumns(list, i + 1);
    }
  }

  /** One wildcard, at place k: its columns come last, everything else keeps its order. */
  lemma {:induction false} OneWildcard(list: seq<Node>, k: nat, columns: seq<Node>)
    requires k < |list| && list[k].kind.ALL? && NoWildcard(columns)
    requires forall j :: 0 <= j < |list| && j != k ==> !list[j].kind.ALL?
    ensures ExpandedFrom(list, 0, |list|, Some(columns)) == Some(list[..k] + list[k + 1..] + columns)
  {
    WildcardsExpanded(list, columns);
    ErasedAt(list, k);
    assert Times(columns, 1) == columns + Times(columns, 0) == columns;
  }

  lemma {:induction false} ErasedAt(list: seq<Node>, k: nat)
    requires k < |list| && list[k].kind.ALL?
    requires forall j :: 0 <= j < |list| && j != k ==> !list[j].kind.ALL?
    ensures Erased(list, ALL) == list[..k] + list[k + 1..]
  {
    if k > 0 {
      ErasedAt(list[1..], k - 1);
    } else {
      NoneOfKind(list[1..]);
      if |list| > 1 {
        NoneOfKind(list[2..]);
        NothingErased(list[2..], ALL);
      }
    }
  }

  /** How many columns a list has if every wildcard stands for so many. */
  function ColumnCount(list: seq<Node>, columns: nat): nat {
    if list == [] then 0 else (if list[0].kind.ALL? then columns else 1) + ColumnCount(list[1..], columns)
  }

  lemma {:induction false} CountWithout(list: seq<Node>, columns: seq<Node>)
    ensures |Without(list, ALL)| <= |list|
    ensures |Without(list, ALL) + Times(columns, |list| - |Without(list, ALL)|)| == ColumnCount(list, |columns|)
  {
    if list != [] {
      CountWithout(list[1..], columns);
    }
  }

  lemma {:induction false} CountPlain(list: seq<Node>, columns: nat)
    requires NoWildcard(list)
    ensures ColumnCount(list, columns) == |list|
  {
    if list != [] {
      CountPlain(list[1..], columns);
    }
  }

  /** Two wildcards beside each other: the second is passed over. */
  lemma {:induction false} WildcardPassedOver(a: Node, b: Node, columns: seq<Node>)
    requires a.kind.ALL? && b.kind.ALL? && NoWildcard(columns)
    ensures ExpandedFrom([a, b], 0, 2, Some(columns)) == Some([b] + columns)
  {
    WildcardsExpanded([a, b], columns);
    assert [a, b][2..] == [] && Erased([a, b], ALL) == [b];
    assert Times(columns, 1) == columns + Times(columns, 0) == columns;
  }

  lemma {:induction false} WildcardColumnsAreColumns(from: Node, describe: string -> Option<seq<string>>)
    ensures var columns := WildcardColumns(from, describe); columns.Some? ==> NoWildcard(columns.value)
  {
  }

  /** A statement with a table list, as the parser makes it. */
  ghost predicate HasTables(ast: Node) {
    |ast.children| > 1 ==>
      && ast.children[1].kind.FROM? && ast.children[1].children != []
      && forall i :: 0 <= i < |ast.children[1].children| ==>
           ast.children[1].children[i].kind.TABLE_NAME? && ast.children[1].children[i].token.Some?
  }

  /** The number of columns that a wildcard stands for. */
  function TableWidth(ast: Node, describe: string -> Option<seq<string>>): nat {
    if |ast.children| < 2 then 0
    else
      var columns := WildcardColumns(ast.children[1], describe);
      if columns.None? then 0 else |columns.value|
  }

  lemma {:induction false} ExpandedIs(list: seq<Node>, from: Node, describe: string -> Option<seq<string>>)
    requires from.kind.FROM? && from.children != []
    ensures Expanded(list, from, describe) == ExpandedFrom(list, 0, |list|, WildcardColumns(from, describe))
  {
    if !AnyUnexpanded(list) {
      forall j | 0 <= j < |list| ensures !list[j].kind.ALL? {
        assert !IsUnexpanded(list[j]);
      }
      NothingToExpand(list, 0, |list|, WildcardColumns(from, describe));
    }
  }

  lemma {:induction false} NamedIs(list: seq<Node>)
    ensures NoWildcard(Named(list)) <==> NoWildcard(list)
  {
    assert forall i :: 0 <= i < |list| ==> Named(list)[i].kind == list[i].kind;
  }

  /** Preparing any statement with tables: it is an error exactly if there is a wildcard and not just
      one table, that is known. A wildcard is left over exactly if two of them are neighbours;
      otherwise the columns of the table are there once for every wildcard, behind the other columns. */
  lemma {:induction false} PreparedIff(ast: Node, describe: string -> Option<seq<string>>)
    requires IsSelect(ast) && HasTables(ast) && |ast.children| > 1
    ensures var list, from, p := ast.children[0].children, ast.children[1].children, Prepared(ast, describe);
            && (p.None? <==> !NoWildcard(list) && (|from| != 1 || describe(NameOf(from[0])).None?))
            && (p.Some? ==>
                  var l := p.value.children[0].children;
                  && (NoWildcard(l) <==> !HasPair(list, ALL))
                  && (NoWildcard(l) ==> |l| == ColumnCount(list, TableWidth(ast, describe)))
                  && |Erased(list, ALL)| <= |list|
                  && (|from| == 1 && describe(NameOf(from[0])).Some? ==>
                        l == Named(Erased(list, ALL)
                                   + Times(TableColumns(from[0], describe(NameOf(from[0])).value),
                                           |list| - |Erased(list, ALL)|))))
  {
    hide HasPair, Erased, ExpandedFrom, Expanded, FromParser;
    var list, from := ast.children[0].children, ast.children[1];
    var columns := WildcardColumns(from, describe);
    ExpandedIs(list, from, describe);
    NoneOfKind(list);
    ErasedIsShorter(list, ALL);
    if columns.Some? {
      WildcardColumnsAreColumns(from, describe);
      WildcardsExpanded(list, columns.value);
      NamedIs(Expanded(list, from, describe).value);
      if !HasPair(list, ALL) {
        ErasedIsWithout(list, ALL);
        CountWithout(list, columns.value);
      }
    } else {
      NoColumns(list, 0);
      if NoWildcard(list) {
        NothingErased(list, ALL);
        NamedIs(list);
        CountPlain(list, 0);
      }
    }
  }

  /** Without a wildcard, preparing names the columns and does nothing else. */
  lemma {:induction false} PreparedWithoutWildcard(ast: Node, describe: string -> Option<seq<string>>)
    requires IsSelect(ast) && HasTables(ast) && NoWildcard(ast.children[0].children)
    ensures var p := Prepared(ast, describe);
            && p.Some? && NoWildcard(p.value.children[0].children)
            && p.value.children[0].children
               == if |ast.children| == 1 then ast.children[0].children else Named(ast.children[0].children)
  {
    var list := ast.children[0].children;
    if |ast.children| > 1 {
      ExpandedIs(list, ast.children[1], describe);
      NothingToExpand(list, 0, |list|, WildcardColumns(ast.children[1], describe));
      NamedIs(list);
    }
  }

  lemma {:induction false} OnlyColumns(columns: seq<Node>)
    requires forall i :: 0 <= i < |columns| ==> NamedColumn(columns[i]) == columns[i]
    ensures Named([] + Times(columns, 1)) == columns
  {
    assert Times(columns, 1) == columns + Times(columns, 0) == columns;
  }

  /** `SELECT *` is the columns of its table in their order; with several tables or an unknown one
      it is an error. */
  lemma {:induction false} PreparedWildcard(ast: Node, describe: string -> Option<seq<string>>)
    requires IsSelect(ast) && HasTables(ast) && |ast.children| > 1
    requires |ast.children[0].children| == 1 && ast.children[0].children[0].kind.ALL?
    ensures var p, from := Prepared(ast, describe), ast.children[1].children;
            && (p.None? <==> |from| != 1 || describe(NameOf(from[0])).None?)
            && (p.Some? ==> p.value.children[0].children == TableColumns(from[0], describe(NameOf(from[0])).value))
  {
    hide Expanded, Prepared, HasTables, Times, WildcardColumns;
    var list := ast.children[0].children;
    PreparedIff(ast, describe);
    assert Erased(list, ALL) == [];
    if Prepared(ast, describe).Some? {
      var from := ast.children[1].children;
      OnlyColumns(TableColumns(from[0], describe(NameOf(from[0])).value));
    }
  }

  // ------------------------------------------------------------------
  // Trees stay trees from the parser
  // ------------------------------------------------------------------

  lemma {:induction false} ExpandedFromParser(list: seq<Node>, i: nat, n: nat, columns: Option<seq<Node>>)
    requires AllFromParser(list) && (columns.Some? ==> AllFromParser(columns.value))
    ensures var r := ExpandedFrom(list, i, n, columns); r.Some? ==> AllFromParser(r.value)
    decreases if i < n then n - i else 0
  {
    hide FromParser;
    if i < n && i < |list| {
      if !list[i].kind.ALL? {
        ExpandedFromParser(list, i + 1, n, columns);
      } else if columns.Some? {
        ExpandedFromParser(list[..i] + list[i + 1..] + columns.value, i + 1, n, columns);
      }
    }
  }

  lemma {:induction false} TableColumnFromParser(table: Node, column: string)
    ensures FromParser(TableColumn(table, column))
  {
    var name := Node(COLUMN_NAME, Some(P.Ident(column)), None, []);
    var inside := Node(TABLE_NAME, table.token, None, [name]);
    assert FromParser(name);
    assert FromParser(inside);
    assert FromParser(Alias(column));
  }

  lemma {:induction false} NamedFromParser(d: Node)
    requires FromParser(d)
    ensures FromParser(NamedColumn(d))
  {
  }

  lemma {:induction false} PreparedFromParser(ast: Node, describe: string -> Option<seq<string>>)
    requires IsSelect(ast) && FromParser(ast)
    ensures var p := Prepared(ast, describe); p.Some? ==> FromParser(p.value)
  {
    var p := Prepared(ast, describe);
    if |ast.children| > 1 && p.Some? {
      var from := ast.children[1];
      var columns := WildcardColumns(from, describe);
      if columns.Some? {
        forall j | 0 <= j < |columns.value| ensures FromParser(columns.value[j]) {
          TableColumnFromParser(from.children[0], describe(NameOf(from.children[0])).value[j]);
        }
      }
      assert FromParser(ast.children[0]);
      ExpandedFromParser(ast.children[0].children, 0, |ast.children[0].children|, columns);
      var list := Expanded(ast.children[0].children, from, describe).value;
      forall j | 0 <= j < |list| ensures FromParser(Named(list)[j]) {
        NamedFromParser(list[j]);
      }
      var head := p.value.children[0];
      assert FromParser(head);
      assert forall j :: 1 <= j < |ast.children| ==> p.value.children[j] == p.value.children[1..][j - 1];
      assert forall j :: 1 <= j < |ast.children| ==> p.value.children[j] == ast.children[j];
    }
  }

  // ------------------------------------------------------------------
  // Expressions that can be built
  // ------------------------------------------------------------------

  /** Whether building a value expression raises no exception. */
  predicate CanBuild(n: Node) {
    match n.kind
    case OPERATOR(_) => CanBuildAll(n.children)
    case NEGATE_EXPR => CanBuildAll(n.children)
    case LITERAL => n.token.Some? && R.BuildLiteral(n.token.value).Some?
    case VOID => true
    case IF_EXPR => CanBuildAll(n.children) && |n.children| == 3
    case RESOLVED_COLUMN => true
    case COLUMN_NAME => true
    case COLUMN_INDEX =>
      |n.children| == 1 && n.children[0].token.Some? && n.children[0].token.value.Numeric?
      && GetInteger(n.children[0].token.value.text).Some?
    case TABLE_NAME => n.children != []
    case METHOD_CALL => n.token.Some? && n.token.value.Ident? && CanBuildAll(n.children)
    case METHOD_CALL_WITHIN_RECORD => n.token.Some? && n.token.value.Ident? && CanBuildAll(n.children)
    case _ => false
  }

  predicate CanBuildAll(ns: seq<Node>) {
    ns == [] || (CanBuild(ns[0]) && CanBuildAll(ns[1..]))
  }

  /** An item of a select list. */
  predicate CanBuildItem(item: Node) {
    item.children != [] && CanBuild(item.children[0])
  }

  predicate CanBuildItems(items: seq<Node>) {
    forall i :: 0 <= i < |items| ==> CanBuildItem(items[i])
  }
}

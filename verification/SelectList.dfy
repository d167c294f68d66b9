/**
  Splitting a query: the columns and WITHIN RECORD calls of an expression move into the select
  list of a child query, and references into that list take their places.
  */
module SelectList {
  import opened Wrappers
  import opened AstNode
  import P = SqlParser

  function Text(t: P.Token): string {
    match t
    case Ident(text) => text
    case Numeric(text) => text
    case Quoted(text) => text
    case _ => ""
  }

  function NameOf(n: Node): string {
    if n.token.None? then "" else Text(n.token.value)
  }

  // ------------------------------------------------------------------
  // The rewriting
  // ------------------------------------------------------------------

  function Resolved(index: nat): Node {
    Node(RESOLVED_COLUMN, None, Some(index), [])
  }

  /** How a column is asked for: its values inside an aggregation, one value for every row
      otherwise. */
  function ColumnEntry(column: Node, inAggregation: bool): Node {
    var copy := DeepCopy(column);
    Plain(DERIVED_COLUMN,
          [if inAggregation then copy
           else Node(METHOD_CALL_WITHIN_RECORD, Some(P.Ident("repeat_value")), None, [copy])])
  }

  /** The place of an entry in a list, or the length of the list. */
  function Place(entry: Node, list: seq<Node>): (i: nat)
    ensures i <= |list| && (i < |list| ==> Compare(entry, list[i]))
    ensures forall j :: 0 <= j < i ==> !Compare(entry, list[j])
  {
    if list == [] || Compare(entry, list[0]) then 0 else 1 + Place(entry, list[1..])
  }

  datatype Split = Split(node: Node, list: seq<Node>) | Corrupt

  datatype SplitAll = SplitAll(nodes: seq<Node>, list: seq<Node>) | CorruptChild

  function Rewrite(n: Node, list: seq<Node>, inAggregation: bool, isAggregate: string -> bool): Split {
    if n.kind.METHOD_CALL_WITHIN_RECORD? then
      Split(Resolved(|list|), list + [Plain(DERIVED_COLUMN, [DeepCopy(n)])])
    else if n.kind.COLUMN_NAME? then
      var entry := ColumnEntry(n, inAggregation);
      var i := Place(entry, list);
      Split(Resolved(i), if i < |list| then list else list + [entry])
    else if n.kind.METHOD_CALL? && n.token.None? then Corrupt
    else
      var r := RewriteAll(n.children, list, Inside(n, inAggregation, isAggregate), isAggregate);
      if r.CorruptChild? then Corrupt else Split(Node(n.kind, n.token, n.id, r.nodes), r.list)
  }

  /** Whether the children of a node are inside an aggregation. */
  function Inside(n: Node, inAggregation: bool, isAggregate: string -> bool): bool {
    inAggregation || (n.kind.METHOD_CALL? && isAggregate(NameOf(n)))
  }

  function RewriteAll(ns: seq<Node>, list: seq<Node>, inAggregation: bool, isAggregate: string -> bool): (r: SplitAll)
    ensures r.SplitAll? ==> |r.nodes| == |ns|
  {
    if ns == [] then SplitAll([], list)
    else
      var first := Rewrite(ns[0], list, inAggregation, isAggregate);
      if first.Corrupt? then CorruptChild
      else
        var more := RewriteAll(ns[1..], first.list, inAggregation, isAggregate);
        if more.CorruptChild? then CorruptChild else SplitAll([first.node] + more.nodes, more.list)
  }

  /** The builder of the child's select list. */
  class Builder {
    var target: seq<Node>

    constructor ()
      ensures target == []
    {
      target := [];
    }

    method BuildInternalSelectList(n: Node, inAggregation: bool, isAggregate: string -> bool)
      returns (ok: bool, node: Node)
      modifies this
      ensures var r := Rewrite(n, old(target), inAggregation, isAggregate);
              ok == r.Split? && (ok ==> node == r.node && target == r.list)
      decreases n
    {
      hide Compare, DeepCopy;
      node := n;
      if n.kind.METHOD_CALL_WITHIN_RECORD? {
        target := target + [Plain(DERIVED_COLUMN, [DeepCopy(n)])];
        return true, Resolved(|target| - 1);
      }
      if n.kind.COLUMN_NAME? {
        var derived := ColumnEntry(n, inAggregation);
        var index := FindColumn(derived);
        if index == |target| {
          target := target + [derived];
        }
        return true, Resolved(index);
      }
      if n.kind.METHOD_CALL? && n.token.None? {
        return false, n;
      }
      var inside := Inside(n, inAggregation, isAggregate);
      var nodes;
      ok, nodes := BuildChildren(n.children, inside, isAggregate);
      node := Node(n.kind, n.token, n.id, nodes);
    }

    method FindColumn(derived: Node) returns (index: nat)
      ensures index == Place(derived, target)
    {
      hide Compare;
      index := 0;
      while index < |target|
        invariant index <= |target|
        invariant Place(derived, target) == index + Place(derived, target[index..])
      {
        if Compare(derived, target[index]) {
          return;
        }
        assert target[index..][1..] == target[index + 1..];
        index := index + 1;
      }
    }

    method BuildChildren(ns: seq<Node>, inAggregation: bool, isAggregate: string -> bool)
      returns (ok: bool, nodes: seq<Node>)
      modifies this
      ensures var r := RewriteAll(ns, old(target), inAggregation, isAggregate);
              ok == r.SplitAll? && (ok ==> nodes == r.nodes && target == r.list)
      decreases ns
    {
      hide Rewrite;
      nodes := [];
      ghost var result := RewriteAll(ns, target, inAggregation, isAggregate);
      assert ns[0..] == ns;
      for i := 0 to |ns|
        invariant result == WithFront(nodes, RewriteAll(ns[i..], target, inAggregation, isAggregate))
      {
        var child;
        ghost var before := target;
        ok, child := BuildInternalSelectList(ns[i], inAggregation, isAggregate);
        assert ns[i..][1..] == ns[i + 1..];
        if !ok {
          return false, [];
        }
        FrontOneMore(nodes, child, RewriteAll(ns[i + 1..], target, inAggregation, isAggregate));
        nodes := nodes + [child];
      }
      assert nodes + [] == nodes;
      ok := true;
    }
  }

  function WithFront(nodes: seq<Node>, r: SplitAll): SplitAll {
    if r.CorruptChild? then CorruptChild else SplitAll(nodes + r.nodes, r.list)
  }

  lemma {:induction false} FrontOneMore(nodes: seq<Node>, n: Node, r: SplitAll)
    ensures WithFront(nodes, WithFront([n], r)) == WithFront(nodes + [n], r)
  {
    if r.SplitAll? {
      assert nodes + ([n] + r.nodes) == nodes + [n] + r.nodes;
    }
  }

  // ------------------------------------------------------------------
  // The shape of the result
  // ------------------------------------------------------------------

  /** A tree as it comes from the parser: nothing is resolved yet. */
  ghost predicate Unresolved(n: Node) {
    !n.kind.RESOLVED_COLUMN? && forall i :: 0 <= i < |n.children| ==> Unresolved(n.children[i])
  }

  /** A tree all of whose columns are references into a list of this size. */
  ghost predicate ResolvedIn(n: Node, size: nat) {
    && !n.kind.COLUMN_NAME? && !n.kind.METHOD_CALL_WITHIN_RECORD?
    && (n.kind.RESOLVED_COLUMN? ==> n.id.Some? && n.id.value < size)
    && forall i :: 0 <= i < |n.children| ==> ResolvedIn(n.children[i], size)
  }

  lemma {:induction false} ResolvedInLonger(n: Node, size: nat, more: nat)
    requires ResolvedIn(n, size) && size <= more
    ensures ResolvedIn(n, more)
    decreases n
  {
    forall i | 0 <= i < |n.children| ensures ResolvedIn(n.children[i], more) {
      ResolvedInLonger(n.children[i], size, more);
    }
  }

  /** The list only grows, and every reference is inside it. */
  lemma {:induction false} RewriteResolves(n: Node, list: seq<Node>, inAggregation: bool, isAggregate: string -> bool)
    requires Unresolved(n)
    ensures var r := Rewrite(n, list, inAggregation, isAggregate);
            r.Split? ==> list <= r.list && ResolvedIn(r.node, |r.list|)
    decreases n
  {
    hide Compare, DeepCopy;
    if !n.kind.COLUMN_NAME? && !n.kind.METHOD_CALL_WITHIN_RECORD? {
      RewriteAllResolves(n.children, list, Inside(n, inAggregation, isAggregate), isAggregate);
    }
  }

  lemma {:induction false} RewriteAllResolves(
    ns: seq<Node>, list: seq<Node>, inAggregation: bool, isAggregate: string -> bool)
    requires forall i :: 0 <= i < |ns| ==> Unresolved(ns[i])
    ensures var r := RewriteAll(ns, list, inAggregation, isAggregate);
            r.SplitAll? ==> list <= r.list && forall i :: 0 <= i < |ns| ==> ResolvedIn(r.nodes[i], |r.list|)
    decreases ns
  {
    hide Rewrite, ResolvedIn;
    if ns != [] {
      var first := Rewrite(ns[0], list, inAggregation, isAggregate);
      RewriteResolves(ns[0], list, inAggregation, isAggregate);
      if first.Split? {
        RewriteAllResolves(ns[1..], first.list, inAggregation, isAggregate);
        var more := RewriteAll(ns[1..], first.list, inAggregation, isAggregate);
        if more.SplitAll? {
          ResolvedInLonger(first.node, |first.list|, |more.list|);
        }
      }
    }
  }

  // ------------------------------------------------------------------
  // No column twice
  // ------------------------------------------------------------------

  ghost predicate IsRepeat(n: Node) {
    n.kind.METHOD_CALL_WITHIN_RECORD? && n.token == Some(P.Ident("repeat_value"))
  }

  /** An entry that comes from a WITHIN RECORD call in the query. */
  ghost predicate IsCallEntry(e: Node) {
    |e.children| == 1 && e.children[0].kind.METHOD_CALL_WITHIN_RECORD? && !IsRepeat(e.children[0])
  }

  /** Entries are the same only if they come from calls. */
  ghost predicate ColumnsOnce(list: seq<Node>) {
    forall i, j :: 0 <= i < j < |list| && Compare(list[j], list[i]) ==> IsCallEntry(list[j])
  }

  /** The query itself does not call `repeat_value`. */
  ghost predicate NoRepeat(n: Node) {
    !IsRepeat(n) && forall i :: 0 <= i < |n.children| ==> NoRepeat(n.children[i])
  }

  lemma {:induction false} RewriteKeepsColumnsOnce(
    n: Node, list: seq<Node>, inAggregation: bool, isAggregate: string -> bool)
    requires NoRepeat(n) && ColumnsOnce(list)
    ensures var r := Rewrite(n, list, inAggregation, isAggregate); r.Split? ==> ColumnsOnce(r.list)
    decreases n
  {
    hide Compare;
    if n.kind.METHOD_CALL_WITHIN_RECORD? {
      assert IsCallEntry(Plain(DERIVED_COLUMN, [DeepCopy(n)]));
    } else if !n.kind.COLUMN_NAME? {
      RewriteAllKeepsColumnsOnce(n.children, list, Inside(n, inAggregation, isAggregate), isAggregate);
    }
  }

  lemma {:induction false} RewriteAllKeepsColumnsOnce(
    ns: seq<Node>, list: seq<Node>, inAggregation: bool, isAggregate: string -> bool)
    requires (forall i :: 0 <= i < |ns| ==> NoRepeat(ns[i])) && ColumnsOnce(list)
    ensures var r := RewriteAll(ns, list, inAggregation, isAggregate); r.SplitAll? ==> ColumnsOnce(r.list)
    decreases ns
  {
    hide Rewrite, ColumnsOnce;
    if ns != [] {
      var first := Rewrite(ns[0], list, inAggregation, isAggregate);
      RewriteKeepsColumnsOnce(ns[0], list, inAggregation, isAggregate);
      if first.Split? {
        RewriteAllKeepsColumnsOnce(ns[1..], first.list, inAggregation, isAggregate);
      }
    }
  }

  /** What a tree pushes into the list, in the order in which it is gone through: a call always, a
      column if the list does not have it. */
  datatype Push = CallPush(entry: Node) | ColumnPush(entry: Node)

  function Pushes(n: Node, inAggregation: bool, isAggregate: string -> bool): seq<Push> {
    if n.kind.METHOD_CALL_WITHIN_RECORD? then [CallPush(Plain(DERIVED_COLUMN, [DeepCopy(n)]))]
    else if n.kind.COLUMN_NAME? then [ColumnPush(ColumnEntry(n, inAggregation))]
    else PushesOfAll(n.children, Inside(n, inAggregation, isAggregate), isAggregate)
  }

  function PushesOfAll(ns: seq<Node>, inAggregation: bool, isAggregate: string -> bool): seq<Push> {
    if ns == [] then []
    else Pushes(ns[0], inAggregation, isAggregate) + PushesOfAll(ns[1..], inAggregation, isAggregate)
  }

  function PushOne(list: seq<Node>, p: Push): seq<Node> {
    if p.ColumnPush? && Place(p.entry, list) < |list| then list else list + [p.entry]
  }

  function Pushed(list: seq<Node>, ps: seq<Push>): seq<Node>
    decreases |ps|
  {
    if ps == [] then list else Pushed(PushOne(list, ps[0]), ps[1..])
  }

  lemma {:induction false} PushedConcat(list: seq<Node>, a: seq<Push>, b: seq<Push>)
    ensures Pushed(list, a + b) == Pushed(Pushed(list, a), b)
    decreases |a|
  {
    hide PushOne;
    if a == [] {
      assert a + b == b;
    } else {
      assert (a + b)[1..] == a[1..] + b;
      PushedConcat(PushOne(list, a[0]), a[1..], b);
    }
  }

  lemma {:induction false} RewriteIsPushed(
    n: Node, list: seq<Node>, inAggregation: bool, isAggregate: string -> bool)
    ensures var r := Rewrite(n, list, inAggregation, isAggregate);
            r.Split? ==> r.list == Pushed(list, Pushes(n, inAggregation, isAggregate))
    decreases n
  {
    hide Place;
    if n.kind.METHOD_CALL_WITHIN_RECORD? {
      PushedOne(list, CallPush(Plain(DERIVED_COLUMN, [DeepCopy(n)])));
    } else if n.kind.COLUMN_NAME? {
      PushedOne(list, ColumnPush(ColumnEntry(n, inAggregation)));
    } else {
      RewriteAllIsPushed(n.children, list, Inside(n, inAggregation, isAggregate), isAggregate);
    }
  }

  lemma {:induction false} PushedOne(list: seq<Node>, p: Push)
    ensures Pushed(list, [p]) == PushOne(list, p)
  {
    assert [p][1..] == [];
    assert Pushed(PushOne(list, p), [p][1..]) == PushOne(list, p);
  }

  lemma {:induction false} RewriteAllIsPushed(
    ns: seq<Node>, list: seq<Node>, inAggregation: bool, isAggregate: string -> bool)
    ensures var r := RewriteAll(ns, list, inAggregation, isAggregate);
            r.SplitAll? ==> r.list == Pushed(list, PushesOfAll(ns, inAggregation, isAggregate))
    decreases ns
  {
    hide Rewrite, Pushes, Pushed;
    if ns == [] {
      NothingPushed(list);
    } else {
      var first := Rewrite(ns[0], list, inAggregation, isAggregate);
      RewriteIsPushed(ns[0], list, inAggregation, isAggregate);
      if first.Split? {
        RewriteAllIsPushed(ns[1..], first.list, inAggregation, isAggregate);
        PushedConcat(list, Pushes(ns[0], inAggregation, isAggregate), PushesOfAll(ns[1..], inAggregation, isAggregate));
      }
    }
  }

  lemma {:induction false} NothingPushed(list: seq<Node>)
    ensures Pushed(list, []) == list
  {
  }

  /** Entries that compare equal have the same copy. */
  ghost function CopiesIn(list: seq<Node>): set<Node> {
    set i | 0 <= i < |list| :: DeepCopy(list[i])
  }

  /** No `repeat_value` call of the query pushes an entry that was in the list or was pushed before. */
  ghost predicate RepeatsAreNew(seen: set<Node>, ps: seq<Push>)
    decreases |ps|
  {
    ps != [] ==>
      && (ps[0].CallPush? && !IsCallEntry(ps[0].entry) ==> DeepCopy(ps[0].entry) !in seen)
      && RepeatsAreNew(seen + {DeepCopy(ps[0].entry)}, ps[1..])
  }

  lemma {:induction false} PlaceIff(entry: Node, list: seq<Node>)
    ensures Place(entry, list) < |list| <==> DeepCopy(entry) in CopiesIn(list)
  {
    hide Compare, DeepCopy;
    var i := Place(entry, list);
    if i < |list| {
      CompareIff(entry, list[i]);
    } else {
      forall j | 0 <= j < |list| ensures DeepCopy(list[j]) != DeepCopy(entry) {
        CompareIff(entry, list[j]);
      }
    }
  }

  /** A list with one more entry. */
  lemma {:induction false} OnceOneMore(list: seq<Node>, e: Node)
    ensures ColumnsOnce(list + [e]) <==> ColumnsOnce(list) && (IsCallEntry(e) || DeepCopy(e) !in CopiesIn(list))
    ensures CopiesIn(list + [e]) == CopiesIn(list) + {DeepCopy(e)}
  {
    hide Compare, IsCallEntry, DeepCopy;
    var more := list + [e];
    forall i | 0 <= i < |list| ensures Compare(e, list[i]) <==> DeepCopy(e) == DeepCopy(list[i]) {
      CompareIff(e, list[i]);
    }
    assert forall i :: 0 <= i < |list| ==> more[i] == list[i];
    assert more[|list|] == e;
    if ColumnsOnce(more) {
      forall i, j | 0 <= i < j < |list| && Compare(list[j], list[i]) ensures IsCallEntry(list[j]) {
        assert Compare(more[j], more[i]);
      }
      if DeepCopy(e) in CopiesIn(list) {
        var i :| 0 <= i < |list| && DeepCopy(list[i]) == DeepCopy(e);
        assert Compare(more[|list|], more[i]);
      }
    }
    assert CopiesIn(more) == CopiesIn(list) + {DeepCopy(e)} by {
      forall x | x in CopiesIn(list) + {DeepCopy(e)} ensures x in CopiesIn(more) {
        if x == DeepCopy(e) {
          assert DeepCopy(more[|list|]) == x;
        } else {
          var i :| 0 <= i < |list| && DeepCopy(list[i]) == x;
          assert DeepCopy(more[i]) == x;
        }
      }
    }
  }

  /** Columns are no calls. */
  ghost predicate ArePushes(ps: seq<Push>) {
    forall i :: 0 <= i < |ps| && ps[i].ColumnPush? ==> !IsCallEntry(ps[i].entry)
  }

  lemma {:induction false} PushedOnceIff(list: seq<Node>, ps: seq<Push>)
    requires ArePushes(ps)
    ensures ColumnsOnce(Pushed(list, ps)) <==> ColumnsOnce(list) && RepeatsAreNew(CopiesIn(list), ps)
    decreases |ps|
  {
    hide ColumnsOnce, CopiesIn, Place, IsCallEntry;
    if ps != [] {
      var p := ps[0];
      PlaceIff(p.entry, list);
      OnceOneMore(list, p.entry);
      PushedOnceIff(PushOne(list, p), ps[1..]);
      assert CopiesIn(PushOne(list, p)) == CopiesIn(list) + {DeepCopy(p.entry)};
    }
  }

  lemma {:induction false} PushesArePushes(n: Node, inAggregation: bool, isAggregate: string -> bool)
    ensures ArePushes(Pushes(n, inAggregation, isAggregate))
    decreases n
  {
    if !n.kind.METHOD_CALL_WITHIN_RECORD? && !n.kind.COLUMN_NAME? {
      AllPushesArePushes(n.children, Inside(n, inAggregation, isAggregate), isAggregate);
    }
  }

  lemma {:induction false} AllPushesArePushes(ns: seq<Node>, inAggregation: bool, isAggregate: string -> bool)
    ensures ArePushes(PushesOfAll(ns, inAggregation, isAggregate))
    decreases ns
  {
    hide Pushes;
    if ns != [] {
      PushesArePushes(ns[0], inAggregation, isAggregate);
      AllPushesArePushes(ns[1..], inAggregation, isAggregate);
    }
  }

  /** Exactly when no column is in the list twice: the list had none twice, and no `repeat_value` call
      of the tree asks for an entry that the list had or that the tree has pushed before the call. */
  lemma {:induction false} ColumnsOnceIff(
    n: Node, list: seq<Node>, inAggregation: bool, isAggregate: string -> bool)
    ensures var r := Rewrite(n, list, inAggregation, isAggregate);
            r.Split? ==>
              (ColumnsOnce(r.list) <==>
                 ColumnsOnce(list) && RepeatsAreNew(CopiesIn(list), Pushes(n, inAggregation, isAggregate)))
  {
    hide Rewrite, Pushes, Pushed, ColumnsOnce, RepeatsAreNew, ArePushes, CopiesIn;
    RewriteIsPushed(n, list, inAggregation, isAggregate);
    PushesArePushes(n, inAggregation, isAggregate);
    PushedOnceIff(list, Pushes(n, inAggregation, isAggregate));
  }

  /** A query that asks for a column and calls `repeat_value` on it has the column twice. */
  lemma {:induction false} RepeatGivesColumnTwice(column: Node, isAggregate: string -> bool)
    requires column.kind.COLUMN_NAME?
    ensures var call := Node(METHOD_CALL_WITHIN_RECORD, Some(P.Ident("repeat_value")), None, [column]);
            var r := RewriteAll([column, call], [], false, isAggregate);
            r.SplitAll? && |r.list| == 2 && Compare(r.list[1], r.list[0]) && !ColumnsOnce(r.list)
  {
    var call := Node(METHOD_CALL_WITHIN_RECORD, Some(P.Ident("repeat_value")), None, [column]);
    var entry := ColumnEntry(column, false);
    assert [column, call][1..] == [call] && [call][1..] == [];
    assert AllCopies([column]) == [DeepCopy(column)];
    assert Plain(DERIVED_COLUMN, [DeepCopy(call)]) == entry;
    CompareIff(entry, entry);
    var first, second := Rewrite(column, [], false, isAggregate), Rewrite(call, [entry], false, isAggregate);
    assert first == Split(Resolved(0), [entry]);
    assert second == Split(Resolved(1), [entry, entry]);
    assert RewriteAll([], [entry, entry], false, isAggregate) == SplitAll([], [entry, entry]);
    assert RewriteAll([call], [entry], false, isAggregate) == SplitAll([Resolved(1)] + [], [entry, entry]);
  }

  // ------------------------------------------------------------------
  // Meaning
  // ------------------------------------------------------------------

  /** What calls, operators and literals mean. An aggregate gets the arguments for every row. */
  datatype Meaning = Meaning(
    pure: (Kind, Option<P.Token>, seq<int>) -> int,
    aggregate: (string, seq<seq<int>>) -> int,
    literal: Option<P.Token> -> int,
    isAggregate: string -> bool)

  /** The values of columns, by their names. */
  type Columns = seq<string> -> int

  /** A row of a table, with all rows of the record that it is taken from; or a row of a child query,
      by position. */
  datatype Row = Source(columns: Columns, record: seq<Columns>) | Child(cells: seq<int>) {
    function Column(n: Node): int {
      if Source? then columns(NamesOf(n)) else 0
    }

    function Cell(id: Option<nat>): int {
      if Child? && id.Some? && id.value < |cells| then cells[id.value] else 0
    }

    function Record(): seq<Row> {
      if Source? then seq(|record|, i requires 0 <= i < |record| => Source(record[i], record)) else []
    }
  }

  /** The parts of the name of a column. */
  function NamesOf(n: Node): seq<string> {
    [NameOf(n)] + if n.children == [] then [] else NamesOf(n.children[0])
  }

  /** The values of a column in all rows of a record. */
  function ValuesIn(record: seq<Row>, column: Node): (vs: seq<seq<int>>)
    ensures |vs| == |record| && forall i :: 0 <= i < |record| ==> vs[i] == [record[i].Column(column)]
  {
    seq(|record|, i requires 0 <= i < |record| => [record[i].Column(column)])
  }

  /** The value that a record has for a column in all of its rows. */
  function Repeated(m: Meaning, r: Row, column: Node): int {
    m.aggregate("repeat_value", ValuesIn(r.Record(), column))
  }

  /** The value of an expression at a row, where aggregates range over `rows`. A column is its own
      value in the row or, unless `own`, the value repeated for its record; inside an aggregate it is
      always its own. A WITHIN RECORD call ranges over the record of the row. */
  function Eval(m: Meaning, n: Node, own: bool, rows: seq<Row>, r: Row): int
    decreases n, 0, 0
  {
    if n.kind.RESOLVED_COLUMN? then r.Cell(n.id)
    else if n.kind.COLUMN_NAME? then if own then r.Column(n) else Repeated(m, r, n)
    else if n.kind.LITERAL? then m.literal(n.token)
    else if n.kind.METHOD_CALL_WITHIN_RECORD? then
      m.aggregate(NameOf(n), EvalOver(m, n.children, r.Record(), r.Record()))
    else if n.kind.DERIVED_COLUMN? || n.kind.TABLE_NAME? then
      if n.children == [] then 0 else Eval(m, n.children[0], own, rows, r)
    else if n.kind.METHOD_CALL? && m.isAggregate(NameOf(n)) then
      m.aggregate(NameOf(n), EvalOver(m, n.children, rows, rows))
    else m.pure(n.kind, n.token, EvalAll(m, n.children, own, rows, r))
  }

  function EvalAll(m: Meaning, ns: seq<Node>, own: bool, rows: seq<Row>, r: Row): (vs: seq<int>)
    ensures |vs| == |ns|
    decreases ns, 0, 0
  {
    if ns == [] then [] else [Eval(m, ns[0], own, rows, r)] + EvalAll(m, ns[1..], own, rows, r)
  }

  function EvalOver(m: Meaning, ns: seq<Node>, rows: seq<Row>, over: seq<Row>): seq<seq<int>>
    decreases ns, 1, |over|
  {
    if over == [] then [] else [EvalAll(m, ns, true, rows, over[0])] + EvalOver(m, ns, rows, over[1..])
  }

  /** The row of the child query for a row of the table. */
  function ChildRow(m: Meaning, list: seq<Node>, r: Row): Row {
    Child(seq(|list|, i requires 0 <= i < |list| => Eval(m, list[i], true, [r], r)))
  }

  function ChildRows(m: Meaning, list: seq<Node>, rows: seq<Row>): (cs: seq<Row>)
    ensures |cs| == |rows| && forall i :: 0 <= i < |rows| ==> cs[i] == ChildRow(m, list, rows[i])
  {
    seq(|rows|, i requires 0 <= i < |rows| => ChildRow(m, list, rows[i]))
  }

  lemma {:induction false} NamesOfCopy(n: Node)
    ensures NamesOf(DeepCopy(n)) == NamesOf(n)
    decreases n
  {
    if n.children != [] {
      NamesOfCopy(n.children[0]);
    }
  }

  lemma {:induction false} ColumnOfCopy(m: Meaning, n: Node, r: Row)
    ensures r.Column(DeepCopy(n)) == r.Column(n) && Repeated(m, r, DeepCopy(n)) == Repeated(m, r, n)
  {
    NamesOfCopy(n);
    assert ValuesIn(r.Record(), DeepCopy(n)) == ValuesIn(r.Record(), n);
  }

  /** Identifiers do not matter before columns are resolved. */
  lemma {:induction false} EvalCopy(m: Meaning, n: Node, own: bool, rows: seq<Row>, r: Row)
    requires Unresolved(n)
    ensures Unresolved(DeepCopy(n)) && Eval(m, DeepCopy(n), own, rows, r) == Eval(m, n, own, rows, r)
    decreases n, 0, 0
  {
    UnresolvedCopy(n);
    if n.kind.COLUMN_NAME? {
      ColumnOfCopy(m, n, r);
    } else {
      EvalAllCopies(m, n.children, own, rows, r);
      EvalOverCopies(m, n.children, rows, rows);
      EvalOverCopies(m, n.children, r.Record(), r.Record());
      if n.children != [] {
        EvalCopy(m, n.children[0], own, rows, r);
      }
    }
  }

  lemma {:induction false} UnresolvedCopy(n: Node)
    requires Unresolved(n)
    ensures Unresolved(DeepCopy(n))
    decreases n
  {
    forall i | 0 <= i < |n.children| ensures Unresolved(DeepCopy(n).children[i]) {
      UnresolvedCopy(n.children[i]);
    }
  }

  lemma {:induction false} EvalAllCopies(m: Meaning, ns: seq<Node>, own: bool, rows: seq<Row>, r: Row)
    requires forall i :: 0 <= i < |ns| ==> Unresolved(ns[i])
    ensures EvalAll(m, AllCopies(ns), own, rows, r) == EvalAll(m, ns, own, rows, r)
    decreases ns, 0, 0
  {
    if ns != [] {
      EvalCopy(m, ns[0], own, rows, r);
      EvalAllCopies(m, ns[1..], own, rows, r);
    }
  }

  lemma {:induction false} EvalOverCopies(m: Meaning, ns: seq<Node>, rows: seq<Row>, over: seq<Row>)
    requires forall i :: 0 <= i < |ns| ==> Unresolved(ns[i])
    ensures EvalOver(m, AllCopies(ns), rows, over) == EvalOver(m, ns, rows, over)
    decreases ns, 1, |over|
  {
    if over != [] {
      EvalAllCopies(m, ns, true, rows, over[0]);
      EvalOverCopies(m, ns, rows, over[1..]);
    }
  }

  /** The entry for a column has the value of the column: its own inside an aggregate, the repeated
      one otherwise. */
  lemma {:induction false} ColumnEntryMeans(m: Meaning, column: Node, inAggregation: bool, entry: Node, r: Row)
    requires column.kind.COLUMN_NAME? && Unresolved(column)
    requires Compare(ColumnEntry(column, inAggregation), entry) || entry == ColumnEntry(column, inAggregation)
    ensures Eval(m, entry, true, [r], r) == if inAggregation then r.Column(column) else Repeated(m, r, column)
  {
    hide Compare, DeepCopy;
    var mine := ColumnEntry(column, inAggregation);
    ColumnEntryValue(m, column, inAggregation, r);
    if entry != mine {
      CompareIff(mine, entry);
      SameCopyUnresolved(mine, entry);
      EvalCopy(m, mine, true, [r], r);
      EvalCopy(m, entry, true, [r], r);
    }
  }

  lemma {:induction false} SameCopyUnresolved(a: Node, b: Node)
    requires Unresolved(a) && DeepCopy(a) == DeepCopy(b)
    ensures Unresolved(b)
    decreases a
  {
    assert a.kind == b.kind;
    assert |AllCopies(a.children)| == |AllCopies(b.children)|;
    forall i | 0 <= i < |b.children| ensures Unresolved(b.children[i]) {
      assert AllCopies(a.children)[i] == AllCopies(b.children)[i];
      SameCopyUnresolved(a.children[i], b.children[i]);
    }
  }

  lemma {:induction false} ColumnEntryValue(m: Meaning, column: Node, inAggregation: bool, r: Row)
    requires column.kind.COLUMN_NAME? && Unresolved(column)
    ensures var entry := ColumnEntry(column, inAggregation);
            && Unresolved(entry)
            && Eval(m, entry, true, [r], r) == if inAggregation then r.Column(column) else Repeated(m, r, column)
  {
    var copy := DeepCopy(column);
    UnresolvedCopy(column);
    ColumnOfCopy(m, column, r);
    if !inAggregation {
      OverOneColumn(m, copy, r.Record(), r.Record());
    }
  }

  lemma {:induction false} OverOneColumn(m: Meaning, column: Node, rows: seq<Row>, over: seq<Row>)
    requires column.kind.COLUMN_NAME?
    ensures EvalOver(m, [column], rows, over) == ValuesIn(over, column)
    decreases |over|
  {
    if over != [] {
      OverOneColumn(m, column, rows, over[1..]);
      assert [column][1..] == [] && EvalAll(m, [column], true, rows, over[0]) == [over[0].Column(column)];
      assert ValuesIn(over, column) == [[over[0].Column(column)]] + ValuesIn(over[1..], column);
    }
  }

  /** The rewritten expression over the rows of the child query has the value of the original
      over the rows of the table, however the list grows afterwards. */
  lemma {:induction false} RewriteMeansSame(
    m: Meaning, n: Node, list: seq<Node>, inAggregation: bool, final: seq<Node>, rows: seq<Row>, r: Row)
    requires Unresolved(n)
    requires var s := Rewrite(n, list, inAggregation, m.isAggregate); s.Split? && s.list <= final
    ensures var s := Rewrite(n, list, inAggregation, m.isAggregate);
            Eval(m, s.node, inAggregation, ChildRows(m, final, rows), ChildRow(m, final, r))
            == Eval(m, n, inAggregation, rows, r)
    decreases n, 0, 0
  {
    hide Compare, DeepCopy;
    var s := Rewrite(n, list, inAggregation, m.isAggregate);
    if n.kind.COLUMN_NAME? {
      var i := Place(ColumnEntry(n, inAggregation), list);
      assert final[i] == s.list[i];
      ColumnEntryMeans(m, n, inAggregation, final[i], r);
    } else if n.kind.METHOD_CALL_WITHIN_RECORD? {
      assert final[|list|] == s.list[|list|];
      EvalCopy(m, n, true, [r], r);
    } else {
      RewriteOtherMeansSame(m, n, list, inAggregation, final, rows, r);
    }
  }

  lemma {:induction false} RewriteOtherMeansSame(
    m: Meaning, n: Node, list: seq<Node>, inAggregation: bool, final: seq<Node>, rows: seq<Row>, r: Row)
    requires Unresolved(n) && !n.kind.COLUMN_NAME? && !n.kind.METHOD_CALL_WITHIN_RECORD?
    requires var s := Rewrite(n, list, inAggregation, m.isAggregate); s.Split? && s.list <= final
    ensures var s := Rewrite(n, list, inAggregation, m.isAggregate);
            Eval(m, s.node, inAggregation, ChildRows(m, final, rows), ChildRow(m, final, r))
            == Eval(m, n, inAggregation, rows, r)
    decreases n.children, 2, 0
  {
    hide Compare, DeepCopy, ChildRow, ChildRows;
    var inside := Inside(n, inAggregation, m.isAggregate);
    var s := RewriteAll(n.children, list, inside, m.isAggregate);
    RewriteAllMeansSame(m, n.children, list, inside, final, rows, r);
    if n.kind.METHOD_CALL? && m.isAggregate(NameOf(n)) {
      RewriteOverMeansSame(m, n.children, list, final, rows, rows);
    } else if n.children != [] {
      assert EvalAll(m, n.children, inside, rows, r)[0] == Eval(m, n.children[0], inside, rows, r);
      assert EvalAll(m, s.nodes, inside, ChildRows(m, final, rows), ChildRow(m, final, r))[0]
          == Eval(m, s.nodes[0], inside, ChildRows(m, final, rows), ChildRow(m, final, r));
    }
  }

  lemma {:induction false} RewriteAllMeansSame(
    m: Meaning, ns: seq<Node>, list: seq<Node>, inAggregation: bool, final: seq<Node>, rows: seq<Row>, r: Row)
    requires forall i :: 0 <= i < |ns| ==> Unresolved(ns[i])
    requires var s := RewriteAll(ns, list, inAggregation, m.isAggregate); s.SplitAll? && s.list <= final
    ensures var s := RewriteAll(ns, list, inAggregation, m.isAggregate);
            EvalAll(m, s.nodes, inAggregation, ChildRows(m, final, rows), ChildRow(m, final, r))
            == EvalAll(m, ns, inAggregation, rows, r)
    decreases ns, 0, 0
  {
    hide Rewrite, Eval, ChildRow, ChildRows;
    if ns != [] {
      var first := Rewrite(ns[0], list, inAggregation, m.isAggregate);
      var more := RewriteAll(ns[1..], first.list, inAggregation, m.isAggregate);
      RewriteAllResolves(ns[1..], first.list, inAggregation, m.isAggregate);
      RewriteMeansSame(m, ns[0], list, inAggregation, final, rows, r);
      RewriteAllMeansSame(m, ns[1..], first.list, inAggregation, final, rows, r);
      assert ([first.node] + more.nodes)[1..] == more.nodes;
    }
  }

  lemma {:induction false} RewriteOverMeansSame(
    m: Meaning, ns: seq<Node>, list: seq<Node>, final: seq<Node>, rows: seq<Row>, over: seq<Row>)
    requires forall i :: 0 <= i < |ns| ==> Unresolved(ns[i])
    requires var s := RewriteAll(ns, list, true, m.isAggregate); s.SplitAll? && s.list <= final
    ensures var s := RewriteAll(ns, list, true, m.isAggregate);
            EvalOver(m, s.nodes, ChildRows(m, final, rows), ChildRows(m, final, over)) == EvalOver(m, ns, rows, over)
    decreases ns, 1, |over|
  {
    hide RewriteAll, Eval, EvalAll, ChildRow;
    if over != [] {
      RewriteAllMeansSame(m, ns, list, true, final, rows, over[0]);
      RewriteOverMeansSame(m, ns, list, final, rows, over[1..]);
      assert ChildRows(m, final, over)[1..] == ChildRows(m, final, over[1..]);
    }
  }

  // ------------------------------------------------------------------
  // Flat tables
  // ------------------------------------------------------------------

  /** In a flat table a record is one row, and repeating a value gives that value. */
  ghost predicate IsFlat(m: Meaning, r: Row) {
    r.Source? && r.record == [r.columns] && forall x: int :: m.aggregate("repeat_value", [[x]]) == x
  }

  /** There a column is its own value everywhere. */
  lemma {:induction false} FlatIsOwn(m: Meaning, n: Node, own: bool, rows: seq<Row>, r: Row)
    requires IsFlat(m, r)
    ensures Eval(m, n, own, rows, r) == Eval(m, n, true, rows, r)
    decreases n, 0
  {
    if n.kind.COLUMN_NAME? {
      assert r.Record() == [r];
      assert ValuesIn([r], n) == [[r.Column(n)]];
    } else {
      FlatAllOwn(m, n.children, own, rows, r);
      if n.children != [] {
        FlatIsOwn(m, n.children[0], own, rows, r);
      }
    }
  }

  lemma {:induction false} FlatAllOwn(m: Meaning, ns: seq<Node>, own: bool, rows: seq<Row>, r: Row)
    requires IsFlat(m, r)
    ensures EvalAll(m, ns, own, rows, r) == EvalAll(m, ns, true, rows, r)
    decreases ns, 0
  {
    if ns != [] {
      FlatIsOwn(m, ns[0], own, rows, r);
      FlatAllOwn(m, ns[1..], own, rows, r);
    }
  }
}

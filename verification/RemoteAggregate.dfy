/** A whole aggregation sent to another server: every expression of it as text. */
module RemoteAggregate {
  import opened Wrappers
  import opened RemoteSql
  import opened RemoteRoundTrip

  datatype SelectItem = SelectItem(expression: Node, alias: Option<string>) {
    function ColumnName(): string {
      if alias.Some? then alias.value else ToSql(expression)
    }
  }

  datatype Aggregation = Aggregation(
    table: string,
    strategy: nat,
    outer: seq<SelectItem>,
    inner: seq<SelectItem>,
    groups: seq<Node>,
    condition: Option<Node>)

  datatype NamedText = NamedText(expression: string, alias: string)

  datatype Params = Params(
    table: string,
    strategy: nat,
    outer: seq<NamedText>,
    inner: seq<NamedText>,
    groups: seq<string>,
    condition: Option<string>)

  function ItemText(item: SelectItem): NamedText {
    NamedText(ToSql(item.expression), item.ColumnName())
  }

  ghost predicate IsText(a: Aggregation, p: Params) {
    && p.table == a.table && p.strategy == a.strategy
    && |p.outer| == |a.outer| && (forall i :: 0 <= i < |a.outer| ==> p.outer[i] == ItemText(a.outer[i]))
    && |p.inner| == |a.inner| && (forall i :: 0 <= i < |a.inner| ==> p.inner[i] == ItemText(a.inner[i]))
    && |p.groups| == |a.groups| && (forall i :: 0 <= i < |a.groups| ==> p.groups[i] == ToSql(a.groups[i]))
    && p.condition == if a.condition.None? then None else Some(ToSql(a.condition.value))
  }

  method ItemTexts(items: seq<SelectItem>) returns (texts: seq<NamedText>)
    ensures |texts| == |items| && forall i :: 0 <= i < |items| ==> texts[i] == ItemText(items[i])
  {
    hide ToSql;
    texts := [];
    for k := 0 to |items|
      invariant |texts| == k && forall i :: 0 <= i < k ==> texts[i] == ItemText(items[i])
    {
      texts := texts + [NamedText(ToSql(items[k].expression), items[k].ColumnName())];
    }
  }

  method RemoteAggregateParams(a: Aggregation) returns (p: Params)
    ensures IsText(a, p)
  {
    hide ToSql;
    var groups := [];
    for k := 0 to |a.groups|
      invariant |groups| == k && forall i :: 0 <= i < k ==> groups[i] == ToSql(a.groups[i])
    {
      groups := groups + [ToSql(a.groups[k])];
    }
    var outer := ItemTexts(a.outer);
    var inner := ItemTexts(a.inner);
    var condition := if a.condition.None? then None else Some(ToSql(a.condition.value));
    p := Params(a.table, a.strategy, outer, inner, groups, condition);
  }

  /** The item, if any, that a pair of texts is read as. */
  function ItemOf(text: NamedText): Option<SelectItem> {
    var node := Received(text.expression);
    if node.None? then None else Some(SelectItem(node.value, Some(text.alias)))
  }

  method ReceiveItems(texts: seq<NamedText>) returns (items: Option<seq<SelectItem>>)
    ensures items.None? <==> exists i :: 0 <= i < |texts| && ItemOf(texts[i]).None?
    ensures items.Some? ==>
              |items.value| == |texts|
              && forall i :: 0 <= i < |texts| ==> ItemOf(texts[i]) == Some(items.value[i])
  {
    hide Received;
    var list: seq<SelectItem> := [];
    for k := 0 to |texts|
      invariant |list| == k && forall i :: 0 <= i < k ==> ItemOf(texts[i]) == Some(list[i])
    {
      var node := ParseValueExpression(texts[k].expression);
      if node.None? {
        assert ItemOf(texts[k]).None?;
        return None;
      }
      list := list + [SelectItem(node.value, Some(texts[k].alias))];
    }
    items := Some(list);
  }

  method ReceiveNodes(texts: seq<string>) returns (nodes: Option<seq<Node>>)
    ensures nodes.None? <==> exists i :: 0 <= i < |texts| && Received(texts[i]).None?
    ensures nodes.Some? ==>
              |nodes.value| == |texts|
              && forall i :: 0 <= i < |texts| ==> Received(texts[i]) == Some(nodes.value[i])
  {
    hide Received;
    var list: seq<Node> := [];
    for k := 0 to |texts|
      invariant |list| == k && forall i :: 0 <= i < k ==> Received(texts[i]) == Some(list[i])
    {
      var node := ParseValueExpression(texts[k]);
      if node.None? {
        return None;
      }
      list := list + [node.value];
    }
    nodes := Some(list);
  }

  /** None stands for an exception while reading one of the texts. */
  method ExecuteAggregate(p: Params) returns (a: Option<Aggregation>)
    ensures a.Some? ==>
              && a.value.table == p.table && a.value.strategy == p.strategy
              && |a.value.outer| == |p.outer|
              && (forall i :: 0 <= i < |p.outer| ==> ItemOf(p.outer[i]) == Some(a.value.outer[i]))
              && |a.value.inner| == |p.inner|
              && (forall i :: 0 <= i < |p.inner| ==> ItemOf(p.inner[i]) == Some(a.value.inner[i]))
              && |a.value.groups| == |p.groups|
              && (forall i :: 0 <= i < |p.groups| ==> Received(p.groups[i]) == Some(a.value.groups[i]))
              && (if p.condition.None? then a.value.condition.None?
                  else Received(p.condition.value).Some? && a.value.condition == Received(p.condition.value))
    ensures a.None? <==>
              || (exists i :: 0 <= i < |p.outer| && ItemOf(p.outer[i]).None?)
              || (exists i :: 0 <= i < |p.inner| && ItemOf(p.inner[i]).None?)
              || (exists i :: 0 <= i < |p.groups| && Received(p.groups[i]).None?)
              || (p.condition.Some? && Received(p.condition.value).None?)
  {
    hide Received, ItemOf;
    var outer := ReceiveItems(p.outer);
    if outer.None? {
      return None;
    }
    var inner := ReceiveItems(p.inner);
    if inner.None? {
      return None;
    }
    var groups := ReceiveNodes(p.groups);
    if groups.None? {
      return None;
    }
    var condition: Option<Node> := None;
    if p.condition.Some? {
      condition := ParseValueExpression(p.condition.value);
      if condition.None? {
        return None;
      }
    }
    a := Some(Aggregation(p.table, p.strategy, outer.value, inner.value, groups.value, condition));
  }

  ghost predicate AllSendable(a: Aggregation) {
    && (forall i :: 0 <= i < |a.outer| ==> Sendable(a.outer[i].expression))
    && (forall i :: 0 <= i < |a.inner| ==> Sendable(a.inner[i].expression))
    && (forall i :: 0 <= i < |a.groups| ==> Sendable(a.groups[i]))
    && (a.condition.Some? ==> Sendable(a.condition.value))
  }

  /** The same columns under the same names, the same groups and the same condition. */
  ghost predicate SameAggregation(a: Aggregation, b: Aggregation) {
    && b.table == a.table && b.strategy == a.strategy
    && SameItems(a.outer, b.outer) && SameItems(a.inner, b.inner)
    && |b.groups| == |a.groups| && (forall i :: 0 <= i < |a.groups| ==> b.groups[i] == Arrived(a.groups[i]))
    && b.condition == if a.condition.None? then None else Some(Arrived(a.condition.value))
  }

  ghost predicate SameItems(sent: seq<SelectItem>, got: seq<SelectItem>) {
    && |got| == |sent|
    && forall i :: 0 <= i < |sent| ==>
         got[i].expression == Arrived(sent[i].expression) && got[i].ColumnName() == sent[i].ColumnName()
  }

  /** Sending an aggregation and reading it again gives the same aggregation. */
  method SendAndExecute(a: Aggregation) returns (b: Option<Aggregation>)
    requires AllSendable(a)
    ensures b.Some? && SameAggregation(a, b.value)
  {
    hide ToSql, Received, Sendable, Arrived;
    var p := RemoteAggregateParams(a);
    forall i | 0 <= i < |a.outer| ensures ItemArrives(a.outer[i], p.outer[i]) {
      Arrives(a.outer[i].expression);
    }
    forall i | 0 <= i < |a.inner| ensures ItemArrives(a.inner[i], p.inner[i]) {
      Arrives(a.inner[i].expression);
    }
    forall i | 0 <= i < |a.groups| ensures Received(p.groups[i]) == Some(Arrived(a.groups[i])) {
      Arrives(a.groups[i]);
    }
    if a.condition.Some? {
      Arrives(a.condition.value);
    }
    b := ExecuteAggregate(p);
  }

  ghost predicate ItemArrives(sent: SelectItem, text: NamedText) {
    ItemOf(text) == Some(SelectItem(Arrived(sent.expression), Some(sent.ColumnName())))
  }
}

/**
  Every SELECT statement written out clause by clause is read back as itself, and a list of such
  statements as the same list.
  */
module StatementText {
  import opened Wrappers
  import opened SqlParser
  import opened SqlStatement
  import opened Precedence

  // ------------------------------------------------------------------
  // Text: the tokens of a part, in front of the tokens that follow
  // ------------------------------------------------------------------

  ghost function ExprText(e: Ast, tail: seq<Token>): seq<Token> {
    (if Printable(e) then Print(e, 0) else []) + tail
  }

  ghost function TableText(name: string, tail: seq<Token>): seq<Token> {
    [Ident(name)] + tail
  }

  ghost function ItemText(i: Item, tail: seq<Token>): seq<Token> {
    match i
    case All => [Symbol(ASTERISK)] + tail
    case AllOf(table) => [Ident(table), Symbol(DOT), Symbol(ASTERISK)] + tail
    case Derived(e, alias) =>
      ExprText(e, if alias.None? then tail else [Keyword("AS"), Ident(alias.value)] + tail)
  }

  ghost function SortText(s: Sort, tail: seq<Token>): seq<Token> {
    ExprText(s.expr, if s.order.None? then tail else [Keyword(s.order.value)] + tail)
  }

  ghost function ListText<T>(text: (T, seq<Token>) -> seq<Token>, xs: seq<T>, tail: seq<Token>): seq<Token> {
    if xs == [] then tail
    else text(xs[0], if |xs| == 1 then tail else [Symbol(COMMA)] + ListText(text, xs[1..], tail))
  }

  ghost function FromText(from: Option<seq<string>>, tail: seq<Token>): seq<Token> {
    if from.None? then tail else [Keyword("FROM")] + ListText(TableText, from.value, tail)
  }

  ghost function FilterText(word: string, e: Option<Ast>, tail: seq<Token>): seq<Token> {
    if e.None? then tail else [Keyword(word)] + ExprText(e.value, tail)
  }

  ghost function GroupText(g: Option<Grouping>, tail: seq<Token>): seq<Token> {
    match g
    case None => tail
    case Some(ByExprs(es)) => [Keyword("GROUP")] + ([Keyword("BY")] + ListText(ExprText, es, tail))
    case Some(OverWindow(time, window, step, es)) =>
      [Keyword("GROUP")] + ([Keyword("OVER")] + ([Keyword("TIMEWINDOW"), Symbol(LPAREN)]
      + ExprText(time, [Symbol(COMMA)] + ExprText(window, WindowEndText(step, es, tail)))))
  }

  ghost function WindowEndText(step: Option<Ast>, es: seq<Ast>, tail: seq<Token>): seq<Token> {
    var end := [Symbol(RPAREN)] + (if es == [] then tail else [Keyword("BY")] + ListText(ExprText, es, tail));
    if step.None? then end else [Symbol(COMMA)] + ExprText(step.value, end)
  }

  ghost function OrderText(o: Option<seq<Sort>>, tail: seq<Token>): seq<Token> {
    if o.None? then tail else [Keyword("ORDER")] + ([Keyword("BY")] + ListText(SortText, o.value, tail))
  }

  ghost function LimitText(l: Option<Limit>, tail: seq<Token>): seq<Token> {
    match l
    case None => tail
    case Some(Limit(limit, None)) => [Keyword("LIMIT")] + ([Numeric(limit)] + tail)
    case Some(Limit(limit, Some(offset))) =>
      [Keyword("LIMIT")] + ([Numeric(limit), Keyword("OFFSET"), Numeric(offset)] + tail)
  }

  ghost function ClausesText(s: Select, tail: seq<Token>): seq<Token> {
    FilterText("WHERE", s.filter, GroupText(s.group, FilterText("HAVING", s.having, LastText(s, tail))))
  }

  ghost function LastText(s: Select, tail: seq<Token>): seq<Token> {
    OrderText(s.order, LimitText(s.limit, tail))
  }

  /** A statement behind SELECT. */
  ghost function SelectText(s: Select, tail: seq<Token>): seq<Token> {
    ListText(ItemText, s.list, FromText(s.from, ClausesText(s, tail)))
  }

  // ------------------------------------------------------------------
  // Statements that can be written
  // ------------------------------------------------------------------

  ghost predicate AllPrintable(es: seq<Ast>) {
    forall i :: 0 <= i < |es| ==> Printable(es[i])
  }

  ghost predicate IsItem(i: Item) {
    match i
    case All => false
    case AllOf(_) => true
    case Derived(e, _) => Printable(e)
  }

  ghost predicate IsSort(s: Sort) {
    Printable(s.expr) && (s.order.None? || s.order == Some("ASC") || s.order == Some("DESC"))
  }

  ghost predicate IsGrouping(g: Grouping) {
    match g
    case ByExprs(es) => es != [] && AllPrintable(es)
    case OverWindow(time, window, step, es) =>
      Printable(time) && Printable(window) && (step.Some? ==> Printable(step.value)) && AllPrintable(es)
  }

  ghost predicate HasClauses(s: Select) {
    && (s.filter.Some? ==> Printable(s.filter.value))
    && (s.group.Some? ==> IsGrouping(s.group.value))
    && (s.having.Some? ==> Printable(s.having.value))
    && (s.order.Some? ==> s.order.value != [] && forall i :: 0 <= i < |s.order.value| ==> IsSort(s.order.value[i]))
  }

  /** Without FROM there are no clauses. */
  ghost predicate Writable(s: Select) {
    && (s.list == [All] || (s.list != [] && forall i :: 0 <= i < |s.list| ==> IsItem(s.list[i])))
    && (if s.from.Some? then s.from.value != [] && HasClauses(s)
        else s == Select(s.list, None, None, None, None, None, None))
  }

  // ------------------------------------------------------------------
  // Parts are read back
  // ------------------------------------------------------------------

  /** Where a list item or a clause ends. */
  predicate Ends(ts: seq<Token>) {
    || Head(ts) == Symbol(COMMA) || Head(ts) == Symbol(RPAREN) || Head(ts) == Keyword("FROM") || Place(ts) > 0
  }

  /** The place of a clause in a statement; the end comes last. */
  function Place(ts: seq<Token>): nat {
    match Head(ts)
    case Keyword(word) =>
      if word == "WHERE" then 1 else if word == "GROUP" then 2 else if word == "HAVING" then 3
      else if word == "ORDER" then 4 else if word == "LIMIT" then 5 else 0
    case Symbol(sym) => if sym == SEMICOLON then 6 else 0
    case Eof => 6
    case _ => 0
  }

  lemma {:induction false} EndsCloses(ts: seq<Token>)
    requires Ends(ts) || Head(ts) == Keyword("AS") || Head(ts) == Keyword("ASC") || Head(ts) == Keyword("DESC")
    ensures Closed(ts) && Refused(ts, 0)
  {
  }

  lemma {:induction false} ExprReads(e: Ast, tail: seq<Token>)
    requires Printable(e) && Closed(tail) && Refused(tail, 0)
    ensures ExprOf(ExprText(e, tail)) == ValueExprOf(ExprText(e, tail)) == Done(e, tail)
  {
    Parses(e, 0, tail);
  }

  ghost predicate Reads<T(!new)>(one: seq<Token> -> Result<T>, text: (T, seq<Token>) -> seq<Token>, x: T) {
    forall tail: seq<Token> :: Ends(tail) ==> one(text(x, tail)) == Done(x, tail)
  }

  lemma {:induction false} ExprIsRead(e: Ast)
    requires Printable(e)
    ensures Reads(ExprOf, ExprText, e)
  {
    forall tail: seq<Token> | Ends(tail) ensures ExprOf(ExprText(e, tail)) == Done(e, tail) {
      EndsCloses(tail);
      ExprReads(e, tail);
    }
  }

  lemma {:induction false} SortIsRead(s: Sort)
    requires IsSort(s)
    ensures Reads(SortOf, SortText, s)
  {
    hide ExprOf, ExprText, Refused, Closed;
    forall tail: seq<Token> | Ends(tail) ensures SortOf(SortText(s, tail)) == Done(s, tail) {
      var behind := if s.order.None? then tail else [Keyword(s.order.value)] + tail;
      EndsCloses(behind);
      ExprReads(s.expr, behind);
      if s.order.Some? {
        assert behind[1..] == tail;
      }
    }
  }

  lemma {:induction false} TableIsRead(name: string)
    ensures Reads(TableOf, TableText, name)
  {
    forall tail: seq<Token> | Ends(tail) ensures TableOf(TableText(name, tail)) == Done(name, tail) {
      assert TableText(name, tail)[1..] == tail;
    }
  }

  /** No expression starts like `table.*`. */
  lemma {:induction false} ExprIsNotAllOf(t: Ast, tail: seq<Token>)
    requires Printable(t) && !IsAllOf(tail) && Head(tail) != Symbol(DOT)
    ensures !IsAllOf(Bare(t) + tail)
    decreases t
  {
    match t
    case Literal(_) =>
    case Column(names) =>
      if |names| == 1 {
        assert Bare(t) == [Ident(names[0])];
      } else {
        assert PrintNames(names[1..])[0] == Ident(names[1]);
        assert PrintNames(names) == [Ident(names[0]), Symbol(DOT)] + PrintNames(names[1..]);
      }
    case Call(_, _, _) => assert Bare(t)[1] == Symbol(LPAREN);
    case Negate(_) => assert Bare(t)[0] == Symbol(LPAREN);
    case Binary(op, l, r) =>
      BareBinary(op, l, r);
      var more := [OpToken(op)] + Print(r, RightLevel(op)) + tail;
      assert Bare(t) + tail == PrintLeft(l, op) + more;
      if LeftNeedsParentheses(l, op) {
        assert PrintLeft(l, op)[0] == Symbol(LPAREN);
      } else {
        PrintedLeft(l, op);
        ExprIsNotAllOf(l, more);
      }
  }

  lemma {:induction false} DerivedIsRead(e: Ast, alias: Option<string>, tail: seq<Token>)
    requires Printable(e) && Ends(tail)
    ensures ItemOf(ItemText(Derived(e, alias), tail)) == Done(Derived(e, alias), tail)
  {
    hide ExprOf, ValueExprOf, Refused, Closed, IsAllOf, Bare, Printable, ExprText;
    var behind := if alias.None? then tail else [Keyword("AS"), Ident(alias.value)] + tail;
    EndsCloses(behind);
    ExprReads(e, behind);
    NoWildcardStart(behind);
    ExprTextIs(e, behind);
    ExprIsNotAllOf(e, behind);
    if alias.Some? {
      assert behind[1..][1..] == tail;
    }
  }

  lemma {:induction false} NoWildcardStart(ts: seq<Token>)
    requires Closed(ts) && (Ends(ts) || Head(ts) == Keyword("AS"))
    ensures !IsAllOf(ts) && Head(ts) != Symbol(DOT)
  {
  }

  lemma {:induction false} ExprTextIs(e: Ast, tail: seq<Token>)
    requires Printable(e)
    ensures ExprText(e, tail) == Bare(e) + tail
  {
  }

  lemma {:induction false} ItemIsRead(i: Item)
    requires IsItem(i)
    ensures Reads(ItemOf, ItemText, i)
  {
    forall tail: seq<Token> | Ends(tail) ensures ItemOf(ItemText(i, tail)) == Done(i, tail) {
      if i.AllOf? {
        assert ItemText(i, tail)[3..] == tail;
      } else {
        DerivedIsRead(i.expr, i.alias, tail);
      }
    }
  }

  lemma {:induction false} ListIsRead<T(!new)>(
    one: seq<Token> -> Result<T>, text: (T, seq<Token>) -> seq<Token>, xs: seq<T>, tail: seq<Token>)
    requires Shortens(one) && xs != [] && forall i :: 0 <= i < |xs| ==> Reads(one, text, xs[i])
    requires Ends(tail) && Head(tail) != Symbol(COMMA)
    ensures ListOf(one, ListText(text, xs, tail)) == Done(xs, tail)
    decreases |xs|
  {
    if |xs| == 1 {
      assert one(text(xs[0], tail)) == Done(xs[0], tail);
      assert [xs[0]] == xs;
    } else {
      var more := ListText(text, xs[1..], tail);
      var behind := [Symbol(COMMA)] + more;
      assert Reads(one, text, xs[0]) && one(text(xs[0], behind)) == Done(xs[0], behind);
      assert behind[1..] == more;
      ListIsRead(one, text, xs[1..], tail);
      assert [xs[0]] + xs[1..] == xs;
    }
  }

  // ------------------------------------------------------------------
  // Clauses are read back
  // ------------------------------------------------------------------

  lemma {:induction false} FilterIsRead(word: string, e: Option<Ast>, tail: seq<Token>)
    requires Shortens(ExprOf) && (e.Some? ==> Printable(e.value))
    requires Ends(tail) && Head(tail) != Keyword(word)
    ensures ClauseOf(word, ExprOf, FilterText(word, e, tail)) == Done(e, tail)
  {
    hide ExprOf, Closed, Refused, ExprText;
    if e.Some? {
      EndsCloses(tail);
      ExprReads(e.value, tail);
      assert FilterText(word, e, tail)[1..] == ExprText(e.value, tail);
    }
  }

  lemma {:induction false} ExprsAreRead(es: seq<Ast>, tail: seq<Token>)
    requires Shortens(ExprOf) && es != [] && AllPrintable(es) && Ends(tail) && Head(tail) != Symbol(COMMA)
    ensures ListOf(ExprOf, ListText(ExprText, es, tail)) == Done(es, tail)
  {
    hide ExprOf, ListOf, ListText, Reads;
    forall i | 0 <= i < |es| ensures Reads(ExprOf, ExprText, es[i]) {
      ExprIsRead(es[i]);
    }
    ListIsRead(ExprOf, ExprText, es, tail);
  }

  lemma {:induction false} WindowEndIsRead(time: Ast, window: Ast, step: Option<Ast>, es: seq<Ast>, tail: seq<Token>)
    requires (step.Some? ==> Printable(step.value)) && AllPrintable(es)
    requires Ends(tail) && Head(tail) != Symbol(COMMA) && Head(tail) != Keyword("BY")
    ensures Ends(WindowEndText(step, es, tail))
    ensures WindowEndOf(time, window, WindowEndText(step, es, tail)) == Done(OverWindow(time, window, step, es), tail)
  {
    hide ExprOf, ValueExprOf, Closed, Refused, ExprText, ListOf, ListText, Printable;
    ReadersShorten();
    var keys := if es == [] then tail else [Keyword("BY")] + ListText(ExprText, es, tail);
    var end := [Symbol(RPAREN)] + keys;
    assert end[1..] == keys;
    if es != [] {
      ExprsAreRead(es, tail);
      assert keys[1..] == ListText(ExprText, es, tail);
    }
    if step.Some? {
      EndsCloses(end);
      ExprReads(step.value, end);
      assert WindowEndText(step, es, tail)[1..] == ExprText(step.value, end);
    }
  }

  lemma {:induction false} WindowIsRead(time: Ast, window: Ast, end: seq<Token>)
    requires Printable(time) && Printable(window) && Ends(end)
    ensures WindowTimeOf(ExprText(time, [Symbol(COMMA)] + ExprText(window, end))) == WindowEndOf(time, window, end)
  {
    hide ExprOf, ValueExprOf, Closed, Refused, ExprText, WindowEndOf, Printable;
    var behind := [Symbol(COMMA)] + ExprText(window, end);
    EndsCloses(behind);
    ExprReads(time, behind);
    EndsCloses(end);
    ExprReads(window, end);
    assert behind[1..] == ExprText(window, end);
  }

  lemma {:induction false} GroupIsRead(g: Option<Grouping>, tail: seq<Token>)
    requires Shortens(GroupOf) && (g.Some? ==> IsGrouping(g.value)) && Place(tail) > 2
    ensures ClauseOf("GROUP", GroupOf, GroupText(g, tail)) == Done(g, tail)
  {
    hide ExprOf, ExprText, ListText, ListOf, WindowTimeOf, WindowEndOf, WindowEndText, Printable;
    ReadersShorten();
    match g
    case None =>
    case Some(ByExprs(es)) =>
      ExprsAreRead(es, tail);
      var keys := ListText(ExprText, es, tail);
      assert ([Keyword("GROUP")] + ([Keyword("BY")] + keys))[1..] == [Keyword("BY")] + keys;
      assert ([Keyword("BY")] + keys)[1..] == keys;
    case Some(OverWindow(time, window, step, es)) =>
      var end := WindowEndText(step, es, tail);
      WindowEndIsRead(time, window, step, es, tail);
      WindowIsRead(time, window, end);
      var inside := ExprText(time, [Symbol(COMMA)] + ExprText(window, end));
      var over := [Keyword("TIMEWINDOW"), Symbol(LPAREN)] + inside;
      assert over[2..] == inside;
      assert ([Keyword("OVER")] + over)[1..] == over;
      assert ([Keyword("GROUP")] + ([Keyword("OVER")] + over))[1..] == [Keyword("OVER")] + over;
  }

  lemma {:induction false} OrderIsRead(o: Option<seq<Sort>>, tail: seq<Token>)
    requires Shortens(OrderOf) && Place(tail) > 4
    requires o.Some? ==> o.value != [] && forall i :: 0 <= i < |o.value| ==> IsSort(o.value[i])
    ensures ClauseOf("ORDER", OrderOf, OrderText(o, tail)) == Done(o, tail)
  {
    hide SortOf, ListOf, ListText, Reads;
    ReadersShorten();
    if o.Some? {
      forall i | 0 <= i < |o.value| ensures Reads(SortOf, SortText, o.value[i]) {
        SortIsRead(o.value[i]);
      }
      ListIsRead(SortOf, SortText, o.value, tail);
      var keys := ListText(SortText, o.value, tail);
      assert ([Keyword("BY")] + keys)[1..] == keys;
      assert OrderText(o, tail)[1..] == [Keyword("BY")] + keys;
    }
  }

  lemma {:induction false} LimitIsRead(l: Option<Limit>, tail: seq<Token>)
    requires Shortens(LimitOf) && Place(tail) == 6
    ensures ClauseOf("LIMIT", LimitOf, LimitText(l, tail)) == Done(l, tail)
  {
    match l
    case None =>
    case Some(Limit(limit, None)) =>
      assert LimitText(l, tail)[1..] == [Numeric(limit)] + tail;
      assert ([Numeric(limit)] + tail)[1..] == tail;
    case Some(Limit(limit, Some(offset))) =>
      var body := [Numeric(limit), Keyword("OFFSET"), Numeric(offset)] + tail;
      assert LimitText(l, tail)[1..] == body;
      assert body[3..] == tail;
  }

  lemma {:induction false} Places(s: Select, tail: seq<Token>)
    requires Place(tail) == 6
    ensures var limit := LimitText(s.limit, tail);
            var order := OrderText(s.order, limit);
            var having := FilterText("HAVING", s.having, order);
            var group := GroupText(s.group, having);
            && Place(limit) >= 5 && Place(order) >= 4 && Place(having) >= 3 && Place(group) >= 2
            && Place(FilterText("WHERE", s.filter, group)) >= 1
  {
    hide ExprText, ListText, WindowEndText;
  }

  lemma {:induction false} LastIsRead(s: Select, tail: seq<Token>)
    requires HasClauses(s) && Place(tail) == 6
    ensures LastClausesOf(s.(order := None, limit := None), LastText(s, tail)) == Done(s, AfterSemicolon(tail))
  {
    hide GroupOf, OrderOf, LimitOf, ExprOf, ClauseOf, OrderText, LimitText, Place;
    ClausesShorten();
    Places(s, tail);
    LimitIsRead(s.limit, tail);
    OrderIsRead(s.order, LimitText(s.limit, tail));
  }

  lemma {:induction false} ClausesAreRead(s: Select, tail: seq<Token>)
    requires HasClauses(s) && Place(tail) == 6
    ensures ClausesOf(s.list, s.from, ClausesText(s, tail)) == Done(s, AfterSemicolon(tail))
  {
    hide GroupOf, ExprOf, OrderOf, LimitOf, ClauseOf, GroupText, FilterText, LastClausesOf, LastText;
    ClausesShorten();
    Places(s, tail);
    var last := LastText(s, tail);
    LastIs(s, tail);
    LastIsRead(s, tail);
    var having := FilterText("HAVING", s.having, last);
    FilterIsRead("HAVING", s.having, last);
    var group := GroupText(s.group, having);
    GroupIsRead(s.group, having);
    FilterIsRead("WHERE", s.filter, group);
  }

  lemma {:induction false} LastIs(s: Select, tail: seq<Token>)
    ensures LastText(s, tail) == OrderText(s.order, LimitText(s.limit, tail))
  {
  }

  lemma {:induction false} TablesAreRead(names: seq<string>, tail: seq<Token>)
    requires Shortens(TableOf) && names != [] && Place(tail) > 0
    ensures ListOf(TableOf, ListText(TableText, names, tail)) == Done(names, tail)
  {
    hide TableOf, ListOf, ListText, Reads;
    forall i | 0 <= i < |names| ensures Reads(TableOf, TableText, names[i]) {
      TableIsRead(names[i]);
    }
    ListIsRead(TableOf, TableText, names, tail);
  }

  lemma {:induction false} FromIsRead(from: Option<seq<string>>, tail: seq<Token>)
    requires from.Some? ==> from.value != [] && Place(tail) > 0
    requires from.None? ==> Head(tail) == Symbol(SEMICOLON)
    ensures FromOf(FromText(from, tail)) == Done(from, tail)
    ensures Ends(FromText(from, tail)) && Head(FromText(from, tail)) != Symbol(COMMA)
  {
    hide TableOf, ListOf, ListText;
    ReadersShorten();
    if from.Some? {
      TablesAreRead(from.value, tail);
      assert FromText(from, tail)[1..] == ListText(TableText, from.value, tail);
    }
  }

  lemma {:induction false} SelectListIsRead(list: seq<Item>, tail: seq<Token>)
    requires list == [All] || (list != [] && forall i :: 0 <= i < |list| ==> IsItem(list[i]))
    requires Ends(tail) && Head(tail) != Symbol(COMMA)
    ensures SelectListOf(ListText(ItemText, list, tail)) == Done(list, tail)
  {
    hide ItemOf, ListOf, Reads;
    ReadersShorten();
    if list == [All] {
      assert ListText(ItemText, list, tail) == [Symbol(ASTERISK)] + tail;
    } else {
      forall i | 0 <= i < |list| ensures Reads(ItemOf, ItemText, list[i]) {
        ItemIsRead(list[i]);
      }
      ListIsRead(ItemOf, ItemText, list, tail);
      ItemStart(list[0], if |list| == 1 then tail else [Symbol(COMMA)] + ListText(ItemText, list[1..], tail));
    }
  }

  lemma {:induction false} ItemStart(i: Item, tail: seq<Token>)
    requires IsItem(i)
    ensures ItemText(i, tail) != [] && Head(ItemText(i, tail)) != Symbol(ASTERISK)
  {
    if i.Derived? {
      BareStart(i.expr);
    }
  }

  /** A statement is read back, up to its semicolon or the end of the query. */
  lemma {:induction false} SelectIsRead(s: Select, tail: seq<Token>)
    requires Writable(s) && Place(tail) == 6
    requires s.from.None? ==> Head(tail) == Symbol(SEMICOLON)
    ensures StatementOf([Keyword("SELECT")] + SelectText(s, tail)) == Done(Query(s), AfterSemicolon(tail))
  {
    hide SelectListOf, FromOf, ClausesOf, ListText, FromText, FilterText, GroupText, LastText, Place;
    var clauses := ClausesText(s, tail);
    if s.from.None? {
      NoClauses(s, tail);
    } else {
      ClausesStart(s, tail);
    }
    ClausesAreRead(s, tail);
    FromIsRead(s.from, clauses);
    SelectListIsRead(s.list, FromText(s.from, clauses));
    assert ([Keyword("SELECT")] + SelectText(s, tail))[1..] == SelectText(s, tail);
  }

  lemma {:induction false} NoClauses(s: Select, tail: seq<Token>)
    requires s == Select(s.list, None, None, None, None, None, None)
    ensures HasClauses(s) && ClausesText(s, tail) == tail
  {
  }

  lemma {:induction false} ClausesStart(s: Select, tail: seq<Token>)
    requires Place(tail) == 6
    ensures Place(ClausesText(s, tail)) > 0
  {
    Places(s, tail);
  }

  // ------------------------------------------------------------------
  // Queries are read back
  // ------------------------------------------------------------------

  /** Statements one after the other, each with its semicolon. */
  ghost function QueryText(ss: seq<Select>): seq<Token> {
    if ss == [] then [Eof]
    else [Keyword("SELECT")] + SelectText(ss[0], [Symbol(SEMICOLON)] + QueryText(ss[1..]))
  }

  ghost function Queries(ss: seq<Select>): seq<Statement> {
    if ss == [] then [] else [Query(ss[0])] + Queries(ss[1..])
  }

  lemma {:induction false} QueryIsRead(ss: seq<Select>)
    requires forall i :: 0 <= i < |ss| ==> Writable(ss[i])
    ensures StatementsOf(QueryText(ss)) == Done(Queries(ss), [Eof])
    decreases |ss|
  {
    hide StatementOf, SelectText, Writable;
    if ss != [] {
      var more := QueryText(ss[1..]);
      SelectIsRead(ss[0], [Symbol(SEMICOLON)] + more);
      assert ([Symbol(SEMICOLON)] + more)[1..] == more;
      QueryIsRead(ss[1..]);
    }
  }

  /** FROM can only be missing in front of a semicolon. */
  lemma {:induction false} NoFromNeedsSemicolon(list: seq<Item>, tail: seq<Token>)
    requires list == [All] || (list != [] && forall i :: 0 <= i < |list| ==> IsItem(list[i]))
    requires Place(tail) > 0
    ensures StatementOf([Keyword("SELECT")] + ListText(ItemText, list, tail)).Done?
            <==> Head(tail) == Symbol(SEMICOLON)
  {
    hide SelectListOf, ClausesOf, ListText, ExprOf, GroupOf, OrderOf, LimitOf;
    SelectListIsRead(list, tail);
    var text := ListText(ItemText, list, tail);
    assert ([Keyword("SELECT")] + text)[1..] == text;
    if Head(tail) == Symbol(SEMICOLON) {
      var s := Select(list, None, None, None, None, None, None);
      NoClauses(s, tail);
      ClausesAreRead(s, tail);
    }
  }

  // ------------------------------------------------------------------
  // Expressions that are missing
  // ------------------------------------------------------------------

  function Opening(ts: seq<Token>): (n: nat)
    ensures n <= |ts| && Head(ts[n..]) != Symbol(LPAREN)
    ensures forall i :: 0 <= i < n ==> ts[i] == Symbol(LPAREN)
  {
    if Head(ts) == Symbol(LPAREN) then
      assert ts[1..][Opening(ts[1..])..] == ts[1 + Opening(ts[1..])..];
      1 + Opening(ts[1..])
    else
      assert ts[0..] == ts;
      0
  }

  predicate StartsOperand(t: Token) {
    t == Symbol(LPAREN) || IsNegation(t) || IsLiteral(t) || t.Ident?
  }

  /** Tokens that start no expression: some parentheses around nothing, or something else. */
  predicate StartsNothing(ts: seq<Token>) {
    var n := Opening(ts);
    if n == 0 then !StartsOperand(Head(ts))
    else 2 * n <= |ts| && forall i :: n <= i < 2 * n ==> ts[i] == Symbol(RPAREN)
  }

  lemma {:induction false} NothingInside(ts: seq<Token>)
    requires Head(ts) == Symbol(LPAREN)
    ensures var inner, n := ts[1..], Opening(ts[1..]);
            && Opening(ts) == n + 1
            && (StartsNothing(ts) <==>
                  StartsNothing(inner) && 2 * n < |inner| && inner[2 * n] == Symbol(RPAREN))
  {
    hide StartsOperand;
    var inner, n := ts[1..], Opening(ts[1..]);
    assert forall i :: 0 <= i < |inner| ==> inner[i] == ts[i + 1];
    if n == 0 {
      NotAnOperand();
      assert inner[0..] == inner;
      if |inner| > 0 && inner[0] == Symbol(RPAREN) {
        assert StartsNothing(ts);
      }
    } else if StartsNothing(ts) {
      assert forall i :: n <= i < 2 * n ==> inner[i] == ts[i + 1];
    }
  }

  lemma {:induction false} NotAnOperand()
    ensures !StartsOperand(Symbol(RPAREN))
  {
  }

  /** An expression is missing exactly where the tokens start none. */
  lemma {:induction false} MissingIff(ts: seq<Token>, precedence: nat)
    ensures var e := Expr(ts, precedence);
            && (e.Ok? && e.ast == Missing <==> StartsNothing(ts))
            && (StartsNothing(ts) ==> 2 * Opening(ts) <= |ts| && e.rest == ts[2 * Opening(ts)..])
    decreases |ts|
  {
    hide StartsNothing, Opening, StartsOperand, Climb, MethodCall, Dotted;
    if Head(ts) == Symbol(LPAREN) {
      var inner, n := ts[1..], Opening(ts[1..]);
      MissingIff(inner, 0);
      NothingInside(ts);
      if StartsNothing(inner) {
        assert inner[2 * n..] != [] ==> inner[2 * n..][0] == inner[2 * n];
        assert 2 * n < |inner| ==> inner[2 * n..][1..] == ts[2 * (n + 1)..];
      }
    } else {
      NoParenthesis(ts);
    }
  }

  lemma {:induction false} NoParenthesis(ts: seq<Token>)
    requires Head(ts) != Symbol(LPAREN)
    ensures Opening(ts) == 0 && ts[0..] == ts
    ensures StartsNothing(ts) <==> !(IsNegation(Head(ts)) || IsLiteral(Head(ts)) || Head(ts).Ident?)
  {
  }

  /** A clause with a condition holds a missing one exactly if nothing starts behind its keyword. */
  lemma {:induction false} EmptyClauseIff(word: string, ts: seq<Token>)
    requires Shortens(ExprOf)
    ensures (exists rest :: ClauseOf(word, ExprOf, ts) == Done(Some(Missing), rest))
            <==> Head(ts) == Keyword(word) && StartsNothing(ts[1..])
  {
    hide StartsNothing;
    if Head(ts) == Keyword(word) {
      MissingIff(ts[1..], 0);
      var r := ClauseOf(word, ExprOf, ts);
      assert r.Done? ==> r == Done(r.value, r.rest);
    }
  }

  /** The tokens in front of item k of a list: what follows the k-th comma between its items. */
  function ItemAt<T(!new)>(one: seq<Token> -> Result<T>, ts: seq<Token>, k: nat): seq<Token>
    decreases k
  {
    if k == 0 then ts
    else
      var first := one(ts);
      if first.Done? && Head(first.rest) == Symbol(COMMA) then ItemAt(one, Tail(first.rest), k - 1) else []
  }

  /** Item k of a list is what is read there, and a comma stands in front of it. */
  lemma {:induction false} ItemIsOne<T(!new)>(one: seq<Token> -> Result<T>, ts: seq<Token>, k: nat)
    requires Shortens(one) && ListOf(one, ts).Done? && k < |ListOf(one, ts).value|
    ensures var r := one(ItemAt(one, ts, k)); r.Done? && r.value == ListOf(one, ts).value[k]
    ensures k > 0 ==>
              var before := one(ItemAt(one, ts, k - 1));
              before.Done? && before.rest == [Symbol(COMMA)] + ItemAt(one, ts, k)
    decreases k
  {
    if k > 0 {
      ItemIsOne(one, one(ts).rest[1..], k - 1);
    }
  }

  lemma {:induction false} SortMissingIff(ts: seq<Token>)
    ensures SortOf(ts).Done? ==> (SortOf(ts).value.expr == Missing <==> StartsNothing(ts))
  {
    hide StartsNothing;
    MissingIff(ts, 0);
  }

  /** A key of a grouping is missing exactly if nothing starts behind BY or the comma in front of it. */
  lemma {:induction false} EmptyKeyIff(ts: seq<Token>, k: nat)
    requires var r := GroupOf(ts); r.Done? && r.value.ByExprs? && k < |r.value.exprs|
    ensures Head(ts) == Keyword("BY")
    ensures GroupOf(ts).value.exprs[k] == Missing <==> StartsNothing(ItemAt(ExprOf, ts[1..], k))
  {
    hide ExprOf, ListOf, WindowOf, StartsNothing, ItemAt;
    ReadersShorten();
    ByExprsIs(ts);
    ItemIsOne(ExprOf, ts[1..], k);
    ExprMissingIff(ItemAt(ExprOf, ts[1..], k));
  }

  lemma {:induction false} ExprMissingIff(ts: seq<Token>)
    ensures ExprOf(ts).Done? ==> (ExprOf(ts).value == Missing <==> StartsNothing(ts))
  {
    hide StartsNothing;
    MissingIff(ts, 0);
  }

  lemma {:induction false} ByExprsIs(ts: seq<Token>)
    requires GroupOf(ts).Done? && GroupOf(ts).value.ByExprs?
    ensures Head(ts) == Keyword("BY")
    ensures Shortens(ExprOf) && ListOf(ExprOf, ts[1..]) == Done(GroupOf(ts).value.exprs, GroupOf(ts).rest)
  {
    hide ExprOf, ListOf, ValueExprOf, StepOf;
    ReadersShorten();
  }

  /** The same for the expressions to sort by. */
  lemma {:induction false} EmptySortIff(ts: seq<Token>, k: nat)
    requires OrderOf(ts).Done? && k < |OrderOf(ts).value|
    ensures Head(ts) == Keyword("BY")
    ensures OrderOf(ts).value[k].expr == Missing <==> StartsNothing(ItemAt(SortOf, ts[1..], k))
  {
    hide SortOf, ListOf, StartsNothing, ItemAt;
    ReadersShorten();
    ItemIsOne(SortOf, ts[1..], k);
    SortMissingIff(ItemAt(SortOf, ts[1..], k));
  }

  /** Such a statement: it groups by nothing and sorts by nothing, and it is accepted. */
  lemma {:induction false} EmptyKeysAreRead(table: string)
    ensures StatementOf([Keyword("SELECT"), Symbol(ASTERISK), Keyword("FROM"), Ident(table), Keyword("GROUP"), Keyword("BY"),
                         Keyword("ORDER"), Keyword("BY"), Eof])
         == Done(Query(Select([All], Some([table]), None, Some(ByExprs([Missing])), None, Some([Sort(Missing, None)]), None)),
                 [Eof])
  {
    hide LimitOf, ListOf, TableOf, ExprOf, GroupOf, OrderOf, ClauseOf;
    ReadersShorten();
    ClausesShorten();
    var order := [Keyword("ORDER"), Keyword("BY"), Eof];
    var group := [Keyword("GROUP"), Keyword("BY")] + order;
    var from := [Keyword("FROM"), Ident(table)] + group;
    var ts := [Keyword("SELECT"), Symbol(ASTERISK)] + from;
    assert ts == [Keyword("SELECT"), Symbol(ASTERISK), Keyword("FROM"), Ident(table), Keyword("GROUP"), Keyword("BY"),
                  Keyword("ORDER"), Keyword("BY"), Eof];
    assert ts[1..][1..] == from;
    assert from[1..] == ListText(TableText, [table], group);
    TablesAreRead([table], group);
    EmptyGroup(group, order);
    EmptyOrder(order);
  }

  /** Clauses that hold nothing, behind a list without a condition. */
  lemma {:induction false} EmptyGroup(group: seq<Token>, order: seq<Token>)
    requires group == [Keyword("GROUP"), Keyword("BY")] + order && Head(order) == Keyword("ORDER")
    ensures Shortens(GroupOf) && Shortens(ExprOf)
    ensures ClauseOf("WHERE", ExprOf, group) == Done(None, group) && ClauseOf("HAVING", ExprOf, order) == Done(None, order)
    ensures ClauseOf("GROUP", GroupOf, group) == Done(Some(ByExprs([Missing])), order)
  {
    hide ExprOf, ListOf, WindowOf;
    ReadersShorten();
    ClausesShorten();
    assert group[1..] == [Keyword("BY")] + order && group[1..][1..] == order;
    NothingRead(order);
    OnlyItem(ExprOf, order);
  }

  lemma {:induction false} EmptyOrder(order: seq<Token>)
    requires order == [Keyword("ORDER"), Keyword("BY"), Eof]
    ensures Shortens(OrderOf) && Shortens(LimitOf)
    ensures ClauseOf("ORDER", OrderOf, order) == Done(Some([Sort(Missing, None)]), [Eof])
    ensures ClauseOf("LIMIT", LimitOf, [Eof]) == Done(None, [Eof])
  {
    hide SortOf, ListOf, LimitOf;
    ReadersShorten();
    ClausesShorten();
    assert order[1..] == [Keyword("BY"), Eof] && order[1..][1..] == [Eof];
    NothingRead([Eof]);
    OnlyItem(SortOf, [Eof]);
  }

  lemma {:induction false} OnlyItem<T(!new)>(one: seq<Token> -> Result<T>, ts: seq<Token>)
    requires Shortens(one) && one(ts).Done? && Head(one(ts).rest) != Symbol(COMMA)
    ensures ListOf(one, ts) == Done([one(ts).value], one(ts).rest)
  {
  }

  lemma {:induction false} NothingRead(ts: seq<Token>)
    requires Head(ts) == Keyword("ORDER") || Head(ts) == Eof
    ensures ExprOf(ts) == Done(Missing, ts) && SortOf(ts) == Done(Sort(Missing, None), ts)
  {
    hide Climb;
    assert "ORDER"[0] != "FALSE"[0];
    assert Unary(ts) == SqlParser.Ok(Missing, ts);
  }

  /** Such a statement: its condition is missing, and it is accepted. */
  lemma {:induction false} EmptyFilterIsRead(table: string)
    ensures StatementOf([Keyword("SELECT"), Symbol(ASTERISK), Keyword("FROM"), Ident(table), Keyword("WHERE"), Eof])
         == Done(Query(Select([All], Some([table]), Some(Missing), None, None, None, None)), [Eof])
  {
    hide GroupOf, OrderOf, LimitOf, ListOf, TableOf;
    ReadersShorten();
    ClausesShorten();
    var ts := [Keyword("SELECT"), Symbol(ASTERISK), Keyword("FROM"), Ident(table), Keyword("WHERE"), Eof];
    var filter := [Keyword("WHERE"), Eof];
    assert ts[1..][1..] == [Keyword("FROM"), Ident(table)] + filter;
    assert ([Keyword("FROM"), Ident(table)] + filter)[1..] == ListText(TableText, [table], filter);
    TablesAreRead([table], filter);
    assert filter[1..] == [Eof];
    assert Expr([Eof], 0) == SqlParser.Ok(Missing, [Eof]);
  }
}

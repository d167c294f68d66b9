/**
  The expression parser: precedence climbing over a token cursor. The functions give, for a
  list of tokens, the tree and the tokens that are left; the class is the parser itself.
  */
module SqlParser {
  import opened Wrappers

  datatype Sym =
    | SEMICOLON | COMMA | DOT | LPAREN | RPAREN | EQUAL | NEQUAL | PLUS | MINUS | ASTERISK | SLASH | BANG
    | CIRCUMFLEX | TILDE | PERCENT | AMPERSAND | PIPE | LT | LTE | GT | GTE

  /** Keywords carry their word in upper case. */
  datatype Token =
    | Ident(text: string)
    | Numeric(text: string)
    | Quoted(text: string)
    | Keyword(word: string)
    | Symbol(sym: Sym)
    | Eof

  datatype Op = Eq | Neq | Lt | Lte | Gt | Gte | And | Or | Add | Sub | Mul | Div | Mod | Pow

  datatype CallKind = METHOD_CALL | IF_EXPR | COLUMN_INDEX | METHOD_CALL_WITHIN_RECORD

  /** `Missing` is the null pointer the parser returns where no expression starts; it can end
      up as the argument of a call written without arguments. */
  datatype Ast =
    | Missing
    | Void
    | Literal(token: Token)
    | Column(names: seq<string>)
    | Call(kind: CallKind, name: string, args: seq<Ast>)
    | Negate(operand: Ast)
    | Binary(op: Op, left: Ast, right: Ast)

  datatype Parsed = Ok(ast: Ast, rest: seq<Token>) | Error

  datatype ParsedArgs = OkArgs(args: seq<Ast>, rest: seq<Token>) | ErrorArgs

  /** The operator a token stands for. */
  function OpOf(t: Token): Option<Op> {
    match t
    case Symbol(EQUAL) => Some(Eq)
    case Symbol(NEQUAL) => Some(Neq)
    case Symbol(LT) => Some(Lt)
    case Symbol(LTE) => Some(Lte)
    case Symbol(GT) => Some(Gt)
    case Symbol(GTE) => Some(Gte)
    case Symbol(PLUS) => Some(Add)
    case Symbol(MINUS) => Some(Sub)
    case Symbol(ASTERISK) => Some(Mul)
    case Symbol(SLASH) => Some(Div)
    case Symbol(PERCENT) => Some(Mod)
    case Symbol(CIRCUMFLEX) => Some(Pow)
    case Keyword(w) =>
      if w == "AND" then Some(And) else if w == "OR" then Some(Or)
      else if w == "DIV" then Some(Div) else if w == "MOD" then Some(Mod) else None
    case _ => None
  }

  /** An operator is taken where the precedence asked for is below this level. */
  function Level(op: Op): nat {
    match op
    case Or => 1
    case And => 3
    case Eq | Neq | Lt | Lte | Gt | Gte => 6
    case Add | Sub => 10
    case Mul | Div | Mod => 11
    case Pow => 12
  }

  /** The precedence with which the right operand is parsed. Only `^` takes itself again. */
  function RightLevel(op: Op): nat {
    if op.Pow? then 11 else Level(op)
  }

  function Head(ts: seq<Token>): Token {
    if ts == [] then Eof else ts[0]
  }

  function Second(ts: seq<Token>): Token {
    if |ts| < 2 then Eof else ts[1]
  }

  predicate IsLiteral(t: Token) {
    t.Numeric? || t.Quoted? || t == Keyword("TRUE") || t == Keyword("FALSE")
  }

  predicate IsNegation(t: Token) {
    t == Symbol(BANG) || t == Symbol(MINUS) || t == Keyword("NOT")
  }

  function KindOf(name: string): CallKind {
    if name == "if" then IF_EXPR else if name == "subquery_column" then COLUMN_INDEX else METHOD_CALL
  }

  // ------------------------------------------------------------------
  // Parsing as a function of the tokens
  // ------------------------------------------------------------------

  function Expr(ts: seq<Token>, precedence: nat): (p: Parsed)
    ensures p.Ok? ==> |p.rest| <= |ts| && (p.ast != Missing ==> |p.rest| < |ts|)
    decreases |ts|, 3
  {
    var lhs := Unary(ts);
    if lhs.Error? || lhs.ast == Missing then lhs else Climb(lhs.ast, lhs.rest, precedence)
  }

  function Unary(ts: seq<Token>): (p: Parsed)
    ensures p.Ok? ==> |p.rest| <= |ts| && (p.ast != Missing ==> |p.rest| < |ts|)
    decreases |ts|, 2
  {
    if Head(ts) == Symbol(LPAREN) then
      var e := Expr(ts[1..], 0);
      if e.Ok? && Head(e.rest) == Symbol(RPAREN) && e.rest != [] then Ok(e.ast, e.rest[1..]) else Error
    else if IsNegation(Head(ts)) then
      var e := Expr(ts[1..], 0);
      if e.Ok? then Ok(Negate(e.ast), e.rest) else Error
    else if IsLiteral(Head(ts)) then Ok(Literal(ts[0]), ts[1..])
    else if Head(ts).Ident? then
      if Second(ts) == Symbol(DOT) then Dotted([ts[0].text], ts[1..])
      else if Second(ts) == Symbol(LPAREN) then MethodCall(ts)
      else Ok(Column([ts[0].text]), ts[1..])
    else Ok(Missing, ts)
  }

  /** The rest of a dotted column name, from a dot on. */
  function Dotted(names: seq<string>, ts: seq<Token>): (p: Parsed)
    ensures p.Ok? ==> |p.rest| <= |ts| && p.ast != Missing
    decreases |ts|, 0
  {
    if Head(ts) != Symbol(DOT) then Ok(Column(names), ts)
    else if !Second(ts).Ident? then Error
    else Dotted(names + [ts[1].text], ts[2..])
  }

  function MethodCall(ts: seq<Token>): (p: Parsed)
    requires |ts| >= 2 && ts[0].Ident?
    ensures p.Ok? ==> |p.rest| < |ts| && p.ast != Missing
    decreases |ts|, 1
  {
    var args := Args(ts[2..]);
    if args.ErrorArgs? || Head(args.rest) != Symbol(RPAREN) || args.rest == [] then Error
    else
      var rest := args.rest[1..];
      if Head(rest) == Keyword("WITHIN") && Second(rest) == Keyword("RECORD") then
        Ok(Call(METHOD_CALL_WITHIN_RECORD, ts[0].text, args.args), rest[2..])
      else Ok(Call(KindOf(ts[0].text), ts[0].text, args.args), rest)
  }

  function Args(ts: seq<Token>): (p: ParsedArgs)
    ensures p.OkArgs? ==> |p.rest| <= |ts| && p.args != []
    decreases |ts|, 5
  {
    var first := FirstArg(ts);
    if first.Error? then ErrorArgs
    else if Head(first.rest) == Symbol(COMMA) && first.rest != [] then
      Prefixed([first.ast], Args(first.rest[1..]))
    else OkArgs([first.ast], first.rest)
  }

  function FirstArg(ts: seq<Token>): (p: Parsed)
    ensures p.Ok? ==> |p.rest| <= |ts| && (p.ast != Missing ==> |p.rest| < |ts|)
    decreases |ts|, 4
  {
    if Head(ts) == Symbol(ASTERISK) then Ok(Void, ts[1..]) else Expr(ts, 0)
  }

  function Prefixed(args: seq<Ast>, p: ParsedArgs): ParsedArgs {
    if p.ErrorArgs? then ErrorArgs else OkArgs(args + p.args, p.rest)
  }

  lemma {:induction false} PrefixedTwice(a: seq<Ast>, b: seq<Ast>, p: ParsedArgs)
    ensures Prefixed(a, Prefixed(b, p)) == Prefixed(a + b, p)
  {
    if p.OkArgs? {
      assert a + (b + p.args) == (a + b) + p.args;
    }
  }

  /** `Args`, one argument at a time. */
  lemma {:induction false} ArgsUnfold(ts: seq<Token>)
    ensures var first := FirstArg(ts);
            Args(ts) ==
            if first.Error? then ErrorArgs
            else if Head(first.rest) == Symbol(COMMA) && first.rest != [] then
              Prefixed([first.ast], Args(first.rest[1..]))
            else OkArgs([first.ast], first.rest)
  {
  }

  /** The loop of `expr`: take operators as long as their level admits it. */
  function Climb(lhs: Ast, ts: seq<Token>, precedence: nat): (p: Parsed)
    requires lhs != Missing
    ensures p.Ok? ==> |p.rest| <= |ts| && p.ast != Missing
    decreases |ts|, 0
  {
    var op := OpOf(Head(ts));
    if op.None? || precedence >= Level(op.value) then Ok(lhs, ts)
    else
      var rhs := Expr(ts[1..], RightLevel(op.value));
      if rhs.Error? || rhs.ast == Missing then Error
      else Climb(Binary(op.value, lhs, rhs.ast), rhs.rest, precedence)
  }

  // ------------------------------------------------------------------
  // The cursor never passes the end
  // ------------------------------------------------------------------

  ghost predicate EndsInEof(ts: seq<Token>) {
    ts != [] && ts[|ts| - 1] == Eof && forall i :: 0 <= i < |ts| - 1 ==> ts[i] != Eof
  }

  lemma {:induction false} EofAfter(ts: seq<Token>)
    requires EndsInEof(ts) && Head(ts) != Eof
    ensures |ts| > 1 && EndsInEof(ts[1..])
  {
  }

  lemma {:induction false} EofAfterTwo(ts: seq<Token>)
    requires EndsInEof(ts) && Head(ts) != Eof && Second(ts) != Eof
    ensures |ts| > 2 && EndsInEof(ts[2..])
  {
    EofAfter(ts);
    EofAfter(ts[1..]);
    assert ts[1..][1..] == ts[2..];
  }

  lemma {:induction false} ExprStopsBeforeEof(ts: seq<Token>, precedence: nat)
    requires EndsInEof(ts)
    ensures var p := Expr(ts, precedence); p.Ok? ==> EndsInEof(p.rest)
    decreases |ts|, 3
  {
    UnaryStopsBeforeEof(ts);
    var lhs := Unary(ts);
    if lhs.Ok? && lhs.ast != Missing {
      ClimbStopsBeforeEof(lhs.ast, lhs.rest, precedence);
    }
  }

  lemma {:induction false} UnaryStopsBeforeEof(ts: seq<Token>)
    requires EndsInEof(ts)
    ensures var p := Unary(ts); p.Ok? ==> EndsInEof(p.rest)
    decreases |ts|, 2
  {
    if Head(ts) == Symbol(LPAREN) || IsNegation(Head(ts)) {
      EofAfter(ts);
      ExprStopsBeforeEof(ts[1..], 0);
      var e := Expr(ts[1..], 0);
      if e.Ok? && Head(e.rest) == Symbol(RPAREN) {
        EofAfter(e.rest);
      }
    } else if IsLiteral(Head(ts)) {
      EofAfter(ts);
    } else if Head(ts).Ident? {
      EofAfter(ts);
      if Second(ts) == Symbol(DOT) {
        DottedStopsBeforeEof([ts[0].text], ts[1..]);
      } else if Second(ts) == Symbol(LPAREN) {
        EofAfterTwo(ts);
        ArgsStopBeforeEof(ts[2..]);
        var args := Args(ts[2..]);
        if args.OkArgs? && Head(args.rest) == Symbol(RPAREN) {
          EofAfter(args.rest);
          var rest := args.rest[1..];
          if Head(rest) == Keyword("WITHIN") && Second(rest) == Keyword("RECORD") {
            EofAfterTwo(rest);
          }
        }
      }
    }
  }

  lemma {:induction false} DottedStopsBeforeEof(names: seq<string>, ts: seq<Token>)
    requires EndsInEof(ts)
    ensures var p := Dotted(names, ts); p.Ok? ==> EndsInEof(p.rest)
    decreases |ts|, 0
  {
    if Head(ts) == Symbol(DOT) && Second(ts).Ident? {
      EofAfterTwo(ts);
      DottedStopsBeforeEof(names + [ts[1].text], ts[2..]);
    }
  }

  lemma {:induction false} ArgsStopBeforeEof(ts: seq<Token>)
    requires EndsInEof(ts)
    ensures var p := Args(ts); p.OkArgs? ==> EndsInEof(p.rest)
    decreases |ts|, 5
  {
    if Head(ts) == Symbol(ASTERISK) {
      EofAfter(ts);
    } else {
      ExprStopsBeforeEof(ts, 0);
    }
    var first := FirstArg(ts);
    if first.Ok? && Head(first.rest) == Symbol(COMMA) {
      EofAfter(first.rest);
      ArgsStopBeforeEof(first.rest[1..]);
    }
  }

  lemma {:induction false} ClimbStopsBeforeEof(lhs: Ast, ts: seq<Token>, precedence: nat)
    requires EndsInEof(ts) && lhs != Missing
    ensures var p := Climb(lhs, ts, precedence); p.Ok? ==> EndsInEof(p.rest)
    decreases |ts|, 0
  {
    var op := OpOf(Head(ts));
    if op.Some? && precedence < Level(op.value) {
      EofAfter(ts);
      ExprStopsBeforeEof(ts[1..], RightLevel(op.value));
      var rhs := Expr(ts[1..], RightLevel(op.value));
      if rhs.Ok? && rhs.ast != Missing {
        ClimbStopsBeforeEof(Binary(op.value, lhs, rhs.ast), rhs.rest, precedence);
      }
    }
  }

  // ------------------------------------------------------------------
  // The parser
  // ------------------------------------------------------------------

  class Parser {
    const tokens: seq<Token>
    var cur: nat

    constructor (tokens: seq<Token>)
      ensures this.tokens == tokens && cur == 0
    {
      this.tokens, cur := tokens, 0;
    }

    /** The cursor is on a token; the last token is the end marker. */
    ghost predicate Valid()
      reads this
    {
      cur < |tokens| && EndsInEof(tokens[cur..])
    }

    ghost function Ahead(): seq<Token>
      requires cur <= |tokens|
      reads this
    {
      tokens[cur..]
    }

    /** A method left the cursor where the function leaves the tokens. */
    twostate predicate Follows(p: Parsed, ok: bool, ast: Ast)
      reads this
    {
      && ok == p.Ok?
      && (ok ==> Valid() && ast == p.ast && p.rest == Ahead())
    }

    /** Consuming is safe on any token but the end marker. */
    method ConsumeToken() returns (t: Token)
      requires Valid() && tokens[cur] != Eof
      modifies this`cur
      ensures Valid() && cur == old(cur) + 1 && t == tokens[old(cur)] && Ahead() == old(Ahead())[1..]
    {
      EofAfter(Ahead());
      t := tokens[cur];
      cur := cur + 1;
      assert tokens[cur..] == old(Ahead())[1..];
    }

    method Lookahead(n: nat, t: Token) returns (b: bool)
      requires Valid()
      ensures n == 0 ==> b == (Head(Ahead()) == t)
      ensures n == 1 && t != Eof ==> b == (Second(Ahead()) == t)
      ensures n == 2 ==> b == (|Ahead()| > 2 && Ahead()[2] == t)
    {
      b := cur + n < |tokens| && tokens[cur + n] == t;
    }

    method ConsumeIf(t: Token) returns (b: bool)
      requires Valid() && t != Eof
      modifies this`cur
      ensures Valid() && b == (Head(old(Ahead())) == t)
      ensures if b then cur == old(cur) + 1 && Ahead() == old(Ahead())[1..] else cur == old(cur)
    {
      b := tokens[cur] == t;
      if b {
        var _ := ConsumeToken();
      }
    }

    method ParseExpr(precedence: nat) returns (ok: bool, ast: Ast)
      requires Valid()
      modifies this`cur
      ensures Follows(Expr(old(Ahead()), precedence), ok, ast)
      decreases |tokens| - cur, 3
    {
      ghost var result := Expr(Ahead(), precedence);
      ok, ast := UnaryExpr();
      if !ok || ast == Missing {
        return;
      }
      while true
        invariant Valid() && ast != Missing && ok && cur > old(cur)
        invariant Climb(ast, Ahead(), precedence) == result
        decreases |tokens| - cur
      {
        var took, next;
        ghost var ahead := Ahead();
        took, ok, next := BinaryExpr(ast, precedence);
        if !ok || !took {
          return;
        }
        ast := next;
      }
    }

    /** Take one operator and its right operand, or refuse. */
    method BinaryExpr(lhs: Ast, precedence: nat) returns (took: bool, ok: bool, ast: Ast)
      requires Valid() && lhs != Missing
      modifies this`cur
      ensures ok && !took ==> cur == old(cur) && Climb(lhs, Ahead(), precedence) == Ok(lhs, Ahead())
      ensures ok && took ==>
                Valid() && ast != Missing && cur > old(cur)
                && Climb(lhs, old(Ahead()), precedence) == Climb(ast, Ahead(), precedence)
      ensures !ok ==> Climb(lhs, old(Ahead()), precedence) == Error
      decreases |tokens| - cur, 1
    {
      var op := OpOf(tokens[cur]);
      if op.None? || precedence >= Level(op.value) {
        return false, true, lhs;
      }
      var _ := ConsumeToken();
      var rhs;
      ok, rhs := ParseExpr(RightLevel(op.value));
      took := true;
      if ok && rhs == Missing {
        ok := false;
      }
      ast := Binary(op.value, lhs, rhs);
    }

    method UnaryExpr() returns (ok: bool, ast: Ast)
      requires Valid()
      modifies this`cur
      ensures Follows(Unary(old(Ahead())), ok, ast)
      ensures ok && ast != Missing ==> cur > old(cur)
      decreases |tokens| - cur, 2
    {
      var t := tokens[cur];
      ghost var ahead := Ahead();
      if t == Symbol(LPAREN) {
        var _ := ConsumeToken();
        ok, ast := ParseExpr(0);
        if ok {
          if tokens[cur] == Symbol(RPAREN) {
            var _ := ConsumeToken();
          } else {
            ok := false;
          }
        }
      } else if IsNegation(t) {
        var _ := ConsumeToken();
        ok, ast := ParseExpr(0);
        ast := Negate(ast);
      } else if IsLiteral(t) {
        var _ := ConsumeToken();
        ok, ast := true, Literal(t);
      } else if t.Ident? {
        var dot := Lookahead(1, Symbol(DOT));
        var paren := Lookahead(1, Symbol(LPAREN));
        if dot {
          ok, ast := DottedColumn();
        } else if paren {
          ok, ast := CallExpr();
        } else {
          var _ := ConsumeToken();
          ok, ast := true, Column([t.text]);
        }
      } else {
        ok, ast := true, Missing;
      }
    }

    method DottedColumn() returns (ok: bool, ast: Ast)
      requires Valid() && tokens[cur].Ident?
      modifies this`cur
      ensures Follows(Dotted([tokens[old(cur)].text], old(Ahead())[1..]), ok, ast)
      ensures ok ==> cur > old(cur)
    {
      var t := ConsumeToken();
      var names := [t.text];
      ghost var result := Dotted(names, Ahead());
      while tokens[cur] == Symbol(DOT)
        invariant Valid() && cur > old(cur)
        invariant Dotted(names, Ahead()) == result
        decreases |tokens| - cur
      {
        ghost var ahead := Ahead();
        var _ := ConsumeToken();
        if !tokens[cur].Ident? {
          return false, Missing;
        }
        t := ConsumeToken();
        names := names + [t.text];
        assert Ahead() == ahead[2..];
      }
      ok, ast := true, Column(names);
    }

    method CallExpr() returns (ok: bool, ast: Ast)
      requires Valid() && tokens[cur].Ident? && Second(Ahead()) == Symbol(LPAREN)
      modifies this`cur
      ensures Follows(MethodCall(old(Ahead())), ok, ast)
      ensures ok ==> cur > old(cur)
      decreases |tokens| - cur, 1
    {
      hide Expr, Unary, Climb, Args, Dotted, OpOf;
      ghost var ahead := Ahead();
      var name := ConsumeToken();
      assert Ahead() == ahead[1..];
      assert Ahead()[1..] == ahead[2..];
      var args;
      ok, args := CallArgs();
      if !ok {
        return false, Missing;
      }
      if tokens[cur] != Symbol(RPAREN) {
        return false, Missing;
      }
      var _ := ConsumeToken();
      ghost var rest := Ahead();
      var within := WithinRecord();
      ok := true;
      ast := Call(if within then METHOD_CALL_WITHIN_RECORD else KindOf(name.text), name.text, args);
    }

    /** The suffix that turns a call into one that aggregates within each record. */
    method WithinRecord() returns (within: bool)
      requires Valid()
      modifies this`cur
      ensures Valid() && cur >= old(cur)
      ensures within == (Head(old(Ahead())) == Keyword("WITHIN") && Second(old(Ahead())) == Keyword("RECORD"))
      ensures if within then cur == old(cur) + 2 else cur == old(cur)
      ensures within ==> |old(Ahead())| > 2 && Ahead() == old(Ahead())[2..]
    {
      ghost var ahead := Ahead();
      var first := Lookahead(0, Keyword("WITHIN"));
      var second := Lookahead(1, Keyword("RECORD"));
      within := first && second;
      if within {
        EofAfterTwo(ahead);
        var _ := ConsumeToken();
        var _ := ConsumeToken();
      }
    }

    /** The arguments of a call, each announced by the opening parenthesis or a comma. */
    method CallArgs() returns (ok: bool, args: seq<Ast>)
      requires Valid() && tokens[cur] == Symbol(LPAREN)
      modifies this`cur
      ensures ok == Args(old(Ahead())[1..]).OkArgs?
      ensures ok ==> Valid() && cur > old(cur) && Args(old(Ahead())[1..]) == OkArgs(args, Ahead())
      decreases |tokens| - cur, 0
    {
      hide Expr, Unary, Climb, Args, Dotted, MethodCall, OpOf;
      args := [];
      ok := true;
      ghost var result := Args(Ahead()[1..]);
      var more := true;
      while more
        invariant Valid() && cur >= old(cur) && (!more ==> cur > old(cur)) && ok
        invariant more ==> tokens[cur] != Eof && result == Prefixed(args, Args(Ahead()[1..]))
        invariant !more ==> result == OkArgs(args, Ahead())
        decreases |tokens| - cur, more
      {
        ghost var before := args;
        var _ := ConsumeToken();
        ghost var here := Ahead();
        var arg;
        ok, arg := Argument();
        ArgsUnfold(here);
        if !ok {
          return;
        }
        args := args + [arg];
        more := tokens[cur] == Symbol(COMMA);
        if more {
          PrefixedTwice(before, [arg], Args(Ahead()[1..]));
        }
      }
    }

    /** One argument: an asterisk or an expression, possibly missing. */
    method Argument() returns (ok: bool, ast: Ast)
      requires Valid()
      modifies this`cur
      ensures Follows(FirstArg(old(Ahead())), ok, ast)
      ensures ok ==> cur >= old(cur)
      decreases |tokens| - cur, 4
    {
      if tokens[cur] == Symbol(ASTERISK) {
        var _ := ConsumeToken();
        ok, ast := true, Void;
      } else {
        ok, ast := ParseExpr(0);
      }
    }
  }
}

/**
  Precedence climbing is right: every operator tree, written with only the parentheses that
  its levels require, is parsed back to exactly that tree, and the parser stops at the first
  operator it must refuse.
  */
module Precedence {
  import opened SqlParser

  function OpToken(op: Op): Token {
    match op
    case Eq => Symbol(EQUAL)
    case Neq => Symbol(NEQUAL)
    case Lt => Symbol(LT)
    case Lte => Symbol(LTE)
    case Gt => Symbol(GT)
    case Gte => Symbol(GTE)
    case And => Keyword("AND")
    case Or => Keyword("OR")
    case Add => Symbol(PLUS)
    case Sub => Symbol(MINUS)
    case Mul => Symbol(ASTERISK)
    case Div => Symbol(SLASH)
    case Mod => Symbol(PERCENT)
    case Pow => Symbol(CIRCUMFLEX)
  }

  /** Trees the parser can produce from complete text. */
  ghost predicate Printable(t: Ast) {
    match t
    case Missing => false
    case Void => false
    case Literal(token) => IsLiteral(token)
    case Column(names) => names != []
    case Call(kind, name, args) =>
      && args != []
      && (kind == METHOD_CALL_WITHIN_RECORD || kind == KindOf(name))
      && forall i :: 0 <= i < |args| ==> args[i] == Void || Printable(args[i])
    case Negate(operand) => Printable(operand)
    case Binary(_, l, r) => Printable(l) && Printable(r)
  }

  /** The right operand `t` of an operator that parses it with this precedence. */
  ghost predicate NeedsParentheses(t: Ast, precedence: nat) {
    t.Binary? && precedence >= Level(t.op)
  }

  /** The left operand would otherwise lose its right end to `op`. */
  ghost predicate LeftNeedsParentheses(t: Ast, op: Op) {
    t.Binary? && Level(op) > RightLevel(t.op)
  }

  ghost function Parenthesized(ts: seq<Token>): seq<Token> {
    [Symbol(LPAREN)] + ts + [Symbol(RPAREN)]
  }

  /** A tree as tokens, where the parser is called with the given precedence. */
  ghost function Print(t: Ast, precedence: nat): seq<Token>
    requires Printable(t)
    decreases t, 1
  {
    if NeedsParentheses(t, precedence) then Parenthesized(Bare(t)) else Bare(t)
  }

  ghost function Bare(t: Ast): seq<Token>
    requires Printable(t)
    decreases t, 0
  {
    match t
    case Literal(token) => [token]
    case Column(names) => PrintNames(names)
    case Call(kind, name, args) =>
      [Ident(name), Symbol(LPAREN)] + PrintArgs(args) + [Symbol(RPAREN)] + PrintSuffix(kind)
    case Negate(operand) => Parenthesized([Keyword("NOT")] + Print(operand, 0))
    case Binary(op, l, r) => PrintLeft(l, op) + [OpToken(op)] + Print(r, RightLevel(op))
  }

  ghost function PrintLeft(t: Ast, op: Op): seq<Token>
    requires Printable(t)
    decreases t, 1
  {
    if LeftNeedsParentheses(t, op) then Parenthesized(Bare(t)) else Bare(t)
  }

  ghost function PrintNames(names: seq<string>): seq<Token>
    requires names != []
  {
    [Ident(names[0])] + if |names| == 1 then [] else [Symbol(DOT)] + PrintNames(names[1..])
  }

  ghost function PrintSuffix(kind: CallKind): seq<Token> {
    if kind == METHOD_CALL_WITHIN_RECORD then [Keyword("WITHIN"), Keyword("RECORD")] else []
  }

  ghost function PrintArgs(args: seq<Ast>): seq<Token>
    requires args != [] && forall i :: 0 <= i < |args| ==> args[i] == Void || Printable(args[i])
    decreases args
  {
    (if args[0] == Void then [Symbol(ASTERISK)] else Print(args[0], 0))
    + if |args| == 1 then [] else [Symbol(COMMA)] + PrintArgs(args[1..])
  }

  /** The parser, asked for this precedence, refuses the next token as an operator. */
  ghost predicate Refused(rest: seq<Token>, precedence: nat) {
    var op := OpOf(Head(rest));
    op.None? || precedence >= Level(op.value)
  }

  /** The next token does not extend a name or a call. */
  ghost predicate Closed(rest: seq<Token>) {
    Head(rest) != Symbol(DOT) && Head(rest) != Symbol(LPAREN) && Head(rest) != Keyword("WITHIN")
  }

  // ------------------------------------------------------------------
  // Operands
  // ------------------------------------------------------------------

  lemma {:induction false} BareBinary(op: Op, l: Ast, r: Ast)
    requires Printable(l) && Printable(r)
    ensures Bare(Binary(op, l, r)) == PrintLeft(l, op) + ([OpToken(op)] + Print(r, RightLevel(op)))
  {
    hide Print, PrintLeft;
    var left := PrintLeft(l, op);
    assert left + [OpToken(op)] + Print(r, RightLevel(op)) == left + ([OpToken(op)] + Print(r, RightLevel(op)));
  }

  lemma {:induction false} PrintedLeft(t: Ast, op: Op)
    requires Printable(t) && !LeftNeedsParentheses(t, op)
    ensures PrintLeft(t, op) == Bare(t)
  {
  }

  lemma {:induction false} NamesParse(before: seq<string>, names: seq<string>, rest: seq<Token>)
    requires Closed(rest)
    ensures var ts := if names == [] then [] else [Symbol(DOT)] + PrintNames(names);
            Dotted(before, ts + rest) == Ok(Column(before + names), rest)
    decreases names
  {
    if names == [] {
      assert [] + rest == rest;
      assert before + [] == before;
    } else {
      var more := if |names| == 1 then [] else [Symbol(DOT)] + PrintNames(names[1..]);
      var ts := [Symbol(DOT)] + PrintNames(names) + rest;
      assert ts == [Symbol(DOT), Ident(names[0])] + (more + rest);
      NamesParse(before + [names[0]], names[1..], rest);
      assert before + [names[0]] + names[1..] == before + names;
      DottedStep(before, names[0], more + rest);
    }
  }

  lemma {:induction false} DottedStep(before: seq<string>, name: string, rest: seq<Token>)
    ensures Dotted(before, [Symbol(DOT), Ident(name)] + rest) == Dotted(before + [name], rest)
  {
    var ts := [Symbol(DOT), Ident(name)] + rest;
    assert ts[2..] == rest;
  }

  lemma {:induction false} ArgsParse(args: seq<Ast>, rest: seq<Token>)
    requires args != [] && forall i :: 0 <= i < |args| ==> args[i] == Void || Printable(args[i])
    requires Head(rest) == Symbol(RPAREN)
    ensures Args(PrintArgs(args) + rest) == OkArgs(args, rest)
    decreases args
  {
    hide Expr, Args;
    var first := if args[0] == Void then [Symbol(ASTERISK)] else Print(args[0], 0);
    var tail := if |args| == 1 then rest else [Symbol(COMMA)] + (PrintArgs(args[1..]) + rest);
    var ts := PrintArgs(args) + rest;
    assert ts == first + tail;
    if args[0] != Void {
      Parses(args[0], 0, tail);
      BareStart(args[0]);
      assert Print(args[0], 0)[0] != Symbol(ASTERISK);
      assert Head(ts) == Print(args[0], 0)[0];
    } else {
      assert ts[1..] == tail;
    }
    assert FirstArg(ts) == Ok(args[0], tail);
    if |args| > 1 {
      ArgsParse(args[1..], rest);
      assert tail[1..] == PrintArgs(args[1..]) + rest;
    }
    assert [args[0]] + args[1..] == args;
    ArgsUnfold(ts);
  }

  lemma {:induction false} BareStart(t: Ast)
    requires Printable(t)
    ensures Bare(t) != [] && Bare(t)[0] != Symbol(ASTERISK)
    decreases t
  {
    if t.Binary? {
      BareStart(t.left);
    }
  }

  /** Everything but a binary operator is read back as an operand. */
  lemma {:induction false} OperandParses(t: Ast, rest: seq<Token>)
    requires Printable(t) && !t.Binary? && Closed(rest)
    ensures Unary(Bare(t) + rest) == Ok(t, rest)
    decreases t, 1
  {
    hide Expr, Args, Print, PrintLeft, Climb, MethodCall;
    var ts := Bare(t) + rest;
    match t
    case Literal(token) =>
      assert ts[1..] == rest;
    case Column(names) =>
      var more := if |names| == 1 then [] else [Symbol(DOT)] + PrintNames(names[1..]);
      assert ts[1..] == more + rest;
      NamesParse([names[0]], names[1..], rest);
      assert [names[0]] + names[1..] == names;
    case Call(kind, name, args) =>
      CallParses(t, rest);
      assert ts[0] == Ident(name) && ts[1] == Symbol(LPAREN);
    case Negate(operand) =>
      NegationParses(operand, rest);
  }

  lemma {:induction false} CallParses(t: Ast, rest: seq<Token>)
    requires Printable(t) && t.Call? && Closed(rest)
    ensures var ts := Bare(t) + rest;
            |ts| >= 2 && ts[0] == Ident(t.name) && MethodCall(ts) == Ok(t, rest)
    decreases t, 0
  {
    hide Expr, Args, Print, Climb, PrintArgs;
    var ts := Bare(t) + rest;
    var suffix := PrintSuffix(t.kind);
    var tail := [Symbol(RPAREN)] + (suffix + rest);
    assert ts[2..] == PrintArgs(t.args) + tail;
    ArgsParse(t.args, tail);
    assert tail[1..] == suffix + rest;
    if t.kind == METHOD_CALL_WITHIN_RECORD {
      assert (suffix + rest)[2..] == rest;
    } else {
      assert suffix + rest == rest;
    }
  }

  lemma {:induction false} BareNegation(operand: Ast)
    requires Printable(operand)
    ensures Bare(Negate(operand)) == Parenthesized([Keyword("NOT")] + Print(operand, 0))
  {
    hide Print;
  }

  lemma {:induction false} NegationParses(operand: Ast, rest: seq<Token>)
    requires Printable(operand)
    ensures Unary(Bare(Negate(operand)) + rest) == Ok(Negate(operand), rest)
    decreases operand, 5
  {
    hide Args, Print, Climb, Bare;
    var ts := Bare(Negate(operand)) + rest;
    var close := [Symbol(RPAREN)] + rest;
    BareNegation(operand);
    var inner := [Keyword("NOT")] + (Print(operand, 0) + close);
    assert ts[1..] == inner;
    assert inner[1..] == Print(operand, 0) + close;
    Parses(operand, 0, close);
    assert Unary(inner) == Ok(Negate(operand), close);
    ClimbStops(Negate(operand), close, 0);
    assert Expr(inner, 0) == Ok(Negate(operand), close);
    assert close[1..] == rest;
  }

  lemma {:induction false} ClimbStops(t: Ast, rest: seq<Token>, precedence: nat)
    requires t != Missing && Refused(rest, precedence)
    ensures Climb(t, rest, precedence) == Ok(t, rest)
  {
  }

  /** A parenthesized tree is an operand. */
  lemma {:induction false} ParenthesizedParses(t: Ast, rest: seq<Token>)
    requires Printable(t)
    ensures Unary(Parenthesized(Bare(t)) + rest) == Ok(t, rest)
    decreases t, 3
  {
    hide Expr, Climb, Bare;
    var ts := Parenthesized(Bare(t)) + rest;
    var close := [Symbol(RPAREN)] + rest;
    assert ts[1..] == Bare(t) + close;
    assert close[1..] == rest;
    Spine(t, 0, close);
    ClimbStops(t, close, 0);
  }

  // ------------------------------------------------------------------
  // Operators
  // ------------------------------------------------------------------

  /** An operand, then the loop of `expr`. */
  lemma {:induction false} ExprAfterOperand(ts: seq<Token>, t: Ast, rest: seq<Token>, precedence: nat)
    requires t != Missing && Unary(ts) == Ok(t, rest)
    ensures Expr(ts, precedence) == Climb(t, rest, precedence)
  {
  }

  /** Reading a tree written without outer parentheses leaves the loop of `expr` holding it. */
  lemma {:induction false} Spine(t: Ast, precedence: nat, rest: seq<Token>)
    requires Printable(t) && Closed(rest)
    requires t.Binary? ==> precedence < Level(t.op) && Refused(rest, RightLevel(t.op))
    ensures Expr(Bare(t) + rest, precedence) == Climb(t, rest, precedence)
    decreases t, 2
  {
    hide Expr, Unary, Climb, Print, PrintLeft, Bare;
    if !t.Binary? {
      OperandParses(t, rest);
      ExprAfterOperand(Bare(t) + rest, t, rest, precedence);
    } else {
      var right := Print(t.right, RightLevel(t.op));
      var tail := [OpToken(t.op)] + (right + rest);
      BareBinary(t.op, t.left, t.right);
      assert Bare(t) + rest == PrintLeft(t.left, t.op) + tail;
      LeftParses(t.left, t.op, tail, precedence);
      RightParses(t, precedence, rest);
      assert tail[1..] == right + rest;
      TakeOperator(t, precedence, tail, rest);
    }
  }

  lemma {:induction false} LeftParses(l: Ast, op: Op, tail: seq<Token>, precedence: nat)
    requires Printable(l) && precedence < Level(op) && Head(tail) == OpToken(op)
    ensures Expr(PrintLeft(l, op) + tail, precedence) == Climb(l, tail, precedence)
    decreases l, 4
  {
    hide Expr, Unary, Climb, Bare;
    if LeftNeedsParentheses(l, op) {
      ParenthesizedParses(l, tail);
      ExprAfterOperand(PrintLeft(l, op) + tail, l, tail, precedence);
    } else {
      Spine(l, precedence, tail);
    }
  }

  lemma {:induction false} RightParses(t: Ast, precedence: nat, rest: seq<Token>)
    requires Printable(t) && t.Binary? && Closed(rest) && Refused(rest, RightLevel(t.op))
    ensures var p := RightLevel(t.op); Expr(Print(t.right, p) + rest, p) == Ok(t.right, rest)
    decreases t, 1
  {
    Parses(t.right, RightLevel(t.op), rest);
  }

  lemma {:induction false} TakeOperator(t: Ast, precedence: nat, tail: seq<Token>, rest: seq<Token>)
    requires t.Binary? && t.left != Missing && t.right != Missing && precedence < Level(t.op)
    requires tail != [] && tail[0] == OpToken(t.op) && Expr(tail[1..], RightLevel(t.op)) == Ok(t.right, rest)
    ensures Climb(t.left, tail, precedence) == Climb(t, rest, precedence)
  {
    hide Expr, Unary;
  }

  /** Text with only the parentheses required parses to exactly its tree, and the parser stops
      at an operator that the precedence refuses. */
  lemma {:induction false} Parses(t: Ast, precedence: nat, rest: seq<Token>)
    requires Printable(t) && Closed(rest) && Refused(rest, precedence)
    ensures Expr(Print(t, precedence) + rest, precedence) == Ok(t, rest)
    decreases t, 4
  {
    hide Expr, Unary, Climb, Bare;
    if NeedsParentheses(t, precedence) {
      ParenthesizedParses(t, rest);
      ExprAfterOperand(Print(t, precedence) + rest, t, rest, precedence);
    } else {
      Spine(t, precedence, rest);
    }
    ClimbStops(t, rest, precedence);
  }

  // ------------------------------------------------------------------
  // What the parentheses are for
  // ------------------------------------------------------------------

  /** `l op` written in front of the text of `r`: where `r` would have needed parentheses, `op`
      takes only the leftmost part of it. */
  ghost function Grafted(op: Op, l: Ast, r: Ast): Ast
    decreases r
  {
    if !NeedsParentheses(r, RightLevel(op)) then Binary(op, l, r)
    else if LeftNeedsParentheses(r.left, r.op) then Binary(r.op, Binary(op, l, r.left), r.right)
    else Binary(r.op, Grafted(op, l, r.left), r.right)
  }

  lemma {:induction false} GraftedText(op: Op, l: Ast, r: Ast)
    requires Printable(l) && Printable(r)
    ensures var g := Grafted(op, l, r);
            && Printable(g) && g.Binary?
            && (NeedsParentheses(r, RightLevel(op)) ==> g.op == r.op && LeftDepth(g) >= LeftDepth(l) + 2)
            && (!NeedsParentheses(r, RightLevel(op)) ==> g == Binary(op, l, r))
            && Bare(g) == PrintLeft(l, op) + ([OpToken(op)] + Bare(r))
    decreases r
  {
    hide Bare, PrintLeft, Print;
    BareBinary(op, l, r);
    if NeedsParentheses(r, RightLevel(op)) {
      var inner := if LeftNeedsParentheses(r.left, r.op) then Binary(op, l, r.left) else Grafted(op, l, r.left);
      assert Bare(inner) == PrintLeft(l, op) + ([OpToken(op)] + PrintLeft(r.left, r.op)) by {
        if LeftNeedsParentheses(r.left, r.op) {
          BareBinary(op, l, r.left);
          PrintedWrapped(r.left, r.op, RightLevel(op));
        } else {
          GraftedText(op, l, r.left);
          PrintedLeft(r.left, r.op);
        }
      }
      if !LeftNeedsParentheses(r.left, r.op) {
        GraftedText(op, l, r.left);
      }
      PrintedLeft(inner, r.op);
      JoinedText(op, l, inner, r.op, r.left, r.right);
    } else {
      PrintedRight(r, RightLevel(op));
    }
  }

  lemma {:induction false} PrintedWrapped(t: Ast, op: Op, precedence: nat)
    requires Printable(t) && LeftNeedsParentheses(t, op) && Level(op) <= precedence <= 11
    ensures Print(t, precedence) == PrintLeft(t, op)
  {
  }

  lemma {:induction false} PrintedRight(t: Ast, precedence: nat)
    requires Printable(t) && !NeedsParentheses(t, precedence)
    ensures Print(t, precedence) == Bare(t)
  {
  }

  /** The text of `l op r` for the two ways to bracket it. */
  lemma {:induction false} JoinedText(op: Op, l: Ast, inner: Ast, rop: Op, rl: Ast, rr: Ast)
    requires Printable(l) && Printable(rl) && Printable(rr) && Printable(inner)
    requires PrintLeft(inner, rop) == PrintLeft(l, op) + ([OpToken(op)] + PrintLeft(rl, rop))
    ensures Bare(Binary(rop, inner, rr)) == PrintLeft(l, op) + ([OpToken(op)] + Bare(Binary(rop, rl, rr)))
  {
    hide Bare, Print, PrintLeft, OpToken;
    BareBinary(rop, inner, rr);
    BareBinary(rop, rl, rr);
    Reassociate(PrintLeft(l, op), [OpToken(op)], PrintLeft(rl, rop), [OpToken(rop)] + Print(rr, RightLevel(rop)));
  }

  lemma {:induction false} Reassociate<T>(a: seq<T>, b: seq<T>, c: seq<T>, d: seq<T>)
    ensures (a + (b + c)) + d == a + (b + (c + d))
  {
  }

  /** Leaving out the parentheses of a right operand that needs them gives another tree. */
  lemma {:induction false} DroppedParenthesesRegroup(op: Op, l: Ast, r: Ast, precedence: nat, rest: seq<Token>)
    requires Printable(l) && Printable(r) && NeedsParentheses(r, RightLevel(op))
    requires precedence < Level(r.op) && Closed(rest) && Refused(rest, precedence)
    ensures Expr(PrintLeft(l, op) + ([OpToken(op)] + Bare(r)) + rest, precedence) == Ok(Grafted(op, l, r), rest)
    ensures Grafted(op, l, r) != Binary(op, l, r)
  {
    hide Expr, Unary, Climb, Bare, Print, PrintLeft, Grafted;
    GraftedText(op, l, r);
    Spine(Grafted(op, l, r), precedence, rest);
    ClimbStops(Grafted(op, l, r), rest, precedence);
    assert LeftDepth(Binary(op, l, r)) == 1 + LeftDepth(l);
  }

  ghost function LeftDepth(t: Ast): nat {
    if t.Binary? then 1 + LeftDepth(t.left) else 0
  }

  /** A prefix minus takes the whole expression behind it, whatever the operators there: the
      table of levels in the header file gives the unary minus a higher level than `^`. */
  lemma {:induction false} MinusTakesAll(t: Ast, precedence: nat, rest: seq<Token>)
    requires Printable(t) && Closed(rest) && Refused(rest, 0)
    ensures Expr([Symbol(MINUS)] + Print(t, 0) + rest, precedence) == Ok(Negate(t), rest)
  {
    hide Climb, Print;
    var ts := [Symbol(MINUS)] + Print(t, 0) + rest;
    assert ts[1..] == Print(t, 0) + rest;
    Parses(t, 0, rest);
    assert Unary(ts) == Ok(Negate(t), rest);
    ExprAfterOperand(ts, Negate(t), rest, precedence);
    ClimbStops(Negate(t), rest, precedence);
  }
}

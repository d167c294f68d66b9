/**
  Expressions that travel to another server as SQL text: `toSQL` prints them, and the other
  side tokenizes, parses and builds them again.
  */
module RemoteSql {
  import opened Wrappers
  import opened StringUtil
  import opened SqlTokenizer
  import P = SqlParser

  /** `Decimal` keeps the text of a literal with a decimal point. */
  datatype Value = Int(n: int) | Bool(b: bool) | Text(s: string) | Decimal(text: string) | Null

  datatype Node =
    | CallExpression(symbol: string, arguments: seq<Node>)
    | IfExpression(condition: Node, yes: Node, no: Node)
    | LiteralExpression(value: Value)
    | ColumnReference(name: string, index: Option<nat>)

  // ------------------------------------------------------------------
  // Printing
  // ------------------------------------------------------------------

  function ToSql(e: Node): string {
    match e
    case CallExpression(symbol, arguments) =>
      Format("$0($1)", [symbol, Joined(AllToSql(arguments), ",")])
    case IfExpression(c, y, n) => Format("if($0, $1, $2)", [ToSql(c), ToSql(y), ToSql(n)])
    case LiteralExpression(value) => ValueToSql(value)
    case ColumnReference(name, index) =>
      if name == "" && index.Some? then Format("subquery_column($0)", [ToString(index.value)]) else name
  }

  function AllToSql(es: seq<Node>): (sqls: seq<string>)
    ensures |sqls| == |es|
  {
    if es == [] then [] else [ToSql(es[0])] + AllToSql(es[1..])
  }

  function ValueToSql(v: Value): string {
    match v
    case Int(n) => if n < 0 then "-" + ToString(-n) else ToString(n)
    case Bool(b) => if b then "true" else "false"
    case Text(s) => Format("\"$0\"", [Replaced(s, "\"", "\\\"")])
    case Decimal(text) => text
    case Null => "NULL"
  }

  // ------------------------------------------------------------------
  // Building an expression from a tree
  // ------------------------------------------------------------------

  /** The identifier that a tree carries before it is resolved, read as an index. */
  const UNRESOLVED: nat := 0xFFFF_FFFF_FFFF_FFFF

  const LONG_LIMIT: int := 0x8000_0000_0000_0000

  function OperatorName(op: P.Op): string {
    match op
    case Eq => "eq"
    case Neq => "neq"
    case And => "logical_and"
    case Or => "logical_or"
    case Lt => "lt"
    case Lte => "lte"
    case Gt => "gt"
    case Gte => "gte"
    case Add => "add"
    case Sub => "sub"
    case Mul => "mul"
    case Div => "div"
    case Mod => "mod"
    case Pow => "pow"
  }

  /** None stands for an exception. */
  function Build(t: P.Ast): Option<Node> {
    match t
    case Missing => None
    case Void => Some(LiteralExpression(Text("void")))
    case Literal(token) => BuildLiteral(token)
    case Column(names) => Some(ColumnReference(Joined(names, "."), Some(UNRESOLVED)))
    case Negate(operand) =>
      var a := Build(operand);
      if a.None? then None else Some(CallExpression("neg", [a.value]))
    case Binary(op, l, r) =>
      var a, b := Build(l), Build(r);
      if a.None? || b.None? then None else Some(CallExpression(OperatorName(op), [a.value, b.value]))
    case Call(kind, name, args) =>
      if kind == P.COLUMN_INDEX then BuildColumnIndex(args)
      else if kind == P.IF_EXPR then BuildIf(BuildAll(args))
      else BuildCall(name, BuildAll(args))
  }

  function BuildAll(ts: seq<P.Ast>): Option<seq<Node>> {
    if ts == [] then Some([])
    else
      var first := Build(ts[0]);
      if first.None? then None
      else
        var more := BuildAll(ts[1..]);
        if more.None? then None else Some([first.value] + more.value)
  }

  function BuildCall(name: string, args: Option<seq<Node>>): Option<Node> {
    if args.None? then None else Some(CallExpression(name, args.value))
  }

  function BuildIf(args: Option<seq<Node>>): Option<Node> {
    if args.None? || |args.value| != 3 then None
    else Some(IfExpression(args.value[0], args.value[1], args.value[2]))
  }

  function BuildColumnIndex(args: seq<P.Ast>): Option<Node> {
    if |args| == 1 && args[0].Literal? && args[0].token.Numeric? then
      var index := GetInteger(args[0].token.text);
      if index.None? then None else Some(ColumnReference(ToString(index.value), index))
    else None
  }

  function BuildLiteral(token: P.Token): Option<Node> {
    match token
    case Keyword(word) =>
      if word == "TRUE" then Some(LiteralExpression(Bool(true)))
      else if word == "FALSE" then Some(LiteralExpression(Bool(false)))
      else None
    case Numeric(text) => NumericLiteral(text)
    case Quoted(text) => Some(LiteralExpression(Text(text)))
    case _ => None
  }

  function NumericLiteral(text: string): Option<Node> {
    if text != "" && AllDigits(text) then
      if ToNumber(text) < LONG_LIMIT then Some(LiteralExpression(Int(ToNumber(text)))) else None
    else if Dots(text) <= 1 then Some(LiteralExpression(Decimal(text)))
    else Some(LiteralExpression(Text(text)))
  }

  function Dots(s: string): nat {
    if s == "" then 0 else (if s[0] == '.' then 1 else 0) + Dots(s[1..])
  }

  // ------------------------------------------------------------------
  // The other side
  // ------------------------------------------------------------------

  /** Tokens behind the expression are ignored. */
  function Received(sql: string): Option<Node> {
    var tokens := Tokens(sql);
    if tokens == [] then None
    else
      var p := P.Expr(tokens + [P.Eof], 0);
      if p.Error? then None else Build(p.ast)
  }

  method ParseValueExpression(sql: string) returns (node: Option<Node>)
    ensures node == Received(sql)
  {
    var tokens := TokenizeQuery(sql);
    if tokens == [] {
      return None;
    }
    TokensNotEof(sql);
    var parser := new P.Parser(tokens + [P.Eof]);
    assert parser.tokens[0..] == tokens + [P.Eof];
    var ok, ast := parser.ParseExpr(0);
    if !ok || ast == P.Missing {
      return None;
    }
    node := Build(ast);
  }
}

/**
 The validator for custom output code: the part of Python's syntax tree it sees, the rules it
 enforces, and the visitor that enforces them while collecting the names a program assigns.
 */
module OutputSandbox {
  import opened Text

  datatype BinaryOp = Add | Sub | Mult | Div | Mod | Pow | FloorDiv | MatMult | Shift | Bitwise
  datatype UnaryOp = Not | UAdd | USub | Invert
  datatype CompareOp = Eq | NotEq | Gt | GtE | Lt | LtE | In | NotIn | Is | IsNot

  datatype Expr =
    | Constant(literal: int)
    | Name(id: string)
    | Dict(items: seq<Item>)
    | Sequence(isList: bool, elts: seq<Expr>)
    | Binary(op: BinaryOp, left: Expr, right: Expr)
    | Unary(uop: UnaryOp, operand: Expr)
    | Bool(isAnd: bool, operands: seq<Expr>)
    | Compare(first: Expr, ops: seq<CompareOp>, comparators: seq<Expr>)
    | IfExp(test: Expr, body: Expr, orelse: Expr)
    | Subscript(container: Expr, slice: Expr)
    | Call(func: Expr, args: seq<Expr>, keywords: seq<Keyword>)
    | Attribute(container: Expr, attr: string)
    | Walrus(target: string, value: Expr)
    | OtherExpr(kind: string)                               // lambda, comprehension, starred, slice, f-string, ...

  /** An entry of a dictionary display; without a key it is a ** entry. */
  datatype Item = Item(key: Option<Expr>, value: Expr)

  datatype Keyword = Keyword(arg: Option<string>, value: Expr)

  datatype Stmt =
    | Assign(targets: seq<Expr>, source: Expr)
    | If(test: Expr, body: seq<Stmt>, orelse: seq<Stmt>)
    | Pass
    | OtherStmt(kind: string)                               // def, for, while, import, del, a bare expression, ...

  /** The names a program may use without assigning them. */
  datatype Vocabulary = Vocabulary(context: set<string>, helpers: set<string>) {
    predicate Has(name: string) {
      name in context || name in helpers
    }
  }

  const SANDBOX := Vocabulary(
    {"payload", "status_code", "detail", "validation", "empty_value", "content_type", "headers", "query"},
    {"pick", "pick_first", "exists", "success", "text", "len", "bool", "int", "float", "str"})

  predicate AllowedBinary(op: BinaryOp) {
    op.Add? || op.Sub? || op.Mult? || op.Div? || op.Mod?
  }

  predicate AllowedUnary(op: UnaryOp) {
    !op.Invert?
  }

  datatype Problem =
    | EmptyCode
    | NoResult
    | BadStatement
    | EmptyIf
    | NotAName
    | PrivateName
    | ReservedName(name: string)
    | UnknownName(name: string)
    | BadOperator
    | BadCall
    | StarArguments
    | BadSyntax

  datatype Verdict = Accept | Reject(problem: Problem)

  // ---------------------------------------------------------------------------
  // The rules
  // ---------------------------------------------------------------------------

  predicate Known(W: Vocabulary, name: string, names: set<string>) {
    W.Has(name) || name in names
  }

  /** The first problem of an expression when `names` have been assigned in the text before it. */
  function CheckExpr(W: Vocabulary, e: Expr, names: set<string>): Verdict
    decreases e, 1
  {
    match e
    case Constant(_) => Accept
    case Name(id) => if Known(W, id, names) then Accept else Reject(UnknownName(id))
    case Dict(items) =>
      var v := CheckKeys(W, items, names);
      if v.Accept? then CheckValues(W, items, names) else v
    case Sequence(_, elts) => CheckAll(W, elts, names)
    case Binary(op, left, right) =>
      if !AllowedBinary(op) then Reject(BadOperator)
      else
        var v := CheckExpr(W, left, names);
        if v.Accept? then CheckExpr(W, right, names) else v
    case Unary(uop, operand) => if !AllowedUnary(uop) then Reject(BadOperator) else CheckExpr(W, operand, names)
    case Bool(_, operands) => CheckAll(W, operands, names)
    case Compare(first, _, comparators) =>
      var v := CheckExpr(W, first, names);
      if v.Accept? then CheckAll(W, comparators, names) else v
    case IfExp(test, body, orelse) =>
      var v := CheckExpr(W, test, names);
      if v.Reject? then v
      else
        var w := CheckExpr(W, body, names);
        if w.Accept? then CheckExpr(W, orelse, names) else w
    case Subscript(container, slice) =>
      var v := CheckExpr(W, container, names);
      if v.Accept? then CheckExpr(W, slice, names) else v
    case Call(func, args, keywords) =>
      if !(func.Name? && func.id in W.helpers) then Reject(BadCall)
      else
        var v := CheckAll(W, args, names);
        if v.Accept? then CheckKeywords(W, keywords, names) else v
    case Attribute(_, _) => Reject(BadSyntax)
    case Walrus(_, _) => Reject(BadSyntax)
    case OtherExpr(_) => Reject(BadSyntax)
  }

  function CheckAll(W: Vocabulary, es: seq<Expr>, names: set<string>): Verdict
    decreases es, 0
  {
    if es == [] then Accept
    else
      var v := CheckExpr(W, es[0], names);
      if v.Accept? then CheckAll(W, es[1..], names) else v
  }

  function CheckKeys(W: Vocabulary, items: seq<Item>, names: set<string>): Verdict
    decreases items, 0
  {
    if items == [] then Accept
    else
      var v := CheckKey(W, items[0], names);
      if v.Accept? then CheckKeys(W, items[1..], names) else v
  }

  function CheckKey(W: Vocabulary, item: Item, names: set<string>): Verdict
    decreases item, 0
  {
    match item
    case Item(None, _) => Accept
    case Item(Some(key), _) => CheckExpr(W, key, names)
  }

  function CheckValues(W: Vocabulary, items: seq<Item>, names: set<string>): Verdict
    decreases items, 0
  {
    if items == [] then Accept
    else
      var v := CheckValue(W, items[0], names);
      if v.Accept? then CheckValues(W, items[1..], names) else v
  }

  function CheckValue(W: Vocabulary, item: Item, names: set<string>): Verdict
    decreases item, 0
  {
    CheckExpr(W, item.value, names)
  }

  function CheckKeywords(W: Vocabulary, keywords: seq<Keyword>, names: set<string>): Verdict
    decreases keywords, 0
  {
    if keywords == [] then Accept
    else
      var v := CheckKeyword(W, keywords[0], names);
      if v.Accept? then CheckKeywords(W, keywords[1..], names) else v
  }

  function CheckKeyword(W: Vocabulary, keyword: Keyword, names: set<string>): Verdict
    decreases keyword, 0
  {
    if keyword.arg.None? then Reject(StarArguments) else CheckExpr(W, keyword.value, names)
  }

  predicate Private(name: string) {
    name == "" || name[0] == '_'
  }

  /** Identifiers carry no blanks, so the visitor's strip() of a target leaves it alone. */
  function CheckTarget(W: Vocabulary, target: Expr): Verdict {
    if !target.Name? then Reject(NotAName)
    else if Private(target.id) then Reject(PrivateName)
    else if W.Has(target.id) then Reject(ReservedName(target.id))
    else Accept
  }

  /** A verdict, and the names collected when it was reached. */
  datatype Checked = Checked(verdict: Verdict, names: set<string>)

  function CheckTargets(W: Vocabulary, targets: seq<Expr>, names: set<string>): Checked {
    if targets == [] then Checked(Accept, names)
    else
      var v := CheckTarget(W, targets[0]);
      if v.Accept? then CheckTargets(W, targets[1..], names + {targets[0].id}) else Checked(v, names)
  }

  function CheckStmt(W: Vocabulary, s: Stmt, names: set<string>): Checked
    decreases s, 1
  {
    match s
    case Assign(targets, source) =>
      var c := CheckTargets(W, targets, names);
      if c.verdict.Accept? then Checked(CheckExpr(W, source, c.names), c.names) else c
    case If(test, body, orelse) =>
      var v := CheckExpr(W, test, names);
      if v.Reject? then Checked(v, names)
      else if body == [] then Checked(Reject(EmptyIf), names)
      else
        var c := CheckStmts(W, body, names);
        if c.verdict.Accept? then CheckStmts(W, orelse, c.names) else c
    case Pass => Checked(Accept, names)
    case OtherStmt(_) => Checked(Reject(BadStatement), names)
  }

  function CheckStmts(W: Vocabulary, stmts: seq<Stmt>, names: set<string>): Checked
    decreases stmts, 0
  {
    if stmts == [] then Checked(Accept, names)
    else
      var c := CheckStmt(W, stmts[0], names);
      if c.verdict.Accept? then CheckStmts(W, stmts[1..], c.names) else c
  }

  function CheckModule(W: Vocabulary, body: seq<Stmt>, names: set<string>): Checked {
    if body == [] then Checked(Reject(EmptyCode), names)
    else
      var c := CheckStmts(W, body, names);
      if c.verdict.Accept? && "result" !in c.names then Checked(Reject(NoResult), c.names) else c
  }

  // ---------------------------------------------------------------------------
  // The visitor
  // ---------------------------------------------------------------------------

  class CustomOutputValidator {
    var assignedNames: set<string>

    constructor ()
      ensures assignedNames == {}
    {
      assignedNames := {};
    }

    method Validate(body: seq<Stmt>) returns (v: Verdict)
      modifies this
      ensures Checked(v, assignedNames) == CheckModule(SANDBOX, body, old(assignedNames))
    {
      if body == [] {
        return Reject(EmptyCode);
      }
      v := ValidateStatements(body);
      if v.Accept? && "result" !in assignedNames {
        v := Reject(NoResult);
      }
    }

    method ValidateStatements(stmts: seq<Stmt>) returns (v: Verdict)
      modifies this
      ensures Checked(v, assignedNames) == CheckStmts(SANDBOX, stmts, old(assignedNames))
      decreases stmts, 0
    {
      for i := 0 to |stmts|
        invariant CheckStmts(SANDBOX, stmts, old(assignedNames)) == CheckStmts(SANDBOX, stmts[i..], assignedNames)
      {
        v := ValidateStatement(stmts[i]);
        if v.Reject? {
          return;
        }
        assert stmts[i..][1..] == stmts[i + 1..];
      }
      v := Accept;
    }

    method ValidateStatement(node: Stmt) returns (v: Verdict)
      modifies this
      ensures Checked(v, assignedNames) == CheckStmt(SANDBOX, node, old(assignedNames))
      decreases node, 1
    {
      match node
      case Assign(targets, source) =>
        for i := 0 to |targets|
          invariant CheckTargets(SANDBOX, targets, old(assignedNames)) == CheckTargets(SANDBOX, targets[i..], assignedNames)
        {
          v := ValidateTarget(targets[i]);
          if v.Reject? {
            return;
          }
          assert targets[i..][1..] == targets[i + 1..];
        }
        v := ValidateExpression(source);
      case If(test, body, orelse) =>
        v := ValidateExpression(test);
        if v.Reject? {
          return;
        }
        if body == [] {
          return Reject(EmptyIf);
        }
        v := ValidateStatements(body);
        if v.Accept? {
          v := ValidateStatements(orelse);
        }
      case Pass => v := Accept;
      case OtherStmt(_) => v := Reject(BadStatement);
    }

    method ValidateTarget(node: Expr) returns (v: Verdict)
      modifies this
      ensures v == CheckTarget(SANDBOX, node)
      ensures assignedNames == if v.Accept? then old(assignedNames) + {node.id} else old(assignedNames)
    {
      if !node.Name? {
        return Reject(NotAName);
      }
      if node.id == "" || node.id[0] == '_' {
        return Reject(PrivateName);
      }
      if SANDBOX.Has(node.id) {
        return Reject(ReservedName(node.id));
      }
      assignedNames := assignedNames + {node.id};
      v := Accept;
    }

    method ValidateAll(nodes: seq<Expr>) returns (v: Verdict)
      ensures v == CheckAll(SANDBOX, nodes, assignedNames)
      decreases nodes, 0
    {
      for i := 0 to |nodes|
        invariant CheckAll(SANDBOX, nodes, assignedNames) == CheckAll(SANDBOX, nodes[i..], assignedNames)
      {
        v := ValidateExpression(nodes[i]);
        if v.Reject? {
          return;
        }
        assert nodes[i..][1..] == nodes[i + 1..];
      }
      v := Accept;
    }

    method ValidateExpression(node: Expr) returns (v: Verdict)
      ensures v == CheckExpr(SANDBOX, node, assignedNames)
      decreases node, 1
    {
      match node
      case Constant(_) => v := Accept;
      case Name(id) => v := if Known(SANDBOX, id, assignedNames) then Accept else Reject(UnknownName(id));
      case Dict(items) =>
        for i := 0 to |items|
          invariant CheckKeys(SANDBOX, items, assignedNames) == CheckKeys(SANDBOX, items[i..], assignedNames)
        {
          if items[i].key.Some? {
            v := ValidateExpression(items[i].key.value);
            if v.Reject? {
              return;
            }
          }
          assert items[i..][1..] == items[i + 1..];
        }
        for i := 0 to |items|
          invariant CheckValues(SANDBOX, items, assignedNames) == CheckValues(SANDBOX, items[i..], assignedNames)
        {
          v := ValidateExpression(items[i].value);
          if v.Reject? {
            return;
          }
          assert items[i..][1..] == items[i + 1..];
        }
        v := Accept;
      case Sequence(_, elts) => v := ValidateAll(elts);
      case Binary(op, left, right) =>
        if !AllowedBinary(op) {
          return Reject(BadOperator);
        }
        v := ValidateExpression(left);
        if v.Accept? {
          v := ValidateExpression(right);
        }
      case Unary(uop, operand) =>
        if !AllowedUnary(uop) {
          return Reject(BadOperator);
        }
        v := ValidateExpression(operand);
      case Bool(_, operands) => v := ValidateAll(operands);
      case Compare(first, _, comparators) =>
        v := ValidateExpression(first);
        if v.Accept? {
          v := ValidateAll(comparators);
        }
      case IfExp(test, body, orelse) =>
        v := ValidateExpression(test);
        if v.Accept? {
          v := ValidateExpression(body);
        }
        if v.Accept? {
          v := ValidateExpression(orelse);
        }
      case Subscript(container, slice) =>
        v := ValidateExpression(container);
        if v.Accept? {
          v := ValidateExpression(slice);
        }
      case Call(func, args, keywords) =>
        if !func.Name? || func.id !in SANDBOX.helpers {
          return Reject(BadCall);
        }
        v := ValidateAll(args);
        if v.Reject? {
          return;
        }
        for i := 0 to |keywords|
          invariant CheckKeywords(SANDBOX, keywords, assignedNames) == CheckKeywords(SANDBOX, keywords[i..], assignedNames)
        {
          if keywords[i].arg.None? {
            return Reject(StarArguments);
          }
          v := ValidateExpression(keywords[i].value);
          if v.Reject? {
            return;
          }
          assert keywords[i..][1..] == keywords[i + 1..];
        }
        v := Accept;
      case Attribute(_, _) => v := Reject(BadSyntax);
      case Walrus(_, _) => v := Reject(BadSyntax);
      case OtherExpr(_) => v := Reject(BadSyntax);
    }
  }
}

/**
 Exactly which custom output code the validator accepts: every node of every expression is judged by its
 own kind, and every statement of the text by its own form and the names assigned before it.
 */
module OutputSandboxAccepts {
  import opened Text
  import opened OutputSandbox
  import opened OutputSandboxRun
  import opened OutputSandboxSound

  // ---------------------------------------------------------------------------
  // The nodes of an expression
  // ---------------------------------------------------------------------------

  /** An expression and all its subexpressions. */
  function Nodes(e: Expr): set<Expr>
    decreases e, 1
  {
    {e} + match e
          case Constant(_) => {}
          case Name(_) => {}
          case Dict(items) => ItemNodes(items)
          case Sequence(_, elts) => AllNodes(elts)
          case Binary(_, left, right) => Nodes(left) + Nodes(right)
          case Unary(_, operand) => Nodes(operand)
          case Bool(_, operands) => AllNodes(operands)
          case Compare(first, _, comparators) => Nodes(first) + AllNodes(comparators)
          case IfExp(test, body, orelse) => Nodes(test) + Nodes(body) + Nodes(orelse)
          case Subscript(container, slice) => Nodes(container) + Nodes(slice)
          case Call(func, args, keywords) => Nodes(func) + AllNodes(args) + KeywordNodes(keywords)
          case Attribute(container, _) => Nodes(container)
          case Walrus(_, value) => Nodes(value)
          case OtherExpr(_) => {}
  }

  function AllNodes(es: seq<Expr>): set<Expr>
    decreases es, 0
  {
    if es == [] then {} else Nodes(es[0]) + AllNodes(es[1..])
  }

  function ItemNodes(items: seq<Item>): set<Expr>
    decreases items, 0
  {
    if items == [] then {} else NodesOfItem(items[0]) + ItemNodes(items[1..])
  }

  function NodesOfItem(item: Item): set<Expr>
    decreases item, 0
  {
    Nodes(item.value) + match item.key case Some(key) => Nodes(key) case None => {}
  }

  function KeywordNodes(keywords: seq<Keyword>): set<Expr>
    decreases keywords, 0
  {
    if keywords == [] then {} else NodesOfKeyword(keywords[0]) + KeywordNodes(keywords[1..])
  }

  function NodesOfKeyword(keyword: Keyword): set<Expr>
    decreases keyword, 0
  {
    Nodes(keyword.value)
  }

  lemma {:induction false} AllNodesAre(es: seq<Expr>, n: Expr)
    ensures n in AllNodes(es) <==> exists c :: c in es && n in Nodes(c)
  {
    if es != [] {
      AllNodesAre(es[1..], n);
      assert es[0] in es && forall c :: c in es <==> c == es[0] || c in es[1..];
    }
  }

  lemma {:induction false} ItemNodesAre(items: seq<Item>, n: Expr)
    ensures n in ItemNodes(items)
            <==> exists i :: i in items && (n in Nodes(i.value) || (i.key.Some? && n in Nodes(i.key.value)))
  {
    if items != [] {
      ItemNodesAre(items[1..], n);
      assert items == [items[0]] + items[1..];
    }
  }

  lemma {:induction false} KeywordNodesAre(keywords: seq<Keyword>, n: Expr)
    ensures n in KeywordNodes(keywords) <==> exists k :: k in keywords && n in Nodes(k.value)
  {
    if keywords != [] {
      KeywordNodesAre(keywords[1..], n);
      assert keywords == [keywords[0]] + keywords[1..];
    }
  }

  /** The nodes of an expression are itself and the nodes of its parts. */
  lemma NodesTheorem(e: Expr, n: Expr)
    ensures n in Nodes(e) <==>
              n == e
              || match e
                 case Constant(_) => false
                 case Name(_) => false
                 case Dict(items) =>
                   exists i :: i in items && (n in Nodes(i.value) || (i.key.Some? && n in Nodes(i.key.value)))
                 case Sequence(_, elts) => exists c :: c in elts && n in Nodes(c)
                 case Binary(_, left, right) => n in Nodes(left) || n in Nodes(right)
                 case Unary(_, operand) => n in Nodes(operand)
                 case Bool(_, operands) => exists c :: c in operands && n in Nodes(c)
                 case Compare(first, _, comparators) => n in Nodes(first) || exists c :: c in comparators && n in Nodes(c)
                 case IfExp(test, body, orelse) => n in Nodes(test) || n in Nodes(body) || n in Nodes(orelse)
                 case Subscript(container, slice) => n in Nodes(container) || n in Nodes(slice)
                 case Call(func, args, keywords) =>
                   || n in Nodes(func)
                   || (exists c :: c in args && n in Nodes(c))
                   || exists k :: k in keywords && n in Nodes(k.value)
                 case Attribute(container, _) => n in Nodes(container)
                 case Walrus(_, value) => n in Nodes(value)
                 case OtherExpr(_) => false
  {
    match e
    case Dict(items) => ItemNodesAre(items, n);
    case Sequence(_, elts) => AllNodesAre(elts, n);
    case Bool(_, operands) => AllNodesAre(operands, n);
    case Compare(_, _, comparators) => AllNodesAre(comparators, n);
    case Call(_, args, keywords) =>
      AllNodesAre(args, n);
      KeywordNodesAre(keywords, n);
    case _ =>
  }

  // ---------------------------------------------------------------------------
  // Which expressions are accepted
  // ---------------------------------------------------------------------------

  /** A node that is allowed, whatever is inside it. */
  predicate Fine(W: Vocabulary, n: Expr, names: set<string>) {
    match n
    case Name(id) => id in W.context || id in W.helpers || id in names
    case Binary(op, _, _) => op.Add? || op.Sub? || op.Mult? || op.Div? || op.Mod?
    case Unary(uop, _) => uop.Not? || uop.UAdd? || uop.USub?
    case Call(func, _, keywords) => func.Name? && func.id in W.helpers && forall k :: k in keywords ==> k.arg.Some?
    case Attribute(_, _) => false
    case Walrus(_, _) => false
    case OtherExpr(_) => false
    case _ => true
  }

  ghost predicate AllFine(W: Vocabulary, nodes: set<Expr>, names: set<string>) {
    forall n :: n in nodes ==> Fine(W, n, names)
  }

  lemma {:induction false} ExprIsFine(W: Vocabulary, e: Expr, names: set<string>)
    ensures CheckExpr(W, e, names).Accept? <==> AllFine(W, Nodes(e), names)
    decreases e, 1
  {
    assert e in Nodes(e);
    match e
    case Constant(_) =>
    case Name(_) =>
    case Dict(items) => ItemsAreFine(W, items, names);
    case Sequence(_, elts) => AllAreFine(W, elts, names);
    case Binary(_, left, right) =>
      ExprIsFine(W, left, names);
      ExprIsFine(W, right, names);
    case Unary(_, operand) => ExprIsFine(W, operand, names);
    case Bool(_, operands) => AllAreFine(W, operands, names);
    case Compare(first, _, comparators) =>
      ExprIsFine(W, first, names);
      AllAreFine(W, comparators, names);
    case IfExp(test, body, orelse) =>
      ExprIsFine(W, test, names);
      ExprIsFine(W, body, names);
      ExprIsFine(W, orelse, names);
    case Subscript(container, slice) =>
      ExprIsFine(W, container, names);
      ExprIsFine(W, slice, names);
    case Call(func, args, keywords) => CallIsFine(W, e, names);
    case Attribute(_, _) =>
    case Walrus(_, _) =>
    case OtherExpr(_) =>
  }

  lemma {:induction false} CallIsFine(W: Vocabulary, e: Expr, names: set<string>)
    requires e.Call?
    ensures CheckExpr(W, e, names).Accept? <==> AllFine(W, Nodes(e), names)
    decreases e, 0
  {
    assert e in Nodes(e);
    AllAreFine(W, e.args, names);
    KeywordsAreFine(W, e.keywords, names);
    if e.func.Name? {
      assert Nodes(e.func) == {e.func};
    }
  }

  lemma {:induction false} AllAreFine(W: Vocabulary, es: seq<Expr>, names: set<string>)
    ensures CheckAll(W, es, names).Accept? <==> AllFine(W, AllNodes(es), names)
    decreases es, 0
  {
    if es != [] {
      ExprIsFine(W, es[0], names);
      AllAreFine(W, es[1..], names);
    }
  }

  lemma {:induction false} ItemsAreFine(W: Vocabulary, items: seq<Item>, names: set<string>)
    ensures CheckKeys(W, items, names).Accept? && CheckValues(W, items, names).Accept?
            <==> AllFine(W, ItemNodes(items), names)
    decreases items, 0
  {
    if items != [] {
      ItemIsFine(W, items[0], names);
      ItemsAreFine(W, items[1..], names);
    }
  }

  lemma {:induction false} ItemIsFine(W: Vocabulary, item: Item, names: set<string>)
    ensures CheckKey(W, item, names).Accept? && CheckValue(W, item, names).Accept?
            <==> AllFine(W, NodesOfItem(item), names)
    decreases item, 0
  {
    ExprIsFine(W, item.value, names);
    if item.key.Some? {
      ExprIsFine(W, item.key.value, names);
    }
  }

  lemma {:induction false} KeywordsAreFine(W: Vocabulary, keywords: seq<Keyword>, names: set<string>)
    ensures CheckKeywords(W, keywords, names).Accept?
            <==> (forall k :: k in keywords ==> k.arg.Some?) && AllFine(W, KeywordNodes(keywords), names)
    decreases keywords, 0
  {
    if keywords != [] {
      KeywordIsFine(W, keywords[0], names);
      KeywordsAreFine(W, keywords[1..], names);
      assert keywords == [keywords[0]] + keywords[1..];
    }
  }

  lemma {:induction false} KeywordIsFine(W: Vocabulary, keyword: Keyword, names: set<string>)
    ensures CheckKeyword(W, keyword, names).Accept? <==> keyword.arg.Some? && AllFine(W, NodesOfKeyword(keyword), names)
    decreases keyword, 0
  {
    ExprIsFine(W, keyword.value, names);
  }

  /**
   An expression is accepted exactly when all its nodes are: names that are known, arithmetic of the five
   kinds, `not` and signs, calls of helpers by name without star arguments; and no attribute access, no
   assignment expression and no other syntax. Literals, displays, `and`, `or`, comparisons, conditional
   expressions and subscripts are always fine themselves.
   */
  lemma ExpressionTheorem(W: Vocabulary, e: Expr, names: set<string>)
    ensures CheckExpr(W, e, names).Accept?
            <==> forall n :: n in Nodes(e) ==>
                   match n
                   case Constant(_) => true
                   case Name(id) => id in W.context || id in W.helpers || id in names
                   case Dict(_) => true
                   case Sequence(_, _) => true
                   case Binary(op, _, _) => op.Add? || op.Sub? || op.Mult? || op.Div? || op.Mod?
                   case Unary(uop, _) => uop.Not? || uop.UAdd? || uop.USub?
                   case Bool(_, _) => true
                   case Compare(_, _, _) => true
                   case IfExp(_, _, _) => true
                   case Subscript(_, _) => true
                   case Call(func, _, keywords) =>
                     func.Name? && func.id in W.helpers && forall k :: k in keywords ==> k.arg.Some?
                   case Attribute(_, _) => false
                   case Walrus(_, _) => false
                   case OtherExpr(_) => false
  {
    ExprIsFine(W, e, names);
  }

  // ---------------------------------------------------------------------------
  // Which statements are accepted
  // ---------------------------------------------------------------------------

  /** A target that may be assigned. */
  predicate FineTarget(W: Vocabulary, t: Expr) {
    t.Name? && t.id != "" && t.id[0] != '_' && t.id !in W.context && t.id !in W.helpers
  }

  /** A statement that is allowed, whatever blocks are inside it; `names` holds its own targets, too. */
  ghost predicate FineStmt(W: Vocabulary, s: Stmt, names: set<string>) {
    match s
    case Assign(targets, source) => (forall t :: t in targets ==> FineTarget(W, t)) && CheckExpr(W, source, names).Accept?
    case If(test, body, _) => body != [] && CheckExpr(W, test, names).Accept?
    case Pass => true
    case OtherStmt(_) => false
  }

  ghost predicate FineText(W: Vocabulary, text: seq<Stmt>, names: set<string>) {
    text == []
    || (FineStmt(W, text[0], names + Assigned(text[0])) && FineText(W, text[1..], names + Assigned(text[0])))
  }

  lemma {:induction false} FineConcat(W: Vocabulary, a: seq<Stmt>, b: seq<Stmt>, names: set<string>)
    ensures FineText(W, a + b, names) <==> FineText(W, a, names) && FineText(W, b, names + AssignedIn(a))
  {
    if a == [] {
      assert a + b == b && names + {} == names;
    } else {
      assert (a + b)[1..] == a[1..] + b;
      FineConcat(W, a[1..], b, names + Assigned(a[0]));
      assert names + Assigned(a[0]) + AssignedIn(a[1..]) == names + AssignedIn(a);
    }
  }

  lemma {:induction false} TargetsAreFine(W: Vocabulary, targets: seq<Expr>, names: set<string>)
    ensures CheckTargets(W, targets, names).verdict.Accept? <==> forall t :: t in targets ==> FineTarget(W, t)
  {
    if targets != [] {
      assert targets[0] in targets && forall t :: t in targets <==> t == targets[0] || t in targets[1..];
      if CheckTarget(W, targets[0]).Accept? {
        TargetsAreFine(W, targets[1..], names + {targets[0].id});
      } else {
        assert !FineTarget(W, targets[0]);
      }
    }
  }

  lemma FineOne(W: Vocabulary, s: Stmt, rest: seq<Stmt>, names: set<string>)
    ensures FineText(W, [s] + rest, names)
            <==> FineStmt(W, s, names + Assigned(s)) && FineText(W, rest, names + Assigned(s))
  {
    assert ([s] + rest)[1..] == rest;
  }

  lemma {:induction false} StatementIsFine(W: Vocabulary, s: Stmt, names: set<string>)
    ensures CheckStmt(W, s, names).verdict.Accept? <==> FineText(W, [s] + Inside(s), names)
    decreases s, 1
  {
    FineOne(W, s, Inside(s), names);
    match s
    case Assign(targets, _) =>
      TargetsAreFine(W, targets, names);
      if CheckTargets(W, targets, names).verdict.Accept? {
        TargetsCollect(W, targets, names);
      }
    case If(test, body, orelse) =>
      assert names + {} == names;
      BlockIsFine(W, body, names);
      FineConcat(W, InText(body), InText(orelse), names);
      if CheckStmts(W, body, names).verdict.Accept? {
        BlockCollects(W, body, names);
        BlockIsFine(W, orelse, CheckStmts(W, body, names).names);
      }
    case Pass =>
    case OtherStmt(_) =>
  }

  lemma {:induction false} BlockIsFine(W: Vocabulary, stmts: seq<Stmt>, names: set<string>)
    ensures CheckStmts(W, stmts, names).verdict.Accept? <==> FineText(W, InText(stmts), names)
    decreases stmts, 0
  {
    if stmts != [] {
      var s := stmts[0];
      StatementIsFine(W, s, names);
      FineConcat(W, [s] + Inside(s), InText(stmts[1..]), names);
      if CheckStmt(W, s, names).verdict.Accept? {
        FirstAssigns(W, s, names);
        BlockIsFine(W, stmts[1..], CheckStmt(W, s, names).names);
      }
    }
  }

  lemma FineLast(W: Vocabulary, front: seq<Stmt>, s: Stmt, names: set<string>)
    ensures FineText(W, front + [s], names)
            <==> FineText(W, front, names) && FineStmt(W, s, names + AssignedIn(front + [s]))
  {
    FineConcat(W, front, [s], names);
    FineOne(W, s, [], names + AssignedIn(front));
    LastAssigns(front, s);
    assert [s] + [] == [s];
    assert names + AssignedIn(front) + Assigned(s) == names + AssignedIn(front + [s]);
  }

  lemma {:induction false} FineAt(W: Vocabulary, text: seq<Stmt>, names: set<string>)
    ensures FineText(W, text, names)
            <==> forall i :: 0 <= i < |text| ==> FineStmt(W, text[i], names + AssignedIn(text[..i + 1]))
  {
    if text != [] {
      var n := |text| - 1;
      assert text == text[..n] + [text[n]] && text[..n + 1] == text;
      FineAt(W, text[..n], names);
      FineLast(W, text[..n], text[n], names);
      assert forall i :: 0 <= i < n ==> text[..n][i] == text[i] && text[..n][..i + 1] == text[..i + 1];
    }
  }

  lemma LastAssigns(front: seq<Stmt>, s: Stmt)
    ensures AssignedIn(front + [s]) == AssignedIn(front) + Assigned(s)
  {
    AssignedInConcat(front, [s]);
    assert [s][1..] == [];
  }

  /** The names that a text assigns are those that stand as targets in it. */
  lemma {:induction false} AssignedTheorem(text: seq<Stmt>, name: string)
    ensures name in AssignedIn(text) <==> exists i :: 0 <= i < |text| && text[i].Assign? && Name(name) in text[i].targets
  {
    if text != [] {
      AssignedTheorem(text[1..], name);
      if text[0].Assign? {
        TargetNamesAre(text[0].targets, name);
      }
      assert forall i :: 0 < i < |text| ==> text[i] == text[1..][i - 1];
      assert forall i :: 0 <= i < |text| - 1 ==> text[1..][i] == text[i + 1];
    }
  }

  lemma {:induction false} TargetNamesAre(targets: seq<Expr>, name: string)
    ensures name in TargetNames(targets) <==> Name(name) in targets
  {
    if targets != [] {
      TargetNamesAre(targets[1..], name);
      assert targets == [targets[0]] + targets[1..];
    }
  }

  /**
   Code is accepted exactly when it is not empty, assigns `result`, and every statement of its text, the
   blocks of conditionals included, is one of three: an assignment to plain names that are not reserved
   and do not start with an underscore, of an expression accepted for the names assigned so far, its own
   among them; a conditional with a non-empty body and a test accepted for the names assigned so far; or
   `pass`.
   */
  lemma ProgramTheorem(W: Vocabulary, body: seq<Stmt>)
    ensures var text := InText(body);
            CheckModule(W, body, {}).verdict.Accept? <==>
              && body != [] && "result" in AssignedIn(text)
              && forall i :: 0 <= i < |text| ==>
                   match text[i]
                   case Assign(targets, source) =>
                     && (forall t :: t in targets ==>
                           t.Name? && t.id != "" && t.id[0] != '_' && t.id !in W.context && t.id !in W.helpers)
                     && CheckExpr(W, source, AssignedIn(text[..i + 1])).Accept?
                   case If(test, inner, _) => inner != [] && CheckExpr(W, test, AssignedIn(text[..i + 1])).Accept?
                   case Pass => true
                   case OtherStmt(_) => false
  {
    var text := InText(body);
    BlockIsFine(W, body, {});
    FineAt(W, text, {});
    forall i | 0 <= i < |text|
      ensures FineStmt(W, text[i], {} + AssignedIn(text[..i + 1])) <==> FineStmt(W, text[i], AssignedIn(text[..i + 1]))
    {
      assert {} + AssignedIn(text[..i + 1]) == AssignedIn(text[..i + 1]);
    }
    if CheckStmts(W, body, {}).verdict.Accept? {
      BlockCollects(W, body, {});
      assert {} + AssignedIn(text) == AssignedIn(text);
    }
  }

  /** The text of a program: each statement, then the statements of its blocks. */
  lemma TextTheorem(s: Stmt, stmts: seq<Stmt>)
    ensures InText([s] + stmts)
            == [s] + (match s case If(_, body, orelse) => InText(body) + InText(orelse) case _ => []) + InText(stmts)
    ensures InText([]) == []
  {
    assert ([s] + stmts)[1..] == stmts;
  }

  /** The names that code finds, all of them reserved, and those among them that it may call. */
  lemma VocabularyTheorem(name: string)
    ensures SANDBOX.Has(name) <==> name in {"payload", "status_code", "detail", "validation", "empty_value", "content_type",
                                            "headers", "query", "pick", "pick_first", "exists", "success", "text",
                                            "len", "bool", "int", "float", "str"}
    ensures name in SANDBOX.helpers ==> name !in SANDBOX.context
  {
  }
}

/**
 What the validator reports: the problem it raises is one that the code has, in the first statement of the
 text that is not allowed.
 */
module OutputSandboxProblems {
  import opened Text
  import opened OutputSandbox
  import opened OutputSandboxRun
  import opened OutputSandboxSound
  import opened OutputSandboxAccepts

  // ---------------------------------------------------------------------------
  // Expressions
  // ---------------------------------------------------------------------------

  /** What is wrong with a node itself. */
  predicate Shows(W: Vocabulary, n: Expr, names: set<string>, p: Problem) {
    match n
    case Name(id) => p == UnknownName(id) && id !in W.context && id !in W.helpers && id !in names
    case Binary(op, _, _) => p == BadOperator && !(op.Add? || op.Sub? || op.Mult? || op.Div? || op.Mod?)
    case Unary(uop, _) => p == BadOperator && uop.Invert?
    case Call(func, _, keywords) =>
      if func.Name? && func.id in W.helpers then p == StarArguments && exists k :: k in keywords && k.arg.None?
      else p == BadCall
    case Attribute(_, _) => p == BadSyntax
    case Walrus(_, _) => p == BadSyntax
    case OtherExpr(_) => p == BadSyntax
    case _ => false
  }

  ghost predicate SomeShows(W: Vocabulary, nodes: set<Expr>, names: set<string>, p: Problem) {
    exists n :: n in nodes && Shows(W, n, names, p)
  }

  lemma {:induction false} ExprShows(W: Vocabulary, e: Expr, names: set<string>)
    requires CheckExpr(W, e, names).Reject?
    ensures SomeShows(W, Nodes(e), names, CheckExpr(W, e, names).problem)
    decreases e, 1
  {
    assert e in Nodes(e);
    match e
    case Name(_) => assert Shows(W, e, names, CheckExpr(W, e, names).problem);
    case Dict(items) => ItemsShow(W, items, names);
    case Sequence(_, elts) => AllShow(W, elts, names);
    case Binary(op, left, right) =>
      if !AllowedBinary(op) {
        assert Shows(W, e, names, BadOperator);
      } else if CheckExpr(W, left, names).Reject? {
        ExprShows(W, left, names);
      } else {
        ExprShows(W, right, names);
      }
    case Unary(uop, operand) =>
      if !AllowedUnary(uop) {
        assert Shows(W, e, names, BadOperator);
      } else {
        ExprShows(W, operand, names);
      }
    case Bool(_, operands) => AllShow(W, operands, names);
    case Compare(first, _, comparators) =>
      if CheckExpr(W, first, names).Reject? {
        ExprShows(W, first, names);
      } else {
        AllShow(W, comparators, names);
      }
    case IfExp(test, body, orelse) => ConditionalShows(W, e, names);
    case Subscript(container, slice) =>
      if CheckExpr(W, container, names).Reject? {
        ExprShows(W, container, names);
      } else {
        ExprShows(W, slice, names);
      }
    case Call(_, _, _) => CallShows(W, e, names);
    case Attribute(_, _) => assert Shows(W, e, names, BadSyntax);
    case Walrus(_, _) => assert Shows(W, e, names, BadSyntax);
    case OtherExpr(_) => assert Shows(W, e, names, BadSyntax);
  }

  lemma {:induction false} ConditionalShows(W: Vocabulary, e: Expr, names: set<string>)
    requires e.IfExp? && CheckExpr(W, e, names).Reject?
    ensures SomeShows(W, Nodes(e), names, CheckExpr(W, e, names).problem)
    decreases e, 0
  {
    if CheckExpr(W, e.test, names).Reject? {
      ExprShows(W, e.test, names);
    } else if CheckExpr(W, e.body, names).Reject? {
      ExprShows(W, e.body, names);
    } else {
      ExprShows(W, e.orelse, names);
    }
  }

  lemma {:induction false} CallShows(W: Vocabulary, e: Expr, names: set<string>)
    requires e.Call? && CheckExpr(W, e, names).Reject?
    ensures SomeShows(W, Nodes(e), names, CheckExpr(W, e, names).problem)
    decreases e, 0
  {
    assert e in Nodes(e);
    if !(e.func.Name? && e.func.id in W.helpers) {
      assert Shows(W, e, names, BadCall);
    } else if CheckAll(W, e.args, names).Reject? {
      AllShow(W, e.args, names);
    } else {
      KeywordsShow(W, e.keywords, names);
      if !SomeShows(W, KeywordNodes(e.keywords), names, CheckExpr(W, e, names).problem) {
        assert Shows(W, e, names, StarArguments);
      }
    }
  }

  lemma {:induction false} AllShow(W: Vocabulary, es: seq<Expr>, names: set<string>)
    requires CheckAll(W, es, names).Reject?
    ensures SomeShows(W, AllNodes(es), names, CheckAll(W, es, names).problem)
    decreases es, 0
  {
    if CheckExpr(W, es[0], names).Reject? {
      ExprShows(W, es[0], names);
    } else {
      AllShow(W, es[1..], names);
    }
  }

  lemma {:induction false} ItemsShow(W: Vocabulary, items: seq<Item>, names: set<string>)
    ensures CheckKeys(W, items, names).Reject? ==>
              SomeShows(W, ItemNodes(items), names, CheckKeys(W, items, names).problem)
    ensures CheckValues(W, items, names).Reject? ==>
              SomeShows(W, ItemNodes(items), names, CheckValues(W, items, names).problem)
    decreases items, 0
  {
    if items != [] {
      ItemShows(W, items[0], names);
      ItemsShow(W, items[1..], names);
    }
  }

  lemma {:induction false} ItemShows(W: Vocabulary, item: Item, names: set<string>)
    ensures CheckKey(W, item, names).Reject? ==>
              SomeShows(W, NodesOfItem(item), names, CheckKey(W, item, names).problem)
    ensures CheckValue(W, item, names).Reject? ==>
              SomeShows(W, NodesOfItem(item), names, CheckValue(W, item, names).problem)
    decreases item, 0
  {
    if CheckExpr(W, item.value, names).Reject? {
      ExprShows(W, item.value, names);
    }
    if item.key.Some? && CheckExpr(W, item.key.value, names).Reject? {
      ExprShows(W, item.key.value, names);
    }
  }

  lemma {:induction false} KeywordsShow(W: Vocabulary, keywords: seq<Keyword>, names: set<string>)
    requires CheckKeywords(W, keywords, names).Reject?
    ensures var p := CheckKeywords(W, keywords, names).problem;
            SomeShows(W, KeywordNodes(keywords), names, p) || (p == StarArguments && exists k :: k in keywords && k.arg.None?)
    decreases keywords, 0
  {
    if CheckKeyword(W, keywords[0], names).Reject? {
      KeywordShows(W, keywords[0], names);
    } else {
      KeywordsShow(W, keywords[1..], names);
    }
  }

  lemma {:induction false} KeywordShows(W: Vocabulary, keyword: Keyword, names: set<string>)
    requires CheckKeyword(W, keyword, names).Reject?
    ensures var p := CheckKeyword(W, keyword, names).problem;
            SomeShows(W, NodesOfKeyword(keyword), names, p) || (p == StarArguments && keyword.arg.None?)
    decreases keyword, 0
  {
    if keyword.arg.Some? {
      ExprShows(W, keyword.value, names);
    }
  }

  /** A rejected expression has a node with the reported problem. */
  lemma ExpressionProblem(W: Vocabulary, e: Expr, names: set<string>, p: Problem) returns (n: Expr)
    requires CheckExpr(W, e, names) == Reject(p)
    ensures n in Nodes(e)
    ensures match n
            case Name(id) => p == UnknownName(id) && id !in W.context && id !in W.helpers && id !in names
            case Binary(op, _, _) => p == BadOperator && !(op.Add? || op.Sub? || op.Mult? || op.Div? || op.Mod?)
            case Unary(uop, _) => p == BadOperator && uop.Invert?
            case Call(func, _, keywords) =>
              if func.Name? && func.id in W.helpers then p == StarArguments && exists k :: k in keywords && k.arg.None?
              else p == BadCall
            case Attribute(_, _) => p == BadSyntax
            case Walrus(_, _) => p == BadSyntax
            case OtherExpr(_) => p == BadSyntax
            case _ => false
  {
    ExprShows(W, e, names);
    n :| n in Nodes(e) && Shows(W, n, names, p);
  }

  // ---------------------------------------------------------------------------
  // Statements
  // ---------------------------------------------------------------------------

  predicate BlamesTarget(W: Vocabulary, t: Expr, p: Problem) {
    if !t.Name? then p == NotAName
    else if t.id == "" || t.id[0] == '_' then p == PrivateName
    else p == ReservedName(t.id) && (t.id in W.context || t.id in W.helpers)
  }

  /** What is wrong with a statement itself; `names` holds its own targets, too. */
  ghost predicate Blames(W: Vocabulary, s: Stmt, names: set<string>, p: Problem) {
    match s
    case Assign(targets, source) =>
      (exists t :: t in targets && BlamesTarget(W, t, p)) || CheckExpr(W, source, names) == Reject(p)
    case If(test, body, _) => CheckExpr(W, test, names) == Reject(p) || (body == [] && p == EmptyIf)
    case Pass => false
    case OtherStmt(_) => p == BadStatement
  }

  /** The first statement of a text that is not allowed has the problem. */
  ghost predicate FirstBlames(W: Vocabulary, text: seq<Stmt>, names: set<string>, p: Problem) {
    text != []
    && var after := names + Assigned(text[0]);
       if FineStmt(W, text[0], after) then FirstBlames(W, text[1..], after, p) else Blames(W, text[0], after, p)
  }

  lemma {:induction false} BlamesConcat(W: Vocabulary, a: seq<Stmt>, b: seq<Stmt>, names: set<string>, p: Problem)
    requires FirstBlames(W, a, names, p) || (FineText(W, a, names) && FirstBlames(W, b, names + AssignedIn(a), p))
    ensures FirstBlames(W, a + b, names, p)
  {
    if a == [] {
      assert a + b == b && names + {} == names;
    } else {
      assert (a + b)[1..] == a[1..] + b;
      var after := names + Assigned(a[0]);
      assert after + AssignedIn(a[1..]) == names + AssignedIn(a);
      if FineStmt(W, a[0], after) {
        BlamesConcat(W, a[1..], b, after, p);
      }
    }
  }

  lemma {:induction false} TargetsBlame(W: Vocabulary, targets: seq<Expr>, names: set<string>)
    requires CheckTargets(W, targets, names).verdict.Reject?
    ensures exists t :: t in targets && BlamesTarget(W, t, CheckTargets(W, targets, names).verdict.problem)
  {
    if CheckTarget(W, targets[0]).Accept? {
      TargetsBlame(W, targets[1..], names + {targets[0].id});
    } else {
      assert targets[0] in targets && BlamesTarget(W, targets[0], CheckTarget(W, targets[0]).problem);
    }
  }

  lemma {:induction false} StatementBlames(W: Vocabulary, s: Stmt, names: set<string>)
    requires CheckStmt(W, s, names).verdict.Reject?
    ensures FirstBlames(W, [s] + Inside(s), names, CheckStmt(W, s, names).verdict.problem)
    decreases s, 1
  {
    assert ([s] + Inside(s))[1..] == Inside(s);
    match s
    case Assign(targets, _) =>
      TargetsAreFine(W, targets, names);
      if CheckTargets(W, targets, names).verdict.Accept? {
        TargetsCollect(W, targets, names);
      } else {
        TargetsBlame(W, targets, names);
      }
    case If(test, body, orelse) => ConditionalBlames(W, s, names);
    case Pass =>
    case OtherStmt(_) =>
  }

  lemma {:induction false} ConditionalBlames(W: Vocabulary, s: Stmt, names: set<string>)
    requires s.If? && CheckStmt(W, s, names).verdict.Reject?
    ensures FirstBlames(W, [s] + Inside(s), names, CheckStmt(W, s, names).verdict.problem)
    decreases s, 0
  {
    assert ([s] + Inside(s))[1..] == Inside(s) && names + {} == names;
    var p := CheckStmt(W, s, names).verdict.problem;
    if CheckExpr(W, s.test, names).Accept? && s.body != [] {
      if CheckStmts(W, s.body, names).verdict.Reject? {
        BlockBlames(W, s.body, names);
      } else {
        BlockIsFine(W, s.body, names);
        BlockCollects(W, s.body, names);
        BlockBlames(W, s.orelse, names + AssignedIn(InText(s.body)));
      }
      BlamesConcat(W, InText(s.body), InText(s.orelse), names, p);
    }
  }

  lemma {:induction false} BlockBlames(W: Vocabulary, stmts: seq<Stmt>, names: set<string>)
    requires CheckStmts(W, stmts, names).verdict.Reject?
    ensures FirstBlames(W, InText(stmts), names, CheckStmts(W, stmts, names).verdict.problem)
    decreases stmts, 0
  {
    var s, p := stmts[0], CheckStmts(W, stmts, names).verdict.problem;
    if CheckStmt(W, s, names).verdict.Reject? {
      StatementBlames(W, s, names);
    } else {
      StatementIsFine(W, s, names);
      FirstAssigns(W, s, names);
      BlockBlames(W, stmts[1..], CheckStmt(W, s, names).names);
    }
    BlamesConcat(W, [s] + Inside(s), InText(stmts[1..]), names, p);
  }

  lemma {:induction false} BlamedAt(W: Vocabulary, text: seq<Stmt>, names: set<string>, p: Problem) returns (i: nat)
    requires FirstBlames(W, text, names, p)
    ensures i < |text| && Blames(W, text[i], names + AssignedIn(text[..i + 1]), p)
    ensures FineText(W, text[..i], names)
  {
    var after := names + Assigned(text[0]);
    i := 0;
    if FineStmt(W, text[0], after) {
      var j := BlamedAt(W, text[1..], after, p);
      i := j + 1;
      assert text[..i + 1][1..] == text[1..][..j + 1] && text[..i][1..] == text[1..][..j];
      assert names + AssignedIn(text[..i + 1]) == after + AssignedIn(text[1..][..j + 1]);
    } else {
      assert text[..1] == [text[0]] && [text[0]][1..] == [];
      assert names + AssignedIn(text[..1]) == after;
    }
  }

  /**
   A rejected program is empty, or does not assign `result`, or has a statement, the first in its text that is
   not allowed, with the reported problem: a target that is no plain name, starts with an underscore or is
   reserved; an expression that is rejected with it; an empty conditional; or a statement of another kind.
   */
  lemma ProgramProblem(W: Vocabulary, body: seq<Stmt>, p: Problem) returns (i: nat)
    requires CheckModule(W, body, {}).verdict == Reject(p)
    ensures body == [] ==> p == EmptyCode
    ensures body != [] ==>
              || (p == NoResult && "result" !in AssignedIn(InText(body)))
              || (&& i < |InText(body)|
                  && var text := InText(body);
                     && FineText(W, text[..i], {})
                     && match text[i]
                        case Assign(targets, source) =>
                          || (exists t :: t in targets &&
                                if !t.Name? then p == NotAName
                                else if t.id == "" || t.id[0] == '_' then p == PrivateName
                                else p == ReservedName(t.id) && (t.id in W.context || t.id in W.helpers))
                          || CheckExpr(W, source, AssignedIn(text[..i + 1])) == Reject(p)
                        case If(test, inner, _) =>
                          CheckExpr(W, test, AssignedIn(text[..i + 1])) == Reject(p) || (inner == [] && p == EmptyIf)
                        case Pass => false
                        case OtherStmt(_) => p == BadStatement)
  {
    i := 0;
    if body != [] {
      var text := InText(body);
      if CheckStmts(W, body, {}).verdict.Reject? {
        BlockBlames(W, body, {});
        i := BlamedAt(W, text, {}, p);
        assert {} + AssignedIn(text[..i + 1]) == AssignedIn(text[..i + 1]);
        assert text[i].Assign? ==> forall t :: t in text[i].targets && BlamesTarget(W, t, p) ==>
                                     if !t.Name? then p == NotAName
                                     else if t.id == "" || t.id[0] == '_' then p == PrivateName
                                     else p == ReservedName(t.id) && (t.id in W.context || t.id in W.helpers);
      } else {
        BlockCollects(W, body, {});
        assert {} + AssignedIn(text) == AssignedIn(text);
      }
    }
  }
}

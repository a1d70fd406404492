/**
 What validation guarantees about execution, for every program, input and meaning of the operations.
 */
module OutputSandboxSound {
  import opened Text
  import opened OutputSandbox
  import opened OutputSandboxRun

  // ---------------------------------------------------------------------------
  // What validation guarantees: expressions
  // ---------------------------------------------------------------------------

  /** The namespace a program starts in: context, helpers, and private names such as __builtins__. */
  ghost predicate InitialStore(W: Vocabulary, init: Store) {
    && W.context + W.helpers <= init.Keys
    && (forall n :: n in init ==> W.Has(n) || Private(n))
    && (forall h :: h in W.helpers ==> init[h] == Helper(h))
  }

  /** Every name of the initial namespace still has its binding. */
  ghost predicate Intact(init: Store, store: Store) {
    forall n :: n in init ==> n in store && store[n] == init[n]
  }

  predicate Harmless(W: Vocabulary, names: set<string>, e: Event) {
    match e
    case Loaded(name) => Known(W, name, names)
    case Invoked(callee) => callee.Helper? && callee.name in W.helpers
    case Mutated(_) => false
  }

  ghost predicate AllHarmless(W: Vocabulary, names: set<string>, trace: seq<Event>) {
    forall e :: e in trace ==> Harmless(W, names, e)
  }

  /** A good run: nothing stored, nothing but harmless events, and only an assigned name can be unbound. */
  ghost predicate Good<T>(W: Vocabulary, names: set<string>, m: Machine, r: Ran<T>) {
    && r.after.store == m.store
    && AllHarmless(W, names, r.after.trace)
    && !r.out.Stuck?
    && (r.out.Unbound? ==> r.out.name in names && r.out.name !in m.store)
  }

  ghost predicate Ready(W: Vocabulary, init: Store, names: set<string>, m: Machine) {
    InitialStore(W, init) && Intact(init, m.store) && AllHarmless(W, names, m.trace)
  }

  lemma {:induction false} EvalIsGood(W: Vocabulary, S: Semantics, e: Expr, init: Store, names: set<string>, m: Machine)
    requires Ready(W, init, names, m) && CheckExpr(W, e, names).Accept?
    ensures Good(W, names, m, Eval(S, e, m))
    decreases e, 1
  {
    match e
    case Constant(_) =>
    case Name(_) =>
    case Dict(_) => DictIsGood(W, S, e, init, names, m);
    case Sequence(_, _) => SequenceIsGood(W, S, e, init, names, m);
    case Binary(_, _, _) => BinaryIsGood(W, S, e, init, names, m);
    case Unary(_, _) => UnaryIsGood(W, S, e, init, names, m);
    case Bool(isAnd, operands) => BoolIsGood(W, S, isAnd, operands, init, names, m);
    case Compare(_, _, _) => ChainIsGood(W, S, e, init, names, m);
    case IfExp(_, _, _) => IfExpIsGood(W, S, e, init, names, m);
    case Subscript(_, _) => SubscriptIsGood(W, S, e, init, names, m);
    case Call(_, _, _) => CallIsGood(W, S, e, init, names, m);
    case Attribute(_, _) =>
    case Walrus(_, _) =>
    case OtherExpr(_) =>
  }

  lemma {:induction false} DictIsGood(W: Vocabulary, S: Semantics, e: Expr, init: Store, names: set<string>, m: Machine)
    requires Ready(W, init, names, m) && CheckExpr(W, e, names).Accept? && e.Dict?
    ensures Good(W, names, m, Eval(S, e, m))
    decreases e, 0
  {
    ItemsAreGood(W, S, e.items, init, names, m);
  }

  lemma {:induction false} SequenceIsGood(W: Vocabulary, S: Semantics, e: Expr, init: Store, names: set<string>, m: Machine)
    requires Ready(W, init, names, m) && CheckExpr(W, e, names).Accept? && e.Sequence?
    ensures Good(W, names, m, Eval(S, e, m))
    decreases e, 0
  {
    AllAreGood(W, S, e.elts, init, names, m);
  }

  lemma {:induction false} BinaryIsGood(W: Vocabulary, S: Semantics, e: Expr, init: Store, names: set<string>, m: Machine)
    requires Ready(W, init, names, m) && CheckExpr(W, e, names).Accept? && e.Binary?
    ensures Good(W, names, m, Eval(S, e, m))
    decreases e, 0
  {
    EvalIsGood(W, S, e.left, init, names, m);
    var r := Eval(S, e.left, m);
    if r.out.Ok? {
      EvalIsGood(W, S, e.right, init, names, r.after);
    }
  }

  lemma {:induction false} UnaryIsGood(W: Vocabulary, S: Semantics, e: Expr, init: Store, names: set<string>, m: Machine)
    requires Ready(W, init, names, m) && CheckExpr(W, e, names).Accept? && e.Unary?
    ensures Good(W, names, m, Eval(S, e, m))
    decreases e, 0
  {
    EvalIsGood(W, S, e.operand, init, names, m);
  }

  lemma {:induction false} ChainIsGood(W: Vocabulary, S: Semantics, e: Expr, init: Store, names: set<string>, m: Machine)
    requires Ready(W, init, names, m) && CheckExpr(W, e, names).Accept? && e.Compare?
    ensures Good(W, names, m, Eval(S, e, m))
    decreases e, 0
  {
    EvalIsGood(W, S, e.first, init, names, m);
    var r := Eval(S, e.first, m);
    if r.out.Ok? {
      CompareIsGood(W, S, r.out.value, e.ops, e.comparators, init, names, r.after);
    }
  }

  lemma {:induction false} IfExpIsGood(W: Vocabulary, S: Semantics, e: Expr, init: Store, names: set<string>, m: Machine)
    requires Ready(W, init, names, m) && CheckExpr(W, e, names).Accept? && e.IfExp?
    ensures Good(W, names, m, Eval(S, e, m))
    decreases e, 0
  {
    EvalIsGood(W, S, e.test, init, names, m);
    var r := Eval(S, e.test, m);
    if r.out.Ok? {
      EvalIsGood(W, S, e.body, init, names, r.after);
      EvalIsGood(W, S, e.orelse, init, names, r.after);
    }
  }

  lemma {:induction false} SubscriptIsGood(W: Vocabulary, S: Semantics, e: Expr, init: Store, names: set<string>, m: Machine)
    requires Ready(W, init, names, m) && CheckExpr(W, e, names).Accept? && e.Subscript?
    ensures Good(W, names, m, Eval(S, e, m))
    decreases e, 0
  {
    EvalIsGood(W, S, e.container, init, names, m);
    var r := Eval(S, e.container, m);
    if r.out.Ok? {
      EvalIsGood(W, S, e.slice, init, names, r.after);
    }
  }

  lemma {:induction false} CallIsGood(W: Vocabulary, S: Semantics, e: Expr, init: Store, names: set<string>, m: Machine)
    requires Ready(W, init, names, m) && CheckExpr(W, e, names).Accept? && e.Call?
    ensures Good(W, names, m, Eval(S, e, m))
    decreases e, 0
  {
    var f := Eval(S, e.func, m);
    assert f.out == Ok(Helper(e.func.id));
    AllAreGood(W, S, e.args, init, names, f.after);
    var a := EvalAll(S, e.args, f.after);
    if a.out.Ok? {
      KeywordsAreGood(W, S, e.keywords, init, names, a.after);
    }
  }

  lemma {:induction false} AllAreGood(W: Vocabulary, S: Semantics, es: seq<Expr>, init: Store, names: set<string>, m: Machine)
    requires Ready(W, init, names, m) && CheckAll(W, es, names).Accept?
    ensures Good(W, names, m, EvalAll(S, es, m))
    decreases es, 0
  {
    if es != [] {
      EvalIsGood(W, S, es[0], init, names, m);
      var r := Eval(S, es[0], m);
      if r.out.Ok? { AllAreGood(W, S, es[1..], init, names, r.after); }
    }
  }

  lemma {:induction false} ItemsAreGood(W: Vocabulary, S: Semantics, items: seq<Item>, init: Store, names: set<string>, m: Machine)
    requires Ready(W, init, names, m) && CheckKeys(W, items, names).Accept? && CheckValues(W, items, names).Accept?
    ensures Good(W, names, m, EvalItems(S, items, m))
    decreases items, 0
  {
    if items != [] {
      ItemIsGood(W, S, items[0], init, names, m);
      var r := EvalItem(S, items[0], m);
      if r.out.Ok? {
        ItemsAreGood(W, S, items[1..], init, names, r.after);
      }
    }
  }

  lemma {:induction false} ItemIsGood(W: Vocabulary, S: Semantics, item: Item, init: Store, names: set<string>, m: Machine)
    requires Ready(W, init, names, m) && CheckKey(W, item, names).Accept? && CheckValue(W, item, names).Accept?
    ensures Good(W, names, m, EvalItem(S, item, m))
    decreases item, 0
  {
    match item
    case Item(None, value) => EvalIsGood(W, S, value, init, names, m);
    case Item(Some(key), value) =>
      EvalIsGood(W, S, key, init, names, m);
      var r := Eval(S, key, m);
      if r.out.Ok? {
        EvalIsGood(W, S, value, init, names, r.after);
      }
  }

  lemma {:induction false} KeywordsAreGood(W: Vocabulary, S: Semantics, keywords: seq<Keyword>,
                                           init: Store, names: set<string>, m: Machine)
    requires Ready(W, init, names, m) && CheckKeywords(W, keywords, names).Accept?
    ensures Good(W, names, m, EvalKeywords(S, keywords, m))
    decreases keywords, 0
  {
    if keywords != [] {
      KeywordIsGood(W, S, keywords[0], init, names, m);
      var r := EvalKeyword(S, keywords[0], m);
      if r.out.Ok? { KeywordsAreGood(W, S, keywords[1..], init, names, r.after); }
    }
  }

  lemma {:induction false} KeywordIsGood(W: Vocabulary, S: Semantics, keyword: Keyword, init: Store, names: set<string>, m: Machine)
    requires Ready(W, init, names, m) && CheckKeyword(W, keyword, names).Accept?
    ensures Good(W, names, m, EvalKeyword(S, keyword, m))
    decreases keyword, 0
  {
    EvalIsGood(W, S, keyword.value, init, names, m);
  }

  lemma {:induction false} BoolIsGood(W: Vocabulary, S: Semantics, isAnd: bool, es: seq<Expr>,
                                      init: Store, names: set<string>, m: Machine)
    requires Ready(W, init, names, m) && CheckAll(W, es, names).Accept?
    ensures Good(W, names, m, EvalBool(S, isAnd, es, m))
    decreases es, 0
  {
    if es != [] {
      EvalIsGood(W, S, es[0], init, names, m);
      var r := Eval(S, es[0], m);
      if r.out.Ok? { BoolIsGood(W, S, isAnd, es[1..], init, names, r.after); }
    }
  }

  lemma {:induction false} CompareIsGood(W: Vocabulary, S: Semantics, left: Value, ops: seq<CompareOp>, es: seq<Expr>,
                                         init: Store, names: set<string>, m: Machine)
    requires Ready(W, init, names, m) && CheckAll(W, es, names).Accept?
    ensures Good(W, names, m, EvalCompare(S, left, ops, es, m))
    decreases es, 0
  {
    if ops != [] && es != [] {
      EvalIsGood(W, S, es[0], init, names, m);
      var r := Eval(S, es[0], m);
      if r.out.Ok? { CompareIsGood(W, S, r.out.value, ops[1..], es[1..], init, names, r.after); }
    }
  }

  // ---------------------------------------------------------------------------
  // What validation guarantees: statements
  // ---------------------------------------------------------------------------

  /** The names that an assignment statement binds. */
  function Assigned(s: Stmt): set<string> {
    if s.Assign? then TargetNames(s.targets) else {}
  }

  function TargetNames(targets: seq<Expr>): set<string> {
    if targets == [] then {}
    else (if targets[0].Name? then {targets[0].id} else {}) + TargetNames(targets[1..])
  }

  /** The names assigned by the first statements of a text. */
  function AssignedIn(text: seq<Stmt>): set<string> {
    if text == [] then {} else Assigned(text[0]) + AssignedIn(text[1..])
  }

  lemma {:induction false} AssignedInConcat(a: seq<Stmt>, b: seq<Stmt>)
    ensures AssignedIn(a + b) == AssignedIn(a) + AssignedIn(b)
  {
    if a == [] {
      assert a + b == b;
    } else {
      assert (a + b)[1..] == a[1..] + b;
      AssignedInConcat(a[1..], b);
    }
  }

  /** A name the program may introduce. */
  ghost predicate Fresh(W: Vocabulary, names: set<string>) {
    forall n :: n in names ==> !W.Has(n) && !Private(n)
  }

  lemma {:induction false} TargetsCollect(W: Vocabulary, targets: seq<Expr>, names: set<string>)
    requires CheckTargets(W, targets, names).verdict.Accept?
    ensures CheckTargets(W, targets, names).names == names + TargetNames(targets)
    ensures Fresh(W, TargetNames(targets))
    ensures forall t :: t in targets ==> t.Name?
  {
    if targets != [] {
      TargetsCollect(W, targets[1..], names + {targets[0].id});
    }
  }

  /** An accepted block collects exactly the names that its text assigns. */
  lemma {:induction false} BlockCollects(W: Vocabulary, stmts: seq<Stmt>, names: set<string>)
    requires CheckStmts(W, stmts, names).verdict.Accept?
    ensures CheckStmts(W, stmts, names).names == names + AssignedIn(InText(stmts))
    decreases stmts, 0
  {
    if stmts != [] {
      var c := CheckStmt(W, stmts[0], names);
      StatementCollects(W, stmts[0], names);
      BlockCollects(W, stmts[1..], c.names);
      AssignedInConcat([stmts[0]], Inside(stmts[0]));
      AssignedInConcat([stmts[0]] + Inside(stmts[0]), InText(stmts[1..]));
      assert AssignedIn([stmts[0]]) == Assigned(stmts[0]) by {
        assert [stmts[0]][1..] == [];
      }
    }
  }

  lemma {:induction false} StatementCollects(W: Vocabulary, s: Stmt, names: set<string>)
    requires CheckStmt(W, s, names).verdict.Accept?
    ensures CheckStmt(W, s, names).names == names + Assigned(s) + AssignedIn(Inside(s))
    decreases s, 1
  {
    match s
    case Assign(targets, _) => TargetsCollect(W, targets, names);
    case If(test, body, orelse) =>
      BlockCollects(W, body, names);
      BlockCollects(W, orelse, CheckStmts(W, body, names).names);
      AssignedInConcat(InText(body), InText(orelse));
    case Pass =>
    case OtherStmt(_) =>
  }

  // ---------------------------------------------------------------------------
  // What a block keeps
  // ---------------------------------------------------------------------------

  lemma MoreNamesStayHarmless(W: Vocabulary, names: set<string>, more: set<string>, trace: seq<Event>)
    requires names <= more && AllHarmless(W, names, trace)
    ensures AllHarmless(W, more, trace)
  {
  }

  lemma {:induction false} BindingIsGood(W: Vocabulary, S: Semantics, targets: seq<Expr>, v: Value, init: Store, m: Machine)
    requires InitialStore(W, init) && Intact(init, m.store)
    requires Fresh(W, TargetNames(targets)) && forall t :: t in targets ==> t.Name?
    ensures var r := BindAll(S, targets, v, m);
            && r.out.Ok? && r.after.trace == m.trace
            && Intact(init, r.after.store) && r.after.store.Keys == m.store.Keys + TargetNames(targets)
  {
    if targets != [] {
      assert targets[0] in targets;
      BindingIsGood(W, S, targets[1..], v, init, Bind(S, targets[0], v, m).after);
    }
  }

  /** The initial bindings are kept, no names but `more` are added, and nothing harmful is done. */
  ghost predicate Kept(W: Vocabulary, init: Store, more: set<string>, m: Machine, r: Ended) {
    && Intact(init, r.after.store)
    && r.after.store.Keys <= m.store.Keys + more
    && AllHarmless(W, more, r.after.trace)
    && (r.Stopped? ==> r.out.Unbound? || r.out.Raised?)
  }

  lemma {:induction false} StatementKeeps(W: Vocabulary, S: Semantics, s: Stmt, at: nat, init: Store, names: set<string>, m: Machine)
    requires Ready(W, init, names, m) && CheckStmt(W, s, names).verdict.Accept?
    ensures Kept(W, init, CheckStmt(W, s, names).names, m, Exec(S, s, at, m))
    decreases s, 1
  {
    match s
    case Assign(targets, source) =>
      var more := CheckStmt(W, s, names).names;
      TargetsCollect(W, targets, names);
      MoreNamesStayHarmless(W, names, more, m.trace);
      EvalIsGood(W, S, source, init, more, m);
      var r := Eval(S, source, m);
      if r.out.Ok? {
        BindingIsGood(W, S, targets, r.out.value, init, r.after);
      }
    case If(_, _, _) => BranchKeeps(W, S, s, at, init, names, m);
    case Pass =>
    case OtherStmt(_) =>
  }

  lemma {:induction false} BranchKeeps(W: Vocabulary, S: Semantics, s: Stmt, at: nat, init: Store, names: set<string>, m: Machine)
    requires Ready(W, init, names, m) && s.If? && CheckStmt(W, s, names).verdict.Accept?
    ensures Kept(W, init, CheckStmt(W, s, names).names, m, Exec(S, s, at, m))
    decreases s, 0
  {
    var r, t := Eval(S, s.test, m), Exec(S, s, at, m);
    var inner, more := CheckStmts(W, s.body, names).names, CheckStmt(W, s, names).names;
    EvalIsGood(W, S, s.test, init, names, m);
    BlockCollects(W, s.body, names);
    BlockCollects(W, s.orelse, inner);
    if !r.out.Ok? {
      MoreNamesStayHarmless(W, names, more, r.after.trace);
    } else if S.truthy(r.out.value) {
      BlockKeeps(W, S, s.body, at + 1, init, names, r.after);
      MoreNamesStayHarmless(W, inner, more, t.after.trace);
    } else {
      MoreNamesStayHarmless(W, names, inner, r.after.trace);
      BlockKeeps(W, S, s.orelse, at + 1 + |InText(s.body)|, init, inner, r.after);
    }
  }

  lemma {:induction false} BlockKeeps(W: Vocabulary, S: Semantics, stmts: seq<Stmt>, at: nat, init: Store, names: set<string>, m: Machine)
    requires Ready(W, init, names, m) && CheckStmts(W, stmts, names).verdict.Accept?
    ensures Kept(W, init, CheckStmts(W, stmts, names).names, m, ExecAll(S, stmts, at, m))
    decreases stmts, 0
  {
    if stmts != [] {
      var s, c, more := stmts[0], CheckStmt(W, stmts[0], names), CheckStmts(W, stmts, names).names;
      var r := Exec(S, s, at, m);
      StatementKeeps(W, S, s, at, init, names, m);
      BlockCollects(W, stmts[1..], c.names);
      if r.Stopped? {
        MoreNamesStayHarmless(W, c.names, more, r.after.trace);
      } else {
        BlockKeeps(W, S, stmts[1..], at + 1 + |Inside(s)|, init, c.names, r.after);
      }
    }
  }

  // ---------------------------------------------------------------------------
  // Where a block can stop
  // ---------------------------------------------------------------------------

  /** A block stops inside its text; a name it finds unbound was in `names` before the block, or is
      assigned in its text up to and including the statement that stops. */
  ghost predicate StopsIn(names: set<string>, text: seq<Stmt>, at: nat, r: Ended) {
    r.Stopped? ==>
      && at <= r.at < at + |text|
      && (r.out.Unbound? ==> r.out.name in names || r.out.name in AssignedIn(text[..r.at - at + 1]))
  }

  /** A block that stops inside its own text stops inside any larger text around it. */
  lemma StopsInside(names: set<string>, before: seq<Stmt>, text: seq<Stmt>, after: seq<Stmt>, whole: seq<Stmt>, at: nat, r: Ended)
    requires whole == before + text + after
    requires StopsIn(names + AssignedIn(before), text, at + |before|, r)
    ensures StopsIn(names, whole, at, r)
  {
    if r.Stopped? {
      var part := text[..r.at - at - |before| + 1];
      assert whole[..r.at - at + 1] == before + part;
      AssignedInConcat(before, part);
    }
  }

  lemma {:induction false} StatementStops(W: Vocabulary, S: Semantics, s: Stmt, at: nat, init: Store, names: set<string>, m: Machine)
    requires Ready(W, init, names, m) && CheckStmt(W, s, names).verdict.Accept?
    ensures StopsIn(names, [s] + Inside(s), at, Exec(S, s, at, m))
    decreases s, 1
  {
    assert [s][1..] == [] && ([s] + Inside(s))[..1] == [s];
    match s
    case Assign(targets, source) =>
      var more := CheckStmt(W, s, names).names;
      TargetsCollect(W, targets, names);
      MoreNamesStayHarmless(W, names, more, m.trace);
      EvalIsGood(W, S, source, init, more, m);
      var r := Eval(S, source, m);
      if r.out.Ok? {
        BindingIsGood(W, S, targets, r.out.value, init, r.after);
      }
    case If(_, _, _) => BranchStops(W, S, s, at, init, names, m);
    case Pass =>
    case OtherStmt(_) =>
  }

  lemma {:induction false} BranchStops(W: Vocabulary, S: Semantics, s: Stmt, at: nat, init: Store, names: set<string>, m: Machine)
    requires Ready(W, init, names, m) && s.If? && CheckStmt(W, s, names).verdict.Accept?
    ensures StopsIn(names, [s] + Inside(s), at, Exec(S, s, at, m))
    decreases s, 0
  {
    var r, t := Eval(S, s.test, m), Exec(S, s, at, m);
    var inner := CheckStmts(W, s.body, names).names;
    EvalIsGood(W, S, s.test, init, names, m);
    BlockCollects(W, s.body, names);
    assert [s][1..] == [] && AssignedIn([s]) == {};
    if !r.out.Ok? {
    } else if S.truthy(r.out.value) {
      BlockStops(W, S, s.body, at + 1, init, names, r.after);
      StopsInside(names, [s], InText(s.body), InText(s.orelse), [s] + Inside(s), at, t);
    } else {
      MoreNamesStayHarmless(W, names, inner, r.after.trace);
      BlockStops(W, S, s.orelse, at + 1 + |InText(s.body)|, init, inner, r.after);
      AssignedInConcat([s], InText(s.body));
      assert [s] + InText(s.body) + InText(s.orelse) + [] == [s] + Inside(s);
      StopsInside(names, [s] + InText(s.body), InText(s.orelse), [], [s] + Inside(s), at, t);
    }
  }

  lemma {:induction false} BlockStops(W: Vocabulary, S: Semantics, stmts: seq<Stmt>, at: nat, init: Store, names: set<string>, m: Machine)
    requires Ready(W, init, names, m) && CheckStmts(W, stmts, names).verdict.Accept?
    ensures StopsIn(names, InText(stmts), at, ExecAll(S, stmts, at, m))
    decreases stmts, 0
  {
    if stmts != [] {
      var s, c := stmts[0], CheckStmt(W, stmts[0], names);
      var first, rest, whole := [s] + Inside(s), InText(stmts[1..]), InText(stmts);
      var r := Exec(S, s, at, m);
      StatementKeeps(W, S, s, at, init, names, m);
      StatementStops(W, S, s, at, init, names, m);
      if r.Stopped? {
        StopsInFront(names, first, rest, whole, at, r);
      } else {
        var t := ExecAll(S, stmts[1..], at + |first|, r.after);
        BlockStops(W, S, stmts[1..], at + |first|, init, c.names, r.after);
        FirstAssigns(W, s, names);
        StopsBehind(names, first, rest, whole, at, t);
      }
    }
  }

  lemma StopsInFront(names: set<string>, first: seq<Stmt>, rest: seq<Stmt>, whole: seq<Stmt>, at: nat, r: Ended)
    requires StopsIn(names, first, at, r) && whole == first + rest
    ensures StopsIn(names, whole, at, r)
  {
    assert [] + first + rest == whole && AssignedIn([]) == {};
    StopsInside(names, [], first, rest, whole, at, r);
  }

  lemma StopsBehind(names: set<string>, first: seq<Stmt>, rest: seq<Stmt>, whole: seq<Stmt>, at: nat, r: Ended)
    requires StopsIn(names + AssignedIn(first), rest, at + |first|, r) && whole == first + rest
    ensures StopsIn(names, whole, at, r)
  {
    assert first + rest + [] == whole;
    StopsInside(names, first, rest, [], whole, at, r);
  }

  lemma FirstAssigns(W: Vocabulary, s: Stmt, names: set<string>)
    requires CheckStmt(W, s, names).verdict.Accept?
    ensures CheckStmt(W, s, names).names == names + AssignedIn([s] + Inside(s))
  {
    StatementCollects(W, s, names);
    AssignedInConcat([s], Inside(s));
    assert [s][1..] == [];
  }

  // ---------------------------------------------------------------------------
  // Theorems
  // ---------------------------------------------------------------------------

  /** Collected names are never reserved ones. */
  lemma {:induction false} AssignedAreFresh(W: Vocabulary, stmts: seq<Stmt>, names: set<string>)
    requires CheckStmts(W, stmts, names).verdict.Accept?
    ensures Fresh(W, AssignedIn(InText(stmts)))
    decreases stmts, 0
  {
    if stmts != [] {
      var s := stmts[0];
      FreshInStatement(W, s, names);
      AssignedAreFresh(W, stmts[1..], CheckStmt(W, s, names).names);
      AssignedInConcat([s] + Inside(s), InText(stmts[1..]));
    }
  }

  lemma {:induction false} FreshInStatement(W: Vocabulary, s: Stmt, names: set<string>)
    requires CheckStmt(W, s, names).verdict.Accept?
    ensures Fresh(W, AssignedIn([s] + Inside(s)))
    decreases s, 1
  {
    AssignedInConcat([s], Inside(s));
    assert [s][1..] == [];
    match s
    case Assign(targets, _) => TargetsCollect(W, targets, names);
    case If(_, body, orelse) =>
      AssignedAreFresh(W, body, names);
      AssignedAreFresh(W, orelse, CheckStmts(W, body, names).names);
      AssignedInConcat(InText(body), InText(orelse));
    case Pass =>
    case OtherStmt(_) =>
  }

  /**
   Validator soundness. A program that the validator accepts, run on any input with any meaning of its
   operations, leaves every name of the initial namespace at its initial binding, gives the namespace
   no names but those the validator collected, loads no other names than the vocabulary and these,
   calls nothing but the helpers, mutates nothing, and never reaches a construct without a meaning.
   It can find a name unbound only if the same or an earlier statement of its text assigns it.
   */
  lemma ValidatorSoundness(W: Vocabulary, S: Semantics, body: seq<Stmt>, init: Store)
    requires CheckModule(W, body, {}).verdict.Accept? && InitialStore(W, init)
    ensures var names, r := CheckModule(W, body, {}).names, ExecAll(S, body, 0, Machine(init, []));
            && names == AssignedIn(InText(body)) && names !! init.Keys
            && (forall n :: n in init ==> n in r.after.store && r.after.store[n] == init[n])
            && r.after.store.Keys <= init.Keys + names
            && (forall e :: e in r.after.trace ==>
                  match e
                  case Loaded(name) => W.Has(name) || name in names
                  case Invoked(callee) => exists h :: h in W.helpers && callee == init[h]
                  case Mutated(_) => false)
            && (r.Stopped? ==> (r.out.Unbound? || r.out.Raised?) && r.at < |InText(body)|)
            && (r.Stopped? && r.out.Unbound? ==> r.out.name in AssignedIn(InText(body)[..r.at + 1]))
  {
    var names, r := CheckModule(W, body, {}).names, ExecAll(S, body, 0, Machine(init, []));
    BlockKeeps(W, S, body, 0, init, {}, Machine(init, []));
    BlockStops(W, S, body, 0, init, {}, Machine(init, []));
    BlockCollects(W, body, {});
    AssignedAreFresh(W, body, {});
    forall e | e in r.after.trace && e.Invoked?
      ensures exists h :: h in W.helpers && e.callee == init[h]
    {
      assert Harmless(W, names, e);
      assert e.callee == init[e.callee.name];
    }
  }

  /** What the caller gets: the value of `result`, or an error when the program did not assign it. */
  function Output(S: Semantics, body: seq<Stmt>, init: Store): Outcome<Value> {
    var r := ExecAll(S, body, 0, Machine(init, []));
    if r.Stopped? then
      match r.out
      case Unbound(name) => Unbound(name)
      case Raised(message) => Raised(message)
      case _ => Stuck
    else if "result" in r.after.store then Ok(r.after.store["result"])
    else Raised("Custom transform code must assign the final shaped body to 'result'.")
  }

  /** Acceptance does not rule out unbound names: a name counts as assigned for its own right-hand side. */
  lemma AcceptedProgramMayBeUnbound(W: Vocabulary, S: Semantics, init: Store)
    requires InitialStore(W, init) && !W.Has("result")
    ensures var body := [Assign([Name("result")], Name("result"))];
            CheckModule(W, body, {}).verdict.Accept? && Output(S, body, init) == Unbound("result")
  {
    var x := Name("result");
    var s := Assign([x], x);
    assert [x][1..] == [] && [s][1..] == [];
    assert CheckTargets(W, [x], {}) == Checked(Accept, {"result"});
    assert CheckStmts(W, [s], {}) == Checked(Accept, {"result"});
    assert Exec(S, s, 0, Machine(init, [])).Stopped?;
  }

  /** Nor does it ensure a result: an assignment in a branch that is not taken is enough to be accepted. */
  lemma AcceptedProgramMayLackResult(W: Vocabulary, S: Semantics, init: Store, flag: string)
    requires InitialStore(W, init) && !W.Has("result") && flag in W.context && !S.truthy(init[flag])
    ensures var body := [If(Name(flag), [Assign([Name("result")], Constant(1))], [])];
            CheckModule(W, body, {}).verdict.Accept? && Output(S, body, init).Raised?
  {
    var a := Assign([Name("result")], Constant(1));
    var s := If(Name(flag), [a], []);
    assert [Name("result")][1..] == [] && [a][1..] == [] && [s][1..] == [];
    assert CheckTargets(W, [Name("result")], {}) == Checked(Accept, {"result"});
    assert CheckStmts(W, [a], {}) == Checked(Accept, {"result"});
    assert CheckExpr(W, Name(flag), {}) == Accept;
    assert CheckStmts(W, [], {"result"}) == Checked(Accept, {"result"});
    assert CheckStmt(W, s, {}) == Checked(Accept, {"result"});
    assert CheckStmts(W, [s], {}) == Checked(Accept, {"result"});
    assert Exec(S, s, 0, Machine(init, [])) == Finished(Machine(init, [Loaded(flag)]));
  }
}

/**
 When an accepted program cannot fail for want of a name: definite assignment. The validator counts a
 name as known once the text assigns it; here it counts once every path to the place has assigned it.
 */
module OutputSandboxDefinite {
  import opened Text
  import opened OutputSandbox
  import opened OutputSandboxRun
  import opened OutputSandboxSound

  /** The names surely assigned after a statement; None when it may load a name that is not. */
  function SureAfter(W: Vocabulary, s: Stmt, sure: set<string>): Option<set<string>>
    decreases s, 1
  {
    match s
    case Assign(targets, source) =>
      if CheckExpr(W, source, sure).Accept? then Some(sure + TargetNames(targets)) else None
    case If(test, body, orelse) =>
      if CheckExpr(W, test, sure).Reject? then None
      else Meet(SureAfterAll(W, body, sure), SureAfterAll(W, orelse, sure))
    case Pass => Some(sure)
    case OtherStmt(_) => None
  }

  function SureAfterAll(W: Vocabulary, stmts: seq<Stmt>, sure: set<string>): Option<set<string>>
    decreases stmts, 0
  {
    if stmts == [] then Some(sure)
    else
      match SureAfter(W, stmts[0], sure)
      case Some(more) => SureAfterAll(W, stmts[1..], more)
      case None => None
  }

  /** What both branches assign. */
  function Meet(a: Option<set<string>>, b: Option<set<string>>): Option<set<string>> {
    if a.Some? && b.Some? then Some(a.value * b.value) else None
  }

  /** After a conditional exactly the names are sure that both branches make sure. */
  lemma BothBranches(W: Vocabulary, test: Expr, body: seq<Stmt>, orelse: seq<Stmt>, sure: set<string>, x: string)
    requires CheckExpr(W, test, sure).Accept?
    requires SureAfterAll(W, body, sure).Some? && SureAfterAll(W, orelse, sure).Some?
    ensures SureAfter(W, If(test, body, orelse), sure).Some?
    ensures x in SureAfter(W, If(test, body, orelse), sure).value
            <==> x in SureAfterAll(W, body, sure).value && x in SureAfterAll(W, orelse, sure).value
  {
  }

  // ---------------------------------------------------------------------------
  // A larger vocabulary accepts more
  // ---------------------------------------------------------------------------

  /** Every name known to the one is known to the other. */
  ghost predicate Wider(W: Vocabulary, names: set<string>, V: Vocabulary, more: set<string>) {
    W.helpers <= V.helpers && forall n :: Known(W, n, names) ==> Known(V, n, more)
  }

  lemma {:induction false} CheckGrows(W: Vocabulary, e: Expr, names: set<string>, V: Vocabulary, more: set<string>)
    requires Wider(W, names, V, more) && CheckExpr(W, e, names).Accept?
    ensures CheckExpr(V, e, more).Accept?
    decreases e, 1
  {
    match e
    case Constant(_) =>
    case Name(_) =>
    case Dict(items) => ItemsGrow(W, items, names, V, more);
    case Sequence(_, elts) => AllGrow(W, elts, names, V, more);
    case Binary(_, left, right) =>
      CheckGrows(W, left, names, V, more);
      CheckGrows(W, right, names, V, more);
    case Unary(_, operand) => CheckGrows(W, operand, names, V, more);
    case Bool(_, operands) => AllGrow(W, operands, names, V, more);
    case Compare(first, _, comparators) =>
      CheckGrows(W, first, names, V, more);
      AllGrow(W, comparators, names, V, more);
    case IfExp(test, body, orelse) =>
      CheckGrows(W, test, names, V, more);
      CheckGrows(W, body, names, V, more);
      CheckGrows(W, orelse, names, V, more);
    case Subscript(container, slice) =>
      CheckGrows(W, container, names, V, more);
      CheckGrows(W, slice, names, V, more);
    case Call(_, args, keywords) =>
      AllGrow(W, args, names, V, more);
      KeywordsGrow(W, keywords, names, V, more);
    case Attribute(_, _) =>
    case Walrus(_, _) =>
    case OtherExpr(_) =>
  }

  lemma {:induction false} AllGrow(W: Vocabulary, es: seq<Expr>, names: set<string>, V: Vocabulary, more: set<string>)
    requires Wider(W, names, V, more) && CheckAll(W, es, names).Accept?
    ensures CheckAll(V, es, more).Accept?
    decreases es, 0
  {
    if es != [] {
      CheckGrows(W, es[0], names, V, more);
      AllGrow(W, es[1..], names, V, more);
    }
  }

  lemma {:induction false} ItemsGrow(W: Vocabulary, items: seq<Item>, names: set<string>, V: Vocabulary,
                                     more: set<string>)
    requires Wider(W, names, V, more) && CheckKeys(W, items, names).Accept? && CheckValues(W, items, names).Accept?
    ensures CheckKeys(V, items, more).Accept? && CheckValues(V, items, more).Accept?
    decreases items, 0
  {
    if items != [] {
      ItemGrows(W, items[0], names, V, more);
      ItemsGrow(W, items[1..], names, V, more);
    }
  }

  lemma {:induction false} ItemGrows(W: Vocabulary, item: Item, names: set<string>, V: Vocabulary, more: set<string>)
    requires Wider(W, names, V, more) && CheckKey(W, item, names).Accept? && CheckValue(W, item, names).Accept?
    ensures CheckKey(V, item, more).Accept? && CheckValue(V, item, more).Accept?
    decreases item, 0
  {
    CheckGrows(W, item.value, names, V, more);
    if item.key.Some? {
      CheckGrows(W, item.key.value, names, V, more);
    }
  }

  lemma {:induction false} KeywordsGrow(W: Vocabulary, keywords: seq<Keyword>, names: set<string>, V: Vocabulary,
                                        more: set<string>)
    requires Wider(W, names, V, more) && CheckKeywords(W, keywords, names).Accept?
    ensures CheckKeywords(V, keywords, more).Accept?
    decreases keywords, 0
  {
    if keywords != [] {
      KeywordGrows(W, keywords[0], names, V, more);
      KeywordsGrow(W, keywords[1..], names, V, more);
    }
  }

  lemma {:induction false} KeywordGrows(W: Vocabulary, keyword: Keyword, names: set<string>, V: Vocabulary,
                                        more: set<string>)
    requires Wider(W, names, V, more) && CheckKeyword(W, keyword, names).Accept?
    ensures CheckKeyword(V, keyword, more).Accept?
    decreases keyword, 0
  {
    CheckGrows(W, keyword.value, names, V, more);
  }

  // ---------------------------------------------------------------------------
  // A definite program finds every name bound
  // ---------------------------------------------------------------------------

  /** The names bound now, and the helpers. */
  function Bound(W: Vocabulary, store: Store): Vocabulary {
    Vocabulary(store.Keys, W.helpers)
  }

  /** The sure names are bound, and every name loaded so far was. */
  ghost predicate Settled(W: Vocabulary, init: Store, sure: set<string>, m: Machine) {
    && InitialStore(W, init) && Intact(init, m.store)
    && sure <= m.store.Keys
    && AllHarmless(Bound(W, m.store), {}, m.trace)
  }

  lemma SettledEval(W: Vocabulary, S: Semantics, e: Expr, init: Store, sure: set<string>, m: Machine)
    requires Settled(W, init, sure, m) && CheckExpr(W, e, sure).Accept?
    ensures var r := Eval(S, e, m);
            (r.out.Ok? || r.out.Raised?) && r.after.store == m.store && Settled(W, init, sure, r.after)
  {
    var V := Bound(W, m.store);
    CheckGrows(W, e, sure, V, {});
    EvalIsGood(V, S, e, m.store, {}, m);
  }

  lemma MoreIsHarmless(V: Vocabulary, U: Vocabulary, trace: seq<Event>)
    requires V.context <= U.context && V.helpers == U.helpers && AllHarmless(V, {}, trace)
    ensures AllHarmless(U, {}, trace)
  {
  }

  /** How a settled block ends: settled again, or raising an error of an operation. */
  ghost predicate EndsSettled(W: Vocabulary, init: Store, sure: set<string>, r: Ended) {
    if r.Finished? then Settled(W, init, sure, r.after) else r.out.Raised?
  }

  lemma SettledAssign(W: Vocabulary, S: Semantics, s: Stmt, at: nat, init: Store, names: set<string>,
                      sure: set<string>, m: Machine)
    requires Settled(W, init, sure, m) && s.Assign?
    requires CheckStmt(W, s, names).verdict.Accept? && SureAfter(W, s, sure).Some?
    ensures EndsSettled(W, init, SureAfter(W, s, sure).value, Exec(S, s, at, m))
  {
    TargetsCollect(W, s.targets, names);
    SettledEval(W, S, s.source, init, sure, m);
    var r := Eval(S, s.source, m);
    if r.out.Ok? {
      BindingIsGood(W, S, s.targets, r.out.value, init, r.after);
      var b := BindAll(S, s.targets, r.out.value, r.after);
      MoreIsHarmless(Bound(W, m.store), Bound(W, b.after.store), r.after.trace);
    }
  }

  lemma {:induction false} SettledStatement(W: Vocabulary, S: Semantics, s: Stmt, at: nat, init: Store,
                                            names: set<string>, sure: set<string>, m: Machine)
    requires Settled(W, init, sure, m) && CheckStmt(W, s, names).verdict.Accept? && SureAfter(W, s, sure).Some?
    ensures EndsSettled(W, init, SureAfter(W, s, sure).value, Exec(S, s, at, m))
    decreases s, 1
  {
    match s
    case Assign(_, _) => SettledAssign(W, S, s, at, init, names, sure, m);
    case If(test, body, orelse) =>
      SettledEval(W, S, test, init, sure, m);
      var r := Eval(S, test, m);
      if r.out.Ok? {
        SettledBlock(W, S, body, at + 1, init, names, sure, r.after);
        SettledBlock(W, S, orelse, at + 1 + |InText(body)|, init, CheckStmts(W, body, names).names, sure, r.after);
      }
    case Pass =>
    case OtherStmt(_) =>
  }

  lemma {:induction false} SettledBlock(W: Vocabulary, S: Semantics, stmts: seq<Stmt>, at: nat, init: Store,
                                        names: set<string>, sure: set<string>, m: Machine)
    requires Settled(W, init, sure, m)
    requires CheckStmts(W, stmts, names).verdict.Accept? && SureAfterAll(W, stmts, sure).Some?
    ensures EndsSettled(W, init, SureAfterAll(W, stmts, sure).value, ExecAll(S, stmts, at, m))
    decreases stmts, 0
  {
    if stmts != [] {
      SettledStatement(W, S, stmts[0], at, init, names, sure, m);
      var r := Exec(S, stmts[0], at, m);
      if r.Finished? {
        SettledBlock(W, S, stmts[1..], at + 1 + |Inside(stmts[0])|, init,
                     CheckStmt(W, stmts[0], names).names, SureAfter(W, stmts[0], sure).value, r.after);
      }
    }
  }

  /**
   An accepted program with definite assignment never finds a name unbound, whatever its operations
   mean and whatever it starts with; and when `result` is surely assigned, every run that no operation
   stops yields a result.
   */
  lemma DefiniteTheorem(W: Vocabulary, S: Semantics, body: seq<Stmt>, init: Store)
    requires CheckModule(W, body, {}).verdict.Accept? && InitialStore(W, init)
    requires SureAfterAll(W, body, {}).Some?
    ensures !Output(S, body, init).Unbound?
    ensures "result" in SureAfterAll(W, body, {}).value && ExecAll(S, body, 0, Machine(init, [])).Finished? ==>
              Output(S, body, init).Ok?
  {
    SettledBlock(W, S, body, 0, init, {}, {}, Machine(init, []));
  }

  // ---------------------------------------------------------------------------
  // Without branches the condition is exact
  // ---------------------------------------------------------------------------

  /** An expression that evaluates all its parts when everything counts as true: no conditional, no `or`. */
  predicate Strict(e: Expr)
    decreases e, 1
  {
    match e
    case Constant(_) => true
    case Name(_) => true
    case Dict(items) => StrictItems(items)
    case Sequence(_, elts) => StrictAll(elts)
    case Binary(_, left, right) => Strict(left) && Strict(right)
    case Unary(_, operand) => Strict(operand)
    case Bool(isAnd, operands) => isAnd && StrictAll(operands)
    case Compare(first, ops, comparators) => |ops| == |comparators| && Strict(first) && StrictAll(comparators)
    case IfExp(_, _, _) => false
    case Subscript(container, slice) => Strict(container) && Strict(slice)
    case Call(func, args, keywords) => Strict(func) && StrictAll(args) && StrictKeywords(keywords)
    case Attribute(container, _) => Strict(container)
    case Walrus(_, value) => Strict(value)
    case OtherExpr(_) => true
  }

  predicate StrictAll(es: seq<Expr>)
    decreases es, 0
  {
    es == [] || (Strict(es[0]) && StrictAll(es[1..]))
  }

  predicate StrictItems(items: seq<Item>)
    decreases items, 0
  {
    items == [] || (StrictItem(items[0]) && StrictItems(items[1..]))
  }

  predicate StrictItem(item: Item)
    decreases item, 0
  {
    Strict(item.value) && match item.key case Some(key) => Strict(key) case None => true
  }

  predicate StrictKeywords(keywords: seq<Keyword>)
    decreases keywords, 0
  {
    keywords == [] || (StrictKeyword(keywords[0]) && StrictKeywords(keywords[1..]))
  }

  predicate StrictKeyword(keyword: Keyword)
    decreases keyword, 0
  {
    Strict(keyword.value)
  }

  predicate BranchFree(stmts: seq<Stmt>) {
    stmts == [] || ((stmts[0].Pass? || (stmts[0].Assign? && Strict(stmts[0].source))) && BranchFree(stmts[1..]))
  }

  /** Operations that all succeed and count as true. */
  const AGREEABLE := Semantics(
    _ => Null, _ => true,
    (_, _, _) => Got(Null), (_, _) => Got(Null), (_, _, _) => Got(Null), (_, _) => Got(Null),
    (_, _) => Got(Null), (_, _) => Got(Null), _ => Got(Null), (_, _, _) => Got(Null))

  /** Everything that is known when `names` are assigned is bound exactly when it is known from `sure`. */
  ghost predicate Exact(W: Vocabulary, names: set<string>, sure: set<string>, store: Store) {
    forall n :: Known(W, n, names) ==> (n in store <==> Known(W, n, sure))
  }

  /** Under agreeable operations the evaluation fails on an unbound name exactly when the check does. */
  ghost predicate Tells<T>(m: Machine, r: Ran<T>, accepted: bool) {
    && r.after.store == m.store
    && (r.out.Ok? || r.out.Unbound?)
    && (r.out.Ok? <==> accepted)
  }

  lemma {:induction false} EvalTells(W: Vocabulary, e: Expr, names: set<string>, sure: set<string>, m: Machine)
    requires Exact(W, names, sure, m.store) && CheckExpr(W, e, names).Accept? && Strict(e)
    ensures Tells(m, Eval(AGREEABLE, e, m), CheckExpr(W, e, sure).Accept?)
    decreases e, 1
  {
    match e
    case Constant(_) =>
    case Name(_) =>
    case Dict(items) => ItemsTell(W, items, names, sure, m);
    case Sequence(_, elts) => AllTell(W, elts, names, sure, m);
    case Binary(_, left, right) =>
      EvalTells(W, left, names, sure, m);
      var r := Eval(AGREEABLE, left, m);
      if r.out.Ok? { EvalTells(W, right, names, sure, r.after); }
    case Unary(_, operand) => EvalTells(W, operand, names, sure, m);
    case Bool(_, operands) => AndTells(W, operands, names, sure, m);
    case Compare(first, ops, comparators) =>
      EvalTells(W, first, names, sure, m);
      var r := Eval(AGREEABLE, first, m);
      if r.out.Ok? { ChainTells(W, r.out.value, ops, comparators, names, sure, r.after); }
    case IfExp(_, _, _) =>
    case Subscript(container, slice) =>
      EvalTells(W, container, names, sure, m);
      var r := Eval(AGREEABLE, container, m);
      if r.out.Ok? { EvalTells(W, slice, names, sure, r.after); }
    case Call(_, _, _) => CallTells(W, e, names, sure, m);
    case Attribute(_, _) =>
    case Walrus(_, _) =>
    case OtherExpr(_) =>
  }

  lemma {:induction false} CallTells(W: Vocabulary, e: Expr, names: set<string>, sure: set<string>, m: Machine)
    requires Exact(W, names, sure, m.store) && CheckExpr(W, e, names).Accept? && Strict(e) && e.Call?
    ensures Tells(m, Eval(AGREEABLE, e, m), CheckExpr(W, e, sure).Accept?)
    decreases e, 0
  {
    assert Known(W, e.func.id, names);
    var f := Eval(AGREEABLE, e.func, m);
    assert f.out.Ok?;
    AllTell(W, e.args, names, sure, f.after);
    var r := EvalAll(AGREEABLE, e.args, f.after);
    if r.out.Ok? { KeywordsTell(W, e.keywords, names, sure, r.after); }
  }

  lemma {:induction false} AllTell(W: Vocabulary, es: seq<Expr>, names: set<string>, sure: set<string>, m: Machine)
    requires Exact(W, names, sure, m.store) && CheckAll(W, es, names).Accept? && StrictAll(es)
    ensures Tells(m, EvalAll(AGREEABLE, es, m), CheckAll(W, es, sure).Accept?)
    decreases es, 0
  {
    if es != [] {
      EvalTells(W, es[0], names, sure, m);
      var r := Eval(AGREEABLE, es[0], m);
      if r.out.Ok? { AllTell(W, es[1..], names, sure, r.after); }
    }
  }

  lemma {:induction false} AndTells(W: Vocabulary, es: seq<Expr>, names: set<string>, sure: set<string>, m: Machine)
    requires Exact(W, names, sure, m.store) && CheckAll(W, es, names).Accept? && StrictAll(es)
    ensures Tells(m, EvalBool(AGREEABLE, true, es, m), CheckAll(W, es, sure).Accept?)
    decreases es, 0
  {
    if es != [] {
      EvalTells(W, es[0], names, sure, m);
      var r := Eval(AGREEABLE, es[0], m);
      if r.out.Ok? { AndTells(W, es[1..], names, sure, r.after); }
    }
  }

  lemma {:induction false} ChainTells(W: Vocabulary, left: Value, ops: seq<CompareOp>, es: seq<Expr>,
                                      names: set<string>, sure: set<string>, m: Machine)
    requires Exact(W, names, sure, m.store) && CheckAll(W, es, names).Accept? && StrictAll(es) && |ops| == |es|
    ensures Tells(m, EvalCompare(AGREEABLE, left, ops, es, m), CheckAll(W, es, sure).Accept?)
    decreases es, 0
  {
    if es != [] {
      EvalTells(W, es[0], names, sure, m);
      var r := Eval(AGREEABLE, es[0], m);
      if r.out.Ok? { ChainTells(W, r.out.value, ops[1..], es[1..], names, sure, r.after); }
    }
  }

  lemma {:induction false} ItemsTell(W: Vocabulary, items: seq<Item>, names: set<string>, sure: set<string>, m: Machine)
    requires Exact(W, names, sure, m.store) && StrictItems(items)
    requires CheckKeys(W, items, names).Accept? && CheckValues(W, items, names).Accept?
    ensures Tells(m, EvalItems(AGREEABLE, items, m),
                  CheckKeys(W, items, sure).Accept? && CheckValues(W, items, sure).Accept?)
    decreases items, 0
  {
    if items != [] {
      ItemTells(W, items[0], names, sure, m);
      var r := EvalItem(AGREEABLE, items[0], m);
      if r.out.Ok? { ItemsTell(W, items[1..], names, sure, r.after); }
    }
  }

  lemma {:induction false} ItemTells(W: Vocabulary, item: Item, names: set<string>, sure: set<string>, m: Machine)
    requires Exact(W, names, sure, m.store) && StrictItem(item)
    requires CheckKey(W, item, names).Accept? && CheckValue(W, item, names).Accept?
    ensures Tells(m, EvalItem(AGREEABLE, item, m),
                  CheckKey(W, item, sure).Accept? && CheckValue(W, item, sure).Accept?)
    decreases item, 0
  {
    match item
    case Item(None, value) => EvalTells(W, value, names, sure, m);
    case Item(Some(key), value) =>
      EvalTells(W, key, names, sure, m);
      var r := Eval(AGREEABLE, key, m);
      if r.out.Ok? { EvalTells(W, value, names, sure, r.after); }
  }

  lemma {:induction false} KeywordsTell(W: Vocabulary, keywords: seq<Keyword>, names: set<string>, sure: set<string>,
                                        m: Machine)
    requires Exact(W, names, sure, m.store) && CheckKeywords(W, keywords, names).Accept? && StrictKeywords(keywords)
    ensures Tells(m, EvalKeywords(AGREEABLE, keywords, m), CheckKeywords(W, keywords, sure).Accept?)
    decreases keywords, 0
  {
    if keywords != [] {
      KeywordTells(W, keywords[0], names, sure, m);
      var r := EvalKeyword(AGREEABLE, keywords[0], m);
      if r.out.Ok? { KeywordsTell(W, keywords[1..], names, sure, r.after); }
    }
  }

  lemma {:induction false} KeywordTells(W: Vocabulary, keyword: Keyword, names: set<string>, sure: set<string>,
                                        m: Machine)
    requires Exact(W, names, sure, m.store) && CheckKeyword(W, keyword, names).Accept? && StrictKeyword(keyword)
    ensures Tells(m, EvalKeyword(AGREEABLE, keyword, m), CheckKeyword(W, keyword, sure).Accept?)
    decreases keyword, 0
  {
    EvalTells(W, keyword.value, names, sure, m);
  }

  /** The state between the statements of a branch-free program: the assigned names are the added ones. */
  ghost predicate Assigns(W: Vocabulary, init: Store, names: set<string>, m: Machine) {
    InitialStore(W, init) && Fresh(W, names) && Intact(init, m.store) && m.store.Keys == init.Keys + names
  }

  lemma AssignsExactly(W: Vocabulary, init: Store, names: set<string>, more: set<string>, m: Machine)
    requires Assigns(W, init, names, m) && Fresh(W, more)
    ensures Exact(W, more, names, m.store)
  {
  }

  lemma AssignTells(W: Vocabulary, s: Stmt, at: nat, init: Store, names: set<string>, m: Machine)
    requires Assigns(W, init, names, m) && s.Assign? && Strict(s.source) && CheckStmt(W, s, names).verdict.Accept?
    ensures var r := Exec(AGREEABLE, s, at, m);
            if SureAfter(W, s, names).Some? then
              && r.Finished? && SureAfter(W, s, names).value == CheckStmt(W, s, names).names
              && Assigns(W, init, CheckStmt(W, s, names).names, r.after)
            else r.Stopped? && r.out.Unbound?
  {
    var more := CheckStmt(W, s, names).names;
    TargetsCollect(W, s.targets, names);
    AssignsExactly(W, init, names, more, m);
    EvalTells(W, s.source, more, names, m);
    var r := Eval(AGREEABLE, s.source, m);
    if r.out.Ok? {
      BindingIsGood(W, AGREEABLE, s.targets, r.out.value, init, r.after);
    }
  }

  /** Without branches every assigned name is a sure one. */
  lemma {:induction false} BlockTells(W: Vocabulary, stmts: seq<Stmt>, at: nat, init: Store, names: set<string>,
                                      m: Machine)
    requires Assigns(W, init, names, m) && BranchFree(stmts) && CheckStmts(W, stmts, names).verdict.Accept?
    ensures var r := ExecAll(AGREEABLE, stmts, at, m);
            if SureAfterAll(W, stmts, names).Some? then
              r.Finished? && SureAfterAll(W, stmts, names).value == CheckStmts(W, stmts, names).names
            else r.Stopped? && r.out.Unbound?
    decreases stmts
  {
    if stmts != [] {
      var s := stmts[0];
      if s.Assign? {
        AssignTells(W, s, at, init, names, m);
      }
      var r := Exec(AGREEABLE, s, at, m);
      assert SureAfterAll(W, stmts, names)
             == (var after := SureAfter(W, s, names);
                 if after.None? then None else SureAfterAll(W, stmts[1..], after.value));
      if r.Stopped? {
        assert SureAfter(W, s, names).None?;
        assert ExecAll(AGREEABLE, stmts, at, m) == r;
      }
      if r.Finished? {
        BlockTells(W, stmts[1..], at + 1 + |Inside(s)|, init, CheckStmt(W, s, names).names, r.after);
      }
    }
  }

  /**
   An accepted program without branches has definite assignment exactly when no meaning of its
   operations and no initial namespace lets it find a name unbound; and then every run that no
   operation stops yields a result.
   */
  lemma BranchFreeTheorem(W: Vocabulary, body: seq<Stmt>)
    requires CheckModule(W, body, {}).verdict.Accept? && BranchFree(body)
    ensures SureAfterAll(W, body, {}).Some?
            <==> forall S, init :: InitialStore(W, init) ==> !Output(S, body, init).Unbound?
    ensures SureAfterAll(W, body, {}).Some? ==>
              forall S, init :: InitialStore(W, init) && ExecAll(S, body, 0, Machine(init, [])).Finished? ==>
                Output(S, body, init).Ok?
  {
    var init := SomeInitial(W);
    BlockTells(W, body, 0, init, {}, Machine(init, []));
    if SureAfterAll(W, body, {}).Some? {
      forall S, init | InitialStore(W, init)
        ensures !Output(S, body, init).Unbound?
        ensures ExecAll(S, body, 0, Machine(init, [])).Finished? ==> Output(S, body, init).Ok?
      {
        DefiniteTheorem(W, S, body, init);
      }
    } else {
      assert Output(AGREEABLE, body, init).Unbound?;
    }
  }

  function SomeInitial(W: Vocabulary): (init: Store)
    ensures InitialStore(W, init)
  {
    map n | n in W.context + W.helpers :: if n in W.helpers then Helper(n) else Null
  }

  /** A block of one assignment. */
  lemma OneAssignment(W: Vocabulary, S: Semantics, x: string, e: Expr, names: set<string>, sure: set<string>,
                      at: nat, m: Machine)
    requires Fresh(W, {x})
    ensures CheckStmts(W, [Assign([Name(x)], e)], names) == Checked(CheckExpr(W, e, names + {x}), names + {x})
    ensures SureAfterAll(W, [Assign([Name(x)], e)], sure)
            == if CheckExpr(W, e, sure).Accept? then Some(sure + {x}) else None
    ensures var r := Eval(S, e, m);
            r.out.Ok? ==> ExecAll(S, [Assign([Name(x)], e)], at, m)
                          == Finished(r.after.(store := r.after.store[x := r.out.value]))
  {
    var targets, s := [Name(x)], Assign([Name(x)], e);
    assert targets[1..] == [] && [s][1..] == [];
    assert CheckTargets(W, targets, names) == Checked(Accept, names + {x});
    assert TargetNames(targets) == {x};
    assert SureAfterAll(W, [], sure + {x}) == Some(sure + {x});
    var r := Eval(S, e, m);
    if r.out.Ok? {
      var bound := r.after.(store := r.after.store[x := r.out.value]);
      assert BindAll(S, targets, r.out.value, r.after) == Ran(Ok(()), bound);
      assert Exec(S, s, at, m) == Finished(bound);
    }
  }

  /** Assigns x when the flag is true. */
  function First(flag: string, x: string): Stmt {
    If(Name(flag), [Assign([Name(x)], Constant(1))], [])
  }

  /** Uses x when the flag is true. */
  function Second(flag: string, x: string, result: string): Stmt {
    If(Name(flag), [Assign([Name(result)], Name(x))], [Assign([Name(result)], Constant(1))])
  }

  lemma FirstIsAccepted(W: Vocabulary, S: Semantics, flag: string, x: string, m: Machine)
    requires flag in W.context && Fresh(W, {x}) && flag in m.store
    ensures CheckStmt(W, First(flag, x), {}) == Checked(Accept, {x}) && SureAfter(W, First(flag, x), {}) == Some({})
    ensures var r := Exec(S, First(flag, x), 0, m);
            r.Finished? && flag in r.after.store && r.after.store[flag] == m.store[flag]
            && (S.truthy(m.store[flag]) ==> x in r.after.store)
  {
    var body := [Assign([Name(x)], Constant(1))];
    var m1 := Log(m, Loaded(flag));
    assert x in {x};
    OneAssignment(W, S, x, Constant(1), {}, {}, 1, m1);
    assert {} + {x} == {x};
    assert SureAfterAll(W, [], {}) == Some({}) && SureAfterAll(W, body, {}) == Some({x});
    assert Meet(Some({x}), Some({})).value == {};
    assert CheckStmts(W, [], {x}) == Checked(Accept, {x});
  }

  lemma SecondIsAccepted(W: Vocabulary, S: Semantics, flag: string, x: string, result: string, at: nat, m: Machine)
    requires flag in W.context && Fresh(W, {x}) && Fresh(W, {result}) && x != result && flag in m.store
    requires S.truthy(m.store[flag]) ==> x in m.store
    ensures CheckStmt(W, Second(flag, x, result), {x}) == Checked(Accept, {x, result})
    ensures SureAfter(W, Second(flag, x, result), {}).None?
    ensures Exec(S, Second(flag, x, result), at, m).Finished?
  {
    var m1 := Log(m, Loaded(flag));
    assert x in {x} && !W.Has(x);
    OneAssignment(W, S, result, Name(x), {x}, {}, at + 1, m1);
    OneAssignment(W, S, result, Constant(1), {x, result}, {}, at + 2, m1);
    assert {x} + {result} == {x, result} && {x, result} + {result} == {x, result};
    assert |InText([Assign([Name(result)], Name(x))])| == 1 by {
      assert [Assign([Name(result)], Name(x))][1..] == [];
    }
  }

  /**
   With branches the condition errs on the safe side: two conditionals on one flag never load the name
   unbound, although neither conditional makes it sure.
   */
  lemma CorrelatedBranches(W: Vocabulary, S: Semantics, init: Store, flag: string, x: string, result: string)
    requires InitialStore(W, init) && flag in W.context && Fresh(W, {x, result}) && x != result
    ensures var body := [First(flag, x), Second(flag, x, result)];
            && CheckStmts(W, body, {}) == Checked(Accept, {x, result})
            && SureAfterAll(W, body, {}).None?
            && ExecAll(S, body, 0, Machine(init, [])).Finished?
  {
    var m, first, second := Machine(init, []), First(flag, x), Second(flag, x, result);
    assert x in {x, result} && result in {x, result};
    FirstIsAccepted(W, S, flag, x, m);
    var r, at := Exec(S, first, 0, m), 1 + |Inside(first)|;
    SecondIsAccepted(W, S, flag, x, result, at, r.after);
    assert [first, second][1..] == [second] && [second][1..] == [];
    assert CheckStmts(W, [second], {x}) == Checked(Accept, {x, result});
    assert SureAfterAll(W, [second], {}).None?;
    assert ExecAll(S, [second], at, r.after).Finished?;
  }
}

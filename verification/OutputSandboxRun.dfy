/**
 Execution of custom output code, and what validation guarantees about it. The meaning of operators,
 subscripts, attributes and calls is arbitrary: it is a parameter. The interpreter runs every
 program of the syntax tree, including what the validator rejects, and records what it loads, calls
 and mutates.
 */
module OutputSandboxRun {
  import opened Text
  import opened OutputSandbox

  datatype Value =
    | Null
    | Truth(truth: bool)
    | Number(number: real)
    | Str(text: string)
    | ListOf(items: seq<Value>)
    | MapOf(entries: map<string, Value>)
    | Helper(name: string)
    | Foreign(id: int)

  datatype Answer = Got(value: Value) | Fault(message: string)

  /** What Python's operations do; they see values, never the namespace. */
  datatype Semantics = Semantics(
    literal: int -> Value,
    truthy: Value -> bool,
    binary: (BinaryOp, Value, Value) -> Answer,
    unary: (UnaryOp, Value) -> Answer,
    compare: (CompareOp, Value, Value) -> Answer,
    subscript: (Value, Value) -> Answer,
    attribute: (Value, string) -> Answer,
    sequence: (bool, seq<Value>) -> Answer,
    dict: seq<(Option<Value>, Value)> -> Answer,
    call: (Value, seq<Value>, seq<(string, Value)>) -> Answer)

  datatype Event = Loaded(name: string) | Invoked(callee: Value) | Mutated(container: Value)

  /** The namespace of a program. */
  type Store = map<string, Value>

  datatype Machine = Machine(store: Store, trace: seq<Event>)

  datatype Outcome<T> = Ok(value: T) | Unbound(name: string) | Raised(message: string) | Stuck

  /** An outcome and the machine it left behind; `:-` continues with the value of a good one. */
  datatype Ran<T> = Ran(out: Outcome<T>, after: Machine) {
    predicate IsFailure() {
      !out.Ok?
    }

    function PropagateFailure<U>(): Ran<U>
      requires IsFailure()
    {
      match out
      case Unbound(name) => Ran(Unbound(name), after)
      case Raised(message) => Ran(Raised(message), after)
      case Stuck => Ran(Stuck, after)
    }

    function Extract(): (T, Machine)
      requires !IsFailure()
    {
      (out.value, after)
    }
  }

  function Log(m: Machine, e: Event): Machine {
    m.(trace := m.trace + [e])
  }

  function Answered(a: Answer, m: Machine): Ran<Value> {
    Ran(if a.Got? then Ok(a.value) else Raised(a.message), m)
  }

  // ---------------------------------------------------------------------------
  // Expressions
  // ---------------------------------------------------------------------------

  function Eval(S: Semantics, e: Expr, m: Machine): Ran<Value>
    decreases e, 1
  {
    match e
    case Constant(literal) => Ran(Ok(S.literal(literal)), m)
    case Name(id) => Ran(if id in m.store then Ok(m.store[id]) else Unbound(id), Log(m, Loaded(id)))
    case Dict(items) =>
      var (entries, m1) :- EvalItems(S, items, m);
      Answered(S.dict(entries), m1)
    case Sequence(isList, elts) =>
      var (vs, m1) :- EvalAll(S, elts, m);
      Answered(S.sequence(isList, vs), m1)
    case Binary(op, left, right) =>
      var (v, m1) :- Eval(S, left, m);
      var (w, m2) :- Eval(S, right, m1);
      Answered(S.binary(op, v, w), m2)
    case Unary(uop, operand) =>
      var (v, m1) :- Eval(S, operand, m);
      Answered(S.unary(uop, v), m1)
    case Bool(isAnd, operands) => EvalBool(S, isAnd, operands, m)
    case Compare(first, ops, comparators) =>
      var (v, m1) :- Eval(S, first, m);
      EvalCompare(S, v, ops, comparators, m1)
    case IfExp(test, body, orelse) =>
      var (v, m1) :- Eval(S, test, m);
      if S.truthy(v) then Eval(S, body, m1) else Eval(S, orelse, m1)
    case Subscript(container, slice) =>
      var (v, m1) :- Eval(S, container, m);
      var (w, m2) :- Eval(S, slice, m1);
      Answered(S.subscript(v, w), m2)
    case Call(func, args, keywords) =>
      var (f, m1) :- Eval(S, func, m);
      var (vs, m2) :- EvalAll(S, args, m1);
      var (ks, m3) :- EvalKeywords(S, keywords, m2);
      Answered(S.call(f, vs, ks), Log(m3, Invoked(f)))
    case Attribute(container, attr) =>
      var (v, m1) :- Eval(S, container, m);
      Answered(S.attribute(v, attr), m1)
    case Walrus(target, value) =>
      var (v, m1) :- Eval(S, value, m);
      Ran(Ok(v), m1.(store := m1.store[target := v]))
    case OtherExpr(_) => Ran(Stuck, m)
  }

  function EvalAll(S: Semantics, es: seq<Expr>, m: Machine): Ran<seq<Value>>
    decreases es, 0
  {
    if es == [] then Ran(Ok([]), m)
    else
      var (v, m1) :- Eval(S, es[0], m);
      var (vs, m2) :- EvalAll(S, es[1..], m1);
      Ran(Ok([v] + vs), m2)
  }

  /** Key, value, key, value, ... of a dictionary display. */
  function EvalItems(S: Semantics, items: seq<Item>, m: Machine): Ran<seq<(Option<Value>, Value)>>
    decreases items, 0
  {
    if items == [] then Ran(Ok([]), m)
    else
      var (entry, m1) :- EvalItem(S, items[0], m);
      var (rest, m2) :- EvalItems(S, items[1..], m1);
      Ran(Ok([entry] + rest), m2)
  }

  function EvalItem(S: Semantics, item: Item, m: Machine): Ran<(Option<Value>, Value)>
    decreases item, 0
  {
    match item
    case Item(None, value) =>
      var (v, m1) :- Eval(S, value, m);
      Ran(Ok((None, v)), m1)
    case Item(Some(key), value) =>
      var (k, m1) :- Eval(S, key, m);
      var (v, m2) :- Eval(S, value, m1);
      Ran(Ok((Some(k), v)), m2)
  }

  function EvalKeywords(S: Semantics, keywords: seq<Keyword>, m: Machine): Ran<seq<(string, Value)>>
    decreases keywords, 0
  {
    if keywords == [] then Ran(Ok([]), m)
    else
      var (v, m1) :- EvalKeyword(S, keywords[0], m);
      var (rest, m2) :- EvalKeywords(S, keywords[1..], m1);
      Ran(Ok([v] + rest), m2)
  }

  function EvalKeyword(S: Semantics, keyword: Keyword, m: Machine): Ran<(string, Value)>
    decreases keyword, 0
  {
    var (v, m1) :- Eval(S, keyword.value, m);
    if keyword.arg.Some? then Ran(Ok((keyword.arg.value, v)), m1) else Ran(Stuck, m1)
  }

  /** Short-circuit `and` and `or`: the last value reached. */
  function EvalBool(S: Semantics, isAnd: bool, es: seq<Expr>, m: Machine): Ran<Value>
    decreases es, 0
  {
    if es == [] then Ran(Ok(Truth(isAnd)), m)
    else
      var (v, m1) :- Eval(S, es[0], m);
      if |es| > 1 && S.truthy(v) == isAnd then EvalBool(S, isAnd, es[1..], m1) else Ran(Ok(v), m1)
  }

  /** A comparison chain: stops at the first comparison that does not hold. */
  function EvalCompare(S: Semantics, left: Value, ops: seq<CompareOp>, es: seq<Expr>, m: Machine): Ran<Value>
    decreases es, 0
  {
    if ops == [] || es == [] then Ran(Ok(left), m)
    else
      var (w, m1) :- Eval(S, es[0], m);
      var (c, m2) :- Answered(S.compare(ops[0], left, w), m1);
      if |es| > 1 && S.truthy(c) then EvalCompare(S, w, ops[1..], es[1..], m2) else Ran(Ok(c), m2)
  }

  // ---------------------------------------------------------------------------
  // Statements
  // ---------------------------------------------------------------------------

  /** Binds a target, or mutates the object that it names a part of. */
  function Bind(S: Semantics, target: Expr, v: Value, m: Machine): Ran<()> {
    match target
    case Name(id) => Ran(Ok(()), m.(store := m.store[id := v]))
    case Subscript(container, slice) =>
      var (c, m1) :- Eval(S, container, m);
      var (_, m2) :- Eval(S, slice, m1);
      Ran(Ok(()), Log(m2, Mutated(c)))
    case Attribute(container, _) =>
      var (c, m1) :- Eval(S, container, m);
      Ran(Ok(()), Log(m1, Mutated(c)))
    case _ => Ran(Stuck, m)
  }

  function BindAll(S: Semantics, targets: seq<Expr>, v: Value, m: Machine): Ran<()> {
    if targets == [] then Ran(Ok(()), m)
    else
      var (_, m1) :- Bind(S, targets[0], v, m);
      BindAll(S, targets[1..], v, m1)
  }

  /** The statements of a block in the order of the text: each before the blocks inside it. */
  function InText(stmts: seq<Stmt>): seq<Stmt>
    decreases stmts, 0
  {
    if stmts == [] then [] else [stmts[0]] + Inside(stmts[0]) + InText(stmts[1..])
  }

  function Inside(s: Stmt): seq<Stmt>
    decreases s, 1
  {
    if s.If? then InText(s.body) + InText(s.orelse) else []
  }

  /** How a block ended: `at` is the position in the text of the statement that failed. */
  datatype Ended = Finished(after: Machine) | Stopped(out: Outcome<()>, at: nat, after: Machine)

  function Stop<T>(r: Ran<T>, at: nat): Ended {
    if r.IsFailure() then
      var f: Ran<()> := r.PropagateFailure();
      Stopped(f.out, at, f.after)
    else Finished(r.after)
  }

  /** Runs one statement that stands at position `at`. */
  function Exec(S: Semantics, s: Stmt, at: nat, m: Machine): Ended
    decreases s, 1
  {
    match s
    case Assign(targets, source) =>
      var r := Eval(S, source, m);
      if r.IsFailure() then Stop(r, at) else Stop(BindAll(S, targets, r.out.value, r.after), at)
    case If(test, body, orelse) =>
      var r := Eval(S, test, m);
      if r.IsFailure() then Stop(r, at)
      else if S.truthy(r.out.value) then ExecAll(S, body, at + 1, r.after)
      else ExecAll(S, orelse, at + 1 + |InText(body)|, r.after)
    case Pass => Finished(m)
    case OtherStmt(_) => Stopped(Stuck, at, m)
  }

  /** Runs a block whose first statement stands at position `at`. */
  function ExecAll(S: Semantics, stmts: seq<Stmt>, at: nat, m: Machine): Ended
    decreases stmts, 0
  {
    if stmts == [] then Finished(m)
    else
      var r := Exec(S, stmts[0], at, m);
      if r.Stopped? then r else ExecAll(S, stmts[1..], at + 1 + |Inside(stmts[0])|, r.after)
  }

  // ---------------------------------------------------------------------------
  // What running means
  // ---------------------------------------------------------------------------

  /** The value of an operation on two names: operands in order, one branch only, chains and shortcuts as in Python. */
  lemma OperationsRun(S: Semantics, m: Machine, x: string, y: string, op: BinaryOp, cmp: CompareOp)
    requires x in m.store && y in m.store
    ensures var v, w, left, right := m.store[x], m.store[y], Name(x), Name(y);
            && Eval(S, Binary(op, left, right), m).out == Answered(S.binary(op, v, w), m).out
            && Eval(S, Subscript(left, right), m).out == Answered(S.subscript(v, w), m).out
            && Eval(S, Compare(left, [cmp], [right]), m).out == Answered(S.compare(cmp, v, w), m).out
            && Eval(S, Bool(true, [left, right]), m).out == Ok(if S.truthy(v) then w else v)
            && Eval(S, Bool(false, [left, right]), m).out == Ok(if S.truthy(v) then v else w)
  {
    var left, right := Name(x), Name(y);
    var m1 := Log(m, Loaded(x));
    assert Eval(S, left, m) == Ran(Ok(m.store[x]), m1) && Eval(S, right, m1) == Ran(Ok(m.store[y]), Log(m1, Loaded(y)));
    assert [left, right][1..] == [right];
    ShortcutsRun(S, m, x, y, true);
    ShortcutsRun(S, m, x, y, false);
  }

  lemma ShortcutsRun(S: Semantics, m: Machine, x: string, y: string, isAnd: bool)
    requires x in m.store && y in m.store
    ensures var v, w := m.store[x], m.store[y];
            EvalBool(S, isAnd, [Name(x), Name(y)], m).out == Ok(if S.truthy(v) == isAnd then w else v)
  {
    var es, m1 := [Name(x), Name(y)], Log(m, Loaded(x));
    assert es[1..] == [Name(y)];
    assert Eval(S, es[0], m) == Ran(Ok(m.store[x]), m1);
    assert Eval(S, [Name(y)][0], m1) == Ran(Ok(m.store[y]), Log(m1, Loaded(y)));
    assert EvalBool(S, isAnd, [Name(y)], m1) == Ran(Ok(m.store[y]), Log(m1, Loaded(y)));
  }

  /** A conditional, as an expression or a statement, runs the one branch that its test chooses. */
  lemma BranchesRun(S: Semantics, m: Machine, flag: string, x: string, y: string, result: string, at: nat)
    requires flag in m.store && x in m.store && y in m.store
    ensures var chosen := if S.truthy(m.store[flag]) then m.store[x] else m.store[y];
            && Eval(S, IfExp(Name(flag), Name(x), Name(y)), m).out == Ok(chosen)
            && var ended := Exec(S, If(Name(flag), [Assign([Name(result)], Name(x))], [Assign([Name(result)], Name(y))]), at, m);
               ended.Finished? && ended.after.store == m.store[result := chosen]
  {
    var m1 := Log(m, Loaded(flag));
    AssignmentRuns(S, m1, x, result, at + 1);
    AssignmentRuns(S, m1, y, result, at + 2);
    assert InText([Assign([Name(result)], Name(x))]) == [Assign([Name(result)], Name(x))];
  }

  /** A block with one assignment binds its name. */
  lemma AssignmentRuns(S: Semantics, m: Machine, x: string, result: string, at: nat)
    requires x in m.store
    ensures var ended := ExecAll(S, [Assign([Name(result)], Name(x))], at, m);
            ended.Finished? && ended.after.store == m.store[result := m.store[x]]
  {
    var s := Assign([Name(result)], Name(x));
    var m1 := Log(m, Loaded(x));
    assert [s][1..] == [] && [Name(result)][1..] == [];
    assert Eval(S, Name(x), m) == Ran(Ok(m.store[x]), m1);
    var m2 := m1.(store := m1.store[result := m.store[x]]);
    assert Bind(S, Name(result), m.store[x], m1) == Ran(Ok(()), m2);
    assert BindAll(S, [Name(result)], m.store[x], m1) == BindAll(S, [], m.store[x], m2) == Ran(Ok(()), m2);
    assert Exec(S, s, at, m) == Finished(m2);
  }

  /** Statements run one after the other, each on the machine that the one before leaves. */
  lemma {:induction false} BlocksRun(S: Semantics, front: seq<Stmt>, back: seq<Stmt>, at: nat, m: Machine)
    requires ExecAll(S, front, at, m).Finished?
    ensures ExecAll(S, front + back, at, m)
            == ExecAll(S, back, at + |InText(front)|, ExecAll(S, front, at, m).after)
  {
    if front == [] {
      assert front + back == back;
    } else {
      assert (front + back)[1..] == front[1..] + back;
      BlocksRun(S, front[1..], back, at + 1 + |Inside(front[0])|, Exec(S, front[0], at, m).after);
    }
  }
}

// The tree-walking interpreter (src/st/interpreter.cpp): a specification as
// functions on stores, and the imperative interpreter proved against it.

module Interpreter {
  import opened Values
  import opened Ast

  const MAX_ITERATIONS: nat := 1_000_000

  function Evaluate(e: Expr, s: Store): Result<Value> {
    match e
    case Literal(v) => Ok(v)
    case Identifier(_, id) => if id < |s| then Ok(s[id]) else Err(Unresolved)
    case Unary(op, x) =>
      var v :- Evaluate(x, s);
      EvalUnary(op, v)
    case Binary(op, l, r) =>
      var lv :- Evaluate(l, s);
      var rv :- Evaluate(r, s);
      EvalBinary(op, lv, rv)
  }

  function Condition(e: Expr, s: Store): Result<bool> {
    var v :- Evaluate(e, s);
    if v.VBool? then Ok(v.b) else Err(TypeMismatch)
  }

  function WriteTag(s: Store, id: nat, v: Value): Result<Store> {
    if id < |s| then Ok(s[id := v]) else Err(Unresolved)
  }

  // tags.write(id, coerceToType(v, tags.typeOf(id)))
  function StoreCoerced(types: seq<TypeId>, s: Store, id: nat, v: Value): Result<Store> {
    if id >= |types| then Err(Unresolved)
    else
      var c :- CoerceToType(v, types[id]);
      WriteTag(s, id, c)
  }

  function ApplyResets(resets: seq<TempReset>, s: Store): Result<Store> {
    if resets == [] then Ok(s)
    else
      var s1 :- WriteTag(s, resets[0].id, resets[0].value);
      ApplyResets(resets[1..], s1)
  }

  // Each ':=' argument is evaluated and written before the next one.
  function PassInputs(types: seq<TypeId>, args: seq<CallArg>, s: Store): Result<Store> {
    if args == [] then Ok(s)
    else match args[0]
      case InputArg(_, e, param) =>
        var v :- Evaluate(e, s);
        var s1 :- StoreCoerced(types, s, param, v);
        PassInputs(types, args[1..], s1)
      case OutputArg(_, _, _, _) => PassInputs(types, args[1..], s)
  }

  function PassOutputs(types: seq<TypeId>, args: seq<CallArg>, s: Store): Result<Store> {
    if args == [] then Ok(s)
    else match args[0]
      case InputArg(_, _, _) => PassOutputs(types, args[1..], s)
      case OutputArg(_, _, param, target) =>
        if param >= |s| then Err(Unresolved)
        else
          var s1 :- StoreCoerced(types, s, target, s[param]);
          PassOutputs(types, args[1..], s1)
  }

  // Direct coils follow the power, SET and RESET coils only act under power.
  function DriveCoil(o: RungOutput, powered: bool, s: Store): Result<Store> {
    match o.kind
    case Direct => WriteTag(s, o.targetId, VBool(powered))
    case Set => if powered then WriteTag(s, o.targetId, VBool(true)) else Ok(s)
    case Reset => if powered then WriteTag(s, o.targetId, VBool(false)) else Ok(s)
  }

  function DriveCoils(outs: seq<RungOutput>, powered: bool, s: Store): Result<Store> {
    if outs == [] then Ok(s)
    else
      var s1 :- DriveCoil(outs[0], powered, s);
      DriveCoils(outs[1..], powered, s1)
  }

  // limit is the frame bound of the running body. A bound program never calls at
  // or above it (see Ast.StmtBound), which is what makes these functions total.
  function ExecBlock(p: Program, limit: nat, ss: seq<Stmt>, s: Store): Result<Store>
    decreases limit, ss, 0, 0
  {
    if ss == [] then Ok(s)
    else
      var s1 :- ExecStmt(p, limit, ss[0], s);
      ExecBlock(p, limit, ss[1..], s1)
  }

  function ExecStmt(p: Program, limit: nat, st: Stmt, s: Store): Result<Store>
    decreases limit, st, 1, 0
  {
    match st
    case Assign(_, id, e) =>
      var v :- Evaluate(e, s);
      StoreCoerced(p.types, s, id, v)
    case If(_, _) => ExecBranches(p, limit, st, 0, s)
    case While(_, _) => ExecLoop(p, limit, st, 0, s)
    case Call(_, args, f) =>
      if f >= limit || f >= |p.frames| then Err(Unresolved)
      else
        var s1 :- ApplyResets(p.frames[f].tempResets, s);
        var s2 :- PassInputs(p.types, args, s1);
        var s3 :- ExecBlock(p, f, p.frames[f].body, s2);
        PassOutputs(p.types, args, s3)
    case Rung(c, outs) =>
      var powered :- Condition(c, s);
      DriveCoils(outs, powered, s)
  }

  function ExecBranches(p: Program, limit: nat, st: Stmt, k: nat, s: Store): Result<Store>
    requires st.If? && k <= |st.branches|
    decreases limit, st, 0, |st.branches| - k
  {
    if k == |st.branches| then ExecBlock(p, limit, st.elseBody, s)
    else
      var c :- Condition(st.branches[k].condition, s);
      if c then ExecBlock(p, limit, st.branches[k].body, s) else ExecBranches(p, limit, st, k + 1, s)
  }

  // The loop limit is tested after the body, on the number of completed passes.
  function ExecLoop(p: Program, limit: nat, st: Stmt, passes: nat, s: Store): Result<Store>
    requires st.While? && passes <= MAX_ITERATIONS
    decreases limit, st, 0, MAX_ITERATIONS - passes
  {
    var c :- Condition(st.condition, s);
    if !c then Ok(s)
    else
      var s1 :- ExecBlock(p, limit, st.body, s);
      if passes + 1 > MAX_ITERATIONS then Err(LoopLimit) else ExecLoop(p, limit, st, passes + 1, s1)
  }

  function Run(p: Program, s: Store): Result<Store> {
    ExecBlock(p, |p.frames|, p.body, s)
  }
}

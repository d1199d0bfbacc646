// The interpreter as the source writes it: methods that update the tag store
// step by step, each proved to compute the specification in Interpreter and to keep
// every tag at its declared type, also where it stops on a fault.

module TreeWalker {
  import opened Values
  import opened Ast
  import I = Interpreter

  // include/softplc/tags/tag_store.hpp: declared types are fixed, values change.
  class TagStore {
    const types: seq<TypeId>
    var values: Store

    constructor (types: seq<TypeId>, initials: Store)
      requires |types| == |initials|
      ensures this.types == types && values == initials
    {
      this.types := types;
      values := initials;
    }

    // Changes one tag, or nothing where there is no such tag.
    method Write(id: nat, v: Value) returns (fault: Option<Fault>)
      modifies this
      ensures Outcome(I.WriteTag(old(values), id, v), fault, values)
      ensures fault.Some? ==> values == old(values)
    {
      if id >= |values| { return Some(Unresolved); }
      values := values[id := v];
      return None;
    }

    // write(id, coerceToType(v, typeOf(id)))
    method WriteCoerced(id: nat, v: Value) returns (fault: Option<Fault>)
      modifies this
      ensures Outcome(I.StoreCoerced(types, old(values), id, v), fault, values)
      ensures fault.Some? ==> values == old(values)
      ensures old(WellTyped(types, values)) ==> WellTyped(types, values)
    {
      if id >= |types| { return Some(Unresolved); }
      var c := CoerceToType(v, types[id]);
      if c.Err? { return Some(c.fault); }
      fault := Write(id, c.value);
    }
  }

  // A run either throws the specified fault or ends with the specified store.
  ghost predicate Outcome(spec: Result<Store>, fault: Option<Fault>, values: Store) {
    match spec
    case Ok(s) => fault.None? && values == s
    case Err(f) => fault == Some(f)
  }

  class TreeWalker {
    const program: Program
    const tags: TagStore

    ghost predicate Valid() {
      Bound(program) && tags.types == program.types
    }

    constructor (program: Program, tags: TagStore)
      requires Bound(program) && tags.types == program.types
      ensures this.program == program && this.tags == tags && Valid()
    {
      this.program := program;
      this.tags := tags;
    }

    ghost predicate Typed()
      reads tags
    {
      WellTyped(program.types, tags.values)
    }

    ghost predicate MayRun(limit: nat, ss: seq<Stmt>) {
      Valid() && limit <= |program.frames| && BlockBound(program.types, program.frames, limit, ss)
    }

    ghost predicate MayExec(limit: nat, st: Stmt) {
      Valid() && limit <= |program.frames| && StmtBound(program.types, program.frames, limit, st)
    }

    method ExecBlock(ghost limit: nat, stmts: seq<Stmt>) returns (fault: Option<Fault>)
      requires MayRun(limit, stmts)
      modifies tags
      ensures Outcome(I.ExecBlock(program, limit, stmts, old(tags.values)), fault, tags.values)
      ensures old(Typed()) ==> Typed()
      decreases limit, stmts, 0
    {
      for i := 0 to |stmts|
        invariant old(Typed()) ==> Typed()
        invariant I.ExecBlock(program, limit, stmts[i..], tags.values) == I.ExecBlock(program, limit, stmts, old(tags.values))
      {
        assert stmts[i..][0] == stmts[i] && stmts[i..][1..] == stmts[i + 1..];
        assert stmts[i] in stmts;
        var f := ExecStmt(limit, stmts[i]);
        if f.Some? { return f; }
      }
      return None;
    }

    method ExecStmt(ghost limit: nat, stmt: Stmt) returns (fault: Option<Fault>)
      requires MayExec(limit, stmt)
      modifies tags
      ensures Outcome(I.ExecStmt(program, limit, stmt, old(tags.values)), fault, tags.values)
      ensures old(Typed()) ==> Typed()
      decreases limit, stmt, 1
    {
      match stmt
      case Assign(_, id, e) =>
        var v := I.Evaluate(e, tags.values);
        if v.Err? { return Some(v.fault); }
        fault := tags.WriteCoerced(id, v.value);
      case If(_, _) => fault := ExecIf(limit, stmt);
      case While(_, _) => fault := ExecWhile(limit, stmt);
      case Call(_, _, _) => fault := ExecCall(limit, stmt);
      case Rung(_, _) => fault := ExecRung(limit, stmt);
    }

    method ExecIf(ghost limit: nat, stmt: Stmt) returns (fault: Option<Fault>)
      requires MayExec(limit, stmt) && stmt.If?
      modifies tags
      ensures Outcome(I.ExecBranches(program, limit, stmt, 0, old(tags.values)), fault, tags.values)
      ensures old(Typed()) ==> Typed()
      decreases limit, stmt, 0
    {
      for k := 0 to |stmt.branches|
        invariant tags.values == old(tags.values)
        invariant I.ExecBranches(program, limit, stmt, k, tags.values) == I.ExecBranches(program, limit, stmt, 0, tags.values)
      {
        assert stmt.branches[k] in stmt.branches;
        var c := I.Condition(stmt.branches[k].condition, tags.values);
        if c.Err? { return Some(c.fault); }
        if c.value {
          fault := ExecBlock(limit, stmt.branches[k].body);
          return;
        }
      }
      fault := ExecBlock(limit, stmt.elseBody);
    }

    method ExecWhile(ghost limit: nat, stmt: Stmt) returns (fault: Option<Fault>)
      requires MayExec(limit, stmt) && stmt.While?
      modifies tags
      ensures Outcome(I.ExecLoop(program, limit, stmt, 0, old(tags.values)), fault, tags.values)
      ensures old(Typed()) ==> Typed()
      decreases limit, stmt, 0
    {
      var iterations := 0;
      while true
        invariant old(Typed()) ==> Typed()
        invariant 0 <= iterations <= I.MAX_ITERATIONS
        invariant I.ExecLoop(program, limit, stmt, iterations, tags.values) == I.ExecLoop(program, limit, stmt, 0, old(tags.values))
        decreases I.MAX_ITERATIONS - iterations
      {
        var c := I.Condition(stmt.condition, tags.values);
        if c.Err? { return Some(c.fault); }
        if !c.value { return None; }
        var f := ExecBlock(limit, stmt.body);
        if f.Some? { return f; }
        if iterations + 1 > I.MAX_ITERATIONS { return Some(LoopLimit); }
        iterations := iterations + 1;
      }
    }

    method ExecCall(ghost limit: nat, stmt: Stmt) returns (fault: Option<Fault>)
      requires MayExec(limit, stmt) && stmt.Call?
      modifies tags
      ensures Outcome(I.ExecStmt(program, limit, stmt, old(tags.values)), fault, tags.values)
      ensures old(Typed()) ==> Typed()
      decreases limit, stmt, 0
    {
      if stmt.frameIndex >= |program.frames| { return Some(Unresolved); }
      var frame := program.frames[stmt.frameIndex];
      assert FrameBound(program.types, program.frames, stmt.frameIndex);
      fault := ResetTemps(frame.tempResets);
      if fault.Some? { return; }
      fault := CopyIn(stmt.args);
      if fault.Some? { return; }
      fault := ExecBlock(stmt.frameIndex, frame.body);
      if fault.Some? { return; }
      fault := CopyOut(stmt.args);
    }

    method ResetTemps(resets: seq<TempReset>) returns (fault: Option<Fault>)
      requires Valid() && ResetsBound(program.types, resets)
      modifies tags
      ensures Outcome(I.ApplyResets(resets, old(tags.values)), fault, tags.values)
      ensures old(Typed()) ==> Typed()
    {
      for i := 0 to |resets|
        invariant old(Typed()) ==> Typed()
        invariant I.ApplyResets(resets[i..], tags.values) == I.ApplyResets(resets, old(tags.values))
      {
        assert resets[i..][0] == resets[i] && resets[i..][1..] == resets[i + 1..];
        assert resets[i] in resets;
        var f := tags.Write(resets[i].id, resets[i].value);
        if f.Some? { return f; }
      }
      return None;
    }

    method CopyIn(args: seq<CallArg>) returns (fault: Option<Fault>)
      requires Valid()
      modifies tags
      ensures Outcome(I.PassInputs(program.types, args, old(tags.values)), fault, tags.values)
      ensures old(Typed()) ==> Typed()
    {
      for i := 0 to |args|
        invariant old(Typed()) ==> Typed()
        invariant I.PassInputs(program.types, args[i..], tags.values) == I.PassInputs(program.types, args, old(tags.values))
      {
        assert args[i..][0] == args[i] && args[i..][1..] == args[i + 1..];
        if args[i].InputArg? {
          var v := I.Evaluate(args[i].inputExpr, tags.values);
          if v.Err? { return Some(v.fault); }
          var f := tags.WriteCoerced(args[i].paramTagId, v.value);
          if f.Some? { return f; }
        }
      }
      return None;
    }

    method CopyOut(args: seq<CallArg>) returns (fault: Option<Fault>)
      requires Valid()
      modifies tags
      ensures Outcome(I.PassOutputs(program.types, args, old(tags.values)), fault, tags.values)
      ensures old(Typed()) ==> Typed()
    {
      for i := 0 to |args|
        invariant old(Typed()) ==> Typed()
        invariant I.PassOutputs(program.types, args[i..], tags.values) == I.PassOutputs(program.types, args, old(tags.values))
      {
        assert args[i..][0] == args[i] && args[i..][1..] == args[i + 1..];
        if args[i].OutputArg? {
          if args[i].paramTagId >= |tags.values| { return Some(Unresolved); }
          var f := tags.WriteCoerced(args[i].outputTargetId, tags.values[args[i].paramTagId]);
          if f.Some? { return f; }
        }
      }
      return None;
    }

    method ExecRung(ghost limit: nat, stmt: Stmt) returns (fault: Option<Fault>)
      requires MayExec(limit, stmt) && stmt.Rung?
      modifies tags
      ensures Outcome(I.ExecStmt(program, 0, stmt, old(tags.values)), fault, tags.values)
      ensures old(Typed()) ==> Typed()
    {
      var c := I.Condition(stmt.power, tags.values);
      if c.Err? { return Some(c.fault); }
      var powered, outs := c.value, stmt.outputs;
      for i := 0 to |outs|
        invariant old(Typed()) ==> Typed()
        invariant I.DriveCoils(outs[i..], powered, tags.values) == I.DriveCoils(outs, powered, old(tags.values))
      {
        assert outs[i..][0] == outs[i] && outs[i..][1..] == outs[i + 1..];
        assert outs[i] in outs;
        var f: Option<Fault> := None;
        match outs[i].kind {
          case Direct => f := tags.Write(outs[i].targetId, VBool(powered));
          case Set => if powered { f := tags.Write(outs[i].targetId, VBool(true)); }
          case Reset => if powered { f := tags.Write(outs[i].targetId, VBool(false)); }
        }
        if f.Some? { return f; }
      }
      return None;
    }

    // One scan.
    method Run() returns (fault: Option<Fault>)
      requires Valid()
      modifies tags
      ensures Outcome(I.Run(program, old(tags.values)), fault, tags.values)
      ensures old(Typed()) ==> Typed()
    {
      fault := ExecBlock(|program.frames|, program.body);
    }
  }
}

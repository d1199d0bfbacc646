// A program the generator accepts never stops on a type mismatch and keeps
// every tag at its declared type.

module TypeSoundness {
  import opened Values
  import opened Ast
  import opened Interpreter
  import opened Codegen

  // The faults left to an accepted program.
  predicate Arithmetic(f: Fault) { f == Overflow || f == DivisionByZero }
  predicate RuntimeOnly(f: Fault) { Arithmetic(f) || f == LoopLimit }

  predicate SoundValue(r: Result<Value>, t: TypeId) {
    match r
    case Ok(v) => TypeOf(v) == t
    case Err(f) => Arithmetic(f)
  }

  predicate SoundRun(types: seq<TypeId>, r: Result<Store>) {
    match r
    case Ok(s) => WellTyped(types, s)
    case Err(f) => RuntimeOnly(f)
  }

  lemma BinarySound(op: BinaryOp, l: Value, r: Value)
    requires BinaryType(op, TypeOf(l), TypeOf(r)).Some?
    ensures SoundValue(EvalBinary(op, l, r), BinaryType(op, TypeOf(l), TypeOf(r)).value)
  {
  }

  lemma {:induction false} EvaluateSound(types: seq<TypeId>, e: Expr, s: Store)
    requires WellTyped(types, s) && TypeCheck(types, e).Some?
    ensures SoundValue(Evaluate(e, s), TypeCheck(types, e).value)
  {
    match e
    case Literal(_) =>
    case Identifier(_, _) =>
    case Unary(_, x) => EvaluateSound(types, x, s);
    case Binary(op, l, r) =>
      EvaluateSound(types, l, s);
      EvaluateSound(types, r, s);
      if Evaluate(l, s).Ok? && Evaluate(r, s).Ok? {
        BinarySound(op, Evaluate(l, s).value, Evaluate(r, s).value);
      }
  }

  lemma ConditionSound(types: seq<TypeId>, e: Expr, s: Store)
    requires WellTyped(types, s) && HasType(types, e, Bool)
    ensures Condition(e, s).Err? ==> Arithmetic(Condition(e, s).fault)
  {
    EvaluateSound(types, e, s);
  }

  lemma StoreSound(types: seq<TypeId>, s: Store, id: nat, v: Value)
    requires WellTyped(types, s) && id < |types|
    requires TypeOf(v) == types[id] || (IsNumeric(TypeOf(v)) && IsNumeric(types[id]))
    ensures SoundRun(types, StoreCoerced(types, s, id, v))
  {
  }

  lemma AssignSound(types: seq<TypeId>, s: Store, id: nat, e: Expr)
    requires WellTyped(types, s) && Assignable(types, id, e)
    ensures SoundValue(Evaluate(e, s), TypeCheck(types, e).value)
    ensures Evaluate(e, s).Ok? ==> SoundRun(types, StoreCoerced(types, s, id, Evaluate(e, s).value))
  {
    EvaluateSound(types, e, s);
    if Evaluate(e, s).Ok? { StoreSound(types, s, id, Evaluate(e, s).value); }
  }

  lemma {:induction false} ResetsSound(types: seq<TypeId>, resets: seq<TempReset>, s: Store)
    requires WellTyped(types, s) && ResetsBound(types, resets)
    ensures ApplyResets(resets, s).Ok? && SoundRun(types, ApplyResets(resets, s))
  {
    if resets != [] {
      assert resets[0] in resets;
      ResetsSound(types, resets[1..], s[resets[0].id := resets[0].value]);
    }
  }

  lemma {:induction false} InputsSound(types: seq<TypeId>, args: seq<CallArg>, s: Store)
    requires WellTyped(types, s) && forall a | a in args :: ArgAccepted(types, a)
    ensures SoundRun(types, PassInputs(types, args, s))
  {
    if args != [] {
      assert args[0] in args;
      match args[0]
      case InputArg(_, e, param) =>
        AssignSound(types, s, param, e);
        if Evaluate(e, s).Ok? {
          var r := StoreCoerced(types, s, param, Evaluate(e, s).value);
          if r.Ok? { InputsSound(types, args[1..], r.value); }
        }
      case OutputArg(_, _, _, _) => InputsSound(types, args[1..], s);
    }
  }

  lemma {:induction false} OutputsSound(types: seq<TypeId>, args: seq<CallArg>, s: Store)
    requires WellTyped(types, s) && forall a | a in args :: ArgAccepted(types, a)
    ensures SoundRun(types, PassOutputs(types, args, s))
  {
    if args != [] {
      assert args[0] in args;
      match args[0]
      case InputArg(_, _, _) => OutputsSound(types, args[1..], s);
      case OutputArg(_, _, param, target) =>
        assert TypeCheck(types, Identifier("", param)) == Some(types[param]);
        StoreSound(types, s, target, s[param]);
        var r := StoreCoerced(types, s, target, s[param]);
        if r.Ok? { OutputsSound(types, args[1..], r.value); }
    }
  }

  lemma {:induction false} CoilsSound(types: seq<TypeId>, outs: seq<RungOutput>, powered: bool, s: Store)
    requires WellTyped(types, s)
    requires forall o | o in outs :: o.targetId < |types| && types[o.targetId] == Bool
    ensures DriveCoils(outs, powered, s).Ok? && SoundRun(types, DriveCoils(outs, powered, s))
  {
    if outs != [] {
      assert outs[0] in outs;
      var s1 := DriveCoil(outs[0], powered, s).value;
      CoilsSound(types, outs[1..], powered, s1);
    }
  }

  predicate Runnable(p: Program, limit: nat, ss: seq<Stmt>) {
    && Bound(p) && Accepted(p) && limit <= |p.frames|
    && BlockBound(p.types, p.frames, limit, ss) && BlockAccepted(p.types, ss)
  }

  predicate Executable(p: Program, limit: nat, st: Stmt) {
    && Bound(p) && Accepted(p) && limit <= |p.frames|
    && StmtBound(p.types, p.frames, limit, st) && StmtAccepted(p.types, st)
  }

  lemma FrameRunnable(p: Program, f: nat)
    requires Bound(p) && Accepted(p) && f < |p.frames|
    ensures Runnable(p, f, p.frames[f].body) && ResetsBound(p.types, p.frames[f].tempResets)
  {
    assert FrameBound(p.types, p.frames, f);
    assert p.frames[f] in p.frames;
  }

  lemma {:induction false} BlockSound(p: Program, limit: nat, ss: seq<Stmt>, s: Store)
    requires Runnable(p, limit, ss) && WellTyped(p.types, s)
    ensures SoundRun(p.types, ExecBlock(p, limit, ss, s))
    decreases limit, ss, 0, 0
  {
    if ss != [] {
      assert ss[0] in ss;
      StmtSound(p, limit, ss[0], s);
      var r := ExecStmt(p, limit, ss[0], s);
      if r.Ok? { BlockSound(p, limit, ss[1..], r.value); }
    }
  }

  lemma {:induction false} StmtSound(p: Program, limit: nat, st: Stmt, s: Store)
    requires Executable(p, limit, st) && WellTyped(p.types, s)
    ensures SoundRun(p.types, ExecStmt(p, limit, st, s))
    decreases limit, st, 1, 0
  {
    match st
    case Assign(_, id, e) => AssignSound(p.types, s, id, e);
    case If(_, _) => BranchesSound(p, limit, st, 0, s);
    case While(_, _) => LoopSound(p, limit, st, 0, s);
    case Call(_, args, f) =>
      FrameRunnable(p, f);
      ResetsSound(p.types, p.frames[f].tempResets, s);
      var s1 := ApplyResets(p.frames[f].tempResets, s).value;
      InputsSound(p.types, args, s1);
      var r2 := PassInputs(p.types, args, s1);
      if r2.Ok? {
        BlockSound(p, f, p.frames[f].body, r2.value);
        var r3 := ExecBlock(p, f, p.frames[f].body, r2.value);
        if r3.Ok? { OutputsSound(p.types, args, r3.value); }
      }
    case Rung(c, outs) =>
      ConditionSound(p.types, c, s);
      var b := Condition(c, s);
      if b.Ok? { CoilsSound(p.types, outs, b.value, s); }
  }

  lemma {:induction false} BranchesSound(p: Program, limit: nat, st: Stmt, k: nat, s: Store)
    requires Executable(p, limit, st) && WellTyped(p.types, s) && st.If? && k <= |st.branches|
    ensures SoundRun(p.types, ExecBranches(p, limit, st, k, s))
    decreases limit, st, 0, |st.branches| - k
  {
    if k == |st.branches| {
      BlockSound(p, limit, st.elseBody, s);
    } else {
      var b := st.branches[k];
      assert b in st.branches;
      ConditionSound(p.types, b.condition, s);
      BlockSound(p, limit, b.body, s);
      BranchesSound(p, limit, st, k + 1, s);
    }
  }

  lemma {:induction false} LoopSound(p: Program, limit: nat, st: Stmt, passes: nat, s: Store)
    requires Executable(p, limit, st) && WellTyped(p.types, s) && st.While? && passes <= MAX_ITERATIONS
    ensures SoundRun(p.types, ExecLoop(p, limit, st, passes, s))
    decreases limit, st, 0, MAX_ITERATIONS - passes
  {
    ConditionSound(p.types, st.condition, s);
    BlockSound(p, limit, st.body, s);
    var r := ExecBlock(p, limit, st.body, s);
    if r.Ok? && passes + 1 <= MAX_ITERATIONS { LoopSound(p, limit, st, passes + 1, r.value); }
  }

  // Any number of scans of an accepted program, from its declared initial values.
  function Scans(p: Program, n: nat, s: Store): Result<Store> {
    if n == 0 then Ok(s)
    else
      var s1 :- Scans(p, n - 1, s);
      Run(p, s1)
  }

  lemma {:induction false} AcceptedProgramsAreTypeSafe(p: Program, n: nat)
    requires Bound(p) && Accepted(p)
    ensures SoundRun(p.types, Scans(p, n, p.initials))
  {
    if n > 0 {
      AcceptedProgramsAreTypeSafe(p, n - 1);
      var r := Scans(p, n - 1, p.initials);
      if r.Ok? { BlockSound(p, |p.frames|, p.body, r.value); }
    }
  }
}

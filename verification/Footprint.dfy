// What a call can change and what it depends on.

module Footprint {
  import opened Values
  import opened Ast
  import opened Interpreter
  import opened Agreement

  predicate SameOutside(changed: set<nat>, s: Store, t: Store) {
    |s| == |t| && forall id | 0 <= id < |s| && id !in changed :: s[id] == t[id]
  }

  predicate SameOn(known: set<nat>, s: Store, t: Store) {
    |s| == |t| && forall id | 0 <= id < |s| && id in known :: s[id] == t[id]
  }

  // ---- Write footprint ----

  // Every tag the statement, and all it calls, may write is in allowed.
  predicate StmtWrites(p: Program, limit: nat, st: Stmt, allowed: set<nat>)
    decreases limit, st
  {
    match st
    case Assign(_, id, _) => id in allowed
    case If(branches, els) =>
      (forall b | b in branches :: BlockWrites(p, limit, b.body, allowed)) && BlockWrites(p, limit, els, allowed)
    case While(_, body) => BlockWrites(p, limit, body, allowed)
    case Call(_, args, f) =>
      && f < limit && f < |p.frames|
      && ResetIds(p.frames[f].tempResets) <= allowed
      && (forall a | a in args :: match a case InputArg(_, _, param) => param in allowed case OutputArg(_, _, _, target) => target in allowed)
      && BlockWrites(p, f, p.frames[f].body, allowed)
    case Rung(_, outs) => forall o | o in outs :: o.targetId in allowed
  }

  predicate BlockWrites(p: Program, limit: nat, ss: seq<Stmt>, allowed: set<nat>)
    decreases limit, ss
  {
    forall st | st in ss :: StmtWrites(p, limit, st, allowed)
  }

  lemma {:induction false} ResetsWrite(resets: seq<TempReset>, s: Store, allowed: set<nat>)
    requires ResetIds(resets) <= allowed
    ensures ApplyResets(resets, s).Ok? ==> SameOutside(allowed, s, ApplyResets(resets, s).value)
  {
    if resets != [] {
      assert resets[0] in resets && resets[0].id in ResetIds(resets);
      assert forall x | x in ResetIds(resets[1..]) :: x in ResetIds(resets);
      var r := WriteTag(s, resets[0].id, resets[0].value);
      if r.Ok? { ResetsWrite(resets[1..], r.value, allowed); }
    }
  }

  lemma {:induction false} InputsWrite(types: seq<TypeId>, args: seq<CallArg>, s: Store, allowed: set<nat>)
    requires forall a | a in args && a.InputArg? :: a.paramTagId in allowed
    ensures PassInputs(types, args, s).Ok? ==> SameOutside(allowed, s, PassInputs(types, args, s).value)
  {
    if args != [] {
      assert args[0] in args;
      match args[0]
      case InputArg(_, e, param) =>
        var v := Evaluate(e, s);
        if v.Ok? {
          var r := StoreCoerced(types, s, param, v.value);
          if r.Ok? { InputsWrite(types, args[1..], r.value, allowed); }
        }
      case OutputArg(_, _, _, _) => InputsWrite(types, args[1..], s, allowed);
    }
  }

  lemma {:induction false} OutputsWrite(types: seq<TypeId>, args: seq<CallArg>, s: Store, allowed: set<nat>)
    requires forall a | a in args && a.OutputArg? :: a.outputTargetId in allowed
    ensures PassOutputs(types, args, s).Ok? ==> SameOutside(allowed, s, PassOutputs(types, args, s).value)
  {
    if args != [] {
      assert args[0] in args;
      match args[0]
      case InputArg(_, _, _) => OutputsWrite(types, args[1..], s, allowed);
      case OutputArg(_, _, param, target) =>
        if param < |s| {
          var r := StoreCoerced(types, s, target, s[param]);
          if r.Ok? { OutputsWrite(types, args[1..], r.value, allowed); }
        }
    }
  }

  lemma {:induction false} CoilsWrite(outs: seq<RungOutput>, powered: bool, s: Store, allowed: set<nat>)
    requires forall o | o in outs :: o.targetId in allowed
    ensures DriveCoils(outs, powered, s).Ok? ==> SameOutside(allowed, s, DriveCoils(outs, powered, s).value)
  {
    if outs != [] {
      assert outs[0] in outs;
      var r := DriveCoil(outs[0], powered, s);
      if r.Ok? { CoilsWrite(outs[1..], powered, r.value, allowed); }
    }
  }

  lemma {:induction false} BlockChangesOnly(p: Program, limit: nat, ss: seq<Stmt>, s: Store, allowed: set<nat>)
    requires BlockWrites(p, limit, ss, allowed)
    ensures ExecBlock(p, limit, ss, s).Ok? ==> SameOutside(allowed, s, ExecBlock(p, limit, ss, s).value)
    decreases limit, ss, 0, 0
  {
    if ss != [] {
      assert ss[0] in ss;
      StmtChangesOnly(p, limit, ss[0], s, allowed);
      var r := ExecStmt(p, limit, ss[0], s);
      if r.Ok? { BlockChangesOnly(p, limit, ss[1..], r.value, allowed); }
    }
  }

  lemma {:induction false} StmtChangesOnly(p: Program, limit: nat, st: Stmt, s: Store, allowed: set<nat>)
    requires StmtWrites(p, limit, st, allowed)
    ensures ExecStmt(p, limit, st, s).Ok? ==> SameOutside(allowed, s, ExecStmt(p, limit, st, s).value)
    decreases limit, st, 1, 0
  {
    match st
    case Assign(_, _, _) =>
    case If(_, _) => BranchesChangeOnly(p, limit, st, 0, s, allowed);
    case While(_, _) => LoopChangesOnly(p, limit, st, 0, s, allowed);
    case Call(_, args, f) =>
      ResetsWrite(p.frames[f].tempResets, s, allowed);
      var r1 := ApplyResets(p.frames[f].tempResets, s);
      if r1.Ok? {
        InputsWrite(p.types, args, r1.value, allowed);
        var r2 := PassInputs(p.types, args, r1.value);
        if r2.Ok? {
          BlockChangesOnly(p, f, p.frames[f].body, r2.value, allowed);
          var r3 := ExecBlock(p, f, p.frames[f].body, r2.value);
          if r3.Ok? { OutputsWrite(p.types, args, r3.value, allowed); }
        }
      }
    case Rung(c, outs) =>
      var b := Condition(c, s);
      if b.Ok? { CoilsWrite(outs, b.value, s, allowed); }
  }

  lemma {:induction false} BranchesChangeOnly(p: Program, limit: nat, st: Stmt, k: nat, s: Store, allowed: set<nat>)
    requires StmtWrites(p, limit, st, allowed) && st.If? && k <= |st.branches|
    ensures ExecBranches(p, limit, st, k, s).Ok? ==> SameOutside(allowed, s, ExecBranches(p, limit, st, k, s).value)
    decreases limit, st, 0, |st.branches| - k
  {
    if k == |st.branches| {
      BlockChangesOnly(p, limit, st.elseBody, s, allowed);
    } else {
      assert st.branches[k] in st.branches;
      BlockChangesOnly(p, limit, st.branches[k].body, s, allowed);
      BranchesChangeOnly(p, limit, st, k + 1, s, allowed);
    }
  }

  lemma {:induction false} LoopChangesOnly(p: Program, limit: nat, st: Stmt, passes: nat, s: Store, allowed: set<nat>)
    requires StmtWrites(p, limit, st, allowed) && st.While? && passes <= MAX_ITERATIONS
    ensures ExecLoop(p, limit, st, passes, s).Ok? ==> SameOutside(allowed, s, ExecLoop(p, limit, st, passes, s).value)
    decreases limit, st, 0, MAX_ITERATIONS - passes
  {
    BlockChangesOnly(p, limit, st.body, s, allowed);
    var r := ExecBlock(p, limit, st.body, s);
    if r.Ok? && passes + 1 <= MAX_ITERATIONS { LoopChangesOnly(p, limit, st, passes + 1, r.value, allowed); }
  }

  // ---- Dependence ----

  // The tags a frame may rely on after its temporaries are reset and its inputs passed.
  function Own(frames: seq<Frame>, f: nat, args: seq<CallArg>): set<nat>
    requires f < |frames|
  {
    ResetIds(frames[f].tempResets) + InputIds(args)
  }

  function InputIds(args: seq<CallArg>): set<nat> {
    set a | a in args && a.InputArg? :: a.paramTagId
  }

  // Everything read is in known or, inside a callee, was set by the call itself.
  predicate StmtDetermined(p: Program, limit: nat, st: Stmt, known: set<nat>)
    decreases limit, st
  {
    match st
    case Assign(_, _, e) => Reads(e) <= known
    case If(branches, els) =>
      && (forall b | b in branches :: Reads(b.condition) <= known && BlockDetermined(p, limit, b.body, known))
      && BlockDetermined(p, limit, els, known)
    case While(c, body) => Reads(c) <= known && BlockDetermined(p, limit, body, known)
    case Call(_, args, f) =>
      && f < limit && f < |p.frames|
      && (forall a | a in args && a.InputArg? :: Reads(a.inputExpr) <= known)
      && (forall a | a in args && a.OutputArg? :: a.paramTagId in known + Own(p.frames, f, args))
      && BlockDetermined(p, f, p.frames[f].body, known + Own(p.frames, f, args))
    case Rung(c, _) => Reads(c) <= known
  }

  predicate BlockDetermined(p: Program, limit: nat, ss: seq<Stmt>, known: set<nat>)
    decreases limit, ss
  {
    forall st | st in ss :: StmtDetermined(p, limit, st, known)
  }

  // Runs from two stores fault alike or end in stores that agree on known.
  predicate SameResult(known: set<nat>, r: Result<Store>, q: Result<Store>) {
    match (r, q)
    case (Ok(s), Ok(t)) => SameOn(known, s, t)
    case (Err(f), Err(g)) => f == g
    case _ => false
  }

  lemma EvaluateDetermined(e: Expr, known: set<nat>, s: Store, t: Store)
    requires SameOn(known, s, t) && Reads(e) <= known
    ensures Evaluate(e, s) == Evaluate(e, t) && Condition(e, s) == Condition(e, t)
  {
    EvaluateFrame(e, s, t);
  }

  lemma {:induction false} ResetsDetermine(resets: seq<TempReset>, known: set<nat>, s: Store, t: Store)
    requires SameOn(known, s, t)
    ensures SameResult(known + ResetIds(resets), ApplyResets(resets, s), ApplyResets(resets, t))
  {
    if resets != [] {
      var r := resets[0];
      assert r in resets;
      if r.id < |s| {
        ResetsDetermine(resets[1..], known + {r.id}, s[r.id := r.value], t[r.id := r.value]);
        assert known + {r.id} + ResetIds(resets[1..]) == known + ResetIds(resets) by {
          assert forall x | x in resets :: x == r || x in resets[1..];
        }
      }
    } else {
      assert known + ResetIds(resets) == known;
    }
  }

  lemma {:induction false} InputsDetermine(types: seq<TypeId>, args: seq<CallArg>, known: set<nat>, s: Store, t: Store)
    requires SameOn(known, s, t)
    requires forall a | a in args && a.InputArg? :: Reads(a.inputExpr) <= known
    ensures SameResult(known + InputIds(args), PassInputs(types, args, s), PassInputs(types, args, t))
  {
    if args != [] {
      assert args[0] in args;
      assert forall x | x in args :: x == args[0] || x in args[1..];
      match args[0]
      case InputArg(_, e, param) =>
        EvaluateDetermined(e, known, s, t);
        var v := Evaluate(e, s);
        if v.Ok? {
          var r, q := StoreCoerced(types, s, param, v.value), StoreCoerced(types, t, param, v.value);
          if r.Ok? {
            InputsDetermine(types, args[1..], known + {param}, r.value, q.value);
            assert known + {param} + InputIds(args[1..]) == known + InputIds(args);
          }
        }
      case OutputArg(_, _, _, _) =>
        InputsDetermine(types, args[1..], known, s, t);
        assert InputIds(args[1..]) == InputIds(args);
    } else {
      assert known + InputIds(args) == known;
    }
  }

  function TargetIds(args: seq<CallArg>): set<nat> {
    set a | a in args && a.OutputArg? :: a.outputTargetId
  }

  lemma {:induction false} OutputsDetermine(types: seq<TypeId>, args: seq<CallArg>, known: set<nat>, s: Store, t: Store)
    requires SameOn(known, s, t)
    requires forall a | a in args && a.OutputArg? :: a.paramTagId in known
    ensures SameResult(known + TargetIds(args), PassOutputs(types, args, s), PassOutputs(types, args, t))
  {
    if args != [] {
      assert args[0] in args;
      assert forall x | x in args :: x == args[0] || x in args[1..];
      match args[0]
      case InputArg(_, _, _) =>
        OutputsDetermine(types, args[1..], known, s, t);
        assert TargetIds(args[1..]) == TargetIds(args);
      case OutputArg(_, _, param, target) =>
        if param < |s| {
          var r, q := StoreCoerced(types, s, target, s[param]), StoreCoerced(types, t, target, t[param]);
          if r.Ok? {
            OutputsDetermine(types, args[1..], known + {target}, r.value, q.value);
            assert known + {target} + TargetIds(args[1..]) == known + TargetIds(args);
          }
        }
    } else {
      assert known + TargetIds(args) == known;
    }
  }

  lemma {:induction false} CoilsDetermine(outs: seq<RungOutput>, powered: bool, known: set<nat>, s: Store, t: Store)
    requires SameOn(known, s, t)
    ensures SameResult(known, DriveCoils(outs, powered, s), DriveCoils(outs, powered, t))
  {
    if outs != [] {
      var r, q := DriveCoil(outs[0], powered, s), DriveCoil(outs[0], powered, t);
      if r.Ok? { CoilsDetermine(outs[1..], powered, known, r.value, q.value); }
    }
  }

  lemma {:induction false} BlockDepends(p: Program, limit: nat, ss: seq<Stmt>, known: set<nat>, s: Store, t: Store)
    requires BlockDetermined(p, limit, ss, known) && SameOn(known, s, t)
    ensures SameResult(known, ExecBlock(p, limit, ss, s), ExecBlock(p, limit, ss, t))
    decreases limit, ss, 0, 0
  {
    if ss != [] {
      assert ss[0] in ss;
      StmtDepends(p, limit, ss[0], known, s, t);
      var r, q := ExecStmt(p, limit, ss[0], s), ExecStmt(p, limit, ss[0], t);
      if r.Ok? { BlockDepends(p, limit, ss[1..], known, r.value, q.value); }
    }
  }

  lemma {:induction false} StmtDepends(p: Program, limit: nat, st: Stmt, known: set<nat>, s: Store, t: Store)
    requires StmtDetermined(p, limit, st, known) && SameOn(known, s, t)
    ensures SameResult(known, ExecStmt(p, limit, st, s), ExecStmt(p, limit, st, t))
    decreases limit, st, 1, 0
  {
    match st
    case Assign(_, _, e) => EvaluateDetermined(e, known, s, t);
    case If(_, _) => BranchesDepend(p, limit, st, 0, known, s, t);
    case While(_, _) => LoopDepends(p, limit, st, 0, known, s, t);
    case Call(_, _, _) => CallDepends(p, limit, st, known, s, t);
    case Rung(c, outs) =>
      EvaluateDetermined(c, known, s, t);
      var b := Condition(c, s);
      if b.Ok? { CoilsDetermine(outs, b.value, known, s, t); }
  }

  // A call sets all its callee relies on, so what earlier calls left behind is lost.
  lemma {:induction false} CallDepends(p: Program, limit: nat, st: Stmt, known: set<nat>, s: Store, t: Store)
    requires StmtDetermined(p, limit, st, known) && SameOn(known, s, t) && st.Call?
    ensures SameResult(known + Own(p.frames, st.frameIndex, st.args), ExecStmt(p, limit, st, s), ExecStmt(p, limit, st, t))
    ensures SameResult(known, ExecStmt(p, limit, st, s), ExecStmt(p, limit, st, t))
    decreases limit, st, 0, 0
  {
    var f, args := st.frameIndex, st.args;
    var resets, body := p.frames[f].tempResets, p.frames[f].body;
    ResetsDetermine(resets, known, s, t);
    var r1, q1 := ApplyResets(resets, s), ApplyResets(resets, t);
    if r1.Ok? {
      InputsDetermine(p.types, args, known + ResetIds(resets), r1.value, q1.value);
      assert known + ResetIds(resets) + InputIds(args) == known + Own(p.frames, f, args);
      var r2, q2 := PassInputs(p.types, args, r1.value), PassInputs(p.types, args, q1.value);
      if r2.Ok? {
        BlockDepends(p, f, body, known + Own(p.frames, f, args), r2.value, q2.value);
        var r3, q3 := ExecBlock(p, f, body, r2.value), ExecBlock(p, f, body, q2.value);
        if r3.Ok? { OutputsDetermine(p.types, args, known + Own(p.frames, f, args), r3.value, q3.value); }
      }
    }
  }

  lemma {:induction false} BranchesDepend(p: Program, limit: nat, st: Stmt, k: nat, known: set<nat>, s: Store, t: Store)
    requires StmtDetermined(p, limit, st, known) && SameOn(known, s, t) && st.If? && k <= |st.branches|
    ensures SameResult(known, ExecBranches(p, limit, st, k, s), ExecBranches(p, limit, st, k, t))
    decreases limit, st, 0, |st.branches| - k
  {
    if k == |st.branches| {
      BlockDepends(p, limit, st.elseBody, known, s, t);
    } else {
      var b := st.branches[k];
      assert b in st.branches;
      EvaluateDetermined(b.condition, known, s, t);
      BlockDepends(p, limit, b.body, known, s, t);
      BranchesDepend(p, limit, st, k + 1, known, s, t);
    }
  }

  lemma {:induction false} LoopDepends(p: Program, limit: nat, st: Stmt, passes: nat, known: set<nat>, s: Store, t: Store)
    requires StmtDetermined(p, limit, st, known) && SameOn(known, s, t) && st.While? && passes <= MAX_ITERATIONS
    ensures SameResult(known, ExecLoop(p, limit, st, passes, s), ExecLoop(p, limit, st, passes, t))
    decreases limit, st, 0, MAX_ITERATIONS - passes
  {
    EvaluateDetermined(st.condition, known, s, t);
    BlockDepends(p, limit, st.body, known, s, t);
    var r, q := ExecBlock(p, limit, st.body, s), ExecBlock(p, limit, st.body, t);
    if r.Ok? && passes + 1 <= MAX_ITERATIONS { LoopDepends(p, limit, st, passes + 1, known, r.value, q.value); }
  }
}

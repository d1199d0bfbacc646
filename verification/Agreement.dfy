// The generated code and the interpreter agree, although they pass call
// arguments, reset temporaries and count loop passes in different orders.

module Agreement {
  import opened Values
  import opened Ast
  import opened Interpreter
  import opened Codegen
  import opened TypeSoundness

  function Reads(e: Expr): set<nat> {
    match e
    case Literal(_) => {}
    case Identifier(_, id) => {id}
    case Unary(_, x) => Reads(x)
    case Binary(_, l, r) => Reads(l) + Reads(r)
  }

  // x := f.x, passing an input its own value.
  predicate SelfCopy(a: CallArg) {
    a.InputArg? && a.inputExpr.Identifier? && a.inputExpr.tagId == a.paramTagId
  }

  // The tags whose value an argument no longer finds as the call found it.
  function BusyAfter(a: CallArg, busy: set<nat>): set<nat> {
    if a.InputArg? && !SelfCopy(a) then busy + {a.paramTagId} else busy
  }

  // No argument reads a temporary of the callee or an input to which an earlier
  // argument of the same call has already written another value.
  predicate ArgsIndependent(args: seq<CallArg>, busy: set<nat>) {
    args == [] ||
    ((args[0].InputArg? ==> Reads(args[0].inputExpr) !! busy) && ArgsIndependent(args[1..], BusyAfter(args[0], busy)))
  }

  predicate StmtIndependent(frames: seq<Frame>, st: Stmt)
    decreases st
  {
    match st
    case If(branches, els) =>
      (forall b | b in branches :: BlockIndependent(frames, b.body)) && BlockIndependent(frames, els)
    case While(_, body) => BlockIndependent(frames, body)
    case Call(_, args, f) => f < |frames| ==> ArgsIndependent(args, ResetIds(frames[f].tempResets))
    case _ => true
  }

  predicate BlockIndependent(frames: seq<Frame>, ss: seq<Stmt>)
    decreases ss
  {
    forall st | st in ss :: StmtIndependent(frames, st)
  }

  predicate Independent(p: Program) {
    BlockIndependent(p.frames, p.body) && forall f | f in p.frames :: BlockIndependent(p.frames, f.body)
  }

  // ---- Expressions ----

  lemma {:induction false} ExpressionsAgree(e: Expr, m: Machine)
    ensures EvalC(GenExpr(e), m) == Evaluate(e, m.store)
  {
    match e
    case Literal(_) =>
    case Identifier(_, _) =>
    case Unary(_, x) => ExpressionsAgree(x, m);
    case Binary(_, l, r) =>
      ExpressionsAgree(l, m);
      ExpressionsAgree(r, m);
  }

  lemma ConditionsAgree(e: Expr, m: Machine)
    ensures Truth(GenExpr(e), m) == Condition(e, m.store)
  {
    ExpressionsAgree(e, m);
  }

  // An expression depends only on the tags it reads.
  lemma {:induction false} EvaluateFrame(e: Expr, s: Store, t: Store)
    requires |s| == |t| && forall id | id in Reads(e) && id < |s| :: s[id] == t[id]
    ensures Evaluate(e, s) == Evaluate(e, t)
  {
    match e
    case Literal(_) =>
    case Identifier(_, _) =>
    case Unary(_, x) => EvaluateFrame(x, s, t);
    case Binary(_, l, r) =>
      EvaluateFrame(l, s, t);
      EvaluateFrame(r, s, t);
  }

  // ---- Sequences of emitted statements ----

  function Then(c: CProgram, limit: nat, r: Result<Machine>, ss: seq<CStmt>): Result<Machine> {
    match r
    case Ok(m) => RunBlock(c, limit, ss, m)
    case Err(f) => Err(f)
  }

  lemma {:induction false} RunAppend(c: CProgram, limit: nat, a: seq<CStmt>, b: seq<CStmt>, m: Machine)
    ensures RunBlock(c, limit, a + b, m) == Then(c, limit, RunBlock(c, limit, a, m), b)
  {
    if a == [] {
      assert a + b == b;
    } else {
      assert (a + b)[0] == a[0] && (a + b)[1..] == a[1..] + b;
      var r := RunStmt(c, limit, a[0], m);
      if r.Ok? { RunAppend(c, limit, a[1..], b, r.value); }
    }
  }

  lemma RunSingle(c: CProgram, limit: nat, st: CStmt, m: Machine)
    ensures RunBlock(c, limit, [st], m) == RunStmt(c, limit, st, m)
  {
    var r := RunStmt(c, limit, st, m);
    if r.Ok? { assert RunBlock(c, limit, [st][1..], r.value) == r; }
  }

  // ---- Calls: the two argument orders ----

  // Values of the ':=' arguments, all taken from one store.
  function EvalArgs(args: seq<CallArg>, s: Store): Result<seq<Value>> {
    if args == [] then Ok([])
    else if args[0].InputArg? then
      var v :- Evaluate(args[0].inputExpr, s);
      var vs :- EvalArgs(args[1..], s);
      Ok([v] + vs)
    else EvalArgs(args[1..], s)
  }

  function WriteArgs(types: seq<TypeId>, args: seq<CallArg>, vs: seq<Value>, s: Store): Result<Store> {
    if args == [] then Ok(s)
    else if args[0].InputArg? then
      if vs == [] then Err(Unresolved)
      else
        var s1 :- StoreCoerced(types, s, args[0].paramTagId, vs[0]);
        WriteArgs(types, args[1..], vs[1..], s1)
    else WriteArgs(types, args[1..], vs, s)
  }

  function InStore(r: Result<Store>, locals: Locals): Result<Machine> {
    match r
    case Ok(s) => Ok(Machine(s, locals))
    case Err(f) => Err(f)
  }

  lemma {:induction false} DeclarationsEvaluate(c: CProgram, limit: nat, args: seq<CallArg>, m: Machine)
    ensures RunBlock(c, limit, GenArgDecls(args), m) ==
            match EvalArgs(args, m.store) {
              case Ok(vs) => Ok(Machine(m.store, Locals(m.locals.args + vs, m.locals.power)))
              case Err(f) => Err(f)
            }
  {
    if args == [] {
      assert m.locals.args + [] == m.locals.args;
    } else if args[0].InputArg? {
      ExpressionsAgree(args[0].inputExpr, m);
      var v := Evaluate(args[0].inputExpr, m.store);
      if v.Ok? {
        var m1 := m.(locals := m.locals.(args := m.locals.args + [v.value]));
        DeclarationsEvaluate(c, limit, args[1..], m1);
        assert GenArgDecls(args)[1..] == GenArgDecls(args[1..]);
        var rest := EvalArgs(args[1..], m.store);
        if rest.Ok? { assert m.locals.args + [v.value] + rest.value == m.locals.args + ([v.value] + rest.value); }
      }
    } else {
      DeclarationsEvaluate(c, limit, args[1..], m);
    }
  }

  lemma {:induction false} ArgWritesRun(c: CProgram, limit: nat, types: seq<TypeId>, args: seq<CallArg>, n: nat, m: Machine)
    requires n <= |m.locals.args|
    requires forall a | a in args && a.InputArg? :: a.paramTagId < |types|
    ensures RunBlock(c, limit, GenArgWrites(types, args, n), m) == InStore(WriteArgs(types, args, m.locals.args[n..], m.store), m.locals)
  {
    if args != [] {
      assert args[0] in args;
      if args[0].InputArg? {
        assert GenArgWrites(types, args, n)[1..] == GenArgWrites(types, args[1..], n + 1);
        if n < |m.locals.args| {
          var r := StoreCoerced(types, m.store, args[0].paramTagId, m.locals.args[n]);
          if r.Ok? {
            ArgWritesRun(c, limit, types, args[1..], n + 1, m.(store := r.value));
            assert m.locals.args[n..][1..] == m.locals.args[n + 1..];
          }
        }
      } else {
        ArgWritesRun(c, limit, types, args[1..], n, m);
      }
    }
  }

  lemma {:induction false} ResetsCommute(resets: seq<TempReset>, s: Store, id: nat, v: Value)
    requires id < |s| && id !in ResetIds(resets) && forall r | r in resets :: r.id < |s|
    ensures ApplyResets(resets, s).Ok? && |ApplyResets(resets, s).value| == |s|
    ensures ApplyResets(resets, s[id := v]) == Ok(ApplyResets(resets, s).value[id := v])
  {
    if resets != [] {
      var r := resets[0];
      assert r in resets;
      assert s[id := v][r.id := r.value] == s[r.id := r.value][id := v];
      assert forall x | x in ResetIds(resets[1..]) :: x in ResetIds(resets);
      ResetsCommute(resets[1..], s[r.id := r.value], id, v);
    }
  }

  lemma {:induction false} ResetsKeep(resets: seq<TempReset>, s: Store)
    requires forall r | r in resets :: r.id < |s|
    ensures ApplyResets(resets, s).Ok? && |ApplyResets(resets, s).value| == |s|
    ensures forall id | 0 <= id < |s| && id !in ResetIds(resets) :: ApplyResets(resets, s).value[id] == s[id]
  {
    if resets != [] {
      var r := resets[0];
      assert r in resets;
      assert forall x | x in ResetIds(resets[1..]) :: x in ResetIds(resets);
      ResetsKeep(resets[1..], s[r.id := r.value]);
    }
  }

  // Interpreter order: reset, then evaluate and write one argument after the other.
  function InterpretedOrder(types: seq<TypeId>, resets: seq<TempReset>, args: seq<CallArg>, s: Store): Result<Store> {
    var cleared :- ApplyResets(resets, s);
    PassInputs(types, args, cleared)
  }

  // Generated order: evaluate all from the store of the call, write all, reset.
  function GeneratedOrder(types: seq<TypeId>, resets: seq<TempReset>, args: seq<CallArg>, atCall: Store, now: Store): Result<Store> {
    var vs :- EvalArgs(args, atCall);
    var written :- WriteArgs(types, args, vs, now);
    ApplyResets(resets, written)
  }

  predicate SameStore(a: Result<Store>, b: Result<Store>) {
    (a.Ok? <==> b.Ok?) && (a.Ok? ==> a == b)
  }

  lemma {:induction false} ArgumentOrders(types: seq<TypeId>, resets: seq<TempReset>, args: seq<CallArg>, busy: set<nat>, atCall: Store, now: Store)
    requires |atCall| == |types| && WellTyped(types, now) && forall r | r in resets :: r.id < |now|
    requires forall a | a in args :: ArgBound(a, |types|, resets)
    requires ArgsIndependent(args, busy) && ResetIds(resets) <= busy
    requires forall id | 0 <= id < |now| && id !in busy :: atCall[id] == now[id]
    ensures SameStore(InterpretedOrder(types, resets, args, now), GeneratedOrder(types, resets, args, atCall, now))
  {
    ResetsKeep(resets, now);
    var reset := ApplyResets(resets, now).value;
    if args != [] {
      assert args[0] in args;
      match args[0]
      case OutputArg(_, _, _, _) => ArgumentOrders(types, resets, args[1..], busy, atCall, now);
      case InputArg(_, e, param) =>
        EvaluateFrame(e, atCall, reset);
        var v := Evaluate(e, atCall);
        if v.Ok? {
          var w := CoerceToType(v.value, types[param]);
          if w.Ok? {
            ResetsCommute(resets, now, param, w.value);
            assert SelfCopy(args[0]) ==> now[param := w.value] == now;
            ArgumentOrders(types, resets, args[1..], BusyAfter(args[0], busy), atCall, now[param := w.value]);
          }
        }
    }
  }

  lemma {:induction false} ResetsRun(c: CProgram, limit: nat, types: seq<TypeId>, resets: seq<TempReset>, m: Machine)
    requires ResetsBound(types, resets)
    ensures RunBlock(c, limit, GenResets(types, resets), m) == InStore(ApplyResets(resets, m.store), m.locals)
  {
    if resets != [] {
      var r := resets[0];
      assert r in resets;
      assert GenResets(types, resets)[1..] == GenResets(types, resets[1..]);
      if r.id < |m.store| { ResetsRun(c, limit, types, resets[1..], m.(store := m.store[r.id := r.value])); }
    }
  }

  lemma {:induction false} OutputsRun(c: CProgram, limit: nat, types: seq<TypeId>, args: seq<CallArg>, m: Machine)
    requires forall a | a in args && a.OutputArg? :: a.outputTargetId < |types|
    ensures RunBlock(c, limit, GenOutputs(types, args), m) == InStore(PassOutputs(types, args, m.store), m.locals)
  {
    if args != [] {
      assert args[0] in args;
      match args[0]
      case InputArg(_, _, _) => OutputsRun(c, limit, types, args[1..], m);
      case OutputArg(_, _, param, target) =>
        assert GenOutputs(types, args)[1..] == GenOutputs(types, args[1..]);
        if param < |m.store| {
          var r := StoreCoerced(types, m.store, target, m.store[param]);
          if r.Ok? { OutputsRun(c, limit, types, args[1..], m.(store := r.value)); }
        }
    }
  }

  lemma CoilRuns(c: CProgram, limit: nat, types: seq<TypeId>, o: RungOutput, m: Machine)
    requires o.targetId < |types| && types[o.targetId] == Bool
    ensures RunStmt(c, limit, GenCoil(types, o), m) == InStore(DriveCoil(o, m.locals.power, m.store), m.locals)
  {
    match o.kind
    case Direct =>
    case Set => assert RunStmt(c, limit, GenWrite(types, o.targetId, CLiteral(VBool(true))), m) == InStore(WriteTag(m.store, o.targetId, VBool(true)), m.locals);
    case Reset => assert RunStmt(c, limit, GenWrite(types, o.targetId, CLiteral(VBool(false))), m) == InStore(WriteTag(m.store, o.targetId, VBool(false)), m.locals);
  }

  lemma {:induction false} CoilsRun(c: CProgram, limit: nat, types: seq<TypeId>, outs: seq<RungOutput>, m: Machine)
    requires forall o | o in outs :: o.targetId < |types| && types[o.targetId] == Bool
    ensures RunBlock(c, limit, GenCoils(types, outs), m) == InStore(DriveCoils(outs, m.locals.power, m.store), m.locals)
  {
    if outs != [] {
      var o := outs[0];
      assert o in outs;
      assert GenCoils(types, outs)[1..] == GenCoils(types, outs[1..]);
      CoilRuns(c, limit, types, o, m);
      var r := RunStmt(c, limit, GenCoil(types, o), m);
      if r.Ok? { CoilsRun(c, limit, types, outs[1..], r.value); }
    }
  }

  // ---- The agreement theorem ----

  // Both end normally in the same cases, and then in the same store.
  predicate SameEnd(interpreted: Result<Store>, generated: Result<Machine>, locals: Locals) {
    && (interpreted.Ok? <==> generated.Ok?)
    && (interpreted.Ok? ==> generated.value == Machine(interpreted.value, locals))
  }

  predicate Comparable(p: Program, limit: nat, ss: seq<Stmt>) {
    Runnable(p, limit, ss) && Independent(p) && BlockIndependent(p.frames, ss)
  }

  predicate ComparableStmt(p: Program, limit: nat, st: Stmt) {
    Executable(p, limit, st) && Independent(p) && StmtIndependent(p.frames, st)
  }

  lemma FrameComparable(p: Program, f: nat)
    requires Bound(p) && Accepted(p) && Independent(p) && f < |p.frames|
    ensures Comparable(p, f, p.frames[f].body) && ResetsBound(p.types, p.frames[f].tempResets)
    ensures Generate(p).frames[f] == GenFrame(p.types, p.frames[f])
  {
    FrameRunnable(p, f);
    assert p.frames[f] in p.frames;
  }

  lemma {:induction false} BlocksAgree(p: Program, limit: nat, ss: seq<Stmt>, m: Machine)
    requires Comparable(p, limit, ss) && WellTyped(p.types, m.store)
    ensures SameEnd(ExecBlock(p, limit, ss, m.store), RunBlock(Generate(p), limit, GenBlock(p.types, ss), m), m.locals)
    decreases limit, ss, 0, 0
  {
    if ss != [] {
      assert ss[0] in ss;
      assert GenBlock(p.types, ss)[1..] == GenBlock(p.types, ss[1..]);
      StatementsAgree(p, limit, ss[0], m);
      StmtSound(p, limit, ss[0], m.store);
      var r := ExecStmt(p, limit, ss[0], m.store);
      if r.Ok? { BlocksAgree(p, limit, ss[1..], m.(store := r.value)); }
    }
  }

  lemma {:induction false} StatementsAgree(p: Program, limit: nat, st: Stmt, m: Machine)
    requires ComparableStmt(p, limit, st) && WellTyped(p.types, m.store)
    ensures SameEnd(ExecStmt(p, limit, st, m.store), RunStmt(Generate(p), limit, GenStmt(p.types, st), m), m.locals)
    decreases limit, st, 1, 0
  {
    match st
    case Assign(_, _, e) => ExpressionsAgree(e, m);
    case If(_, _) => BranchesAgree(p, limit, st, 0, m);
    case While(_, _) => LoopsAgree(p, limit, st, 0, m);
    case Call(_, _, _) => CallsAgree(p, limit, st, m);
    case Rung(_, _) => RungsAgree(p, limit, st, m);
  }

  lemma BranchComparable(p: Program, limit: nat, st: Stmt, k: nat)
    requires ComparableStmt(p, limit, st) && st.If? && k <= |st.branches|
    ensures Comparable(p, limit, if k == |st.branches| then st.elseBody else st.branches[k].body)
  {
    if k < |st.branches| { assert st.branches[k] in st.branches; }
  }

  lemma {:induction false} BranchesAgree(p: Program, limit: nat, st: Stmt, k: nat, m: Machine)
    requires ComparableStmt(p, limit, st) && WellTyped(p.types, m.store) && st.If? && k <= |st.branches|
    ensures SameEnd(ExecBranches(p, limit, st, k, m.store), RunChain(Generate(p), limit, GenStmt(p.types, st), k, m), m.locals)
    decreases limit, st, 0, |st.branches| - k
  {
    hide ComparableStmt, Comparable, WellTyped, ExecBlock, RunBlock, GenBlock, GenExpr, Condition, Truth;
    BranchComparable(p, limit, st, k);
    if k == |st.branches| {
      BlocksAgree(p, limit, st.elseBody, m);
    } else {
      var b := st.branches[k];
      assert b in st.branches;
      ConditionsAgree(b.condition, m);
      BlocksAgree(p, limit, b.body, m);
      BranchesAgree(p, limit, st, k + 1, m);
    }
  }

  // The generated loop tests its limit before the body, the interpreter after it.
  lemma {:induction false} LoopsAgree(p: Program, limit: nat, st: Stmt, passes: nat, m: Machine)
    requires ComparableStmt(p, limit, st) && WellTyped(p.types, m.store) && st.While? && passes <= MAX_ITERATIONS
    ensures SameEnd(ExecLoop(p, limit, st, passes, m.store), RunLoop(Generate(p), limit, GenStmt(p.types, st), passes, m), m.locals)
    decreases limit, st, 0, MAX_ITERATIONS - passes
  {
    ConditionsAgree(st.condition, m);
    if passes + 1 <= MAX_ITERATIONS {
      BlocksAgree(p, limit, st.body, m);
      BlockSound(p, limit, st.body, m.store);
      var r := ExecBlock(p, limit, st.body, m.store);
      if r.Ok? { LoopsAgree(p, limit, st, passes + 1, m.(store := r.value)); }
    }
  }

  lemma RungsAgree(p: Program, limit: nat, st: Stmt, m: Machine)
    requires ComparableStmt(p, limit, st) && WellTyped(p.types, m.store) && st.Rung?
    ensures SameEnd(ExecStmt(p, limit, st, m.store), RunStmt(Generate(p), limit, GenStmt(p.types, st), m), m.locals)
  {
    RungCodeRuns(p, limit, st, m);
  }

  // An emitted rung does exactly what the rung does, also to the fault.
  lemma RungCodeRuns(p: Program, limit: nat, st: Stmt, m: Machine)
    requires Executable(p, limit, st) && st.Rung?
    ensures RunStmt(Generate(p), limit, GenStmt(p.types, st), m) == InStore(ExecStmt(p, limit, st, m.store), m.locals)
  {
    var c, inner := Generate(p), Machine(m.store, NO_LOCALS);
    ConditionsAgree(st.power, inner);
    RunAppend(c, limit, [CDeclarePower(GenExpr(st.power))], GenCoils(p.types, st.outputs), inner);
    RunSingle(c, limit, CDeclarePower(GenExpr(st.power)), inner);
    var b := Condition(st.power, m.store);
    if b.Ok? { CoilsRun(c, limit, p.types, st.outputs, Machine(m.store, Locals([], b.value))); }
  }

  // A frame function: check, reset, body.
  lemma {:induction false} FramesAgree(p: Program, f: nat, s: Store)
    requires Bound(p) && Accepted(p) && Independent(p) && f < |p.frames| && WellTyped(p.types, s)
    ensures ApplyResets(p.frames[f].tempResets, s).Ok?
    ensures SameEnd(ExecBlock(p, f, p.frames[f].body, ApplyResets(p.frames[f].tempResets, s).value),
                    RunBlock(Generate(p), f, Generate(p).frames[f], Machine(s, NO_LOCALS)), NO_LOCALS)
    decreases f, p.frames[f].body, 1, 0
  {
    FrameComparable(p, f);
    var fr := p.frames[f];
    ResetsSound(p.types, fr.tempResets, s);
    FrameCodeRuns(p, f, s);
    BlocksAgree(p, f, fr.body, Machine(ApplyResets(fr.tempResets, s).value, NO_LOCALS));
  }

  lemma FrameCodeRuns(p: Program, f: nat, s: Store)
    requires Bound(p) && f < |p.frames|
    ensures var cleared := ApplyResets(p.frames[f].tempResets, s);
      cleared.Ok? ==>
        RunBlock(Generate(p), f, Generate(p).frames[f], Machine(s, NO_LOCALS)) ==
        RunBlock(Generate(p), f, GenBlock(p.types, p.frames[f].body), Machine(cleared.value, NO_LOCALS))
  {
    var c, fr, m := Generate(p), p.frames[f], Machine(s, NO_LOCALS);
    assert FrameBound(p.types, p.frames, f);
    var resets, body := GenResets(p.types, fr.tempResets), GenBlock(p.types, fr.body);
    assert GenFrame(p.types, fr) == [CCheck] + (resets + body);
    RunAppend(c, f, [CCheck], resets + body, m);
    RunSingle(c, f, CCheck, m);
    RunAppend(c, f, resets, body, m);
    ResetsRun(c, f, p.types, fr.tempResets, m);
  }

  // The arguments of a generated call: all evaluated, then all written.
  function PassAll(types: seq<TypeId>, args: seq<CallArg>, s: Store): Result<(Store, Locals)> {
    var vs :- EvalArgs(args, s);
    var s1 :- WriteArgs(types, args, vs, s);
    Ok((s1, Locals(vs, false)))
  }

  lemma ArgumentCodeRuns(c: CProgram, limit: nat, types: seq<TypeId>, args: seq<CallArg>, s: Store)
    requires forall a | a in args && a.InputArg? :: a.paramTagId < |types|
    ensures RunBlock(c, limit, GenArgDecls(args) + GenArgWrites(types, args, 0), Machine(s, NO_LOCALS)) ==
            match PassAll(types, args, s) {
              case Ok(r) => Ok(Machine(r.0, r.1))
              case Err(f) => Err(f)
            }
  {
    var inner := Machine(s, NO_LOCALS);
    RunAppend(c, limit, GenArgDecls(args), GenArgWrites(types, args, 0), inner);
    DeclarationsEvaluate(c, limit, args, inner);
    var values := EvalArgs(args, s);
    if values.Ok? {
      assert [] + values.value == values.value;
      var m1 := Machine(s, Locals(values.value, false));
      assert m1.locals.args[0..] == values.value;
      ArgWritesRun(c, limit, types, args, 0, m1);
    }
  }

  lemma CallSequence(c: CProgram, limit: nat, passing: seq<CStmt>, f: nat, outs: seq<CStmt>, m: Machine)
    ensures RunBlock(c, limit, passing + [CCallFrame(f)] + outs, m) ==
            match RunBlock(c, limit, passing, m) {
              case Err(e) => Err(e)
              case Ok(m1) => Then(c, limit, RunStmt(c, limit, CCallFrame(f), m1), outs)
            }
  {
    RunAppend(c, limit, passing + [CCallFrame(f)], outs, m);
    RunAppend(c, limit, passing, [CCallFrame(f)], m);
    var r := RunBlock(c, limit, passing, m);
    if r.Ok? { RunSingle(c, limit, CCallFrame(f), r.value); }
  }

  // The parts of a generated call, run one after the other.
  lemma CallCodeRuns(p: Program, limit: nat, st: Stmt, m: Machine)
    requires Executable(p, limit, st) && st.Call?
    ensures var c := Generate(p);
            RunStmt(c, limit, GenStmt(p.types, st), m) ==
            match PassAll(p.types, st.args, m.store) {
              case Err(f) => Err(f)
              case Ok(r) =>
                match RunBlock(c, st.frameIndex, c.frames[st.frameIndex], Machine(r.0, NO_LOCALS)) {
                  case Err(f) => Err(f)
                  case Ok(m2) => InStore(PassOutputs(p.types, st.args, m2.store), m.locals)
                }
            }
  {
    hide GenArgDecls, GenArgWrites, GenOutputs, PassOutputs, EvalArgs, WriteArgs, PassAll, RunBlock;
    var c, inner := Generate(p), Machine(m.store, NO_LOCALS);
    var passing, outs := GenArgDecls(st.args) + GenArgWrites(p.types, st.args, 0), GenOutputs(p.types, st.args);
    CallSequence(c, limit, passing, st.frameIndex, outs, inner);
    ArgumentCodeRuns(c, limit, p.types, st.args, m.store);
    var passed := PassAll(p.types, st.args, m.store);
    if passed.Ok? {
      var m1 := Machine(passed.value.0, passed.value.1);
      var r := RunBlock(c, st.frameIndex, c.frames[st.frameIndex], Machine(m1.store, NO_LOCALS));
      if r.Ok? { OutputsRun(c, limit, p.types, st.args, r.value.(locals := m1.locals)); }
    }
  }

  lemma {:induction false} CallsAgree(p: Program, limit: nat, st: Stmt, m: Machine)
    requires ComparableStmt(p, limit, st) && WellTyped(p.types, m.store) && st.Call?
    ensures SameEnd(ExecStmt(p, limit, st, m.store), RunStmt(Generate(p), limit, GenStmt(p.types, st), m), m.locals)
    decreases limit, st, 0, 0
  {
    var f, s := st.frameIndex, m.store;
    var resets := p.frames[f].tempResets;
    FrameComparable(p, f);
    CallCodeRuns(p, limit, st, m);
    ArgumentOrders(p.types, resets, st.args, ResetIds(resets), s, s);
    var values := EvalArgs(st.args, s);
    if values.Ok? && WriteArgs(p.types, st.args, values.value, s).Ok? {
      var written := WriteArgs(p.types, st.args, values.value, s).value;
      WritesSound(p.types, st.args, values.value, s);
      FramesAgree(p, f, written);
    }
  }

  lemma {:induction false} WritesSound(types: seq<TypeId>, args: seq<CallArg>, vs: seq<Value>, s: Store)
    requires WellTyped(types, s)
    ensures WriteArgs(types, args, vs, s).Ok? ==> WellTyped(types, WriteArgs(types, args, vs, s).value)
  {
    if args != [] {
      if args[0].InputArg? {
        if vs != [] {
          var r := StoreCoerced(types, s, args[0].paramTagId, vs[0]);
          if r.Ok? { WritesSound(types, args[1..], vs[1..], r.value); }
        }
      } else {
        WritesSound(types, args[1..], vs, s);
      }
    }
  }

  // For every bound program the type check accepts, whose call arguments do not
  // read the callee's own temporaries or already written inputs, one scan of the
  // generated code and one scan of the interpreter end normally in exactly the
  // same cases, and then with the same value in every tag.
  lemma GeneratedCodeAgrees(p: Program, s: Store)
    requires Bound(p) && Accepted(p) && Independent(p) && WellTyped(p.types, s)
    ensures Run(p, s).Ok? <==> RunGenerated(Generate(p), s).Ok?
    ensures Run(p, s).Ok? ==> RunGenerated(Generate(p), s) == Run(p, s)
  {
    MainCodeRuns(p, s);
    BlocksAgree(p, |p.frames|, p.body, Machine(s, NO_LOCALS));
  }

  lemma MainCodeRuns(p: Program, s: Store)
    ensures var c, m := Generate(p), Machine(s, NO_LOCALS);
      RunBlock(c, |p.frames|, c.main, m) == RunBlock(c, |p.frames|, GenBlock(p.types, p.body), m)
  {
    var c, m := Generate(p), Machine(s, NO_LOCALS);
    RunAppend(c, |p.frames|, [CCheck], GenBlock(p.types, p.body), m);
    RunSingle(c, |p.frames|, CCheck, m);
  }

  // Scan after scan from the declared initial values.
  function GeneratedScans(p: Program, n: nat, s: Store): Result<Store> {
    if n == 0 then Ok(s)
    else
      var s1 :- GeneratedScans(p, n - 1, s);
      RunGenerated(Generate(p), s1)
  }

  lemma {:induction false} EveryScanAgrees(p: Program, n: nat)
    requires Bound(p) && Accepted(p) && Independent(p)
    ensures Scans(p, n, p.initials).Ok? <==> GeneratedScans(p, n, p.initials).Ok?
    ensures Scans(p, n, p.initials).Ok? ==> GeneratedScans(p, n, p.initials) == Scans(p, n, p.initials)
  {
    if n > 0 {
      EveryScanAgrees(p, n - 1);
      AcceptedProgramsAreTypeSafe(p, n - 1);
      var r := Scans(p, n - 1, p.initials);
      if r.Ok? { GeneratedCodeAgrees(p, r.value); }
    }
  }
}

// What running the emitted code does, whatever order its arguments come in: it is type
// safe by itself, and all it does to the tags is a sequence of typed writes.

module EmittedCode {
  import opened Values
  import opened Ast
  import opened Interpreter
  import opened Codegen
  import opened TypeSoundness
  import opened Agreement

  // ---- Accepted code stops only on overflow, division by zero or the loop limit ----

  predicate SoundMachine(types: seq<TypeId>, r: Result<Machine>) {
    match r
    case Ok(m) => WellTyped(types, m.store)
    case Err(f) => RuntimeOnly(f)
  }

  // The arguments are all evaluated before the first is written.
  predicate ValuesFit(types: seq<TypeId>, args: seq<CallArg>, vs: seq<Value>) {
    if args == [] then true
    else match args[0]
      case InputArg(_, e, param) =>
        && vs != [] && TypeCheck(types, e) == Some(TypeOf(vs[0])) && ValuesFit(types, args[1..], vs[1..])
      case OutputArg(_, _, _, _) => ValuesFit(types, args[1..], vs)
  }

  lemma {:induction false} EvalArgsSound(types: seq<TypeId>, args: seq<CallArg>, s: Store)
    requires WellTyped(types, s) && forall a | a in args :: ArgAccepted(types, a)
    ensures var r := EvalArgs(args, s); if r.Ok? then ValuesFit(types, args, r.value) else RuntimeOnly(r.fault)
  {
    if args != [] {
      assert args[0] in args;
      match args[0]
      case InputArg(_, e, _) =>
        EvaluateSound(types, e, s);
        EvalArgsSound(types, args[1..], s);
        var v, vs := Evaluate(e, s), EvalArgs(args[1..], s);
        if v.Ok? && vs.Ok? { assert ([v.value] + vs.value)[1..] == vs.value; }
      case OutputArg(_, _, _, _) => EvalArgsSound(types, args[1..], s);
    }
  }

  lemma {:induction false} WriteArgsSound(types: seq<TypeId>, args: seq<CallArg>, vs: seq<Value>, s: Store)
    requires WellTyped(types, s) && (forall a | a in args :: ArgAccepted(types, a)) && ValuesFit(types, args, vs)
    ensures SoundRun(types, WriteArgs(types, args, vs, s))
  {
    if args != [] {
      assert args[0] in args;
      match args[0]
      case InputArg(_, e, param) =>
        StoreSound(types, s, param, vs[0]);
        var r := StoreCoerced(types, s, param, vs[0]);
        if r.Ok? { WriteArgsSound(types, args[1..], vs[1..], r.value); }
      case OutputArg(_, _, _, _) => WriteArgsSound(types, args[1..], vs, s);
    }
  }

  lemma {:induction false} BlockCodeSound(p: Program, limit: nat, ss: seq<Stmt>, m: Machine)
    requires Runnable(p, limit, ss) && WellTyped(p.types, m.store)
    ensures SoundMachine(p.types, RunBlock(Generate(p), limit, GenBlock(p.types, ss), m))
    decreases limit, ss, 0, 0
  {
    if ss != [] {
      assert ss[0] in ss;
      assert GenBlock(p.types, ss)[1..] == GenBlock(p.types, ss[1..]);
      StmtCodeSound(p, limit, ss[0], m);
      var r := RunStmt(Generate(p), limit, GenStmt(p.types, ss[0]), m);
      if r.Ok? { BlockCodeSound(p, limit, ss[1..], r.value); }
    }
  }

  lemma {:induction false} StmtCodeSound(p: Program, limit: nat, st: Stmt, m: Machine)
    requires Executable(p, limit, st) && WellTyped(p.types, m.store)
    ensures SoundMachine(p.types, RunStmt(Generate(p), limit, GenStmt(p.types, st), m))
    decreases limit, st, 1, 0
  {
    match st
    case Assign(_, id, e) =>
      ExpressionsAgree(e, m);
      AssignSound(p.types, m.store, id, e);
    case If(_, _) => ChainCodeSound(p, limit, st, 0, m);
    case While(_, _) => LoopCodeSound(p, limit, st, 0, m);
    case Call(_, _, _) => CallCodeSound(p, limit, st, m);
    case Rung(_, _) => RungCodeSound(p, limit, st, m);
  }

  lemma {:induction false} ChainCodeSound(p: Program, limit: nat, st: Stmt, k: nat, m: Machine)
    requires Executable(p, limit, st) && WellTyped(p.types, m.store) && st.If? && k <= |st.branches|
    ensures SoundMachine(p.types, RunChain(Generate(p), limit, GenStmt(p.types, st), k, m))
    decreases limit, st, 0, |st.branches| - k
  {
    if k == |st.branches| {
      BlockCodeSound(p, limit, st.elseBody, m);
    } else {
      var b := st.branches[k];
      assert b in st.branches;
      ConditionsAgree(b.condition, m);
      ConditionSound(p.types, b.condition, m.store);
      BlockCodeSound(p, limit, b.body, m);
      ChainCodeSound(p, limit, st, k + 1, m);
    }
  }

  lemma {:induction false} LoopCodeSound(p: Program, limit: nat, st: Stmt, passes: nat, m: Machine)
    requires Executable(p, limit, st) && WellTyped(p.types, m.store) && st.While? && passes <= MAX_ITERATIONS
    ensures SoundMachine(p.types, RunLoop(Generate(p), limit, GenStmt(p.types, st), passes, m))
    decreases limit, st, 0, MAX_ITERATIONS - passes
  {
    ConditionsAgree(st.condition, m);
    ConditionSound(p.types, st.condition, m.store);
    if passes + 1 <= MAX_ITERATIONS {
      BlockCodeSound(p, limit, st.body, m);
      var r := RunBlock(Generate(p), limit, GenBlock(p.types, st.body), m);
      if r.Ok? { LoopCodeSound(p, limit, st, passes + 1, r.value); }
    }
  }

  lemma RungCodeSound(p: Program, limit: nat, st: Stmt, m: Machine)
    requires Executable(p, limit, st) && WellTyped(p.types, m.store) && st.Rung?
    ensures SoundMachine(p.types, RunStmt(Generate(p), limit, GenStmt(p.types, st), m))
  {
    RungCodeRuns(p, limit, st, m);
    StmtSound(p, limit, st, m.store);
  }

  lemma {:induction false} CallCodeSound(p: Program, limit: nat, st: Stmt, m: Machine)
    requires Executable(p, limit, st) && WellTyped(p.types, m.store) && st.Call?
    ensures SoundMachine(p.types, RunStmt(Generate(p), limit, GenStmt(p.types, st), m))
    decreases limit, st, 0, 0
  {
    var c, f, args := Generate(p), st.frameIndex, st.args;
    CallCodeRuns(p, limit, st, m);
    EvalArgsSound(p.types, args, m.store);
    var vs := EvalArgs(args, m.store);
    if vs.Ok? {
      WriteArgsSound(p.types, args, vs.value, m.store);
      var written := WriteArgs(p.types, args, vs.value, m.store);
      if written.Ok? {
        FrameCodeSound(p, f, written.value);
        var r := RunBlock(c, f, c.frames[f], Machine(written.value, NO_LOCALS));
        if r.Ok? { OutputsSound(p.types, args, r.value.store); }
      }
    }
  }

  lemma {:induction false} FrameCodeSound(p: Program, f: nat, s: Store)
    requires Bound(p) && Accepted(p) && f < |p.frames| && WellTyped(p.types, s)
    ensures SoundMachine(p.types, RunBlock(Generate(p), f, Generate(p).frames[f], Machine(s, NO_LOCALS)))
    decreases f, p.frames[f].body, 1, 0
  {
    FrameRunnable(p, f);
    var fr := p.frames[f];
    ResetsSound(p.types, fr.tempResets, s);
    FrameCodeRuns(p, f, s);
    BlockCodeSound(p, f, fr.body, Machine(ApplyResets(fr.tempResets, s).value, NO_LOCALS));
  }

  // One scan of the emitted code, from any typed tags and for any accepted program.
  lemma ScanCodeSound(p: Program, s: Store)
    requires Bound(p) && Accepted(p) && WellTyped(p.types, s)
    ensures SoundRun(p.types, RunGenerated(Generate(p), s))
  {
    MainCodeRuns(p, s);
    BlockCodeSound(p, |p.frames|, p.body, Machine(s, NO_LOCALS));
  }

  // Any number of scans from the declared initial values.
  lemma {:induction false} GeneratedProgramsAreTypeSafe(p: Program, n: nat)
    requires Bound(p) && Accepted(p)
    ensures SoundRun(p.types, GeneratedScans(p, n, p.initials))
  {
    if n > 0 {
      GeneratedProgramsAreTypeSafe(p, n - 1);
      var r := GeneratedScans(p, n - 1, p.initials);
      if r.Ok? { ScanCodeSound(p, r.value); }
    }
  }

  // ---- Every write of a run, also of one that ends in a fault ----

  datatype TagWrite = TagWrite(id: nat, value: Value)

  function WritesOfBlock(c: CProgram, limit: nat, ss: seq<CStmt>, m: Machine): seq<TagWrite>
    decreases limit, ss, 0, 0
  {
    if ss == [] then []
    else
      var first := WritesOfStmt(c, limit, ss[0], m);
      match RunStmt(c, limit, ss[0], m)
      case Err(_) => first
      case Ok(m1) => first + WritesOfBlock(c, limit, ss[1..], m1)
  }

  function WritesOfStmt(c: CProgram, limit: nat, st: CStmt, m: Machine): seq<TagWrite>
    decreases limit, st, 1, 0
  {
    match st
    case CWrite(id, ty, e) => WriteOf(id, ty, EvalC(e, m), m)
    case CIfChain(_, _) => WritesOfChain(c, limit, st, 0, m)
    case CLoop(_, _) => WritesOfLoop(c, limit, st, 0, m)
    case CScope(body) => WritesOfBlock(c, limit, body, m.(locals := NO_LOCALS))
    case CIfPower(coil) => if m.locals.power then WritesOfStmt(c, limit, coil, m) else []
    case CCallFrame(f) =>
      if f >= limit || f >= |c.frames| then [] else WritesOfBlock(c, f, c.frames[f], Machine(m.store, NO_LOCALS))
    case _ => []
  }

  function WriteOf(id: nat, ty: TypeId, v: Result<Value>, m: Machine): seq<TagWrite> {
    if v.Err? || CoerceToType(v.value, ty).Err? || id >= |m.store| then []
    else [TagWrite(id, CoerceToType(v.value, ty).value)]
  }

  function WritesOfChain(c: CProgram, limit: nat, st: CStmt, k: nat, m: Machine): seq<TagWrite>
    requires st.CIfChain? && k <= |st.branches|
    decreases limit, st, 0, |st.branches| - k
  {
    if k == |st.branches| then WritesOfBlock(c, limit, st.els, m)
    else
      match Truth(st.branches[k].cond, m)
      case Err(_) => []
      case Ok(b) => if b then WritesOfBlock(c, limit, st.branches[k].body, m) else WritesOfChain(c, limit, st, k + 1, m)
  }

  function WritesOfLoop(c: CProgram, limit: nat, st: CStmt, iterations: nat, m: Machine): seq<TagWrite>
    requires st.CLoop? && iterations <= MAX_ITERATIONS
    decreases limit, st, 0, MAX_ITERATIONS - iterations
  {
    if Truth(st.cond, m) != Ok(true) || iterations + 1 > MAX_ITERATIONS then []
    else
      var first := WritesOfBlock(c, limit, st.loopBody, m);
      match RunBlock(c, limit, st.loopBody, m)
      case Err(_) => first
      case Ok(m1) => first + WritesOfLoop(c, limit, st, iterations + 1, m1)
  }

  // The tags after some writes.
  function Applied(s: Store, ws: seq<TagWrite>): (r: Store)
    ensures |r| == |s|
  {
    if ws == [] then s
    else
      var before := Applied(s, ws[..|ws| - 1]);
      var w := ws[|ws| - 1];
      if w.id < |s| then before[w.id := w.value] else before
  }

  lemma {:induction false} AppliedAppend(s: Store, a: seq<TagWrite>, b: seq<TagWrite>)
    ensures Applied(s, a + b) == Applied(Applied(s, a), b)
    decreases |b|
  {
    if b == [] {
      assert a + b == a;
    } else {
      assert (a + b)[..|a + b| - 1] == a + b[..|b| - 1];
      AppliedAppend(s, a, b[..|b| - 1]);
    }
  }

  // A run that ends normally leaves what its writes leave, in the locals it started with.
  predicate LeavesWrites(s: Store, r: Result<Machine>, ws: seq<TagWrite>) {
    r.Ok? ==> r.value.store == Applied(s, ws)
  }

  lemma {:induction false} BlockLeavesWrites(c: CProgram, limit: nat, ss: seq<CStmt>, m: Machine)
    ensures LeavesWrites(m.store, RunBlock(c, limit, ss, m), WritesOfBlock(c, limit, ss, m))
    decreases limit, ss, 0, 0
  {
    if ss != [] {
      StmtLeavesWrites(c, limit, ss[0], m);
      var r := RunStmt(c, limit, ss[0], m);
      if r.Ok? {
        BlockLeavesWrites(c, limit, ss[1..], r.value);
        AppliedAppend(m.store, WritesOfStmt(c, limit, ss[0], m), WritesOfBlock(c, limit, ss[1..], r.value));
      }
    }
  }

  lemma {:induction false} StmtLeavesWrites(c: CProgram, limit: nat, st: CStmt, m: Machine)
    ensures LeavesWrites(m.store, RunStmt(c, limit, st, m), WritesOfStmt(c, limit, st, m))
    decreases limit, st, 1, 0
  {
    match st
    case CWrite(id, ty, e) =>
      var v := EvalC(e, m);
      if v.Ok? && CoerceToType(v.value, ty).Ok? && id < |m.store| {
        assert Applied(m.store, [TagWrite(id, CoerceToType(v.value, ty).value)][..0]) == m.store;
      }
    case CIfChain(_, _) => ChainLeavesWrites(c, limit, st, 0, m);
    case CLoop(_, _) => LoopLeavesWrites(c, limit, st, 0, m);
    case CScope(body) => BlockLeavesWrites(c, limit, body, m.(locals := NO_LOCALS));
    case CIfPower(coil) => StmtLeavesWrites(c, limit, coil, m);
    case CCallFrame(f) =>
      if f < limit && f < |c.frames| { BlockLeavesWrites(c, f, c.frames[f], Machine(m.store, NO_LOCALS)); }
    case _ =>
  }

  lemma {:induction false} ChainLeavesWrites(c: CProgram, limit: nat, st: CStmt, k: nat, m: Machine)
    requires st.CIfChain? && k <= |st.branches|
    ensures LeavesWrites(m.store, RunChain(c, limit, st, k, m), WritesOfChain(c, limit, st, k, m))
    decreases limit, st, 0, |st.branches| - k
  {
    if k == |st.branches| {
      BlockLeavesWrites(c, limit, st.els, m);
    } else {
      BlockLeavesWrites(c, limit, st.branches[k].body, m);
      ChainLeavesWrites(c, limit, st, k + 1, m);
    }
  }

  lemma {:induction false} LoopLeavesWrites(c: CProgram, limit: nat, st: CStmt, iterations: nat, m: Machine)
    requires st.CLoop? && iterations <= MAX_ITERATIONS
    ensures LeavesWrites(m.store, RunLoop(c, limit, st, iterations, m), WritesOfLoop(c, limit, st, iterations, m))
    decreases limit, st, 0, MAX_ITERATIONS - iterations
  {
    if Truth(st.cond, m) == Ok(true) && iterations + 1 <= MAX_ITERATIONS {
      BlockLeavesWrites(c, limit, st.loopBody, m);
      var r := RunBlock(c, limit, st.loopBody, m);
      if r.Ok? {
        LoopLeavesWrites(c, limit, st, iterations + 1, r.value);
        AppliedAppend(m.store, WritesOfBlock(c, limit, st.loopBody, m), WritesOfLoop(c, limit, st, iterations + 1, r.value));
      }
    }
  }

  // ---- Emitted writes name the tag's own type ----

  predicate StmtTagged(types: seq<TypeId>, st: CStmt)
    decreases st
  {
    match st
    case CWrite(id, ty, _) => id < |types| && ty == types[id]
    case CIfChain(branches, els) => (forall b | b in branches :: BlockTagged(types, b.body)) && BlockTagged(types, els)
    case CLoop(_, body) => BlockTagged(types, body)
    case CScope(body) => BlockTagged(types, body)
    case CIfPower(coil) => StmtTagged(types, coil)
    case _ => true
  }

  predicate BlockTagged(types: seq<TypeId>, ss: seq<CStmt>)
    decreases ss
  {
    forall st | st in ss :: StmtTagged(types, st)
  }

  predicate CodeTagged(types: seq<TypeId>, c: CProgram) {
    BlockTagged(types, c.main) && forall f | f in c.frames :: BlockTagged(types, f)
  }

  predicate WriteTyped(types: seq<TypeId>, w: TagWrite) {
    w.id < |types| && TypeOf(w.value) == types[w.id]
  }

  predicate AllTyped(types: seq<TypeId>, ws: seq<TagWrite>) {
    forall w | w in ws :: WriteTyped(types, w)
  }

  lemma CoercedHasType(v: Value, t: TypeId)
    ensures CoerceToType(v, t).Ok? ==> TypeOf(CoerceToType(v, t).value) == t
  {
  }

  lemma {:induction false} BlockWritesTyped(types: seq<TypeId>, c: CProgram, limit: nat, ss: seq<CStmt>, m: Machine)
    requires CodeTagged(types, c) && BlockTagged(types, ss)
    ensures AllTyped(types, WritesOfBlock(c, limit, ss, m))
    decreases limit, ss, 0, 0
  {
    if ss != [] {
      assert ss[0] in ss;
      StmtWritesTyped(types, c, limit, ss[0], m);
      var r := RunStmt(c, limit, ss[0], m);
      if r.Ok? { BlockWritesTyped(types, c, limit, ss[1..], r.value); }
    }
  }

  lemma {:induction false} StmtWritesTyped(types: seq<TypeId>, c: CProgram, limit: nat, st: CStmt, m: Machine)
    requires CodeTagged(types, c) && StmtTagged(types, st)
    ensures AllTyped(types, WritesOfStmt(c, limit, st, m))
    decreases limit, st, 1, 0
  {
    match st
    case CWrite(_, ty, e) =>
      var v := EvalC(e, m);
      if v.Ok? { CoercedHasType(v.value, ty); }
    case CIfChain(_, _) => ChainWritesTyped(types, c, limit, st, 0, m);
    case CLoop(_, _) => LoopWritesTyped(types, c, limit, st, 0, m);
    case CScope(body) => BlockWritesTyped(types, c, limit, body, m.(locals := NO_LOCALS));
    case CIfPower(coil) => StmtWritesTyped(types, c, limit, coil, m);
    case CCallFrame(f) =>
      if f < limit && f < |c.frames| {
        assert c.frames[f] in c.frames;
        BlockWritesTyped(types, c, f, c.frames[f], Machine(m.store, NO_LOCALS));
      }
    case _ =>
  }

  lemma {:induction false} ChainWritesTyped(types: seq<TypeId>, c: CProgram, limit: nat, st: CStmt, k: nat, m: Machine)
    requires CodeTagged(types, c) && StmtTagged(types, st) && st.CIfChain? && k <= |st.branches|
    ensures AllTyped(types, WritesOfChain(c, limit, st, k, m))
    decreases limit, st, 0, |st.branches| - k
  {
    if k == |st.branches| {
      BlockWritesTyped(types, c, limit, st.els, m);
    } else {
      assert st.branches[k] in st.branches;
      BlockWritesTyped(types, c, limit, st.branches[k].body, m);
      ChainWritesTyped(types, c, limit, st, k + 1, m);
    }
  }

  lemma {:induction false} LoopWritesTyped(types: seq<TypeId>, c: CProgram, limit: nat, st: CStmt, iterations: nat, m: Machine)
    requires CodeTagged(types, c) && StmtTagged(types, st) && st.CLoop? && iterations <= MAX_ITERATIONS
    ensures AllTyped(types, WritesOfLoop(c, limit, st, iterations, m))
    decreases limit, st, 0, MAX_ITERATIONS - iterations
  {
    if Truth(st.cond, m) == Ok(true) && iterations + 1 <= MAX_ITERATIONS {
      BlockWritesTyped(types, c, limit, st.loopBody, m);
      var r := RunBlock(c, limit, st.loopBody, m);
      if r.Ok? { LoopWritesTyped(types, c, limit, st, iterations + 1, r.value); }
    }
  }

  // ---- The generator emits such code ----

  lemma {:induction false} BlockIsTagged(types: seq<TypeId>, ss: seq<Stmt>)
    requires BlockAccepted(types, ss)
    ensures BlockTagged(types, GenBlock(types, ss))
    decreases ss, 0
  {
    if ss != [] {
      assert ss[0] in ss;
      StmtIsTagged(types, ss[0]);
      BlockIsTagged(types, ss[1..]);
    }
  }

  lemma {:induction false} StmtIsTagged(types: seq<TypeId>, st: Stmt)
    requires StmtAccepted(types, st)
    ensures StmtTagged(types, GenStmt(types, st))
    decreases st, 1
  {
    match st
    case Assign(_, _, _) =>
    case If(branches, els) =>
      BlockIsTagged(types, els);
      var bs := GenBranches(types, branches);
      forall b | b in bs ensures BlockTagged(types, b.body) {
        var k :| 0 <= k < |bs| && bs[k] == b;
        assert branches[k] in branches;
        BlockIsTagged(types, branches[k].body);
      }
    case While(_, body) => BlockIsTagged(types, body);
    case Call(_, args, _) =>
      DeclsTagged(types, args);
      ArgWritesTagged(types, args, 0);
      OutputsTagged(types, args);
    case Rung(_, outs) => CoilsTagged(types, outs);
  }

  lemma {:induction false} DeclsTagged(types: seq<TypeId>, args: seq<CallArg>)
    ensures BlockTagged(types, GenArgDecls(args))
  {
    if args != [] { DeclsTagged(types, args[1..]); }
  }

  lemma {:induction false} ArgWritesTagged(types: seq<TypeId>, args: seq<CallArg>, n: nat)
    requires forall a | a in args :: ArgAccepted(types, a)
    ensures BlockTagged(types, GenArgWrites(types, args, n))
  {
    if args != [] {
      assert args[0] in args;
      ArgWritesTagged(types, args[1..], if args[0].InputArg? then n + 1 else n);
    }
  }

  lemma {:induction false} OutputsTagged(types: seq<TypeId>, args: seq<CallArg>)
    requires forall a | a in args :: ArgAccepted(types, a)
    ensures BlockTagged(types, GenOutputs(types, args))
  {
    if args != [] {
      assert args[0] in args;
      OutputsTagged(types, args[1..]);
    }
  }

  lemma {:induction false} CoilsTagged(types: seq<TypeId>, outs: seq<RungOutput>)
    requires forall o | o in outs :: o.targetId < |types|
    ensures BlockTagged(types, GenCoils(types, outs))
  {
    if outs != [] {
      assert outs[0] in outs;
      CoilsTagged(types, outs[1..]);
    }
  }

  lemma {:induction false} ResetsTagged(types: seq<TypeId>, resets: seq<TempReset>)
    requires forall r | r in resets :: r.id < |types|
    ensures BlockTagged(types, GenResets(types, resets))
  {
    if resets != [] {
      assert resets[0] in resets;
      ResetsTagged(types, resets[1..]);
    }
  }

  lemma GeneratedIsTagged(p: Program)
    requires Accepted(p)
    ensures CodeTagged(p.types, Generate(p))
  {
    var c := Generate(p);
    BlockIsTagged(p.types, p.body);
    forall f | f in c.frames ensures BlockTagged(p.types, f) {
      var i :| 0 <= i < |c.frames| && c.frames[i] == f;
      assert p.frames[i] in p.frames;
      ResetsTagged(p.types, p.frames[i].tempResets);
      BlockIsTagged(p.types, p.frames[i].body);
    }
  }

  // ---- Type safety through every step ----

  // All writes of one scan, up to its end or its fault.
  function ScanWrites(p: Program, s: Store): seq<TagWrite> {
    var c := Generate(p);
    WritesOfBlock(c, |c.frames|, c.main, Machine(s, NO_LOCALS))
  }

  lemma {:induction false} AppliedTyped(types: seq<TypeId>, s: Store, ws: seq<TagWrite>)
    requires WellTyped(types, s) && AllTyped(types, ws)
    ensures WellTyped(types, Applied(s, ws))
    decreases |ws|
  {
    if ws != [] {
      assert ws[|ws| - 1] in ws;
      AppliedTyped(types, s, ws[..|ws| - 1]);
    }
  }

  // After every write of a scan, also of one that ends in a fault, each tag holds a value
  // of its declared type; a scan that ends normally leaves what its writes leave.
  lemma EveryWriteIsTyped(p: Program, s: Store, k: nat)
    requires Accepted(p) && WellTyped(p.types, s) && k <= |ScanWrites(p, s)|
    ensures AllTyped(p.types, ScanWrites(p, s)) && WellTyped(p.types, Applied(s, ScanWrites(p, s)[..k]))
    ensures RunGenerated(Generate(p), s).Ok? ==> RunGenerated(Generate(p), s) == Ok(Applied(s, ScanWrites(p, s)))
  {
    var c := Generate(p);
    GeneratedIsTagged(p);
    BlockWritesTyped(p.types, c, |c.frames|, c.main, Machine(s, NO_LOCALS));
    BlockLeavesWrites(c, |c.frames|, c.main, Machine(s, NO_LOCALS));
    AppliedTyped(p.types, s, ScanWrites(p, s)[..k]);
  }
}

// Running generated code on the CPU's byte images (include/softplc/runtime/program_support.hpp,
// apps/plc_runtime/main.cpp:80-137): every read and write is a host call, and on a disjoint
// layout each tag reads as the value the interpreter gives it.

module CodeOverMemory {
  import opened Values
  import opened Ast
  import opened Interpreter
  import opened Codegen
  import opened TypeSoundness
  import opened Agreement
  import opened EmittedCode
  import opened ProcessMemory
  import B = ByteImage
  import Cells

  // ---- Values across the host API ----

  function AbiTypeOf(t: TypeId): B.AbiType {
    match t
    case Bool => B.BOOL
    case Byte => B.BYTE
    case Int => B.INT
    case DInt => B.DINT
    case Time => B.TIME
  }

  // toAbi and fromAbi; the latter casts, and knows no other types here.
  function ToAbi(v: Value): (r: B.PlcValue)
    ensures r.typ == AbiTypeOf(TypeOf(v)) && B.Valid(r)
  {
    var blank := B.PlcValue(AbiTypeOf(TypeOf(v)), 0, 0, B.BLANK);
    match v
    case VBool(b) => blank.(integer := if b then 1 else 0)
    case VByte(n) => blank.(integer := n)
    case VInt(n) => blank.(integer := n)
    case VDInt(n) => blank.(integer := n)
    case VTime(n) => blank.(integer := n)
  }

  function FromAbi(r: B.PlcValue): Option<Value> {
    match r.typ
    case BOOL => Some(VBool(r.integer != 0))
    case BYTE => Some(VByte(r.integer % 0x100))
    case INT => Some(VInt(B.Signed(r.integer % 0x1_0000, 0x1_0000)))
    case DINT => Some(VDInt(B.Signed(r.integer % 0x1_0000_0000, 0x1_0000_0000)))
    case TIME => Some(VTime(r.integer))
    case _ => None
  }

  lemma Int16Kept(n: i16)
    ensures B.Signed(n % 0x1_0000, 0x1_0000) == n
  {
    if n < 0 { assert n % 0x1_0000 == n + 0x1_0000; }
  }

  lemma Int32Kept(n: i32)
    ensures B.Signed(n % 0x1_0000_0000, 0x1_0000_0000) == n
  {
    if n < 0 { assert n % 0x1_0000_0000 == n + 0x1_0000_0000; }
  }

  // A value comes back from the memory as it was written.
  lemma AbiRoundTrip(v: Value)
    ensures FromAbi(Cells.Stored(ToAbi(v))) == Some(v)
  {
    hide B.Signed;
    match v
    case VInt(n) => Int16Kept(n);
    case VDInt(n) => Int32Kept(n);
    case _ =>
  }

  // ---- The memory of a running program ----

  datatype Bytes = Bytes(images: Cells.Images, store: seq<B.PlcValue>)

  // Each tag of the memory reads as its value.
  predicate Represents(tags: seq<TagDef>, m: Bytes, s: Store) {
    && Ready(tags, m.images, m.store) && |s| == |tags|
    && forall i | 0 <= i < |tags| :: Holds(tags, m, i, s[i])
  }

  predicate Holds(tags: seq<TagDef>, m: Bytes, i: nat, v: Value)
    requires i < |tags| && i < |m.store|
  {
    tags[i].typ == AbiTypeOf(TypeOf(v)) && ReadTag(tags, m.images, m.store, i) == B.Returned(Cells.Stored(ToAbi(v)))
  }

  // ---- The host calls of the emitted code ----

  // read(c, id). The types FromAbi does not know are not types of this language.
  function ReadValue(tags: seq<TagDef>, m: Bytes, id: nat): Result<Value> {
    if id >= |tags| || id >= |m.store| then Err(Unresolved)
    else
      match ReadTag(tags, m.images, m.store, id)
      case Threw(_) => Err(Unresolved)
      case Returned(r) => if FromAbi(r).Some? then Ok(FromAbi(r).value) else Err(TypeMismatch)
  }

  // The memory's write: nothing changes where it throws.
  function HostWrite(tags: seq<TagDef>, m: Bytes, id: nat, v: B.PlcValue): B.Outcome<Bytes> {
    if id >= |tags| || tags[id].typ != v.typ then B.Threw("tag type mismatch")
    else
      var _ :- B.ValidateValue(v);
      if tags[id].area == Cells.LOCAL then
        if id < |m.store| then B.Returned(m.(store := m.store[id := Cells.Stored(v)])) else B.Threw("invalid tag ID")
      else
        var images :- Cells.WriteCell(m.images, CellOf(tags[id]), v);
        B.Returned(m.(images := images))
  }

  // Which is what ProcessMemory.Memory.Write does.
  lemma HostWriteIsMemoryWrite(tags: seq<TagDef>, m: Bytes, id: nat, v: B.PlcValue)
    requires Ready(tags, m.images, m.store)
    ensures var r := HostWrite(tags, m, id, v);
      && (r.Returned? <==> id < |tags| && tags[id].typ == v.typ && B.Valid(v))
      && (r.Returned? ==> (r.value.images, r.value.store) == ProcessMemory.WriteTag(tags, m.images, m.store, id, v))
  {
    if id < |tags| { assert TagReady(tags, m.images, m.store, id); }
  }

  // write(c, id, type, value)
  function WriteValue(tags: seq<TagDef>, m: Bytes, id: nat, ty: TypeId, v: Value): Result<Bytes> {
    var c :- CoerceToType(v, ty);
    match HostWrite(tags, m, id, ToAbi(c))
    case Threw(_) => Err(Unresolved)
    case Returned(after) => Ok(after)
  }

  lemma ReadsBack(tags: seq<TagDef>, m: Bytes, s: Store, id: nat)
    requires Represents(tags, m, s)
    ensures ReadValue(tags, m, id) == if id < |s| then Ok(s[id]) else Err(Unresolved)
  {
    if id < |s| {
      assert Holds(tags, m, id, s[id]);
      AbiRoundTrip(s[id]);
    }
  }

  // The bytes after some writes, those that throw left out.
  function PutAll(tags: seq<TagDef>, m: Bytes, ws: seq<TagWrite>): Bytes {
    if ws == [] then m else Put(tags, PutAll(tags, m, ws[..|ws| - 1]), ws[|ws| - 1])
  }

  function Put(tags: seq<TagDef>, m: Bytes, w: TagWrite): Bytes {
    var r := HostWrite(tags, m, w.id, ToAbi(w.value));
    if r.Returned? then r.value else m
  }

  lemma PutUpdates(tags: seq<TagDef>, m: Bytes, s: Store, w: TagWrite)
    requires LayoutDisjoint(tags) && Represents(tags, m, s)
    requires w.id < |s| && TypeOf(w.value) == TypeOf(s[w.id])
    ensures HostWrite(tags, m, w.id, ToAbi(w.value)).Returned? && Represents(tags, Put(tags, m, w), s[w.id := w.value])
  {
    var after, s', v := Put(tags, m, w), s[w.id := w.value], ToAbi(w.value);
    assert Holds(tags, m, w.id, s[w.id]);
    assert TagReady(tags, m.images, m.store, w.id);
    WriteTagKeepsReady(tags, m.images, m.store, w.id, v);
    forall i | 0 <= i < |tags| ensures Holds(tags, after, i, s'[i]) {
      assert Holds(tags, m, i, s[i]);
      if i != w.id { WriteTagRefinesUpdate(tags, m.images, m.store, w.id, v, i); }
    }
  }

  lemma {:induction false} PutAllApplies(types: seq<TypeId>, tags: seq<TagDef>, m: Bytes, s: Store, ws: seq<TagWrite>)
    requires LayoutDisjoint(tags) && Represents(tags, m, s) && WellTyped(types, s) && AllTyped(types, ws)
    ensures Represents(tags, PutAll(tags, m, ws), Applied(s, ws)) && WellTyped(types, Applied(s, ws))
    decreases |ws|
  {
    if ws != [] {
      var w := ws[|ws| - 1];
      assert w in ws && WriteTyped(types, w);
      PutAllApplies(types, tags, m, s, ws[..|ws| - 1]);
      PutUpdates(tags, PutAll(tags, m, ws[..|ws| - 1]), Applied(s, ws[..|ws| - 1]), w);
    }
  }

  lemma {:induction false} PutAllAppend(tags: seq<TagDef>, m: Bytes, a: seq<TagWrite>, b: seq<TagWrite>)
    ensures PutAll(tags, m, a + b) == PutAll(tags, PutAll(tags, m, a), b)
    decreases |b|
  {
    if b == [] {
      assert a + b == a;
    } else {
      assert (a + b)[..|a + b| - 1] == a + b[..|b| - 1];
      PutAllAppend(tags, m, a, b[..|b| - 1]);
    }
  }

  // ---- Running emitted code on bytes, with idle checkpoints ----

  // Where a run ends or faults: what is written stays written.
  datatype End = End(bytes: Bytes, outcome: Result<Locals>)

  function EvalM(tags: seq<TagDef>, e: CExpr, m: Bytes, l: Locals): Result<Value> {
    match e
    case CLiteral(v) => Ok(v)
    case CRead(id) => ReadValue(tags, m, id)
    case CArg(n) => if n < |l.args| then Ok(l.args[n]) else Err(Unresolved)
    case CPower => Ok(VBool(l.power))
    case CUnary(op, x) =>
      var v :- EvalM(tags, x, m, l);
      EvalUnary(op, v)
    case CApply(fn, op, x, y) =>
      var lv :- EvalM(tags, x, m, l);
      var rv :- EvalM(tags, y, m, l);
      match fn
      case LogicalFn => EvalLogical(op, lv, rv)
      case ComparisonFn => EvalComparison(op, lv, rv)
      case ArithmeticFn => EvalArithmetic(op, lv, rv)
  }

  function TruthM(tags: seq<TagDef>, e: CExpr, m: Bytes, l: Locals): Result<bool> {
    var v :- EvalM(tags, e, m, l);
    if v.VBool? then Ok(v.b) else Err(TypeMismatch)
  }

  // The run goes on with the given locals, unless it has faulted.
  function Back(e: End, l: Locals): End {
    if e.outcome.Ok? then e.(outcome := Ok(l)) else e
  }

  function BlockM(c: CProgram, tags: seq<TagDef>, limit: nat, ss: seq<CStmt>, m: Bytes, l: Locals): End
    decreases limit, ss, 0, 0
  {
    if ss == [] then End(m, Ok(l))
    else
      var e := StmtM(c, tags, limit, ss[0], m, l);
      if e.outcome.Err? then e else BlockM(c, tags, limit, ss[1..], e.bytes, e.outcome.value)
  }

  function StmtM(c: CProgram, tags: seq<TagDef>, limit: nat, st: CStmt, m: Bytes, l: Locals): End
    decreases limit, st, 1, 0
  {
    match st
    case CCheck => End(m, Ok(l))
    case CWrite(id, ty, e) => AssignM(tags, id, ty, EvalM(tags, e, m, l), m, l)
    case CIfChain(_, _) => ChainM(c, tags, limit, st, 0, m, l)
    case CLoop(_, _) => LoopM(c, tags, limit, st, 0, m, l)
    case CScope(body) => Back(BlockM(c, tags, limit, body, m, NO_LOCALS), l)
    case CDeclareArg(e) =>
      (match EvalM(tags, e, m, l)
       case Err(f) => End(m, Err(f))
       case Ok(v) => End(m, Ok(l.(args := l.args + [v]))))
    case CDeclarePower(e) =>
      (match TruthM(tags, e, m, l)
       case Err(f) => End(m, Err(f))
       case Ok(b) => End(m, Ok(l.(power := b))))
    case CIfPower(coil) => if l.power then StmtM(c, tags, limit, coil, m, l) else End(m, Ok(l))
    case CCallFrame(f) =>
      if f >= limit || f >= |c.frames| then End(m, Err(Unresolved))
      else Back(BlockM(c, tags, f, c.frames[f], m, NO_LOCALS), l)
  }

  function AssignM(tags: seq<TagDef>, id: nat, ty: TypeId, v: Result<Value>, m: Bytes, l: Locals): End {
    match v
    case Err(f) => End(m, Err(f))
    case Ok(x) =>
      match WriteValue(tags, m, id, ty, x)
      case Err(f) => End(m, Err(f))
      case Ok(after) => End(after, Ok(l))
  }

  function ChainM(c: CProgram, tags: seq<TagDef>, limit: nat, st: CStmt, k: nat, m: Bytes, l: Locals): End
    requires st.CIfChain? && k <= |st.branches|
    decreases limit, st, 0, |st.branches| - k
  {
    if k == |st.branches| then BlockM(c, tags, limit, st.els, m, l)
    else
      match TruthM(tags, st.branches[k].cond, m, l)
      case Err(f) => End(m, Err(f))
      case Ok(b) =>
        if b then BlockM(c, tags, limit, st.branches[k].body, m, l) else ChainM(c, tags, limit, st, k + 1, m, l)
  }

  function LoopM(c: CProgram, tags: seq<TagDef>, limit: nat, st: CStmt, iterations: nat, m: Bytes, l: Locals): End
    requires st.CLoop? && iterations <= MAX_ITERATIONS
    decreases limit, st, 0, MAX_ITERATIONS - iterations
  {
    match TruthM(tags, st.cond, m, l)
    case Err(f) => End(m, Err(f))
    case Ok(b) =>
      if !b then End(m, Ok(l))
      else if iterations + 1 > MAX_ITERATIONS then End(m, Err(LoopLimit))
      else
        var e := BlockM(c, tags, limit, st.loopBody, m, l);
        if e.outcome.Err? then e else LoopM(c, tags, limit, st, iterations + 1, e.bytes, e.outcome.value)
  }

  // ---- The bytes follow the tags ----

  // The memory has the types the code was generated for.
  predicate TypesOf(types: seq<TypeId>, tags: seq<TagDef>) {
    |tags| == |types| && forall i | 0 <= i < |tags| :: tags[i].typ == AbiTypeOf(types[i])
  }

  lemma RepresentedIsTyped(types: seq<TypeId>, tags: seq<TagDef>, m: Bytes, s: Store)
    requires TypesOf(types, tags) && Represents(tags, m, s)
    ensures WellTyped(types, s)
  {
    forall i | 0 <= i < |s| ensures TypeOf(s[i]) == types[i] { assert Holds(tags, m, i, s[i]); }
  }

  lemma {:induction false} EvalFollows(tags: seq<TagDef>, e: CExpr, m: Bytes, x: Machine)
    requires Represents(tags, m, x.store)
    ensures EvalM(tags, e, m, x.locals) == EvalC(e, x) && TruthM(tags, e, m, x.locals) == Truth(e, x)
  {
    match e
    case CRead(id) => ReadsBack(tags, m, x.store, id);
    case CUnary(_, y) => EvalFollows(tags, y, m, x);
    case CApply(_, _, y, z) =>
      EvalFollows(tags, y, m, x);
      EvalFollows(tags, z, m, x);
    case _ =>
  }

  // The same end or fault, in the bytes these writes leave.
  predicate InStep(tags: seq<TagDef>, m: Bytes, e: End, r: Result<Machine>, ws: seq<TagWrite>) {
    e.bytes == PutAll(tags, m, ws) && e.outcome == match r { case Err(f) => Err(f) case Ok(x) => Ok(x.locals) }
  }

  // What a run over bytes starts from: code whose writes name the tags' types, and bytes
  // in which the tags read as in the store.
  predicate Starts(types: seq<TypeId>, tags: seq<TagDef>, c: CProgram, m: Bytes, s: Store) {
    TypesOf(types, tags) && LayoutDisjoint(tags) && CodeTagged(types, c) && Represents(tags, m, s)
  }

  lemma StartsAgain(types: seq<TypeId>, tags: seq<TagDef>, c: CProgram, m: Bytes, s: Store, ws: seq<TagWrite>)
    requires Starts(types, tags, c, m, s) && AllTyped(types, ws)
    ensures Starts(types, tags, c, PutAll(tags, m, ws), Applied(s, ws))
  {
    RepresentedIsTyped(types, tags, m, s);
    PutAllApplies(types, tags, m, s, ws);
  }

  lemma {:induction false} BlockInStep(types: seq<TypeId>, tags: seq<TagDef>, c: CProgram, limit: nat, ss: seq<CStmt>, m: Bytes, x: Machine)
    requires Starts(types, tags, c, m, x.store) && BlockTagged(types, ss)
    ensures InStep(tags, m, BlockM(c, tags, limit, ss, m, x.locals), RunBlock(c, limit, ss, x), WritesOfBlock(c, limit, ss, x))
    decreases limit, ss, 0, 0
  {
    if ss != [] {
      assert ss[0] in ss;
      StmtInStep(types, tags, c, limit, ss[0], m, x);
      var r, first := RunStmt(c, limit, ss[0], x), WritesOfStmt(c, limit, ss[0], x);
      if r.Ok? {
        StmtWritesTyped(types, c, limit, ss[0], x);
        StmtLeavesWrites(c, limit, ss[0], x);
        StartsAgain(types, tags, c, m, x.store, first);
        BlockInStep(types, tags, c, limit, ss[1..], PutAll(tags, m, first), r.value);
        PutAllAppend(tags, m, first, WritesOfBlock(c, limit, ss[1..], r.value));
      }
    }
  }

  lemma {:induction false} StmtInStep(types: seq<TypeId>, tags: seq<TagDef>, c: CProgram, limit: nat, st: CStmt, m: Bytes, x: Machine)
    requires Starts(types, tags, c, m, x.store) && StmtTagged(types, st)
    ensures InStep(tags, m, StmtM(c, tags, limit, st, m, x.locals), RunStmt(c, limit, st, x), WritesOfStmt(c, limit, st, x))
    decreases limit, st, 1, 0
  {
    match st
    case CCheck =>
    case CWrite(id, ty, e) =>
      EvalFollows(tags, e, m, x);
      if EvalC(e, x).Ok? { WriteInStep(types, tags, c, id, EvalC(e, x).value, m, x); }
    case CIfChain(_, _) => ChainInStep(types, tags, c, limit, st, 0, m, x);
    case CLoop(_, _) => LoopInStep(types, tags, c, limit, st, 0, m, x);
    case CScope(body) => BlockInStep(types, tags, c, limit, body, m, x.(locals := NO_LOCALS));
    case CDeclareArg(e) => EvalFollows(tags, e, m, x);
    case CDeclarePower(e) => EvalFollows(tags, e, m, x);
    case CIfPower(coil) => if x.locals.power { StmtInStep(types, tags, c, limit, coil, m, x); }
    case CCallFrame(f) =>
      if f < limit && f < |c.frames| {
        assert c.frames[f] in c.frames;
        BlockInStep(types, tags, c, f, c.frames[f], m, Machine(x.store, NO_LOCALS));
      }
  }

  lemma WriteInStep(types: seq<TypeId>, tags: seq<TagDef>, c: CProgram, id: nat, v: Value, m: Bytes, x: Machine)
    requires Starts(types, tags, c, m, x.store) && id < |types|
    ensures InStep(tags, m, AssignM(tags, id, types[id], Ok(v), m, x.locals), WriteC(x, id, types[id], v), WriteOf(id, types[id], Ok(v), x))
  {
    var r := CoerceToType(v, types[id]);
    RepresentedIsTyped(types, tags, m, x.store);
    CoercedHasType(v, types[id]);
    if r.Ok? {
      var w := TagWrite(id, r.value);
      PutUpdates(tags, m, x.store, w);
      assert [w][..0] == [] && PutAll(tags, m, [w]) == Put(tags, m, w);
    }
  }

  lemma {:induction false} ChainInStep(types: seq<TypeId>, tags: seq<TagDef>, c: CProgram, limit: nat, st: CStmt, k: nat, m: Bytes, x: Machine)
    requires Starts(types, tags, c, m, x.store) && StmtTagged(types, st) && st.CIfChain? && k <= |st.branches|
    ensures InStep(tags, m, ChainM(c, tags, limit, st, k, m, x.locals), RunChain(c, limit, st, k, x), WritesOfChain(c, limit, st, k, x))
    decreases limit, st, 0, |st.branches| - k
  {
    if k == |st.branches| {
      BlockInStep(types, tags, c, limit, st.els, m, x);
    } else {
      assert st.branches[k] in st.branches;
      EvalFollows(tags, st.branches[k].cond, m, x);
      BlockInStep(types, tags, c, limit, st.branches[k].body, m, x);
      ChainInStep(types, tags, c, limit, st, k + 1, m, x);
    }
  }

  lemma {:induction false} LoopInStep(types: seq<TypeId>, tags: seq<TagDef>, c: CProgram, limit: nat, st: CStmt, iterations: nat, m: Bytes, x: Machine)
    requires Starts(types, tags, c, m, x.store) && StmtTagged(types, st) && st.CLoop? && iterations <= MAX_ITERATIONS
    ensures InStep(tags, m, LoopM(c, tags, limit, st, iterations, m, x.locals), RunLoop(c, limit, st, iterations, x), WritesOfLoop(c, limit, st, iterations, x))
    decreases limit, st, 0, MAX_ITERATIONS - iterations
  {
    EvalFollows(tags, st.cond, m, x);
    if Truth(st.cond, x) == Ok(true) && iterations + 1 <= MAX_ITERATIONS {
      BlockInStep(types, tags, c, limit, st.loopBody, m, x);
      var r, first := RunBlock(c, limit, st.loopBody, x), WritesOfBlock(c, limit, st.loopBody, x);
      if r.Ok? {
        BlockWritesTyped(types, c, limit, st.loopBody, x);
        BlockLeavesWrites(c, limit, st.loopBody, x);
        StartsAgain(types, tags, c, m, x.store, first);
        LoopInStep(types, tags, c, limit, st, iterations + 1, PutAll(tags, m, first), r.value);
        PutAllAppend(tags, m, first, WritesOfLoop(c, limit, st, iterations + 1, r.value));
      }
    }
  }

  // ---- Whole scans ----

  function ScanM(p: Program, tags: seq<TagDef>, m: Bytes): End {
    var c := Generate(p);
    BlockM(c, tags, |c.frames|, c.main, m, NO_LOCALS)
  }

  // The tags a scan leaves, also where it faults.
  function ScanLeaves(p: Program, s: Store): Store {
    Applied(s, ScanWrites(p, s))
  }

  // A scan of the emitted code over bytes ends or faults as it does over tags, in bytes in
  // which every tag reads as what the scan has left in it; its writes come one after the
  // other, and after each of them every tag reads as what the writes so far have left in it.
  lemma CodeReadsMemory(p: Program, tags: seq<TagDef>, m: Bytes, s: Store, k: nat)
    requires Accepted(p) && TypesOf(p.types, tags) && LayoutDisjoint(tags) && Represents(tags, m, s)
    requires k <= |ScanWrites(p, s)|
    ensures var e, r := ScanM(p, tags, m), RunGenerated(Generate(p), s);
      && (e.outcome.Ok? <==> r.Ok?) && (r.Err? ==> e.outcome == Err(r.fault))
      && (r.Ok? ==> r.value == ScanLeaves(p, s))
      && e.bytes == PutAll(tags, m, ScanWrites(p, s)) && Represents(tags, e.bytes, ScanLeaves(p, s))
      && Represents(tags, PutAll(tags, m, ScanWrites(p, s)[..k]), Applied(s, ScanWrites(p, s)[..k]))
  {
    var c, x := Generate(p), Machine(s, NO_LOCALS);
    GeneratedIsTagged(p);
    RepresentedIsTyped(p.types, tags, m, s);
    BlockInStep(p.types, tags, c, |c.frames|, c.main, m, x);
    EveryWriteIsTyped(p, s, k);
    StartsAgain(p.types, tags, c, m, s, ScanWrites(p, s));
    StartsAgain(p.types, tags, c, m, s, ScanWrites(p, s)[..k]);
  }

  // One scan of the generated code over bytes ends normally exactly when one of the
  // interpreter does, and leaves in the byte images what that leaves in its tags.
  lemma ScanOverMemory(p: Program, tags: seq<TagDef>, m: Bytes, s: Store)
    requires Bound(p) && Accepted(p) && Independent(p)
    requires TypesOf(p.types, tags) && LayoutDisjoint(tags) && Represents(tags, m, s)
    ensures ScanM(p, tags, m).outcome.Ok? <==> Run(p, s).Ok?
    ensures Run(p, s).Ok? ==> Represents(tags, ScanM(p, tags, m).bytes, Run(p, s).value)
  {
    RepresentedIsTyped(p.types, tags, m, s);
    GeneratedCodeAgrees(p, s);
    CodeReadsMemory(p, tags, m, s, 0);
  }

  // Scan after scan over bytes, until one faults.
  function MemoryScans(p: Program, n: nat, tags: seq<TagDef>, m: Bytes): End {
    if n == 0 then End(m, Ok(NO_LOCALS))
    else
      var before := MemoryScans(p, n - 1, tags, m);
      if before.outcome.Err? then before else ScanM(p, tags, before.bytes)
  }

  // The tags of a module as the generator describes them: type and initial value.
  predicate Describes(p: Program, tags: seq<TagDef>) {
    |p.initials| == |p.types| && TypesOf(p.types, tags) && forall i | 0 <= i < |tags| :: tags[i].initial == ToAbi(p.initials[i])
  }

  // What Memory's constructor and Reset establish.
  predicate AtInitials(tags: seq<TagDef>, m: Bytes) {
    && Ready(tags, m.images, m.store)
    && forall i | 0 <= i < |tags| :: ReadTag(tags, m.images, m.store, i) == B.Returned(Cells.Stored(tags[i].initial))
  }

  lemma InitialsHold(p: Program, tags: seq<TagDef>, m: Bytes)
    requires Accepted(p) && Describes(p, tags) && AtInitials(tags, m)
    ensures Represents(tags, m, p.initials)
  {
  }

  // From memory at its initial values, any number of scans of the emitted code over bytes
  // end or fault as they do over tags.
  lemma {:induction false} GeneratedScansOverMemory(p: Program, n: nat, tags: seq<TagDef>, m: Bytes)
    requires Accepted(p) && Describes(p, tags) && LayoutDisjoint(tags) && AtInitials(tags, m)
    ensures var e, r := MemoryScans(p, n, tags, m), GeneratedScans(p, n, p.initials);
      && (e.outcome.Ok? <==> r.Ok?) && (r.Err? ==> e.outcome == Err(r.fault))
      && (r.Ok? ==> Represents(tags, e.bytes, r.value))
  {
    if n == 0 {
      InitialsHold(p, tags, m);
    } else {
      GeneratedScansOverMemory(p, n - 1, tags, m);
      var r := GeneratedScans(p, n - 1, p.initials);
      if r.Ok? { CodeReadsMemory(p, tags, MemoryScans(p, n - 1, tags, m).bytes, r.value, 0); }
    }
  }

  // They leave in the byte images what as many scans of the interpreter leave in its tags.
  lemma EveryScanOverMemory(p: Program, n: nat, tags: seq<TagDef>, m: Bytes)
    requires Bound(p) && Accepted(p) && Independent(p) && Describes(p, tags)
    requires LayoutDisjoint(tags) && AtInitials(tags, m)
    ensures MemoryScans(p, n, tags, m).outcome.Ok? <==> Scans(p, n, p.initials).Ok?
    ensures Scans(p, n, p.initials).Ok? ==> Represents(tags, MemoryScans(p, n, tags, m).bytes, Scans(p, n, p.initials).value)
  {
    GeneratedScansOverMemory(p, n, tags, m);
    EveryScanAgrees(p, n);
  }
}

// The native code generator (apps/plc_codegen/main.cpp): the type check, the
// emitted C++ statements, and what running them does
// (include/softplc/runtime/program_support.hpp).

module Codegen {
  import opened Values
  import opened Ast
  import I = Interpreter

  // ---- Type check (Generator::type, Generator::assignable) ----

  function TypeCheck(types: seq<TypeId>, e: Expr): Option<TypeId> {
    match e
    case Literal(v) => Some(TypeOf(v))
    case Identifier(_, id) => if id < |types| then Some(types[id]) else None
    case Unary(op, x) =>
      var t := TypeCheck(types, x);
      if t.None? then None
      else if op == Not then (if t.value == Bool then t else None)
      else if IsNumeric(t.value) || t.value == Time then t
      else None
    case Binary(op, l, r) =>
      var a, b := TypeCheck(types, l), TypeCheck(types, r);
      if a.None? || b.None? then None else BinaryType(op, a.value, b.value)
  }

  function BinaryType(op: BinaryOp, a: TypeId, b: TypeId): Option<TypeId> {
    var numeric := IsNumeric(a) && IsNumeric(b);
    if IsLogical(op) then (if a == Bool && b == Bool then Some(Bool) else None)
    else if IsComparison(op) then
      if !numeric && (a != b || (a != Bool && a != Time)) then None
      else if a == Bool && op != Eq && op != Ne then None
      else Some(Bool)
    else if a == Time && b == Time && (op == Add || op == Sub) then Some(Time)
    else if !numeric then None
    else Some(NumericResultType(a, b))
  }

  predicate HasType(types: seq<TypeId>, e: Expr, t: TypeId) {
    TypeCheck(types, e) == Some(t)
  }

  predicate Assignable(types: seq<TypeId>, id: nat, e: Expr) {
    && id < |types|
    && var t := TypeCheck(types, e);
       t.Some? && (t.value == types[id] || (IsNumeric(t.value) && IsNumeric(types[id])))
  }

  predicate ArgAccepted(types: seq<TypeId>, a: CallArg) {
    match a
    case InputArg(_, e, param) => Assignable(types, param, e)
    case OutputArg(_, _, param, target) => Assignable(types, target, Identifier("", param))
  }

  predicate StmtAccepted(types: seq<TypeId>, st: Stmt)
    decreases st
  {
    match st
    case Assign(_, id, e) => Assignable(types, id, e)
    case If(branches, els) =>
      && (forall b | b in branches :: HasType(types, b.condition, Bool) && BlockAccepted(types, b.body))
      && BlockAccepted(types, els)
    case While(c, body) => HasType(types, c, Bool) && BlockAccepted(types, body)
    case Call(_, args, _) => forall a | a in args :: ArgAccepted(types, a)
    case Rung(c, outs) => HasType(types, c, Bool) && forall o | o in outs :: o.targetId < |types|
  }

  predicate BlockAccepted(types: seq<TypeId>, ss: seq<Stmt>)
    decreases ss
  {
    forall st | st in ss :: StmtAccepted(types, st)
  }

  predicate FrameAccepted(types: seq<TypeId>, f: Frame) {
    (forall r | r in f.tempResets :: r.id < |types|) && BlockAccepted(types, f.body)
  }

  predicate Accepted(p: Program) {
    && (forall f | f in p.frames :: FrameAccepted(p.types, f))
    && BlockAccepted(p.types, p.body)
    && |p.initials| == |p.types| && forall i | 0 <= i < |p.types| :: TypeOf(p.initials[i]) == p.types[i]
  }

  // ---- The emitted code ----

  datatype Helper = LogicalFn | ComparisonFn | ArithmeticFn

  datatype CExpr =
    | CLiteral(v: Value)
    | CRead(id: nat)
    | CArg(n: nat)
    | CPower
    | CUnary(uop: UnaryOp, x: CExpr)
    | CApply(fn: Helper, op: BinaryOp, l: CExpr, r: CExpr)

  datatype CBranch = CBranch(cond: CExpr, body: seq<CStmt>)

  datatype CStmt =
    | CCheck                                               // check(c);
    | CWrite(id: nat, ty: TypeId, e: CExpr)                // write(c, id, ty, e);
    | CIfChain(branches: seq<CBranch>, els: seq<CStmt>)    // if ... else if ... else
    | CLoop(cond: CExpr, loopBody: seq<CStmt>)             // counted while
    | CScope(body: seq<CStmt>)                             // { ... }
    | CDeclareArg(arg: CExpr)                              // const Value argN = arg;
    | CDeclarePower(power: CExpr)                          // const bool power = truth(power);
    | CIfPower(coil: CStmt)                                // if (power) coil
    | CCallFrame(frame: nat)                               // frame_i(c);

  datatype CProgram = CProgram(frames: seq<seq<CStmt>>, main: seq<CStmt>)

  // ---- Running the emitted code with idle checkpoints ----

  datatype Locals = Locals(args: seq<Value>, power: bool)
  datatype Machine = Machine(store: Store, locals: Locals)
  const NO_LOCALS: Locals := Locals([], false)

  function EvalC(e: CExpr, m: Machine): Result<Value> {
    match e
    case CLiteral(v) => Ok(v)
    case CRead(id) => if id < |m.store| then Ok(m.store[id]) else Err(Unresolved)
    case CArg(n) => if n < |m.locals.args| then Ok(m.locals.args[n]) else Err(Unresolved)
    case CPower => Ok(VBool(m.locals.power))
    case CUnary(op, x) =>
      var v :- EvalC(x, m);
      EvalUnary(op, v)
    case CApply(fn, op, l, r) =>
      var lv :- EvalC(l, m);
      var rv :- EvalC(r, m);
      match fn
      case LogicalFn => EvalLogical(op, lv, rv)
      case ComparisonFn => EvalComparison(op, lv, rv)
      case ArithmeticFn => EvalArithmetic(op, lv, rv)
  }

  // truth(): std::get<bool>
  function Truth(e: CExpr, m: Machine): Result<bool> {
    var v :- EvalC(e, m);
    if v.VBool? then Ok(v.b) else Err(TypeMismatch)
  }

  function WriteC(m: Machine, id: nat, ty: TypeId, v: Value): Result<Machine> {
    var c :- CoerceToType(v, ty);
    if id < |m.store| then Ok(m.(store := m.store[id := c])) else Err(Unresolved)
  }

  function RunBlock(c: CProgram, limit: nat, ss: seq<CStmt>, m: Machine): Result<Machine>
    decreases limit, ss, 0, 0
  {
    if ss == [] then Ok(m)
    else
      var m1 :- RunStmt(c, limit, ss[0], m);
      RunBlock(c, limit, ss[1..], m1)
  }

  function RunStmt(c: CProgram, limit: nat, st: CStmt, m: Machine): Result<Machine>
    decreases limit, st, 1, 0
  {
    match st
    case CCheck => Ok(m)
    case CWrite(id, ty, e) =>
      var v :- EvalC(e, m);
      WriteC(m, id, ty, v)
    case CIfChain(_, _) => RunChain(c, limit, st, 0, m)
    case CLoop(_, _) => RunLoop(c, limit, st, 0, m)
    case CScope(body) =>
      var m1 :- RunBlock(c, limit, body, m.(locals := NO_LOCALS));
      Ok(m1.(locals := m.locals))
    case CDeclareArg(e) =>
      var v :- EvalC(e, m);
      Ok(m.(locals := m.locals.(args := m.locals.args + [v])))
    case CDeclarePower(e) =>
      var b :- Truth(e, m);
      Ok(m.(locals := m.locals.(power := b)))
    case CIfPower(coil) => if m.locals.power then RunStmt(c, limit, coil, m) else Ok(m)
    case CCallFrame(f) =>
      if f >= limit || f >= |c.frames| then Err(Unresolved)
      else
        var m1 :- RunBlock(c, f, c.frames[f], Machine(m.store, NO_LOCALS));
        Ok(m1.(locals := m.locals))
  }

  function RunChain(c: CProgram, limit: nat, st: CStmt, k: nat, m: Machine): Result<Machine>
    requires st.CIfChain? && k <= |st.branches|
    decreases limit, st, 0, |st.branches| - k
  {
    if k == |st.branches| then RunBlock(c, limit, st.els, m)
    else
      var b :- Truth(st.branches[k].cond, m);
      if b then RunBlock(c, limit, st.branches[k].body, m) else RunChain(c, limit, st, k + 1, m)
  }

  // while (truth(cond)) { check(c); if (++iterations > 1000000) throw ...; body }
  function RunLoop(c: CProgram, limit: nat, st: CStmt, iterations: nat, m: Machine): Result<Machine>
    requires st.CLoop? && iterations <= I.MAX_ITERATIONS
    decreases limit, st, 0, I.MAX_ITERATIONS - iterations
  {
    var b :- Truth(st.cond, m);
    if !b then Ok(m)
    else if iterations + 1 > I.MAX_ITERATIONS then Err(LoopLimit)
    else
      var m1 :- RunBlock(c, limit, st.loopBody, m);
      RunLoop(c, limit, st, iterations + 1, m1)
  }

  function RunGenerated(c: CProgram, s: Store): Result<Store> {
    var m :- RunBlock(c, |c.frames|, c.main, Machine(s, NO_LOCALS));
    Ok(m.store)
  }

  // ---- Generator::expr and Generator::statement as functions of the tree ----

  function GenExpr(e: Expr): CExpr {
    match e
    case Literal(v) => CLiteral(v)
    case Identifier(_, id) => CRead(id)
    case Unary(op, x) => CUnary(op, GenExpr(x))
    case Binary(op, l, r) =>
      CApply(if IsLogical(op) then LogicalFn else if IsComparison(op) then ComparisonFn else ArithmeticFn,
             op, GenExpr(l), GenExpr(r))
  }

  function TypeAt(types: seq<TypeId>, id: nat): TypeId {
    if id < |types| then types[id] else Bool
  }

  function GenWrite(types: seq<TypeId>, id: nat, e: CExpr): CStmt {
    CWrite(id, TypeAt(types, id), e)
  }

  function GenArgDecls(args: seq<CallArg>): seq<CStmt> {
    if args == [] then []
    else if args[0].InputArg? then [CDeclareArg(GenExpr(args[0].inputExpr))] + GenArgDecls(args[1..])
    else GenArgDecls(args[1..])
  }

  function GenArgWrites(types: seq<TypeId>, args: seq<CallArg>, n: nat): seq<CStmt> {
    if args == [] then []
    else if args[0].InputArg? then [GenWrite(types, args[0].paramTagId, CArg(n))] + GenArgWrites(types, args[1..], n + 1)
    else GenArgWrites(types, args[1..], n)
  }

  function GenOutputs(types: seq<TypeId>, args: seq<CallArg>): seq<CStmt> {
    if args == [] then []
    else if args[0].OutputArg? then [GenWrite(types, args[0].outputTargetId, CRead(args[0].paramTagId))] + GenOutputs(types, args[1..])
    else GenOutputs(types, args[1..])
  }

  function GenCoil(types: seq<TypeId>, o: RungOutput): CStmt {
    match o.kind
    case Direct => GenWrite(types, o.targetId, CPower)
    case Set => CIfPower(GenWrite(types, o.targetId, CLiteral(VBool(true))))
    case Reset => CIfPower(GenWrite(types, o.targetId, CLiteral(VBool(false))))
  }

  function GenCoils(types: seq<TypeId>, outs: seq<RungOutput>): (cs: seq<CStmt>) {
    if outs == [] then [] else [GenCoil(types, outs[0])] + GenCoils(types, outs[1..])
  }

  function GenStmt(types: seq<TypeId>, st: Stmt): CStmt
    decreases st, 0
  {
    match st
    case Assign(_, id, e) => GenWrite(types, id, GenExpr(e))
    case If(branches, els) => CIfChain(GenBranches(types, branches), GenBlock(types, els))
    case While(c, body) => CLoop(GenExpr(c), GenBlock(types, body))
    case Call(_, args, f) =>
      CScope(GenArgDecls(args) + GenArgWrites(types, args, 0) + [CCallFrame(f)] + GenOutputs(types, args))
    case Rung(c, outs) => CScope([CDeclarePower(GenExpr(c))] + GenCoils(types, outs))
  }

  function GenBranches(types: seq<TypeId>, bs: seq<IfBranch>): (cs: seq<CBranch>)
    ensures |cs| == |bs|
    ensures forall k | 0 <= k < |bs| :: cs[k] == CBranch(GenExpr(bs[k].condition), GenBlock(types, bs[k].body))
    decreases bs, 0
  {
    if bs == [] then []
    else [CBranch(GenExpr(bs[0].condition), GenBlock(types, bs[0].body))] + GenBranches(types, bs[1..])
  }

  function GenBlock(types: seq<TypeId>, ss: seq<Stmt>): (cs: seq<CStmt>)
    ensures |cs| == |ss|
    decreases ss, 0
  {
    if ss == [] then [] else [GenStmt(types, ss[0])] + GenBlock(types, ss[1..])
  }

  function GenResets(types: seq<TypeId>, resets: seq<TempReset>): seq<CStmt> {
    if resets == [] then []
    else [GenWrite(types, resets[0].id, CLiteral(resets[0].value))] + GenResets(types, resets[1..])
  }

  function GenFrame(types: seq<TypeId>, f: Frame): seq<CStmt> {
    [CCheck] + GenResets(types, f.tempResets) + GenBlock(types, f.body)
  }

  function Generate(p: Program): CProgram {
    CProgram(seq(|p.frames|, i requires 0 <= i < |p.frames| => GenFrame(p.types, p.frames[i])),
             [CCheck] + GenBlock(p.types, p.body))
  }
}

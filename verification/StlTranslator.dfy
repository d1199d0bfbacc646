// Translating statement lists (STL) to structured text (tools/plc_project.py:140-186):
// the result does to the user's tags what an accumulator machine would do.

module StlTranslator {
  import opened Values
  import opened Ast
  import opened Interpreter
  import opened Agreement
  import opened Footprint
  import opened Names

  // One line, with its operand already parsed. REAL arithmetic is left out.
  datatype Instruction =
    | SetRlo(on: bool)
    | Contact(op: BinaryOp, negated: bool, operand: Expr)
    | Negate
    | Coil(kind: RungOutputKind, name: string, target: nat)
    | Load(operand: Expr, typ: TypeId)
    | Transfer(name: string, target: nat)
    | Arithmetic(op: BinaryOp)
    | Compare(op: BinaryOp)
    | CallBlock(call: Stmt)

  predicate WellFormed(i: Instruction) {
    match i
    case Contact(op, _, _) => IsLogical(op)
    case Load(_, t) => IsNumeric(t)
    case Arithmetic(op) => IsArithmetic(op)
    case Compare(op) => IsComparison(op)
    case CallBlock(call) => call.Call?
    case _ => true
  }

  // ---- The machine: result of logic operation, two accumulators, tags ----

  datatype Machine = Machine(rlo: Option<bool>, acc1: Option<Value>, acc2: Option<Value>, tags: Store)

  function Combine(op: BinaryOp, rlo: Option<bool>, contact: bool): bool {
    if rlo.None? then contact
    else match op
      case And => rlo.value && contact
      case Or => rlo.value || contact
      case _ => rlo.value != contact
  }

  // Unresolved stands for an uninitialised register; the translator never lets a
  // program come to that.
  function Step(p: Program, limit: nat, i: Instruction, m: Machine): Result<Machine> {
    match i
    case SetRlo(on) => Ok(m.(rlo := Some(on)))
    case Contact(op, negated, operand) =>
      var closed :- Condition(operand, m.tags);
      Ok(m.(rlo := Some(Combine(op, m.rlo, closed != negated))))
    case Negate =>
      if m.rlo.None? then Err(Unresolved) else Ok(m.(rlo := Some(!m.rlo.value)))
    case Coil(kind, name, target) =>
      if m.rlo.None? then Err(Unresolved)
      else
        var tags :- DriveCoil(RungOutput(kind, name, target), m.rlo.value, m.tags);
        Ok(m.(rlo := None, tags := tags))
    case Load(operand, typ) =>
      var v :- Evaluate(operand, m.tags);
      var a :- CoerceToType(v, typ);
      Ok(m.(acc1 := Some(a), acc2 := m.acc1))
    case Transfer(name, target) =>
      if m.acc1.None? then Err(Unresolved)
      else
        var tags :- StoreCoerced(p.types, m.tags, target, m.acc1.value);
        Ok(m.(tags := tags))
    case Arithmetic(op) =>
      if m.acc1.None? || m.acc2.None? then Err(Unresolved)
      else
        var v :- EvalArithmetic(op, m.acc2.value, m.acc1.value);
        var a :- CoerceToType(v, DInt);
        Ok(m.(acc1 := Some(a), acc2 := None))
    case Compare(op) =>
      if m.acc1.None? || m.acc2.None? then Err(Unresolved)
      else
        var v :- EvalComparison(op, m.acc2.value, m.acc1.value);
        if v.VBool? then Ok(m.(rlo := Some(v.b))) else Err(TypeMismatch)
    case CallBlock(call) =>
      var tags :- ExecStmt(p, limit, call, m.tags);
      Ok(m.(tags := tags))
  }

  function RunMachine(p: Program, limit: nat, list: seq<Instruction>, m: Machine): Result<Machine> {
    if list == [] then Ok(m)
    else
      var m1 :- RunMachine(p, limit, list[..|list| - 1], m);
      Step(p, limit, list[|list| - 1], m1)
  }

  // ---- The translator ----

  // Registers hold expressions over temporaries that are each assigned once.
  datatype Symbolic = Symbolic(net: nat, rlo: Option<Expr>, acc1: Option<Expr>, acc2: Option<Expr>, statements: seq<Stmt>, temporary: seq<TypeId>)

  function TempName(net: nat, k: nat): string { "__plc_tmp_n" + Digits(net) + "_" + Digits(k) }

  function Temp(base: nat, net: nat, k: nat): Expr { Identifier(TempName(net, k), base + k) }

  function Snapshot(base: nat, s: Symbolic, e: Expr, typ: TypeId): (Symbolic, Expr) {
    var k := |s.temporary|;
    (s.(statements := s.statements + [Assign(TempName(s.net, k), base + k, e)], temporary := s.temporary + [typ]), Temp(base, s.net, k))
  }

  function ContactExpr(i: Instruction, rlo: Option<Expr>): Expr
    requires i.Contact?
  {
    var value := if i.negated then Unary(Not, i.operand) else i.operand;
    if rlo.None? then value else Binary(i.op, rlo.value, value)
  }

  function Emit(s: Symbolic, st: Stmt): Symbolic {
    s.(statements := s.statements + [st])
  }

  function TranslateOne(base: nat, i: Instruction, s: Symbolic): Option<Symbolic> {
    match i
    case SetRlo(on) => Some(s.(rlo := Some(Literal(VBool(on)))))
    case Contact(_, _, _) =>
      var (s1, t) := Snapshot(base, s, ContactExpr(i, s.rlo), Bool);
      Some(s1.(rlo := Some(t)))
    case Negate => if s.rlo.None? then None else Some(s.(rlo := Some(Unary(Not, s.rlo.value))))
    case Coil(kind, name, target) =>
      if s.rlo.None? then None
      else Some(Emit(s, Rung(s.rlo.value, [RungOutput(kind, name, target)])).(rlo := None))
    case Load(operand, typ) =>
      var (s1, t) := Snapshot(base, s, operand, typ);
      Some(s1.(acc1 := Some(t), acc2 := s.acc1))
    case Transfer(name, target) => if s.acc1.None? then None else Some(Emit(s, Assign(name, target, s.acc1.value)))
    case Arithmetic(op) =>
      if s.acc1.None? || s.acc2.None? then None
      else
        var (s1, t) := Snapshot(base, s, Binary(op, s.acc2.value, s.acc1.value), DInt);
        Some(s1.(acc1 := Some(t), acc2 := None))
    case Compare(op) =>
      if s.acc1.None? || s.acc2.None? then None
      else
        var (s1, t) := Snapshot(base, s, Binary(op, s.acc2.value, s.acc1.value), Bool);
        Some(s1.(rlo := Some(t)))
    case CallBlock(call) => Some(Emit(s, call))
  }

  function Translate(base: nat, list: seq<Instruction>, s: Symbolic): Option<Symbolic> {
    if list == [] then Some(s)
    else match Translate(base, list[..|list| - 1], s)
      case None => None
      case Some(s1) => TranslateOne(base, list[|list| - 1], s1)
  }

  lemma {:induction false} TranslationStops(base: nat, list: seq<Instruction>, k: nat, s: Symbolic)
    requires k <= |list| && Translate(base, list[..k], s).None?
    ensures Translate(base, list, s).None?
    decreases |list| - k
  {
    if k == |list| {
      assert list[..k] == list;
    } else {
      assert list[..k + 1][..k] == list[..k];
      TranslationStops(base, list, k + 1, s);
    }
  }

  // The front end's loop over the lines of a network; temporaries accumulate over
  // the networks of a block.
  class Frontend {
    var temporary: seq<TypeId>

    constructor ()
      ensures temporary == []
    {
      temporary := [];
    }

    method Stl(base: nat, net: nat, lines: seq<Instruction>) returns (r: Option<seq<Stmt>>)
      modifies this
      ensures match Translate(base, lines, Symbolic(net, None, None, None, [], old(temporary)))
        case None => r.None?
        case Some(s) => r == Some(s.statements) && temporary == s.temporary
    {
      var rlo: Option<Expr>, acc1: Option<Expr>, acc2: Option<Expr> := None, None, None;
      var statements: seq<Stmt> := [];
      ghost var start := Symbolic(net, None, None, None, [], temporary);
      for k := 0 to |lines|
        invariant Translate(base, lines[..k], start) == Some(Symbolic(net, rlo, acc1, acc2, statements, temporary))
      {
        assert lines[..k + 1][..k] == lines[..k];
        var line := lines[k];
        var failed := match line
          case Negate => rlo.None?
          case Coil(_, _, _) => rlo.None?
          case Transfer(_, _) => acc1.None?
          case Arithmetic(_) => acc1.None? || acc2.None?
          case Compare(_) => acc1.None? || acc2.None?
          case _ => false;
        if failed {
          TranslationStops(base, lines, k + 1, start);
          return None;
        }
        match line {
          case SetRlo(on) => rlo := Some(Literal(VBool(on)));
          case Contact(_, _, _) =>
            var t: Expr;
            t, statements := TakeSnapshot(base, net, ContactExpr(line, rlo), Bool, statements);
            rlo := Some(t);
          case Negate => rlo := Some(Unary(Not, rlo.value));
          case Coil(kind, name, target) =>
            statements := statements + [Rung(rlo.value, [RungOutput(kind, name, target)])];
            rlo := None;
          case Load(operand, typ) =>
            var t: Expr;
            t, statements := TakeSnapshot(base, net, operand, typ, statements);
            acc2, acc1 := acc1, Some(t);
          case Transfer(name, target) => statements := statements + [Assign(name, target, acc1.value)];
          case Arithmetic(op) =>
            var t: Expr;
            t, statements := TakeSnapshot(base, net, Binary(op, acc2.value, acc1.value), DInt, statements);
            acc1, acc2 := Some(t), None;
          case Compare(op) =>
            var t: Expr;
            t, statements := TakeSnapshot(base, net, Binary(op, acc2.value, acc1.value), Bool, statements);
            rlo := Some(t);
          case CallBlock(call) => statements := statements + [call];
        }
      }
      assert lines[..|lines|] == lines;
      r := Some(statements);
    }

    method TakeSnapshot(base: nat, net: nat, e: Expr, typ: TypeId, statements: seq<Stmt>) returns (t: Expr, emitted: seq<Stmt>)
      modifies this
      ensures t == Temp(base, net, |old(temporary)|) && temporary == old(temporary) + [typ]
      ensures emitted == statements + [Assign(TempName(net, |old(temporary)|), base + |old(temporary)|, e)]
    {
      t := Temp(base, net, |temporary|);
      emitted := statements + [Assign(TempName(net, |temporary|), base + |temporary|, e)];
      temporary := temporary + [typ];
    }
  }

  // ---- The translation preserves meaning ----

  // The tags of the reserved temporaries base..base+count.
  function TempIds(base: nat, count: nat): set<nat> {
    set id: nat | id < base + count && IsTemp(base, id)
  }

  predicate IsTemp(base: nat, id: nat) { base <= id }

  function UserIds(p: Program, base: nat, count: nat): set<nat> {
    set id: nat | id < |p.types| && IsUser(base, count, id)
  }

  predicate IsUser(base: nat, count: nat, id: nat) { id < base || base + count <= id }

  // No operand and no target names a reserved temporary; a call neither reads nor writes one.
  predicate AvoidsTemps(p: Program, limit: nat, base: nat, count: nat, i: Instruction) {
    match i
    case Contact(_, _, operand) => Reads(operand) !! TempIds(base, count)
    case Load(operand, _) => Reads(operand) !! TempIds(base, count)
    case Coil(_, _, target) => target !in TempIds(base, count)
    case Transfer(name, target) => target !in TempIds(base, count)
    case CallBlock(call) =>
      StmtDetermined(p, limit, call, UserIds(p, base, count)) && StmtWrites(p, limit, call, UserIds(p, base, count))
    case _ => true
  }

  // The temporaries exist with the types the translator gave them.
  predicate TempsDeclared(p: Program, base: nat, temporary: seq<TypeId>) {
    base + |temporary| <= |p.types| && forall k | 0 <= k < |temporary| :: p.types[base + k] == temporary[k]
  }

  // A symbolic register denotes v in store t, through temporaries assigned so far.
  predicate Denotes(e: Option<Expr>, v: Option<Value>, base: nat, used: nat, t: Store) {
    match (e, v)
    case (None, None) => true
    case (Some(x), Some(y)) => Reads(x) <= TempIds(base, used) && Evaluate(x, t) == Ok(y)
    case _ => false
  }

  function RloValue(rlo: Option<bool>): Option<Value> {
    match rlo case None => None case Some(b) => Some(VBool(b))
  }

  predicate Simulates(p: Program, base: nat, count: nat, s: Symbolic, m: Machine, t: Store) {
    var used := |s.temporary|;
    && used <= count && |t| == |m.tags| == |p.types|
    && SameOn(UserIds(p, base, count), m.tags, t)
    && Denotes(s.rlo, RloValue(m.rlo), base, used, t)
    && Denotes(s.acc1, m.acc1, base, used, t)
    && Denotes(s.acc2, m.acc2, base, used, t)
  }

  // What running the emitted statements must give for the machine's outcome.
  predicate Matches(p: Program, base: nat, count: nat, s: Symbolic, r: Result<Machine>, q: Result<Store>) {
    match (r, q)
    case (Ok(m), Ok(t)) => Simulates(p, base, count, s, m, t)
    case (Err(f), Err(g)) => f == g
    case _ => false
  }

  lemma {:induction false} ExecSnoc(p: Program, limit: nat, ss: seq<Stmt>, st: Stmt, s: Store)
    ensures ExecBlock(p, limit, ss + [st], s) ==
            match ExecBlock(p, limit, ss, s) case Ok(t) => ExecStmt(p, limit, st, t) case Err(f) => Err(f)
    decreases |ss|
  {
    if ss == [] {
      assert ss + [st] == [st];
      var r := ExecStmt(p, limit, st, s);
      assert ExecBlock(p, limit, [st], s) == r;
    } else {
      assert (ss + [st])[1..] == ss[1..] + [st];
      var r := ExecStmt(p, limit, ss[0], s);
      if r.Ok? { ExecSnoc(p, limit, ss[1..], st, r.value); }
    }
  }

  // User expressions mean the same in both stores.
  lemma OperandAgrees(p: Program, base: nat, count: nat, e: Expr, s: Store, t: Store)
    requires |s| == |t| == |p.types| && SameOn(UserIds(p, base, count), s, t) && Reads(e) !! TempIds(base, count)
    ensures Evaluate(e, s) == Evaluate(e, t) && Condition(e, s) == Condition(e, t)
  {
    EvaluateFrame(e, s, t);
  }

  // A register keeps its meaning while no temporary assigned so far is written.
  lemma DenotationKept(e: Option<Expr>, v: Option<Value>, base: nat, used: nat, used': nat, t: Store, t': Store)
    requires Denotes(e, v, base, used, t) && used <= used' && |t'| == |t|
    requires forall id | id in TempIds(base, used) && id < |t| :: t'[id] == t[id]
    ensures Denotes(e, v, base, used', t')
  {
    if e.Some? {
      EvaluateFrame(e.value, t, t');
      assert TempIds(base, used) <= TempIds(base, used');
    }
  }

  // Assigning the next temporary: the register it stands for gets the value, all
  // others and the user's tags stay.
  lemma SnapshotSimulates(p: Program, base: nat, count: nat, s: Symbolic, m: Machine, t: Store, typ: TypeId, v: Value, t': Store)
    requires Simulates(p, base, count, s, m, t) && |s.temporary| < count && base + count <= |p.types|
    requires t' == t[base + |s.temporary| := v]
    ensures Simulates(p, base, count, s.(temporary := s.temporary + [typ]), m, t')
    ensures Denotes(Some(Temp(base, s.net, |s.temporary|)), Some(v), base, |s.temporary| + 1, t')
  {
    var used := |s.temporary|;
    assert base + used in TempIds(base, count);
    DenotationKept(s.rlo, RloValue(m.rlo), base, used, used + 1, t, t');
    DenotationKept(s.acc1, m.acc1, base, used, used + 1, t, t');
    DenotationKept(s.acc2, m.acc2, base, used, used + 1, t, t');
  }

  // Running a snapshot statement.
  lemma SnapshotRuns(p: Program, limit: nat, base: nat, count: nat, s: Symbolic, e: Expr, typ: TypeId, t: Store)
    requires base + count <= |p.types| == |t| && |s.temporary| < count && p.types[base + |s.temporary|] == typ
    ensures var k := base + |s.temporary|;
      ExecStmt(p, limit, Assign(TempName(s.net, |s.temporary|), k, e), t) ==
      match Evaluate(e, t)
      case Ok(v) => (match CoerceToType(v, typ) case Ok(c) => Ok(t[k := c]) case Err(f) => Err(f))
      case Err(f) => Err(f)
  {
  }

  lemma ContactSimulates(p: Program, limit: nat, base: nat, count: nat, i: Instruction, s: Symbolic, s1: Symbolic, m: Machine, t: Store)
    requires WellFormed(i) && i.Contact? && TranslateOne(base, i, s) == Some(s1) && Simulates(p, base, count, s, m, t)
    requires AvoidsTemps(p, limit, base, count, i) && |s1.temporary| <= count && base + count <= |p.types|
    requires p.types[base + |s.temporary|] == Bool
    ensures Matches(p, base, count, s1, Step(p, limit, i, m), ExecStmt(p, limit, s1.statements[|s.statements|], t))
  {
    var e := ContactExpr(i, s.rlo);
    SnapshotRuns(p, limit, base, count, s, e, Bool, t);
    OperandAgrees(p, base, count, i.operand, m.tags, t);
    var v := Evaluate(i.operand, t);
    if v.Ok? && v.value.VBool? {
      var b := VBool(Combine(i.op, m.rlo, v.value.b != i.negated));
      assert Evaluate(e, t) == Ok(b);
      SnapshotSimulates(p, base, count, s, m, t, Bool, b, t[base + |s.temporary| := b]);
    }
  }

  lemma LoadSimulates(p: Program, limit: nat, base: nat, count: nat, i: Instruction, s: Symbolic, s1: Symbolic, m: Machine, t: Store)
    requires WellFormed(i) && i.Load? && TranslateOne(base, i, s) == Some(s1) && Simulates(p, base, count, s, m, t)
    requires AvoidsTemps(p, limit, base, count, i) && |s1.temporary| <= count && base + count <= |p.types|
    requires p.types[base + |s.temporary|] == i.typ
    ensures Matches(p, base, count, s1, Step(p, limit, i, m), ExecStmt(p, limit, s1.statements[|s.statements|], t))
  {
    SnapshotRuns(p, limit, base, count, s, i.operand, i.typ, t);
    OperandAgrees(p, base, count, i.operand, m.tags, t);
    var v := Evaluate(i.operand, t);
    if v.Ok? {
      var c := CoerceToType(v.value, i.typ);
      if c.Ok? { SnapshotSimulates(p, base, count, s, m, t, i.typ, c.value, t[base + |s.temporary| := c.value]); }
    }
  }

  lemma AccumulatorSimulates(p: Program, limit: nat, base: nat, count: nat, i: Instruction, s: Symbolic, s1: Symbolic, m: Machine, t: Store)
    requires WellFormed(i) && (i.Arithmetic? || i.Compare?) && TranslateOne(base, i, s) == Some(s1) && Simulates(p, base, count, s, m, t)
    requires |s1.temporary| <= count && base + count <= |p.types|
    requires p.types[base + |s.temporary|] == if i.Arithmetic? then DInt else Bool
    ensures Matches(p, base, count, s1, Step(p, limit, i, m), ExecStmt(p, limit, s1.statements[|s.statements|], t))
  {
    var typ := if i.Arithmetic? then DInt else Bool;
    var e := Binary(i.op, s.acc2.value, s.acc1.value);
    SnapshotRuns(p, limit, base, count, s, e, typ, t);
    var v := EvalBinary(i.op, m.acc2.value, m.acc1.value);
    assert Evaluate(e, t) == v;
    if v.Ok? {
      var c := CoerceToType(v.value, typ);
      if c.Ok? { SnapshotSimulates(p, base, count, s, m, t, typ, c.value, t[base + |s.temporary| := c.value]); }
    }
  }

  lemma CoilSimulates(p: Program, limit: nat, base: nat, count: nat, i: Instruction, s: Symbolic, s1: Symbolic, m: Machine, t: Store)
    requires i.Coil? && TranslateOne(base, i, s) == Some(s1) && Simulates(p, base, count, s, m, t) && AvoidsTemps(p, limit, base, count, i)
    ensures Matches(p, base, count, s1, Step(p, limit, i, m), ExecStmt(p, limit, s1.statements[|s.statements|], t))
  {
    var out := RungOutput(i.kind, i.name, i.target);
    var power := m.rlo.value;
    var r, q := DriveCoil(out, power, m.tags), DriveCoil(out, power, t);
    assert DriveCoils([out], power, t) == q;
    if q.Ok? { UserWriteSimulates(p, base, count, s.(rlo := None), m.(rlo := None), t, i.target, r.value, q.value); }
  }

  lemma TransferSimulates(p: Program, limit: nat, base: nat, count: nat, i: Instruction, s: Symbolic, s1: Symbolic, m: Machine, t: Store)
    requires i.Transfer? && TranslateOne(base, i, s) == Some(s1) && Simulates(p, base, count, s, m, t) && AvoidsTemps(p, limit, base, count, i)
    ensures Matches(p, base, count, s1, Step(p, limit, i, m), ExecStmt(p, limit, s1.statements[|s.statements|], t))
  {
    var r, q := StoreCoerced(p.types, m.tags, i.target, m.acc1.value), StoreCoerced(p.types, t, i.target, m.acc1.value);
    if q.Ok? { UserWriteSimulates(p, base, count, s, m, t, i.target, r.value, q.value); }
  }

  lemma UserWriteSimulates(p: Program, base: nat, count: nat, s: Symbolic, m: Machine, t: Store, id: nat, tags': Store, t': Store)
    requires Simulates(p, base, count, s, m, t) && id !in TempIds(base, count) && |tags'| == |t'| == |t|
    requires forall j | 0 <= j < |t| && j != id :: tags'[j] == m.tags[j] && t'[j] == t[j]
    requires id < |t| ==> tags'[id] == t'[id] || (tags'[id] == m.tags[id] && t'[id] == t[id])
    ensures Simulates(p, base, count, s, m.(tags := tags'), t')
  {
    var used := |s.temporary|;
    assert TempIds(base, used) <= TempIds(base, count);
    DenotationKept(s.rlo, RloValue(m.rlo), base, used, used, t, t');
    DenotationKept(s.acc1, m.acc1, base, used, used, t, t');
    DenotationKept(s.acc2, m.acc2, base, used, used, t, t');
  }

  lemma CallSimulates(p: Program, limit: nat, base: nat, count: nat, i: Instruction, s: Symbolic, s1: Symbolic, m: Machine, t: Store)
    requires i.CallBlock? && TranslateOne(base, i, s) == Some(s1) && Simulates(p, base, count, s, m, t) && AvoidsTemps(p, limit, base, count, i)
    ensures Matches(p, base, count, s1, Step(p, limit, i, m), ExecStmt(p, limit, s1.statements[|s.statements|], t))
  {
    var users := UserIds(p, base, count);
    StmtDepends(p, limit, i.call, users, m.tags, t);
    StmtChangesOnly(p, limit, i.call, t, users);
    StmtChangesOnly(p, limit, i.call, m.tags, users);
    var q := ExecStmt(p, limit, i.call, t);
    if q.Ok? {
      var used := |s.temporary|;
      assert TempIds(base, used) <= TempIds(base, count);
      DenotationKept(s.rlo, RloValue(m.rlo), base, used, used, t, q.value);
      DenotationKept(s.acc1, m.acc1, base, used, used, t, q.value);
      DenotationKept(s.acc2, m.acc2, base, used, used, t, q.value);
    }
  }

  // One line: either it only changes the registers, or its one statement does to the
  // tags what the machine does.
  lemma LineSimulates(p: Program, limit: nat, base: nat, count: nat, i: Instruction, s: Symbolic, s1: Symbolic, m: Machine, start: Store, t: Store)
    requires WellFormed(i) && TranslateOne(base, i, s) == Some(s1) && Simulates(p, base, count, s, m, t)
    requires AvoidsTemps(p, limit, base, count, i) && |s1.temporary| <= count && base + count <= |p.types|
    requires forall k | 0 <= k < |s1.temporary| :: p.types[base + k] == s1.temporary[k]
    requires ExecBlock(p, limit, s.statements, start) == Ok(t)
    ensures Matches(p, base, count, s1, Step(p, limit, i, m), ExecBlock(p, limit, s1.statements, start))
  {
    if i.SetRlo? || i.Negate? {
    } else {
      ExecSnoc(p, limit, s.statements, s1.statements[|s.statements|], start);
      assert s1.statements == s.statements + [s1.statements[|s.statements|]];
      match i
      case Contact(_, _, _) =>
        assert s1.temporary[|s.temporary|] == Bool;
        ContactSimulates(p, limit, base, count, i, s, s1, m, t);
      case Load(_, typ) =>
        assert s1.temporary[|s.temporary|] == typ;
        LoadSimulates(p, limit, base, count, i, s, s1, m, t);
      case Coil(_, _, _) => CoilSimulates(p, limit, base, count, i, s, s1, m, t);
      case Transfer(_, _) => TransferSimulates(p, limit, base, count, i, s, s1, m, t);
      case CallBlock(_) => CallSimulates(p, limit, base, count, i, s, s1, m, t);
      case Arithmetic(_) =>
        assert s1.temporary[|s.temporary|] == DInt;
        AccumulatorSimulates(p, limit, base, count, i, s, s1, m, t);
      case Compare(_) =>
        assert s1.temporary[|s.temporary|] == Bool;
        AccumulatorSimulates(p, limit, base, count, i, s, s1, m, t);
    }
  }

  lemma FaultStays(p: Program, limit: nat, ss: seq<Stmt>, tail: seq<Stmt>, start: Store)
    requires |tail| <= 1 && ExecBlock(p, limit, ss, start).Err?
    ensures ExecBlock(p, limit, ss + tail, start) == ExecBlock(p, limit, ss, start)
  {
    if tail == [] {
      assert ss + tail == ss;
    } else {
      assert tail == [tail[0]];
      ExecSnoc(p, limit, ss, tail[0], start);
    }
  }

  lemma {:induction false} LinesSimulate(p: Program, limit: nat, base: nat, count: nat, list: seq<Instruction>, s: Symbolic, s1: Symbolic, m: Machine, start: Store)
    requires forall i | i in list :: WellFormed(i) && AvoidsTemps(p, limit, base, count, i)
    requires Translate(base, list, s) == Some(s1) && Simulates(p, base, count, s, m, start) && s.statements == []
    requires |s1.temporary| <= count && TempsDeclared(p, base, s1.temporary) && base + count <= |p.types|
    ensures Matches(p, base, count, s1, RunMachine(p, limit, list, m), ExecBlock(p, limit, s1.statements, start))
  {
    if list != [] {
      var before, last := list[..|list| - 1], list[|list| - 1];
      var mid := Translate(base, before, s).value;
      assert |mid.temporary| <= |s1.temporary| && mid.temporary == s1.temporary[..|mid.temporary|];
      LinesSimulate(p, limit, base, count, before, s, mid, m, start);
      assert last in list;
      var r := RunMachine(p, limit, before, m);
      if r.Ok? {
        LineSimulates(p, limit, base, count, last, mid, s1, r.value, start, ExecBlock(p, limit, mid.statements, start).value);
      } else {
        assert s1.statements == mid.statements + s1.statements[|mid.statements|..];
        FaultStays(p, limit, mid.statements, s1.statements[|mid.statements|..], start);
      }
    }
  }

  predicate SameEffect(users: set<nat>, r: Result<Machine>, q: Result<Store>) {
    match (r, q)
    case (Ok(m), Ok(t)) => SameOn(users, m.tags, t)
    case (Err(f), Err(g)) => f == g
    case _ => false
  }

  // For every list the translator accepts, the emitted statements fault exactly as the
  // machine does, or else leave every user tag as the machine does.
  lemma TranslationPreservesMeaning(p: Program, limit: nat, base: nat, net: nat, list: seq<Instruction>, temporary: seq<TypeId>, s1: Symbolic, tags: Store, start: Store)
    requires Translate(base, list, Symbolic(net, None, None, None, [], temporary)) == Some(s1)
    requires TempsDeclared(p, base, s1.temporary)
    requires forall i | i in list :: WellFormed(i) && AvoidsTemps(p, limit, base, |s1.temporary|, i)
    requires |temporary| <= |s1.temporary| && |tags| == |start| == |p.types|
    requires SameOn(UserIds(p, base, |s1.temporary|), tags, start)
    ensures SameEffect(UserIds(p, base, |s1.temporary|), RunMachine(p, limit, list, Machine(None, None, None, tags)),
                       ExecBlock(p, limit, s1.statements, start))
  {
    LinesSimulate(p, limit, base, |s1.temporary|, list, Symbolic(net, None, None, None, [], temporary), s1, Machine(None, None, None, tags), start);
  }
}

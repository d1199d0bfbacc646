// When the calls of a ladder network see the power its coils saw: the condition is printed
// twice, and the coils act in between (Frontend.ladder, tools/plc_project.py:111-120).

module LadderPower {
  import opened Values
  import opened Ast
  import opened Interpreter
  import opened Codegen
  import opened TypeSoundness
  import opened Names
  import opened Ladder

  // ---- What a list of coils does to one tag ----

  // The last coil on the tag, which is the one that counts under power.
  function LastKind(coils: seq<RungOutput>, id: nat): Option<RungOutputKind> {
    if coils == [] then None
    else if LastKind(coils[1..], id).Some? then LastKind(coils[1..], id)
    else if coils[0].targetId == id then Some(coils[0].kind)
    else None
  }

  predicate HasDirect(coils: seq<RungOutput>, id: nat) {
    exists o :: o in coils && o.targetId == id && o.kind == Direct
  }

  function AfterCoils(coils: seq<RungOutput>, powered: bool, id: nat, v: Value): Value {
    if powered then
      match LastKind(coils, id)
      case None => v
      case Some(kind) => VBool(kind != Reset)
    else if HasDirect(coils, id) then VBool(false)
    else v
  }

  lemma {:induction false} CoilsDrive(coils: seq<RungOutput>, powered: bool, s: Store, id: nat)
    requires id < |s| && forall o | o in coils :: o.targetId < |s|
    ensures var r := DriveCoils(coils, powered, s);
      r.Ok? && |r.value| == |s| && r.value[id] == AfterCoils(coils, powered, id, s[id])
    decreases |coils|
  {
    if coils != [] {
      var o := coils[0];
      assert o in coils && forall x | x in coils :: x == o || x in coils[1..];
      assert HasDirect(coils, id) <==> (o.targetId == id && o.kind == Direct) || HasDirect(coils[1..], id);
      CoilsDrive(coils[1..], powered, DriveCoil(o, powered, s).value, id);
    }
  }

  // ---- When power stays ----

  // The calls of the network see the power its coils saw.
  predicate KeepsPower(rows: seq<seq<LadderContact>>, scope: map<string, nat>, byName: map<string, nat>, coils: seq<RungOutput>, s: Store)
    requires AllBool(rows, scope, byName, s)
  {
    var driven := DriveCoils(coils, Powered(rows, scope, byName, s), s);
    driven.Ok? && AllBool(rows, scope, byName, driven.value) && Powered(rows, scope, byName, driven.value) == Powered(rows, scope, byName, s)
  }

  // Driven under power, the contact ends closed.
  predicate EndsClosed(c: LadderContact, scope: map<string, nat>, byName: map<string, nat>, coils: seq<RungOutput>) {
    match Resolve(c.tag, scope, byName)
    case None => true
    case Some(id) => LastKind(coils, id).Some? ==> (c.normallyClosed <==> LastKind(coils, id).value == Reset)
  }

  predicate DrivenDirectly(c: LadderContact, scope: map<string, nat>, byName: map<string, nat>, coils: seq<RungOutput>) {
    Resolve(c.tag, scope, byName).Some? && HasDirect(coils, Resolve(c.tag, scope, byName).value)
  }

  lemma ContactAfter(c: LadderContact, scope: map<string, nat>, byName: map<string, nat>, coils: seq<RungOutput>, powered: bool, s: Store)
    requires BoolTag(c, scope, byName, s) && forall o | o in coils :: o.targetId < |s|
    ensures var r := DriveCoils(coils, powered, s);
      && r.Ok? && BoolTag(c, scope, byName, r.value)
      && (powered && EndsClosed(c, scope, byName, coils) && Closed(c, scope, byName, s) ==> Closed(c, scope, byName, r.value))
      && (powered && !EndsClosed(c, scope, byName, coils) ==> !Closed(c, scope, byName, r.value))
      && (!powered && DrivenDirectly(c, scope, byName, coils) ==> Closed(c, scope, byName, r.value) == c.normallyClosed)
      && (!powered && !DrivenDirectly(c, scope, byName, coils) ==> Closed(c, scope, byName, r.value) == Closed(c, scope, byName, s))
  {
    CoilsDrive(coils, powered, s, Resolve(c.tag, scope, byName).value);
  }

  // A contact and the coils on its tag go the same way: a coil or SET with a normally open
  // contact, a RESET with a normally closed one.
  predicate SameWay(row: seq<LadderContact>, scope: map<string, nat>, byName: map<string, nat>, coils: seq<RungOutput>) {
    forall c | c in row ::
      EndsClosed(c, scope, byName, coils) && (c.normallyClosed ==> !DrivenDirectly(c, scope, byName, coils))
  }

  lemma RowAfter(row: seq<LadderContact>, scope: map<string, nat>, byName: map<string, nat>, coils: seq<RungOutput>, powered: bool, s: Store)
    requires BoolTags(row, scope, byName, s) && forall o | o in coils :: o.targetId < |s|
    requires SameWay(row, scope, byName, coils)
    ensures var r := DriveCoils(coils, powered, s);
      && r.Ok? && BoolTags(row, scope, byName, r.value)
      && (powered && RowCloses(row, scope, byName, s) ==> RowCloses(row, scope, byName, r.value))
      && (!powered && RowCloses(row, scope, byName, r.value) ==> RowCloses(row, scope, byName, s))
  {
    CoilsKeepBools(coils, powered, [row], scope, byName, s);
    assert row in [row];
    forall c | c in row
      ensures var r := DriveCoils(coils, powered, s).value;
        && BoolTag(c, scope, byName, s) && BoolTag(c, scope, byName, r)
        && (powered && Closed(c, scope, byName, s) ==> Closed(c, scope, byName, r))
        && (!powered && Closed(c, scope, byName, r) ==> Closed(c, scope, byName, s))
    {
      ContactAfter(c, scope, byName, coils, powered, s);
    }
  }

  // For any number of branches that is enough. A seal-in rung is such a network.
  lemma PowerStays(rows: seq<seq<LadderContact>>, scope: map<string, nat>, byName: map<string, nat>, coils: seq<RungOutput>, s: Store)
    requires AllBool(rows, scope, byName, s) && forall o | o in coils :: o.targetId < |s|
    requires forall row | row in rows :: SameWay(row, scope, byName, coils)
    ensures KeepsPower(rows, scope, byName, coils, s)
  {
    var powered := Powered(rows, scope, byName, s);
    CoilsKeepBools(coils, powered, rows, scope, byName, s);
    forall row | row in rows
      ensures var r := DriveCoils(coils, powered, s).value;
        && (powered && RowCloses(row, scope, byName, s) ==> RowCloses(row, scope, byName, r))
        && (!powered ==> !RowCloses(row, scope, byName, r))
    {
      RowAfter(row, scope, byName, coils, powered, s);
    }
  }

  // ---- One branch: exactly when ----

  // A branch that can never close: a tag normally open and normally closed at once.
  predicate Contradicts(row: seq<LadderContact>, scope: map<string, nat>, byName: map<string, nat>) {
    exists c, d :: c in row && d in row && Resolve(c.tag, scope, byName) == Resolve(d.tag, scope, byName) && c.normallyClosed && !d.normallyClosed
  }

  // Under power every contact ends closed; without, a coil opens a normally open contact
  // for good, or no plain coil is on a contact.
  predicate BranchKeeps(row: seq<LadderContact>, scope: map<string, nat>, byName: map<string, nat>, coils: seq<RungOutput>) {
    && (forall c | c in row :: EndsClosed(c, scope, byName, coils))
    && ((exists c :: c in row && !c.normallyClosed && DrivenDirectly(c, scope, byName, coils))
        || forall c | c in row :: !DrivenDirectly(c, scope, byName, coils))
  }

  lemma ContradictionNeverCloses(row: seq<LadderContact>, scope: map<string, nat>, byName: map<string, nat>, s: Store)
    requires BoolTags(row, scope, byName, s) && Contradicts(row, scope, byName)
    ensures !RowCloses(row, scope, byName, s)
  {
    var c, d :| c in row && d in row && Resolve(c.tag, scope, byName) == Resolve(d.tag, scope, byName) && c.normallyClosed && !d.normallyClosed;
    assert Closed(c, scope, byName, s) != Closed(d, scope, byName, s);
  }

  lemma OneBranch(row: seq<LadderContact>, scope: map<string, nat>, byName: map<string, nat>, s: Store)
    requires BoolTags(row, scope, byName, s)
    ensures AllBool([row], scope, byName, s) && Powered([row], scope, byName, s) == RowCloses(row, scope, byName, s)
  {
    assert row in [row];
  }

  lemma BranchKeepsPower(row: seq<LadderContact>, scope: map<string, nat>, byName: map<string, nat>, coils: seq<RungOutput>, s: Store)
    requires BoolTags(row, scope, byName, s) && forall o | o in coils :: o.targetId < |s|
    requires Contradicts(row, scope, byName) || BranchKeeps(row, scope, byName, coils)
    ensures AllBool([row], scope, byName, s) && KeepsPower([row], scope, byName, coils, s)
  {
    OneBranch(row, scope, byName, s);
    var powered := Powered([row], scope, byName, s);
    CoilsKeepBools(coils, powered, [row], scope, byName, s);
    assert row in [row];
    var driven := DriveCoils(coils, powered, s).value;
    OneBranch(row, scope, byName, driven);
    if Contradicts(row, scope, byName) {
      ContradictionNeverCloses(row, scope, byName, s);
      ContradictionNeverCloses(row, scope, byName, driven);
    } else {
      forall c | c in row { ContactAfter(c, scope, byName, coils, powered, s); }
    }
  }

  // The store in which exactly the normally open contacts' tags are on, and those of on.
  function BranchStore(row: seq<LadderContact>, scope: map<string, nat>, byName: map<string, nat>, on: set<nat>, n: nat): (s: Store)
    ensures |s| == n
    ensures forall i | 0 <= i < n :: s[i] == VBool(NormallyOpenAt(row, scope, byName, i) || i in on)
  {
    seq(n, i requires 0 <= i < n => VBool(NormallyOpenAt(row, scope, byName, i) || i in on))
  }

  predicate NormallyOpenAt(row: seq<LadderContact>, scope: map<string, nat>, byName: map<string, nat>, id: nat) {
    exists c :: c in row && !c.normallyClosed && Resolve(c.tag, scope, byName) == Some(id)
  }

  predicate Placed(row: seq<LadderContact>, scope: map<string, nat>, byName: map<string, nat>, n: nat) {
    forall c | c in row :: Resolve(c.tag, scope, byName).Some? && Resolve(c.tag, scope, byName).value < n
  }

  lemma InBranchStore(row: seq<LadderContact>, scope: map<string, nat>, byName: map<string, nat>, on: set<nat>, n: nat, c: LadderContact)
    requires Placed(row, scope, byName, n) && !Contradicts(row, scope, byName) && c in row
    ensures var s := BranchStore(row, scope, byName, on, n);
      BoolTag(c, scope, byName, s) && Closed(c, scope, byName, s) == (!c.normallyClosed || Resolve(c.tag, scope, byName).value !in on)
  {
    var id := Resolve(c.tag, scope, byName).value;
    assert NormallyOpenAt(row, scope, byName, id) <==> !c.normallyClosed;
  }

  function DirectTargets(coils: seq<RungOutput>): set<nat> {
    set o | o in coils && o.kind == Direct :: o.targetId
  }

  // All contacts closed, and the coils open one of them.
  lemma CoilsOpen(row: seq<LadderContact>, scope: map<string, nat>, byName: map<string, nat>, coils: seq<RungOutput>, n: nat) returns (s: Store)
    requires Placed(row, scope, byName, n) && forall o | o in coils :: o.targetId < n
    requires !Contradicts(row, scope, byName) && exists c :: c in row && !EndsClosed(c, scope, byName, coils)
    ensures |s| == n && AllBool([row], scope, byName, s) && !KeepsPower([row], scope, byName, coils, s)
  {
    s := BranchStore(row, scope, byName, {}, n);
    forall c | c in row ensures BoolTag(c, scope, byName, s) && Closed(c, scope, byName, s) {
      InBranchStore(row, scope, byName, {}, n, c);
    }
    OneBranch(row, scope, byName, s);
    CoilsKeepBools(coils, true, [row], scope, byName, s);
    assert row in [row];
    var driven := DriveCoils(coils, true, s).value;
    OneBranch(row, scope, byName, driven);
    var c :| c in row && !EndsClosed(c, scope, byName, coils);
    ContactAfter(c, scope, byName, coils, true, s);
  }

  // All contacts closed but those a plain coil is about to close.
  lemma CoilsClose(row: seq<LadderContact>, scope: map<string, nat>, byName: map<string, nat>, coils: seq<RungOutput>, n: nat, c: LadderContact) returns (s: Store)
    requires Placed(row, scope, byName, n) && forall o | o in coils :: o.targetId < n
    requires !Contradicts(row, scope, byName) && c in row && DrivenDirectly(c, scope, byName, coils)
    requires forall d | d in row && DrivenDirectly(d, scope, byName, coils) :: d.normallyClosed
    ensures |s| == n && AllBool([row], scope, byName, s) && !KeepsPower([row], scope, byName, coils, s)
  {
    var on := DirectTargets(coils);
    s := BranchStore(row, scope, byName, on, n);
    forall d | d in row
      ensures BoolTag(d, scope, byName, s) && Closed(d, scope, byName, s) == !DrivenDirectly(d, scope, byName, coils)
    {
      InBranchStore(row, scope, byName, on, n, d);
    }
    OneBranch(row, scope, byName, s);
    assert !Closed(c, scope, byName, s);
    CoilsKeepBools(coils, false, [row], scope, byName, s);
    assert row in [row];
    var driven := DriveCoils(coils, false, s).value;
    OneBranch(row, scope, byName, driven);
    forall d | d in row ensures Closed(d, scope, byName, driven) {
      ContactAfter(d, scope, byName, coils, false, s);
    }
  }

  // A branch keeps its power in every store exactly when it can never close or its coils
  // leave its contacts as the condition above says.
  lemma PowerStaysExactlyWhen(row: seq<LadderContact>, scope: map<string, nat>, byName: map<string, nat>, coils: seq<RungOutput>, n: nat)
    requires Placed(row, scope, byName, n) && forall o | o in coils :: o.targetId < n
    ensures Contradicts(row, scope, byName) || BranchKeeps(row, scope, byName, coils) <==>
            forall s: Store | |s| == n && AllBool([row], scope, byName, s) :: KeepsPower([row], scope, byName, coils, s)
  {
    if Contradicts(row, scope, byName) || BranchKeeps(row, scope, byName, coils) {
      forall s: Store | |s| == n && AllBool([row], scope, byName, s) ensures KeepsPower([row], scope, byName, coils, s) {
        assert row in [row];
        BranchKeepsPower(row, scope, byName, coils, s);
      }
    } else if exists c :: c in row && !EndsClosed(c, scope, byName, coils) {
      var s := CoilsOpen(row, scope, byName, coils, n);
    } else {
      var c :| c in row && DrivenDirectly(c, scope, byName, coils);
      var s := CoilsClose(row, scope, byName, coils, n, c);
    }
  }

  // ---- A network that ends its own power ----

  // PROGRAM with x: BOOL and f: F, where FUNCTION_BLOCK F has n: BOOL and body n := TRUE;
  // one network: the normally closed contact x, the coil x and the call f().
  const OWN_CONTACT: seq<LadderContact> := [LadderContact("x", true)]
  const OWN_SCOPE: map<string, nat> := map["x" := 1]
  const OWN_TAGS: map<string, nat> := map["System.CycleTime" := 0, "x" := 1, "f.n" := 2]
  const OWN_COILS: seq<RungOutput> := [RungOutput(Direct, "x", 1)]
  const OWN_CALL: Stmt := Call("f", [], 0)

  function OwnCondition(): (c: Expr)
    ensures BindExpr(LadderExpr([OWN_CONTACT]), OWN_SCOPE, OWN_TAGS) == Some(c)
  {
    Unary(Not, Identifier("x", 1))
  }

  function EndsItsPower(): Program {
    Program([Time, Bool, Bool], [VTime(0), VBool(false), VBool(false)],
            NetworkStmts(OwnCondition(), OWN_COILS, [OWN_CALL]),
            [Frame("f", [Assign("n", 2, Literal(VBool(true)))], [])])
  }

  lemma EndsItsPowerBound()
    ensures Bound(EndsItsPower())
  {
    hide LadderExpr;
    var p := EndsItsPower();
    var c := OwnCondition();
    var rung, guarded := Rung(c, OWN_COILS), If([IfBranch(c, [OWN_CALL])], []);
    assert p.body == [rung, guarded];
    assert FrameBound(p.types, p.frames, 0);
    assert ExprBound(c, 3) by { assert ExprBound(Identifier("x", 1), 3); }
    assert StmtBound(p.types, p.frames, 1, rung);
    assert BlockBound(p.types, p.frames, 1, [OWN_CALL]);
    assert StmtBound(p.types, p.frames, 1, guarded);
  }

  lemma EndsItsPowerAccepted()
    ensures Accepted(EndsItsPower())
  {
    hide LadderExpr;
    var p := EndsItsPower();
    var c := OwnCondition();
    var rung, guarded := Rung(c, OWN_COILS), If([IfBranch(c, [OWN_CALL])], []);
    assert p.body == [rung, guarded];
    assert FrameAccepted(p.types, p.frames[0]);
    assert StmtAccepted(p.types, rung);
    assert BlockAccepted(p.types, [OWN_CALL]);
    assert StmtAccepted(p.types, guarded);
  }

  lemma OwnCallSetsN(s: Store)
    requires WellTyped(EndsItsPower().types, s)
    ensures ExecBlock(EndsItsPower(), 1, [OWN_CALL], s) == Ok(s[2 := VBool(true)])
  {
    var p, done := EndsItsPower(), s[2 := VBool(true)];
    var body := p.frames[0].body;
    assert ApplyResets(p.frames[0].tempResets, s) == Ok(s);
    assert ExecStmt(p, 0, body[0], s) == Ok(done) && body[1..] == [];
    assert ExecBlock(p, 0, body[1..], done) == Ok(done);
    assert ExecBlock(p, 0, body, s) == Ok(done);
    assert ExecStmt(p, 1, OWN_CALL, s) == Ok(done);
    SingleRuns(p, 1, OWN_CALL, s);
  }

  predicate OwnPower(s: Store, powered: bool) {
    AllBool([OWN_CONTACT], OWN_SCOPE, OWN_TAGS, s) && Powered([OWN_CONTACT], OWN_SCOPE, OWN_TAGS, s) == powered
  }

  lemma OwnPowerIsNotX(s: Store)
    requires |s| == 3 && s[1].VBool?
    ensures OwnPower(s, !s[1].b)
  {
    OneBranch(OWN_CONTACT, OWN_SCOPE, OWN_TAGS, s);
    assert LadderContact("x", true) in OWN_CONTACT;
  }

  lemma OwnCoilDrives(s: Store, powered: bool)
    requires |s| == 3
    ensures DriveCoils(OWN_COILS, powered, s) == Ok(s[1 := VBool(powered)])
  {
    assert OWN_COILS[1..] == [];
    assert DriveCoils(OWN_COILS[1..], powered, s[1 := VBool(powered)]) == Ok(s[1 := VBool(powered)]);
  }

  // One scan: the coil takes the power, and the call sees the opposite of it.
  lemma OwnScan(s: Store)
    requires WellTyped(EndsItsPower().types, s)
    ensures var driven := s[1 := VBool(!s[1].b)];
      Run(EndsItsPower(), s) == Ok(if s[1].b then driven[2 := VBool(true)] else driven)
  {
    hide AllBool, Powered, LadderExpr, DriveCoils, ExecBlock, ExecStmt, NetworkStmts;
    var p, driven := EndsItsPower(), s[1 := VBool(!s[1].b)];
    OwnPowerIsNotX(s);
    OwnPowerIsNotX(driven);
    OwnCoilDrives(s, !s[1].b);
    NetworkRuns(p, 1, [OWN_CONTACT], OWN_SCOPE, OWN_TAGS, OWN_COILS, [OWN_CALL], s);
    OwnCallSetsN(driven);
  }

  // In the first scan of this program the coil has power and the call does not happen,
  // though it would set n; in the second the coil has none and the call happens.
  lemma CoilEndsTheCalls()
    ensures var p := EndsItsPower();
      && Bound(p) && Accepted(p)
      && OwnPower(p.initials, true) && ExecBlock(p, 1, [OWN_CALL], p.initials) == Ok([VTime(0), VBool(false), VBool(true)])
      && Scans(p, 1, p.initials) == Ok([VTime(0), VBool(true), VBool(false)])
      && OwnPower([VTime(0), VBool(true), VBool(false)], false)
      && Scans(p, 2, p.initials) == Ok([VTime(0), VBool(false), VBool(true)])
  {
    hide AllBool, Powered, LadderExpr, DriveCoils, ExecBlock, NetworkStmts;
    var p := EndsItsPower();
    var s0, s1: Store, s2: Store := p.initials, [VTime(0), VBool(true), VBool(false)], [VTime(0), VBool(false), VBool(true)];
    EndsItsPowerBound();
    EndsItsPowerAccepted();
    OwnPowerIsNotX(s0);
    OwnPowerIsNotX(s1);
    OwnCallSetsN(s0);
    OwnScan(s0);
    OwnScan(s1);
    assert s0[2 := VBool(true)] == s2 && s0[1 := VBool(true)] == s1 && s1[1 := VBool(false)][2 := VBool(true)] == s2;
    assert Scans(p, 0, s0) == Ok(s0);
    assert Scans(p, 1, s0) == Run(p, s0);
  }
}

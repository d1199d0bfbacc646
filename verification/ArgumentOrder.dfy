// When the two orders of passing arguments agree: exactly when no argument reads
// what the call has already overwritten, and two programs that show it.

module ArgumentOrder {
  import opened Values
  import opened Ast
  import opened Interpreter
  import opened Codegen
  import opened TypeSoundness
  import opened Agreement

  // ---- Calls whose arguments are tags or literals ----

  predicate PlainArg(types: seq<TypeId>, a: CallArg) {
    a.InputArg? ==>
      match a.inputExpr
      case Identifier(_, _) => true
      case Literal(v) => a.paramTagId < |types| && CoerceToType(v, types[a.paramTagId]).Ok?
      case _ => false
  }

  predicate PlainArgs(types: seq<TypeId>, resets: seq<TempReset>, args: seq<CallArg>) {
    forall a | a in args :: ArgBound(a, |types|, resets) && ArgAccepted(types, a) && PlainArg(types, a)
  }

  // The tags of the inputs a call passes.
  function Passed(args: seq<CallArg>): set<nat> {
    if args == [] then {}
    else if args[0].InputArg? then {args[0].paramTagId} + Passed(args[1..])
    else Passed(args[1..])
  }

  predicate PassedOnce(args: seq<CallArg>) {
    args == [] || ((args[0].InputArg? ==> args[0].paramTagId !in Passed(args[1..])) && PassedOnce(args[1..]))
  }

  predicate OrdersAgree(types: seq<TypeId>, resets: seq<TempReset>, args: seq<CallArg>, s: Store) {
    SameStore(InterpretedOrder(types, resets, args, s), GeneratedOrder(types, resets, args, s, s))
  }

  // The first argument that reads a busy tag: that tag and the input it is passed to.
  datatype Clash = Clash(read: nat, param: nat)

  function FirstClash(args: seq<CallArg>, busy: set<nat>): Option<Clash> {
    if args == [] then None
    else if args[0].InputArg? && args[0].inputExpr.Identifier? && args[0].inputExpr.tagId in busy then
      Some(Clash(args[0].inputExpr.tagId, args[0].paramTagId))
    else FirstClash(args[1..], BusyAfter(args[0], busy))
  }

  lemma {:induction false} ClashOrIndependent(types: seq<TypeId>, resets: seq<TempReset>, args: seq<CallArg>, busy: set<nat>)
    requires PlainArgs(types, resets, args)
    ensures FirstClash(args, busy).None? <==> ArgsIndependent(args, busy)
    ensures FirstClash(args, busy).Some? ==>
      var c := FirstClash(args, busy).value;
      c.read < |types| && c.param < |types| && c.param in Passed(args) && c.param !in ResetIds(resets) &&
      Assignable(types, c.param, Identifier("", c.read))
  {
    if args != [] {
      assert args[0] in args;
      ClashOrIndependent(types, resets, args[1..], BusyAfter(args[0], busy));
    }
  }

  // ---- The interpreter no longer sees the tag a clashing argument reads ----

  lemma {:induction false} PassKeeps(types: seq<TypeId>, args: seq<CallArg>, s: Store, id: nat)
    requires id < |s| && id !in Passed(args) && PassInputs(types, args, s).Ok?
    ensures |PassInputs(types, args, s).value| == |s| && PassInputs(types, args, s).value[id] == s[id]
  {
    if args != [] {
      match args[0]
      case OutputArg(_, _, _, _) => PassKeeps(types, args[1..], s, id);
      case InputArg(_, e, param) =>
        PassKeeps(types, args[1..], StoreCoerced(types, s, param, Evaluate(e, s).value).value, id);
    }
  }

  // Two stores that differ, of the tags no argument may find changed, in one alone.
  predicate Alike(x: Store, y: Store, id: nat, busy: set<nat>) {
    |x| == |y| && forall t | 0 <= t < |x| && (t in busy <==> t == id) :: x[t] == y[t]
  }

  lemma {:induction false} InterpreterForgets(types: seq<TypeId>, resets: seq<TempReset>, args: seq<CallArg>, busy: set<nat>, x: Store, y: Store)
    requires PlainArgs(types, resets, args) && PassedOnce(args) && FirstClash(args, busy).Some?
    requires |x| == |types| && Alike(x, y, FirstClash(args, busy).value.read, busy)
    requires PassInputs(types, args, x).Ok? && PassInputs(types, args, y).Ok?
    ensures var c, u, w := FirstClash(args, busy).value, PassInputs(types, args, x).value, PassInputs(types, args, y).value;
      c.param < |u| && c.param < |w| && u[c.param] == w[c.param]
  {
    assert args[0] in args;
    var a, c := args[0], FirstClash(args, busy).value;
    if a.OutputArg? {
      InterpreterForgets(types, resets, args[1..], busy, x, y);
    } else {
      var u := StoreCoerced(types, x, a.paramTagId, Evaluate(a.inputExpr, x).value).value;
      var w := StoreCoerced(types, y, a.paramTagId, Evaluate(a.inputExpr, y).value).value;
      if a.inputExpr.Identifier? && a.inputExpr.tagId in busy {
        PassKeeps(types, args[1..], u, c.param);
        PassKeeps(types, args[1..], w, c.param);
      } else {
        InterpreterForgets(types, resets, args[1..], BusyAfter(a, busy), u, w);
      }
    }
  }

  // ---- The generated code still sees it ----

  // 0 and 1 of each type, which every accepted assignment can pass on.
  function Bit(t: TypeId, one: bool): Value {
    match t
    case Bool => VBool(one)
    case Byte => VByte(if one then 1 else 0)
    case Int => VInt(if one then 1 else 0)
    case DInt => VDInt(if one then 1 else 0)
    case Time => VTime(if one then 1 else 0)
  }

  // All tags 0 except perhaps one.
  function Probe(types: seq<TypeId>, id: nat, one: bool): (s: Store)
    ensures WellTyped(types, s)
    ensures forall i | 0 <= i < |types| :: s[i] == Bit(types[i], one && i == id)
  {
    seq(|types|, i requires 0 <= i < |types| => Bit(types[i], one && i == id))
  }

  lemma {:induction false} WritesEnd(types: seq<TypeId>, resets: seq<TempReset>, args: seq<CallArg>, id: nat, one: bool, now: Store)
    requires PlainArgs(types, resets, args) && PassedOnce(args) && |now| == |types|
    ensures var vs := EvalArgs(args, Probe(types, id, one));
      && vs.Ok?
      && var r := WriteArgs(types, args, vs.value, now);
         && r.Ok? && |r.value| == |now|
         && (forall t | 0 <= t < |now| && t !in Passed(args) :: r.value[t] == now[t])
         && forall a | a in args && a.InputArg? && a.inputExpr.Identifier? ::
              r.value[a.paramTagId] == Bit(types[a.paramTagId], one && a.inputExpr.tagId == id)
  {
    if args != [] {
      var a, s := args[0], Probe(types, id, one);
      assert a in args;
      if a.OutputArg? {
        WritesEnd(types, resets, args[1..], id, one, now);
      } else {
        var v := Evaluate(a.inputExpr, s).value;
        var u := StoreCoerced(types, now, a.paramTagId, v);
        assert a.inputExpr.Identifier? ==> u == Ok(now[a.paramTagId := Bit(types[a.paramTagId], one && a.inputExpr.tagId == id)]);
        WritesEnd(types, resets, args[1..], id, one, u.value);
        var vs := EvalArgs(args[1..], s).value;
        assert ([v] + vs)[1..] == vs;
      }
    }
  }

  lemma {:induction false} ClashIsArgument(args: seq<CallArg>, busy: set<nat>)
    requires FirstClash(args, busy).Some?
    ensures exists a :: a in args && a.InputArg? && a.inputExpr.Identifier? && FirstClash(args, busy) == Some(Clash(a.inputExpr.tagId, a.paramTagId))
  {
    if args[0].InputArg? && args[0].inputExpr.Identifier? && args[0].inputExpr.tagId in busy {
      assert args[0] in args;
    } else {
      ClashIsArgument(args[1..], BusyAfter(args[0], busy));
    }
  }

  lemma GeneratedRemembers(types: seq<TypeId>, resets: seq<TempReset>, args: seq<CallArg>, busy: set<nat>, one: bool)
    requires PlainArgs(types, resets, args) && PassedOnce(args) && ResetsBound(types, resets) && FirstClash(args, busy).Some?
    ensures var c := FirstClash(args, busy).value;
      && c.param < |types|
      && var s := Probe(types, c.read, one);
         var r := GeneratedOrder(types, resets, args, s, s);
         r.Ok? && |r.value| == |types| && r.value[c.param] == Bit(types[c.param], one)
  {
    var c := FirstClash(args, busy).value;
    var s := Probe(types, c.read, one);
    ClashOrIndependent(types, resets, args, busy);
    ClashIsArgument(args, busy);
    WritesEnd(types, resets, args, c.read, one, s);
    ResetsKeep(resets, WriteArgs(types, args, EvalArgs(args, s).value, s).value);
  }

  // ---- The exact condition ----

  lemma {:induction false} ResetsAlike(resets: seq<TempReset>, x: Store, y: Store, id: nat)
    requires |x| == |y| && forall r | r in resets :: r.id < |x|
    requires forall t | 0 <= t < |x| && t != id :: x[t] == y[t]
    ensures ApplyResets(resets, x).Ok? && ApplyResets(resets, y).Ok?
    ensures Alike(ApplyResets(resets, x).value, ApplyResets(resets, y).value, id, ResetIds(resets))
    ensures |ApplyResets(resets, x).value| == |x|
  {
    ResetsKeep(resets, x);
    ResetsKeep(resets, y);
    if resets != [] {
      var r := resets[0];
      assert r in resets;
      var u, w := x[r.id := r.value], y[r.id := r.value];
      assert ResetIds(resets) == {r.id} + ResetIds(resets[1..]) by { assert forall q | q in resets :: q == r || q in resets[1..]; }
      if r.id == id {
        assert u == w;
      }
      ResetsAlike(resets[1..], u, w, id);
    }
  }

  // On tags and literals, each input passed once, the two orders agree from every
  // store exactly when no argument reads a temporary of the callee or an input
  // that an earlier argument has changed.
  lemma OrdersAgreeExactlyWhenIndependent(types: seq<TypeId>, resets: seq<TempReset>, args: seq<CallArg>)
    requires PlainArgs(types, resets, args) && PassedOnce(args) && ResetsBound(types, resets)
    ensures ArgsIndependent(args, ResetIds(resets)) <==>
            forall s: Store | WellTyped(types, s) :: OrdersAgree(types, resets, args, s)
  {
    var busy := ResetIds(resets);
    ClashOrIndependent(types, resets, args, busy);
    if ArgsIndependent(args, busy) {
      forall s: Store | WellTyped(types, s) ensures OrdersAgree(types, resets, args, s) {
        ArgumentOrders(types, resets, args, busy, s, s);
      }
    } else {
      var c := FirstClash(args, busy).value;
      var x, y := Probe(types, c.read, false), Probe(types, c.read, true);
      GeneratedRemembers(types, resets, args, busy, false);
      GeneratedRemembers(types, resets, args, busy, true);
      if OrdersAgree(types, resets, args, x) && OrdersAgree(types, resets, args, y) {
        ResetsAlike(resets, x, y, c.read);
        InterpreterForgets(types, resets, args, busy, ApplyResets(resets, x).value, ApplyResets(resets, y).value);
        assert false;
      }
    }
  }

  // ---- Two programs on which the scans differ ----

  // FB f with input x (tag 0), temporary t (tag 1, reset to 0) and body t := 7;
  // the program calls it with x := f.t.
  function ReadsCalleeTemp(): Program {
    Program([Int, Int], [VInt(0), VInt(0)],
            [Call("f", [InputArg("x", Identifier("f.t", 1), 0)], 0)],
            [Frame("f", [Assign("t", 1, Literal(VInt(7)))], [TempReset(1, VInt(0))])])
  }

  // FB f with inputs a (tag 0) and b (tag 1) and an empty body; the program calls
  // it with a := 1, b := f.a.
  function ReadsWrittenInput(): Program {
    Program([Int, Int], [VInt(0), VInt(0)],
            [Call("f", [InputArg("a", Literal(VInt(1)), 0), InputArg("b", Identifier("f.a", 0), 1)], 0)],
            [Frame("f", [], [])])
  }

  // A program whose body is one call of frame 0.
  predicate OneCall(p: Program) {
    |p.frames| == 1 && |p.body| == 1 && p.body[0].Call? && p.body[0].frameIndex == 0 && Bound(p) && Accepted(p)
  }

  lemma {:induction false} OneCallRuns(p: Program, s: Store)
    requires OneCall(p)
    ensures Run(p, s) == ExecStmt(p, 1, p.body[0], s)
    ensures RunGenerated(Generate(p), s) ==
            match RunStmt(Generate(p), 1, GenStmt(p.types, p.body[0]), Machine(s, NO_LOCALS)) {
              case Ok(m) => Ok(m.store)
              case Err(f) => Err(f)
            }
  {
    var c, m := Generate(p), Machine(s, NO_LOCALS);
    var r := ExecStmt(p, 1, p.body[0], s);
    assert p.body[1..] == [];
    assert r.Ok? ==> ExecBlock(p, 1, p.body[1..], r.value) == r;
    MainCodeRuns(p, s);
    assert GenBlock(p.types, p.body) == [GenStmt(p.types, p.body[0])] by { assert GenBlock(p.types, p.body[1..]) == []; }
    RunSingle(c, 1, GenStmt(p.types, p.body[0]), m);
  }

  lemma TempReadBound()
    ensures OneCall(ReadsCalleeTemp()) && !Independent(ReadsCalleeTemp())
  {
    var p := ReadsCalleeTemp();
    var f := p.frames[0];
    assert TempReset(1, VInt(0)) in f.tempResets;
    assert ResetIds(f.tempResets) == {1};
    assert StmtBound(p.types, p.frames, 0, f.body[0]) && StmtAccepted(p.types, f.body[0]);
    assert FrameBound(p.types, p.frames, 0) && FrameAccepted(p.types, f);
    assert StmtBound(p.types, p.frames, 1, p.body[0]) && StmtAccepted(p.types, p.body[0]);
    assert !StmtIndependent(p.frames, p.body[0]);
  }

  // The interpreter passes the reset value 0, whatever the temporary held.
  lemma InterpretedTempRead(x: i16, y: i16)
    ensures Run(ReadsCalleeTemp(), [VInt(x), VInt(y)]) == Ok([VInt(0), VInt(7)])
  {
    var p, s, zero, done := ReadsCalleeTemp(), [VInt(x), VInt(y)], [VInt(0), VInt(0)], [VInt(0), VInt(7)];
    var st, f := p.body[0], p.frames[0];
    TempReadBound();
    OneCallRuns(p, s);
    assert s[1 := VInt(0)][0 := VInt(0)] == zero && s[1 := VInt(0)][1] == VInt(0) && zero[1 := VInt(7)] == done;
    assert ApplyResets(f.tempResets[1..], s[1 := VInt(0)]) == Ok(s[1 := VInt(0)]);
    assert ApplyResets(f.tempResets, s) == Ok(s[1 := VInt(0)]);
    assert PassInputs(p.types, st.args[1..], zero) == Ok(zero);
    assert PassInputs(p.types, st.args, s[1 := VInt(0)]) == Ok(zero);
    assert ExecBlock(p, 0, f.body[1..], done) == Ok(done);
    assert ExecBlock(p, 0, f.body, zero) == Ok(done);
    assert PassOutputs(p.types, st.args[1..], done) == Ok(done);
  }

  lemma GeneratedTempFrame(s: Store, y: i16)
    requires s == [VInt(y), VInt(y)]
    ensures var c := Generate(ReadsCalleeTemp());
      RunBlock(c, 0, c.frames[0], Machine(s, NO_LOCALS)) == Ok(Machine([VInt(y), VInt(7)], NO_LOCALS))
  {
    var p := ReadsCalleeTemp();
    var c, f, cleared, done := Generate(p), p.frames[0], [VInt(y), VInt(0)], [VInt(y), VInt(7)];
    TempReadBound();
    assert s[1 := VInt(0)] == cleared && cleared[1 := VInt(7)] == done;
    assert ApplyResets(f.tempResets[1..], cleared) == Ok(cleared);
    assert ApplyResets(f.tempResets, s) == Ok(cleared);
    FrameCodeRuns(p, 0, s);
    var set7 := CWrite(1, Int, CLiteral(VInt(7)));
    assert GenBlock(p.types, f.body) == [set7] by { assert GenBlock(p.types, f.body[1..]) == []; }
    RunSingle(c, 0, set7, Machine(cleared, NO_LOCALS));
  }

  // The generated code passes what the temporary held before the frame clears it.
  lemma GeneratedTempRead(x: i16, y: i16)
    ensures RunGenerated(Generate(ReadsCalleeTemp()), [VInt(x), VInt(y)]) == Ok([VInt(y), VInt(7)])
  {
    var p, s, passed, done := ReadsCalleeTemp(), [VInt(x), VInt(y)], [VInt(y), VInt(y)], [VInt(y), VInt(7)];
    var st := p.body[0];
    TempReadBound();
    OneCallRuns(p, s);
    CallCodeRuns(p, 1, st, Machine(s, NO_LOCALS));
    assert EvalArgs(st.args[1..], s) == Ok([]) && [VInt(y)] + [] == [VInt(y)];
    assert s[0 := VInt(y)] == passed;
    assert WriteArgs(p.types, st.args[1..], [VInt(y)][1..], passed) == Ok(passed);
    assert PassAll(p.types, st.args, s) == Ok((passed, Locals([VInt(y)], false)));
    GeneratedTempFrame(passed, y);
    assert PassOutputs(p.types, st.args[1..], done) == Ok(done);
  }

  // From its initial values the second scan of this program leaves x = 0 under the
  // interpreter and x = 7 under the generated code.
  lemma TemporaryReadDiverges()
    ensures var p := ReadsCalleeTemp();
      && Bound(p) && Accepted(p) && !Independent(p)
      && Scans(p, 2, p.initials) == Ok([VInt(0), VInt(7)])
      && GeneratedScans(p, 2, p.initials) == Ok([VInt(7), VInt(7)])
  {
    var p := ReadsCalleeTemp();
    TempReadBound();
    InterpretedTempRead(0, 0);
    InterpretedTempRead(0, 7);
    GeneratedTempRead(0, 0);
    GeneratedTempRead(0, 7);
    assert Scans(p, 0, p.initials) == Ok(p.initials) && GeneratedScans(p, 0, p.initials) == Ok(p.initials);
    assert Scans(p, 1, p.initials) == Ok([VInt(0), VInt(7)]);
    assert GeneratedScans(p, 1, p.initials) == Ok([VInt(0), VInt(7)]);
  }

  lemma InputReadBound()
    ensures OneCall(ReadsWrittenInput()) && !Independent(ReadsWrittenInput())
  {
    var p := ReadsWrittenInput();
    var st := p.body[0];
    assert ResetIds(p.frames[0].tempResets) == {};
    assert FrameBound(p.types, p.frames, 0) && FrameAccepted(p.types, p.frames[0]);
    assert StmtBound(p.types, p.frames, 1, st) && StmtAccepted(p.types, st);
    assert !ArgsIndependent(st.args[1..], {0});
    assert BusyAfter(st.args[0], {}) == {0};
    assert !StmtIndependent(p.frames, st);
  }

  lemma InterpretedInputRead()
    ensures Run(ReadsWrittenInput(), [VInt(0), VInt(0)]) == Ok([VInt(1), VInt(1)])
  {
    var p, s, first, done := ReadsWrittenInput(), [VInt(0), VInt(0)], [VInt(1), VInt(0)], [VInt(1), VInt(1)];
    var args := p.body[0].args;
    InputReadBound();
    OneCallRuns(p, s);
    assert s[0 := VInt(1)] == first && first[1 := VInt(1)] == done;
    assert PassInputs(p.types, args[1..][1..], done) == Ok(done);
    assert PassInputs(p.types, args[1..], first) == Ok(done);
    assert PassInputs(p.types, args, s) == Ok(done);
    assert PassOutputs(p.types, args[1..][1..], done) == Ok(done);
    assert PassOutputs(p.types, args[1..], done) == Ok(done);
  }

  lemma GeneratedInputPass(s: Store)
    requires s == [VInt(0), VInt(0)]
    ensures PassAll(ReadsWrittenInput().types, ReadsWrittenInput().body[0].args, s) == Ok(([VInt(1), VInt(0)], Locals([VInt(1), VInt(0)], false)))
  {
    var p, done := ReadsWrittenInput(), [VInt(1), VInt(0)];
    var args, vs := p.body[0].args, [VInt(1), VInt(0)];
    assert EvalArgs(args[1..][1..], s) == Ok([]) && [VInt(0)] + [] == [VInt(0)] && [VInt(1)] + [VInt(0)] == vs;
    assert EvalArgs(args[1..], s) == Ok([VInt(0)]);
    assert EvalArgs(args, s) == Ok(vs);
    assert s[0 := VInt(1)] == done && done[1 := VInt(0)] == done && vs[1..] == [VInt(0)];
    assert WriteArgs(p.types, args[1..][1..], vs[1..][1..], done) == Ok(done);
    assert WriteArgs(p.types, args[1..], vs[1..], done) == Ok(done);
  }

  lemma GeneratedInputRead()
    ensures RunGenerated(Generate(ReadsWrittenInput()), [VInt(0), VInt(0)]) == Ok([VInt(1), VInt(0)])
  {
    var p, s, done := ReadsWrittenInput(), [VInt(0), VInt(0)], [VInt(1), VInt(0)];
    var st := p.body[0];
    InputReadBound();
    OneCallRuns(p, s);
    CallCodeRuns(p, 1, st, Machine(s, NO_LOCALS));
    GeneratedInputPass(s);
    FrameCodeRuns(p, 0, done);
    assert PassOutputs(p.types, st.args[1..][1..], done) == Ok(done);
    assert PassOutputs(p.types, st.args[1..], done) == Ok(done);
  }

  // Already the first scan of this program leaves b = 1 under the interpreter and
  // b = 0 under the generated code.
  lemma WrittenInputReadDiverges()
    ensures var p := ReadsWrittenInput();
      && Bound(p) && Accepted(p) && !Independent(p)
      && Scans(p, 1, p.initials) == Ok([VInt(1), VInt(1)])
      && GeneratedScans(p, 1, p.initials) == Ok([VInt(1), VInt(0)])
  {
    var p := ReadsWrittenInput();
    InputReadBound();
    InterpretedInputRead();
    GeneratedInputRead();
    assert Scans(p, 0, p.initials) == Ok(p.initials) && GeneratedScans(p, 0, p.initials) == Ok(p.initials);
  }
}

// Calling a bound timer or counter: the frame the binder makes of a standard block is
// that block over distinct tags of its own, so its laws hold of every instance.

module Instances {
  import opened Values
  import opened Ast
  import opened BoundUnit
  import opened Expansion
  import opened Faithful
  import opened StandardFbs

  // ---- A body is bound in one way only ----

  predicate NamesDiffer(e: Env) {
    forall i, j | 0 <= i < j < |e.names| :: e.names[i] != e.names[j]
  }

  lemma {:induction false} ExprBindsOnce(e: Env, at: Site, src: Expr, x: Expr, y: Expr)
    requires NamesDiffer(e) && ExprBinds(e, at, src, x) && ExprBinds(e, at, src, y)
    ensures x == y
    decreases x
  {
    match x
    case Unary(_, a) => ExprBindsOnce(e, at, src.operand, a, y.operand);
    case Binary(_, l, r) =>
      ExprBindsOnce(e, at, src.lhs, l, y.lhs);
      ExprBindsOnce(e, at, src.rhs, r, y.rhs);
    case _ =>
  }

  lemma {:induction false} StmtBindsOnce(e: Env, at: Site, src: Stmt, st: Stmt, st': Stmt)
    requires NamesDiffer(e) && CallFreeStmt(src) && StmtBinds(e, at, src, st) && StmtBinds(e, at, src, st')
    ensures st == st'
    decreases st
  {
    match st
    case Assign(_, _, x) => ExprBindsOnce(e, at, src.value, x, st'.value);
    case If(bs, els) =>
      BlockBindsOnce(e, at, src.elseBody, els, st'.elseBody);
      forall i | 0 <= i < |bs| ensures bs[i] == st'.branches[i] {
        assert src.branches[i] in src.branches;
        BranchBindsOnce(e, at, src.branches[i], bs[i], st'.branches[i]);
      }
    case While(c, body) =>
      ExprBindsOnce(e, at, src.condition, c, st'.condition);
      BlockBindsOnce(e, at, src.body, body, st'.body);
    case Rung(c, outs) =>
      ExprBindsOnce(e, at, src.power, c, st'.power);
      forall i | 0 <= i < |outs| ensures outs[i] == st'.outputs[i] {
        assert CoilBinds(e, at, src.outputs[i], outs[i]) && CoilBinds(e, at, src.outputs[i], st'.outputs[i]);
      }
    case _ =>
  }

  lemma {:induction false} BranchBindsOnce(e: Env, at: Site, src: IfBranch, b: IfBranch, b': IfBranch)
    requires NamesDiffer(e) && CallFree(src.body) && BranchBinds(e, at, src, b) && BranchBinds(e, at, src, b')
    ensures b == b'
    decreases b
  {
    ExprBindsOnce(e, at, src.condition, b.condition, b'.condition);
    BlockBindsOnce(e, at, src.body, b.body, b'.body);
  }

  lemma {:induction false} BlockBindsOnce(e: Env, at: Site, src: seq<Stmt>, ss: seq<Stmt>, ss': seq<Stmt>)
    requires NamesDiffer(e) && CallFree(src) && BlockBinds(e, at, src, ss) && BlockBinds(e, at, src, ss')
    ensures ss == ss'
    decreases ss
  {
    forall i | 0 <= i < |ss| ensures ss[i] == ss'[i] {
      assert src[i] in src;
      StmtBindsOnce(e, at, src[i], ss[i], ss'[i]);
    }
  }

  // ---- Building blocks of the four bodies ----

  // From an unbound statement to a bound one.
  predicate Binds(e: Env, at: Site, src: Stmt, st: Stmt) {
    CallFreeStmt(src) && StmtBinds(e, at, src, st)
  }

  predicate BindsAll(e: Env, at: Site, src: seq<Stmt>, ss: seq<Stmt>) {
    CallFree(src) && BlockBinds(e, at, src, ss)
  }

  lemma AssignBinds(e: Env, at: Site, n: string, id0: nat, x0: Expr, id: nat, x: Expr)
    requires Denotes(e, at, n, id) && ExprBinds(e, at, x0, x)
    ensures Binds(e, at, Assign(n, id0, x0), Assign(n, id, x))
    ensures BindsAll(e, at, [Assign(n, id0, x0)], [Assign(n, id, x)])
  {
    OneBinds(e, at, Assign(n, id0, x0), Assign(n, id, x));
  }

  lemma WhenBinds(e: Env, at: Site, c0: Expr, body0: seq<Stmt>, els0: seq<Stmt>, c: Expr, body: seq<Stmt>, els: seq<Stmt>)
    requires ExprBinds(e, at, c0, c) && BindsAll(e, at, body0, body) && BindsAll(e, at, els0, els)
    ensures Binds(e, at, When(c0, body0, els0), When(c, body, els))
    ensures BindsAll(e, at, [When(c0, body0, els0)], [When(c, body, els)])
  {
    assert BranchBinds(e, at, IfBranch(c0, body0), IfBranch(c, body));
    OneBinds(e, at, When(c0, body0, els0), When(c, body, els));
  }

  lemma OneBinds(e: Env, at: Site, a0: Stmt, a: Stmt)
    requires Binds(e, at, a0, a)
    ensures BindsAll(e, at, [a0], [a])
  {
  }

  lemma TwoBind(e: Env, at: Site, a0: Stmt, b0: Stmt, a: Stmt, b: Stmt)
    requires Binds(e, at, a0, a) && Binds(e, at, b0, b)
    ensures BindsAll(e, at, [a0, b0], [a, b])
  {
  }

  lemma ThreeBind(e: Env, at: Site, a0: Stmt, b0: Stmt, c0: Stmt, a: Stmt, b: Stmt, c: Stmt)
    requires Binds(e, at, a0, a) && Binds(e, at, b0, b) && Binds(e, at, c0, c)
    ensures BindsAll(e, at, [a0, b0, c0], [a, b, c])
  {
  }

  // ---- Timers ----

  // The pins carry the tags a timer's names stand for.
  predicate TimerNamed(e: Env, at: Site, v: Pins) {
    && Denotes(e, at, "IN", v.in1) && Denotes(e, at, "PT", v.in2) && Denotes(e, at, "Q", v.q) && Denotes(e, at, "ET", v.out)
    && Denotes(e, at, "System.CycleTime", v.cycleTime)
  }

  lemma TimingBinds(e: Env, at: Site, v: Pins, judge0: Stmt, judge: Stmt)
    requires TimerNamed(e, at, v) && Binds(e, at, judge0, judge)
    ensures BindsAll(e, at, [AddCycle(UNBOUND), CapEt(UNBOUND), judge0], [AddCycle(v), CapEt(v), judge])
    ensures ExprBinds(e, at, Elapsed(UNBOUND), Elapsed(v))
  {
    AssignBinds(e, at, "ET", UNBOUND.out, AddCycle(UNBOUND).value, v.out, AddCycle(v).value);
    AssignBinds(e, at, "ET", UNBOUND.out, Identifier("PT", UNBOUND.in2), v.out, Identifier("PT", v.in2));
    var cap0, cap := CapEt(UNBOUND).branches[0], CapEt(v).branches[0];
    WhenBinds(e, at, cap0.condition, cap0.body, [], cap.condition, cap.body, []);
    ThreeBind(e, at, AddCycle(UNBOUND), CapEt(UNBOUND), judge0, AddCycle(v), CapEt(v), judge);
  }

  lemma SetBinds(e: Env, at: Site, v: Pins, b: bool)
    requires Denotes(e, at, "Q", v.q)
    ensures Binds(e, at, Assign("Q", UNBOUND.q, Truth(b)), Assign("Q", v.q, Truth(b)))
    ensures BindsAll(e, at, [Assign("Q", UNBOUND.q, Truth(b))], [Assign("Q", v.q, Truth(b))])
  {
    AssignBinds(e, at, "Q", UNBOUND.q, Truth(b), v.q, Truth(b));
  }

  lemma TonBinds(e: Env, at: Site, v: Pins)
    requires TimerNamed(e, at, v)
    ensures BindsAll(e, at, TonBody(UNBOUND), TonBody(v))
  {
    hide BindsAll, Binds;
    var u := UNBOUND;
    SetBinds(e, at, v, true);
    SetBinds(e, at, v, false);
    WhenBinds(e, at, Elapsed(u), [Assign("Q", u.q, Truth(true))], [Assign("Q", u.q, Truth(false))],
              Elapsed(v), [Assign("Q", v.q, Truth(true))], [Assign("Q", v.q, Truth(false))]);
    TimingBinds(e, at, v, When(Elapsed(u), [Assign("Q", u.q, Truth(true))], [Assign("Q", u.q, Truth(false))]),
                When(Elapsed(v), [Assign("Q", v.q, Truth(true))], [Assign("Q", v.q, Truth(false))]));
    AssignBinds(e, at, "ET", u.out, Literal(VTime(0)), v.out, Literal(VTime(0)));
    TwoBind(e, at, Assign("ET", u.out, Literal(VTime(0))), Assign("Q", u.q, Truth(false)),
            Assign("ET", v.out, Literal(VTime(0))), Assign("Q", v.q, Truth(false)));
    var on0, on := TonBody(u)[0].branches[0], TonBody(v)[0].branches[0];
    WhenBinds(e, at, on0.condition, on0.body, TonBody(u)[0].elseBody, on.condition, on.body, TonBody(v)[0].elseBody);
  }

  lemma TofBinds(e: Env, at: Site, v: Pins)
    requires TimerNamed(e, at, v)
    ensures BindsAll(e, at, TofBody(UNBOUND), TofBody(v))
  {
    hide BindsAll, Binds;
    var u := UNBOUND;
    SetBinds(e, at, v, true);
    SetBinds(e, at, v, false);
    NothingBinds(e, at);
    WhenBinds(e, at, Elapsed(u), [Assign("Q", u.q, Truth(false))], [], Elapsed(v), [Assign("Q", v.q, Truth(false))], []);
    var judge0, judge := When(Elapsed(u), [Assign("Q", u.q, Truth(false))], []), When(Elapsed(v), [Assign("Q", v.q, Truth(false))], []);
    TimingBinds(e, at, v, judge0, judge);
    WhenBinds(e, at, Identifier("Q", u.q), [AddCycle(u), CapEt(u), judge0], [], Identifier("Q", v.q), [AddCycle(v), CapEt(v), judge], []);
    AssignBinds(e, at, "ET", u.out, Literal(VTime(0)), v.out, Literal(VTime(0)));
    TwoBind(e, at, Assign("Q", u.q, Truth(true)), Assign("ET", u.out, Literal(VTime(0))),
            Assign("Q", v.q, Truth(true)), Assign("ET", v.out, Literal(VTime(0))));
    var on0, on := TofBody(u)[0].branches[0], TofBody(v)[0].branches[0];
    WhenBinds(e, at, on0.condition, on0.body, TofBody(u)[0].elseBody, on.condition, on.body, TofBody(v)[0].elseBody);
  }

  lemma NothingBinds(e: Env, at: Site)
    ensures BindsAll(e, at, [], [])
  {
  }

  // ---- Counters ----

  predicate CounterNamed(e: Env, at: Site, v: Pins, input: string, set_: string) {
    && Denotes(e, at, input, v.in1) && Denotes(e, at, set_, v.in2) && Denotes(e, at, "PV", v.in3)
    && Denotes(e, at, "Q", v.q) && Denotes(e, at, "CV", v.out) && Denotes(e, at, "M", v.m)
  }

  // Whatever a counter does on an edge, it then remembers its input.
  lemma EdgeBinds(e: Env, at: Site, v: Pins, input: string, set_: string, body0: seq<Stmt>, body: seq<Stmt>)
    requires CounterNamed(e, at, v, input, set_) && BindsAll(e, at, body0, body)
    ensures BindsAll(e, at, [When(Edge(input, UNBOUND), body0, []), Assign("M", UNBOUND.m, Identifier(input, UNBOUND.in1))],
                     [When(Edge(input, v), body, []), Assign("M", v.m, Identifier(input, v.in1))])
  {
    hide BindsAll, Binds;
    NothingBinds(e, at);
    WhenBinds(e, at, Edge(input, UNBOUND), body0, [], Edge(input, v), body, []);
    AssignBinds(e, at, "M", UNBOUND.m, Identifier(input, UNBOUND.in1), v.m, Identifier(input, v.in1));
    TwoBind(e, at, When(Edge(input, UNBOUND), body0, []), Assign("M", UNBOUND.m, Identifier(input, UNBOUND.in1)),
            When(Edge(input, v), body, []), Assign("M", v.m, Identifier(input, v.in1)));
  }

  lemma CompareBinds(e: Env, at: Site, v: Pins, op: BinaryOp, limit0: Expr, limit: Expr)
    requires Denotes(e, at, "Q", v.q) && Denotes(e, at, "CV", v.out) && ExprBinds(e, at, limit0, limit)
    ensures Binds(e, at, Compare(UNBOUND, op, limit0), Compare(v, op, limit))
  {
    hide BindsAll, Binds;
    SetBinds(e, at, v, true);
    SetBinds(e, at, v, false);
    WhenBinds(e, at, Binary(op, Identifier("CV", UNBOUND.out), limit0), [Assign("Q", UNBOUND.q, Truth(true))], [Assign("Q", UNBOUND.q, Truth(false))],
              Binary(op, Identifier("CV", v.out), limit), [Assign("Q", v.q, Truth(true))], [Assign("Q", v.q, Truth(false))]);
  }

  // CV takes a value, and M is cleared.
  lemma SetCountBinds(e: Env, at: Site, v: Pins, x0: Expr, x: Expr)
    requires Denotes(e, at, "CV", v.out) && Denotes(e, at, "M", v.m) && ExprBinds(e, at, x0, x)
    ensures BindsAll(e, at, [Assign("CV", UNBOUND.out, x0)], [Assign("CV", v.out, x)])
    ensures BindsAll(e, at, [Assign("CV", UNBOUND.out, x0), Assign("M", UNBOUND.m, Truth(false))], [Assign("CV", v.out, x), Assign("M", v.m, Truth(false))])
  {
    hide BindsAll, Binds;
    AssignBinds(e, at, "CV", UNBOUND.out, x0, v.out, x);
    AssignBinds(e, at, "M", UNBOUND.m, Truth(false), v.m, Truth(false));
    TwoBind(e, at, Assign("CV", UNBOUND.out, x0), Assign("M", UNBOUND.m, Truth(false)), Assign("CV", v.out, x), Assign("M", v.m, Truth(false)));
  }

  lemma CtuBinds(e: Env, at: Site, v: Pins)
    requires CounterNamed(e, at, v, "CU", "R")
    ensures BindsAll(e, at, CtuBody(UNBOUND), CtuBody(v))
  {
    hide BindsAll, Binds, Compare, Edge;
    var u := UNBOUND;
    SetCountBinds(e, at, v, Literal(VDInt(0)), Literal(VDInt(0)));
    var up0, up := Binary(Add, Identifier("CV", u.out), Literal(VDInt(1))), Binary(Add, Identifier("CV", v.out), Literal(VDInt(1)));
    SetCountBinds(e, at, v, up0, up);
    EdgeBinds(e, at, v, "CU", "R", [Assign("CV", u.out, up0)], [Assign("CV", v.out, up)]);
    CompareBinds(e, at, v, Ge, Identifier("PV", u.in3), Identifier("PV", v.in3));
    var c0, c := CtuBody(u)[0], CtuBody(v)[0];
    WhenBinds(e, at, c0.branches[0].condition, c0.branches[0].body, c0.elseBody, c.branches[0].condition, c.branches[0].body, c.elseBody);
    TwoBind(e, at, c0, Compare(u, Ge, Identifier("PV", u.in3)), c, Compare(v, Ge, Identifier("PV", v.in3)));
  }

  lemma CtdBinds(e: Env, at: Site, v: Pins)
    requires CounterNamed(e, at, v, "CD", "LD")
    ensures BindsAll(e, at, CtdBody(UNBOUND), CtdBody(v))
  {
    hide BindsAll, Binds, Compare, Edge;
    var u := UNBOUND;
    SetCountBinds(e, at, v, Identifier("PV", u.in3), Identifier("PV", v.in3));
    var down0, down := Binary(Sub, Identifier("CV", u.out), Literal(VDInt(1))), Binary(Sub, Identifier("CV", v.out), Literal(VDInt(1)));
    SetCountBinds(e, at, v, down0, down);
    NothingBinds(e, at);
    var some0, some := Binary(Gt, Identifier("CV", u.out), Literal(VDInt(0))), Binary(Gt, Identifier("CV", v.out), Literal(VDInt(0)));
    WhenBinds(e, at, some0, [Assign("CV", u.out, down0)], [], some, [Assign("CV", v.out, down)], []);
    EdgeBinds(e, at, v, "CD", "LD", [When(some0, [Assign("CV", u.out, down0)], [])], [When(some, [Assign("CV", v.out, down)], [])]);
    CompareBinds(e, at, v, Le, Literal(VDInt(0)), Literal(VDInt(0)));
    var c0, c := CtdBody(u)[0], CtdBody(v)[0];
    WhenBinds(e, at, c0.branches[0].condition, c0.branches[0].body, c0.elseBody, c.branches[0].condition, c.branches[0].body, c.elseBody);
    TwoBind(e, at, c0, Compare(u, Le, Literal(VDInt(0))), c, Compare(v, Le, Literal(VDInt(0))));
  }

  // ---- Bound instances ----

  // Frame i of a program that loaded is an instance of this block.
  ghost predicate InstanceOf(p: Program, e: Env, i: nat, block: Pou) {
    && WellBound(p, e) && EnvFaithful(e) && i < |e.frames| && e.info[i].pou == block
    && |e.names| > 0 && e.names[0] == "System.CycleTime"
  }

  function TimerPins(scope: map<string, nat>): Pins
    requires "IN" in scope && "PT" in scope && "Q" in scope && "ET" in scope
  {
    Pins(scope["IN"], scope["PT"], 0, scope["Q"], scope["ET"], 0, 0)
  }

  function CounterPins(scope: map<string, nat>, input: string, set_: string): Pins
    requires input in scope && set_ in scope && "PV" in scope && "Q" in scope && "CV" in scope && "M" in scope
  {
    Pins(scope[input], scope[set_], scope["PV"], scope["Q"], scope["CV"], scope["M"], 0)
  }

  // Two variables of an instance are two tags, and neither is System.CycleTime.
  lemma MembersApart(e: Env, prefix: string, scope: map<string, nat>, a: string, b: string)
    requires ScopeNames(e, prefix, scope) && a in scope && b in scope && a != b
    ensures scope[a] != scope[b]
  {
    if scope[a] == scope[b] { PrefixedInjective(prefix, a, b); }
  }

  lemma MemberIsNotCycleTime(e: Env, prefix: string, scope: map<string, nat>, a: string)
    requires ScopeNames(e, prefix, scope) && a in scope && |e.names| > 0 && e.names[0] == "System.CycleTime"
    requires a in {"IN", "PT", "Q", "ET"}
    ensures scope[a] != 0
  {
    var full := Prefixed(prefix, a);
    assert full[|full| - 1] == a[|a| - 1];
  }

  // A variable of an instance: its own tag, with the default value of its type.
  predicate Member(p: Program, e: Env, at: Site, name: string, t: TypeId) {
    && name in at.scope && at.scope[name] < |p.types| == |p.initials| && Denotes(e, at, name, at.scope[name])
    && p.types[at.scope[name]] == t && p.initials[at.scope[name]] == DefaultValueFor(t)
  }

  lemma DeclaredMember(p: Program, e: Env, i: nat, block: Pou, d: VarDecl)
    requires InstanceOf(p, e, i, block) && d in block.varDecls
    requires d.elementaryType.Some? && d.initialValue.None?
    ensures Member(p, e, SiteOf(e.frames[i], e.info[i]), d.name, d.elementaryType.value)
  {
    assert FrameFaithful(e, i);
    assert TagAt(e, e.info[i].scope[d.name], Prefixed(e.frames[i].scopeName, d.name), d);
  }

  lemma InstanceIsCopy(p: Program, e: Env, i: nat, block: Pou)
    requires InstanceOf(p, e, i, block)
    ensures ScopeNames(e, e.frames[i].scopeName, e.info[i].scope) && NamesDiffer(e) && p.types == e.types
    ensures BlockBinds(e, SiteOf(e.frames[i], e.info[i]), block.body, e.frames[i].body) && p.frames == e.frames
  {
    assert FrameFaithful(e, i);
  }

  lemma CycleTimeIsGlobal(p: Program, e: Env, i: nat, block: Pou)
    requires InstanceOf(p, e, i, block) && block.varDecls == TimerDecls()
    ensures Denotes(e, SiteOf(e.frames[i], e.info[i]), "System.CycleTime", 0)
  {
    hide TimerDecls, Faithful.Declared, ResetsMatch, BlockBinds, ScopeNames, EnvGood, Bound;
    TimerNamesAreShort();
    assert FrameFaithful(e, i);
    ScopeIsShort(e.info[i].scope);
  }

  lemma ScopeIsShort(scope: map<string, nat>)
    requires ScopeOf(TimerDecls(), scope)
    ensures forall k | k in scope :: |k| <= 2
  {
    hide TimerDecls;
    TimerNamesAreShort();
    forall k | k in scope ensures |k| <= 2 { assert DeclaresName(TimerDecls(), k); }
  }

  lemma TimerNamesAreShort()
    ensures AllElementary(TimerDecls()) && forall d | d in TimerDecls() :: |d.name| <= 2
  {
  }

  // A timer's variables: two inputs, then Q and ET, initially false and 0.
  lemma TimerInstance(p: Program, e: Env, i: nat, block: Pou)
    requires InstanceOf(p, e, i, block) && block.varDecls == TimerDecls()
    ensures var at, scope := SiteOf(e.frames[i], e.info[i]), e.info[i].scope;
      && "IN" in scope && "PT" in scope && "Q" in scope && "ET" in scope
      && TimerNamed(e, at, TimerPins(scope)) && TimerHolds(p, TimerPins(scope), p.initials, Timer(false, 0), 0)
  {
    var ds, prefix, scope := TimerDecls(), e.frames[i].scopeName, e.info[i].scope;
    assert ds[0] in ds && ds[1] in ds && ds[2] in ds && ds[3] in ds;
    InstanceIsCopy(p, e, i, block);
    DeclaredMember(p, e, i, block, ds[0]);
    DeclaredMember(p, e, i, block, ds[1]);
    DeclaredMember(p, e, i, block, ds[2]);
    DeclaredMember(p, e, i, block, ds[3]);
    CycleTimeIsGlobal(p, e, i, block);
    hide InstanceOf, Denotes, ScopeNames, NamesDiffer, BlockBinds, Prefixed;
    TimerTagsApart(e, prefix, scope);
  }

  lemma TimerTagsApart(e: Env, prefix: string, scope: map<string, nat>)
    requires ScopeNames(e, prefix, scope) && |e.names| > 0 && e.names[0] == "System.CycleTime"
    requires "IN" in scope && "PT" in scope && "Q" in scope && "ET" in scope
    ensures scope["IN"] != scope["PT"] && scope["Q"] != scope["ET"] && 0 !in {scope["IN"], scope["PT"], scope["Q"], scope["ET"]}
    ensures scope["Q"] !in {scope["IN"], scope["PT"]} && scope["ET"] !in {scope["IN"], scope["PT"]}
  {
    hide ScopeNames;
    MembersApart(e, prefix, scope, "IN", "PT");
    MembersApart(e, prefix, scope, "Q", "ET");
    MembersApart(e, prefix, scope, "Q", "IN");
    MembersApart(e, prefix, scope, "Q", "PT");
    MembersApart(e, prefix, scope, "ET", "IN");
    MembersApart(e, prefix, scope, "ET", "PT");
    MemberIsNotCycleTime(e, prefix, scope, "IN");
    MemberIsNotCycleTime(e, prefix, scope, "PT");
    MemberIsNotCycleTime(e, prefix, scope, "Q");
    MemberIsNotCycleTime(e, prefix, scope, "ET");
  }

  lemma PresetTime(p: Program, v: Pins, pt: i64)
    requires TimerHolds(p, v, p.initials, Timer(false, 0), 0)
    ensures TimerHolds(p, v, p.initials[v.in2 := VTime(pt)], Timer(false, 0), pt)
  {
  }

  // An instance of TON runs the TON body over tags of its own, so that from the start
  // of the program, whatever PT it is given, its scans follow the history whose law
  // TonLaw states.
  lemma TonInstance(p: Program, e: Env, i: nat, limit: nat, pt: i64, h: seq<TimerScan>)
    requires InstanceOf(p, e, i, TON)
    ensures var scope := e.info[i].scope;
      && "IN" in scope && "PT" in scope && "Q" in scope && "ET" in scope
      && var v := TimerPins(scope);
         && p.frames[i].body == TonBody(v) && TimerHolds(p, v, p.initials, Timer(false, 0), 0)
         && var s := p.initials[v.in2 := VTime(pt)];
            TimerFollows(p, v, TonScans(p, limit, v, s, h), TonHistory(pt, h), pt)
  {
    hide TimerHolds, TimerNamed, TonBody, BlockBinds, CallFree;
    TimerInstance(p, e, i, TON);
    InstanceIsCopy(p, e, i, TON);
    var v, at := TimerPins(e.info[i].scope), SiteOf(e.frames[i], e.info[i]);
    TonBinds(e, at, v);
    BlockBindsOnce(e, at, TON.body, e.frames[i].body, TonBody(v));
    PresetTime(p, v, pt);
    TonScansFollow(p, limit, v, p.initials[v.in2 := VTime(pt)], pt, h);
  }

  lemma TofInstance(p: Program, e: Env, i: nat, limit: nat, pt: i64, h: seq<TimerScan>)
    requires InstanceOf(p, e, i, TOF)
    ensures var scope := e.info[i].scope;
      && "IN" in scope && "PT" in scope && "Q" in scope && "ET" in scope
      && var v := TimerPins(scope);
         && p.frames[i].body == TofBody(v) && TimerHolds(p, v, p.initials, Timer(false, 0), 0)
         && var s := p.initials[v.in2 := VTime(pt)];
            TimerFollows(p, v, TofScans(p, limit, v, s, h), TofHistory(pt, h), pt)
  {
    hide TimerHolds, TimerNamed, TofBody, BlockBinds, CallFree;
    TimerInstance(p, e, i, TOF);
    InstanceIsCopy(p, e, i, TOF);
    var v, at := TimerPins(e.info[i].scope), SiteOf(e.frames[i], e.info[i]);
    TofBinds(e, at, v);
    BlockBindsOnce(e, at, TOF.body, e.frames[i].body, TofBody(v));
    PresetTime(p, v, pt);
    TofScansFollow(p, limit, v, p.initials[v.in2 := VTime(pt)], pt, h);
  }

  lemma CounterInstance(p: Program, e: Env, i: nat, block: Pou, input: string, set_: string)
    requires InstanceOf(p, e, i, block) && block.varDecls == CounterDecls(input, set_)
    requires (input == "CU" && set_ == "R") || (input == "CD" && set_ == "LD")
    ensures var at, scope := SiteOf(e.frames[i], e.info[i]), e.info[i].scope;
      && input in scope && set_ in scope && "PV" in scope && "Q" in scope && "CV" in scope && "M" in scope
      && var v := CounterPins(scope, input, set_);
         CounterNamed(e, at, v, input, set_) && CounterHolds(p, v, p.initials, Counter(false, 0, false))
  {
    var ds, prefix, scope := CounterDecls(input, set_), e.frames[i].scopeName, e.info[i].scope;
    assert ds[0] in ds && ds[1] in ds && ds[2] in ds && ds[3] in ds && ds[4] in ds && ds[5] in ds;
    InstanceIsCopy(p, e, i, block);
    DeclaredMember(p, e, i, block, ds[0]);
    DeclaredMember(p, e, i, block, ds[1]);
    DeclaredMember(p, e, i, block, ds[2]);
    DeclaredMember(p, e, i, block, ds[3]);
    DeclaredMember(p, e, i, block, ds[4]);
    DeclaredMember(p, e, i, block, ds[5]);
    hide InstanceOf, Denotes, ScopeNames, NamesDiffer, BlockBinds, Prefixed;
    CounterTagsApart(e, prefix, scope, input, set_);
  }

  lemma CounterTagsApart(e: Env, prefix: string, scope: map<string, nat>, input: string, set_: string)
    requires ScopeNames(e, prefix, scope)
    requires (input == "CU" && set_ == "R") || (input == "CD" && set_ == "LD")
    requires input in scope && set_ in scope && "PV" in scope && "Q" in scope && "CV" in scope && "M" in scope
    ensures scope["Q"] != scope["CV"] && scope["Q"] != scope["M"] && scope["CV"] != scope["M"]
    ensures scope[input] != scope[set_] && scope[input] != scope["PV"] && scope[set_] != scope["PV"]
    ensures forall n | n in {input, set_, "PV"} :: scope[n] !in {scope["Q"], scope["CV"], scope["M"]}
  {
    forall a, b | a in scope && b in scope && a != b ensures scope[a] != scope[b] { MembersApart(e, prefix, scope, a, b); }
  }

  lemma CtuInstance(p: Program, e: Env, i: nat, limit: nat, h: seq<CounterScan>)
    requires InstanceOf(p, e, i, CTU)
    ensures var scope := e.info[i].scope;
      && "CU" in scope && "R" in scope && "PV" in scope && "Q" in scope && "CV" in scope && "M" in scope
      && var v := CounterPins(scope, "CU", "R");
         && p.frames[i].body == CtuBody(v)
         && CounterFollows(p, v, CtuScans(p, limit, v, p.initials, h), CtuHistory(h))
  {
    hide CounterHolds, CounterNamed, CtuBody, BlockBinds, CallFree;
    CounterInstance(p, e, i, CTU, "CU", "R");
    InstanceIsCopy(p, e, i, CTU);
    var v, at := CounterPins(e.info[i].scope, "CU", "R"), SiteOf(e.frames[i], e.info[i]);
    CtuBinds(e, at, v);
    BlockBindsOnce(e, at, CTU.body, e.frames[i].body, CtuBody(v));
    CtuScansFollow(p, limit, v, p.initials, h);
  }

  lemma CtdInstance(p: Program, e: Env, i: nat, limit: nat, h: seq<CounterScan>)
    requires InstanceOf(p, e, i, CTD)
    ensures var scope := e.info[i].scope;
      && "CD" in scope && "LD" in scope && "PV" in scope && "Q" in scope && "CV" in scope && "M" in scope
      && var v := CounterPins(scope, "CD", "LD");
         && p.frames[i].body == CtdBody(v)
         && CounterFollows(p, v, CtdScans(p, limit, v, p.initials, h), Some(CtdHistory(h)))
  {
    hide CounterHolds, CounterNamed, CtdBody, BlockBinds, CallFree;
    CounterInstance(p, e, i, CTD, "CD", "LD");
    InstanceIsCopy(p, e, i, CTD);
    var v, at := CounterPins(e.info[i].scope, "CD", "LD"), SiteOf(e.frames[i], e.info[i]);
    CtdBinds(e, at, v);
    BlockBindsOnce(e, at, CTD.body, e.frames[i].body, CtdBody(v));
    CtdScansFollow(p, limit, v, p.initials, h);
  }
}

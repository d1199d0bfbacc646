// The standard timers and counters (include/softplc/st/standard_fbs.hpp): their ST
// bodies, run by the interpreter, and what they compute over whole scan histories.

module StandardFbs {
  import opened Values
  import opened Ast
  import opened Interpreter
  import opened BoundUnit

  // ---- The bodies, over the tags of one instance (unbound in the library) ----

  datatype Pins = Pins(in1: nat, in2: nat, in3: nat, q: nat, out: nat, m: nat, cycleTime: nat)

  const UNBOUND: Pins := Pins(INVALID_TAG, INVALID_TAG, INVALID_TAG, INVALID_TAG, INVALID_TAG, INVALID_TAG, INVALID_TAG)

  function When(c: Expr, body: seq<Stmt>, els: seq<Stmt>): Stmt {
    If([IfBranch(c, body)], els)
  }

  function Truth(b: bool): Expr { Literal(VBool(b)) }

  function AddCycle(v: Pins): Stmt {
    Assign("ET", v.out, Binary(Add, Identifier("ET", v.out), Identifier("System.CycleTime", v.cycleTime)))
  }

  function CapEt(v: Pins): Stmt {
    When(Binary(Gt, Identifier("ET", v.out), Identifier("PT", v.in2)), [Assign("ET", v.out, Identifier("PT", v.in2))], [])
  }

  function Elapsed(v: Pins): Expr { Binary(Ge, Identifier("ET", v.out), Identifier("PT", v.in2)) }

  function TonBody(v: Pins): seq<Stmt> {
    [When(Identifier("IN", v.in1),
          [AddCycle(v), CapEt(v), When(Elapsed(v), [Assign("Q", v.q, Truth(true))], [Assign("Q", v.q, Truth(false))])],
          [Assign("ET", v.out, Literal(VTime(0))), Assign("Q", v.q, Truth(false))])]
  }

  function TofBody(v: Pins): seq<Stmt> {
    [When(Identifier("IN", v.in1),
          [Assign("Q", v.q, Truth(true)), Assign("ET", v.out, Literal(VTime(0)))],
          [When(Identifier("Q", v.q), [AddCycle(v), CapEt(v), When(Elapsed(v), [Assign("Q", v.q, Truth(false))], [])], [])])]
  }

  function Edge(input: string, v: Pins): Expr {
    Binary(And, Identifier(input, v.in1), Unary(Not, Identifier("M", v.m)))
  }

  function Compare(v: Pins, op: BinaryOp, limit: Expr): Stmt {
    When(Binary(op, Identifier("CV", v.out), limit), [Assign("Q", v.q, Truth(true))], [Assign("Q", v.q, Truth(false))])
  }

  function CtuBody(v: Pins): seq<Stmt> {
    [When(Identifier("R", v.in2),
          [Assign("CV", v.out, Literal(VDInt(0))), Assign("M", v.m, Truth(false))],
          [When(Edge("CU", v), [Assign("CV", v.out, Binary(Add, Identifier("CV", v.out), Literal(VDInt(1))))], []),
           Assign("M", v.m, Identifier("CU", v.in1))]),
     Compare(v, Ge, Identifier("PV", v.in3))]
  }

  function CtdBody(v: Pins): seq<Stmt> {
    [When(Identifier("LD", v.in2),
          [Assign("CV", v.out, Identifier("PV", v.in3)), Assign("M", v.m, Truth(false))],
          [When(Edge("CD", v),
                [When(Binary(Gt, Identifier("CV", v.out), Literal(VDInt(0))),
                      [Assign("CV", v.out, Binary(Sub, Identifier("CV", v.out), Literal(VDInt(1))))], [])],
                []),
           Assign("M", v.m, Identifier("CD", v.in1))]),
     Compare(v, Le, Literal(VDInt(0)))]
  }

  function Declared(name: string, kind: VarKind, t: TypeId): VarDecl {
    VarDecl(name, kind, Some(t), None, None, None)
  }

  function TimerDecls(): seq<VarDecl> {
    [Declared("IN", VarInput, Bool), Declared("PT", VarInput, Time), Declared("Q", VarOutput, Bool), Declared("ET", VarOutput, Time)]
  }

  function CounterDecls(input: string, set_: string): seq<VarDecl> {
    [Declared(input, VarInput, Bool), Declared(set_, VarInput, Bool), Declared("PV", VarInput, DInt),
     Declared("Q", VarOutput, Bool), Declared("CV", VarOutput, DInt), Declared("M", Var, Bool)]
  }

  const TON: Pou := Pou("TON", false, TimerDecls(), TonBody(UNBOUND))
  const TOF: Pou := Pou("TOF", false, TimerDecls(), TofBody(UNBOUND))
  const CTU: Pou := Pou("CTU", false, CounterDecls("CU", "R"), CtuBody(UNBOUND))
  const CTD: Pou := Pou("CTD", false, CounterDecls("CD", "LD"), CtdBody(UNBOUND))

  const LIBRARY: seq<Pou> := [TON, TOF, CTU, CTD]

  // ---- Running one statement after another ----

  lemma RunWhen(p: Program, limit: nat, c: Expr, body: seq<Stmt>, els: seq<Stmt>, s: Store, b: bool)
    requires Condition(c, s) == Ok(b)
    ensures ExecStmt(p, limit, When(c, body, els), s) == ExecBlock(p, limit, if b then body else els, s)
  {
    var st := When(c, body, els);
    assert st.branches[0] == IfBranch(c, body);
    assert ExecBranches(p, limit, st, 1, s) == ExecBlock(p, limit, els, s);
  }

  lemma RunCons(p: Program, limit: nat, st: Stmt, rest: seq<Stmt>, s: Store, t: Store)
    requires ExecStmt(p, limit, st, s) == Ok(t)
    ensures ExecBlock(p, limit, [st] + rest, s) == ExecBlock(p, limit, rest, t)
  {
    assert ([st] + rest)[1..] == rest;
  }

  lemma RunOne(p: Program, limit: nat, st: Stmt, s: Store)
    ensures ExecBlock(p, limit, [st], s) == ExecStmt(p, limit, st, s)
  {
    var r := ExecStmt(p, limit, st, s);
    assert [st][1..] == [];
    if r.Ok? { assert ExecBlock(p, limit, [], r.value) == r; }
  }

  lemma RunTwo(p: Program, limit: nat, a: Stmt, b: Stmt, s: Store, t: Store)
    requires ExecStmt(p, limit, a, s) == Ok(t)
    ensures ExecBlock(p, limit, [a, b], s) == ExecStmt(p, limit, b, t)
  {
    assert [a, b] == [a] + [b];
    RunCons(p, limit, a, [b], s, t);
    RunOne(p, limit, b, t);
  }

  lemma RunAssign(p: Program, limit: nat, name: string, id: nat, e: Expr, s: Store, v: Value)
    requires Evaluate(e, s) == Ok(v) && id < |s| == |p.types| && p.types[id] == TypeOf(v)
    ensures ExecStmt(p, limit, Assign(name, id, e), s) == Ok(s[id := v])
    ensures ExecBlock(p, limit, [Assign(name, id, e)], s) == Ok(s[id := v])
  {
    RunOne(p, limit, Assign(name, id, e), s);
  }

  lemma BinaryCondition(op: BinaryOp, l: Expr, r: Expr, s: Store, a: Value, b: Value, t: bool)
    requires Evaluate(l, s) == Ok(a) && Evaluate(r, s) == Ok(b) && EvalBinary(op, a, b) == Ok(VBool(t))
    ensures Condition(Binary(op, l, r), s) == Ok(t)
  {
  }

  // ---- Timers: one scan ----

  datatype Timer = Timer(q: bool, et: i64)

  const TIME_MAX := 0x7FFF_FFFF_FFFF_FFFF

  function Capped(et: int, pt: i64): i64
    requires et <= TIME_MAX && et >= -0x8000_0000_0000_0000
  {
    if et > pt then pt else et
  }

  // None when ET + System.CycleTime leaves the range of TIME.
  function TonStep(t: Timer, on: bool, pt: i64, dt: i64): Option<Timer> {
    if !on then Some(Timer(false, 0))
    else
      var sum: int := t.et + dt;
      if sum > TIME_MAX || sum < -0x8000_0000_0000_0000 then None
      else Some(Timer(Capped(sum, pt) >= pt, Capped(sum, pt)))
  }

  function TofStep(t: Timer, on: bool, pt: i64, dt: i64): Option<Timer> {
    if on then Some(Timer(true, 0))
    else if !t.q then Some(t)
    else
      var sum: int := t.et + dt;
      if sum > TIME_MAX || sum < -0x8000_0000_0000_0000 then None
      else Some(Timer(Capped(sum, pt) < pt, Capped(sum, pt)))
  }

  predicate TimerReady(p: Program, v: Pins, s: Store, t: Timer, on: bool, pt: i64, dt: i64) {
    && |s| == |p.types| && v.in1 < |s| && v.in2 < |s| && v.q < |s| && v.out < |s| && v.cycleTime < |s|
    && v.q != v.out && v.q !in {v.in1, v.in2, v.cycleTime} && v.out !in {v.in1, v.in2, v.cycleTime}
    && p.types[v.q] == Bool && p.types[v.out] == Time
    && s[v.in1] == VBool(on) && s[v.in2] == VTime(pt) && s[v.q] == VBool(t.q) && s[v.out] == VTime(t.et)
    && s[v.cycleTime] == VTime(dt)
  }

  function TimerStore(v: Pins, s: Store, t: Timer): Store
    requires v.q < |s| && v.out < |s|
  {
    s[v.out := VTime(t.et)][v.q := VBool(t.q)]
  }

  // ET := ET + System.CycleTime, capped at PT; b says whether the sum is in range.
  lemma AccumulateRuns(p: Program, limit: nat, v: Pins, s: Store, t: Timer, on: bool, pt: i64, dt: i64, tail: Stmt)
    requires TimerReady(p, v, s, t, on, pt, dt)
    ensures var sum: int := t.et + dt;
      ExecBlock(p, limit, [AddCycle(v), CapEt(v), tail], s) ==
      if sum > TIME_MAX || sum < -0x8000_0000_0000_0000 then Err(Overflow)
      else ExecStmt(p, limit, tail, s[v.out := VTime(Capped(sum, pt))])
  {
    var sum: int := t.et + dt;
    var all := [AddCycle(v), CapEt(v), tail];
    assert all == [AddCycle(v)] + [CapEt(v), tail];
    assert Evaluate(AddCycle(v).value, s) == TimeResult(sum);
    if sum > TIME_MAX || sum < -0x8000_0000_0000_0000 {
      assert ExecStmt(p, limit, AddCycle(v), s) == Err(Overflow);
    } else {
      var s1 := s[v.out := VTime(sum)];
      RunAssign(p, limit, "ET", v.out, AddCycle(v).value, s, VTime(sum));
      RunCons(p, limit, AddCycle(v), [CapEt(v), tail], s, s1);
      CapRuns(p, limit, v, s1, sum, pt);
      assert s1[v.out := VTime(Capped(sum, pt))] == s[v.out := VTime(Capped(sum, pt))];
      RunTwo(p, limit, CapEt(v), tail, s1, s[v.out := VTime(Capped(sum, pt))]);
    }
  }

  lemma CapRuns(p: Program, limit: nat, v: Pins, s: Store, et: i64, pt: i64)
    requires |s| == |p.types| && v.in2 < |s| && v.out < |s| && v.in2 != v.out && p.types[v.out] == Time
    requires s[v.in2] == VTime(pt) && s[v.out] == VTime(et)
    ensures ExecStmt(p, limit, CapEt(v), s) == Ok(s[v.out := VTime(Capped(et, pt))])
  {
    var c := Binary(Gt, Identifier("ET", v.out), Identifier("PT", v.in2));
    var body := [Assign("ET", v.out, Identifier("PT", v.in2))];
    BinaryCondition(Gt, c.lhs, c.rhs, s, VTime(et), VTime(pt), et > pt);
    RunWhen(p, limit, c, body, [], s, et > pt);
    if et > pt {
      RunAssign(p, limit, "ET", v.out, Identifier("PT", v.in2), s, VTime(pt));
    } else {
      assert s[v.out := VTime(et)] == s;
    }
  }

  // The TON body computes TonStep and writes nothing but ET and Q.
  lemma TonRuns(p: Program, limit: nat, v: Pins, s: Store, t: Timer, on: bool, pt: i64, dt: i64)
    requires TimerReady(p, v, s, t, on, pt, dt)
    ensures ExecBlock(p, limit, TonBody(v), s) ==
            match TonStep(t, on, pt, dt) case None => Err(Overflow) case Some(t') => Ok(TimerStore(v, s, t'))
  {
    var judge := When(Elapsed(v), [Assign("Q", v.q, Truth(true))], [Assign("Q", v.q, Truth(false))]);
    var body := [AddCycle(v), CapEt(v), judge];
    var clear, off := Assign("ET", v.out, Literal(VTime(0))), Assign("Q", v.q, Truth(false));
    assert Condition(Identifier("IN", v.in1), s) == Ok(on);
    RunOne(p, limit, TonBody(v)[0], s);
    RunWhen(p, limit, Identifier("IN", v.in1), body, [clear, off], s, on);
    if on {
      AccumulateRuns(p, limit, v, s, t, on, pt, dt, judge);
      var sum: int := t.et + dt;
      if -0x8000_0000_0000_0000 <= sum <= TIME_MAX {
        var s1 := s[v.out := VTime(Capped(sum, pt))];
        var done := Capped(sum, pt) >= pt;
        BinaryCondition(Ge, Elapsed(v).lhs, Elapsed(v).rhs, s1, VTime(Capped(sum, pt)), VTime(pt), done);
        RunWhen(p, limit, Elapsed(v), [Assign("Q", v.q, Truth(true))], [Assign("Q", v.q, Truth(false))], s1, done);
        RunAssign(p, limit, "Q", v.q, Truth(done), s1, VBool(done));
      }
    } else {
      RunAssign(p, limit, "ET", v.out, Literal(VTime(0)), s, VTime(0));
      RunTwo(p, limit, clear, off, s, s[v.out := VTime(0)]);
      RunAssign(p, limit, "Q", v.q, Truth(false), s[v.out := VTime(0)], VBool(false));
    }
  }

  lemma TofRuns(p: Program, limit: nat, v: Pins, s: Store, t: Timer, on: bool, pt: i64, dt: i64)
    requires TimerReady(p, v, s, t, on, pt, dt)
    ensures ExecBlock(p, limit, TofBody(v), s) ==
            match TofStep(t, on, pt, dt) case None => Err(Overflow) case Some(t') => Ok(TimerStore(v, s, t'))
  {
    var judge := When(Elapsed(v), [Assign("Q", v.q, Truth(false))], []);
    var running := When(Identifier("Q", v.q), [AddCycle(v), CapEt(v), judge], []);
    var turnOn, clear := Assign("Q", v.q, Truth(true)), Assign("ET", v.out, Literal(VTime(0)));
    assert Condition(Identifier("IN", v.in1), s) == Ok(on) && Condition(Identifier("Q", v.q), s) == Ok(t.q);
    RunOne(p, limit, TofBody(v)[0], s);
    RunWhen(p, limit, Identifier("IN", v.in1), [turnOn, clear], [running], s, on);
    if on {
      RunAssign(p, limit, "Q", v.q, Truth(true), s, VBool(true));
      RunTwo(p, limit, turnOn, clear, s, s[v.q := VBool(true)]);
      RunAssign(p, limit, "ET", v.out, Literal(VTime(0)), s[v.q := VBool(true)], VTime(0));
      assert s[v.q := VBool(true)][v.out := VTime(0)] == TimerStore(v, s, Timer(true, 0));
    } else {
      RunOne(p, limit, running, s);
      RunWhen(p, limit, Identifier("Q", v.q), [AddCycle(v), CapEt(v), judge], [], s, t.q);
      if t.q { TofExpires(p, limit, v, s, t, on, pt, dt); } else { assert TimerStore(v, s, t) == s; }
    }
  }

  lemma TofExpires(p: Program, limit: nat, v: Pins, s: Store, t: Timer, on: bool, pt: i64, dt: i64)
    requires TimerReady(p, v, s, t, on, pt, dt) && !on && t.q
    ensures ExecBlock(p, limit, [AddCycle(v), CapEt(v), When(Elapsed(v), [Assign("Q", v.q, Truth(false))], [])], s) ==
            match TofStep(t, on, pt, dt) case None => Err(Overflow) case Some(t') => Ok(TimerStore(v, s, t'))
  {
    var judge := When(Elapsed(v), [Assign("Q", v.q, Truth(false))], []);
    AccumulateRuns(p, limit, v, s, t, on, pt, dt, judge);
    var sum: int := t.et + dt;
    if -0x8000_0000_0000_0000 <= sum <= TIME_MAX {
      var s1 := s[v.out := VTime(Capped(sum, pt))];
      var done := Capped(sum, pt) >= pt;
      BinaryCondition(Ge, Elapsed(v).lhs, Elapsed(v).rhs, s1, VTime(Capped(sum, pt)), VTime(pt), done);
      RunWhen(p, limit, Elapsed(v), [Assign("Q", v.q, Truth(false))], [], s1, done);
      if done { RunAssign(p, limit, "Q", v.q, Truth(false), s1, VBool(false)); } else { assert s1[v.q := VBool(true)] == s1; }
    }
  }

  // ---- Timers over whole histories ----

  // What one scan feeds a timer: its input and the time since the last scan.
  datatype TimerScan = TimerScan(on: bool, dt: nat)

  function Sum(h: seq<TimerScan>): nat {
    if h == [] then 0 else Sum(h[..|h| - 1]) + h[|h| - 1].dt
  }

  // Where the current run of equal inputs starts.
  function RunStart(h: seq<TimerScan>): (k: nat)
    ensures k <= |h|
  {
    if |h| <= 1 || h[|h| - 1].on != h[|h| - 2].on then (if h == [] then 0 else |h| - 1) else RunStart(h[..|h| - 1])
  }

  // Time accumulated since the input last changed.
  function SinceChange(h: seq<TimerScan>): nat { Sum(h[RunStart(h)..]) }

  function Least(a: int, b: int): int { if a < b then a else b }

  function TonHistory(pt: i64, h: seq<TimerScan>): Option<Timer> {
    if h == [] then Some(Timer(false, 0))
    else match TonHistory(pt, h[..|h| - 1])
      case None => None
      case Some(t) => if h[|h| - 1].dt > TIME_MAX then None else TonStep(t, h[|h| - 1].on, pt, h[|h| - 1].dt)
  }

  function TofHistory(pt: i64, h: seq<TimerScan>): Option<Timer> {
    if h == [] then Some(Timer(false, 0))
    else match TofHistory(pt, h[..|h| - 1])
      case None => None
      case Some(t) => if h[|h| - 1].dt > TIME_MAX then None else TofStep(t, h[|h| - 1].on, pt, h[|h| - 1].dt)
  }

  lemma SumSnoc(h: seq<TimerScan>, x: TimerScan)
    ensures Sum(h + [x]) == Sum(h) + x.dt
  {
    assert (h + [x])[..|h|] == h;
  }

  lemma RunGrows(h: seq<TimerScan>)
    requires h != []
    ensures var before, last := h[..|h| - 1], h[|h| - 1];
      SinceChange(h) == (if before != [] && before[|before| - 1].on == last.on then SinceChange(before) else 0) + last.dt
  {
    var before, last := h[..|h| - 1], h[|h| - 1];
    var k := RunStart(h);
    if before != [] && before[|before| - 1].on == last.on {
      RunNotEmpty(before);
      assert k == RunStart(before);
      assert h[k..] == before[k..] + [last];
      SumSnoc(before[k..], last);
    } else {
      assert k == |h| - 1;
      assert h[k..] == [] + [last];
      SumSnoc([], last);
    }
  }

  lemma {:induction false} RunNotEmpty(h: seq<TimerScan>)
    requires h != []
    ensures RunStart(h) < |h|
  {
    if |h| > 1 && h[|h| - 1].on == h[|h| - 2].on { RunNotEmpty(h[..|h| - 1]); }
  }

  // TON: ET is the time since IN rose, capped at PT; Q holds exactly when IN is on and
  // that time has reached PT.
  lemma {:induction false} TonLaw(pt: i64, h: seq<TimerScan>)
    requires pt >= 0 && TonHistory(pt, h).Some? && h != []
    ensures var t, on := TonHistory(pt, h).value, h[|h| - 1].on;
      && t.et == (if on then Least(pt, SinceChange(h)) else 0)
      && t.q == (on && SinceChange(h) >= pt)
  {
    RunGrows(h);
    if |h| > 1 { TonLaw(pt, h[..|h| - 1]); }
  }

  predicate EverOn(h: seq<TimerScan>) {
    exists i :: 0 <= i < |h| && h[i].on
  }

  // TOF: after IN was on, Q holds exactly while IN is on or the time since it fell is
  // below PT; before that it is off.
  lemma {:induction false} TofLaw(pt: i64, h: seq<TimerScan>)
    requires pt >= 0 && TofHistory(pt, h).Some? && h != []
    ensures var t, on := TofHistory(pt, h).value, h[|h| - 1].on;
      && t.q == (EverOn(h) && (on || SinceChange(h) < pt))
      && t.et == (if on || !EverOn(h) then 0 else Least(pt, SinceChange(h)))
  {
    var before := h[..|h| - 1];
    RunGrows(h);
    assert EverOn(h) <==> EverOn(before) || h[|h| - 1].on by {
      if EverOn(before) {
        var i :| 0 <= i < |before| && before[i].on;
        assert h[i].on;
      }
    }
    if |h| > 1 { TofLaw(pt, before); }
  }

  // ---- Counters: one scan ----

  datatype Counter = Counter(q: bool, cv: i32, m: bool)

  const DINT_MAX := 0x7FFF_FFFF

  // None when CV + 1 leaves the range of DINT.
  function CtuStep(c: Counter, cu: bool, r: bool, pv: i32): Option<Counter> {
    var edge := cu && !c.m;
    if !r && edge && c.cv == DINT_MAX then None
    else
      var cv: i32 := if r then 0 else if edge then c.cv + 1 else c.cv;
      Some(Counter(cv >= pv, cv, !r && cu))
  }

  function CtdStep(c: Counter, cd: bool, ld: bool, pv: i32): Counter {
    var cv: i32 := if ld then pv else if cd && !c.m && c.cv > 0 then c.cv - 1 else c.cv;
    Counter(cv <= 0, cv, !ld && cd)
  }

  predicate CounterReady(p: Program, v: Pins, s: Store, c: Counter, input: bool, set_: bool, pv: i32) {
    && |s| == |p.types| && v.in1 < |s| && v.in2 < |s| && v.in3 < |s| && v.q < |s| && v.out < |s| && v.m < |s|
    && v.q != v.out && v.q != v.m && v.out != v.m
    && v.q !in {v.in1, v.in2, v.in3} && v.out !in {v.in1, v.in2, v.in3} && v.m !in {v.in1, v.in2, v.in3}
    && p.types[v.q] == Bool && p.types[v.out] == DInt && p.types[v.m] == Bool
    && s[v.in1] == VBool(input) && s[v.in2] == VBool(set_) && s[v.in3] == VDInt(pv)
    && s[v.q] == VBool(c.q) && s[v.out] == VDInt(c.cv) && s[v.m] == VBool(c.m)
  }

  function CounterStore(v: Pins, s: Store, c: Counter): Store
    requires v.q < |s| && v.out < |s| && v.m < |s|
  {
    s[v.out := VDInt(c.cv)][v.m := VBool(c.m)][v.q := VBool(c.q)]
  }

  lemma EdgeCondition(input: string, v: Pins, s: Store, on: bool, m: bool)
    requires v.in1 < |s| && v.m < |s| && s[v.in1] == VBool(on) && s[v.m] == VBool(m)
    ensures Condition(Edge(input, v), s) == Ok(on && !m)
  {
    assert Evaluate(Unary(Not, Identifier("M", v.m)), s) == Ok(VBool(!m));
    BinaryCondition(And, Identifier(input, v.in1), Unary(Not, Identifier("M", v.m)), s, VBool(on), VBool(!m), on && !m);
  }

  // CV := x; M := y
  lemma WriteCountRuns(p: Program, limit: nat, v: Pins, s: Store, e: Expr, n: i32, f: Expr, b: bool)
    requires |s| == |p.types| && v.out < |s| && v.m < |s| && v.out != v.m && p.types[v.out] == DInt && p.types[v.m] == Bool
    requires Evaluate(e, s) == Ok(VDInt(n)) && Evaluate(f, s[v.out := VDInt(n)]) == Ok(VBool(b))
    ensures ExecBlock(p, limit, [Assign("CV", v.out, e), Assign("M", v.m, f)], s) == Ok(s[v.out := VDInt(n)][v.m := VBool(b)])
  {
    RunAssign(p, limit, "CV", v.out, e, s, VDInt(n));
    RunTwo(p, limit, Assign("CV", v.out, e), Assign("M", v.m, f), s, s[v.out := VDInt(n)]);
    RunAssign(p, limit, "M", v.m, f, s[v.out := VDInt(n)], VBool(b));
  }

  lemma CompareRuns(p: Program, limit: nat, v: Pins, op: BinaryOp, e: Expr, s: Store, b: bool)
    requires |s| == |p.types| && v.q < |s| && p.types[v.q] == Bool
    requires Condition(Binary(op, Identifier("CV", v.out), e), s) == Ok(b)
    ensures ExecStmt(p, limit, Compare(v, op, e), s) == Ok(s[v.q := VBool(b)])
  {
    RunWhen(p, limit, Binary(op, Identifier("CV", v.out), e), [Assign("Q", v.q, Truth(true))], [Assign("Q", v.q, Truth(false))], s, b);
    RunAssign(p, limit, "Q", v.q, Truth(b), s, VBool(b));
  }

  // IF edge THEN count END_IF; M := input
  lemma CountRuns(p: Program, limit: nat, v: Pins, s: Store, c: Counter, input: bool, pv: i32, name: string, body: seq<Stmt>, cv: i32)
    requires CounterReady(p, v, s, c, input, false, pv)
    requires if input && !c.m then ExecBlock(p, limit, body, s) == Ok(s[v.out := VDInt(cv)]) else cv == c.cv
    ensures ExecBlock(p, limit, [When(Edge(name, v), body, []), Assign("M", v.m, Identifier(name, v.in1))], s) ==
            Ok(s[v.out := VDInt(cv)][v.m := VBool(input)])
  {
    var counted := When(Edge(name, v), body, []);
    EdgeCondition(name, v, s, input, c.m);
    RunWhen(p, limit, Edge(name, v), body, [], s, input && !c.m);
    var s1 := s[v.out := VDInt(cv)];
    if !(input && !c.m) { assert s1 == s; }
    RunTwo(p, limit, counted, Assign("M", v.m, Identifier(name, v.in1)), s, s1);
    RunAssign(p, limit, "M", v.m, Identifier(name, v.in1), s1, VBool(input));
  }

  lemma CtuCounts(p: Program, limit: nat, v: Pins, s: Store, c: Counter, cu: bool, r: bool, pv: i32)
    requires CounterReady(p, v, s, c, cu, r, pv)
    ensures ExecStmt(p, limit, CtuBody(v)[0], s) ==
            match CtuStep(c, cu, r, pv)
            case None => Err(Overflow)
            case Some(c') => Ok(s[v.out := VDInt(c'.cv)][v.m := VBool(c'.m)])
  {
    var zero := [Assign("CV", v.out, Literal(VDInt(0))), Assign("M", v.m, Truth(false))];
    var up := Assign("CV", v.out, Binary(Add, Identifier("CV", v.out), Literal(VDInt(1))));
    var count := [When(Edge("CU", v), [up], []), Assign("M", v.m, Identifier("CU", v.in1))];
    assert Condition(Identifier("R", v.in2), s) == Ok(r);
    RunWhen(p, limit, Identifier("R", v.in2), zero, count, s, r);
    if r {
      WriteCountRuns(p, limit, v, s, Literal(VDInt(0)), 0, Truth(false), false);
    } else {
      assert Evaluate(up.value, s) == FromInt(c.cv + 1, DInt);
      if cu && !c.m && c.cv == DINT_MAX {
        EdgeCondition("CU", v, s, true, false);
        RunWhen(p, limit, Edge("CU", v), [up], [], s, true);
        RunOne(p, limit, up, s);
        assert ExecStmt(p, limit, count[0], s) == Err(Overflow);
      } else {
        var cv: i32 := if cu && !c.m then c.cv + 1 else c.cv;
        if cu && !c.m { RunAssign(p, limit, "CV", v.out, up.value, s, VDInt(cv)); }
        CountRuns(p, limit, v, s, c, cu, pv, "CU", [up], cv);
      }
    }
  }

  lemma CtuRuns(p: Program, limit: nat, v: Pins, s: Store, c: Counter, cu: bool, r: bool, pv: i32)
    requires CounterReady(p, v, s, c, cu, r, pv)
    ensures ExecBlock(p, limit, CtuBody(v), s) ==
            match CtuStep(c, cu, r, pv) case None => Err(Overflow) case Some(c') => Ok(CounterStore(v, s, c'))
  {
    CtuCounts(p, limit, v, s, c, cu, r, pv);
    var next := CtuStep(c, cu, r, pv);
    var body := CtuBody(v);
    assert body == [body[0]] + [body[1]];
    if next.Some? {
      var s1 := s[v.out := VDInt(next.value.cv)][v.m := VBool(next.value.m)];
      RunTwo(p, limit, body[0], body[1], s, s1);
      BinaryCondition(Ge, Identifier("CV", v.out), Identifier("PV", v.in3), s1, VDInt(next.value.cv), VDInt(pv), next.value.q);
      CompareRuns(p, limit, v, Ge, Identifier("PV", v.in3), s1, next.value.q);
    }
  }

  // CV is counted down unless it has reached 0.
  lemma DownRuns(p: Program, limit: nat, v: Pins, s: Store, cv: i32)
    requires |s| == |p.types| && v.out < |s| && p.types[v.out] == DInt && s[v.out] == VDInt(cv)
    ensures var down := Assign("CV", v.out, Binary(Sub, Identifier("CV", v.out), Literal(VDInt(1))));
      ExecBlock(p, limit, [When(Binary(Gt, Identifier("CV", v.out), Literal(VDInt(0))), [down], [])], s) ==
      Ok(s[v.out := VDInt(if cv > 0 then cv - 1 else cv)])
  {
    var down := Assign("CV", v.out, Binary(Sub, Identifier("CV", v.out), Literal(VDInt(1))));
    var positive := Binary(Gt, Identifier("CV", v.out), Literal(VDInt(0)));
    RunOne(p, limit, When(positive, [down], []), s);
    BinaryCondition(Gt, positive.lhs, positive.rhs, s, VDInt(cv), VDInt(0), cv > 0);
    RunWhen(p, limit, positive, [down], [], s, cv > 0);
    if cv > 0 { RunAssign(p, limit, "CV", v.out, down.value, s, VDInt(cv - 1)); } else { assert s[v.out := VDInt(cv)] == s; }
  }

  lemma CtdCounts(p: Program, limit: nat, v: Pins, s: Store, c: Counter, cd: bool, ld: bool, pv: i32)
    requires CounterReady(p, v, s, c, cd, ld, pv)
    ensures var c' := CtdStep(c, cd, ld, pv);
      ExecStmt(p, limit, CtdBody(v)[0], s) == Ok(s[v.out := VDInt(c'.cv)][v.m := VBool(c'.m)])
  {
    var load := [Assign("CV", v.out, Identifier("PV", v.in3)), Assign("M", v.m, Truth(false))];
    var down := Assign("CV", v.out, Binary(Sub, Identifier("CV", v.out), Literal(VDInt(1))));
    var positive := Binary(Gt, Identifier("CV", v.out), Literal(VDInt(0)));
    var body := [When(positive, [down], [])];
    var count := [When(Edge("CD", v), body, []), Assign("M", v.m, Identifier("CD", v.in1))];
    assert Condition(Identifier("LD", v.in2), s) == Ok(ld);
    RunWhen(p, limit, Identifier("LD", v.in2), load, count, s, ld);
    if ld {
      WriteCountRuns(p, limit, v, s, Identifier("PV", v.in3), pv, Truth(false), false);
    } else {
      var less: i32 := if c.cv > 0 then c.cv - 1 else c.cv;
      DownRuns(p, limit, v, s, c.cv);
      CountRuns(p, limit, v, s, c, cd, pv, "CD", body, if cd && !c.m then less else c.cv);
    }
  }

  lemma CtdRuns(p: Program, limit: nat, v: Pins, s: Store, c: Counter, cd: bool, ld: bool, pv: i32)
    requires CounterReady(p, v, s, c, cd, ld, pv)
    ensures ExecBlock(p, limit, CtdBody(v), s) == Ok(CounterStore(v, s, CtdStep(c, cd, ld, pv)))
  {
    CtdCounts(p, limit, v, s, c, cd, ld, pv);
    var next := CtdStep(c, cd, ld, pv);
    var body := CtdBody(v);
    assert body == [body[0]] + [body[1]];
    var s1 := s[v.out := VDInt(next.cv)][v.m := VBool(next.m)];
    RunTwo(p, limit, body[0], body[1], s, s1);
    BinaryCondition(Le, Identifier("CV", v.out), Literal(VDInt(0)), s1, VDInt(next.cv), VDInt(0), next.q);
    CompareRuns(p, limit, v, Le, Literal(VDInt(0)), s1, next.q);
  }

  // ---- Counters over whole histories ----

  // One scan of a counter: its count input, its R or LD input and its PV.
  datatype CounterScan = CounterScan(input: bool, set_: bool, pv: i32)

  // The scan after the last R or LD, or 0.
  function AfterSet(h: seq<CounterScan>): (k: nat)
    ensures k <= |h|
    ensures k > 0 ==> h[k - 1].set_
    ensures forall i | k <= i < |h| :: !h[i].set_
  {
    if h == [] then 0 else if h[|h| - 1].set_ then |h| else AfterSet(h[..|h| - 1])
  }

  // A counted edge: the input is on, and was off in the scan before or not yet seen.
  predicate IsEdge(h: seq<CounterScan>, start: nat, i: nat)
    requires start <= i < |h|
  {
    h[i].input && (i == start || !h[i - 1].input)
  }

  function EdgeScans(h: seq<CounterScan>): set<nat> {
    set i: nat | AfterSet(h) <= i < |h| && IsEdge(h, AfterSet(h), i)
  }

  function Edges(h: seq<CounterScan>): nat { |EdgeScans(h)| }

  lemma EdgesGrow(h: seq<CounterScan>)
    requires h != []
    ensures var before, last := h[..|h| - 1], h[|h| - 1];
      var seen := before != [] && AfterSet(before) < |before| && before[|before| - 1].input;
      Edges(h) == if last.set_ then 0 else Edges(before) + (if last.input && !seen then 1 else 0)
  {
    var before, last := h[..|h| - 1], h[|h| - 1];
    var n := |before|;
    if last.set_ {
      assert EdgeScans(h) == {};
    } else {
      assert forall i | AfterSet(before) <= i < n :: IsEdge(h, AfterSet(h), i) == IsEdge(before, AfterSet(before), i);
      if IsEdge(h, AfterSet(h), n) { assert EdgeScans(h) == EdgeScans(before) + {n}; } else { assert EdgeScans(h) == EdgeScans(before); }
    }
  }

  function CtuHistory(h: seq<CounterScan>): Option<Counter> {
    if h == [] then Some(Counter(false, 0, false))
    else match CtuHistory(h[..|h| - 1])
      case None => None
      case Some(c) => CtuStep(c, h[|h| - 1].input, h[|h| - 1].set_, h[|h| - 1].pv)
  }

  function CtdHistory(h: seq<CounterScan>): Counter {
    if h == [] then Counter(false, 0, false)
    else CtdStep(CtdHistory(h[..|h| - 1]), h[|h| - 1].input, h[|h| - 1].set_, h[|h| - 1].pv)
  }

  // Whether the last scan left the input remembered as on.
  predicate Remembered(h: seq<CounterScan>) {
    h != [] && AfterSet(h) < |h| && h[|h| - 1].input
  }

  // CTU: CV is the number of counted edges since R; Q compares it with PV.
  lemma {:induction false} CtuLaw(h: seq<CounterScan>)
    requires CtuHistory(h).Some?
    ensures var c := CtuHistory(h).value;
      c.cv == Edges(h) && c.m == Remembered(h) && (h != [] ==> c.q == (Edges(h) >= h[|h| - 1].pv))
  {
    if h == [] {
      assert EdgeScans(h) == {};
    } else {
      CtuLaw(h[..|h| - 1]);
      EdgesGrow(h);
    }
  }

  // CTD: after a load with PV >= 0, CV is PV less the edges counted since, but not
  // below 0; Q tells when it is used up.
  lemma {:induction false} CtdLaw(h: seq<CounterScan>)
    requires AfterSet(h) > 0 && h[AfterSet(h) - 1].pv >= 0
    ensures var c := CtdHistory(h);
      && c.cv == (if h[AfterSet(h) - 1].pv >= Edges(h) then h[AfterSet(h) - 1].pv - Edges(h) else 0)
      && c.m == Remembered(h) && c.q == (Edges(h) >= h[AfterSet(h) - 1].pv)
  {
    EdgesGrow(h);
    if !h[|h| - 1].set_ { CtdLaw(h[..|h| - 1]); }
  }

  // ---- The laws at work: an instance over a history of scans ----

  // Before each scan the program feeds the instance new inputs.
  function Feed(s: Store, id: nat, v: Value): Store {
    if id < |s| then s[id := v] else s
  }

  function TonScans(p: Program, limit: nat, v: Pins, s: Store, h: seq<TimerScan>): Result<Store> {
    if h == [] then Ok(s)
    else
      var t :- TonScans(p, limit, v, s, h[..|h| - 1]);
      var x := h[|h| - 1];
      if x.dt > TIME_MAX then Err(Overflow)
      else ExecBlock(p, limit, TonBody(v), Feed(Feed(t, v.in1, VBool(x.on)), v.cycleTime, VTime(x.dt)))
  }

  function TofScans(p: Program, limit: nat, v: Pins, s: Store, h: seq<TimerScan>): Result<Store> {
    if h == [] then Ok(s)
    else
      var t :- TofScans(p, limit, v, s, h[..|h| - 1]);
      var x := h[|h| - 1];
      if x.dt > TIME_MAX then Err(Overflow)
      else ExecBlock(p, limit, TofBody(v), Feed(Feed(t, v.in1, VBool(x.on)), v.cycleTime, VTime(x.dt)))
  }

  function FeedCounter(v: Pins, s: Store, x: CounterScan): Store {
    Feed(Feed(Feed(s, v.in1, VBool(x.input)), v.in2, VBool(x.set_)), v.in3, VDInt(x.pv))
  }

  function CtuScans(p: Program, limit: nat, v: Pins, s: Store, h: seq<CounterScan>): Result<Store> {
    if h == [] then Ok(s)
    else
      var t :- CtuScans(p, limit, v, s, h[..|h| - 1]);
      ExecBlock(p, limit, CtuBody(v), FeedCounter(v, t, h[|h| - 1]))
  }

  function CtdScans(p: Program, limit: nat, v: Pins, s: Store, h: seq<CounterScan>): Result<Store> {
    if h == [] then Ok(s)
    else
      var t :- CtdScans(p, limit, v, s, h[..|h| - 1]);
      ExecBlock(p, limit, CtdBody(v), FeedCounter(v, t, h[|h| - 1]))
  }

  // The tags of an instance are distinct, have their declared types and hold this state.
  predicate TimerHolds(p: Program, v: Pins, s: Store, t: Timer, pt: i64) {
    && |s| == |p.types| && v.in1 < |s| && v.in2 < |s| && v.q < |s| && v.out < |s| && v.cycleTime < |s|
    && v.q != v.out && v.q !in {v.in1, v.in2, v.cycleTime} && v.out !in {v.in1, v.in2, v.cycleTime}
    && v.in1 != v.in2 && v.cycleTime != v.in1 && v.cycleTime != v.in2
    && p.types[v.q] == Bool && p.types[v.out] == Time
    && s[v.in2] == VTime(pt) && s[v.q] == VBool(t.q) && s[v.out] == VTime(t.et)
  }

  predicate CounterHolds(p: Program, v: Pins, s: Store, c: Counter) {
    && |s| == |p.types| && v.in1 < |s| && v.in2 < |s| && v.in3 < |s| && v.q < |s| && v.out < |s| && v.m < |s|
    && v.q != v.out && v.q != v.m && v.out != v.m && v.in1 != v.in2 && v.in1 != v.in3 && v.in2 != v.in3
    && v.q !in {v.in1, v.in2, v.in3} && v.out !in {v.in1, v.in2, v.in3} && v.m !in {v.in1, v.in2, v.in3}
    && p.types[v.q] == Bool && p.types[v.out] == DInt && p.types[v.m] == Bool
    && s[v.q] == VBool(c.q) && s[v.out] == VDInt(c.cv) && s[v.m] == VBool(c.m)
  }

  predicate TimerFollows(p: Program, v: Pins, r: Result<Store>, t: Option<Timer>, pt: i64) {
    match t
    case None => r == Err(Overflow)
    case Some(x) => r.Ok? && TimerHolds(p, v, r.value, x, pt)
  }

  predicate CounterFollows(p: Program, v: Pins, r: Result<Store>, c: Option<Counter>) {
    match c
    case None => r == Err(Overflow)
    case Some(x) => r.Ok? && CounterHolds(p, v, r.value, x)
  }

  // One scan, on the tags of the instance.
  lemma TonScan(p: Program, limit: nat, v: Pins, s: Store, t: Timer, pt: i64, on: bool, dt: i64)
    requires TimerHolds(p, v, s, t, pt)
    ensures TimerFollows(p, v, ExecBlock(p, limit, TonBody(v), Feed(Feed(s, v.in1, VBool(on)), v.cycleTime, VTime(dt))),
                         TonStep(t, on, pt, dt), pt)
  {
    hide TonBody;
    var u := Feed(Feed(s, v.in1, VBool(on)), v.cycleTime, VTime(dt));
    assert TimerReady(p, v, u, t, on, pt, dt);
    TonRuns(p, limit, v, u, t, on, pt, dt);
  }

  lemma TofScan(p: Program, limit: nat, v: Pins, s: Store, t: Timer, pt: i64, on: bool, dt: i64)
    requires TimerHolds(p, v, s, t, pt)
    ensures TimerFollows(p, v, ExecBlock(p, limit, TofBody(v), Feed(Feed(s, v.in1, VBool(on)), v.cycleTime, VTime(dt))),
                         TofStep(t, on, pt, dt), pt)
  {
    hide TofBody;
    var u := Feed(Feed(s, v.in1, VBool(on)), v.cycleTime, VTime(dt));
    assert TimerReady(p, v, u, t, on, pt, dt);
    TofRuns(p, limit, v, u, t, on, pt, dt);
  }

  lemma FedIsReady(p: Program, v: Pins, s: Store, c: Counter, x: CounterScan)
    requires CounterHolds(p, v, s, c)
    ensures CounterReady(p, v, FeedCounter(v, s, x), c, x.input, x.set_, x.pv)
  {
  }

  lemma CtuScan(p: Program, limit: nat, v: Pins, s: Store, c: Counter, x: CounterScan)
    requires CounterHolds(p, v, s, c)
    ensures CounterFollows(p, v, ExecBlock(p, limit, CtuBody(v), FeedCounter(v, s, x)), CtuStep(c, x.input, x.set_, x.pv))
  {
    hide CtuBody;
    FedIsReady(p, v, s, c, x);
    CtuRuns(p, limit, v, FeedCounter(v, s, x), c, x.input, x.set_, x.pv);
  }

  lemma CtdScan(p: Program, limit: nat, v: Pins, s: Store, c: Counter, x: CounterScan)
    requires CounterHolds(p, v, s, c)
    ensures CounterFollows(p, v, ExecBlock(p, limit, CtdBody(v), FeedCounter(v, s, x)), Some(CtdStep(c, x.input, x.set_, x.pv)))
  {
    hide CtdBody;
    FedIsReady(p, v, s, c, x);
    CtdRuns(p, limit, v, FeedCounter(v, s, x), c, x.input, x.set_, x.pv);
  }

  // Interpreting an instance's body scan after scan follows the history functions
  // above, so their laws hold of its tags; it stops only on overflow.
  lemma {:induction false} TonScansFollow(p: Program, limit: nat, v: Pins, s: Store, pt: i64, h: seq<TimerScan>)
    requires TimerHolds(p, v, s, Timer(false, 0), pt)
    ensures TimerFollows(p, v, TonScans(p, limit, v, s, h), TonHistory(pt, h), pt)
  {
    hide TonBody, TimerHolds, TonStep, Feed;
    if h != [] {
      var before, x := h[..|h| - 1], h[|h| - 1];
      TonScansFollow(p, limit, v, s, pt, before);
      var t := TonHistory(pt, before);
      if t.Some? && x.dt <= TIME_MAX { TonScan(p, limit, v, TonScans(p, limit, v, s, before).value, t.value, pt, x.on, x.dt); }
    }
  }

  lemma {:induction false} TofScansFollow(p: Program, limit: nat, v: Pins, s: Store, pt: i64, h: seq<TimerScan>)
    requires TimerHolds(p, v, s, Timer(false, 0), pt)
    ensures TimerFollows(p, v, TofScans(p, limit, v, s, h), TofHistory(pt, h), pt)
  {
    hide TofBody, TimerHolds, TofStep, Feed;
    if h != [] {
      var before, x := h[..|h| - 1], h[|h| - 1];
      TofScansFollow(p, limit, v, s, pt, before);
      var t := TofHistory(pt, before);
      if t.Some? && x.dt <= TIME_MAX { TofScan(p, limit, v, TofScans(p, limit, v, s, before).value, t.value, pt, x.on, x.dt); }
    }
  }

  lemma {:induction false} CtuScansFollow(p: Program, limit: nat, v: Pins, s: Store, h: seq<CounterScan>)
    requires CounterHolds(p, v, s, Counter(false, 0, false))
    ensures CounterFollows(p, v, CtuScans(p, limit, v, s, h), CtuHistory(h))
  {
    hide CtuBody, CounterHolds, CtuStep, FeedCounter;
    if h != [] {
      var before, x := h[..|h| - 1], h[|h| - 1];
      CtuScansFollow(p, limit, v, s, before);
      var c := CtuHistory(before);
      if c.Some? { CtuScan(p, limit, v, CtuScans(p, limit, v, s, before).value, c.value, x); }
    }
  }

  lemma {:induction false} CtdScansFollow(p: Program, limit: nat, v: Pins, s: Store, h: seq<CounterScan>)
    requires CounterHolds(p, v, s, Counter(false, 0, false))
    ensures CounterFollows(p, v, CtdScans(p, limit, v, s, h), Some(CtdHistory(h)))
  {
    hide CtdBody, CounterHolds, CtdStep, FeedCounter;
    if h != [] {
      var before, x := h[..|h| - 1], h[|h| - 1];
      CtdScansFollow(p, limit, v, s, before);
      CtdScan(p, limit, v, CtdScans(p, limit, v, s, before).value, CtdHistory(before), x);
    }
  }

  // ---- The library meets the binder's requirements ----

  lemma NamesArePlain()
    ensures Plain("IN") && Plain("PT") && Plain("Q") && Plain("ET") && Plain("System.CycleTime")
    ensures Plain("CU") && Plain("R") && Plain("PV") && Plain("CV") && Plain("M") && Plain("CD") && Plain("LD")
  {
  }

  lemma WhenParsed(c: Expr, body: seq<Stmt>, els: seq<Stmt>)
    requires ExprPlain(c) && BlockParsed(body) && BlockParsed(els)
    ensures StmtParsed(When(c, body, els)) && BlockParsed([When(c, body, els)])
  {
  }

  lemma AssignParsed(name: string, id: nat, e: Expr)
    requires Plain(name) && ExprPlain(e)
    ensures StmtParsed(Assign(name, id, e)) && BlockParsed([Assign(name, id, e)])
  {
  }

  lemma TwoParsed(a: Stmt, b: Stmt)
    requires StmtParsed(a) && StmtParsed(b)
    ensures BlockParsed([a, b])
  {
  }

  lemma TimingParsed(v: Pins, judge: Stmt)
    requires StmtParsed(judge)
    ensures BlockParsed([AddCycle(v), CapEt(v), judge])
  {
    NamesArePlain();
    AssignParsed("ET", v.out, AddCycle(v).value);
    AssignParsed("ET", v.out, Identifier("PT", v.in2));
    WhenParsed(CapEt(v).branches[0].condition, [Assign("ET", v.out, Identifier("PT", v.in2))], []);
  }

  lemma TonIsParsed(v: Pins)
    ensures BlockParsed(TonBody(v))
  {
    NamesArePlain();
    var on, off, clear := Assign("Q", v.q, Truth(true)), Assign("Q", v.q, Truth(false)), Assign("ET", v.out, Literal(VTime(0)));
    AssignParsed("Q", v.q, Truth(true));
    AssignParsed("Q", v.q, Truth(false));
    AssignParsed("ET", v.out, Literal(VTime(0)));
    WhenParsed(Elapsed(v), [on], [off]);
    TimingParsed(v, When(Elapsed(v), [on], [off]));
    TwoParsed(clear, off);
    WhenParsed(Identifier("IN", v.in1), [AddCycle(v), CapEt(v), When(Elapsed(v), [on], [off])], [clear, off]);
  }

  lemma TofIsParsed(v: Pins)
    ensures BlockParsed(TofBody(v))
  {
    NamesArePlain();
    var on, off, clear := Assign("Q", v.q, Truth(true)), Assign("Q", v.q, Truth(false)), Assign("ET", v.out, Literal(VTime(0)));
    AssignParsed("Q", v.q, Truth(true));
    AssignParsed("Q", v.q, Truth(false));
    AssignParsed("ET", v.out, Literal(VTime(0)));
    WhenParsed(Elapsed(v), [off], []);
    var timing := [AddCycle(v), CapEt(v), When(Elapsed(v), [off], [])];
    TimingParsed(v, timing[2]);
    WhenParsed(Identifier("Q", v.q), timing, []);
    TwoParsed(on, clear);
    WhenParsed(Identifier("IN", v.in1), [on, clear], [When(Identifier("Q", v.q), timing, [])]);
  }

  lemma CompareIsParsed(v: Pins, op: BinaryOp, limit: Expr)
    requires ExprPlain(limit)
    ensures StmtParsed(Compare(v, op, limit))
  {
    NamesArePlain();
    AssignParsed("Q", v.q, Truth(true));
    AssignParsed("Q", v.q, Truth(false));
    WhenParsed(Binary(op, Identifier("CV", v.out), limit), [Assign("Q", v.q, Truth(true))], [Assign("Q", v.q, Truth(false))]);
  }

  // set: CV := e; M := FALSE, else: IF edge THEN body END_IF; M := input
  lemma CountingIsParsed(v: Pins, set_: string, e: Expr, input: string, body: seq<Stmt>)
    requires Plain(set_) && ExprPlain(e) && Plain(input) && BlockParsed(body)
    ensures StmtParsed(When(Identifier(set_, v.in2), [Assign("CV", v.out, e), Assign("M", v.m, Truth(false))],
                            [When(Edge(input, v), body, []), Assign("M", v.m, Identifier(input, v.in1))]))
  {
    NamesArePlain();
    AssignParsed("CV", v.out, e);
    AssignParsed("M", v.m, Truth(false));
    AssignParsed("M", v.m, Identifier(input, v.in1));
    WhenParsed(Edge(input, v), body, []);
    TwoParsed(Assign("CV", v.out, e), Assign("M", v.m, Truth(false)));
    TwoParsed(When(Edge(input, v), body, []), Assign("M", v.m, Identifier(input, v.in1)));
  }

  lemma CountersAreParsed(v: Pins)
    ensures BlockParsed(CtuBody(v)) && BlockParsed(CtdBody(v))
  {
    NamesArePlain();
    var up := Binary(Add, Identifier("CV", v.out), Literal(VDInt(1)));
    var down := Binary(Sub, Identifier("CV", v.out), Literal(VDInt(1)));
    var positive := Binary(Gt, Identifier("CV", v.out), Literal(VDInt(0)));
    AssignParsed("CV", v.out, up);
    AssignParsed("CV", v.out, down);
    WhenParsed(positive, [Assign("CV", v.out, down)], []);
    CountingIsParsed(v, "R", Literal(VDInt(0)), "CU", [Assign("CV", v.out, up)]);
    CountingIsParsed(v, "LD", Identifier("PV", v.in3), "CD", [When(positive, [Assign("CV", v.out, down)], [])]);
    CompareIsParsed(v, Ge, Identifier("PV", v.in3));
    CompareIsParsed(v, Le, Literal(VDInt(0)));
    TwoParsed(CtuBody(v)[0], CtuBody(v)[1]);
    TwoParsed(CtdBody(v)[0], CtdBody(v)[1]);
  }

  lemma DeclsAreParsed()
    ensures DeclsParsed(TimerDecls()) && DeclsParsed(CounterDecls("CU", "R")) && DeclsParsed(CounterDecls("CD", "LD"))
  {
    NamesArePlain();
  }

  // A program and the library together are what the binder expects.
  lemma LibraryIsParsed()
    ensures forall pou | pou in LIBRARY :: PouParsed(pou)
  {
    TonIsParsed(UNBOUND);
    TofIsParsed(UNBOUND);
    CountersAreParsed(UNBOUND);
    DeclsAreParsed();
    assert PouParsed(TON) && PouParsed(TOF) && PouParsed(CTU) && PouParsed(CTD);
  }
}

// Calls of a bound timer or counter anywhere in a program: each call takes one step of
// the history whose law StandardFbs states, whatever happens between the calls.

module InstanceCalls {
  import opened Values
  import opened Ast
  import opened Interpreter
  import opened Codegen
  import opened TypeSoundness
  import opened ArgumentOrder
  import opened BoundUnit
  import opened Faithful
  import opened StandardFbs
  import opened Instances

  // A call statement of the program body (limit is the number of frames) or of a frame
  // (limit is its index), and the source it was bound from.
  datatype CallSite = CallSite(at: Site, src: Stmt, st: Stmt, limit: nat)

  // It calls frame f, an instance of this block.
  ghost predicate CallOf(p: Program, e: Env, f: nat, block: Pou, c: CallSite) {
    && InstanceOf(p, e, f, block) && c.st.Call? && c.st.frameIndex == f < c.limit
    && StmtBinds(e, c.at, c.src, c.st) && StmtAccepted(p.types, c.st)
  }

  // ---- What a call does around the body ----

  lemma ResetDeclared(p: Program, e: Env, f: nat, block: Pou, r: TempReset) returns (d: VarDecl)
    requires InstanceOf(p, e, f, block) && r in e.frames[f].tempResets
    ensures d in block.varDecls && IsReset(block, d)
  {
    assert FrameFaithful(e, f);
    d :| d in block.varDecls && IsReset(block, d);
  }

  lemma NothingToReset(p: Program, e: Env, f: nat, block: Pou)
    requires InstanceOf(p, e, f, block) && forall d | d in block.varDecls :: !IsReset(block, d)
    ensures f < |p.frames| && p.frames[f].tempResets == []
  {
    hide EnvFaithful, IsReset;
    var resets := e.frames[f].tempResets;
    if |resets| > 0 {
      var d := ResetDeclared(p, e, f, block, resets[0]);
    }
  }

  lemma CallAroundBody(p: Program, e: Env, f: nat, block: Pou, c: CallSite, s: Store)
    requires CallOf(p, e, f, block, c) && WellTyped(p.types, s)
    requires forall d | d in block.varDecls :: !IsReset(block, d)
    ensures f < |p.frames|
    ensures var passed := PassInputs(p.types, c.st.args, s);
      && (passed.Ok? ==> WellTyped(p.types, passed.value))
      && ExecStmt(p, c.limit, c.st, s) ==
         match passed
         case Err(fault) => Err(fault)
         case Ok(u) =>
           match ExecBlock(p, f, p.frames[f].body, u)
           case Err(fault) => Err(fault)
           case Ok(t) => PassOutputs(p.types, c.st.args, t)
  {
    NothingToReset(p, e, f, block);
    InputsSound(p.types, c.st.args, s);
  }

  // ---- Inputs go to inputs ----

  lemma {:induction false} PassedArgument(args: seq<CallArg>, id: nat)
    requires id in Passed(args)
    ensures exists a :: a in args && a.InputArg? && a.paramTagId == id
  {
    if args[0].InputArg? && args[0].paramTagId == id {
      assert args[0] in args;
    } else {
      PassedArgument(args[1..], id);
    }
  }

  // A tag an argument is passed to is the tag of an input of the block.
  lemma ArgumentTag(p: Program, e: Env, f: nat, block: Pou, c: CallSite, id: nat) returns (name: string)
    requires CallOf(p, e, f, block, c) && id in Passed(c.st.args)
    ensures id < |e.names| && e.names[id] == Prefixed(e.frames[f].scopeName, name)
    ensures exists d :: d in block.varDecls && d.name == name && d.kind == VarInput
  {
    PassedArgument(c.st.args, id);
    var a :| a in c.st.args && a.InputArg? && a.paramTagId == id;
    var i :| 0 <= i < |c.st.args| && c.st.args[i] == a;
    assert ArgBinds(e, c.at, f, c.src.args[i], c.st.args[i]);
    name := a.paramName;
  }

  // No argument is passed to a variable that is no input.
  lemma NotPassed(p: Program, e: Env, f: nat, block: Pou, c: CallSite, name: string)
    requires CallOf(p, e, f, block, c)
    requires name in e.info[f].scope && forall d | d in block.varDecls && d.name == name :: d.kind != VarInput
    ensures e.info[f].scope[name] !in Passed(c.st.args)
  {
    InstanceIsCopy(p, e, f, block);
    var id := e.info[f].scope[name];
    if id in Passed(c.st.args) {
      var other := ArgumentTag(p, e, f, block, c, id);
      PrefixedInjective(e.frames[f].scopeName, name, other);
    }
  }

  lemma TimerInputIsNotCycleTime(prefix: string, name: string)
    requires name == "IN" || name == "PT"
    ensures Prefixed(prefix, name) != "System.CycleTime"
  {
    var full := Prefixed(prefix, name);
    assert full[|full| - 1] == name[|name| - 1];
  }

  lemma CycleTimeNotPassed(p: Program, e: Env, f: nat, block: Pou, c: CallSite)
    requires CallOf(p, e, f, block, c) && block.varDecls == TimerDecls()
    ensures 0 !in Passed(c.st.args)
  {
    TimerInputIsNotCycleTime(e.frames[f].scopeName, "IN");
    TimerInputIsNotCycleTime(e.frames[f].scopeName, "PT");
    if 0 in Passed(c.st.args) {
      var name := ArgumentTag(p, e, f, block, c, 0);
    }
  }

  lemma {:induction false} OutputsKeep(types: seq<TypeId>, args: seq<CallArg>, s: Store, id: nat)
    requires id < |s| && PassOutputs(types, args, s).Ok?
    requires forall a | a in args && a.OutputArg? :: a.outputTargetId != id
    ensures id < |PassOutputs(types, args, s).value| && PassOutputs(types, args, s).value[id] == s[id]
  {
    if args != [] {
      assert args[0] in args;
      match args[0]
      case InputArg(_, _, _) => OutputsKeep(types, args[1..], s, id);
      case OutputArg(_, _, param, target) => OutputsKeep(types, args[1..], StoreCoerced(types, s, target, s[param]).value, id);
    }
  }

  // ---- One call of a timer ----

  // What a tag holds, where it has that type.
  function BoolOf(s: Store, id: nat): bool { id < |s| && s[id] == VBool(true) }

  function TimeOf(s: Store, id: nat): i64 { if id < |s| && s[id].VTime? then s[id].ms else 0 }

  function DIntOf(s: Store, id: nat): i32 { if id < |s| && s[id].VDInt? then s[id].int32 else 0 }

  function TimerAt(v: Pins, s: Store): Timer { Timer(BoolOf(s, v.q), TimeOf(s, v.out)) }

  // The pins of a timer: distinct typed tags.
  predicate TimerTyped(p: Program, v: Pins) {
    && v.in1 < |p.types| && v.in2 < |p.types| && v.q < |p.types| && v.out < |p.types| && v.cycleTime < |p.types|
    && p.types[v.in1] == Bool && p.types[v.in2] == Time && p.types[v.q] == Bool && p.types[v.out] == Time && p.types[v.cycleTime] == Time
    && v.q != v.out && v.q !in {v.in1, v.in2, v.cycleTime} && v.out !in {v.in1, v.in2, v.cycleTime}
  }

  lemma TimerIsTyped(p: Program, e: Env, f: nat, block: Pou)
    requires InstanceOf(p, e, f, block) && block.varDecls == TimerDecls() && |p.types| > 0 && p.types[0] == Time
    ensures var scope := e.info[f].scope;
      "IN" in scope && "PT" in scope && "Q" in scope && "ET" in scope && TimerTyped(p, TimerPins(scope))
  {
    var ds := TimerDecls();
    assert ds[0] in ds && ds[1] in ds;
    TimerInstance(p, e, f, block);
    DeclaredMember(p, e, f, block, ds[0]);
    DeclaredMember(p, e, f, block, ds[1]);
    hide InstanceOf, TimerNamed, Denotes;
  }

  lemma TimerStateNotPassed(p: Program, e: Env, f: nat, block: Pou, c: CallSite)
    requires CallOf(p, e, f, block, c) && block.varDecls == TimerDecls()
    requires "Q" in e.info[f].scope && "ET" in e.info[f].scope
    ensures e.info[f].scope["Q"] !in Passed(c.st.args) && e.info[f].scope["ET"] !in Passed(c.st.args) && 0 !in Passed(c.st.args)
  {
    NotPassed(p, e, f, block, c, "Q");
    NotPassed(p, e, f, block, c, "ET");
    CycleTimeNotPassed(p, e, f, block, c);
  }

  // Passing its inputs leaves a timer's state, and System.CycleTime, as they were.
  lemma TimerCallPasses(p: Program, e: Env, f: nat, block: Pou, c: CallSite, s: Store)
    requires CallOf(p, e, f, block, c) && block.varDecls == TimerDecls() && |p.types| > 0 && p.types[0] == Time
    requires WellTyped(p.types, s) && PassInputs(p.types, c.st.args, s).Ok?
    ensures var scope, u := e.info[f].scope, PassInputs(p.types, c.st.args, s).value;
      && "IN" in scope && "PT" in scope && "Q" in scope && "ET" in scope && |u| == |s|
      && var v := TimerPins(scope); TimerTyped(p, v) && u[v.q] == s[v.q] && u[v.out] == s[v.out] && u[v.cycleTime] == s[v.cycleTime]
  {
    TimerIsTyped(p, e, f, block);
    TimerStateNotPassed(p, e, f, block, c);
    hide CallOf, InstanceOf, PassInputs, Passed;
    var v := TimerPins(e.info[f].scope);
    PassKeeps(p.types, c.st.args, s, v.q);
    PassKeeps(p.types, c.st.args, s, v.out);
    PassKeeps(p.types, c.st.args, s, 0);
  }

  // ---- Any number of calls ----

  predicate TimerVars(scope: map<string, nat>) {
    "IN" in scope && "PT" in scope && "Q" in scope && "ET" in scope
  }

  // One call from store s that ends normally, with PT passed or kept at pt, and the store
  // at the next call, or any later one, before which nothing else has written Q or ET.
  predicate TimerCalled(p: Program, v: Pins, c: CallSite, pt: i64, x: TimerScan, s: Store, next: Store) {
    && TimerTyped(p, v) && WellTyped(p.types, s) && WellTyped(p.types, next) && c.st.Call?
    && x.dt <= TIME_MAX && s[v.cycleTime] == VTime(x.dt)
    && OutputsElsewhere(c.st.args, {v.q, v.out})
    && var passed := PassInputs(p.types, c.st.args, s);
       var r := ExecStmt(p, c.limit, c.st, s);
       && passed.Ok? && |passed.value| == |s| && passed.value[v.in1] == VBool(x.on) && passed.value[v.in2] == VTime(pt)
       && r.Ok? && |r.value| == |p.types| && next[v.q] == r.value[v.q] && next[v.out] == r.value[v.out]
  }

  // Calls from any sites, starting from Q off and ET at 0.
  predicate TimerCalls(p: Program, v: Pins, cs: seq<CallSite>, pt: i64, h: seq<TimerScan>, stores: seq<Store>) {
    && |cs| == |h| && |stores| == |h| + 1 && TimerTyped(p, v)
    && WellTyped(p.types, stores[0]) && TimerAt(v, stores[0]) == Timer(false, 0)
    && (forall i | 0 <= i < |stores| :: WellTyped(p.types, stores[i]))
    && forall i | 0 <= i < |h| :: TimerCalled(p, v, cs[i], pt, h[i], stores[i], stores[i + 1])
  }

  lemma EarlierCalls(p: Program, v: Pins, cs: seq<CallSite>, pt: i64, h: seq<TimerScan>, stores: seq<Store>)
    requires TimerCalls(p, v, cs, pt, h, stores) && h != []
    ensures var n := |h| - 1; TimerCalls(p, v, cs[..n], pt, h[..n], stores[..n + 1]) && stores[..n + 1][n] == stores[n]
  {
    var n := |h| - 1;
    forall i | 0 <= i < n ensures TimerCalled(p, v, cs[..n][i], pt, h[..n][i], stores[..n + 1][i], stores[..n + 1][i + 1]) {
      assert TimerCalled(p, v, cs[i], pt, h[i], stores[i], stores[i + 1]);
    }
  }

  predicate OutputsElsewhere(args: seq<CallArg>, tags: set<nat>) {
    forall a | a in args && a.OutputArg? :: a.outputTargetId !in tags
  }

  // A step's result is what the outputs of its call leave in Q and ET.
  lemma OutputsKeepTimer(p: Program, v: Pins, args: seq<CallArg>, u: Store, t: Timer)
    requires TimerTyped(p, v) && WellTyped(p.types, u) && PassOutputs(p.types, args, TimerStore(v, u, t)).Ok?
    requires OutputsElsewhere(args, {v.q, v.out})
    ensures var r := PassOutputs(p.types, args, TimerStore(v, u, t)).value;
      |r| > v.q && |r| > v.out && r[v.q] == VBool(t.q) && r[v.out] == VTime(t.et)
  {
    OutputsKeep(p.types, args, TimerStore(v, u, t), v.q);
    OutputsKeep(p.types, args, TimerStore(v, u, t), v.out);
  }

  lemma TimerStepStored(p: Program, v: Pins, args: seq<CallArg>, u: Store, step: Option<Timer>, r: Result<Store>, next: Store)
    requires TimerTyped(p, v) && WellTyped(p.types, u) && OutputsElsewhere(args, {v.q, v.out})
    requires r == match step { case None => Err(Overflow) case Some(t) => PassOutputs(p.types, args, TimerStore(v, u, t)) }
    requires r.Ok? && |r.value| == |p.types| && WellTyped(p.types, next) && next[v.q] == r.value[v.q] && next[v.out] == r.value[v.out]
    ensures step == Some(TimerAt(v, next))
  {
    hide PassOutputs, OutputsElsewhere, TimerStore;
    OutputsKeepTimer(p, v, args, u, step.value);
  }

  lemma TimerIsReady(p: Program, v: Pins, s: Store, u: Store)
    requires TimerTyped(p, v) && WellTyped(p.types, s) && WellTyped(p.types, u)
    requires u[v.q] == s[v.q] && u[v.out] == s[v.out] && u[v.cycleTime] == s[v.cycleTime]
    ensures TimerReady(p, v, u, TimerAt(v, s), BoolOf(u, v.in1), TimeOf(u, v.in2), TimeOf(s, v.cycleTime))
  {
  }

  // A call of an instance of TON passes its inputs, takes one TonStep over the current
  // System.CycleTime and passes its outputs on.
  lemma TonCall(p: Program, e: Env, f: nat, c: CallSite, s: Store)
    requires CallOf(p, e, f, TON, c) && |p.types| > 0 && p.types[0] == Time
    requires WellTyped(p.types, s) && PassInputs(p.types, c.st.args, s).Ok?
    ensures var scope, u := e.info[f].scope, PassInputs(p.types, c.st.args, s).value;
      && "IN" in scope && "PT" in scope && "Q" in scope && "ET" in scope
      && var v := TimerPins(scope);
         && TimerTyped(p, v) && WellTyped(p.types, u)
         && ExecStmt(p, c.limit, c.st, s) ==
            match TonStep(TimerAt(v, s), BoolOf(u, v.in1), TimeOf(u, v.in2), TimeOf(s, v.cycleTime))
            case None => Err(Overflow)
            case Some(t) => PassOutputs(p.types, c.st.args, TimerStore(v, u, t))
  {
    CallAroundBody(p, e, f, TON, c, s);
    TimerCallPasses(p, e, f, TON, c, s);
    TonInstance(p, e, f, f, 0, []);
    var v, u := TimerPins(e.info[f].scope), PassInputs(p.types, c.st.args, s).value;
    hide CallOf, InstanceOf, PassInputs, PassOutputs, TimerHolds, TimerReady, TimerStore, TonBody, TonStep;
    TimerIsReady(p, v, s, u);
    TonRuns(p, f, v, u, TimerAt(v, s), BoolOf(u, v.in1), TimeOf(u, v.in2), TimeOf(s, v.cycleTime));
  }

  lemma TonCallSteps(p: Program, e: Env, f: nat, c: CallSite, pt: i64, x: TimerScan, s: Store, next: Store)
    requires CallOf(p, e, f, TON, c) && |p.types| > 0 && p.types[0] == Time && TimerVars(e.info[f].scope)
    requires TimerCalled(p, TimerPins(e.info[f].scope), c, pt, x, s, next)
    ensures var v := TimerPins(e.info[f].scope); TonStep(TimerAt(v, s), x.on, pt, x.dt) == Some(TimerAt(v, next))
  {
    TonCall(p, e, f, c, s);
    hide CallOf, InstanceOf, TonStep, PassInputs, PassOutputs, ExecStmt, TimerStore, OutputsElsewhere, TimerTyped, WellTyped;
    var v, u := TimerPins(e.info[f].scope), PassInputs(p.types, c.st.args, s).value;
    TimerStepStored(p, v, c.st.args, u, TonStep(TimerAt(v, s), x.on, pt, x.dt), ExecStmt(p, c.limit, c.st, s), next);
  }

  // Whatever happens between the calls, as long as nothing else writes its Q and ET, a
  // bound instance of TON follows the history of its inputs; TonLaw says what that means.
  lemma {:induction false} TonCallsFollow(p: Program, e: Env, f: nat, cs: seq<CallSite>, pt: i64, h: seq<TimerScan>, stores: seq<Store>)
    requires InstanceOf(p, e, f, TON) && |p.types| > 0 && p.types[0] == Time && TimerVars(e.info[f].scope)
    requires forall c | c in cs :: CallOf(p, e, f, TON, c)
    requires TimerCalls(p, TimerPins(e.info[f].scope), cs, pt, h, stores)
    ensures TonHistory(pt, h) == Some(TimerAt(TimerPins(e.info[f].scope), stores[|h|]))
    decreases |h|
  {
    var v, n := TimerPins(e.info[f].scope), |h|;
    if n > 0 {
      hide CallOf, InstanceOf, TonStep, TimerTyped;
      EarlierCalls(p, v, cs, pt, h, stores);
      TonCallsFollow(p, e, f, cs[..n - 1], pt, h[..n - 1], stores[..n]);
      assert cs[n - 1] in cs && TimerCalled(p, v, cs[n - 1], pt, h[n - 1], stores[n - 1], stores[n]);
      TonCallSteps(p, e, f, cs[n - 1], pt, h[n - 1], stores[n - 1], stores[n]);
    }
  }

  // A call of an instance of TOF passes its inputs, takes one TofStep over the current
  // System.CycleTime and passes its outputs on.
  lemma TofCall(p: Program, e: Env, f: nat, c: CallSite, s: Store)
    requires CallOf(p, e, f, TOF, c) && |p.types| > 0 && p.types[0] == Time
    requires WellTyped(p.types, s) && PassInputs(p.types, c.st.args, s).Ok?
    ensures var scope, u := e.info[f].scope, PassInputs(p.types, c.st.args, s).value;
      && "IN" in scope && "PT" in scope && "Q" in scope && "ET" in scope
      && var v := TimerPins(scope);
         && TimerTyped(p, v) && WellTyped(p.types, u)
         && ExecStmt(p, c.limit, c.st, s) ==
            match TofStep(TimerAt(v, s), BoolOf(u, v.in1), TimeOf(u, v.in2), TimeOf(s, v.cycleTime))
            case None => Err(Overflow)
            case Some(t) => PassOutputs(p.types, c.st.args, TimerStore(v, u, t))
  {
    CallAroundBody(p, e, f, TOF, c, s);
    TimerCallPasses(p, e, f, TOF, c, s);
    TofInstance(p, e, f, f, 0, []);
    var v, u := TimerPins(e.info[f].scope), PassInputs(p.types, c.st.args, s).value;
    hide CallOf, InstanceOf, PassInputs, PassOutputs, TimerHolds, TimerReady, TimerStore, TofBody, TofStep;
    TimerIsReady(p, v, s, u);
    TofRuns(p, f, v, u, TimerAt(v, s), BoolOf(u, v.in1), TimeOf(u, v.in2), TimeOf(s, v.cycleTime));
  }

  lemma TofCallSteps(p: Program, e: Env, f: nat, c: CallSite, pt: i64, x: TimerScan, s: Store, next: Store)
    requires CallOf(p, e, f, TOF, c) && |p.types| > 0 && p.types[0] == Time && TimerVars(e.info[f].scope)
    requires TimerCalled(p, TimerPins(e.info[f].scope), c, pt, x, s, next)
    ensures var v := TimerPins(e.info[f].scope); TofStep(TimerAt(v, s), x.on, pt, x.dt) == Some(TimerAt(v, next))
  {
    TofCall(p, e, f, c, s);
    hide CallOf, InstanceOf, TofStep, PassInputs, PassOutputs, ExecStmt, TimerStore, OutputsElsewhere, TimerTyped, WellTyped;
    var v, u := TimerPins(e.info[f].scope), PassInputs(p.types, c.st.args, s).value;
    TimerStepStored(p, v, c.st.args, u, TofStep(TimerAt(v, s), x.on, pt, x.dt), ExecStmt(p, c.limit, c.st, s), next);
  }

  // Whatever happens between the calls, as long as nothing else writes its Q and ET, a
  // bound instance of TOF follows the history of its inputs; TofLaw says what that means.
  lemma {:induction false} TofCallsFollow(p: Program, e: Env, f: nat, cs: seq<CallSite>, pt: i64, h: seq<TimerScan>, stores: seq<Store>)
    requires InstanceOf(p, e, f, TOF) && |p.types| > 0 && p.types[0] == Time && TimerVars(e.info[f].scope)
    requires forall c | c in cs :: CallOf(p, e, f, TOF, c)
    requires TimerCalls(p, TimerPins(e.info[f].scope), cs, pt, h, stores)
    ensures TofHistory(pt, h) == Some(TimerAt(TimerPins(e.info[f].scope), stores[|h|]))
    decreases |h|
  {
    var v, n := TimerPins(e.info[f].scope), |h|;
    if n > 0 {
      hide CallOf, InstanceOf, TofStep, TimerTyped;
      EarlierCalls(p, v, cs, pt, h, stores);
      TofCallsFollow(p, e, f, cs[..n - 1], pt, h[..n - 1], stores[..n]);
      assert cs[n - 1] in cs && TimerCalled(p, v, cs[n - 1], pt, h[n - 1], stores[n - 1], stores[n]);
      TofCallSteps(p, e, f, cs[n - 1], pt, h[n - 1], stores[n - 1], stores[n]);
    }
  }

  // ---- Counters ----

  predicate CounterVars(scope: map<string, nat>, input: string, set_: string) {
    input in scope && set_ in scope && "PV" in scope && "Q" in scope && "CV" in scope && "M" in scope
  }

  predicate CounterNames(input: string, set_: string) {
    (input == "CU" && set_ == "R") || (input == "CD" && set_ == "LD")
  }

  function CounterAt(v: Pins, s: Store): Counter { Counter(BoolOf(s, v.q), DIntOf(s, v.out), BoolOf(s, v.m)) }

  // The pins of a counter: distinct typed tags.
  predicate CounterTyped(p: Program, v: Pins) {
    && v.in1 < |p.types| && v.in2 < |p.types| && v.in3 < |p.types| && v.q < |p.types| && v.out < |p.types| && v.m < |p.types|
    && p.types[v.in1] == Bool && p.types[v.in2] == Bool && p.types[v.in3] == DInt
    && p.types[v.q] == Bool && p.types[v.out] == DInt && p.types[v.m] == Bool
    && v.q != v.out && v.q != v.m && v.out != v.m
    && v.q !in {v.in1, v.in2, v.in3} && v.out !in {v.in1, v.in2, v.in3} && v.m !in {v.in1, v.in2, v.in3}
  }

  lemma CounterVariables(input: string, set_: string)
    requires CounterNames(input, set_)
    ensures var ds := CounterDecls(input, set_);
      && StandardFbs.Declared(input, VarInput, Bool) in ds && StandardFbs.Declared(set_, VarInput, Bool) in ds
      && StandardFbs.Declared("PV", VarInput, DInt) in ds
      && forall d | d in ds && d.name in {"Q", "CV", "M"} :: d.kind != VarInput
  {
    var ds := CounterDecls(input, set_);
    assert ds[0] in ds && ds[1] in ds && ds[2] in ds;
  }

  lemma CounterIsTyped(p: Program, e: Env, f: nat, block: Pou, input: string, set_: string)
    requires InstanceOf(p, e, f, block) && block.varDecls == CounterDecls(input, set_) && CounterNames(input, set_)
    ensures CounterVars(e.info[f].scope, input, set_) && CounterTyped(p, CounterPins(e.info[f].scope, input, set_))
  {
    var at := SiteOf(e.frames[f], e.info[f]);
    hide InstanceOf, CounterNamed, CounterHolds, CounterDecls, CounterTyped, Member;
    CounterVariables(input, set_);
    CounterInstance(p, e, f, block, input, set_);
    DeclaredMember(p, e, f, block, StandardFbs.Declared(input, VarInput, Bool));
    DeclaredMember(p, e, f, block, StandardFbs.Declared(set_, VarInput, Bool));
    DeclaredMember(p, e, f, block, StandardFbs.Declared("PV", VarInput, DInt));
    MembersAreTyped(p, e, at, input, set_);
  }

  lemma MembersAreTyped(p: Program, e: Env, at: Site, input: string, set_: string)
    requires CounterVars(at.scope, input, set_) && Member(p, e, at, input, Bool) && Member(p, e, at, set_, Bool) && Member(p, e, at, "PV", DInt)
    requires CounterHolds(p, CounterPins(at.scope, input, set_), p.initials, Counter(false, 0, false))
    ensures CounterTyped(p, CounterPins(at.scope, input, set_))
  {
    hide Denotes;
  }

  lemma CounterStateNotPassed(p: Program, e: Env, f: nat, block: Pou, c: CallSite, input: string, set_: string)
    requires CallOf(p, e, f, block, c) && block.varDecls == CounterDecls(input, set_) && CounterNames(input, set_)
    requires CounterVars(e.info[f].scope, input, set_)
    ensures var v := CounterPins(e.info[f].scope, input, set_); {v.q, v.out, v.m} !! Passed(c.st.args)
  {
    hide CounterDecls, CallOf;
    CounterVariables(input, set_);
    NotPassed(p, e, f, block, c, "Q");
    NotPassed(p, e, f, block, c, "CV");
    NotPassed(p, e, f, block, c, "M");
  }

  // Passing its inputs leaves a counter's state as it was.
  lemma CounterCallPasses(p: Program, e: Env, f: nat, block: Pou, c: CallSite, input: string, set_: string, s: Store)
    requires CallOf(p, e, f, block, c) && block.varDecls == CounterDecls(input, set_) && CounterNames(input, set_)
    requires WellTyped(p.types, s) && PassInputs(p.types, c.st.args, s).Ok?
    ensures var scope, u := e.info[f].scope, PassInputs(p.types, c.st.args, s).value;
      && CounterVars(scope, input, set_) && |u| == |s|
      && var v := CounterPins(scope, input, set_);
         CounterTyped(p, v) && u[v.q] == s[v.q] && u[v.out] == s[v.out] && u[v.m] == s[v.m]
  {
    CounterIsTyped(p, e, f, block, input, set_);
    CounterStateNotPassed(p, e, f, block, c, input, set_);
    hide CallOf, InstanceOf, PassInputs, Passed, CounterDecls;
    var v := CounterPins(e.info[f].scope, input, set_);
    PassKeeps(p.types, c.st.args, s, v.q);
    PassKeeps(p.types, c.st.args, s, v.out);
    PassKeeps(p.types, c.st.args, s, v.m);
  }

  lemma CounterStepStored(p: Program, v: Pins, args: seq<CallArg>, u: Store, step: Option<Counter>, r: Result<Store>, next: Store)
    requires CounterTyped(p, v) && WellTyped(p.types, u) && OutputsElsewhere(args, {v.q, v.out, v.m})
    requires r == match step { case None => Err(Overflow) case Some(n) => PassOutputs(p.types, args, CounterStore(v, u, n)) }
    requires r.Ok? && |r.value| == |p.types| && WellTyped(p.types, next)
    requires next[v.q] == r.value[v.q] && next[v.out] == r.value[v.out] && next[v.m] == r.value[v.m]
    ensures step == Some(CounterAt(v, next))
  {
    hide PassOutputs, OutputsElsewhere, CounterStore;
    OutputsKeepCounter(p, v, args, u, step.value);
  }

  lemma CounterIsReady(p: Program, v: Pins, s: Store, u: Store)
    requires CounterTyped(p, v) && WellTyped(p.types, s) && WellTyped(p.types, u)
    requires u[v.q] == s[v.q] && u[v.out] == s[v.out] && u[v.m] == s[v.m]
    ensures CounterReady(p, v, u, CounterAt(v, s), BoolOf(u, v.in1), BoolOf(u, v.in2), DIntOf(u, v.in3))
  {
  }

  lemma OutputsKeepCounter(p: Program, v: Pins, args: seq<CallArg>, u: Store, n: Counter)
    requires CounterTyped(p, v) && WellTyped(p.types, u) && PassOutputs(p.types, args, CounterStore(v, u, n)).Ok?
    requires OutputsElsewhere(args, {v.q, v.out, v.m})
    ensures var r := PassOutputs(p.types, args, CounterStore(v, u, n)).value;
      |r| > v.q && |r| > v.out && |r| > v.m && r[v.q] == VBool(n.q) && r[v.out] == VDInt(n.cv) && r[v.m] == VBool(n.m)
  {
    OutputsKeep(p.types, args, CounterStore(v, u, n), v.q);
    OutputsKeep(p.types, args, CounterStore(v, u, n), v.out);
    OutputsKeep(p.types, args, CounterStore(v, u, n), v.m);
  }

  // One call from store s that ends normally with these inputs, and a later store before
  // which nothing else has written Q, CV or M.
  predicate CounterCalled(p: Program, v: Pins, c: CallSite, x: CounterScan, s: Store, next: Store) {
    && CounterTyped(p, v) && WellTyped(p.types, s) && WellTyped(p.types, next) && c.st.Call?
    && OutputsElsewhere(c.st.args, {v.q, v.out, v.m})
    && var passed := PassInputs(p.types, c.st.args, s);
       var r := ExecStmt(p, c.limit, c.st, s);
       && passed.Ok? && |passed.value| == |s|
       && passed.value[v.in1] == VBool(x.input) && passed.value[v.in2] == VBool(x.set_) && passed.value[v.in3] == VDInt(x.pv)
       && r.Ok? && |r.value| == |p.types| && next[v.q] == r.value[v.q] && next[v.out] == r.value[v.out] && next[v.m] == r.value[v.m]
  }

  predicate CounterCalls(p: Program, v: Pins, cs: seq<CallSite>, h: seq<CounterScan>, stores: seq<Store>) {
    && |cs| == |h| && |stores| == |h| + 1 && CounterTyped(p, v)
    && WellTyped(p.types, stores[0]) && CounterAt(v, stores[0]) == Counter(false, 0, false)
    && (forall i | 0 <= i < |stores| :: WellTyped(p.types, stores[i]))
    && forall i | 0 <= i < |h| :: CounterCalled(p, v, cs[i], h[i], stores[i], stores[i + 1])
  }

  lemma EarlierCounts(p: Program, v: Pins, cs: seq<CallSite>, h: seq<CounterScan>, stores: seq<Store>)
    requires CounterCalls(p, v, cs, h, stores) && h != []
    ensures var n := |h| - 1; CounterCalls(p, v, cs[..n], h[..n], stores[..n + 1]) && stores[..n + 1][n] == stores[n]
  {
    var n := |h| - 1;
    forall i | 0 <= i < n ensures CounterCalled(p, v, cs[..n][i], h[..n][i], stores[..n + 1][i], stores[..n + 1][i + 1]) {
      assert CounterCalled(p, v, cs[i], h[i], stores[i], stores[i + 1]);
    }
  }

  // A call of an instance of CTU passes its inputs, takes one CtuStep and passes its
  // outputs on.
  lemma CtuCall(p: Program, e: Env, f: nat, c: CallSite, s: Store)
    requires CallOf(p, e, f, CTU, c) && WellTyped(p.types, s) && PassInputs(p.types, c.st.args, s).Ok?
    ensures var scope, u := e.info[f].scope, PassInputs(p.types, c.st.args, s).value;
      && CounterVars(scope, "CU", "R")
      && var v := CounterPins(scope, "CU", "R");
         && CounterTyped(p, v) && WellTyped(p.types, u)
         && ExecStmt(p, c.limit, c.st, s) ==
            match CtuStep(CounterAt(v, s), BoolOf(u, v.in1), BoolOf(u, v.in2), DIntOf(u, v.in3))
            case None => Err(Overflow)
            case Some(n) => PassOutputs(p.types, c.st.args, CounterStore(v, u, n))
  {
    CallAroundBody(p, e, f, CTU, c, s);
    CounterCallPasses(p, e, f, CTU, c, "CU", "R", s);
    CtuInstance(p, e, f, f, []);
    var v, u := CounterPins(e.info[f].scope, "CU", "R"), PassInputs(p.types, c.st.args, s).value;
    hide CallOf, InstanceOf, PassInputs, PassOutputs, CounterHolds, CounterReady, CounterStore, CtuBody, CtuStep;
    CounterIsReady(p, v, s, u);
    CtuRuns(p, f, v, u, CounterAt(v, s), BoolOf(u, v.in1), BoolOf(u, v.in2), DIntOf(u, v.in3));
  }

  lemma CtuCallSteps(p: Program, e: Env, f: nat, c: CallSite, x: CounterScan, s: Store, next: Store)
    requires CallOf(p, e, f, CTU, c) && CounterVars(e.info[f].scope, "CU", "R")
    requires CounterCalled(p, CounterPins(e.info[f].scope, "CU", "R"), c, x, s, next)
    ensures var v := CounterPins(e.info[f].scope, "CU", "R");
      CtuStep(CounterAt(v, s), x.input, x.set_, x.pv) == Some(CounterAt(v, next))
  {
    CtuCall(p, e, f, c, s);
    hide CallOf, InstanceOf, CtuStep, PassInputs, PassOutputs, ExecStmt, CounterStore, OutputsElsewhere, CounterTyped, WellTyped;
    var v, u := CounterPins(e.info[f].scope, "CU", "R"), PassInputs(p.types, c.st.args, s).value;
    CounterStepStored(p, v, c.st.args, u, CtuStep(CounterAt(v, s), x.input, x.set_, x.pv), ExecStmt(p, c.limit, c.st, s), next);
  }

  // As long as nothing else writes its Q, CV and M, a bound instance of CTU follows the
  // history of its inputs; CtuLaw says what that means.
  lemma {:induction false} CtuCallsFollow(p: Program, e: Env, f: nat, cs: seq<CallSite>, h: seq<CounterScan>, stores: seq<Store>)
    requires InstanceOf(p, e, f, CTU) && CounterVars(e.info[f].scope, "CU", "R")
    requires forall c | c in cs :: CallOf(p, e, f, CTU, c)
    requires CounterCalls(p, CounterPins(e.info[f].scope, "CU", "R"), cs, h, stores)
    ensures CtuHistory(h) == Some(CounterAt(CounterPins(e.info[f].scope, "CU", "R"), stores[|h|]))
    decreases |h|
  {
    var v, n := CounterPins(e.info[f].scope, "CU", "R"), |h|;
    if n > 0 {
      hide CallOf, InstanceOf, CtuStep, CounterTyped;
      EarlierCounts(p, v, cs, h, stores);
      CtuCallsFollow(p, e, f, cs[..n - 1], h[..n - 1], stores[..n]);
      assert cs[n - 1] in cs && CounterCalled(p, v, cs[n - 1], h[n - 1], stores[n - 1], stores[n]);
      CtuCallSteps(p, e, f, cs[n - 1], h[n - 1], stores[n - 1], stores[n]);
    }
  }

  // A call of an instance of CTD passes its inputs, takes one CtdStep and passes its
  // outputs on.
  lemma CtdCall(p: Program, e: Env, f: nat, c: CallSite, s: Store)
    requires CallOf(p, e, f, CTD, c) && WellTyped(p.types, s) && PassInputs(p.types, c.st.args, s).Ok?
    ensures var scope, u := e.info[f].scope, PassInputs(p.types, c.st.args, s).value;
      && CounterVars(scope, "CD", "LD")
      && var v := CounterPins(scope, "CD", "LD");
         && CounterTyped(p, v) && WellTyped(p.types, u)
         && ExecStmt(p, c.limit, c.st, s) ==
            PassOutputs(p.types, c.st.args, CounterStore(v, u, CtdStep(CounterAt(v, s), BoolOf(u, v.in1), BoolOf(u, v.in2), DIntOf(u, v.in3))))
  {
    CallAroundBody(p, e, f, CTD, c, s);
    CounterCallPasses(p, e, f, CTD, c, "CD", "LD", s);
    CtdInstance(p, e, f, f, []);
    var v, u := CounterPins(e.info[f].scope, "CD", "LD"), PassInputs(p.types, c.st.args, s).value;
    hide CallOf, InstanceOf, PassInputs, PassOutputs, CounterHolds, CounterReady, CounterStore, CtdBody, CtdStep;
    CounterIsReady(p, v, s, u);
    CtdRuns(p, f, v, u, CounterAt(v, s), BoolOf(u, v.in1), BoolOf(u, v.in2), DIntOf(u, v.in3));
  }

  lemma CtdCallSteps(p: Program, e: Env, f: nat, c: CallSite, x: CounterScan, s: Store, next: Store)
    requires CallOf(p, e, f, CTD, c) && CounterVars(e.info[f].scope, "CD", "LD")
    requires CounterCalled(p, CounterPins(e.info[f].scope, "CD", "LD"), c, x, s, next)
    ensures var v := CounterPins(e.info[f].scope, "CD", "LD");
      CtdStep(CounterAt(v, s), x.input, x.set_, x.pv) == CounterAt(v, next)
  {
    CtdCall(p, e, f, c, s);
    hide CallOf, InstanceOf, CtdStep, PassInputs, PassOutputs, ExecStmt, CounterStore, OutputsElsewhere, CounterTyped, WellTyped;
    var v, u := CounterPins(e.info[f].scope, "CD", "LD"), PassInputs(p.types, c.st.args, s).value;
    CounterStepStored(p, v, c.st.args, u, Some(CtdStep(CounterAt(v, s), x.input, x.set_, x.pv)), ExecStmt(p, c.limit, c.st, s), next);
  }

  // As long as nothing else writes its Q, CV and M, a bound instance of CTD follows the
  // history of its inputs; CtdLaw says what that means.
  lemma {:induction false} CtdCallsFollow(p: Program, e: Env, f: nat, cs: seq<CallSite>, h: seq<CounterScan>, stores: seq<Store>)
    requires InstanceOf(p, e, f, CTD) && CounterVars(e.info[f].scope, "CD", "LD")
    requires forall c | c in cs :: CallOf(p, e, f, CTD, c)
    requires CounterCalls(p, CounterPins(e.info[f].scope, "CD", "LD"), cs, h, stores)
    ensures CtdHistory(h) == CounterAt(CounterPins(e.info[f].scope, "CD", "LD"), stores[|h|])
    decreases |h|
  {
    var v, n := CounterPins(e.info[f].scope, "CD", "LD"), |h|;
    if n > 0 {
      hide CallOf, InstanceOf, CtdStep, CounterTyped;
      EarlierCounts(p, v, cs, h, stores);
      CtdCallsFollow(p, e, f, cs[..n - 1], h[..n - 1], stores[..n]);
      assert cs[n - 1] in cs && CounterCalled(p, v, cs[n - 1], h[n - 1], stores[n - 1], stores[n]);
      CtdCallSteps(p, e, f, cs[n - 1], h[n - 1], stores[n - 1], stores[n]);
    }
  }
}

// Storage of bound programs: instances keep to their own tags, and FUNCTION
// calls keep nothing from one call to the next.

module Isolation {
  import opened Values
  import opened Ast
  import opened Interpreter
  import opened Agreement
  import opened Footprint
  import opened BoundUnit

  predicate InSpan(e: Env, f: nat, id: nat)
    requires f < |e.info|
  {
    e.info[f].lo <= id < e.info[f].hi
  }

  function Span(e: Env, f: nat): set<nat>
    requires f < |e.info|
  {
    set id: nat | id < e.info[f].hi && InSpan(e, f, id)
  }

  predicate Nested(e: Env, inner: nat, outer: nat)
    requires inner < |e.info| && outer < |e.info|
  {
    e.info[outer].lo <= e.info[inner].lo && e.info[inner].hi <= e.info[outer].hi
  }

  // Two instances, neither nested in the other, share no tag.
  lemma InstancesOwnDisjointTags(p: Program, e: Env, f: nat, g: nat)
    requires WellBound(p, e) && f < |e.info| && g < |e.info|
    requires !Nested(e, f, g) && !Nested(e, g, f)
    ensures Span(e, f) !! Span(e, g)
  {
    assert FrameGood(e, f) && FrameGood(e, g);
    if f < g { assert SpanPair(e.info, f, g); }
    if g < f { assert SpanPair(e.info, g, f); }
  }

  // ---- Function blocks ----

  // The body, and every body it calls in turn, assigns, drives and binds outputs
  // only to tags of allowed, and calls only instances whose storage lies in it.
  predicate StmtKeepsTo(e: Env, limit: nat, st: Stmt, allowed: set<nat>)
    requires |e.frames| == |e.info|
    decreases limit, st
  {
    match st
    case Assign(_, id, _) => id in allowed
    case If(branches, els) =>
      (forall b | b in branches :: BlockKeepsTo(e, limit, b.body, allowed)) && BlockKeepsTo(e, limit, els, allowed)
    case While(_, body) => BlockKeepsTo(e, limit, body, allowed)
    case Call(_, args, f) =>
      && f < limit && f < |e.frames|
      && Span(e, f) <= allowed
      && (forall a | a in args && a.OutputArg? :: a.outputTargetId in allowed)
      && BlockKeepsTo(e, f, e.frames[f].body, allowed)
    case Rung(_, outs) => forall o | o in outs :: o.targetId in allowed
  }

  predicate BlockKeepsTo(e: Env, limit: nat, ss: seq<Stmt>, allowed: set<nat>)
    requires |e.frames| == |e.info|
    decreases limit, ss
  {
    forall st | st in ss :: StmtKeepsTo(e, limit, st, allowed)
  }

  // Parameters and temporaries of a callee lie in its own storage, so nothing
  // else is written.
  lemma {:induction false} StmtKeepsWrites(p: Program, e: Env, limit: nat, st: Stmt, allowed: set<nat>)
    requires WellBound(p, e) && StmtPasses(e, st) && StmtKeepsTo(e, limit, st, allowed)
    ensures StmtWrites(p, limit, st, allowed)
    decreases limit, st
  {
    match st
    case If(branches, els) =>
      forall b | b in branches ensures BlockWrites(p, limit, b.body, allowed) { BlockKeepsWrites(p, e, limit, b.body, allowed); }
      BlockKeepsWrites(p, e, limit, els, allowed);
    case While(_, body) => BlockKeepsWrites(p, e, limit, body, allowed);
    case Call(_, args, f) =>
      assert FrameGood(e, f);
      BlockKeepsWrites(p, e, f, e.frames[f].body, allowed);
      forall a | a in args && a.InputArg? ensures a.paramTagId in allowed { assert ArgPasses(e, f, a); }
    case _ =>
  }

  lemma {:induction false} BlockKeepsWrites(p: Program, e: Env, limit: nat, ss: seq<Stmt>, allowed: set<nat>)
    requires WellBound(p, e) && BlockPasses(e, ss) && BlockKeepsTo(e, limit, ss, allowed)
    ensures BlockWrites(p, limit, ss, allowed)
    decreases limit, ss
  {
    forall st | st in ss ensures StmtWrites(p, limit, st, allowed) { StmtKeepsWrites(p, e, limit, st, allowed); }
  }

  // Calling an instance whose body keeps to its own storage leaves every tag of
  // every other instance unchanged, save the targets of the call's own outputs.
  lemma InstancesAreIsolated(p: Program, e: Env, limit: nat, st: Stmt, g: nat, s: Store, id: nat)
    requires WellBound(p, e) && st.Call? && StmtPasses(e, st) && StmtBound(p.types, p.frames, limit, st)
    requires BlockKeepsTo(e, st.frameIndex, e.frames[st.frameIndex].body, Span(e, st.frameIndex))
    requires g < |e.info| && !Nested(e, g, st.frameIndex) && !Nested(e, st.frameIndex, g)
    requires ExecStmt(p, limit, st, s).Ok? && |s| == |p.types|
    requires id in Span(e, g) && id !in TargetIds(st.args)
    ensures id < |s| && |ExecStmt(p, limit, st, s).value| == |s| && ExecStmt(p, limit, st, s).value[id] == s[id]
  {
    var f := st.frameIndex;
    var allowed := Span(e, f) + TargetIds(st.args);
    assert FrameGood(e, f) && FrameGood(e, g);
    BlockKeepsToWeaken(e, f, e.frames[f].body, Span(e, f), allowed);
    assert StmtKeepsTo(e, limit, st, allowed);
    StmtKeepsWrites(p, e, limit, st, allowed);
    StmtChangesOnly(p, limit, st, s, allowed);
    InstancesOwnDisjointTags(p, e, f, g);
  }

  lemma {:induction false} BlockKeepsToWeaken(e: Env, limit: nat, ss: seq<Stmt>, allowed: set<nat>, allowed': set<nat>)
    requires |e.frames| == |e.info| && allowed <= allowed' && BlockKeepsTo(e, limit, ss, allowed)
    ensures BlockKeepsTo(e, limit, ss, allowed')
    decreases limit, ss
  {
    forall st | st in ss ensures StmtKeepsTo(e, limit, st, allowed') { StmtKeepsToWeaken(e, limit, st, allowed, allowed'); }
  }

  lemma {:induction false} StmtKeepsToWeaken(e: Env, limit: nat, st: Stmt, allowed: set<nat>, allowed': set<nat>)
    requires |e.frames| == |e.info| && allowed <= allowed' && StmtKeepsTo(e, limit, st, allowed)
    ensures StmtKeepsTo(e, limit, st, allowed')
    decreases limit, st
  {
    match st
    case If(branches, els) =>
      forall b | b in branches ensures BlockKeepsTo(e, limit, b.body, allowed') {
        BlockKeepsToWeaken(e, limit, b.body, allowed, allowed');
      }
      BlockKeepsToWeaken(e, limit, els, allowed, allowed');
    case While(_, body) => BlockKeepsToWeaken(e, limit, body, allowed, allowed');
    case Call(_, _, f) => BlockKeepsToWeaken(e, f, e.frames[f].body, allowed, allowed');
    case _ =>
  }

  // ---- Functions ----

  // Every call the body makes, directly or through what it calls, is to a FUNCTION.
  predicate StmtOnlyFunctions(e: Env, limit: nat, st: Stmt)
    requires |e.frames| == |e.info|
    decreases limit, st
  {
    match st
    case If(branches, els) =>
      (forall b | b in branches :: BlockOnlyFunctions(e, limit, b.body)) && BlockOnlyFunctions(e, limit, els)
    case While(_, body) => BlockOnlyFunctions(e, limit, body)
    case Call(_, _, f) =>
      f < limit && f < |e.frames| && e.info[f].isFunction && BlockOnlyFunctions(e, f, e.frames[f].body)
    case _ => true
  }

  predicate BlockOnlyFunctions(e: Env, limit: nat, ss: seq<Stmt>)
    requires |e.frames| == |e.info|
    decreases limit, ss
  {
    forall st | st in ss :: StmtOnlyFunctions(e, limit, st)
  }

  // The global tags the body and all it calls read are in named, apart from storage a
  // called frame sets up for itself.
  predicate StmtReadsGlobals(e: Env, limit: nat, st: Stmt, named: set<nat>)
    requires |e.frames| == |e.info|
    decreases limit, st
  {
    match st
    case Assign(_, _, x) => ExprReadsGlobals(e, x, named)
    case If(branches, els) =>
      && (forall b | b in branches :: ExprReadsGlobals(e, b.condition, named) && BlockReadsGlobals(e, limit, b.body, named))
      && BlockReadsGlobals(e, limit, els, named)
    case While(c, body) => ExprReadsGlobals(e, c, named) && BlockReadsGlobals(e, limit, body, named)
    case Call(_, args, f) =>
      && (forall a | a in args && a.InputArg? :: ExprReadsGlobals(e, a.inputExpr, named))
      && f < limit && f < |e.frames| && BlockReadsGlobals(e, f, e.frames[f].body, named + e.info[f].own)
    case Rung(c, _) => ExprReadsGlobals(e, c, named)
  }

  predicate BlockReadsGlobals(e: Env, limit: nat, ss: seq<Stmt>, named: set<nat>)
    requires |e.frames| == |e.info|
    decreases limit, ss
  {
    forall st | st in ss :: StmtReadsGlobals(e, limit, st, named)
  }

  predicate ExprReadsGlobals(e: Env, x: Expr, named: set<nat>) {
    Reads(x) * PlainIds(e.names) <= named
  }

  lemma {:induction false} BlockReadsGlobalsWeaken(e: Env, limit: nat, ss: seq<Stmt>, named: set<nat>, named': set<nat>)
    requires |e.frames| == |e.info| && named <= named' && BlockReadsGlobals(e, limit, ss, named)
    ensures BlockReadsGlobals(e, limit, ss, named')
    decreases limit, ss
  {
    forall st | st in ss ensures StmtReadsGlobals(e, limit, st, named') { StmtReadsGlobalsWeaken(e, limit, st, named, named'); }
  }

  lemma {:induction false} StmtReadsGlobalsWeaken(e: Env, limit: nat, st: Stmt, named: set<nat>, named': set<nat>)
    requires |e.frames| == |e.info| && named <= named' && StmtReadsGlobals(e, limit, st, named)
    ensures StmtReadsGlobals(e, limit, st, named')
    decreases limit, st
  {
    match st
    case If(branches, els) =>
      forall b | b in branches ensures BlockReadsGlobals(e, limit, b.body, named') {
        BlockReadsGlobalsWeaken(e, limit, b.body, named, named');
      }
      BlockReadsGlobalsWeaken(e, limit, els, named, named');
    case While(_, body) => BlockReadsGlobalsWeaken(e, limit, body, named, named');
    case Call(_, _, f) => BlockReadsGlobalsWeaken(e, f, e.frames[f].body, named + e.info[f].own, named' + e.info[f].own);
    case _ =>
  }

  // Each FUNCTION on the way reads only what its own call set and the global tags named.
  lemma {:induction false} StmtFunctionsDetermined(p: Program, e: Env, limit: nat, st: Stmt, own: set<nat>, known: set<nat>)
    requires WellBound(p, e) && StmtPasses(e, st) && StmtNames(st, own + PlainIds(e.names)) && StmtOnlyFunctions(e, limit, st)
    requires own <= known && StmtReadsGlobals(e, limit, st, known)
    ensures StmtDetermined(p, limit, st, known)
    decreases limit, st, 0
  {
    match st
    case If(branches, els) =>
      forall b | b in branches ensures BlockDetermined(p, limit, b.body, known) {
        FunctionsDetermined(p, e, limit, b.body, own, known);
      }
      FunctionsDetermined(p, e, limit, els, own, known);
    case While(_, body) => FunctionsDetermined(p, e, limit, body, own, known);
    case Call(_, args, f) =>
      CalleeDetermined(p, e, f, args, known);
      forall a | a in args ensures a.InputArg? ==> Reads(a.inputExpr) <= known { assert ArgNames(a, own + PlainIds(e.names)); }
      forall a | a in args && a.OutputArg? ensures a.paramTagId in known + Own(p.frames, f, args) { assert ArgPasses(e, f, a); }
    case _ =>
  }

  lemma {:induction false} FunctionsDetermined(p: Program, e: Env, limit: nat, ss: seq<Stmt>, own: set<nat>, known: set<nat>)
    requires WellBound(p, e) && BlockPasses(e, ss) && BlockNames(ss, own + PlainIds(e.names)) && BlockOnlyFunctions(e, limit, ss)
    requires own <= known && BlockReadsGlobals(e, limit, ss, known)
    ensures BlockDetermined(p, limit, ss, known)
    decreases limit, ss, 0
  {
    forall st | st in ss ensures StmtDetermined(p, limit, st, known) { StmtFunctionsDetermined(p, e, limit, st, own, known); }
  }

  lemma {:induction false} CalleeDetermined(p: Program, e: Env, f: nat, args: seq<CallArg>, known: set<nat>)
    requires WellBound(p, e) && f < |e.frames| && e.info[f].isFunction && e.info[f].inputs <= InputIds(args)
    requires BlockOnlyFunctions(e, f, e.frames[f].body) && BlockReadsGlobals(e, f, e.frames[f].body, known + e.info[f].own)
    ensures BlockDetermined(p, f, p.frames[f].body, known + Own(p.frames, f, args))
    decreases f, p.frames[f].body, 1
  {
    assert FrameGood(e, f);
    var own, inside := e.info[f].own, known + Own(p.frames, f, args);
    BlockReadsGlobalsWeaken(e, f, e.frames[f].body, known + own, inside);
    FunctionsDetermined(p, e, f, p.frames[f].body, own, inside);
  }

  // The store a FUNCTION body starts from.
  function Entered(p: Program, st: Stmt, s: Store): Result<Store>
    requires st.Call? && st.frameIndex < |p.frames|
  {
    var s1 :- ApplyResets(p.frames[st.frameIndex].tempResets, s);
    PassInputs(p.types, st.args, s1)
  }

  lemma EnteredAgree(p: Program, st: Stmt, globals: set<nat>, s: Store, t: Store, s2: Store, t2: Store)
    requires st.Call? && st.frameIndex < |p.frames| && SameOn(globals, s, t)
    requires Entered(p, st, s) == Ok(s2) && Entered(p, st, t) == Ok(t2) && SameOn(InputIds(st.args), s2, t2)
    ensures SameOn(globals + Own(p.frames, st.frameIndex, st.args), s2, t2)
  {
    var f, args, resets := st.frameIndex, st.args, p.frames[st.frameIndex].tempResets;
    ResetsDetermine(resets, globals, s, t);
    var s1, t1 := ApplyResets(resets, s).value, ApplyResets(resets, t).value;
    forall a | a in args && a.InputArg? ensures a.paramTagId in InputIds(args) {}
    InputsWrite(p.types, args, s1, InputIds(args));
    InputsWrite(p.types, args, t1, InputIds(args));
  }

  // Two calls of a FUNCTION that reaches only FUNCTIONs, with equal input values and equal
  // values of the global tags it names, fault alike or give equal outputs and leave those
  // tags equal, whatever other tags hold and whatever earlier calls left in its storage and
  // in that of the FUNCTIONs it calls.
  lemma FunctionCallsAreStateless(p: Program, e: Env, limit: nat, st: Stmt, named: set<nat>, s: Store, t: Store, s2: Store, t2: Store)
    requires WellBound(p, e) && st.Call? && StmtPasses(e, st) && StmtBound(p.types, p.frames, limit, st)
    requires StmtOnlyFunctions(e, limit, st)
    requires BlockReadsGlobals(e, st.frameIndex, e.frames[st.frameIndex].body, named + e.info[st.frameIndex].own)
    requires SameOn(named - e.info[st.frameIndex].own, s, t)
    requires Entered(p, st, s) == Ok(s2) && Entered(p, st, t) == Ok(t2) && SameOn(InputIds(st.args), s2, t2)
    ensures SameResult(named + e.info[st.frameIndex].own + TargetIds(st.args), ExecStmt(p, limit, st, s), ExecStmt(p, limit, st, t))
  {
    var f, args := st.frameIndex, st.args;
    assert FrameGood(e, f);
    var globals := named - e.info[f].own;
    EnteredAgree(p, st, globals, s, t, s2, t2);
    var known := globals + Own(p.frames, f, args);
    assert globals + e.info[f].own == named + e.info[f].own;
    CalleeDetermined(p, e, f, args, globals);
    BlockDepends(p, f, p.frames[f].body, known, s2, t2);
    var r, q := ExecBlock(p, f, p.frames[f].body, s2), ExecBlock(p, f, p.frames[f].body, t2);
    if r.Ok? {
      forall a | a in args && a.OutputArg? ensures a.paramTagId in known { assert ArgPasses(e, f, a); }
      OutputsDetermine(p.types, args, known, r.value, q.value);
    }
  }
}

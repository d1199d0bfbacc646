// What binding establishes, stated on values: the tags declared so far, the
// frames built so far, and where each frame's storage lies.

module BoundUnit {
  import opened Values
  import opened Ast
  import opened Agreement
  import opened Footprint

  // ---- Source declarations (include/softplc/st/ast.hpp) ----

  datatype VarKind = Var | VarInput | VarOutput | VarTemp
  datatype Address = Address(area: nat, byteOffset: nat, bitOffset: nat)

  datatype VarDecl = VarDecl(name: string, kind: VarKind, elementaryType: Option<TypeId>,
                             instanceOfType: Option<string>, address: Option<Address>, initialValue: Option<Value>)

  datatype Pou = Pou(name: string, isFunction: bool, varDecls: seq<VarDecl>, body: seq<Stmt>)

  // A character no identifier contains; call-site prefixes start with it.
  const MARK: char := '$'

  predicate Plain(name: string) { MARK !in name }

  predicate ExprPlain(e: Expr) {
    match e
    case Literal(_) => true
    case Identifier(n, _) => Plain(n)
    case Unary(_, x) => ExprPlain(x)
    case Binary(_, l, r) => ExprPlain(l) && ExprPlain(r)
  }

  // What the parser guarantees of a statement: plain names, at least one IF branch.
  predicate StmtParsed(st: Stmt)
    decreases st
  {
    match st
    case Assign(n, _, e) => Plain(n) && ExprPlain(e)
    case If(branches, els) =>
      && |branches| > 0
      && (forall b | b in branches :: ExprPlain(b.condition) && BlockParsed(b.body)) && BlockParsed(els)
    case While(c, body) => ExprPlain(c) && BlockParsed(body)
    case Call(_, args, _) => forall a | a in args :: ArgParsed(a)
    case Rung(c, outs) => ExprPlain(c) && forall o | o in outs :: Plain(o.targetName)
  }

  predicate ArgParsed(a: CallArg) {
    match a
    case InputArg(_, e, _) => ExprPlain(e)
    case OutputArg(_, n, _, _) => Plain(n)
  }

  predicate BlockParsed(ss: seq<Stmt>)
    decreases ss
  {
    forall st | st in ss :: StmtParsed(st)
  }

  // Instances only in VAR, none in a FUNCTION; an initializer has the declared type.
  predicate DeclParsed(d: VarDecl) {
    && Plain(d.name) && d.name != "" && '.' !in d.name
    && (d.elementaryType.None? ==> d.kind == Var)
    && (d.elementaryType.Some? && d.initialValue.Some? ==> TypeOf(d.initialValue.value) == d.elementaryType.value)
  }

  predicate DeclsParsed(ds: seq<VarDecl>) {
    forall d | d in ds :: DeclParsed(d)
  }

  predicate PouParsed(pou: Pou) {
    && DeclsParsed(pou.varDecls) && BlockParsed(pou.body)
    && (pou.isFunction ==> forall d | d in pou.varDecls :: d.kind != Var)
  }

  datatype DataBlock = DataBlock(name: string, varDecls: seq<VarDecl>)
  datatype CompilationUnit = CompilationUnit(pous: seq<Pou>, dataBlocks: seq<DataBlock>, varDecls: seq<VarDecl>, body: seq<Stmt>)

  predicate UnitParsed(unit: CompilationUnit) {
    && (forall p | p in unit.pous :: PouParsed(p))
    && (forall db | db in unit.dataBlocks :: DeclsParsed(db.varDecls))
    && DeclsParsed(unit.varDecls) && BlockParsed(unit.body)
  }

  // No call anywhere in it.
  predicate CallFree(ss: seq<Stmt>)
    decreases ss
  {
    forall st | st in ss :: CallFreeStmt(st)
  }

  predicate CallFreeStmt(st: Stmt)
    decreases st
  {
    match st
    case If(bs, els) => (forall b | b in bs :: CallFree(b.body)) && CallFree(els)
    case While(_, body) => CallFree(body)
    case Call(_, _, _) => false
    case _ => true
  }

  // ---- Environments ----

  // The storage of a frame: the tags lo..hi were declared while it was expanded,
  // own are the ones its source names directly, inputs its VAR_INPUTs. A call site
  // has storage that no source text can name; an instance has not.
  // pou and scope are what the frame was built from, globals the instances of the
  // program that could be called then.
  datatype FrameInfo = FrameInfo(lo: nat, hi: nat, isFunction: bool, callSite: bool, own: set<nat>, inputs: set<nat>,
                                 pou: Pou, scope: map<string, nat>, globals: set<string>)

  // For each tag its name, type, initial value and address.
  datatype Env = Env(names: seq<string>, types: seq<TypeId>, initials: seq<Value>, places: seq<Option<Address>>,
                     frames: seq<Frame>, info: seq<FrameInfo>)

  predicate Columns(e: Env) {
    |e.types| == |e.names| && |e.initials| == |e.names| && |e.places| == |e.names|
  }

  predicate Grows(e: Env, e': Env) {
    && e.names <= e'.names && e.types <= e'.types && e.initials <= e'.initials && e.places <= e'.places
    && e.frames <= e'.frames && e.info <= e'.info
  }

  function PlainIds(names: seq<string>): set<nat> {
    set id: nat | id < |names| && Plain(names[id])
  }

  // Tags a statement reads or writes itself (callees aside) are in known.
  predicate StmtNames(st: Stmt, known: set<nat>)
    decreases st
  {
    match st
    case Assign(_, id, e) => id in known && Reads(e) <= known
    case If(branches, els) =>
      (forall b | b in branches :: Reads(b.condition) <= known && BlockNames(b.body, known)) && BlockNames(els, known)
    case While(c, body) => Reads(c) <= known && BlockNames(body, known)
    case Call(_, args, _) => forall a | a in args :: ArgNames(a, known)
    case Rung(c, outs) => Reads(c) <= known && forall o | o in outs :: o.targetId in known
  }

  predicate ArgNames(a: CallArg, known: set<nat>) {
    match a
    case InputArg(_, e, _) => Reads(e) <= known
    case OutputArg(_, _, _, target) => target in known
  }

  predicate BlockNames(ss: seq<Stmt>, known: set<nat>)
    decreases ss
  {
    forall st | st in ss :: StmtNames(st, known)
  }

  // Calls pass parameters inside the callee's storage; a FUNCTION gets all its
  // inputs and gives only outputs that every call resets.
  predicate StmtPasses(e: Env, st: Stmt)
    decreases st
  {
    match st
    case If(branches, els) => (forall b | b in branches :: BlockPasses(e, b.body)) && BlockPasses(e, els)
    case While(_, body) => BlockPasses(e, body)
    case Call(_, args, f) =>
      && f < |e.info| && f < |e.frames|
      && (forall a | a in args :: ArgPasses(e, f, a))
      && (e.info[f].isFunction ==> e.info[f].inputs <= InputIds(args))
    case _ => true
  }

  predicate ArgPasses(e: Env, f: nat, a: CallArg)
    requires f < |e.info| && f < |e.frames|
  {
    && e.info[f].lo <= a.paramTagId < e.info[f].hi
    && (e.info[f].isFunction && a.OutputArg? ==> a.paramTagId in ResetIds(e.frames[f].tempResets))
  }

  predicate BlockPasses(e: Env, ss: seq<Stmt>)
    decreases ss
  {
    forall st | st in ss :: StmtPasses(e, st)
  }

  predicate FrameGood(e: Env, i: nat)
    requires i < |e.frames| == |e.info|
  {
    var fr, info := e.frames[i], e.info[i];
    && FrameBound(e.types, e.frames, i)
    && BlockPasses(e, fr.body)
    && info.lo <= info.hi <= |e.names|
    && (forall id | id in info.own :: info.lo <= id < info.hi)
    && ResetIds(fr.tempResets) <= info.own
    && BlockNames(fr.body, info.own + PlainIds(e.names))
    && (info.isFunction ==> info.own == info.inputs + ResetIds(fr.tempResets))
    && (info.callSite ==> forall id | info.lo <= id < info.hi :: Marked(e.names, id))
  }

  // Storage of two frames is nested or disjoint, in the order frames are built.
  predicate SpansGood(info: seq<FrameInfo>) {
    forall i, j | 0 <= i < j < |info| :: SpanPair(info, i, j)
  }

  predicate SpanPair(info: seq<FrameInfo>, i: nat, j: nat)
    requires i < |info| && j < |info|
  {
    info[i].hi <= info[j].lo || (info[j].lo <= info[i].lo && info[i].hi <= info[j].hi)
  }

  predicate EnvGood(e: Env) {
    && Columns(e) && |e.info| == |e.frames|
    && (forall i | 0 <= i < |e.frames| :: FrameGood(e, i))
    && SpansGood(e.info)
  }

  // ---- Growing an environment keeps what is already bound ----

  lemma {:induction false} StmtNamesWeaken(st: Stmt, known: set<nat>, known': set<nat>)
    requires known <= known' && StmtNames(st, known)
    ensures StmtNames(st, known')
    decreases st
  {
    match st
    case If(branches, els) =>
      forall b | b in branches ensures BlockNames(b.body, known') { BlockNamesWeaken(b.body, known, known'); }
      BlockNamesWeaken(els, known, known');
    case While(_, body) => BlockNamesWeaken(body, known, known');
    case _ =>
  }

  lemma {:induction false} BlockNamesWeaken(ss: seq<Stmt>, known: set<nat>, known': set<nat>)
    requires known <= known' && BlockNames(ss, known)
    ensures BlockNames(ss, known')
    decreases ss
  {
    forall st | st in ss ensures StmtNames(st, known') { StmtNamesWeaken(st, known, known'); }
  }

  lemma {:induction false} StmtPassesGrows(e: Env, e': Env, st: Stmt)
    requires Grows(e, e') && StmtPasses(e, st)
    ensures StmtPasses(e', st)
    decreases st
  {
    match st
    case If(branches, els) =>
      forall b | b in branches ensures BlockPasses(e', b.body) { BlockPassesGrows(e, e', b.body); }
      BlockPassesGrows(e, e', els);
    case While(_, body) => BlockPassesGrows(e, e', body);
    case Call(_, args, f) =>
      assert e'.info[f] == e.info[f] && e'.frames[f] == e.frames[f];
      forall a | a in args ensures ArgPasses(e', f, a) { assert ArgPasses(e, f, a); }
    case _ =>
  }

  lemma {:induction false} BlockPassesGrows(e: Env, e': Env, ss: seq<Stmt>)
    requires Grows(e, e') && BlockPasses(e, ss)
    ensures BlockPasses(e', ss)
    decreases ss
  {
    forall st | st in ss ensures StmtPasses(e', st) { StmtPassesGrows(e, e', st); }
  }

  lemma {:induction false} ExprBoundGrows(e: Expr, n: nat, n': nat)
    requires n <= n' && ExprBound(e, n)
    ensures ExprBound(e, n')
  {
    match e
    case Unary(_, x) => ExprBoundGrows(x, n, n');
    case Binary(_, l, r) => ExprBoundGrows(l, n, n'); ExprBoundGrows(r, n, n');
    case _ =>
  }

  lemma {:induction false} StmtBoundGrows(e: Env, e': Env, limit: nat, limit': nat, st: Stmt)
    requires Grows(e, e') && limit <= limit' && StmtBound(e.types, e.frames, limit, st)
    ensures StmtBound(e'.types, e'.frames, limit', st)
    decreases st
  {
    var n, n' := |e.types|, |e'.types|;
    match st
    case Assign(_, _, x) => ExprBoundGrows(x, n, n');
    case If(branches, els) =>
      forall b | b in branches ensures ExprBound(b.condition, n') && BlockBound(e'.types, e'.frames, limit', b.body) {
        ExprBoundGrows(b.condition, n, n');
        BlockBoundGrows(e, e', limit, limit', b.body);
      }
      BlockBoundGrows(e, e', limit, limit', els);
    case While(c, body) =>
      ExprBoundGrows(c, n, n');
      BlockBoundGrows(e, e', limit, limit', body);
    case Call(_, args, f) =>
      assert e'.frames[f] == e.frames[f];
      forall a | a in args ensures ArgBound(a, n', e'.frames[f].tempResets) {
        assert ArgBound(a, n, e.frames[f].tempResets);
        if a.InputArg? { ExprBoundGrows(a.inputExpr, n, n'); }
      }
    case Rung(c, outs) =>
      ExprBoundGrows(c, n, n');
      assert forall o | o in outs :: e'.types[o.targetId] == e.types[o.targetId];
  }

  lemma {:induction false} BlockBoundGrows(e: Env, e': Env, limit: nat, limit': nat, ss: seq<Stmt>)
    requires Grows(e, e') && limit <= limit' && BlockBound(e.types, e.frames, limit, ss)
    ensures BlockBound(e'.types, e'.frames, limit', ss)
    decreases ss
  {
    forall st | st in ss ensures StmtBound(e'.types, e'.frames, limit', st) { StmtBoundGrows(e, e', limit, limit', st); }
  }

  lemma PlainIdsGrow(names: seq<string>, names': seq<string>)
    requires names <= names'
    ensures PlainIds(names) <= PlainIds(names')
  {
  }

  lemma FrameGoodGrows(e: Env, e': Env, i: nat)
    requires Grows(e, e') && |e.frames| == |e.info| && |e'.frames| == |e'.info|
    requires i < |e.frames| && FrameGood(e, i)
    ensures FrameGood(e', i)
  {
    var fr, info := e.frames[i], e.info[i];
    assert e'.frames[i] == fr && e'.info[i] == info;
    BlockBoundGrows(e, e', i, i, fr.body);
    BlockPassesGrows(e, e', fr.body);
    PlainIdsGrow(e.names, e'.names);
    BlockNamesWeaken(fr.body, info.own + PlainIds(e.names), info.own + PlainIds(e'.names));
    assert ResetsBound(e'.types, fr.tempResets) by {
      assert forall r | r in fr.tempResets :: e'.types[r.id] == e.types[r.id];
    }
    if info.callSite {
      forall id | info.lo <= id < info.hi ensures Marked(e'.names, id) { assert Marked(e.names, id); }
    }
  }

  lemma FramesGoodGrow(e: Env, e': Env)
    requires Grows(e, e') && |e.frames| == |e.info| && |e'.frames| == |e'.info|
    requires forall i | 0 <= i < |e.frames| :: FrameGood(e, i)
    ensures forall i | 0 <= i < |e.frames| :: FrameGood(e', i)
  {
    forall i | 0 <= i < |e.frames| ensures FrameGood(e', i) { FrameGoodGrows(e, e', i); }
  }

  // ---- Steps of the binder ----

  // Frames added on the way keep their storage above what was declared before.
  predicate Advances(e: Env, e': Env) {
    && Columns(e) && Columns(e') && |e.info| == |e.frames| && |e'.info| == |e'.frames|
    && Grows(e, e')
    && forall i | |e.frames| <= i < |e'.frames| :: StartsAbove(e'.info, i, |e.names|)
  }

  predicate StartsAbove(info: seq<FrameInfo>, i: nat, lo: nat)
    requires i < |info|
  {
    info[i].lo >= lo
  }

  // Tags added on the way cannot be named by source text.
  predicate AddsMarked(e: Env, e': Env) {
    forall id | |e.names| <= id < |e'.names| :: Marked(e'.names, id)
  }

  predicate Marked(names: seq<string>, id: nat)
    requires id < |names|
  {
    !Plain(names[id])
  }

  lemma AdvancesTransitive(a: Env, b: Env, c: Env)
    requires Advances(a, b) && Advances(b, c)
    ensures Advances(a, c)
    ensures AddsMarked(a, b) && AddsMarked(b, c) ==> AddsMarked(a, c)
  {
    forall i | |a.frames| <= i < |c.frames| ensures StartsAbove(c.info, i, |a.names|) {
      if i < |b.frames| {
        assert StartsAbove(b.info, i, |a.names|) && c.info[i] == b.info[i];
      } else {
        assert StartsAbove(c.info, i, |b.names|);
      }
    }
    if AddsMarked(a, b) && AddsMarked(b, c) {
      forall id | |a.names| <= id < |c.names| ensures Marked(c.names, id) {
        if id < |b.names| { assert Marked(b.names, id) && c.names[id] == b.names[id]; }
      }
    }
  }

  // One instance or call site that a body can invoke.
  datatype Callable = Callable(pou: Pou, frameIndex: nat, params: map<string, nat>)

  predicate IsParam(d: VarDecl) { d.kind == VarInput || d.kind == VarOutput }

  predicate CallableGood(e: Env, c: Callable) {
    && PouParsed(c.pou) && c.frameIndex < |e.frames| == |e.info|
    && e.info[c.frameIndex].isFunction == c.pou.isFunction
    && (forall d | d in c.pou.varDecls && IsParam(d) :: d.name in c.params && ParamGood(e, c, d))
    && (forall id | id in e.info[c.frameIndex].inputs ::
          exists d :: d in c.pou.varDecls && d.kind == VarInput && d.name in c.params && c.params[d.name] == id)
  }

  predicate ParamGood(e: Env, c: Callable, d: VarDecl)
    requires c.frameIndex < |e.frames| == |e.info| && d.name in c.params
  {
    var id, info, resets := c.params[d.name], e.info[c.frameIndex], ResetIds(e.frames[c.frameIndex].tempResets);
    && info.lo <= id < info.hi <= |e.names|
    && (d.kind == VarInput ==> id !in resets)
    && (d.kind == VarOutput && c.pou.isFunction ==> id in resets)
  }

  predicate CallablesGood(e: Env, cs: map<string, Callable>) {
    forall n | n in cs :: CallableGood(e, cs[n])
  }

  lemma CallableGoodGrows(e: Env, e': Env, c: Callable)
    requires Grows(e, e') && |e'.frames| == |e'.info| && CallableGood(e, c)
    ensures CallableGood(e', c)
  {
    var f := c.frameIndex;
    assert e'.frames[f] == e.frames[f] && e'.info[f] == e.info[f];
    forall d | d in c.pou.varDecls && IsParam(d) ensures d.name in c.params && ParamGood(e', c, d) {
      assert ParamGood(e, c, d);
    }
  }

  lemma CallablesGoodGrow(e: Env, e': Env, cs: map<string, Callable>)
    requires Grows(e, e') && |e'.frames| == |e'.info| && CallablesGood(e, cs)
    ensures CallablesGood(e', cs)
  {
    forall n | n in cs ensures CallableGood(e', cs[n]) { CallableGoodGrows(e, e', cs[n]); }
  }

  predicate ScopeGood(e: Env, scope: map<string, nat>) {
    forall k | k in scope :: scope[k] < |e.names|
  }

  // All a body may name: its own scope and whatever has a plain name.
  function Known(e: Env, scope: map<string, nat>): set<nat> {
    scope.Values + PlainIds(e.names)
  }

  // A statement bound in an environment, and what growing the environment keeps.
  predicate StmtOk(e: Env, scope: map<string, nat>, st: Stmt) {
    && StmtBound(e.types, e.frames, |e.frames|, st) && StmtPasses(e, st) && StmtNames(st, Known(e, scope))
  }

  predicate BlockOk(e: Env, scope: map<string, nat>, ss: seq<Stmt>) {
    && BlockBound(e.types, e.frames, |e.frames|, ss) && BlockPasses(e, ss) && BlockNames(ss, Known(e, scope))
  }

  lemma BlockOkGrows(e: Env, e': Env, scope: map<string, nat>, ss: seq<Stmt>)
    requires Grows(e, e') && BlockOk(e, scope, ss)
    ensures BlockOk(e', scope, ss)
  {
    BlockBoundGrows(e, e', |e.frames|, |e'.frames|, ss);
    BlockPassesGrows(e, e', ss);
    PlainIdsGrow(e.names, e'.names);
    BlockNamesWeaken(ss, Known(e, scope), Known(e', scope));
  }

  lemma BlockOkSnoc(e: Env, scope: map<string, nat>, ss: seq<Stmt>, st: Stmt)
    requires BlockOk(e, scope, ss) && StmtOk(e, scope, st)
    ensures BlockOk(e, scope, ss + [st])
  {
  }

  predicate BranchOk(e: Env, scope: map<string, nat>, b: IfBranch) {
    ExprBound(b.condition, |e.types|) && Reads(b.condition) <= Known(e, scope) && BlockOk(e, scope, b.body)
  }

  lemma BranchesOkGrow(e: Env, e': Env, scope: map<string, nat>, bs: seq<IfBranch>)
    requires Grows(e, e') && forall b | b in bs :: BranchOk(e, scope, b)
    ensures forall b | b in bs :: BranchOk(e', scope, b)
  {
    forall b | b in bs ensures BranchOk(e', scope, b) {
      assert BranchOk(e, scope, b);
      ExprBoundGrows(b.condition, |e.types|, |e'.types|);
      PlainIdsGrow(e.names, e'.names);
      BlockOkGrows(e, e', scope, b.body);
    }
  }

  // A bound argument of a call to frame f.
  predicate ArgOk(e: Env, scope: map<string, nat>, f: nat, a: CallArg)
    requires f < |e.info| && f < |e.frames|
  {
    ArgBound(a, |e.types|, e.frames[f].tempResets) && ArgNames(a, Known(e, scope)) && ArgPasses(e, f, a)
  }

  // What binding a whole unit establishes.
  ghost predicate WellBound(p: Program, e: Env) {
    && Bound(p) && EnvGood(e) && BlockPasses(e, p.body)
    && p.types == e.types && p.initials == e.initials && p.frames == e.frames
    && (forall i | 0 <= i < |p.types| :: TypeOf(p.initials[i]) == p.types[i])
    && (forall i, j | 0 <= i < j < |e.names| :: e.names[i] != e.names[j])
    && forall i, j | 0 <= i < j < |e.places| && e.places[i].Some? :: e.places[i] != e.places[j]
  }
}

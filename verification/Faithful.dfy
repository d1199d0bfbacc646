// Binding keeps the program text: every bound body is its source body with each
// name turned into the number of the tag it stands for.

module Faithful {
  import opened Values
  import opened Ast
  import opened BoundUnit
  import opened Expansion

  function Prefixed(prefix: string, name: string): string {
    if prefix == "" then name else prefix + "." + name
  }

  lemma PrefixedInjective(prefix: string, a: string, b: string)
    requires Prefixed(prefix, a) == Prefixed(prefix, b)
    ensures a == b
  {
    if prefix != "" {
      assert (prefix + "." + a)[|prefix| + 1..] == a;
      assert (prefix + "." + b)[|prefix| + 1..] == b;
    }
  }

  function InitialOf(d: VarDecl): Value
    requires d.elementaryType.Some?
  {
    if d.initialValue.Some? then d.initialValue.value else DefaultValueFor(d.elementaryType.value)
  }

  // What a variable starts from: its declared value, or FALSE, 0 or T#0.
  predicate StartsAs(v: Value, d: VarDecl)
    requires d.elementaryType.Some?
  {
    match d.initialValue
    case Some(declared) => v == declared
    case None =>
      match d.elementaryType.value
      case Bool => v == VBool(false)
      case Byte => v == VByte(0)
      case Int => v == VInt(0)
      case DInt => v == VDInt(0)
      case Time => v == VTime(0)
  }

  // VAR_TEMPs, and a FUNCTION's outputs, are reset before every execution.
  predicate IsReset(pou: Pou, d: VarDecl) {
    d.elementaryType.Some? && (d.kind == VarTemp || (pou.isFunction && d.kind == VarOutput))
  }

  predicate ResetOf(r: TempReset, d: VarDecl, scope: map<string, nat>)
    requires d.elementaryType.Some? && d.name in scope
  {
    r.id == scope[d.name] && StartsAs(r.value, d)
  }

  // The resets a frame of this POU gets.
  predicate ResetsMatch(resets: seq<TempReset>, pou: Pou, ds: seq<VarDecl>, scope: map<string, nat>) {
    && (forall d | d in ds && IsReset(pou, d) :: d.name in scope && scope[d.name] in ResetIds(resets))
    && (forall r | r in resets :: exists d :: d in ds && IsReset(pou, d) && d.name in scope && ResetOf(r, d, scope))
  }

  // Tag id is what a declaration asks for: its full name, type, initial value and address.
  predicate TagAt(e: Env, id: nat, name: string, d: VarDecl)
    requires d.elementaryType.Some?
  {
    && Columns(e) && id < |e.names|
    && e.names[id] == name && e.types[id] == d.elementaryType.value && StartsAs(e.initials[id], d) && e.places[id] == d.address
  }

  // An instance has a frame of its own, of its type, under its full name.
  ghost predicate InstanceBuilt(e: Env, prefix: string, d: VarDecl) {
    exists f: nat :: FrameOf(e, f, Prefixed(prefix, d.name), d.instanceOfType)
  }

  predicate FrameOf(e: Env, f: nat, name: string, typeName: Option<string>) {
    f < |e.frames| == |e.info| && e.frames[f].scopeName == name && typeName == Some(e.info[f].pou.name)
  }

  // What declareVars leaves behind: a tag for each elementary declaration, a frame for
  // each instance.
  ghost predicate Declared(e: Env, ds: seq<VarDecl>, prefix: string, scope: map<string, nat>) {
    && (forall d | d in ds && d.elementaryType.Some? :: d.name in scope && TagAt(e, scope[d.name], Prefixed(prefix, d.name), d))
    && (forall d | d in ds && d.elementaryType.None? :: InstanceBuilt(e, prefix, d))
    && (forall i, j | 0 <= i < j < |ds| :: DistinctTags(ds, i, j))
  }

  // A data block's members, all elementary, are global tags under its name.
  ghost predicate MembersDeclared(e: Env, block: string, ds: seq<VarDecl>) {
    forall d | d in ds :: d.elementaryType.Some? && MemberDeclared(e, block, d)
  }

  ghost predicate MemberDeclared(e: Env, block: string, d: VarDecl)
    requires d.elementaryType.Some?
  {
    exists id: nat :: TagAt(e, id, block + "." + d.name, d)
  }

  predicate DistinctTags(ds: seq<VarDecl>, i: nat, j: nat)
    requires i < |ds| && j < |ds|
  {
    ds[i].elementaryType.Some? && ds[j].elementaryType.Some? ==> ds[i].name != ds[j].name
  }

  lemma DeclaredGrows(e: Env, e': Env, ds: seq<VarDecl>, prefix: string, scope: map<string, nat>)
    requires Grows(e, e') && Columns(e') && |e'.frames| == |e'.info| && Declared(e, ds, prefix, scope)
    ensures Declared(e', ds, prefix, scope)
  {
    forall d | d in ds && d.elementaryType.Some? ensures TagAt(e', scope[d.name], Prefixed(prefix, d.name), d) {
      assert TagAt(e, scope[d.name], Prefixed(prefix, d.name), d);
    }
    forall d | d in ds && d.elementaryType.None? ensures InstanceBuilt(e', prefix, d) { InstanceBuiltGrows(e, e', prefix, d); }
  }

  lemma InstanceBuiltGrows(e: Env, e': Env, prefix: string, d: VarDecl)
    requires Grows(e, e') && |e'.frames| == |e'.info| && InstanceBuilt(e, prefix, d)
    ensures InstanceBuilt(e', prefix, d)
  {
    var f: nat :| FrameOf(e, f, Prefixed(prefix, d.name), d.instanceOfType);
    assert FrameOf(e', f, Prefixed(prefix, d.name), d.instanceOfType);
  }

  lemma MembersDeclaredGrow(e: Env, e': Env, block: string, ds: seq<VarDecl>)
    requires Grows(e, e') && Columns(e') && MembersDeclared(e, block, ds)
    ensures MembersDeclared(e', block, ds)
  {
    forall d | d in ds ensures MemberDeclared(e', block, d) {
      assert MemberDeclared(e, block, d);
      var id: nat :| TagAt(e, id, block + "." + d.name, d);
      assert TagAt(e', id, block + "." + d.name, d);
    }
  }

  // ---- Names and the tags they stand for ----

  // A scope maps the names of one POU's variables, and dotted names of its instances'
  // variables, to the tags declared under the prefix.
  predicate ScopeNames(e: Env, prefix: string, scope: map<string, nat>) {
    forall k | k in scope :: scope[k] < |e.names| && e.names[scope[k]] == Prefixed(prefix, k)
  }

  // Where a body is bound: its prefix and scope, and the instances it may call by name,
  // its own and the program's.
  datatype Site = Site(prefix: string, scope: map<string, nat>, locals: set<string>, globals: set<string>)

  // A name stands for the variable in scope or, failing that, for the tag of that name.
  predicate Denotes(e: Env, at: Site, name: string, id: nat) {
    id < |e.names| && e.names[id] == if name in at.scope then Prefixed(at.prefix, name) else name
  }

  predicate ExprBinds(e: Env, at: Site, src: Expr, x: Expr) {
    match (src, x)
    case (Literal(v), Literal(w)) => v == w
    case (Identifier(n, _), Identifier(m, id)) => n == m && Denotes(e, at, n, id)
    case (Unary(op, a), Unary(op', b)) => op == op' && ExprBinds(e, at, a, b)
    case (Binary(op, l, r), Binary(op', l', r')) =>
      op == op' && ExprBinds(e, at, l, l') && ExprBinds(e, at, r, r')
    case _ => false
  }

  // The called frame belongs to the instance of that name in scope, failing that to the
  // program's instance of that name, failing that to this call site of the FUNCTION of
  // that name.
  predicate CalleeNamed(e: Env, at: Site, callee: string, f: nat) {
    && f < |e.frames| == |e.info|
    && if callee in at.locals then e.frames[f].scopeName == Prefixed(at.prefix, callee)
       else if callee in at.globals then e.frames[f].scopeName == callee
       else e.info[f].callSite && e.info[f].pou.isFunction && e.info[f].pou.name == callee
  }

  // The POU has an input, for ':=', or an output, for '=>', of that name.
  predicate HasParam(pou: Pou, a: CallArg) {
    exists d :: d in pou.varDecls && d.name == a.paramName && d.kind == if a.InputArg? then VarInput else VarOutput
  }

  // An argument goes to the callee's parameter of that name and direction.
  predicate ArgBinds(e: Env, at: Site, f: nat, src: CallArg, a: CallArg) {
    && f < |e.frames| && f < |e.info| && src.paramName == a.paramName && HasParam(e.info[f].pou, a)
    && a.paramTagId < |e.names| && e.names[a.paramTagId] == Prefixed(e.frames[f].scopeName, a.paramName)
    && match (src, a)
       case (InputArg(_, x, _), InputArg(_, y, _)) => ExprBinds(e, at, x, y)
       case (OutputArg(_, t, _, _), OutputArg(_, u, _, id)) => t == u && Denotes(e, at, t, id)
       case _ => false
  }

  predicate CoilBinds(e: Env, at: Site, src: RungOutput, o: RungOutput) {
    o.kind == src.kind && o.targetName == src.targetName && Denotes(e, at, src.targetName, o.targetId)
  }

  predicate StmtBinds(e: Env, at: Site, src: Stmt, st: Stmt)
    decreases st
  {
    match st
    case Assign(n, id, x) =>
      src.Assign? && src.target == n && Denotes(e, at, n, id) && ExprBinds(e, at, src.value, x)
    case If(bs, els) =>
      && src.If? && |src.branches| == |bs| && BlockBinds(e, at, src.elseBody, els)
      && forall i | 0 <= i < |bs| :: BranchBinds(e, at, src.branches[i], bs[i])
    case While(c, body) => src.While? && ExprBinds(e, at, src.condition, c) && BlockBinds(e, at, src.body, body)
    case Call(callee, args, f) =>
      && src.Call? && src.calleeName == callee && CalleeNamed(e, at, callee, f) && |src.args| == |args|
      && forall i | 0 <= i < |args| :: ArgBinds(e, at, f, src.args[i], args[i])
    case Rung(c, outs) =>
      && src.Rung? && ExprBinds(e, at, src.power, c) && |src.outputs| == |outs|
      && forall i | 0 <= i < |outs| :: CoilBinds(e, at, src.outputs[i], outs[i])
  }

  predicate BranchBinds(e: Env, at: Site, src: IfBranch, b: IfBranch)
    decreases b
  {
    ExprBinds(e, at, src.condition, b.condition) && BlockBinds(e, at, src.body, b.body)
  }

  predicate BlockBinds(e: Env, at: Site, src: seq<Stmt>, ss: seq<Stmt>)
    decreases ss
  {
    |src| == |ss| && forall i | 0 <= i < |ss| :: StmtBinds(e, at, src[i], ss[i])
  }

  // ---- Frames ----

  predicate AllElementary(ds: seq<VarDecl>) {
    forall d | d in ds :: d.elementaryType.Some?
  }

  predicate ScopeOf(ds: seq<VarDecl>, scope: map<string, nat>) {
    forall k | k in scope :: DeclaresName(ds, k)
  }

  predicate DeclaresName(ds: seq<VarDecl>, name: string) {
    exists d :: d in ds && d.name == name
  }

  // A frame is a copy of its POU: variables declared under its prefix with their types,
  // initial values and addresses, the resets its temporaries need, and the body with its
  // names bound.
  ghost predicate FrameFaithful(e: Env, i: nat)
    requires i < |e.frames| == |e.info|
  {
    var fr, info := e.frames[i], e.info[i];
    && info.isFunction == info.pou.isFunction
    && ScopeNames(e, fr.scopeName, info.scope) && Declared(e, info.pou.varDecls, fr.scopeName, info.scope)
    && (AllElementary(info.pou.varDecls) ==> ScopeOf(info.pou.varDecls, info.scope))
    && ResetsMatch(fr.tempResets, info.pou, info.pou.varDecls, info.scope)
    && BlockBinds(e, SiteOf(fr, info), info.pou.body, fr.body)
  }

  function SiteOf(fr: Frame, info: FrameInfo): Site {
    Site(fr.scopeName, info.scope, InstanceNames(info.pou.varDecls), info.globals)
  }

  ghost predicate EnvFaithful(e: Env) {
    |e.frames| == |e.info| && forall i | 0 <= i < |e.frames| :: FrameFaithful(e, i)
  }

  // A callable is the frame of that prefix, and its parameters are that frame's variables.
  predicate CallableNamed(e: Env, prefix: string, c: Callable) {
    && c.frameIndex < |e.frames| == |e.info| && e.frames[c.frameIndex].scopeName == prefix
    && e.info[c.frameIndex].pou == c.pou && ScopeNames(e, prefix, c.params)
  }

  predicate InstancesNamed(e: Env, prefix: string, cs: map<string, Callable>) {
    forall n | n in cs :: CallableNamed(e, Prefixed(prefix, n), cs[n])
  }

  // ---- Growing an environment keeps all of this ----

  lemma {:induction false} ExprBindsGrows(e: Env, e': Env, at: Site, src: Expr, x: Expr)
    requires Grows(e, e') && ExprBinds(e, at, src, x)
    ensures ExprBinds(e', at, src, x)
    decreases x
  {
    match x
    case Unary(_, y) => ExprBindsGrows(e, e', at, src.operand, y);
    case Binary(_, l, r) =>
      ExprBindsGrows(e, e', at, src.lhs, l);
      ExprBindsGrows(e, e', at, src.rhs, r);
    case _ =>
  }

  lemma ArgBindsGrows(e: Env, e': Env, at: Site, f: nat, src: CallArg, a: CallArg)
    requires Grows(e, e') && ArgBinds(e, at, f, src, a)
    ensures ArgBinds(e', at, f, src, a)
  {
    if a.InputArg? { ExprBindsGrows(e, e', at, src.inputExpr, a.inputExpr); }
  }

  lemma {:induction false} StmtBindsGrows(e: Env, e': Env, at: Site, src: Stmt, st: Stmt)
    requires Grows(e, e') && |e'.frames| == |e'.info| && StmtBinds(e, at, src, st)
    ensures StmtBinds(e', at, src, st)
    decreases st
  {
    match st
    case Assign(_, _, x) => ExprBindsGrows(e, e', at, src.value, x);
    case If(bs, els) =>
      BlockBindsGrows(e, e', at, src.elseBody, els);
      forall i | 0 <= i < |bs| ensures BranchBinds(e', at, src.branches[i], bs[i]) {
        BranchBindsGrows(e, e', at, src.branches[i], bs[i]);
      }
    case While(c, body) =>
      ExprBindsGrows(e, e', at, src.condition, c);
      BlockBindsGrows(e, e', at, src.body, body);
    case Call(_, args, f) =>
      assert e'.frames[f] == e.frames[f] && e'.info[f] == e.info[f];
      forall i | 0 <= i < |args| ensures ArgBinds(e', at, f, src.args[i], args[i]) {
        ArgBindsGrows(e, e', at, f, src.args[i], args[i]);
      }
    case Rung(c, outs) =>
      ExprBindsGrows(e, e', at, src.power, c);
      forall i | 0 <= i < |outs| ensures CoilBinds(e', at, src.outputs[i], outs[i]) {
        assert CoilBinds(e, at, src.outputs[i], outs[i]);
      }
  }

  lemma {:induction false} BranchBindsGrows(e: Env, e': Env, at: Site, src: IfBranch, b: IfBranch)
    requires Grows(e, e') && |e'.frames| == |e'.info| && BranchBinds(e, at, src, b)
    ensures BranchBinds(e', at, src, b)
    decreases b
  {
    ExprBindsGrows(e, e', at, src.condition, b.condition);
    BlockBindsGrows(e, e', at, src.body, b.body);
  }

  lemma {:induction false} BlockBindsGrows(e: Env, e': Env, at: Site, src: seq<Stmt>, ss: seq<Stmt>)
    requires Grows(e, e') && |e'.frames| == |e'.info| && BlockBinds(e, at, src, ss)
    ensures BlockBinds(e', at, src, ss)
    decreases ss
  {
    forall i | 0 <= i < |ss| ensures StmtBinds(e', at, src[i], ss[i]) {
      StmtBindsGrows(e, e', at, src[i], ss[i]);
    }
  }

  lemma BlockBindsSnoc(e: Env, at: Site, src: seq<Stmt>, ss: seq<Stmt>, a: Stmt, st: Stmt)
    requires BlockBinds(e, at, src, ss) && StmtBinds(e, at, a, st)
    ensures BlockBinds(e, at, src + [a], ss + [st])
  {
  }

  lemma FrameFaithfulGrows(e: Env, e': Env, i: nat)
    requires Grows(e, e') && |e.frames| == |e.info| && |e'.frames| == |e'.info| && Columns(e')
    requires i < |e.frames| && FrameFaithful(e, i)
    ensures FrameFaithful(e', i)
  {
    var fr, info := e.frames[i], e.info[i];
    assert e'.frames[i] == fr && e'.info[i] == info;
    DeclaredGrows(e, e', info.pou.varDecls, fr.scopeName, info.scope);
    BlockBindsGrows(e, e', SiteOf(fr, info), info.pou.body, fr.body);
  }

  lemma FramesFaithfulGrow(e: Env, e': Env)
    requires Grows(e, e') && |e'.frames| == |e'.info| && Columns(e') && EnvFaithful(e)
    ensures forall i | 0 <= i < |e.frames| :: FrameFaithful(e', i)
  {
    forall i | 0 <= i < |e.frames| ensures FrameFaithful(e', i) { FrameFaithfulGrows(e, e', i); }
  }

  lemma InstancesNamedGrow(e: Env, e': Env, prefix: string, cs: map<string, Callable>)
    requires Grows(e, e') && |e'.frames| == |e'.info| && InstancesNamed(e, prefix, cs)
    ensures InstancesNamed(e', prefix, cs)
  {
    forall n | n in cs ensures CallableNamed(e', Prefixed(prefix, n), cs[n]) {
      assert CallableNamed(e, Prefixed(prefix, n), cs[n]);
    }
  }
}

// Which compilation units the binder accepts (src/st/pou_binder.cpp), said of the
// source alone: no tag numbers, frames or bound statements, only which names and
// addresses are taken by then.

module Acceptance {
  import opened Values
  import opened Ast
  import opened BoundUnit
  import opened Faithful
  import opened Names

  // The type of every tag declared so far, the addresses in use, how many FUNCTION
  // calls have been expanded, and the program's instances with their types.
  datatype Ledger = Ledger(types: map<string, TypeId>, addresses: set<Address>, calls: nat, globals: map<string, Pou>)

  // What a body sees: the names in scope and the instances it may call.
  datatype Place = Place(prefix: string, scope: set<string>, instances: map<string, Pou>)

  // Declarations made so far, with the names and instances they bring into scope.
  datatype Opened = Opened(ledger: Ledger, scope: set<string>, instances: map<string, Pou>)
  datatype Built = Built(ledger: Ledger, scope: set<string>)

  // ---- Names ----

  // Names in scope hide tags of the same full name.
  ghost predicate Found(l: Ledger, at: Place, name: string) {
    FullName(at, name) in l.types
  }

  ghost function FullName(at: Place, name: string): string {
    if name in at.scope then Prefixed(at.prefix, name) else name
  }

  ghost predicate ExprFound(l: Ledger, at: Place, x: Expr) {
    match x
    case Literal(_) => true
    case Identifier(n, _) => Found(l, at, n)
    case Unary(_, y) => ExprFound(l, at, y)
    case Binary(_, a, b) => ExprFound(l, at, a) && ExprFound(l, at, b)
  }

  // Coils are declared BOOL tags.
  ghost predicate CoilFound(l: Ledger, at: Place, o: RungOutput) {
    Found(l, at, o.targetName) && l.types[FullName(at, o.targetName)] == Bool
  }

  // An argument names a parameter of its direction and nothing undeclared.
  ghost predicate ArgFound(l: Ledger, at: Place, callee: Pou, a: CallArg) {
    && HasParam(callee, a)
    && match a
       case InputArg(_, x, _) => ExprFound(l, at, x)
       case OutputArg(_, target, _, _) => Found(l, at, target)
  }

  // A FUNCTION gets each of its inputs.
  ghost predicate ArgsFound(l: Ledger, at: Place, callee: Pou, args: seq<CallArg>) {
    && (forall a | a in args :: ArgFound(l, at, callee, a))
    && (callee.isFunction ==> forall d | d in callee.varDecls && d.kind == VarInput :: PassesTo(args, d.name))
  }

  ghost predicate PassesTo(args: seq<CallArg>, name: string) {
    exists a :: a in args && a.InputArg? && a.paramName == name
  }

  // ---- Declarations ----

  // A name and an address are used once.
  ghost function EnterTag(l: Ledger, name: string, t: TypeId, address: Option<Address>): Option<Ledger> {
    if name in l.types || (address.Some? && address.value in l.addresses) then None
    else Some(l.(types := l.types[name := t],
                 addresses := if address.Some? then l.addresses + {address.value} else l.addresses))
  }

  ghost function EnterVars(registry: map<string, Pou>, stack: set<string>, ds: seq<VarDecl>, prefix: string, o: Opened): Option<Opened>
    decreases registry.Keys - stack, 1, ds
  {
    if ds == [] then Some(o)
    else
      match EnterVar(registry, stack, ds[0], prefix, o)
      case None => None
      case Some(o') => EnterVars(registry, stack, ds[1..], prefix, o')
  }

  ghost function EnterVar(registry: map<string, Pou>, stack: set<string>, d: VarDecl, prefix: string, o: Opened): Option<Opened>
    decreases registry.Keys - stack, 0, 1
  {
    if d.elementaryType.Some? then
      match EnterTag(o.ledger, Prefixed(prefix, d.name), d.elementaryType.value, d.address)
      case None => None
      case Some(l) => Some(o.(ledger := l, scope := o.scope + {d.name}))
    else if d.instanceOfType.None? then None
    else
      match EnterInstance(registry, stack, d.instanceOfType.value, Prefixed(prefix, d.name), o.ledger)
      case None => None
      case Some(i) => Some(WithInstance(o, i, prefix, d.name, registry[d.instanceOfType.value]))
  }

  // The instance's variables come into scope under dotted names; an instance of the
  // program can be called from everywhere after it.
  ghost function WithInstance(o: Opened, i: Built, prefix: string, name: string, pou: Pou): Opened {
    Opened(if prefix == "" then i.ledger.(globals := i.ledger.globals[name := pou]) else i.ledger,
           o.scope + Dotted(name, i.scope), o.instances[name := pou])
  }

  ghost function Dotted(name: string, scope: set<string>): set<string> {
    set k | k in scope :: name + "." + k
  }

  // Types are known and not inside themselves.
  ghost function EnterInstance(registry: map<string, Pou>, stack: set<string>, t: string, prefix: string, l: Ledger): (r: Option<Built>)
    ensures r.Some? ==> t in registry
    decreases registry.Keys - stack, 0, 0
  {
    if t !in registry || t in stack then None
    else EnterPou(registry, stack + {t}, registry[t], prefix, l)
  }

  // A POU's variables under a prefix, then its body among them.
  ghost function EnterPou(registry: map<string, Pou>, stack: set<string>, pou: Pou, prefix: string, l: Ledger): Option<Built>
    decreases registry.Keys - stack, 4
  {
    match EnterVars(registry, stack, pou.varDecls, prefix, Opened(l, {}, map[]))
    case None => None
    case Some(o) =>
      match PassBlock(registry, stack, pou.body, Place(prefix, o.scope, o.instances), o.ledger)
      case None => None
      case Some(l') => Some(Built(l', o.scope))
  }

  // ---- Bodies ----

  ghost function PassBlock(registry: map<string, Pou>, stack: set<string>, ss: seq<Stmt>, at: Place, l: Ledger): Option<Ledger>
    decreases registry.Keys - stack, 2, ss
  {
    if ss == [] then Some(l)
    else
      match PassStmt(registry, stack, ss[0], at, l)
      case None => None
      case Some(l') => PassBlock(registry, stack, ss[1..], at, l')
  }

  ghost function PassStmt(registry: map<string, Pou>, stack: set<string>, st: Stmt, at: Place, l: Ledger): Option<Ledger>
    decreases registry.Keys - stack, 2, st
  {
    match st
    case Assign(target, _, x) => if Found(l, at, target) && ExprFound(l, at, x) then Some(l) else None
    case If(branches, els) =>
      (match PassBranches(registry, stack, branches, at, l)
       case None => None
       case Some(l') => PassBlock(registry, stack, els, at, l'))
    case While(c, body) => if ExprFound(l, at, c) then PassBlock(registry, stack, body, at, l) else None
    case Call(callee, args, _) =>
      (match PassCallee(registry, stack, callee, at, l)
       case None => None
       case Some((l', pou)) => if ArgsFound(l', at, pou, args) then Some(l') else None)
    case Rung(c, outs) =>
      if ExprFound(l, at, c) && forall o | o in outs :: CoilFound(l, at, o) then Some(l) else None
  }

  ghost function PassBranches(registry: map<string, Pou>, stack: set<string>, bs: seq<IfBranch>, at: Place, l: Ledger): Option<Ledger>
    decreases registry.Keys - stack, 2, bs
  {
    if bs == [] then Some(l)
    else if !ExprFound(l, at, bs[0].condition) then None
    else
      match PassBlock(registry, stack, bs[0].body, at, l)
      case None => None
      case Some(l') => PassBranches(registry, stack, bs[1..], at, l')
  }

  lemma NextBranch(registry: map<string, Pou>, stack: set<string>, bs: seq<IfBranch>, k: nat, at: Place, l: Ledger)
    requires k < |bs|
    ensures PassBranches(registry, stack, bs[k..], at, l) ==
      if !ExprFound(l, at, bs[k].condition) then None
      else match PassBlock(registry, stack, bs[k].body, at, l)
           case None => None
           case Some(l') => PassBranches(registry, stack, bs[k + 1..], at, l')
  {
    assert bs[k..][0] == bs[k] && bs[k..][1..] == bs[k + 1..];
  }

  lemma LastBranch(registry: map<string, Pou>, stack: set<string>, bs: seq<IfBranch>, at: Place, l: Ledger)
    ensures bs[0..] == bs && PassBranches(registry, stack, bs[|bs|..], at, l) == Some(l)
  {
  }

  lemma IfPasses(registry: map<string, Pou>, stack: set<string>, st: Stmt, at: Place, l: Ledger)
    requires st.If?
    ensures PassStmt(registry, stack, st, at, l) ==
      match PassBranches(registry, stack, st.branches, at, l)
      case None => None
      case Some(l') => PassBlock(registry, stack, st.elseBody, at, l')
  {
  }

  lemma WhilePasses(registry: map<string, Pou>, stack: set<string>, st: Stmt, at: Place, l: Ledger)
    requires st.While?
    ensures PassStmt(registry, stack, st, at, l) == if ExprFound(l, at, st.condition) then PassBlock(registry, stack, st.body, at, l) else None
  {
  }

  // An instance of the POU, one of the program, or a FUNCTION, which is expanded anew
  // for every call and never inside itself.
  ghost function PassCallee(registry: map<string, Pou>, stack: set<string>, callee: string, at: Place, l: Ledger): Option<(Ledger, Pou)>
    decreases registry.Keys - stack, 0
  {
    if callee in at.instances then Some((l, at.instances[callee]))
    else if callee in l.globals then Some((l, l.globals[callee]))
    else if callee !in registry || !registry[callee].isFunction || callee in stack then None
    else
      match EnterPou(registry, stack + {callee}, registry[callee], CallSite(callee, l.calls), l.(calls := l.calls + 1))
      case None => None
      case Some(o) => Some((o.ledger, registry[callee]))
  }

  function CallSite(callee: string, n: nat): string {
    "$fc_" + callee + "_" + Digits(n)
  }

  // ---- Units ----

  // Data block members are elementary.
  ghost function EnterMembers(ds: seq<VarDecl>, block: string, l: Ledger): Option<Ledger> {
    if ds == [] then Some(l)
    else if ds[0].elementaryType.None? then None
    else
      match EnterTag(l, block + "." + ds[0].name, ds[0].elementaryType.value, ds[0].address)
      case None => None
      case Some(l') => EnterMembers(ds[1..], block, l')
  }

  lemma NextMember(ds: seq<VarDecl>, i: nat, block: string, l: Ledger)
    requires i < |ds|
    ensures EnterMembers(ds[i..], block, l) ==
      if ds[i].elementaryType.None? then None
      else match EnterTag(l, block + "." + ds[i].name, ds[i].elementaryType.value, ds[i].address)
           case None => None
           case Some(l') => EnterMembers(ds[i + 1..], block, l')
  {
    assert ds[i..][0] == ds[i] && ds[i..][1..] == ds[i + 1..];
  }

  lemma EveryMember(ds: seq<VarDecl>, block: string, l: Ledger)
    ensures ds[0..] == ds && EnterMembers(ds[|ds|..], block, l) == Some(l)
  {
  }

  ghost function EnterBlocks(dbs: seq<DataBlock>, l: Ledger): Option<Ledger> {
    if dbs == [] then Some(l)
    else
      match EnterMembers(dbs[0].varDecls, dbs[0].name, l)
      case None => None
      case Some(l') => EnterBlocks(dbs[1..], l')
  }

  ghost predicate NamedApart(pous: seq<Pou>) {
    forall i, j | 0 <= i < j < |pous| :: pous[i].name != pous[j].name
  }

  // The POUs by name.
  function Registered(pous: seq<Pou>): map<string, Pou> {
    if pous == [] then map[]
    else Registered(pous[..|pous| - 1])[pous[|pous| - 1].name := pous[|pous| - 1]]
  }

  // Names of POUs differ, every member and variable enters, and the program's body
  // passes among them.
  ghost predicate Accepted(unit: CompilationUnit) {
    NamedApart(unit.pous) && Binds(unit, Registered(unit.pous))
  }

  ghost predicate Binds(unit: CompilationUnit, registry: map<string, Pou>) {
    match EnterBlocks(unit.dataBlocks, Ledger(map["System.CycleTime" := Time], {}, 0, map[]))
    case None => false
    case Some(l) => ProgramBinds(registry, {}, unit.varDecls, unit.body, l)
  }

  ghost predicate ProgramBinds(registry: map<string, Pou>, stack: set<string>, ds: seq<VarDecl>, body: seq<Stmt>, l: Ledger) {
    match EnterVars(registry, stack, ds, "", Opened(l, {}, map[]))
    case None => false
    case Some(o) => PassBlock(registry, stack, body, Place("", o.scope, o.instances), o.ledger).Some?
  }

  lemma {:induction false} RegisteredNames(pous: seq<Pou>)
    ensures forall n :: n in Registered(pous) <==> exists i :: 0 <= i < |pous| && pous[i].name == n
    ensures forall n | n in Registered(pous) :: Registered(pous)[n].name == n && Registered(pous)[n] in pous
  {
    if pous != [] {
      var init, last := pous[..|pous| - 1], pous[|pous| - 1];
      RegisteredNames(init);
      assert forall i | 0 <= i < |init| :: init[i] == pous[i];
      forall n ensures n in Registered(pous) <==> exists i :: 0 <= i < |pous| && pous[i].name == n {
        if n in Registered(init) {
          var i :| 0 <= i < |init| && init[i].name == n;
          assert pous[i].name == n;
        } else if n == last.name {
          assert pous[|pous| - 1].name == n;
        }
      }
    }
  }

  lemma {:induction false} EachRegistered(pous: seq<Pou>)
    requires NamedApart(pous)
    ensures forall p | p in pous :: p.name in Registered(pous) && Registered(pous)[p.name] == p
  {
    if pous != [] {
      var init, last := pous[..|pous| - 1], pous[|pous| - 1];
      EachRegistered(init);
      forall p | p in pous ensures p.name in Registered(pous) && Registered(pous)[p.name] == p {
        var i :| 0 <= i < |pous| && pous[i] == p;
        if i < |init| { assert init[i] in init; }
      }
    }
  }

  lemma CycleTimeEnters()
    ensures EnterTag(Ledger(map[], {}, 0, map[]), "System.CycleTime", Time, None) == Some(Ledger(map["System.CycleTime" := Time], {}, 0, map[]))
  {
  }

  lemma UnitBinds(unit: CompilationUnit)
    ensures Accepted(unit) <==> NamedApart(unit.pous) && Binds(unit, Registered(unit.pous))
  {
  }

  lemma BindsInSteps(unit: CompilationUnit, registry: map<string, Pou>)
    ensures Binds(unit, registry) <==>
      match EnterBlocks(unit.dataBlocks, Ledger(map["System.CycleTime" := Time], {}, 0, map[]))
      case None => false
      case Some(l) => ProgramBinds(registry, {}, unit.varDecls, unit.body, l)
  {
  }

  // ---- Elementary variables, in plain terms ----

  // Their full names and addresses are free, and no two of them share one.
  predicate FreeFor(l: Ledger, prefix: string, ds: seq<VarDecl>) {
    && (forall d | d in ds :: Free(l, prefix, d))
    && forall i, j | 0 <= i < j < |ds| :: Apart(ds[i], ds[j])
  }

  predicate Free(l: Ledger, prefix: string, d: VarDecl) {
    Prefixed(prefix, d.name) !in l.types && (d.address.Some? ==> d.address.value !in l.addresses)
  }

  predicate Apart(c: VarDecl, d: VarDecl) {
    c.name != d.name && (c.address.Some? ==> c.address != d.address)
  }

  lemma FreeForRest(l: Ledger, l': Ledger, prefix: string, ds: seq<VarDecl>)
    requires ds != [] && ds[0].elementaryType.Some?
    requires EnterTag(l, Prefixed(prefix, ds[0].name), ds[0].elementaryType.value, ds[0].address) == Some(l')
    ensures FreeFor(l, prefix, ds) <==> FreeFor(l', prefix, ds[1..])
  {
    var c := ds[0];
    forall d | d in ds[1..] ensures Free(l', prefix, d) <==> Free(l, prefix, d) && Apart(c, d) {
      if Prefixed(prefix, c.name) == Prefixed(prefix, d.name) { PrefixedInjective(prefix, c.name, d.name); }
    }
    assert forall d | d in ds :: d == c || d in ds[1..];
    if FreeFor(l, prefix, ds) {
      forall d | d in ds[1..] ensures Apart(c, d) { var j :| 0 <= j < |ds[1..]| && ds[1..][j] == d; assert Apart(ds[0], ds[j + 1]); }
      forall i, j | 0 <= i < j < |ds[1..]| ensures Apart(ds[1..][i], ds[1..][j]) { assert Apart(ds[i + 1], ds[j + 1]); }
    }
    if FreeFor(l', prefix, ds[1..]) {
      forall i, j | 0 <= i < j < |ds| ensures Apart(ds[i], ds[j]) {
        assert ds[j] == ds[1..][j - 1];
        if i > 0 { assert Apart(ds[1..][i - 1], ds[1..][j - 1]); }
      }
    }
  }

  function NamesOf(ds: seq<VarDecl>): set<string> { set d | d in ds :: d.name }

  function FullNames(prefix: string, ds: seq<VarDecl>): set<string> { set d | d in ds :: Prefixed(prefix, d.name) }

  lemma NamesSplit(prefix: string, ds: seq<VarDecl>)
    requires ds != []
    ensures NamesOf(ds) == {ds[0].name} + NamesOf(ds[1..])
    ensures FullNames(prefix, ds) == {Prefixed(prefix, ds[0].name)} + FullNames(prefix, ds[1..])
  {
    assert ds[0] in ds && forall c | c in ds :: c == ds[0] || c in ds[1..];
  }

  // Declarations without instances are accepted exactly then, and bring exactly their own
  // names into scope.
  lemma {:induction false} ElementaryVarsEnter(registry: map<string, Pou>, stack: set<string>, ds: seq<VarDecl>, prefix: string, o: Opened)
    requires AllElementary(ds)
    ensures var r := EnterVars(registry, stack, ds, prefix, o);
            && (r.Some? <==> FreeFor(o.ledger, prefix, ds))
            && (r.Some? ==> r.value.scope == o.scope + NamesOf(ds) && r.value.instances == o.instances)
            && (r.Some? ==> r.value.ledger.types.Keys == o.ledger.types.Keys + FullNames(prefix, ds))
    decreases |ds|
  {
    if ds != [] {
      hide FreeFor, NamesOf, FullNames, Prefixed;
      var d := ds[0];
      assert d in ds;
      NamesSplit(prefix, ds);
      var l := EnterTag(o.ledger, Prefixed(prefix, d.name), d.elementaryType.value, d.address);
      if l.Some? {
        FreeForRest(o.ledger, l.value, prefix, ds);
        ElementaryVarsEnter(registry, stack, ds[1..], prefix, o.(ledger := l.value, scope := o.scope + {d.name}));
      } else {
        NotFree(o.ledger, prefix, ds);
      }
    }
  }

  lemma NotFree(l: Ledger, prefix: string, ds: seq<VarDecl>)
    requires ds != [] && !Free(l, prefix, ds[0])
    ensures !FreeFor(l, prefix, ds)
  {
    assert ds[0] in ds;
  }

  // ---- Bodies without calls, in plain terms ----

  // Every name in it is declared, and every coil is a BOOL.
  ghost predicate StmtFound(l: Ledger, at: Place, st: Stmt)
    decreases st
  {
    match st
    case Assign(target, _, x) => Found(l, at, target) && ExprFound(l, at, x)
    case If(branches, els) => (forall b | b in branches :: ExprFound(l, at, b.condition) && BlockFound(l, at, b.body)) && BlockFound(l, at, els)
    case While(c, body) => ExprFound(l, at, c) && BlockFound(l, at, body)
    case Call(_, _, _) => false
    case Rung(c, outs) => ExprFound(l, at, c) && forall o | o in outs :: CoilFound(l, at, o)
  }

  ghost predicate BlockFound(l: Ledger, at: Place, ss: seq<Stmt>)
    decreases ss
  {
    forall st | st in ss :: StmtFound(l, at, st)
  }

  // Such a body is accepted exactly then, and declares nothing.
  lemma {:induction false} CallFreeBlockPasses(registry: map<string, Pou>, stack: set<string>, ss: seq<Stmt>, at: Place, l: Ledger)
    requires CallFree(ss)
    ensures PassBlock(registry, stack, ss, at, l) == if BlockFound(l, at, ss) then Some(l) else None
    decreases ss
  {
    if ss != [] {
      assert ss[0] in ss && forall st | st in ss :: st == ss[0] || st in ss[1..];
      CallFreeStmtPasses(registry, stack, ss[0], at, l);
      CallFreeBlockPasses(registry, stack, ss[1..], at, l);
    }
  }

  lemma {:induction false} CallFreeStmtPasses(registry: map<string, Pou>, stack: set<string>, st: Stmt, at: Place, l: Ledger)
    requires CallFreeStmt(st)
    ensures PassStmt(registry, stack, st, at, l) == if StmtFound(l, at, st) then Some(l) else None
    decreases st
  {
    match st
    case If(branches, els) =>
      CallFreeBranchesPass(registry, stack, branches, at, l);
      CallFreeBlockPasses(registry, stack, els, at, l);
    case While(_, body) => CallFreeBlockPasses(registry, stack, body, at, l);
    case _ =>
  }

  lemma {:induction false} CallFreeBranchesPass(registry: map<string, Pou>, stack: set<string>, bs: seq<IfBranch>, at: Place, l: Ledger)
    requires forall b | b in bs :: CallFree(b.body)
    ensures PassBranches(registry, stack, bs, at, l) ==
            if forall b | b in bs :: ExprFound(l, at, b.condition) && BlockFound(l, at, b.body) then Some(l) else None
    decreases bs
  {
    if bs != [] {
      assert bs[0] in bs && forall b | b in bs :: b == bs[0] || b in bs[1..];
      CallFreeBlockPasses(registry, stack, bs[0].body, at, l);
      CallFreeBranchesPass(registry, stack, bs[1..], at, l);
    }
  }

  // ---- Nothing is ever taken back ----

  predicate Extends(l: Ledger, l': Ledger) {
    && l.types.Keys <= l'.types.Keys && l.addresses <= l'.addresses && l.calls <= l'.calls && l.globals.Keys <= l'.globals.Keys
    && forall n | n in l.types :: l'.types[n] == l.types[n]
  }

  lemma {:induction false} VarsExtend(registry: map<string, Pou>, stack: set<string>, ds: seq<VarDecl>, prefix: string, o: Opened)
    ensures var r := EnterVars(registry, stack, ds, prefix, o); r.Some? ==> Extends(o.ledger, r.value.ledger)
    decreases registry.Keys - stack, 1, ds
  {
    if ds != [] {
      VarExtends(registry, stack, ds[0], prefix, o);
      var r := EnterVar(registry, stack, ds[0], prefix, o);
      if r.Some? { VarsExtend(registry, stack, ds[1..], prefix, r.value); }
    }
  }

  lemma {:induction false} VarExtends(registry: map<string, Pou>, stack: set<string>, d: VarDecl, prefix: string, o: Opened)
    ensures var r := EnterVar(registry, stack, d, prefix, o); r.Some? ==> Extends(o.ledger, r.value.ledger)
    decreases registry.Keys - stack, 0
  {
    if d.elementaryType.None? && d.instanceOfType.Some? {
      var t := d.instanceOfType.value;
      if t in registry && t !in stack { PouExtends(registry, stack + {t}, registry[t], Prefixed(prefix, d.name), o.ledger); }
    }
  }

  lemma {:induction false} PouExtends(registry: map<string, Pou>, stack: set<string>, pou: Pou, prefix: string, l: Ledger)
    ensures var r := EnterPou(registry, stack, pou, prefix, l); r.Some? ==> Extends(l, r.value.ledger)
    decreases registry.Keys - stack, 4
  {
    VarsExtend(registry, stack, pou.varDecls, prefix, Opened(l, {}, map[]));
    var o := EnterVars(registry, stack, pou.varDecls, prefix, Opened(l, {}, map[]));
    if o.Some? { BlockExtends(registry, stack, pou.body, Place(prefix, o.value.scope, o.value.instances), o.value.ledger); }
  }

  lemma {:induction false} BlockExtends(registry: map<string, Pou>, stack: set<string>, ss: seq<Stmt>, at: Place, l: Ledger)
    ensures var r := PassBlock(registry, stack, ss, at, l); r.Some? ==> Extends(l, r.value)
    decreases registry.Keys - stack, 2, ss
  {
    if ss != [] {
      StmtExtends(registry, stack, ss[0], at, l);
      var r := PassStmt(registry, stack, ss[0], at, l);
      if r.Some? { BlockExtends(registry, stack, ss[1..], at, r.value); }
    }
  }

  lemma {:induction false} StmtExtends(registry: map<string, Pou>, stack: set<string>, st: Stmt, at: Place, l: Ledger)
    ensures var r := PassStmt(registry, stack, st, at, l); r.Some? ==> Extends(l, r.value)
    decreases registry.Keys - stack, 2, st
  {
    match st
    case If(branches, els) =>
      BranchesExtend(registry, stack, branches, at, l);
      var r := PassBranches(registry, stack, branches, at, l);
      if r.Some? { BlockExtends(registry, stack, els, at, r.value); }
    case While(_, body) => BlockExtends(registry, stack, body, at, l);
    case Call(callee, _, _) =>
      if callee in registry && callee !in stack {
        PouExtends(registry, stack + {callee}, registry[callee], CallSite(callee, l.calls), l.(calls := l.calls + 1));
      }
    case _ =>
  }

  lemma {:induction false} BranchesExtend(registry: map<string, Pou>, stack: set<string>, bs: seq<IfBranch>, at: Place, l: Ledger)
    ensures var r := PassBranches(registry, stack, bs, at, l); r.Some? ==> Extends(l, r.value)
    decreases registry.Keys - stack, 2, bs
  {
    if bs != [] {
      BlockExtends(registry, stack, bs[0].body, at, l);
      var r := PassBlock(registry, stack, bs[0].body, at, l);
      if r.Some? { BranchesExtend(registry, stack, bs[1..], at, r.value); }
    }
  }

  // ---- A POU with a variable at an address is expanded once ----

  lemma {:induction false} AddressTaken(registry: map<string, Pou>, stack: set<string>, ds: seq<VarDecl>, d: VarDecl, prefix: string, o: Opened)
    requires d in ds && d.elementaryType.Some? && d.address.Some?
    ensures var r := EnterVars(registry, stack, ds, prefix, o);
            r.Some? ==> d.address.value !in o.ledger.addresses && d.address.value in r.value.ledger.addresses
    decreases |ds|
  {
    var first := EnterVar(registry, stack, ds[0], prefix, o);
    if first.Some? {
      VarExtends(registry, stack, ds[0], prefix, o);
      VarsExtend(registry, stack, ds[1..], prefix, first.value);
      if d != ds[0] { AddressTaken(registry, stack, ds[1..], d, prefix, first.value); }
    }
  }

  // A FUNCTION with such a variable can be called in one place only, and of a
  // FUNCTION_BLOCK with one there can be one instance only: after one expansion, and
  // whatever else has been bound since, every other is rejected.
  lemma AddressedPouExpandsOnce(registry: map<string, Pou>, stack: set<string>, pou: Pou, prefix: string, l: Ledger,
                                stack': set<string>, prefix': string, l': Ledger, d: VarDecl)
    requires d in pou.varDecls && d.elementaryType.Some? && d.address.Some?
    requires var first := EnterPou(registry, stack, pou, prefix, l); first.Some? && Extends(first.value.ledger, l')
    ensures EnterPou(registry, stack', pou, prefix', l') == None
  {
    var o := EnterVars(registry, stack, pou.varDecls, prefix, Opened(l, {}, map[])).value;
    AddressTaken(registry, stack, pou.varDecls, d, prefix, Opened(l, {}, map[]));
    BlockExtends(registry, stack, pou.body, Place(prefix, o.scope, o.instances), o.ledger);
    AddressTaken(registry, stack', pou.varDecls, d, prefix', Opened(l', {}, map[]));
  }

  // ---- Call sites never share a name ----

  lemma {:induction false} DigitsInjective(m: nat, n: nat)
    requires Digits(m) == Digits(n)
    ensures m == n
  {
    DigitsEnd(m);
    DigitsEnd(n);
    assert |Digits(m)| == |Digits(n)|;
    if m >= 10 && n >= 10 { DigitsInjective(m / 10, n / 10); }
  }

  lemma DigitsEnd(n: nat)
    ensures Digits(n) != [] && Digits(n)[|Digits(n)| - 1] == "0123456789"[n % 10]
    ensures n >= 10 ==> Digits(n)[..|Digits(n)| - 1] == Digits(n / 10) && Digits(n / 10) != []
  {
  }

  lemma {:induction false} DigitsOnly(n: nat)
    ensures forall i | 0 <= i < |Digits(n)| :: '0' <= Digits(n)[i] <= '9'
  {
    if n >= 10 { DigitsOnly(n / 10); }
  }

  lemma CallSiteEnd(callee: string, n: nat)
    requires '.' !in callee
    ensures var s, d := CallSite(callee, n), |Digits(n)|;
            |s| > d > 0 && s[|s| - d..] == Digits(n) && s[|s| - d - 1] == '_' && '.' !in s
  {
    DigitsOnly(n);
    DigitsEnd(n);
    assert CallSite(callee, n) == ("$fc_" + callee + "_") + Digits(n);
  }

  // Whatever FUNCTIONs two calls expand, no variable of the one has a name of the other's.
  lemma CallSitesApart(f: string, m: nat, a: string, g: string, n: nat, b: string)
    requires '.' !in f && '.' !in g && m != n
    ensures Prefixed(CallSite(f, m), a) != Prefixed(CallSite(g, n), b)
  {
    var s, t := CallSite(f, m), CallSite(g, n);
    CallSiteEnd(f, m);
    CallSiteEnd(g, n);
    if Prefixed(s, a) == Prefixed(t, b) {
      SamePrefix(s, a, t, b);
      DigitsOnly(m);
      DigitsOnly(n);
      assert |Digits(m)| == |Digits(n)|;
      DigitsInjective(m, n);
    }
  }

  lemma SamePrefix(s: string, a: string, t: string, b: string)
    requires '.' !in s && '.' !in t && s + "." + a == t + "." + b
    ensures s == t
  {
    var u, v := s + "." + a, t + "." + b;
    assert u[|s|] == '.' && v[|t|] == '.';
    assert u[..|s|] == s && v[..|t|] == t;
  }
}

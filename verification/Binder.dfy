// The binder (src/st/pou_binder.cpp): clones each FB instance and FC call site
// into its own frame and turns every name into a tag number.

module Binder {
  import opened Values
  import opened Ast
  import opened Agreement
  import opened Footprint
  import opened BoundUnit
  import opened Expansion
  import opened Faithful
  import opened Names
  import A = Acceptance

  lemma InstancePrefix(prefix: string, d: VarDecl)
    requires DeclParsed(d)
    ensures Prefixed(prefix, d.name) != "" && (!Plain(prefix) ==> !Plain(Prefixed(prefix, d.name)))
  {
    if !Plain(prefix) { PrefixedMarked(prefix, d.name); }
  }

  lemma PrefixedMarked(prefix: string, name: string)
    requires !Plain(prefix)
    ensures !Plain(Prefixed(prefix, name))
  {
    assert MARK in prefix + "." + name;
  }

  // One more elementary declaration, under a name not declared before.
  lemma DeclaredSnoc(e: Env, e': Env, ds: seq<VarDecl>, prefix: string, scope: map<string, nat>, d: VarDecl, id: nat)
    requires Grows(e, e') && Columns(e) && Columns(e') && |e'.frames| == |e'.info| && Declared(e, ds, prefix, scope)
    requires d.elementaryType.Some? && id == |e.names| && Prefixed(prefix, d.name) !in e.names
    requires TagAt(e', id, Prefixed(prefix, d.name), d)
    ensures Declared(e', ds + [d], prefix, scope[d.name := id])
  {
    DeclaredGrows(e, e', ds, prefix, scope);
    forall c | c in ds && c.elementaryType.Some? ensures c.name != d.name {
      assert e.names[scope[c.name]] in e.names;
    }
    forall i, j | 0 <= i < j < |ds + [d]| ensures DistinctTags(ds + [d], i, j) {
      if j < |ds| { assert DistinctTags(ds, i, j); } else { assert (ds + [d])[i] in ds; }
    }
    assert forall c | c in ds + [d] :: c in ds || c == d;
  }

  // One more instance: its members come in under dotted names, which no
  // declaration has.
  lemma DeclaredInstance(e: Env, e': Env, ds: seq<VarDecl>, prefix: string, scope: map<string, nat>, d: VarDecl, members: map<string, nat>)
    requires Grows(e, e') && Columns(e') && |e'.frames| == |e'.info| && Declared(e, ds, prefix, scope) && DeclsParsed(ds)
    requires d.elementaryType.None? && InstanceBuilt(e', prefix, d) && forall k | k in members :: '.' in k
    ensures Declared(e', ds + [d], prefix, scope + members)
  {
    DeclaredGrows(e, e', ds, prefix, scope);
    forall c | c in ds && c.elementaryType.Some? ensures c.name !in members {
      assert DeclParsed(c);
    }
    forall i, j | 0 <= i < j < |ds + [d]| ensures DistinctTags(ds + [d], i, j) {
      if j < |ds| { assert DistinctTags(ds, i, j); }
    }
    assert forall c | c in ds + [d] :: c in ds || c == d;
  }

  lemma InstanceAdded(e: Env, e': Env, ds: seq<VarDecl>, prefix: string, scope: map<string, nat>, instances: map<string, Callable>, d: VarDecl, c: Callable)
    requires Advances(e, e') && Declared(e, ds, prefix, scope) && DeclsParsed(ds) && d.elementaryType.None?
    requires CallablesGood(e, instances) && CallableGood(e', c)
    requires CallableNamed(e', Prefixed(prefix, d.name), c) && d.instanceOfType == Some(c.pou.name)
    requires forall k | k in c.params :: |e.names| <= c.params[k] < |e'.names|
    ensures Declared(e', ds + [d], prefix, scope + Members(d.name, c.params))
    ensures CallablesGood(e', instances[d.name := c])
    ensures var scope' := scope + Members(d.name, c.params);
            forall k | k in scope' :: (k in scope && scope'[k] == scope[k]) || |e.names| <= scope'[k] < |e'.names|
  {
    hide Declared, CallableGood;
    assert FrameOf(e', c.frameIndex, Prefixed(prefix, d.name), d.instanceOfType);
    DeclaredInstance(e, e', ds, prefix, scope, d, Members(d.name, c.params));
    CallablesGoodGrow(e, e', instances);
  }

  lemma InstanceNamed(e: Env, e': Env, prefix: string, scope: map<string, nat>, instances: map<string, Callable>, d: VarDecl, c: Callable)
    requires Advances(e, e') && ScopeNames(e, prefix, scope) && InstancesNamed(e, prefix, instances)
    requires CallableNamed(e', Prefixed(prefix, d.name), c) && DeclParsed(d)
    ensures ScopeNames(e', prefix, scope + Members(d.name, c.params)) && InstancesNamed(e', prefix, instances[d.name := c])
  {
    MembersNamed(e', prefix, d.name, c.params);
    ScopesMerge(e', prefix, scope, Members(d.name, c.params));
    InstancesNamedGrow(e, e', prefix, instances);
  }

  // The members of a nested instance, seen from outside.
  function Members(name: string, inner: map<string, nat>): (r: map<string, nat>)
    ensures forall k | k in r :: '.' in k && r[k] in inner.Values
    ensures forall k | k in r :: exists j :: j in inner.Keys && k == name + "." + j && r[k] == inner[j]
  {
    DottedInjective(name);
    var r := map k | k in inner.Keys :: name + "." + k := inner[k];
    assert forall k | k in inner.Keys :: '.' in name + "." + k;
    r
  }

  lemma DottedInjective(name: string)
    ensures forall a: string, b: string | name + "." + a == name + "." + b :: a == b
  {
    forall a: string, b: string | name + "." + a == name + "." + b ensures a == b {
      assert (name + "." + a)[|name| + 1..] == a;
      assert (name + "." + b)[|name| + 1..] == b;
    }
  }

  // A nested instance's members keep their full names.
  lemma MembersNamed(e: Env, prefix: string, name: string, inner: map<string, nat>)
    requires ScopeNames(e, Prefixed(prefix, name), inner) && name != ""
    ensures ScopeNames(e, prefix, Members(name, inner))
  {
    hide Prefixed;
    var members := Members(name, inner);
    forall k | k in members ensures members[k] < |e.names| && e.names[members[k]] == Prefixed(prefix, k) {
      var j :| j in inner.Keys && k == name + "." + j && members[k] == inner[j];
      PrefixedTwice(prefix, name, j);
    }
  }

  lemma PrefixedTwice(prefix: string, name: string, member: string)
    requires name != ""
    ensures Prefixed(Prefixed(prefix, name), member) == Prefixed(prefix, name + "." + member)
  {
    if prefix != "" {
      assert prefix + "." + (name + "." + member) == (prefix + "." + name) + "." + member;
    }
  }

  lemma NoMembers(e: Env, block: string)
    requires Columns(e) && |e.info| == |e.frames|
    ensures MembersDeclared(e, block, []) && Advances(e, e)
  {
  }

  lemma MembersDeclaredSnoc(e: Env, e': Env, block: string, ds: seq<VarDecl>, d: VarDecl, id: nat)
    requires Advances(e, e') && MembersDeclared(e, block, ds)
    requires d.elementaryType.Some? && TagAt(e', id, block + "." + d.name, d)
    ensures MembersDeclared(e', block, ds + [d])
  {
    MembersDeclaredGrow(e, e', block, ds);
    assert MemberDeclared(e', block, d);
  }

  // Two elementary declarations with one tag are the same declaration.
  lemma DeclaredInjective(e: Env, ds: seq<VarDecl>, prefix: string, scope: map<string, nat>, c: VarDecl, d: VarDecl)
    requires Declared(e, ds, prefix, scope) && c in ds && d in ds && c.elementaryType.Some? && d.elementaryType.Some?
    requires scope[c.name] == scope[d.name]
    ensures c == d
  {
    PrefixedInjective(prefix, c.name, d.name);
    var i :| 0 <= i < |ds| && ds[i] == c;
    var j :| 0 <= j < |ds| && ds[j] == d;
    if i < j { NamesApart(ds, i, j); }
    if j < i { NamesApart(ds, j, i); }
  }

  lemma NamesApart(ds: seq<VarDecl>, i: nat, j: nat)
    requires i < j < |ds| && (forall a, b | 0 <= a < b < |ds| :: DistinctTags(ds, a, b))
    requires ds[i].elementaryType.Some? && ds[j].elementaryType.Some?
    ensures ds[i].name != ds[j].name
  {
    assert DistinctTags(ds, i, j);
  }

  // ---- Name resolution ----

  predicate ByNameGood(e: Env, byName: map<string, nat>) {
    && (forall n | n in byName :: byName[n] < |e.names| && e.names[byName[n]] == n)
    && (forall i | 0 <= i < |e.names| :: NumberOf(e.names, byName, i))
  }

  predicate NumberOf(names: seq<string>, byName: map<string, nat>, i: nat)
    requires i < |names|
  {
    names[i] in byName && byName[names[i]] == i
  }

  lemma ResolveKnown(e: Env, name: string, scope: map<string, nat>, byName: map<string, nat>)
    requires ByNameGood(e, byName) && ScopeGood(e, scope) && Plain(name)
    ensures var r := Resolve(name, scope, byName); r.Some? ==> r.value < |e.names| && r.value in Known(e, scope)
  {
  }

  lemma {:induction false} BindExprKnown(e: Env, x: Expr, scope: map<string, nat>, byName: map<string, nat>)
    requires ByNameGood(e, byName) && ScopeGood(e, scope) && ExprPlain(x)
    ensures var r := BindExpr(x, scope, byName); r.Some? ==> ExprBound(r.value, |e.names|) && Reads(r.value) <= Known(e, scope)
  {
    match x
    case Literal(_) =>
    case Identifier(n, _) => ResolveKnown(e, n, scope, byName);
    case Unary(_, y) => BindExprKnown(e, y, scope, byName);
    case Binary(_, l, r) => BindExprKnown(e, l, scope, byName); BindExprKnown(e, r, scope, byName);
  }

  lemma {:induction false} BindExprBinds(e: Env, x: Expr, at: Site, byName: map<string, nat>)
    requires ByNameGood(e, byName) && ScopeNames(e, at.prefix, at.scope)
    ensures var r := BindExpr(x, at.scope, byName); r.Some? ==> ExprBinds(e, at, x, r.value)
  {
    match x
    case Unary(_, y) => BindExprBinds(e, y, at, byName);
    case Binary(_, l, r) => BindExprBinds(e, l, at, byName); BindExprBinds(e, r, at, byName);
    case _ =>
  }

  // The first VAR_INPUT or VAR_OUTPUT of that name.
  function FindParam(ds: seq<VarDecl>, name: string): (r: Option<VarDecl>)
    ensures r.Some? ==> r.value in ds && r.value.name == name && IsParam(r.value)
  {
    if ds == [] then None
    else if ds[0].name == name && IsParam(ds[0]) then Some(ds[0])
    else FindParam(ds[1..], name)
  }

  function InputsOf(ds: seq<VarDecl>, scope: map<string, nat>): set<nat> {
    set d | d in ds && d.kind == VarInput && d.name in scope :: scope[d.name]
  }

  // The frame built from a bound body meets every frame condition, and its
  // parameters can be passed by calls.
  lemma NewFrame(e: Env, e': Env, pou: Pou, prefix: string, scope: map<string, nat>, lo: nat, body: seq<Stmt>, resets: seq<TempReset>, fi: FrameInfo)
    requires PouParsed(pou) && Columns(e) && |e.info| == |e.frames|
    requires Declared(e, pou.varDecls, prefix, scope) && BlockOk(e, scope, body)
    requires ResetsMatch(resets, pou, pou.varDecls, scope)
    requires lo <= |e.names| && forall k | k in scope :: lo <= scope[k] < |e.names|
    requires AllElementary(pou.varDecls) ==> ScopeOf(pou.varDecls, scope)
    requires !Plain(prefix) ==> forall id | lo <= id < |e.names| :: Marked(e.names, id)
    requires fi == FrameInfo(lo, |e.names|, pou.isFunction, !Plain(prefix), scope.Values, InputsOf(pou.varDecls, scope), pou, scope, fi.globals)
    requires e' == e.(frames := e.frames + [Frame(prefix, body, resets)], info := e.info + [fi])
    ensures FrameGood(e', |e.frames|)
    ensures CallableGood(e', Callable(pou, |e.frames|, scope))
  {
    var f, ds := |e.frames|, pou.varDecls;
    BlockBoundGrows(e, e', f, f, body);
    BlockPassesGrows(e, e', body);
    ResetsInScope(e, pou, prefix, scope, resets);
    if pou.isFunction { FunctionStorage(pou, scope, resets); }
    forall d | d in ds && IsParam(d) ensures d.name in scope && ParamGood(e', Callable(pou, f, scope), d) {
      ParamNotReset(e, pou, prefix, scope, resets, d);
    }
  }

  lemma ResetInScope(e: Env, pou: Pou, prefix: string, scope: map<string, nat>, resets: seq<TempReset>, r: TempReset)
    requires PouParsed(pou) && Declared(e, pou.varDecls, prefix, scope) && ResetsMatch(resets, pou, pou.varDecls, scope) && r in resets
    ensures r.id < |e.types| && TypeOf(r.value) == e.types[r.id] && r.id in scope.Values
  {
    hide ResetIds;
    var d :| d in pou.varDecls && IsReset(pou, d) && d.name in scope && ResetOf(r, d, scope);
    assert DeclParsed(d) && scope[d.name] in scope.Values;
  }

  lemma ResetsInScope(e: Env, pou: Pou, prefix: string, scope: map<string, nat>, resets: seq<TempReset>)
    requires PouParsed(pou) && Declared(e, pou.varDecls, prefix, scope) && ResetsMatch(resets, pou, pou.varDecls, scope)
    ensures ResetsBound(e.types, resets) && ResetIds(resets) <= scope.Values
  {
    hide PouParsed, Declared, ResetsMatch;
    forall r | r in resets ensures r.id < |e.types| && TypeOf(r.value) == e.types[r.id] && r.id in scope.Values {
      ResetInScope(e, pou, prefix, scope, resets, r);
    }
  }

  // A FUNCTION declares nothing but inputs and tags that are reset.
  lemma FunctionStorage(pou: Pou, scope: map<string, nat>, resets: seq<TempReset>)
    requires PouParsed(pou) && pou.isFunction && ResetsMatch(resets, pou, pou.varDecls, scope)
    requires AllElementary(pou.varDecls) ==> ScopeOf(pou.varDecls, scope)
    ensures scope.Values == InputsOf(pou.varDecls, scope) + ResetIds(resets)
  {
    forall d | d in pou.varDecls ensures d.elementaryType.Some? { assert DeclParsed(d); }
    forall id | id in scope.Values ensures id in InputsOf(pou.varDecls, scope) + ResetIds(resets) {
      var k :| k in scope && scope[k] == id;
      assert DeclaresName(pou.varDecls, k);
      var d :| d in pou.varDecls && d.name == k;
      assert d.kind == VarInput || IsReset(pou, d);
    }
    forall id | id in ResetIds(resets) ensures id in scope.Values {
      var r :| r in resets && r.id == id;
      var d :| d in pou.varDecls && IsReset(pou, d) && d.name in scope && ResetOf(r, d, scope);
    }
  }

  lemma ResetWithId(resets: seq<TempReset>, id: nat) returns (r: TempReset)
    requires id in ResetIds(resets)
    ensures r in resets && r.id == id
  {
    r :| r in resets && r.id == id;
  }

  // An input never shares its tag with a temporary.
  lemma ParamNotReset(e: Env, pou: Pou, prefix: string, scope: map<string, nat>, resets: seq<TempReset>, d: VarDecl)
    requires PouParsed(pou) && Declared(e, pou.varDecls, prefix, scope) && ResetsMatch(resets, pou, pou.varDecls, scope)
    requires d in pou.varDecls && IsParam(d)
    ensures d.name in scope
    ensures d.kind == VarInput ==> scope[d.name] !in ResetIds(resets)
    ensures d.kind == VarOutput && pou.isFunction ==> scope[d.name] in ResetIds(resets)
  {
    hide ResetIds, StartsAs;
    assert DeclParsed(d);
    if d.kind == VarInput && scope[d.name] in ResetIds(resets) {
      var r := ResetWithId(resets, scope[d.name]);
      var c :| c in pou.varDecls && IsReset(pou, c) && c.name in scope && ResetOf(r, c, scope);
      DeclaredInjective(e, pou.varDecls, prefix, scope, c, d);
    }
  }

  predicate InitialsTyped(types: seq<TypeId>, initials: seq<Value>) {
    |types| == |initials| && forall i | 0 <= i < |types| :: TypeOf(initials[i]) == types[i]
  }

  lemma InitialsSnoc(types: seq<TypeId>, initials: seq<Value>, t: TypeId, initial: Value)
    requires InitialsTyped(types, initials) && TypeOf(initial) == t
    ensures InitialsTyped(types + [t], initials + [initial])
  {
  }

  lemma NamesByNumber(e: Env, byName: map<string, nat>, name: string)
    requires ByNameGood(e, byName)
    ensures name in byName <==> name in e.names
  {
    if name in e.names {
      var i :| 0 <= i < |e.names| && e.names[i] == name;
      assert NumberOf(e.names, byName, i);
    }
  }

  lemma ByNameSnoc(e: Env, e': Env, byName: map<string, nat>, name: string)
    requires ByNameGood(e, byName) && name !in byName && e'.names == e.names + [name]
    ensures ByNameGood(e', byName[name := |e.names|])
  {
    var byName' := byName[name := |e.names|];
    forall i | 0 <= i < |e'.names| ensures NumberOf(e'.names, byName', i) {
      if i < |e.names| { assert NumberOf(e.names, byName, i); }
    }
  }

  lemma ScopeOfSnoc(ds: seq<VarDecl>, d: VarDecl, scope: map<string, nat>, scope': map<string, nat>)
    requires AllElementary(ds) ==> ScopeOf(ds, scope)
    requires d.elementaryType.Some? ==> scope'.Keys == scope.Keys + {d.name}
    ensures AllElementary(ds + [d]) ==> ScopeOf(ds + [d], scope')
  {
    if AllElementary(ds + [d]) {
      assert d in ds + [d];
      assert forall c | c in ds :: c in ds + [d];
      forall k | k in scope' ensures DeclaresName(ds + [d], k) {
        if k in scope { assert DeclaresName(ds, k); }
      }
    }
  }

  lemma DeclsAcyclicSnoc(registry: map<string, Pou>, shadow: set<string>, ds: seq<VarDecl>, d: VarDecl, stack: set<string>)
    requires DeclsAcyclic(registry, shadow, ds, stack) && DeclsAcyclic(registry, shadow, [d], stack)
    ensures DeclsAcyclic(registry, shadow, ds + [d], stack)
  {
    assert d in [d];
    forall c | c in ds + [d] && c.elementaryType.None?
      ensures c.instanceOfType.Some? && TypeAcyclic(registry, shadow, c.instanceOfType.value, stack)
    {
      assert c in ds || c == d;
    }
  }

  lemma InstanceNamesSnoc(ds: seq<VarDecl>, d: VarDecl)
    ensures InstanceNames(ds + [d]) == InstanceNames(ds) + InstanceNames([d])
  {
    assert forall c | c in ds + [d] :: c in ds || c == d;
    assert forall c | c in ds || c == d :: c in ds + [d];
  }

  predicate NoDuplicates(names: seq<string>) {
    forall i, j | 0 <= i < j < |names| :: names[i] != names[j]
  }

  // The addresses in use are those of the tags, each of one tag.
  ghost predicate PlacesGood(places: seq<Option<Address>>, addresses: set<Address>) {
    && (forall a: Address :: a in addresses <==> Some(a) in places)
    && forall i, j | 0 <= i < j < |places| && places[i].Some? :: places[i] != places[j]
  }

  lemma PlacesInUse(places: seq<Option<Address>>, addresses: set<Address>, address: Option<Address>)
    requires PlacesGood(places, addresses)
    ensures address.Some? ==> (address.value in addresses <==> address in places)
  {
  }

  lemma PlacesSnoc(places: seq<Option<Address>>, addresses: set<Address>, address: Option<Address>)
    requires PlacesGood(places, addresses) && (address.Some? ==> address.value !in addresses)
    ensures PlacesGood(places + [address], if address.Some? then addresses + {address.value} else addresses)
  {
  }

  // ---- What acceptance depends on ----

  function TypesByName(byName: map<string, nat>, types: seq<TypeId>): map<string, TypeId> {
    map n | n in byName && byName[n] < |types| :: types[byName[n]]
  }

  function Pous(cs: map<string, Callable>): map<string, Pou> {
    map n | n in cs :: cs[n].pou
  }

  lemma TypesSnoc(e: Env, byName: map<string, nat>, name: string, t: TypeId)
    requires ByNameGood(e, byName) && Columns(e)
    ensures TypesByName(byName[name := |e.names|], e.types + [t]) == TypesByName(byName, e.types)[name := t]
    ensures name in TypesByName(byName, e.types) <==> name in byName
  {
  }

  lemma PousSnoc(cs: map<string, Callable>, name: string, c: Callable)
    ensures Pous(cs[name := c]) == Pous(cs)[name := c.pou]
  {
  }

  lemma NoPrefix(name: string)
    ensures Prefixed("", name) == name
  {
  }

  lemma DottedKeys(name: string, inner: map<string, nat>)
    ensures Members(name, inner).Keys == A.Dotted(name, inner.Keys)
  {
  }

  predicate SeenFrom(place: A.Place, prefix: string, scope: map<string, nat>) {
    place.prefix == prefix && place.scope == scope.Keys
  }

  // A name resolves exactly when its full name has been declared, to a tag of that type.
  lemma ResolveFinds(e: Env, l: A.Ledger, place: A.Place, name: string, scope: map<string, nat>, byName: map<string, nat>)
    requires ByNameGood(e, byName) && Columns(e) && ScopeNames(e, place.prefix, scope) && SeenFrom(place, place.prefix, scope)
    requires l.types == TypesByName(byName, e.types)
    ensures var id := Resolve(name, scope, byName);
            && (id.Some? <==> A.Found(l, place, name))
            && (id.Some? ==> id.value < |e.types| && l.types[A.FullName(place, name)] == e.types[id.value])
  {
    if name in scope { assert NumberOf(e.names, byName, scope[name]); }
  }

  lemma {:induction false} BindExprFinds(e: Env, l: A.Ledger, place: A.Place, x: Expr, scope: map<string, nat>, byName: map<string, nat>)
    requires ByNameGood(e, byName) && Columns(e) && ScopeNames(e, place.prefix, scope) && SeenFrom(place, place.prefix, scope)
    requires l.types == TypesByName(byName, e.types)
    ensures BindExpr(x, scope, byName).Some? <==> A.ExprFound(l, place, x)
  {
    match x
    case Literal(_) =>
    case Identifier(n, _) => ResolveFinds(e, l, place, n, scope, byName);
    case Unary(_, y) => BindExprFinds(e, l, place, y, scope, byName);
    case Binary(_, a, b) => BindExprFinds(e, l, place, a, scope, byName); BindExprFinds(e, l, place, b, scope, byName);
  }

  // Where no two variables share a name, the first parameter of a name is the only one.
  lemma {:induction false} FindParamFinds(ds: seq<VarDecl>, a: CallArg)
    requires DeclsParsed(ds) && forall i, j | 0 <= i < j < |ds| :: DistinctTags(ds, i, j)
    ensures var d := FindParam(ds, a.paramName); var kind := if a.InputArg? then VarInput else VarOutput;
            (d.Some? && d.value.kind == kind) <==> exists c :: c in ds && c.name == a.paramName && c.kind == kind
  {
    if ds != [] {
      assert DeclParsed(ds[0]);
      forall i, j | 0 <= i < j < |ds[1..]| ensures DistinctTags(ds[1..], i, j) { assert DistinctTags(ds, i + 1, j + 1); }
      FindParamFinds(ds[1..], a);
      assert forall c | c in ds :: c == ds[0] || c in ds[1..];
      if ds[0].name == a.paramName && IsParam(ds[0]) {
        forall c | c in ds[1..] && IsParam(c) ensures c.name != ds[0].name {
          assert DeclParsed(c);
          var j :| 0 <= j < |ds[1..]| && ds[1..][j] == c;
          assert DistinctTags(ds, 0, j + 1);
        }
      }
    }
  }

  predicate FromRegistry(registry: map<string, Pou>, pou: Pou) {
    pou.name in registry && registry[pou.name] == pou
  }

  class Binder {
    const registry: map<string, Pou>
    // The tag store.
    var names: seq<string>
    var types: seq<TypeId>
    var initials: seq<Value>
    var places: seq<Option<Address>>
    var byName: map<string, nat>
    var addresses: set<Address>
    // The binder context.
    var frames: seq<Frame>
    var expanding: seq<string>
    var fcCalls: nat
    var globals: map<string, Callable>
    ghost var info: seq<FrameInfo>

    ghost function State(): Env
      reads this
    {
      Env(names, types, initials, places, frames, info)
    }

    ghost predicate Valid()
      reads this
    {
      && EnvGood(State()) && ByNameGood(State(), byName) && PlacesGood(places, addresses)
      && NoDuplicates(expanding) && (forall n | n in expanding :: n in registry)
      && (forall n | n in registry :: PouParsed(registry[n]))
      && CallablesGood(State(), globals)
      && InitialsTyped(types, initials)
      && Faithful()
    }

    // Frames and global instances are copies of their types.
    ghost predicate Faithful()
      reads this
    {
      && EnvFaithful(State()) && InstancesNamed(State(), "", globals)
      && (forall n | n in registry :: registry[n].name == n)
      && forall i | 0 <= i < |info| :: FromRegistry(registry, info[i].pou)
    }

    // POU types that are not being expanded: what every recursion uses up.
    ghost function Unexpanded(): set<string>
      reads this`expanding
    {
      set n | n in registry && n !in expanding
    }

    ghost function Stack(): set<string>
      reads this`expanding
    {
      set n | n in expanding
    }

    // Names that stand for instances of the program rather than for FUNCTIONs.
    ghost function Shadow(): set<string>
      reads this`globals
    {
      globals.Keys
    }

    // The part of the state that decides what is accepted from here on.
    ghost function Ledger(): A.Ledger
      reads `byName, `types, `addresses, `fcCalls, `globals
    {
      A.Ledger(TypesByName(byName, types), addresses, fcCalls, Pous(globals))
    }

    ghost function Open(scope: map<string, nat>, instances: map<string, Callable>): A.Opened
      reads `byName, `types, `addresses, `fcCalls, `globals
    {
      A.Opened(Ledger(), scope.Keys, Pous(instances))
    }

    constructor (registry: map<string, Pou>)
      requires forall n | n in registry :: PouParsed(registry[n]) && registry[n].name == n
      ensures this.registry == registry && Valid() && names == [] && frames == [] && expanding == [] && globals == map[]
      ensures types == [] && initials == []
      ensures Ledger() == A.Ledger(map[], {}, 0, map[])
    {
      this.registry := registry;
      names, types, initials, places, byName, addresses := [], [], [], [], map[], {};
      frames, expanding, fcCalls, globals, info := [], [], 0, map[], [];
    }

    method AppendTag(name: string, t: TypeId, initial: Value, address: Option<Address>)
      modifies `names, `types, `initials, `places, `byName, `addresses
      ensures names == old(names) + [name] && types == old(types) + [t]
      ensures initials == old(initials) + [initial] && places == old(places) + [address]
      ensures byName == old(byName)[name := |old(names)|]
      ensures addresses == if address.Some? then old(addresses) + {address.value} else old(addresses)
    {
      byName := byName[name := |names|];
      names, types, initials, places := names + [name], types + [t], initials + [initial], places + [address];
      if address.Some? { addresses := addresses + {address.value}; }
    }

    // TagStore::declare: a fresh number, or a rejection of a name or address in use.
    method Declare(name: string, t: TypeId, initial: Value, address: Option<Address>) returns (ok: bool, id: nat)
      requires Valid() && TypeOf(initial) == t
      modifies `names, `types, `initials, `places, `byName, `addresses
      ensures A.EnterTag(old(Ledger()), name, t, address) == if ok then Some(Ledger()) else None
      ensures ok <==> name !in old(names) && (address.None? || address !in old(places))
      ensures ok ==> Valid() && id == |old(names)|
      ensures ok ==> names == old(names) + [name] && types == old(types) + [t]
      ensures ok ==> initials == old(initials) + [initial] && places == old(places) + [address]
      ensures ok ==> Advances(old(State()), State())
    {
      hide FrameGood, SpansGood, FrameFaithful, CallablesGood, InstancesNamed, ByNameGood, InitialsTyped, PlacesGood;
      PlacesInUse(places, addresses, address);
      id := |names|;
      NamesByNumber(State(), byName, name);
      TypesSnoc(State(), byName, name, t);
      if name in byName {
        return false, id;
      }
      if address.Some? && address.value in addresses { return false, id; }
      ghost var before := State();
      PlacesSnoc(places, addresses, address);
      AppendTag(name, t, initial, address);
      FramesGoodGrow(before, State());
      FramesFaithfulGrow(before, State());
      CallablesGoodGrow(before, State(), globals);
      InstancesNamedGrow(before, State(), "", globals);
      ByNameSnoc(before, State(), old(byName), name);
      InitialsSnoc(old(types), old(initials), t, initial);
      ok := true;
    }

    method PushFrame(frame: Frame, ghost fi: FrameInfo) returns (f: nat)
      requires Valid()
      requires FrameGood(State().(frames := frames + [frame], info := info + [fi]), |frames|)
      requires FrameFaithful(State().(frames := frames + [frame], info := info + [fi]), |frames|)
      requires FromRegistry(registry, fi.pou) && forall i | 0 <= i < |info| :: SpanPair(info + [fi], i, |info|)
      modifies `frames, `info
      ensures Valid() && f == |old(frames)|
      ensures frames == old(frames) + [frame] && info == old(info) + [fi]
    {
      hide FrameGood, FrameFaithful, CallablesGood, InstancesNamed, PouParsed;
      ghost var before := State();
      f := |frames|;
      forall i, j | 0 <= i < j < |info + [fi]| ensures SpanPair(info + [fi], i, j) {
        if j < |info| { assert SpanPair(info, i, j); }
      }
      frames, info := frames + [frame], info + [fi];
      FramesGoodGrow(before, State());
      FramesFaithfulGrow(before, State());
      CallablesGoodGrow(before, State(), globals);
      InstancesNamedGrow(before, State(), "", globals);
    }

    // ---- Declarations ----

    method DeclareVars(ds: seq<VarDecl>, prefix: string) returns (ok: bool, scope: map<string, nat>, instances: map<string, Callable>)
      requires Valid() && DeclsParsed(ds)
      modifies this
      ensures ok ==> DeclaredSoFar(old(State()), ds, prefix, scope, instances)
      ensures ok ==> expanding == old(expanding) && (prefix != "" ==> globals == old(globals))
      ensures A.EnterVars(registry, old(Stack()), ds, prefix, A.Opened(old(Ledger()), {}, map[])) == if ok then Some(Open(scope, instances)) else None
      decreases Unexpanded(), 1, 3
    {
      hide DeclaredSoFar, A.EnterVar;
      scope, instances := map[], map[];
      assert Open(scope, instances) == A.Opened(old(Ledger()), {}, map[]);
      NothingDeclared(prefix);
      assert ds[..0] == [];
      for i := 0 to |ds|
        invariant DeclaredSoFar(old(State()), ds[..i], prefix, scope, instances)
        invariant expanding == old(expanding) && (prefix != "" ==> globals == old(globals))
        invariant A.EnterVars(registry, old(Stack()), ds, prefix, A.Opened(old(Ledger()), {}, map[])) == A.EnterVars(registry, old(Stack()), ds[i..], prefix, Open(scope, instances))
      {
        assert ds[i..][0] == ds[i] && ds[i..][1..] == ds[i + 1..];
        assert ds[i] in ds && ds[..i + 1] == ds[..i] + [ds[i]];
        ok, scope, instances := DeclareStep(old(State()), ds[i], ds[..i], prefix, scope, instances);
        if !ok { return; }
      }
      assert ds[..|ds|] == ds;
      ok := true;
    }

    lemma NothingDeclared(prefix: string)
      requires Valid()
      ensures DeclaredSoFar(State(), [], prefix, map[], map[])
    {
    }

    // Compared with true so that the verifier keeps the parts together.
    ghost predicate DeclaredSoFar(e: Env, ds: seq<VarDecl>, prefix: string, scope: map<string, nat>, instances: map<string, Callable>)
      reads this
    {
      DeclarationsHold(e, ds, prefix, scope, instances) == true
    }

    ghost predicate DeclarationsHold(e: Env, ds: seq<VarDecl>, prefix: string, scope: map<string, nat>, instances: map<string, Callable>)
      reads this
    {
      && Valid() && Advances(e, State()) && (!Plain(prefix) ==> AddsMarked(e, State()))
      && DeclsParsed(ds) && Declared(State(), ds, prefix, scope) && CallablesGood(State(), instances)
      && (forall k | k in scope :: |e.names| <= scope[k] < |names|)
      && (AllElementary(ds) ==> ScopeOf(ds, scope))
      && instances.Keys == InstanceNames(ds) && DeclsAcyclic(registry, Shadow(), ds, Stack())
      && ScopeNames(State(), prefix, scope) && InstancesNamed(State(), prefix, instances)
    }

    method DeclareStep(ghost e: Env, d: VarDecl, ghost done: seq<VarDecl>, prefix: string, scope: map<string, nat>, instances: map<string, Callable>)
      returns (ok: bool, scope': map<string, nat>, instances': map<string, Callable>)
      requires DeclaredSoFar(e, done, prefix, scope, instances) && DeclParsed(d)
      modifies this
      ensures ok ==> DeclaredSoFar(e, done + [d], prefix, scope', instances')
      ensures ok ==> expanding == old(expanding) && (prefix != "" ==> globals == old(globals))
      ensures A.EnterVar(registry, old(Stack()), d, prefix, old(Open(scope, instances))) == if ok then Some(Open(scope', instances')) else None
      decreases Unexpanded(), 1, 2
    {
      hide FrameGood, FrameFaithful, SpansGood, CallablesGood, InstancesNamed, ScopeNames, Declared, ScopeOf, A.EnterVar, Open;
      ok, scope', instances' := DeclareOne(d, done, prefix, scope, instances);
      if !ok { return; }
      AdvancesTransitive(e, old(State()), State());
      DeclsShadowed(registry, old(Shadow()), Shadow(), done, Stack());
      DeclsAcyclicSnoc(registry, Shadow(), done, d, Stack());
      InstanceNamesSnoc(done, d);
      ScopeOfSnoc(done, d, scope, scope');
    }

    method DeclareOne(d: VarDecl, ghost done: seq<VarDecl>, prefix: string, scope: map<string, nat>, instances: map<string, Callable>)
      returns (ok: bool, scope': map<string, nat>, instances': map<string, Callable>)
      requires Valid() && DeclParsed(d) && DeclsParsed(done) && Declared(State(), done, prefix, scope) && CallablesGood(State(), instances)
      requires ScopeNames(State(), prefix, scope) && InstancesNamed(State(), prefix, instances)
      modifies this
      ensures ok ==> Valid() && Advances(old(State()), State()) && expanding == old(expanding)
      ensures ok ==> ScopeNames(State(), prefix, scope') && InstancesNamed(State(), prefix, instances')
      ensures ok ==> Shadow() >= old(Shadow()) && (prefix != "" ==> globals == old(globals))
      ensures ok && !Plain(prefix) ==> AddsMarked(old(State()), State())
      ensures ok ==> Declared(State(), done + [d], prefix, scope') && CallablesGood(State(), instances')
      ensures ok ==> forall k | k in scope' :: (k in scope && scope'[k] == scope[k]) || |old(names)| <= scope'[k] < |names|
      ensures ok && d.elementaryType.Some? ==> scope'.Keys == scope.Keys + {d.name}
      ensures ok ==> instances'.Keys == instances.Keys + InstanceNames([d]) && DeclsAcyclic(registry, Shadow(), [d], Stack())
      ensures A.EnterVar(registry, old(Stack()), d, prefix, old(Open(scope, instances))) == if ok then Some(Open(scope', instances')) else None
      decreases Unexpanded(), 1, 1
    {
      hide Declared, CallablesGood, Advances, AddsMarked, ScopeNames, InstancesNamed, EnvGood, EnvFaithful, DeclParsed, Valid, A.EnterTag, A.EnterInstance, A.Dotted, Prefixed, TypesByName, Pous, CallableNamed, CallableGood, TypeAcyclic, FrameGood;
      if d.elementaryType.Some? {
        ok, scope' := DeclareElementary(d, done, prefix, scope);
        instances' := instances;
        if ok {
          CallablesGoodGrow(old(State()), State(), instances);
          InstancesNamedGrow(old(State()), State(), prefix, instances);
        }
        return;
      }
      scope', instances' := scope, instances;
      if d.instanceOfType.None? { return false, scope, instances; }
      var instance;
      ok, scope', instance := DeclareNested(d, done, prefix, scope, instances);
      if !ok { return; }
      instances' := instances[d.name := instance];
      PousSnoc(instances, d.name, instance);
      PousSnoc(globals, d.name, instance);
      NoPrefix(d.name);
      if prefix == "" { Publish(d.name, instance); }
      TypeShadowed(registry, old(Shadow()), Shadow(), d.instanceOfType.value, Stack());
      assert d in [d];
    }

    method DeclareElementary(d: VarDecl, ghost done: seq<VarDecl>, prefix: string, scope: map<string, nat>)
      returns (ok: bool, scope': map<string, nat>)
      requires Valid() && DeclParsed(d) && d.elementaryType.Some? && Declared(State(), done, prefix, scope)
      requires ScopeNames(State(), prefix, scope)
      modifies `names, `types, `initials, `places, `byName, `addresses
      ensures ok ==> Valid() && Advances(old(State()), State()) && |names| == |old(names)| + 1
      ensures ok ==> ScopeNames(State(), prefix, scope') && Grows(old(State()), State()) && |frames| == |info|
      ensures ok && !Plain(prefix) ==> AddsMarked(old(State()), State())
      ensures ok ==> Declared(State(), done + [d], prefix, scope') && scope' == scope[d.name := |old(names)|]
      ensures A.EnterTag(old(Ledger()), Prefixed(prefix, d.name), d.elementaryType.value, d.address) == if ok then Some(Ledger()) else None
    {
      hide A.EnterTag, Ledger;
      scope' := scope;
      var id;
      ok, id := Declare(Prefixed(prefix, d.name), d.elementaryType.value, InitialOf(d), d.address);
      if !ok { return; }
      scope' := scope[d.name := id];
      DeclaredSnoc(old(State()), State(), done, prefix, scope, d, id);
      if !Plain(prefix) { PrefixedMarked(prefix, d.name); }
    }

    method DeclareNested(d: VarDecl, ghost done: seq<VarDecl>, prefix: string, scope: map<string, nat>, ghost instances: map<string, Callable>)
      returns (ok: bool, scope': map<string, nat>, instance: Callable)
      requires Valid() && DeclParsed(d) && d.elementaryType.None? && d.instanceOfType.Some?
      requires DeclsParsed(done) && Declared(State(), done, prefix, scope) && CallablesGood(State(), instances)
      requires ScopeNames(State(), prefix, scope) && InstancesNamed(State(), prefix, instances)
      modifies this
      ensures ok ==> Valid() && Advances(old(State()), State()) && expanding == old(expanding) && globals == old(globals)
      ensures ok && !Plain(prefix) ==> AddsMarked(old(State()), State())
      ensures ok ==> Declared(State(), done + [d], prefix, scope') && CallableGood(State(), instance)
      ensures ok ==> CallablesGood(State(), instances[d.name := instance])
      ensures ok ==> ScopeNames(State(), prefix, scope') && InstancesNamed(State(), prefix, instances[d.name := instance])
      ensures ok ==> CallableNamed(State(), Prefixed(prefix, d.name), instance)
      ensures ok ==> forall k | k in scope' :: (k in scope && scope'[k] == scope[k]) || |old(names)| <= scope'[k] < |names|
      ensures ok ==> TypeAcyclic(registry, Shadow(), d.instanceOfType.value, Stack())
      ensures A.EnterInstance(registry, old(Stack()), d.instanceOfType.value, Prefixed(prefix, d.name), old(Ledger())) == if ok then Some(A.Built(Ledger(), instance.params.Keys)) else None
      ensures ok ==> registry[d.instanceOfType.value] == instance.pou && scope'.Keys == scope.Keys + A.Dotted(d.name, instance.params.Keys)
      decreases Unexpanded(), 1, 0
    {
      hide *;
      scope', instance := scope, Callable(Pou("", false, [], []), 0, map[]);
      var inner, f;
      InstancePrefix(prefix, d);
      Unfold();
      ghost var before := State();
      ok, inner, f := DeclareInstance(d.instanceOfType.value, Prefixed(prefix, d.name));
      if !ok { return; }
      instance := Callable(registry[d.instanceOfType.value], f, inner);
      Unfold();
      DottedKeys(d.name, inner);
      InstanceAdded(before, State(), done, prefix, scope, instances, d, instance);
      scope' := scope + Members(d.name, inner);
      InstanceNamed(before, State(), prefix, scope, instances, d, instance);
    }

    lemma Idle()
      requires expanding == []
      ensures Stack() == {} && State() == Env(names, types, initials, places, frames, info)
    {
    }

    // For proofs that look at nothing else of the state.
    lemma Unfold()
      requires Valid()
      ensures State() == Env(names, types, initials, places, frames, info)
      ensures forall n | n in registry :: registry[n].name == n
    {
    }

    // Instances of the program itself can be called from everywhere below it.
    method Publish(name: string, instance: Callable)
      requires Valid() && CallableGood(State(), instance) && CallableNamed(State(), name, instance)
      modifies `globals
      ensures Valid() && globals == old(globals)[name := instance]
    {
      globals := globals[name := instance];
    }

    // expandingTypes.push_back
    method StartExpanding(name: string)
      requires Valid() && name in registry && name !in expanding
      modifies `expanding
      ensures Valid() && expanding == old(expanding) + [name]
      ensures Unexpanded() < old(Unexpanded()) && Stack() == old(Stack()) + {name}
    {
      hide EnvGood, EnvFaithful, CallablesGood, InstancesNamed, ByNameGood, PlacesGood, InitialsTyped;
      assert name in Unexpanded();
      expanding := expanding + [name];
      assert name !in Unexpanded();
    }

    // One FB instance: rejects unknown and circular types, then expands the type.
    method DeclareInstance(typeName: string, prefix: string) returns (ok: bool, scope: map<string, nat>, f: nat)
      requires Valid() && prefix != ""
      modifies this
      ensures ok ==> Valid() && Advances(old(State()), State()) && expanding == old(expanding) && globals == old(globals)
      ensures ok && !Plain(prefix) ==> AddsMarked(old(State()), State())
      ensures ok ==> typeName in registry && TypeAcyclic(registry, Shadow(), typeName, Stack())
      ensures ok ==> CallableGood(State(), Callable(registry[typeName], f, scope))
      ensures ok ==> CallableNamed(State(), prefix, Callable(registry[typeName], f, scope))
      ensures ok ==> forall k | k in scope :: |old(names)| <= scope[k] < |names|
      ensures A.EnterInstance(registry, old(Stack()), typeName, prefix, old(Ledger())) == if ok then Some(A.Built(Ledger(), scope.Keys)) else None
      decreases Unexpanded(), 0
    {
      hide Ledger, EnvGood, EnvFaithful, A.EnterPou, PouAcyclic, CallableGood, CallableNamed, CallablesGood, InstancesNamed, ByNameGood, PlacesGood, InitialsTyped;
      if typeName !in registry || typeName in expanding { return false, map[], 0; }
      StartExpanding(typeName);
      ok, scope, f := ExpandPou(registry[typeName], prefix);
      if ok { expanding := expanding[..|expanding| - 1]; }
    }

    // ---- Bodies ----

    // Where a body with this scope and these instances is bound.
    ghost function At(prefix: string, scope: map<string, nat>, instances: map<string, Callable>): Site
      reads this`globals
    {
      Site(prefix, scope, instances.Keys, Shadow())
    }

    static ghost function Here(prefix: string, scope: map<string, nat>, instances: map<string, Callable>): A.Place {
      A.Place(prefix, scope.Keys, Pous(instances))
    }

    ghost predicate MayBind(prefix: string, scope: map<string, nat>, instances: map<string, Callable>)
      reads this
    {
      && Valid() && ScopeGood(State(), scope) && CallablesGood(State(), instances)
      && ScopeNames(State(), prefix, scope) && InstancesNamed(State(), prefix, instances)
    }

    method BindBlock(ss: seq<Stmt>, ghost prefix: string, scope: map<string, nat>, instances: map<string, Callable>) returns (ok: bool, bound: seq<Stmt>)
      requires MayBind(prefix, scope, instances) && BlockParsed(ss)
      modifies this
      ensures ok ==> MayBind(prefix, scope, instances) && Advances(old(State()), State()) && AddsMarked(old(State()), State())
      ensures ok ==> expanding == old(expanding) && globals == old(globals)
      ensures ok ==> BlockOk(State(), scope, bound) && BlockBinds(State(), At(prefix, scope, instances), ss, bound)
      ensures ok ==> CallsAcyclic(registry, Shadow() + instances.Keys, Shadow(), ss, Stack())
      ensures A.PassBlock(registry, old(Stack()), ss, Here(prefix, scope, instances), old(Ledger())) == if ok then Some(Ledger()) else None
      decreases Unexpanded(), 2, ss, 0
    {
      hide Advances, AddsMarked, BlockOk, FrameGood, FrameFaithful, SpansGood, CallablesGood, InstancesNamed, ScopeNames, A.PassStmt, Ledger, Pous, Here;
      bound := [];
      SameEnvironment(State());
      EmptyBlockOk(State(), scope);
      for i := 0 to |ss|
        invariant MayBind(prefix, scope, instances) && Advances(old(State()), State()) && AddsMarked(old(State()), State())
        invariant expanding == old(expanding) && globals == old(globals)
        invariant BlockOk(State(), scope, bound) && BlockBinds(State(), At(prefix, scope, instances), ss[..i], bound)
        invariant forall j | 0 <= j < i :: CallAcyclic(registry, Shadow() + instances.Keys, Shadow(), ss[j], Stack())
        invariant A.PassBlock(registry, old(Stack()), ss, Here(prefix, scope, instances), old(Ledger())) == A.PassBlock(registry, old(Stack()), ss[i..], Here(prefix, scope, instances), Ledger())
      {
        assert ss[i..][0] == ss[i] && ss[i..][1..] == ss[i + 1..];
        ghost var before := State();
        assert ss[i] in ss;
        var st;
        ok, st := BindStmt(ss[i], prefix, scope, instances);
        if !ok { return; }
        AdvancesTransitive(old(State()), before, State());
        AdvancesGrows(before, State());
        BlockOkGrows(before, State(), scope, bound);
        BlockOkSnoc(State(), scope, bound, st);
        BlockBindsGrows(before, State(), At(prefix, scope, instances), ss[..i], bound);
        BlockBindsSnoc(State(), At(prefix, scope, instances), ss[..i], bound, ss[i], st);
        assert ss[..i + 1] == ss[..i] + [ss[i]];
        bound := bound + [st];
      }
      assert ss[..|ss|] == ss;
      ok := true;
    }

    method BindStmt(st: Stmt, ghost prefix: string, scope: map<string, nat>, instances: map<string, Callable>) returns (ok: bool, bound: Stmt)
      requires MayBind(prefix, scope, instances) && StmtParsed(st)
      modifies this
      ensures ok ==> MayBind(prefix, scope, instances) && Advances(old(State()), State()) && AddsMarked(old(State()), State())
      ensures ok ==> expanding == old(expanding) && globals == old(globals)
      ensures ok ==> StmtOk(State(), scope, bound) && StmtBinds(State(), At(prefix, scope, instances), st, bound)
      ensures ok ==> CallAcyclic(registry, Shadow() + instances.Keys, Shadow(), st, Stack())
      ensures A.PassStmt(registry, old(Stack()), st, Here(prefix, scope, instances), old(Ledger())) == if ok then Some(Ledger()) else None
      decreases Unexpanded(), 2, st, 1
    {
      bound := st;
      hide *;
      SameState(prefix, scope, instances);
      match st
      case Assign(_, _, _) => ok, bound := BindAssign(st, prefix, scope, instances);
      case If(_, _) => ok, bound := BindIf(st, prefix, scope, instances);
      case While(_, _) => ok, bound := BindWhile(st, prefix, scope, instances);
      case Call(_, _, _) => ok, bound := BindCall(st, prefix, scope, instances);
      case Rung(_, _) =>
        RungPasses(st, prefix, scope, instances);
        ok, bound := BindRung(st, At(prefix, scope, instances), Here(prefix, scope, instances), scope);
    }

    lemma RungPasses(st: Stmt, prefix: string, scope: map<string, nat>, instances: map<string, Callable>)
      requires MayBind(prefix, scope, instances) && st.Rung?
      ensures Valid() && ScopeGood(State(), scope) && ScopeNames(State(), prefix, scope) && SeenFrom(Here(prefix, scope, instances), prefix, scope)
      ensures At(prefix, scope, instances).prefix == prefix && CallAcyclic(registry, Shadow() + instances.Keys, Shadow(), st, Stack())
      ensures A.PassStmt(registry, Stack(), st, Here(prefix, scope, instances), Ledger()) ==
        if A.ExprFound(Ledger(), Here(prefix, scope, instances), st.power) && forall o | o in st.outputs :: A.CoilFound(Ledger(), Here(prefix, scope, instances), o)
        then Some(Ledger()) else None
    {
    }

    method BindAssign(st: Stmt, ghost prefix: string, scope: map<string, nat>, instances: map<string, Callable>) returns (ok: bool, bound: Stmt)
      requires MayBind(prefix, scope, instances) && StmtParsed(st) && st.Assign?
      ensures ok ==> StmtOk(State(), scope, bound) && StmtBinds(State(), At(prefix, scope, instances), st, bound)
      ensures CallAcyclic(registry, Shadow() + instances.Keys, Shadow(), st, Stack())
      ensures A.PassStmt(registry, Stack(), st, Here(prefix, scope, instances), Ledger()) == if ok then Some(Ledger()) else None
    {
      hide FrameGood, FrameFaithful, SpansGood, CallablesGood, InstancesNamed, PlacesGood, InitialsTyped, NoDuplicates;
      ResolveFinds(State(), Ledger(), Here(prefix, scope, instances), st.target, scope, byName);
      ConditionBinds(st.value, prefix, scope, instances);
      var id, x := Resolve(st.target, scope, byName), BindExpr(st.value, scope, byName);
      if id.None? || x.None? { return false, st; }
      ResolveKnown(State(), st.target, scope, byName);
      return true, Assign(st.target, id.value, x.value);
    }

    method BindWhile(st: Stmt, ghost prefix: string, scope: map<string, nat>, instances: map<string, Callable>) returns (ok: bool, bound: Stmt)
      requires MayBind(prefix, scope, instances) && StmtParsed(st) && st.While?
      modifies this
      ensures ok ==> MayBind(prefix, scope, instances) && Advances(old(State()), State()) && AddsMarked(old(State()), State())
      ensures ok ==> expanding == old(expanding) && globals == old(globals)
      ensures ok ==> StmtOk(State(), scope, bound) && StmtBinds(State(), At(prefix, scope, instances), st, bound)
      ensures ok ==> CallAcyclic(registry, Shadow() + instances.Keys, Shadow(), st, Stack())
      ensures A.PassStmt(registry, old(Stack()), st, Here(prefix, scope, instances), old(Ledger())) == if ok then Some(Ledger()) else None
      decreases Unexpanded(), 2, st, 0
    {
      bound := st;
      WhileParts(st, registry, Stack(), Here(prefix, scope, instances), Ledger());
      hide *;
      ConditionBinds(st.condition, prefix, scope, instances);
      var x := BindExpr(st.condition, scope, byName);
      if x.None? { return false, bound; }
      ghost var before := State();
      var inner;
      ok, inner := BindBlock(st.body, prefix, scope, instances);
      if !ok { return; }
      bound := While(x.value, inner);
      WhileIsBound(before, State(), At(prefix, scope, instances), st, bound);
      WhileIsAcyclic(registry, Shadow() + instances.Keys, Shadow(), st, Stack());
    }

    method BindIf(st: Stmt, ghost prefix: string, scope: map<string, nat>, instances: map<string, Callable>) returns (ok: bool, bound: Stmt)
      requires MayBind(prefix, scope, instances) && StmtParsed(st) && st.If?
      modifies this
      ensures ok ==> MayBind(prefix, scope, instances) && Advances(old(State()), State()) && AddsMarked(old(State()), State())
      ensures ok ==> expanding == old(expanding) && globals == old(globals)
      ensures ok ==> StmtOk(State(), scope, bound) && StmtBinds(State(), At(prefix, scope, instances), st, bound)
      ensures ok ==> CallAcyclic(registry, Shadow() + instances.Keys, Shadow(), st, Stack())
      ensures A.PassStmt(registry, old(Stack()), st, Here(prefix, scope, instances), old(Ledger())) == if ok then Some(Ledger()) else None
      decreases Unexpanded(), 2, st, 0
    {
      IfParts(st);
      hide *;
      A.IfPasses(registry, Stack(), st, Here(prefix, scope, instances), Ledger());
      var bs;
      ok, bs := BindBranches(st.branches, prefix, scope, instances);
      if !ok { return false, st; }
      ghost var before := State();
      var els;
      ok, els := BindBlock(st.elseBody, prefix, scope, instances);
      if !ok { return false, st; }
      AdvancesTransitive(old(State()), before, State());
      AdvancesGrows(before, State());
      bound := If(bs, els);
      IfIsBound(before, State(), At(prefix, scope, instances), st, bs, els);
      IfIsAcyclic(registry, Shadow() + instances.Keys, Shadow(), st, Stack());
    }

    method BindBranches(branches: seq<IfBranch>, ghost prefix: string, scope: map<string, nat>, instances: map<string, Callable>) returns (ok: bool, bound: seq<IfBranch>)
      requires MayBind(prefix, scope, instances) && forall b | b in branches :: ExprPlain(b.condition) && BlockParsed(b.body)
      modifies this
      ensures ok ==> MayBind(prefix, scope, instances) && Advances(old(State()), State()) && AddsMarked(old(State()), State())
      ensures ok ==> expanding == old(expanding) && globals == old(globals)
      ensures ok ==> |bound| == |branches| && BranchesBound(State(), At(prefix, scope, instances), branches, bound)
      ensures ok ==> forall j | 0 <= j < |branches| :: CallsAcyclic(registry, Shadow() + instances.Keys, Shadow(), branches[j].body, Stack())
      ensures A.PassBranches(registry, old(Stack()), branches, Here(prefix, scope, instances), old(Ledger())) == if ok then Some(Ledger()) else None
      decreases Unexpanded(), 2, branches, 0
    {
      hide *;
      ghost var place, stack, at, local, shadow := Here(prefix, scope, instances), Stack(), At(prefix, scope, instances), Shadow() + instances.Keys, Shadow();
      bound := [];
      SameState(prefix, scope, instances);
      NoBranches(State(), at, branches);
      A.LastBranch(registry, stack, branches, place, Ledger());
      for k := 0 to |branches|
        invariant MayBind(prefix, scope, instances) && Advances(old(State()), State()) && AddsMarked(old(State()), State())
        invariant expanding == old(expanding) && globals == old(globals)
        invariant A.PassBranches(registry, stack, branches, place, old(Ledger())) == A.PassBranches(registry, stack, branches[k..], place, Ledger())
        invariant |bound| == k && BranchesBound(State(), at, branches, bound)
        invariant forall j | 0 <= j < k :: CallsAcyclic(registry, local, shadow, branches[j].body, stack)
      {
        ghost var before := State();
        A.NextBranch(registry, stack, branches, k, place, Ledger());
        var b;
        ok, b := BindBranch(branches[k], prefix, scope, instances);
        if !ok { return; }
        AdvancesTransitive(old(State()), before, State());
        AdvancesGrows(before, State());
        OneMoreBranch(before, State(), at, branches, bound, b);
        bound := bound + [b];
      }
      A.LastBranch(registry, stack, branches, place, Ledger());
      ok := true;
    }

    lemma SameState(prefix: string, scope: map<string, nat>, instances: map<string, Callable>)
      requires MayBind(prefix, scope, instances)
      ensures Advances(State(), State()) && AddsMarked(State(), State()) && At(prefix, scope, instances).scope == scope
    {
    }

    method BindBranch(b: IfBranch, ghost prefix: string, scope: map<string, nat>, instances: map<string, Callable>) returns (ok: bool, bound: IfBranch)
      requires MayBind(prefix, scope, instances) && ExprPlain(b.condition) && BlockParsed(b.body)
      modifies this
      ensures ok ==> MayBind(prefix, scope, instances) && Advances(old(State()), State()) && AddsMarked(old(State()), State())
      ensures ok ==> expanding == old(expanding) && globals == old(globals)
      ensures ok ==> BranchOk(State(), scope, bound) && BranchBinds(State(), At(prefix, scope, instances), b, bound)
      ensures ok ==> CallsAcyclic(registry, Shadow() + instances.Keys, Shadow(), b.body, Stack())
      ensures ok ==> A.ExprFound(old(Ledger()), Here(prefix, scope, instances), b.condition)
      ensures !ok && A.ExprFound(old(Ledger()), Here(prefix, scope, instances), b.condition) ==> A.PassBlock(registry, old(Stack()), b.body, Here(prefix, scope, instances), old(Ledger())) == None
      ensures ok ==> A.PassBlock(registry, old(Stack()), b.body, Here(prefix, scope, instances), old(Ledger())) == Some(Ledger())
      decreases Unexpanded(), 2, b, 0
    {
      bound := b;
      hide *;
      ConditionBinds(b.condition, prefix, scope, instances);
      var x := BindExpr(b.condition, scope, byName);
      if x.None? { return false, b; }
      ghost var before := State();
      var inner;
      ok, inner := BindBlock(b.body, prefix, scope, instances);
      if !ok { return false, b; }
      bound := IfBranch(x.value, inner);
      BranchIsBound(before, State(), At(prefix, scope, instances), b, bound);
    }

    // An expression binds exactly when all its names have been declared.
    lemma ConditionBinds(x: Expr, prefix: string, scope: map<string, nat>, instances: map<string, Callable>)
      requires MayBind(prefix, scope, instances) && ExprPlain(x)
      ensures BindExpr(x, scope, byName).Some? <==> A.ExprFound(Ledger(), Here(prefix, scope, instances), x)
      ensures var b := BindExpr(x, scope, byName); b.Some? ==> Holds(State(), At(prefix, scope, instances), x, b.value)
      ensures At(prefix, scope, instances).scope == scope
    {
      BindExprFinds(State(), Ledger(), Here(prefix, scope, instances), x, scope, byName);
      BindExprKnown(State(), x, scope, byName);
      BindExprBinds(State(), x, At(prefix, scope, instances), byName);
    }

    method BindRung(st: Stmt, ghost at: Site, ghost place: A.Place, scope: map<string, nat>) returns (ok: bool, bound: Stmt)
      requires Valid() && ScopeGood(State(), scope) && ScopeNames(State(), at.prefix, scope) && at.scope == scope && StmtParsed(st) && st.Rung?
      requires SeenFrom(place, at.prefix, scope)
      ensures ok <==> A.ExprFound(Ledger(), place, st.power) && forall o | o in st.outputs :: A.CoilFound(Ledger(), place, o)
      ensures ok ==> StmtOk(State(), scope, bound) && StmtBinds(State(), at, st, bound)
    {
      hide A.CoilFound, A.ExprFound, Ledger, CoilBinds, FrameGood, FrameFaithful, SpansGood, CallablesGood, InstancesNamed, ByNameGood;
      PowerFinds(st.power, place, scope);
      var x := BindExpr(st.power, scope, byName);
      if x.None? { return false, st; }
      BindExprKnown(State(), st.power, scope, byName);
      BindExprBinds(State(), st.power, at, byName);
      var outs: seq<RungOutput> := [];
      for i := 0 to |st.outputs|
        invariant |outs| == i && forall j | 0 <= j < i :: CoilBinds(State(), at, st.outputs[j], outs[j])
        invariant forall j | 0 <= j < i :: A.CoilFound(Ledger(), place, st.outputs[j])
        invariant forall o | o in outs :: o.targetId < |types| && types[o.targetId] == Bool && o.targetId in Known(State(), scope)
      {
        assert st.outputs[i] in st.outputs;
        var o;
        ok, o := BindCoil(st.outputs[i], at, place, scope);
        if !ok { return false, st; }
        outs := outs + [o];
      }
      return true, Rung(x.value, outs);
    }

    // An expression binds exactly when all its names have been declared.
    lemma PowerFinds(x: Expr, place: A.Place, scope: map<string, nat>)
      requires Valid() && ScopeNames(State(), place.prefix, scope) && SeenFrom(place, place.prefix, scope)
      ensures BindExpr(x, scope, byName).Some? <==> A.ExprFound(Ledger(), place, x)
    {
      BindExprFinds(State(), Ledger(), place, x, scope, byName);
    }

    // A coil needs a declared BOOL tag.
    method BindCoil(o: RungOutput, ghost at: Site, ghost place: A.Place, scope: map<string, nat>) returns (ok: bool, b: RungOutput)
      requires Valid() && ScopeGood(State(), scope) && ScopeNames(State(), at.prefix, scope) && at.scope == scope && Plain(o.targetName)
      requires SeenFrom(place, at.prefix, scope)
      ensures ok <==> A.CoilFound(Ledger(), place, o)
      ensures ok ==> CoilBinds(State(), at, o, b) && types[b.targetId] == Bool && b.targetId in Known(State(), scope)
    {
      b := o;
      ResolveFinds(State(), Ledger(), place, o.targetName, scope, byName);
      var id := Resolve(o.targetName, scope, byName);
      if id.None? { return false, b; }
      ResolveKnown(State(), o.targetName, scope, byName);
      if types[id.value] != Bool { return false, b; }
      return true, o.(targetId := id.value);
    }

    // An instance in scope, a global instance, or a fresh call site of a FUNCTION.
    method FindCallee(name: string, ghost prefix: string, ghost scope: map<string, nat>, instances: map<string, Callable>) returns (ok: bool, c: Callable)
      requires MayBind(prefix, scope, instances)
      modifies this
      ensures ok ==> MayBind(prefix, scope, instances) && CallableGood(State(), c)
      ensures ok ==> CalleeNamed(State(), At(prefix, scope, instances), name, c.frameIndex)
      ensures ok ==> CallableBound(c)
      ensures ok ==> Advances(old(State()), State()) && AddsMarked(old(State()), State())
      ensures ok ==> expanding == old(expanding) && globals == old(globals)
      ensures ok ==> name in Shadow() + instances.Keys || TypeAcyclic(registry, Shadow(), name, Stack())
      ensures name in instances ==> ok && c == instances[name]
      ensures name !in instances && name in old(globals) ==> ok && c == old(globals)[name]
      ensures A.PassCallee(registry, old(Stack()), name, Here(prefix, scope, instances), old(Ledger())) == if ok then Some((Ledger(), c.pou)) else None
      decreases Unexpanded(), 1
    {
      hide *;
      SameState(prefix, scope, instances);
      if name in instances {
        LocalKnown(name, prefix, scope, instances);
        return true, instances[name];
      }
      if name in globals {
        GlobalKnown(name, prefix, scope, instances);
        return true, globals[name];
      }
      FunctionKnown(name, prefix, scope, instances);
      ghost var before := State();
      ok, c := ExpandFunction(name);
      if ok { CalleeExpanded(before, name, prefix, scope, instances, c); }
    }

    // What is known of a callee before anything is expanded.
    lemma LocalKnown(name: string, prefix: string, scope: map<string, nat>, instances: map<string, Callable>)
      requires MayBind(prefix, scope, instances) && name in instances
      ensures var c := instances[name];
              && CallableGood(State(), c) && CalleeNamed(State(), At(prefix, scope, instances), name, c.frameIndex) && CallableBound(c)
              && A.PassCallee(registry, Stack(), name, Here(prefix, scope, instances), Ledger()) == Some((Ledger(), c.pou))
    {
      hide EnvGood, EnvFaithful, ByNameGood, PlacesGood, InitialsTyped, ScopeNames, ScopeGood, CallableGood;
    }

    lemma GlobalKnown(name: string, prefix: string, scope: map<string, nat>, instances: map<string, Callable>)
      requires MayBind(prefix, scope, instances) && name !in instances && name in globals
      ensures var c := globals[name];
              && CallableGood(State(), c) && CalleeNamed(State(), At(prefix, scope, instances), name, c.frameIndex) && CallableBound(c)
              && name in Shadow()
              && A.PassCallee(registry, Stack(), name, Here(prefix, scope, instances), Ledger()) == Some((Ledger(), c.pou))
    {
      hide EnvGood, EnvFaithful, ByNameGood, PlacesGood, InitialsTyped, ScopeNames, ScopeGood, CallableGood;
    }

    lemma FunctionKnown(name: string, prefix: string, scope: map<string, nat>, instances: map<string, Callable>)
      requires MayBind(prefix, scope, instances) && name !in instances && name !in globals
      ensures Valid() && ScopeGood(State(), scope) && CallablesGood(State(), instances)
      ensures ScopeNames(State(), prefix, scope) && InstancesNamed(State(), prefix, instances)
      ensures
        A.PassCallee(registry, Stack(), name, Here(prefix, scope, instances), Ledger()) ==
        if name in registry && registry[name].isFunction && name !in Stack()
        then match A.EnterPou(registry, Stack() + {name}, registry[name], A.CallSite(name, fcCalls), Ledger().(calls := fcCalls + 1))
             case None => None
             case Some(b) => Some((b.ledger, registry[name]))
        else None
    {
      hide EnvGood, EnvFaithful, ByNameGood, PlacesGood, InitialsTyped, ScopeNames, ScopeGood, CallableGood, CallablesGood, InstancesNamed, Valid, A.EnterPou;
    }

    lemma CalleeExpanded(e: Env, name: string, prefix: string, scope: map<string, nat>, instances: map<string, Callable>, c: Callable)
      requires Advances(e, State()) && Valid() && CallableBound(c)
      requires ScopeGood(e, scope) && CallablesGood(e, instances) && ScopeNames(e, prefix, scope) && InstancesNamed(e, prefix, instances)
      requires info[c.frameIndex].callSite && info[c.frameIndex].pou.isFunction && info[c.frameIndex].pou.name == name
      requires name !in instances && name !in globals
      ensures MayBind(prefix, scope, instances) && CalleeNamed(State(), At(prefix, scope, instances), name, c.frameIndex)
    {
      hide EnvGood, EnvFaithful, ByNameGood, PlacesGood, InitialsTyped, CallableGood;
      ScopeKept(e, State(), prefix, scope);
      CallablesGoodGrow(e, State(), instances);
      InstancesNamedGrow(e, State(), prefix, instances);
    }

    // A call site of its own for a FUNCTION, unless that is being expanded.
    method ExpandFunction(name: string) returns (ok: bool, c: Callable)
      requires Valid()
      modifies this
      ensures ok ==> Valid() && CallableGood(State(), c)
      ensures ok ==> info[c.frameIndex].callSite && info[c.frameIndex].pou.isFunction && info[c.frameIndex].pou.name == name
      ensures ok ==> CallableBound(c)
      ensures ok ==> Advances(old(State()), State()) && AddsMarked(old(State()), State())
      ensures ok ==> expanding == old(expanding) && globals == old(globals)
      ensures ok ==> TypeAcyclic(registry, Shadow(), name, Stack())
      ensures ok ==> name in registry && registry[name].isFunction && name !in old(Stack()) && c.pou == registry[name]
      ensures name in registry && registry[name].isFunction && name !in old(Stack())
        ==> A.EnterPou(registry, old(Stack()) + {name}, registry[name], A.CallSite(name, old(fcCalls)), old(Ledger()).(calls := old(fcCalls) + 1))
            == if ok then Some(A.Built(Ledger(), c.params.Keys)) else None
      decreases Unexpanded(), 0
    {
      hide Digits, A.EnterPou, Advances, AddsMarked, ScopeNames, EnvGood, EnvFaithful, CallablesGood, InstancesNamed, ByNameGood, PlacesGood, InitialsTyped, NoDuplicates;
      c := Callable(Pou("", false, [], []), 0, map[]);
      if name !in registry || !registry[name].isFunction || name in expanding { return false, c; }
      var site := "$fc_" + name + "_" + Digits(fcCalls);
      assert MARK == site[0];
      fcCalls := fcCalls + 1;
      StartExpanding(name);
      var params, f;
      ok, params, f := ExpandPou(registry[name], site);
      if !ok { return; }
      expanding := expanding[..|expanding| - 1];
      c := Callable(registry[name], f, params);
    }

    // The callee's frame and the tags of its variables.
    ghost predicate CallableBound(c: Callable)
      reads this
    {
      && c.frameIndex < |frames| && c.frameIndex < |info| && info[c.frameIndex].pou == c.pou
      && ScopeNames(State(), frames[c.frameIndex].scopeName, c.params)
    }

    method BindCall(st: Stmt, ghost prefix: string, scope: map<string, nat>, instances: map<string, Callable>) returns (ok: bool, bound: Stmt)
      requires MayBind(prefix, scope, instances) && StmtParsed(st) && st.Call?
      modifies this
      ensures ok ==> MayBind(prefix, scope, instances) && Advances(old(State()), State()) && AddsMarked(old(State()), State())
      ensures ok ==> expanding == old(expanding) && globals == old(globals)
      ensures ok ==> StmtOk(State(), scope, bound) && StmtBinds(State(), At(prefix, scope, instances), st, bound)
      ensures ok ==> CallAcyclic(registry, Shadow() + instances.Keys, Shadow(), st, Stack())
      ensures A.PassStmt(registry, old(Stack()), st, Here(prefix, scope, instances), old(Ledger())) == if ok then Some(Ledger()) else None
      decreases Unexpanded(), 2, st, 0
    {
      hide FrameGood, FrameFaithful, SpansGood, CallablesGood, InstancesNamed, ScopeNames, Advances, AddsMarked, EnvGood, EnvFaithful, Valid, A.PassCallee, A.ArgsFound, Ledger;
      bound := st;
      var c;
      ok, c := FindCallee(st.calleeName, prefix, scope, instances);
      if !ok { return; }
      var args;
      ok, args := BindArgs(st.args, c, At(prefix, scope, instances), Here(prefix, scope, instances), scope);
      if !ok { return; }
      bound := Call(st.calleeName, args, c.frameIndex);
      assert forall a | a in args :: ArgOk(State(), scope, c.frameIndex, a);
    }

    // A callee has one variable of each name.
    lemma CalleeParams(c: Callable, a: CallArg)
      requires Valid() && CallableBound(c)
      ensures var d := FindParam(c.pou.varDecls, a.paramName);
              (d.Some? && d.value.kind == (if a.InputArg? then VarInput else VarOutput)) <==> HasParam(c.pou, a)
    {
      hide CallablesGood, InstancesNamed, FrameGood;
      assert FrameFaithful(State(), c.frameIndex) && FromRegistry(registry, c.pou);
      FindParamFinds(c.pou.varDecls, a);
    }

    // An argument of the right direction, bound to the callee's variable of that name.
    method BindArg(a: CallArg, c: Callable, ghost at: Site, ghost place: A.Place, scope: map<string, nat>) returns (ok: bool, b: CallArg)
      requires Valid() && ScopeGood(State(), scope) && CallableGood(State(), c) && ArgParsed(a)
      requires ScopeNames(State(), at.prefix, scope) && at.scope == scope && CallableBound(c)
      requires SeenFrom(place, at.prefix, scope)
      ensures ok <==> A.ArgFound(Ledger(), place, c.pou, a)
      ensures ok ==> ArgOk(State(), scope, c.frameIndex, b) && ArgBinds(State(), at, c.frameIndex, a, b)
      ensures ok && a.InputArg? ==> b.InputArg? && a.paramName in c.params && b.paramTagId == c.params[a.paramName]
    {
      b := a;
      CalleeParams(c, a);
      var d := FindParam(c.pou.varDecls, a.paramName);
      if d.None? || d.value.kind != (if a.InputArg? then VarInput else VarOutput) { return false, a; }
      assert ParamGood(State(), c, d.value);
      var id := c.params[a.paramName];
      match a
      case InputArg(n, e, _) =>
        BindExprFinds(State(), Ledger(), place, e, scope, byName);
        var x := BindExpr(e, scope, byName);
        if x.None? { return false, a; }
        BindExprKnown(State(), e, scope, byName);
        BindExprBinds(State(), e, at, byName);
        return true, InputArg(n, x.value, id);
      case OutputArg(n, target, _, _) =>
        ResolveFinds(State(), Ledger(), place, target, scope, byName);
        var t := Resolve(target, scope, byName);
        if t.None? { return false, a; }
        ResolveKnown(State(), target, scope, byName);
        return true, OutputArg(n, target, id, t.value);
    }

    method BindArgs(args: seq<CallArg>, c: Callable, ghost at: Site, ghost place: A.Place, scope: map<string, nat>) returns (ok: bool, bound: seq<CallArg>)
      requires Valid() && ScopeGood(State(), scope) && CallableGood(State(), c) && forall a | a in args :: ArgParsed(a)
      requires ScopeNames(State(), at.prefix, scope) && at.scope == scope && CallableBound(c)
      requires SeenFrom(place, at.prefix, scope)
      ensures ok <==> A.ArgsFound(Ledger(), place, c.pou, args)
      ensures ok ==> forall a | a in bound :: ArgOk(State(), scope, c.frameIndex, a)
      ensures ok && c.pou.isFunction ==> info[c.frameIndex].inputs <= InputIds(bound)
      ensures ok ==> |bound| == |args| && forall i | 0 <= i < |args| :: ArgBinds(State(), at, c.frameIndex, args[i], bound[i])
    {
      hide ArgOk, ArgBinds, A.ArgFound, Ledger, ScopeNames, ScopeGood, FrameGood, FrameFaithful, SpansGood, CallablesGood, InstancesNamed, ByNameGood, Valid, EnvGood, EnvFaithful;
      bound := [];
      var given: set<string> := {};
      for i := 0 to |args|
        invariant forall a | a in bound :: ArgOk(State(), scope, c.frameIndex, a)
        invariant |bound| == i && forall j | 0 <= j < i :: ArgBinds(State(), at, c.frameIndex, args[j], bound[j])
        invariant forall n | n in given :: n in c.params && c.params[n] in InputIds(bound)
        invariant (forall j | 0 <= j < i :: A.ArgFound(Ledger(), place, c.pou, args[j])) && given == InputNames(args[..i])
      {
        assert args[i] in args;
        var b;
        ok, b := BindArg(args[i], c, at, place, scope);
        if !ok { return; }
        InputIdsSnoc(bound, b);
        bound := bound + [b];
        InputNamesSnoc(args[..i], args[i]);
        assert args[..i + 1] == args[..i] + [args[i]];
        if args[i].InputArg? { given := given + {args[i].paramName}; }
      }
      assert args[..|args|] == args;
      GivenAre(args);
      ok := !c.pou.isFunction;
      if c.pou.isFunction {
        ok := InputsGiven(c.pou.varDecls, given);
        if ok { AllInputsPassed(State(), c, bound, given); }
      }
    }

    // A FUNCTION is called with all its inputs.
    method InputsGiven(ds: seq<VarDecl>, given: set<string>) returns (ok: bool)
      ensures ok <==> forall d | d in ds && d.kind == VarInput :: d.name in given
    {
      for i := 0 to |ds|
        invariant forall j | 0 <= j < i && ds[j].kind == VarInput :: ds[j].name in given
      {
        if ds[i].kind == VarInput && ds[i].name !in given {
          assert ds[i] in ds;
          return false;
        }
      }
      ok := true;
    }

    // Each member becomes a global tag under the block's name.
    method DeclareDataBlock(db: DataBlock) returns (ok: bool)
      requires Valid() && DeclsParsed(db.varDecls)
      modifies `names, `types, `initials, `places, `byName, `addresses
      ensures ok ==> Valid() && Advances(old(State()), State()) && MembersDeclared(State(), db.name, db.varDecls)
      ensures ok ==> |names| == |old(names)| + |db.varDecls|
      ensures A.EnterMembers(db.varDecls, db.name, old(Ledger())) == if ok then Some(Ledger()) else None
    {
      hide Advances, MembersDeclared, A.EnterTag, A.EnterMembers, Ledger, FrameGood, SpansGood, EnvFaithful, CallablesGood, InstancesNamed, PlacesGood, ByNameGood, InitialsTyped, TagAt, DeclParsed;
      NoMembers(State(), db.name);
      A.EveryMember(db.varDecls, db.name, Ledger());
      for i := 0 to |db.varDecls|
        invariant Valid() && Advances(old(State()), State()) && MembersDeclared(State(), db.name, db.varDecls[..i])
        invariant A.EnterMembers(db.varDecls, db.name, old(Ledger())) == A.EnterMembers(db.varDecls[i..], db.name, Ledger())
        invariant |names| == |old(names)| + i
      {
        ghost var before := State();
        A.NextMember(db.varDecls, i, db.name, Ledger());
        if db.varDecls[i].elementaryType.None? { return false; }
        ok := DeclareMember(db.varDecls[i], db.name);
        if !ok { return; }
        AdvancesTransitive(old(State()), before, State());
        MembersDeclaredSnoc(before, State(), db.name, db.varDecls[..i], db.varDecls[i], |before.names|);
        assert db.varDecls[..i + 1] == db.varDecls[..i] + [db.varDecls[i]];
      }
      A.EveryMember(db.varDecls, db.name, Ledger());
      assert db.varDecls[..|db.varDecls|] == db.varDecls;
      ok := true;
    }

    method DeclareMember(d: VarDecl, block: string) returns (ok: bool)
      requires Valid() && DeclParsed(d) && d.elementaryType.Some?
      modifies `names, `types, `initials, `places, `byName, `addresses
      ensures A.EnterTag(old(Ledger()), block + "." + d.name, d.elementaryType.value, d.address) == if ok then Some(Ledger()) else None
      ensures ok ==> Valid() && Advances(old(State()), State()) && |names| == |old(names)| + 1
      ensures ok ==> TagAt(State(), |old(names)|, block + "." + d.name, d)
    {
      hide A.EnterTag, Ledger, Advances;
      var id;
      ok, id := Declare(block + "." + d.name, d.elementaryType.value, InitialOf(d), d.address);
    }

    method DeclareDataBlocks(dbs: seq<DataBlock>) returns (ok: bool)
      requires Valid() && forall db | db in dbs :: DeclsParsed(db.varDecls)
      modifies `names, `types, `initials, `places, `byName, `addresses
      ensures ok ==> Valid() && Advances(old(State()), State()) && BlocksDeclared(State(), dbs)
      ensures A.EnterBlocks(dbs, old(Ledger())) == if ok then Some(Ledger()) else None
    {
      hide Advances, BlocksDeclared, MembersDeclared, DeclsParsed, A.EnterMembers, Ledger;
      NothingDeclaredYet(State());
      for i := 0 to |dbs|
        invariant Valid() && Advances(old(State()), State()) && BlocksDeclared(State(), dbs[..i])
        invariant A.EnterBlocks(dbs, old(Ledger())) == A.EnterBlocks(dbs[i..], Ledger())
      {
        assert dbs[i..][0] == dbs[i] && dbs[i..][1..] == dbs[i + 1..];
        ghost var before := State();
        assert dbs[i] in dbs && dbs[..i + 1] == dbs[..i] + [dbs[i]];
        ok := DeclareDataBlock(dbs[i]);
        if !ok { return; }
        AdvancesTransitive(old(State()), before, State());
        BlocksDeclaredSnoc(before, State(), dbs[..i], dbs[i]);
      }
      assert dbs[..|dbs|] == dbs;
      ok := true;
    }

    method BindProgram(varDecls: seq<VarDecl>, stmts: seq<Stmt>) returns (ok: bool, p: Program, scope: map<string, nat>)
      requires Valid() && DeclsParsed(varDecls) && BlockParsed(stmts)
      modifies this
      ensures ok ==> Valid() && Advances(old(State()), State())
      ensures ok ==> BlockBound(types, frames, |frames|, p.body) && BlockPasses(State(), p.body)
      ensures ok ==> p.types == types && p.initials == initials && p.frames == frames
      ensures ok ==> Declared(State(), varDecls, "", scope) && ScopeNames(State(), "", scope) && BlockBinds(State(), Site("", scope, InstanceNames(varDecls), Shadow()), stmts, p.body)
      ensures ok ==> expanding == old(expanding)
      ensures ok ==> DeclsAcyclic(registry, Shadow(), varDecls, Stack())
      ensures ok ==> CallsAcyclic(registry, Shadow() + InstanceNames(varDecls), Shadow(), stmts, Stack())
      ensures ok <==> A.ProgramBinds(registry, old(Stack()), varDecls, stmts, old(Ledger()))
    {
      hide A.EnterVars, A.PassBlock, Ledger, Pous;
      p := Program([], [], [], []);
      var instances, body;
      ok, scope, instances := DeclareVars(varDecls, "");
      if !ok { return; }
      ghost var declared := State();
      ok, body := BindBlock(stmts, "", scope, instances);
      if !ok { return; }
      AdvancesTransitive(old(State()), declared, State());
      DeclaredGrows(declared, State(), varDecls, "", scope);
      p := Program(types, initials, body, frames);
    }

    // System.CycleTime, the data blocks, then the program.
    method BindUnit(unit: CompilationUnit) returns (ok: bool, p: Program, scope: map<string, nat>)
      requires Valid() && expanding == [] && names == [] && types == [] && initials == [] && Ledger() == A.Ledger(map[], {}, 0, map[])
      requires DeclsParsed(unit.varDecls) && BlockParsed(unit.body) && forall db | db in unit.dataBlocks :: DeclsParsed(db.varDecls)
      modifies this
      ensures ok <==> A.Binds(unit, registry)
      ensures ok ==> Valid() && expanding == []
      ensures ok ==> BlockBound(types, frames, |frames|, p.body) && BlockPasses(State(), p.body)
      ensures ok ==> p.types == types && p.initials == initials && p.frames == frames
      ensures ok ==> |names| > 0 && |types| > 0 && names[0] == "System.CycleTime" && types[0] == Time
      ensures ok ==> |initials| > 0 && initials[0] == VTime(0)
      ensures ok ==> Declared(State(), unit.varDecls, "", scope) && ScopeNames(State(), "", scope) && BlocksDeclared(State(), unit.dataBlocks)
      ensures ok ==> BlockBinds(State(), Site("", scope, InstanceNames(unit.varDecls), Shadow()), unit.body, p.body)
      ensures ok ==> DeclsAcyclic(registry, Shadow(), unit.varDecls, Stack())
      ensures ok ==> CallsAcyclic(registry, Shadow() + InstanceNames(unit.varDecls), Shadow(), unit.body, Stack())
    {
      p, scope := Program([], [], [], []), map[];
      A.CycleTimeEnters();
      A.BindsInSteps(unit, registry);
      assert TypeOf(VTime(0)) == Time;
      hide *;
      var cycleTime;
      ok, cycleTime := Declare("System.CycleTime", Time, VTime(0), None);
      if !ok { return; }
      ghost var first := State();
      Idle();
      ok := DeclareDataBlocks(unit.dataBlocks);
      if !ok { return; }
      ghost var before := State();
      Idle();
      ok, p, scope := BindProgram(unit.varDecls, unit.body);
      if !ok { return; }
      AdvancesTransitive(first, before, State());
      BlocksDeclaredGrow(before, State(), unit.dataBlocks);
      Idle();
      FirstTag(first, State());
    }

    // ---- Expansion ----

    method CollectResets(pou: Pou, scope: map<string, nat>) returns (resets: seq<TempReset>)
      requires forall d | d in pou.varDecls && IsReset(pou, d) :: d.name in scope
      ensures ResetsMatch(resets, pou, pou.varDecls, scope)
    {
      hide StartsAs, InitialOf, ResetIds;
      resets := [];
      for i := 0 to |pou.varDecls|
        invariant ResetsMatch(resets, pou, pou.varDecls[..i], scope)
      {
        var d := pou.varDecls[i];
        assert d in pou.varDecls && pou.varDecls[..i + 1] == pou.varDecls[..i] + [d];
        if IsReset(pou, d) {
          InitialStarts(d);
          ResetIdsSnoc(resets, TempReset(scope[d.name], InitialOf(d)));
          ghost var shorter := resets;
          resets := resets + [TempReset(scope[d.name], InitialOf(d))];
          assert forall r | r in shorter :: r in resets;
          assert TempReset(scope[d.name], InitialOf(d)) in resets && ResetOf(TempReset(scope[d.name], InitialOf(d)), d, scope);
        }
      }
      assert pou.varDecls[..|pou.varDecls|] == pou.varDecls;
    }

    // Declares a POU's variables under a prefix, binds a clone of its body, and
    // adds the frame after every frame the body calls.
    method ExpandPou(pou: Pou, prefix: string) returns (ok: bool, scope: map<string, nat>, f: nat)
      requires Valid() && PouParsed(pou) && FromRegistry(registry, pou) && prefix != ""
      modifies this
      ensures ok ==> Valid() && Advances(old(State()), State()) && expanding == old(expanding) && globals == old(globals)
      ensures ok && !Plain(prefix) ==> AddsMarked(old(State()), State())
      ensures ok ==> CallableGood(State(), Callable(pou, f, scope)) && CallableNamed(State(), prefix, Callable(pou, f, scope))
      ensures ok ==> info[f].callSite == !Plain(prefix)
      ensures ok ==> forall k | k in scope :: |old(names)| <= scope[k] < |names|
      ensures ok ==> PouAcyclic(registry, Shadow(), pou, Stack())
      ensures A.EnterPou(registry, old(Stack()), pou, prefix, old(Ledger())) == if ok then Some(A.Built(Ledger(), scope.Keys)) else None
      decreases Unexpanded(), 4
    {
      hide Ledger, A.EnterPou, CallableGood, CallableNamed, PouAcyclic, BlockOk, BlockBinds, Declared, ScopeNames, ScopeOf, FrameGood, FrameFaithful, CallablesGood, InstancesNamed, ByNameGood;
      f := 0;
      ghost var start := State();
      var body;
      ok, scope, body := BindPou(pou, prefix);
      if !ok { return; }
      OlderFramesBelow(start, State());
      ghost var body' := State();
      f := BuildFrame(pou, prefix, |start.names|, |start.info|, scope, body);
      AddedFrameAdvances(start, body', State());
    }

    method BindPou(pou: Pou, prefix: string) returns (ok: bool, scope: map<string, nat>, body: seq<Stmt>)
      requires Valid() && PouParsed(pou) && prefix != ""
      modifies this
      ensures ok ==> Valid() && Advances(old(State()), State()) && expanding == old(expanding) && globals == old(globals)
      ensures ok && !Plain(prefix) ==> AddsMarked(old(State()), State())
      ensures ok ==> Declared(State(), pou.varDecls, prefix, scope) && BlockOk(State(), scope, body)
      ensures ok ==> ScopeNames(State(), prefix, scope) && BlockBinds(State(), Site(prefix, scope, InstanceNames(pou.varDecls), Shadow()), pou.body, body)
      ensures ok ==> forall k | k in scope :: |old(names)| <= scope[k] < |names|
      ensures ok && AllElementary(pou.varDecls) ==> ScopeOf(pou.varDecls, scope)
      ensures ok ==> PouAcyclic(registry, Shadow(), pou, Stack())
      ensures A.EnterPou(registry, old(Stack()), pou, prefix, old(Ledger())) == if ok then Some(A.Built(Ledger(), scope.Keys)) else None
      decreases Unexpanded(), 3
    {
      hide A.EnterVars, A.PassBlock, Ledger, Pous;
      body := [];
      var instances;
      ok, scope, instances := DeclareVars(pou.varDecls, prefix);
      if !ok { return; }
      ghost var declared := State();
      ok, body := BindBlock(pou.body, prefix, scope, instances);
      if !ok { return; }
      AdvancesTransitive(old(State()), declared, State());
      DeclaredGrows(declared, State(), pou.varDecls, prefix, scope);
    }

    method BuildFrame(pou: Pou, prefix: string, ghost lo: nat, ghost older: nat, scope: map<string, nat>, body: seq<Stmt>) returns (f: nat)
      requires Valid() && PouParsed(pou) && FromRegistry(registry, pou) && Declared(State(), pou.varDecls, prefix, scope) && BlockOk(State(), scope, body)
      requires ScopeNames(State(), prefix, scope) && BlockBinds(State(), Site(prefix, scope, InstanceNames(pou.varDecls), Shadow()), pou.body, body)
      requires lo <= |names| && forall k | k in scope :: lo <= scope[k] < |names|
      requires AllElementary(pou.varDecls) ==> ScopeOf(pou.varDecls, scope)
      requires !Plain(prefix) ==> forall id | lo <= id < |names| :: Marked(names, id)
      requires forall i | 0 <= i < |info| :: BelowOrAbove(info, i, older, lo)
      modifies `frames, `info
      ensures Valid() && f == |old(frames)| && |frames| == f + 1 && |info| == f + 1
      ensures old(frames) <= frames && old(info) <= info && info[f].lo == lo
      ensures CallableGood(State(), Callable(pou, f, scope)) && CallableNamed(State(), prefix, Callable(pou, f, scope))
      ensures info[f].callSite == !Plain(prefix)
    {
      hide CallablesGood, InstancesNamed, ByNameGood, PlacesGood, InitialsTyped, BlockBinds, BlockOk;
      var resets := CollectResets(pou, scope);
      ghost var fi := FrameInfo(lo, |names|, pou.isFunction, !Plain(prefix), scope.Values, InputsOf(pou.varDecls, scope), pou, scope, Shadow());
      ghost var bound := State();
      NewFrame(bound, State().(frames := frames + [Frame(prefix, body, resets)], info := info + [fi]), pou, prefix, scope, lo, body, resets, fi);
      NewFrameFaithful(bound, State().(frames := frames + [Frame(prefix, body, resets)], info := info + [fi]), pou, prefix, scope, body, resets, fi);
      forall i | 0 <= i < |info| ensures SpanPair(info + [fi], i, |info|) {
        assert FrameGood(bound, i) && BelowOrAbove(info, i, older, lo);
      }
      f := PushFrame(Frame(prefix, body, resets), fi);
      assert State() == bound.(frames := bound.frames + [Frame(prefix, body, resets)], info := bound.info + [fi]);
    }
  }

  lemma NewFrameFaithful(e: Env, e': Env, pou: Pou, prefix: string, scope: map<string, nat>, body: seq<Stmt>, resets: seq<TempReset>, fi: FrameInfo)
    requires Columns(e) && |e.info| == |e.frames|
    requires Declared(e, pou.varDecls, prefix, scope) && ScopeNames(e, prefix, scope) && BlockBinds(e, SiteOf(Frame(prefix, body, resets), fi), pou.body, body)
    requires AllElementary(pou.varDecls) ==> ScopeOf(pou.varDecls, scope)
    requires ResetsMatch(resets, pou, pou.varDecls, scope) && fi.pou == pou && fi.scope == scope && fi.isFunction == pou.isFunction
    requires e' == e.(frames := e.frames + [Frame(prefix, body, resets)], info := e.info + [fi])
    ensures FrameFaithful(e', |e.frames|)
  {
    DeclaredGrows(e, e', pou.varDecls, prefix, scope);
    BlockBindsGrows(e, e', SiteOf(Frame(prefix, body, resets), fi), pou.body, body);
  }

  // A bound expression reads declared tags only, and is its source with names bound.
  predicate Holds(e: Env, at: Site, src: Expr, x: Expr) {
    ExprBound(x, |e.names|) && Reads(x) <= Known(e, at.scope) && ExprBinds(e, at, src, x)
  }

  lemma HoldsGrows(e: Env, e': Env, at: Site, src: Expr, x: Expr)
    requires Advances(e, e') && Holds(e, at, src, x)
    ensures Holds(e', at, src, x)
  {
    ExprBindsGrows(e, e', at, src, x);
    ExprBoundGrows(x, |e.names|, |e'.names|);
    PlainIdsGrow(e.names, e'.names);
  }

  lemma BranchIsBound(e: Env, e': Env, at: Site, src: IfBranch, b: IfBranch)
    requires Advances(e, e') && Holds(e, at, src.condition, b.condition)
    requires BlockOk(e', at.scope, b.body) && BlockBinds(e', at, src.body, b.body)
    ensures BranchOk(e', at.scope, b) && BranchBinds(e', at, src, b)
  {
    HoldsGrows(e, e', at, src.condition, b.condition);
  }

  lemma WhileIsBound(e: Env, e': Env, at: Site, src: Stmt, st: Stmt)
    requires Advances(e, e') && src.While? && st.While? && Holds(e, at, src.condition, st.condition)
    requires BlockOk(e', at.scope, st.body) && BlockBinds(e', at, src.body, st.body)
    ensures StmtOk(e', at.scope, st) && StmtBinds(e', at, src, st)
  {
    HoldsGrows(e, e', at, src.condition, st.condition);
  }

  lemma WhileParts(st: Stmt, registry: map<string, Pou>, stack: set<string>, place: A.Place, l: A.Ledger)
    requires st.While? && StmtParsed(st)
    ensures ExprPlain(st.condition) && BlockParsed(st.body)
    ensures A.PassStmt(registry, stack, st, place, l) == if A.ExprFound(l, place, st.condition) then A.PassBlock(registry, stack, st.body, place, l) else None
  {
    A.WhilePasses(registry, stack, st, place, l);
  }

  lemma WhileIsAcyclic(registry: map<string, Pou>, local: set<string>, shadow: set<string>, st: Stmt, stack: set<string>)
    requires st.While? && CallsAcyclic(registry, local, shadow, st.body, stack)
    ensures CallAcyclic(registry, local, shadow, st, stack)
  {
  }

  lemma IfParts(st: Stmt)
    requires st.If? && StmtParsed(st)
    ensures 0 < |st.branches| && BlockParsed(st.elseBody)
    ensures forall b | b in st.branches :: ExprPlain(b.condition) && BlockParsed(b.body)
  {
  }

  lemma ResetIdsSnoc(resets: seq<TempReset>, r: TempReset)
    ensures ResetIds(resets + [r]) == ResetIds(resets) + {r.id}
  {
    assert forall x | x in resets + [r] :: x in resets || x == r;
    assert r in resets + [r] && forall x | x in resets :: x in resets + [r];
  }

  lemma InitialStarts(d: VarDecl)
    requires d.elementaryType.Some?
    ensures StartsAs(InitialOf(d), d)
  {
  }

  lemma SameEnvironment(e: Env)
    requires Columns(e) && |e.info| == |e.frames|
    ensures Advances(e, e) && AddsMarked(e, e)
  {
  }

  lemma ScopeKept(e: Env, e': Env, prefix: string, scope: map<string, nat>)
    requires Advances(e, e') && ScopeGood(e, scope) && ScopeNames(e, prefix, scope)
    ensures ScopeGood(e', scope) && ScopeNames(e', prefix, scope)
  {
  }

  lemma EmptyBlockOk(e: Env, scope: map<string, nat>)
    ensures BlockOk(e, scope, [])
  {
  }

  lemma AdvancesGrows(e: Env, e': Env)
    requires Advances(e, e')
    ensures Grows(e, e') && Columns(e') && |e'.info| == |e'.frames|
  {
  }

  lemma IfIsAcyclic(registry: map<string, Pou>, local: set<string>, shadow: set<string>, st: Stmt, stack: set<string>)
    requires st.If? && CallsAcyclic(registry, local, shadow, st.elseBody, stack)
    requires forall j | 0 <= j < |st.branches| :: CallsAcyclic(registry, local, shadow, st.branches[j].body, stack)
    ensures CallAcyclic(registry, local, shadow, st, stack)
  {
  }

  lemma ScopesMerge(e: Env, prefix: string, a: map<string, nat>, b: map<string, nat>)
    requires ScopeNames(e, prefix, a) && ScopeNames(e, prefix, b)
    ensures ScopeNames(e, prefix, a + b)
  {
  }

  // The branches bound so far. (Compared with true so that the verifier keeps it together.)
  predicate BranchesBound(e: Env, at: Site, src: seq<IfBranch>, bs: seq<IfBranch>) {
    BranchesHold(e, at, src, bs) == true
  }

  predicate BranchesHold(e: Env, at: Site, src: seq<IfBranch>, bs: seq<IfBranch>) {
    && |bs| <= |src| && (forall b | b in bs :: BranchOk(e, at.scope, b))
    && forall j | 0 <= j < |bs| :: BranchBinds(e, at, src[j], bs[j])
  }

  lemma NoBranches(e: Env, at: Site, src: seq<IfBranch>)
    ensures BranchesBound(e, at, src, [])
  {
  }

  lemma BranchesBoundGrow(e: Env, e': Env, at: Site, src: seq<IfBranch>, bs: seq<IfBranch>)
    requires Grows(e, e') && |e'.frames| == |e'.info| && BranchesBound(e, at, src, bs)
    ensures BranchesBound(e', at, src, bs)
  {
    BranchesOkGrow(e, e', at.scope, bs);
    forall j | 0 <= j < |bs| ensures BranchBinds(e', at, src[j], bs[j]) {
      BranchBindsGrows(e, e', at, src[j], bs[j]);
    }
  }

  lemma OneMoreBranch(e: Env, e': Env, at: Site, src: seq<IfBranch>, bs: seq<IfBranch>, b: IfBranch)
    requires Grows(e, e') && |e'.frames| == |e'.info| && BranchesBound(e, at, src, bs) && |bs| < |src|
    requires BranchOk(e', at.scope, b) && BranchBinds(e', at, src[|bs|], b)
    ensures BranchesBound(e', at, src, bs + [b])
  {
    BranchesBoundGrow(e, e', at, src, bs);
  }

  lemma IfIsBound(e: Env, e': Env, at: Site, st: Stmt, bs: seq<IfBranch>, els: seq<Stmt>)
    requires Grows(e, e') && |e'.frames| == |e'.info| && st.If? && 0 < |bs| == |st.branches|
    requires BranchesBound(e, at, st.branches, bs)
    requires BlockOk(e', at.scope, els) && BlockBinds(e', at, st.elseBody, els)
    requires Columns(e')
    ensures StmtOk(e', at.scope, If(bs, els)) && StmtBinds(e', at, st, If(bs, els))
  {
    BranchesBoundGrow(e, e', at, st.branches, bs);
    assert forall b | b in bs :: BranchOk(e', at.scope, b);
  }

  // Storage of frames that were there before lies below, of frames added above.
  lemma OlderFramesBelow(e: Env, e': Env)
    requires EnvGood(e) && Advances(e, e')
    ensures forall i | 0 <= i < |e'.info| :: BelowOrAbove(e'.info, i, |e.info|, |e.names|)
  {
    forall i | 0 <= i < |e'.info| ensures BelowOrAbove(e'.info, i, |e.info|, |e.names|) {
      if i < |e.info| { assert FrameGood(e, i) && e'.info[i] == e.info[i]; }
      else { assert StartsAbove(e'.info, i, |e.names|); }
    }
  }

  lemma AddedFrameAdvances(e: Env, e': Env, e'': Env)
    requires Advances(e, e') && e'' == e'.(frames := e''.frames, info := e''.info)
    requires |e''.frames| == |e''.info| == |e'.info| + 1 && e'.frames <= e''.frames && e'.info <= e''.info
    requires e''.info[|e'.info|].lo == |e.names|
    ensures Advances(e, e'')
    ensures AddsMarked(e, e') ==> AddsMarked(e, e'')
  {
    forall i | |e.frames| <= i < |e''.frames| ensures StartsAbove(e''.info, i, |e.names|) {
      if i < |e'.frames| { assert StartsAbove(e'.info, i, |e.names|) && e''.info[i] == e'.info[i]; }
    }
  }

  predicate BelowOrAbove(info: seq<FrameInfo>, i: nat, older: nat, lo: nat)
    requires i < |info|
  {
    if i < older then info[i].hi <= lo else info[i].lo >= lo
  }

  lemma AllInputsPassed(e: Env, c: Callable, bound: seq<CallArg>, given: set<string>)
    requires CallableGood(e, c) && forall d | d in c.pou.varDecls && d.kind == VarInput :: d.name in given
    requires forall n | n in given :: n in c.params && c.params[n] in InputIds(bound)
    ensures e.info[c.frameIndex].inputs <= InputIds(bound)
  {
  }

  lemma InputIdsSnoc(args: seq<CallArg>, a: CallArg)
    ensures InputIds(args + [a]) == InputIds(args) + InputIds([a])
  {
    assert forall x | x in args + [a] :: x in args || x == a;
  }

  function InputNames(args: seq<CallArg>): set<string> {
    set a | a in args && a.InputArg? :: a.paramName
  }

  lemma InputNamesSnoc(args: seq<CallArg>, a: CallArg)
    ensures InputNames(args + [a]) == InputNames(args) + InputNames([a])
  {
    assert forall x | x in args + [a] :: x in args || x == a;
  }

  lemma GivenAre(args: seq<CallArg>)
    ensures forall n :: n in InputNames(args) <==> A.PassesTo(args, n)
  {
  }

  method BuildRegistry(pous: seq<Pou>) returns (ok: bool, registry: map<string, Pou>)
    requires forall p | p in pous :: PouParsed(p)
    ensures ok <==> A.NamedApart(pous)
    ensures ok ==> registry == A.Registered(pous) && RegistryOf(pous, registry)
    ensures ok ==> forall n | n in registry :: PouParsed(registry[n]) && registry[n].name == n
  {
    hide PouParsed;
    registry := map[];
    for i := 0 to |pous|
      invariant registry == A.Registered(pous[..i]) && A.NamedApart(pous[..i])
    {
      assert pous[..i + 1][..i] == pous[..i];
      A.RegisteredNames(pous[..i]);
      if pous[i].name in registry {
        var j :| 0 <= j < i && pous[..i][j].name == pous[i].name;
        assert pous[j].name == pous[i].name;
        return false, registry;
      }
      registry := registry[pous[i].name := pous[i]];
    }
    assert pous[..|pous|] == pous;
    A.RegisteredNames(pous);
    A.EachRegistered(pous);
    ok := true;
  }

  // What binding went through: the types by name, the names of global instances, and
  // the program's own scope.
  datatype Expanded = Expanded(registry: map<string, Pou>, instances: set<string>, scope: map<string, nat>)

  predicate RegistryOf(pous: seq<Pou>, registry: map<string, Pou>) {
    && (forall p | p in pous :: p.name in registry && registry[p.name] == p)
    && forall n | n in registry :: registry[n].name == n && registry[n] in pous
  }

  // No declaration and no call of the program expands a type inside itself.
  ghost predicate UnitAcyclic(unit: CompilationUnit, x: Expanded) {
    && DeclsAcyclic(x.registry, x.instances, unit.varDecls, {})
    && CallsAcyclic(x.registry, x.instances + InstanceNames(unit.varDecls), x.instances, unit.body, {})
  }

  // The program and all its frames are copies of the source with every name bound, each
  // variable and data block member with its type, initial value and address.
  ghost predicate UnitFaithful(unit: CompilationUnit, p: Program, e: Env, x: Expanded) {
    && EnvFaithful(e) && ScopeNames(e, "", x.scope) && Declared(e, unit.varDecls, "", x.scope)
    && BlockBinds(e, Site("", x.scope, InstanceNames(unit.varDecls), x.instances), unit.body, p.body)
    && BlocksDeclared(e, unit.dataBlocks)
    && forall i | 0 <= i < |e.info| :: e.info[i].pou in unit.pous
  }

  ghost predicate BlocksDeclared(e: Env, dbs: seq<DataBlock>) {
    forall db | db in dbs :: MembersDeclared(e, db.name, db.varDecls)
  }

  lemma BlocksDeclaredGrow(e: Env, e': Env, dbs: seq<DataBlock>)
    requires Advances(e, e') && BlocksDeclared(e, dbs)
    ensures BlocksDeclared(e', dbs)
  {
    forall db | db in dbs ensures MembersDeclared(e', db.name, db.varDecls) { MembersDeclaredGrow(e, e', db.name, db.varDecls); }
  }

  lemma BlocksDeclaredSnoc(e: Env, e': Env, dbs: seq<DataBlock>, db: DataBlock)
    requires Advances(e, e') && BlocksDeclared(e, dbs) && MembersDeclared(e', db.name, db.varDecls)
    ensures BlocksDeclared(e', dbs + [db])
  {
    BlocksDeclaredGrow(e, e', dbs);
  }

  // Binding a whole unit terminates, and what it accepts is well bound: every tag
  // and frame number is valid, calls go to lower frames, initial values are typed.
  method BindCompilationUnit(unit: CompilationUnit) returns (ok: bool, p: Program, ghost e: Env, ghost expansion: Expanded)
    requires UnitParsed(unit)
    ensures ok ==> WellBound(p, e)
    ensures ok ==> RegistryOf(unit.pous, expansion.registry) && UnitAcyclic(unit, expansion)
    ensures ok ==> UnitFaithful(unit, p, e, expansion)
    ensures ok ==> |e.names| > 0 && e.names[0] == "System.CycleTime"
    ensures ok ==> Bound(p) && |p.types| > 0 && p.types[0] == Time && |p.initials| > 0 && p.initials[0] == VTime(0)
    ensures ok <==> A.Accepted(unit)
  {
    p, e, expansion := Program([], [], [], []), Env([], [], [], [], [], []), Expanded(map[], {}, map[]);
    UnitParts(unit);
    A.UnitBinds(unit);
    hide *;
    var registry, scope;
    ok, registry := BuildRegistry(unit.pous);
    if !ok { return; }
    var b := new Binder(registry);
    ok, p, scope := b.BindUnit(unit);
    if !ok { return; }
    e, expansion := b.State(), Expanded(registry, b.Shadow(), scope);
    UnitIsBound(b, unit, p, scope);
    ValidIsWellBound(b, p);
  }

  lemma UnitParts(unit: CompilationUnit)
    requires UnitParsed(unit)
    ensures forall p | p in unit.pous :: PouParsed(p)
    ensures forall db | db in unit.dataBlocks :: DeclsParsed(db.varDecls)
    ensures DeclsParsed(unit.varDecls) && BlockParsed(unit.body) && TypeOf(VTime(0)) == Time
  {
  }

  lemma FirstTag(e: Env, e': Env)
    requires Advances(e, e') && e.names == ["System.CycleTime"] && e.types == [Time] && e.initials == [VTime(0)]
    ensures |e'.types| > 0 && e'.names[0] == "System.CycleTime" && e'.types[0] == Time && |e'.initials| > 0 && e'.initials[0] == VTime(0)
  {
  }

  lemma UnitIsBound(b: Binder, unit: CompilationUnit, p: Program, scope: map<string, nat>)
    requires b.Valid() && b.expanding == [] && |b.names| > 0 && b.names[0] == "System.CycleTime" && RegistryOf(unit.pous, b.registry)
    requires Declared(b.State(), unit.varDecls, "", scope) && ScopeNames(b.State(), "", scope) && BlocksDeclared(b.State(), unit.dataBlocks)
    requires BlockBinds(b.State(), Site("", scope, InstanceNames(unit.varDecls), b.Shadow()), unit.body, p.body)
    requires DeclsAcyclic(b.registry, b.Shadow(), unit.varDecls, b.Stack())
    requires CallsAcyclic(b.registry, b.Shadow() + InstanceNames(unit.varDecls), b.Shadow(), unit.body, b.Stack())
    ensures UnitFaithful(unit, p, b.State(), Expanded(b.registry, b.Shadow(), scope))
    ensures UnitAcyclic(unit, Expanded(b.registry, b.Shadow(), scope))
    ensures |b.State().names| > 0 && b.State().names[0] == "System.CycleTime"
  {
    hide BlockBinds, Declared, ScopeNames, BlocksDeclared, DeclsAcyclic, CallsAcyclic, EnvGood, ByNameGood, PlacesGood, InitialsTyped, CallablesGood, InstancesNamed, FrameFaithful;
    assert b.Stack() == {};
    var e := b.State();
    forall i | 0 <= i < |e.info| ensures e.info[i].pou in unit.pous { assert FromRegistry(b.registry, e.info[i].pou); }
  }

  lemma NothingDeclaredYet(e: Env)
    requires Columns(e) && |e.info| == |e.frames|
    ensures BlocksDeclared(e, []) && Advances(e, e)
  {
  }

  lemma ValidIsWellBound(b: Binder, p: Program)
    requires b.Valid() && BlockBound(b.types, b.frames, |b.frames|, p.body) && BlockPasses(b.State(), p.body)
    requires p.types == b.types && p.initials == b.initials && p.frames == b.frames
    ensures WellBound(p, b.State()) && Bound(p)
  {
    var e := b.State();
    forall i | 0 <= i < |p.types| ensures TypeOf(p.initials[i]) == p.types[i] { assert InitialsTyped(b.types, b.initials); }
    forall i, j | 0 <= i < j < |e.names| ensures e.names[i] != e.names[j] {
      assert NumberOf(e.names, b.byName, i) && NumberOf(e.names, b.byName, j);
    }
    forall i | 0 <= i < |p.frames| ensures FrameBound(p.types, p.frames, i) { assert FrameGood(e, i); }
  }
}

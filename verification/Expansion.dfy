// Which declarations and calls the binder refuses to expand because they would
// expand a type inside itself.

module Expansion {
  import opened Values
  import opened Ast
  import opened BoundUnit

  // Instances declared here, whose names hide FUNCTIONs in the body.
  function InstanceNames(ds: seq<VarDecl>): set<string> {
    set d | d in ds && d.elementaryType.None? && d.instanceOfType.Some? :: d.name
  }

  // No type below t (by instance or by FUNCTION call) is t or on the stack of
  // types being expanded. shadow: names that stand for instances, not FUNCTIONs.
  ghost predicate TypeAcyclic(registry: map<string, Pou>, shadow: set<string>, t: string, stack: set<string>)
    decreases registry.Keys - stack, 1
  {
    t in registry && t !in stack && PouAcyclic(registry, shadow, registry[t], stack + {t})
  }

  ghost predicate PouAcyclic(registry: map<string, Pou>, shadow: set<string>, pou: Pou, stack: set<string>)
    decreases registry.Keys - stack, 3
  {
    && DeclsAcyclic(registry, shadow, pou.varDecls, stack)
    && CallsAcyclic(registry, shadow + InstanceNames(pou.varDecls), shadow, pou.body, stack)
  }

  ghost predicate DeclsAcyclic(registry: map<string, Pou>, shadow: set<string>, ds: seq<VarDecl>, stack: set<string>)
    decreases registry.Keys - stack, 2
  {
    forall d | d in ds && d.elementaryType.None? :: d.instanceOfType.Some? && TypeAcyclic(registry, shadow, d.instanceOfType.value, stack)
  }

  ghost predicate CallsAcyclic(registry: map<string, Pou>, local: set<string>, shadow: set<string>, ss: seq<Stmt>, stack: set<string>)
    decreases registry.Keys - stack, 2, ss
  {
    forall st | st in ss :: CallAcyclic(registry, local, shadow, st, stack)
  }

  ghost predicate CallAcyclic(registry: map<string, Pou>, local: set<string>, shadow: set<string>, st: Stmt, stack: set<string>)
    decreases registry.Keys - stack, 2, st
  {
    match st
    case If(branches, els) =>
      && (forall b | b in branches :: CallsAcyclic(registry, local, shadow, b.body, stack))
      && CallsAcyclic(registry, local, shadow, els, stack)
    case While(_, body) => CallsAcyclic(registry, local, shadow, body, stack)
    case Call(callee, _, _) => callee in local || TypeAcyclic(registry, shadow, callee, stack)
    case _ => true
  }

  // Declaring more global instances hides more names and never adds an expansion.
  lemma {:induction false} TypeShadowed(registry: map<string, Pou>, shadow: set<string>, shadow': set<string>, t: string, stack: set<string>)
    requires shadow <= shadow' && TypeAcyclic(registry, shadow, t, stack)
    ensures TypeAcyclic(registry, shadow', t, stack)
    decreases registry.Keys - stack, 1
  {
    var pou, inner := registry[t], stack + {t};
    DeclsShadowed(registry, shadow, shadow', pou.varDecls, inner);
    CallsShadowed(registry, shadow + InstanceNames(pou.varDecls), shadow' + InstanceNames(pou.varDecls), shadow, shadow', pou.body, inner);
  }

  lemma {:induction false} DeclsShadowed(registry: map<string, Pou>, shadow: set<string>, shadow': set<string>, ds: seq<VarDecl>, stack: set<string>)
    requires shadow <= shadow' && DeclsAcyclic(registry, shadow, ds, stack)
    ensures DeclsAcyclic(registry, shadow', ds, stack)
    decreases registry.Keys - stack, 2
  {
    forall d | d in ds && d.elementaryType.None?
      ensures d.instanceOfType.Some? && TypeAcyclic(registry, shadow', d.instanceOfType.value, stack)
    {
      TypeShadowed(registry, shadow, shadow', d.instanceOfType.value, stack);
    }
  }

  lemma {:induction false} CallsShadowed(registry: map<string, Pou>, local: set<string>, local': set<string>, shadow: set<string>, shadow': set<string>, ss: seq<Stmt>, stack: set<string>)
    requires local <= local' && shadow <= shadow' && CallsAcyclic(registry, local, shadow, ss, stack)
    ensures CallsAcyclic(registry, local', shadow', ss, stack)
    decreases registry.Keys - stack, 2, ss
  {
    forall st | st in ss ensures CallAcyclic(registry, local', shadow', st, stack) {
      CallShadowed(registry, local, local', shadow, shadow', st, stack);
    }
  }

  lemma {:induction false} CallShadowed(registry: map<string, Pou>, local: set<string>, local': set<string>, shadow: set<string>, shadow': set<string>, st: Stmt, stack: set<string>)
    requires local <= local' && shadow <= shadow' && CallAcyclic(registry, local, shadow, st, stack)
    ensures CallAcyclic(registry, local', shadow', st, stack)
    decreases registry.Keys - stack, 2, st
  {
    match st
    case If(branches, els) =>
      forall b | b in branches ensures CallsAcyclic(registry, local', shadow', b.body, stack) {
        CallsShadowed(registry, local, local', shadow, shadow', b.body, stack);
      }
      CallsShadowed(registry, local, local', shadow, shadow', els, stack);
    case While(_, body) => CallsShadowed(registry, local, local', shadow, shadow', body, stack);
    case Call(callee, _, _) =>
      if callee !in local { TypeShadowed(registry, shadow, shadow', callee, stack); }
    case _ =>
  }

  // ---- What acyclicity means: no type reaches itself ----

  // from directly needs an expansion of to: by an instance, or by a call that no
  // instance name hides.
  ghost predicate Needs(registry: map<string, Pou>, shadow: set<string>, from: string, to: string) {
    from in registry &&
    var pou := registry[from];
    || (exists d :: d in pou.varDecls && d.elementaryType.None? && d.instanceOfType == Some(to))
    || (to !in shadow + InstanceNames(pou.varDecls) && BlockCalls(pou.body, to))
  }

  predicate BlockCalls(ss: seq<Stmt>, callee: string)
    decreases ss
  {
    exists st :: st in ss && StmtCalls(st, callee)
  }

  predicate StmtCalls(st: Stmt, callee: string)
    decreases st
  {
    match st
    case If(branches, els) => (exists b :: b in branches && BlockCalls(b.body, callee)) || BlockCalls(els, callee)
    case While(_, body) => BlockCalls(body, callee)
    case Call(name, _, _) => name == callee
    case _ => false
  }

  lemma {:induction false} CalledTypeAcyclic(registry: map<string, Pou>, local: set<string>, shadow: set<string>, ss: seq<Stmt>, stack: set<string>, callee: string)
    requires CallsAcyclic(registry, local, shadow, ss, stack) && BlockCalls(ss, callee) && callee !in local
    ensures TypeAcyclic(registry, shadow, callee, stack)
    decreases ss
  {
    var st :| st in ss && StmtCalls(st, callee);
    assert CallAcyclic(registry, local, shadow, st, stack);
    match st
    case If(branches, els) =>
      if BlockCalls(els, callee) {
        CalledTypeAcyclic(registry, local, shadow, els, stack, callee);
      } else {
        var b :| b in branches && BlockCalls(b.body, callee);
        CalledTypeAcyclic(registry, local, shadow, b.body, stack, callee);
      }
    case While(_, body) => CalledTypeAcyclic(registry, local, shadow, body, stack, callee);
    case _ =>
  }

  ghost predicate Chain(registry: map<string, Pou>, shadow: set<string>, ts: seq<string>) {
    forall i | 0 <= i < |ts| - 1 :: Needs(registry, shadow, ts[i], ts[i + 1])
  }

  // Along every chain of expansions from an accepted type, no type comes twice
  // and none is already on the stack.
  lemma {:induction false} NoTypeExpandsItself(registry: map<string, Pou>, shadow: set<string>, ts: seq<string>, stack: set<string>)
    requires |ts| > 0 && TypeAcyclic(registry, shadow, ts[0], stack) && Chain(registry, shadow, ts)
    ensures forall i | 0 <= i < |ts| :: ts[i] in registry && ts[i] !in stack
    ensures forall i, j | 0 <= i < j < |ts| :: ts[i] != ts[j]
    decreases ts
  {
    if |ts| > 1 {
      var pou, inner := registry[ts[0]], stack + {ts[0]};
      assert Needs(registry, shadow, ts[0], ts[1]);
      if exists d :: d in pou.varDecls && d.elementaryType.None? && d.instanceOfType == Some(ts[1]) {
        var d :| d in pou.varDecls && d.elementaryType.None? && d.instanceOfType == Some(ts[1]);
        assert DeclsAcyclic(registry, shadow, pou.varDecls, inner);
      } else {
        CalledTypeAcyclic(registry, shadow + InstanceNames(pou.varDecls), shadow, pou.body, inner, ts[1]);
      }
      forall i | 0 <= i < |ts[1..]| - 1 ensures Needs(registry, shadow, ts[1..][i], ts[1..][i + 1]) {
        assert Needs(registry, shadow, ts[i + 1], ts[i + 1 + 1]);
      }
      NoTypeExpandsItself(registry, shadow, ts[1..], inner);
      assert forall i | 1 <= i < |ts| :: ts[i] == ts[1..][i - 1];
    }
  }
}

// Every scan of every program terminates: the number of statements one scan
// executes has a bound that depends on the program alone. Frame order (a call
// only goes to a lower frame) and the loop limit are what the bound is made of.

module ScanCost {
  import opened Values
  import opened Ast
  import opened Interpreter

  // Statements started by a run, also by one that ends in a fault.
  function BlockSteps(p: Program, limit: nat, ss: seq<Stmt>, s: Store): nat
    decreases limit, ss, 0, 0
  {
    if ss == [] then 0
    else
      var first := StmtSteps(p, limit, ss[0], s);
      match ExecStmt(p, limit, ss[0], s)
      case Ok(s1) => first + BlockSteps(p, limit, ss[1..], s1)
      case Err(_) => first
  }

  function StmtSteps(p: Program, limit: nat, st: Stmt, s: Store): nat
    decreases limit, st, 1, 0
  {
    match st
    case If(_, _) => 1 + BranchSteps(p, limit, st, 0, s)
    case While(_, _) => 1 + LoopSteps(p, limit, st, 0, s)
    case Call(_, args, f) =>
      if f >= limit || f >= |p.frames| then 1
      else
        var r1 := ApplyResets(p.frames[f].tempResets, s);
        if r1.Err? then 1
        else
          var r2 := PassInputs(p.types, args, r1.value);
          if r2.Err? then 1 else 1 + BlockSteps(p, f, p.frames[f].body, r2.value)
    case _ => 1
  }

  function BranchSteps(p: Program, limit: nat, st: Stmt, k: nat, s: Store): nat
    requires st.If? && k <= |st.branches|
    decreases limit, st, 0, |st.branches| - k
  {
    if k == |st.branches| then BlockSteps(p, limit, st.elseBody, s)
    else
      match Condition(st.branches[k].condition, s)
      case Err(_) => 0
      case Ok(c) => if c then BlockSteps(p, limit, st.branches[k].body, s) else BranchSteps(p, limit, st, k + 1, s)
  }

  function LoopSteps(p: Program, limit: nat, st: Stmt, passes: nat, s: Store): nat
    requires st.While? && passes <= MAX_ITERATIONS
    decreases limit, st, 0, MAX_ITERATIONS - passes
  {
    if Condition(st.condition, s) != Ok(true) then 0
    else
      var here := BlockSteps(p, limit, st.body, s);
      match ExecBlock(p, limit, st.body, s)
      case Err(_) => here
      case Ok(s1) => if passes + 1 > MAX_ITERATIONS then here else here + LoopSteps(p, limit, st, passes + 1, s1)
  }

  // The store-independent bound.
  function BlockCap(p: Program, limit: nat, ss: seq<Stmt>): nat
    decreases limit, ss, 0, 0
  {
    if ss == [] then 0 else StmtCap(p, limit, ss[0]) + BlockCap(p, limit, ss[1..])
  }

  function StmtCap(p: Program, limit: nat, st: Stmt): nat
    decreases limit, st, 1, 0
  {
    match st
    case If(branches, _) => 1 + BranchCap(p, limit, st, 0)
    case While(_, body) => 1 + (MAX_ITERATIONS + 1) * BlockCap(p, limit, body)
    case Call(_, _, f) => if f >= limit || f >= |p.frames| then 1 else 1 + BlockCap(p, f, p.frames[f].body)
    case _ => 1
  }

  function BranchCap(p: Program, limit: nat, st: Stmt, k: nat): nat
    requires st.If? && k <= |st.branches|
    decreases limit, st, 0, |st.branches| - k
  {
    if k == |st.branches| then BlockCap(p, limit, st.elseBody)
    else BlockCap(p, limit, st.branches[k].body) + BranchCap(p, limit, st, k + 1)
  }

  lemma {:induction false} BlockWithinCap(p: Program, limit: nat, ss: seq<Stmt>, s: Store)
    ensures BlockSteps(p, limit, ss, s) <= BlockCap(p, limit, ss)
    decreases limit, ss, 0, 0
  {
    if ss != [] {
      StmtWithinCap(p, limit, ss[0], s);
      var r := ExecStmt(p, limit, ss[0], s);
      if r.Ok? { BlockWithinCap(p, limit, ss[1..], r.value); }
    }
  }

  lemma {:induction false} StmtWithinCap(p: Program, limit: nat, st: Stmt, s: Store)
    ensures StmtSteps(p, limit, st, s) <= StmtCap(p, limit, st)
    decreases limit, st, 1, 0
  {
    match st
    case If(_, _) => BranchesWithinCap(p, limit, st, 0, s);
    case While(_, _) => LoopWithinCap(p, limit, st, 0, s);
    case Call(_, args, f) =>
      if f < limit && f < |p.frames| {
        var r1 := ApplyResets(p.frames[f].tempResets, s);
        if r1.Ok? {
          var r2 := PassInputs(p.types, args, r1.value);
          if r2.Ok? { BlockWithinCap(p, f, p.frames[f].body, r2.value); }
        }
      }
    case Assign(_, _, _) =>
    case Rung(_, _) =>
  }

  lemma {:induction false} BranchesWithinCap(p: Program, limit: nat, st: Stmt, k: nat, s: Store)
    requires st.If? && k <= |st.branches|
    ensures BranchSteps(p, limit, st, k, s) <= BranchCap(p, limit, st, k)
    decreases limit, st, 0, |st.branches| - k
  {
    if k == |st.branches| {
      BlockWithinCap(p, limit, st.elseBody, s);
    } else {
      BlockWithinCap(p, limit, st.branches[k].body, s);
      BranchesWithinCap(p, limit, st, k + 1, s);
    }
  }

  lemma {:induction false} LoopWithinCap(p: Program, limit: nat, st: Stmt, passes: nat, s: Store)
    requires st.While? && passes <= MAX_ITERATIONS
    ensures LoopSteps(p, limit, st, passes, s) <= (MAX_ITERATIONS + 1 - passes) * BlockCap(p, limit, st.body)
    decreases limit, st, 0, MAX_ITERATIONS - passes
  {
    var cap := BlockCap(p, limit, st.body);
    OneMorePass(MAX_ITERATIONS - passes, cap);
    BlockWithinCap(p, limit, st.body, s);
    var r := ExecBlock(p, limit, st.body, s);
    if r.Ok? && passes + 1 <= MAX_ITERATIONS { LoopWithinCap(p, limit, st, passes + 1, r.value); }
  }

  lemma OneMorePass(n: nat, cap: nat)
    ensures (n + 1) * cap == n * cap + cap && n * cap >= 0
  {
  }

  // One scan, whatever the tag values.
  lemma EveryScanIsBounded(p: Program, s: Store)
    ensures BlockSteps(p, |p.frames|, p.body, s) <= BlockCap(p, |p.frames|, p.body)
  {
    BlockWithinCap(p, |p.frames|, p.body, s);
  }
}

// The loop limit in numbers: a WHILE makes up to 1,000,000 passes, interpreted
// (src/st/interpreter.cpp:85-102) and emitted (apps/plc_codegen/main.cpp:112-117).

module LoopBound {
  import opened Values
  import opened Ast
  import opened Interpreter
  import opened Codegen

  // The tags after n passes of the body, whatever its condition says.
  function Passes(p: Program, limit: nat, body: seq<Stmt>, n: nat, s: Store): Result<Store> {
    if n == 0 then Ok(s)
    else
      var before :- Passes(p, limit, body, n - 1, s);
      ExecBlock(p, limit, body, before)
  }

  // The loop wants its next pass after n of them.
  predicate WantsMore(p: Program, limit: nat, st: Stmt, n: nat, s: Store)
    requires st.While?
  {
    var before := Passes(p, limit, st.body, n, s);
    before.Ok? && Condition(st.condition, before.value) == Ok(true)
  }

  predicate WantsNoMore(p: Program, limit: nat, st: Stmt, n: nat, s: Store)
    requires st.While?
  {
    var before := Passes(p, limit, st.body, n, s);
    before.Ok? && Condition(st.condition, before.value) == Ok(false)
  }

  lemma {:induction false} PassesLeft(p: Program, limit: nat, st: Stmt, i: nat, n: nat, s: Store)
    requires st.While? && i <= n <= 1_000_000 && WantsNoMore(p, limit, st, n, s)
    requires forall k | 0 <= k < n :: WantsMore(p, limit, st, k, s)
    ensures Passes(p, limit, st.body, i, s).Ok?
    ensures ExecLoop(p, limit, st, i, Passes(p, limit, st.body, i, s).value) == Passes(p, limit, st.body, n, s)
    decreases n - i
  {
    if i < n {
      assert WantsMore(p, limit, st, i, s);
      PassesLeft(p, limit, st, i + 1, n, s);
    }
  }

  lemma {:induction false} NoPassLeft(p: Program, limit: nat, st: Stmt, i: nat, s: Store)
    requires st.While? && i <= 1_000_000 && Passes(p, limit, st.body, 1_000_001, s).Ok?
    requires forall k | 0 <= k <= 1_000_000 :: WantsMore(p, limit, st, k, s)
    ensures Passes(p, limit, st.body, i, s).Ok?
    ensures ExecLoop(p, limit, st, i, Passes(p, limit, st.body, i, s).value) == Err(LoopLimit)
    decreases 1_000_000 - i
  {
    assert WantsMore(p, limit, st, i, s);
    assert Passes(p, limit, st.body, i + 1, s).Ok? by { if i < 1_000_000 { assert WantsMore(p, limit, st, i + 1, s); } }
    if i < 1_000_000 { NoPassLeft(p, limit, st, i + 1, s); }
  }

  // A loop that wants n passes ends after them if they are at most a million, and stops
  // with the loop limit if it still wants more after a million.
  lemma WhileInNumbers(p: Program, limit: nat, st: Stmt, n: nat, s: Store)
    requires st.While? && forall k | 0 <= k < n :: WantsMore(p, limit, st, k, s)
    ensures n <= 1_000_000 && WantsNoMore(p, limit, st, n, s) ==> ExecStmt(p, limit, st, s) == Passes(p, limit, st.body, n, s)
    ensures n > 1_000_000 && Passes(p, limit, st.body, 1_000_001, s).Ok? ==> ExecStmt(p, limit, st, s) == Err(LoopLimit)
  {
    if n <= 1_000_000 && WantsNoMore(p, limit, st, n, s) { PassesLeft(p, limit, st, 0, n, s); }
    if n > 1_000_000 && Passes(p, limit, st.body, 1_000_001, s).Ok? { NoPassLeft(p, limit, st, 0, s); }
  }

  // ---- Emitted ----

  function Turns(c: CProgram, limit: nat, body: seq<CStmt>, n: nat, m: Machine): Result<Machine> {
    if n == 0 then Ok(m)
    else
      var before :- Turns(c, limit, body, n - 1, m);
      RunBlock(c, limit, body, before)
  }

  predicate WantsTurn(c: CProgram, limit: nat, st: CStmt, n: nat, m: Machine, more: bool)
    requires st.CLoop?
  {
    var before := Turns(c, limit, st.loopBody, n, m);
    before.Ok? && Truth(st.cond, before.value) == Ok(more)
  }

  lemma {:induction false} TurnsLeft(c: CProgram, limit: nat, st: CStmt, i: nat, n: nat, m: Machine)
    requires st.CLoop? && i <= n <= 1_000_000 && WantsTurn(c, limit, st, n, m, false)
    requires forall k | 0 <= k < n :: WantsTurn(c, limit, st, k, m, true)
    ensures Turns(c, limit, st.loopBody, i, m).Ok?
    ensures RunLoop(c, limit, st, i, Turns(c, limit, st.loopBody, i, m).value) == Turns(c, limit, st.loopBody, n, m)
    decreases n - i
  {
    if i < n {
      assert WantsTurn(c, limit, st, i, m, true);
      TurnsLeft(c, limit, st, i + 1, n, m);
    }
  }

  lemma {:induction false} NoTurnLeft(c: CProgram, limit: nat, st: CStmt, i: nat, m: Machine)
    requires st.CLoop? && i <= 1_000_000 && forall k | 0 <= k <= 1_000_000 :: WantsTurn(c, limit, st, k, m, true)
    ensures Turns(c, limit, st.loopBody, i, m).Ok?
    ensures RunLoop(c, limit, st, i, Turns(c, limit, st.loopBody, i, m).value) == Err(LoopLimit)
    decreases 1_000_000 - i
  {
    assert WantsTurn(c, limit, st, i, m, true);
    if i < 1_000_000 {
      assert WantsTurn(c, limit, st, i + 1, m, true);
      NoTurnLeft(c, limit, st, i + 1, m);
    }
  }

  // The emitted loop has the same limit, though it counts a pass before running it.
  lemma LoopInNumbers(c: CProgram, limit: nat, st: CStmt, n: nat, m: Machine)
    requires st.CLoop? && forall k | 0 <= k < n :: WantsTurn(c, limit, st, k, m, true)
    ensures n <= 1_000_000 && WantsTurn(c, limit, st, n, m, false) ==> RunStmt(c, limit, st, m) == Turns(c, limit, st.loopBody, n, m)
    ensures n > 1_000_000 ==> RunStmt(c, limit, st, m) == Err(LoopLimit)
  {
    if n <= 1_000_000 && WantsTurn(c, limit, st, n, m, false) { TurnsLeft(c, limit, st, 0, n, m); }
    if n > 1_000_000 { NoTurnLeft(c, limit, st, 0, m); }
  }
}

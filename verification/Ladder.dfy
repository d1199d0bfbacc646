// Ladder networks (Frontend.ladder, tools/plc_project.py:99-120): the text printed for
// one parses to its coils and calls, and these act on the power of its branches.

module Ladder {
  import opened Values
  import opened Ast
  import opened Interpreter
  import opened Names
  import opened Agreement
  import opened Footprint
  import opened Grammar
  import opened Statements

  // ---- The condition of a network ----

  datatype LadderContact = LadderContact(tag: string, normallyClosed: bool)

  function ContactTokens(c: LadderContact): seq<Token> {
    (if c.normallyClosed then [KwNot] else []) + PrintName(c.tag)
  }

  function ContactExpr(c: LadderContact): Expr {
    var tag := Identifier(c.tag, INVALID_TAG);
    if c.normallyClosed then Unary(Not, tag) else tag
  }

  function AndTokens(row: seq<LadderContact>): seq<Token> {
    if row == [] then [] else [KwAnd] + ContactTokens(row[0]) + AndTokens(row[1..])
  }

  function AndExpr(left: Expr, row: seq<LadderContact>): Expr
    decreases |row|
  {
    if row == [] then left else AndExpr(Binary(And, left, ContactExpr(row[0])), row[1..])
  }

  // '(a AND NOT b AND c)', or TRUE for an empty branch.
  function RowTokens(row: seq<LadderContact>): seq<Token> {
    if row == [] then [BoolLiteral(true)] else [LParen] + ContactTokens(row[0]) + AndTokens(row[1..]) + [RParen]
  }

  function RowExpr(row: seq<LadderContact>): Expr {
    if row == [] then Literal(VBool(true)) else AndExpr(ContactExpr(row[0]), row[1..])
  }

  function OrTokens(rows: seq<seq<LadderContact>>): seq<Token> {
    if rows == [] then [] else [KwOr] + RowTokens(rows[0]) + OrTokens(rows[1..])
  }

  function OrExpr(left: Expr, rows: seq<seq<LadderContact>>): Expr
    decreases |rows|
  {
    if rows == [] then left else OrExpr(Binary(Or, left, RowExpr(rows[0])), rows[1..])
  }

  function LadderTokens(rows: seq<seq<LadderContact>>): seq<Token>
    requires rows != []
  {
    [LParen] + RowTokens(rows[0]) + OrTokens(rows[1..]) + [RParen]
  }

  function LadderExpr(rows: seq<seq<LadderContact>>): Expr
    requires rows != []
  {
    OrExpr(RowExpr(rows[0]), rows[1..])
  }

  lemma ContactParses(c: LadderContact, rest: seq<Token>)
    requires !Peek(rest).Dot?
    ensures ParseUnary(ContactTokens(c) + rest) == Some((ContactExpr(c), rest))
  {
    hide ParseUnary;
    TagParses(c.tag, rest);
    if c.normallyClosed {
      PrefixParses(Not, PrintName(c.tag) + rest, Identifier(c.tag, INVALID_TAG), rest);
      assert ContactTokens(c) + rest == [KwNot] + (PrintName(c.tag) + rest);
    } else {
      assert ContactTokens(c) == PrintName(c.tag);
    }
  }

  lemma AndShape(row: seq<LadderContact>, rest: seq<Token>)
    requires row != []
    ensures AndTokens(row) + rest == [KwAnd] + (ContactTokens(row[0]) + (AndTokens(row[1..]) + rest))
  {
    hide ContactTokens;
  }

  lemma {:induction false} AndsParse(left: Expr, row: seq<LadderContact>, rest: seq<Token>)
    requires Peek(rest).RParen?
    ensures ParseTail(2, left, AndTokens(row) + rest) == Some((AndExpr(left, row), rest))
    decreases |row|
  {
    hide ParseUnary, ParseLevel, ParseTail, ContactTokens;
    if row == [] {
      assert AndTokens(row) + rest == rest;
      NoOperator(2, left, rest);
    } else {
      var tail := AndTokens(row[1..]) + rest;
      var ts := ContactTokens(row[0]) + tail;
      AndShape(row, rest);
      AndsFollow(row[1..], rest);
      ContactParses(row[0], tail);
      AtLevel(3, ts, ContactExpr(row[0]), tail);
      NextOperand(2, KwAnd, And, left, ts, ContactExpr(row[0]), tail);
      AndsParse(Binary(And, left, ContactExpr(row[0])), row[1..], rest);
    }
  }

  lemma AndsFollow(row: seq<LadderContact>, rest: seq<Token>)
    requires Peek(rest).RParen?
    ensures var tail := AndTokens(row) + rest;
      Follows(2, tail) && Follows(3, tail) && OperatorAt(3, Peek(tail)).None?
  {
    if row == [] { assert AndTokens(row) + rest == rest; }
  }

  lemma Regroup(a: seq<Token>, b: seq<Token>, rest: seq<Token>)
    ensures [LParen] + a + b + [RParen] + rest == [LParen] + (a + (b + ([RParen] + rest)))
  {
  }

  // What stands between the parentheses of a branch.
  lemma ContactsParse(row: seq<LadderContact>, close: seq<Token>)
    requires row != [] && Peek(close).RParen?
    ensures ParseLevel(0, ContactTokens(row[0]) + (AndTokens(row[1..]) + close)) == Some((RowExpr(row), close))
  {
    hide ParseUnary, ParseLevel, ParseTail, AndTokens, ContactTokens, AndExpr;
    var tail := AndTokens(row[1..]) + close;
    var ts := ContactTokens(row[0]) + tail;
    AndsFollow(row[1..], close);
    ContactParses(row[0], tail);
    Climb(2, UNARY, ts, ContactExpr(row[0]), tail);
    AndsParse(ContactExpr(row[0]), row[1..], close);
    NoOperator(2, RowExpr(row), close);
    NoOperator(0, RowExpr(row), close);
    Climb(0, 2, ts, RowExpr(row), close);
  }

  lemma RowParses(row: seq<LadderContact>, rest: seq<Token>)
    requires !Peek(rest).Dot?
    ensures ParseUnary(RowTokens(row) + rest) == Some((RowExpr(row), rest))
  {
    if row == [] {
      assert (RowTokens(row) + rest)[1..] == rest;
    } else {
      hide ParseUnary, ParseLevel, AndTokens, ContactTokens, RowExpr;
      ContactsParse(row, [RParen] + rest);
      Regroup(ContactTokens(row[0]), AndTokens(row[1..]), rest);
      ParenthesesParse(ContactTokens(row[0]) + (AndTokens(row[1..]) + ([RParen] + rest)), RowExpr(row), rest);
    }
  }

  lemma {:induction false} OrsParse(left: Expr, rows: seq<seq<LadderContact>>, rest: seq<Token>)
    requires Peek(rest).RParen?
    ensures ParseTail(0, left, OrTokens(rows) + rest) == Some((OrExpr(left, rows), rest))
    decreases |rows|
  {
    hide ParseUnary, ParseLevel, ParseTail;
    if rows == [] {
      assert OrTokens(rows) + rest == rest;
      NoOperator(0, left, rest);
    } else {
      var tail := OrTokens(rows[1..]) + rest;
      var ts := RowTokens(rows[0]) + tail;
      assert OrTokens(rows) + rest == [KwOr] + ts;
      OrsFollow(rows[1..], rest);
      RowParses(rows[0], tail);
      AtLevel(1, ts, RowExpr(rows[0]), tail);
      NextOperand(0, KwOr, Or, left, ts, RowExpr(rows[0]), tail);
      OrsParse(Binary(Or, left, RowExpr(rows[0])), rows[1..], rest);
    }
  }

  lemma OrsFollow(rows: seq<seq<LadderContact>>, rest: seq<Token>)
    requires Peek(rest).RParen?
    ensures var tail := OrTokens(rows) + rest;
      Follows(0, tail) && Follows(1, tail) && OperatorAt(1, Peek(tail)).None?
  {
    if rows == [] { assert OrTokens(rows) + rest == rest; }
  }

  // The text of a ladder network's condition parses to the OR of its branches.
  lemma LadderParses(rows: seq<seq<LadderContact>>, rest: seq<Token>)
    requires rows != [] && Follows(0, rest) && OperatorAt(0, Peek(rest)).None?
    ensures ParseLevel(0, LadderTokens(rows) + rest) == Some((LadderExpr(rows), rest))
  {
    hide ParseUnary, ParseLevel, ParseTail, OrTokens, RowTokens, OrExpr;
    var close := [RParen] + rest;
    var tail := OrTokens(rows[1..]) + close;
    var ts := RowTokens(rows[0]) + tail;
    Regroup(RowTokens(rows[0]), OrTokens(rows[1..]), rest);
    OrsFollow(rows[1..], close);
    RowParses(rows[0], tail);
    Climb(0, UNARY, ts, RowExpr(rows[0]), tail);
    OrsParse(RowExpr(rows[0]), rows[1..], close);
    ParenthesesParse(ts, LadderExpr(rows), rest);
    AtLevel(0, [LParen] + ts, LadderExpr(rows), rest);
  }

  // ---- What a ladder condition means ----

  // Every tag of the network is a BOOL in the store.
  predicate BoolTag(c: LadderContact, scope: map<string, nat>, byName: map<string, nat>, s: Store) {
    var id := Resolve(c.tag, scope, byName);
    id.Some? && id.value < |s| && s[id.value].VBool?
  }

  predicate BoolTags(row: seq<LadderContact>, scope: map<string, nat>, byName: map<string, nat>, s: Store) {
    forall c | c in row :: BoolTag(c, scope, byName, s)
  }

  predicate Closed(c: LadderContact, scope: map<string, nat>, byName: map<string, nat>, s: Store)
    requires BoolTag(c, scope, byName, s)
  {
    s[Resolve(c.tag, scope, byName).value].b != c.normallyClosed
  }

  predicate RowCloses(row: seq<LadderContact>, scope: map<string, nat>, byName: map<string, nat>, s: Store)
    requires BoolTags(row, scope, byName, s)
  {
    forall c | c in row :: Closed(c, scope, byName, s)
  }

  predicate AllBool(rows: seq<seq<LadderContact>>, scope: map<string, nat>, byName: map<string, nat>, s: Store) {
    forall row | row in rows :: BoolTags(row, scope, byName, s)
  }

  predicate Powered(rows: seq<seq<LadderContact>>, scope: map<string, nat>, byName: map<string, nat>, s: Store)
    requires AllBool(rows, scope, byName, s)
  {
    exists row :: row in rows && RowCloses(row, scope, byName, s)
  }

  // An expression that binds, to one with this BOOL value.
  predicate Means(e: Expr, b: bool, scope: map<string, nat>, byName: map<string, nat>, s: Store) {
    var x := BindExpr(e, scope, byName);
    x.Some? && Evaluate(x.value, s) == Ok(VBool(b))
  }

  lemma ContactMeans(c: LadderContact, scope: map<string, nat>, byName: map<string, nat>, s: Store)
    requires BoolTag(c, scope, byName, s)
    ensures Means(ContactExpr(c), Closed(c, scope, byName, s), scope, byName, s)
  {
  }

  lemma BothMean(l: Expr, a: bool, r: Expr, b: bool, scope: map<string, nat>, byName: map<string, nat>, s: Store)
    requires Means(l, a, scope, byName, s) && Means(r, b, scope, byName, s)
    ensures Means(Binary(And, l, r), a && b, scope, byName, s) && Means(Binary(Or, l, r), a || b, scope, byName, s)
  {
  }

  lemma {:induction false} AndMeans(left: Expr, b: bool, row: seq<LadderContact>, scope: map<string, nat>, byName: map<string, nat>, s: Store)
    requires BoolTags(row, scope, byName, s) && Means(left, b, scope, byName, s)
    ensures Means(AndExpr(left, row), b && RowCloses(row, scope, byName, s), scope, byName, s)
    decreases |row|
  {
    hide Means, ContactExpr, Closed, BoolTag;
    if row != [] {
      var c := row[0];
      assert c in row && forall x | x in row :: x == c || x in row[1..];
      ContactMeans(c, scope, byName, s);
      BothMean(left, b, ContactExpr(c), Closed(c, scope, byName, s), scope, byName, s);
      AndMeans(Binary(And, left, ContactExpr(c)), b && Closed(c, scope, byName, s), row[1..], scope, byName, s);
    }
  }

  lemma RowMeans(row: seq<LadderContact>, scope: map<string, nat>, byName: map<string, nat>, s: Store)
    requires BoolTags(row, scope, byName, s)
    ensures Means(RowExpr(row), RowCloses(row, scope, byName, s), scope, byName, s)
  {
    if row != [] {
      var c := row[0];
      assert c in row && forall x | x in row :: x == c || x in row[1..];
      ContactMeans(c, scope, byName, s);
      AndMeans(ContactExpr(c), Closed(c, scope, byName, s), row[1..], scope, byName, s);
    }
  }

  lemma {:induction false} OrMeans(left: Expr, b: bool, rows: seq<seq<LadderContact>>, scope: map<string, nat>, byName: map<string, nat>, s: Store)
    requires AllBool(rows, scope, byName, s) && Means(left, b, scope, byName, s)
    ensures Means(OrExpr(left, rows), b || Powered(rows, scope, byName, s), scope, byName, s)
    decreases |rows|
  {
    hide Means, RowExpr;
    if rows != [] {
      var row := rows[0];
      assert row in rows && forall x | x in rows :: x == row || x in rows[1..];
      RowMeans(row, scope, byName, s);
      BothMean(left, b, RowExpr(row), RowCloses(row, scope, byName, s), scope, byName, s);
      OrMeans(Binary(Or, left, RowExpr(row)), b || RowCloses(row, scope, byName, s), rows[1..], scope, byName, s);
    }
  }

  // Power flows exactly when some branch has all its contacts closed.
  lemma LadderMeansSomeBranchCloses(rows: seq<seq<LadderContact>>, scope: map<string, nat>, byName: map<string, nat>, s: Store)
    requires rows != [] && AllBool(rows, scope, byName, s)
    ensures Means(LadderExpr(rows), exists row :: row in rows && RowCloses(row, scope, byName, s), scope, byName, s)
  {
    var row := rows[0];
    assert row in rows && forall x | x in rows :: x == row || x in rows[1..];
    RowMeans(row, scope, byName, s);
    OrMeans(RowExpr(row), RowCloses(row, scope, byName, s), rows[1..], scope, byName, s);
  }

  // ---- Whole networks ----

  // RUNG condition => coils; and IF condition THEN calls END_IF; each if there is any.
  function NetworkTokens(rows: seq<seq<LadderContact>>, coils: seq<RungOutput>, calls: seq<Stmt>): seq<Token>
    requires rows != [] && PrintableBlock(calls)
  {
    (if coils == [] then [] else RungTokens(rows, coils)) + (if calls == [] then [] else CallTokens(rows, calls))
  }

  function RungTokens(rows: seq<seq<LadderContact>>, coils: seq<RungOutput>): seq<Token>
    requires rows != [] && coils != []
  {
    [KwRung] + (LadderTokens(rows) + ([RArrow] + (PrintOutputs(coils) + [Semicolon])))
  }

  function CallTokens(rows: seq<seq<LadderContact>>, calls: seq<Stmt>): seq<Token>
    requires rows != [] && PrintableBlock(calls)
  {
    [KwIf] + (LadderTokens(rows) + ([KwThen] + (PrintBlock(calls) + [KwEndIf, Semicolon])))
  }

  function RungPart(c: Expr, coils: seq<RungOutput>): seq<Stmt> {
    if coils == [] then [] else [Rung(c, coils)]
  }

  function CallPart(c: Expr, calls: seq<Stmt>): seq<Stmt> {
    if calls == [] then [] else [If([IfBranch(c, calls)], [])]
  }

  function NetworkStmts(c: Expr, coils: seq<RungOutput>, calls: seq<Stmt>): seq<Stmt> {
    RungPart(c, coils) + CallPart(c, calls)
  }

  lemma RungPartParses(rows: seq<seq<LadderContact>>, coils: seq<RungOutput>, rest: seq<Token>)
    requires rows != [] && PrintableOutputs(coils)
    ensures ParseStmt(RungTokens(rows, coils) + rest) == Some((Rung(LadderExpr(rows), coils), rest))
  {
    hide ParseStmt, ParseLevel, LadderTokens, LadderExpr, PrintOutputs;
    var tail := [RArrow] + (PrintOutputs(coils) + ([Semicolon] + rest));
    LadderParses(rows, tail);
    RungTextParses(LadderTokens(rows), LadderExpr(rows), coils, rest);
    assert RungTokens(rows, coils) + rest == [KwRung] + (LadderTokens(rows) + tail);
  }

  lemma CallPartParses(rows: seq<seq<LadderContact>>, calls: seq<Stmt>, rest: seq<Token>)
    requires rows != [] && PrintableBlock(calls)
    ensures ParseStmt(CallTokens(rows, calls) + rest) == Some((If([IfBranch(LadderExpr(rows), calls)], []), [Semicolon] + rest))
  {
    hide ParseLevel, ParseBlock, LadderTokens, LadderExpr, PrintBlock, PrintableBlock, ParseBranch;
    var end := [KwEndIf] + ([Semicolon] + rest);
    var branch := LadderTokens(rows) + ([KwThen] + (PrintBlock(calls) + end));
    assert CallTokens(rows, calls) + rest == [KwIf] + branch && ([KwIf] + branch)[1..] == branch;
    assert end[1..] == [Semicolon] + rest;
    CallBranchParses(rows, calls, end);
    assert ParseElsifs(end) == Some(([], end)) && ParseElse(end) == Some(([], end));
    assert ParseIf(branch) == Some((If([IfBranch(LadderExpr(rows), calls)] + [], []), [Semicolon] + rest));
    assert [IfBranch(LadderExpr(rows), calls)] + [] == [IfBranch(LadderExpr(rows), calls)];
  }

  lemma CallBranchParses(rows: seq<seq<LadderContact>>, calls: seq<Stmt>, end: seq<Token>)
    requires rows != [] && PrintableBlock(calls) && Peek(end).KwEndIf?
    ensures ParseBranch(LadderTokens(rows) + ([KwThen] + (PrintBlock(calls) + end))) == Some((IfBranch(LadderExpr(rows), calls), end))
  {
    hide ParseLevel, ParseBlock, LadderTokens, LadderExpr, PrintBlock, PrintableBlock;
    var body := PrintBlock(calls) + end;
    LadderParses(rows, [KwThen] + body);
    assert ([KwThen] + body)[1..] == body;
    BlockParses(calls, BRANCH_ENDS, end);
  }

  // The text of a network parses to its rung, then its conditional calls.
  lemma NetworkParses(rows: seq<seq<LadderContact>>, coils: seq<RungOutput>, calls: seq<Stmt>, ends: set<Token>, rest: seq<Token>)
    requires rows != [] && (coils == [] || PrintableOutputs(coils)) && PrintableBlock(calls)
    requires Terminators(ends) && Peek(rest) in ends
    ensures ParseBlock(ends, NetworkTokens(rows, coils, calls) + rest) == Some((NetworkStmts(LadderExpr(rows), coils, calls), rest))
  {
    hide ParseStmt, LadderExpr, RungTokens, CallTokens, PrintableBlock;
    var after := (if calls == [] then [] else CallTokens(rows, calls)) + rest;
    var conditional := if calls == [] then [] else [If([IfBranch(LadderExpr(rows), calls)], [])];
    CallsThenRest(rows, calls, ends, rest);
    if coils == [] {
      assert NetworkTokens(rows, coils, calls) + rest == after;
      assert NetworkStmts(LadderExpr(rows), coils, calls) == conditional;
    } else {
      assert NetworkTokens(rows, coils, calls) + rest == RungTokens(rows, coils) + after;
      RungPartParses(rows, coils, after);
      RungStarts(rows, coils, after);
    }
  }

  lemma RungStarts(rows: seq<seq<LadderContact>>, coils: seq<RungOutput>, rest: seq<Token>)
    requires rows != [] && coils != []
    ensures Peek(RungTokens(rows, coils) + rest).KwRung?
  {
    hide LadderTokens, PrintOutputs;
  }

  lemma CallsThenRest(rows: seq<seq<LadderContact>>, calls: seq<Stmt>, ends: set<Token>, rest: seq<Token>)
    requires rows != [] && PrintableBlock(calls) && Terminators(ends) && Peek(rest) in ends
    ensures var ts := (if calls == [] then [] else CallTokens(rows, calls)) + rest;
      && SkipSemicolons(ts) == ts
      && ParseBlock(ends, ts) == Some((if calls == [] then [] else [If([IfBranch(LadderExpr(rows), calls)], [])], rest))
  {
    hide ParseStmt, LadderExpr, LadderTokens, PrintBlock, PrintableBlock;
    if calls == [] {
      assert [] + rest == rest;
    } else {
      var ts := CallTokens(rows, calls) + rest;
      assert Peek(ts).KwIf?;
      CallPartParses(rows, calls, rest);
      assert ([Semicolon] + rest)[1..] == rest && SkipSemicolons([Semicolon] + rest) == rest;
      BlockEnds(ends, rest);
      var st := If([IfBranch(LadderExpr(rows), calls)], []);
      assert [st] + [] == [st];
    }
  }

  // ---- What a network does ----

  lemma {:induction false} CoilsKeepBools(coils: seq<RungOutput>, powered: bool, rows: seq<seq<LadderContact>>, scope: map<string, nat>, byName: map<string, nat>, s: Store)
    requires AllBool(rows, scope, byName, s) && forall o | o in coils :: o.targetId < |s|
    ensures var r := DriveCoils(coils, powered, s); r.Ok? && |r.value| == |s| && AllBool(rows, scope, byName, r.value)
    decreases |coils|
  {
    if coils != [] {
      assert coils[0] in coils;
      var s1 := DriveCoil(coils[0], powered, s).value;
      forall row, c | row in rows && c in row ensures BoolTag(c, scope, byName, s1) { assert BoolTag(c, scope, byName, s); }
      CoilsKeepBools(coils[1..], powered, rows, scope, byName, s1);
    }
  }

  // The coils follow the power; the calls run exactly when there is power once the coils
  // have been driven.
  lemma NetworkRuns(p: Program, limit: nat, rows: seq<seq<LadderContact>>, scope: map<string, nat>, byName: map<string, nat>, coils: seq<RungOutput>, calls: seq<Stmt>, s: Store)
    requires rows != [] && AllBool(rows, scope, byName, s) && forall o | o in coils :: o.targetId < |s|
    ensures var c, driven := BindExpr(LadderExpr(rows), scope, byName), DriveCoils(coils, Powered(rows, scope, byName, s), s);
      && c.Some? && driven.Ok? && AllBool(rows, scope, byName, driven.value)
      && ExecBlock(p, limit, NetworkStmts(c.value, coils, calls), s) ==
         if Powered(rows, scope, byName, driven.value) then ExecBlock(p, limit, calls, driven.value) else driven
  {
    LadderMeansSomeBranchCloses(rows, scope, byName, s);
    var c := BindExpr(LadderExpr(rows), scope, byName).value;
    CoilsKeepBools(coils, Powered(rows, scope, byName, s), rows, scope, byName, s);
    var driven := DriveCoils(coils, Powered(rows, scope, byName, s), s).value;
    LadderMeansSomeBranchCloses(rows, scope, byName, driven);
    RungRuns(p, limit, c, coils, Powered(rows, scope, byName, s), s);
    CallsRun(p, limit, c, calls, Powered(rows, scope, byName, driven), driven);
    BlocksInTurn(p, limit, RungPart(c, coils), CallPart(c, calls), s);
  }

  lemma RungRuns(p: Program, limit: nat, c: Expr, coils: seq<RungOutput>, powered: bool, s: Store)
    requires Condition(c, s) == Ok(powered)
    ensures ExecBlock(p, limit, RungPart(c, coils), s) == DriveCoils(coils, powered, s)
  {
    if coils != [] { SingleRuns(p, limit, Rung(c, coils), s); }
  }

  lemma CallsRun(p: Program, limit: nat, c: Expr, calls: seq<Stmt>, powered: bool, s: Store)
    requires Condition(c, s) == Ok(powered)
    ensures ExecBlock(p, limit, CallPart(c, calls), s) == if powered then ExecBlock(p, limit, calls, s) else Ok(s)
  {
    if calls != [] {
      SingleRuns(p, limit, If([IfBranch(c, calls)], []), s);
      ConditionalRuns(p, limit, c, calls, s, powered);
    }
  }

  lemma SingleRuns(p: Program, limit: nat, st: Stmt, s: Store)
    ensures ExecBlock(p, limit, [st], s) == ExecStmt(p, limit, st, s)
  {
    var r := ExecStmt(p, limit, st, s);
    assert [st][1..] == [];
    if r.Ok? { assert ExecBlock(p, limit, [], r.value) == r; }
  }

  lemma {:induction false} BlocksInTurn(p: Program, limit: nat, a: seq<Stmt>, b: seq<Stmt>, s: Store)
    ensures var r := ExecBlock(p, limit, a, s);
      ExecBlock(p, limit, a + b, s) == if r.Err? then r else ExecBlock(p, limit, b, r.value)
    decreases |a|
  {
    if a == [] {
      assert a + b == b;
    } else {
      assert (a + b)[0] == a[0] && (a + b)[1..] == a[1..] + b;
      var r := ExecStmt(p, limit, a[0], s);
      if r.Ok? { BlocksInTurn(p, limit, a[1..], b, r.value); }
    }
  }

  lemma ConditionalRuns(p: Program, limit: nat, c: Expr, calls: seq<Stmt>, s: Store, powered: bool)
    requires Condition(c, s) == Ok(powered)
    ensures ExecStmt(p, limit, If([IfBranch(c, calls)], []), s) == if powered then ExecBlock(p, limit, calls, s) else Ok(s)
  {
    var st := If([IfBranch(c, calls)], []);
    assert st.branches[0] == IfBranch(c, calls);
    assert ExecBranches(p, limit, st, 1, s) == Ok(s);
  }
}

// The statement grammar of structured text (src/st/parser.cpp:308-439) as functions on
// token sequences, its printed form, and that parsing inverts printing.

module Statements {
  import opened Values
  import opened Ast
  import opened Grammar

  // expect()
  function Expect(t: Token, ts: seq<Token>): (r: Option<seq<Token>>)
    requires t != EndOfFile
    ensures r.Some? ==> |r.value| < |ts|
  {
    if Peek(ts) == t then Some(ts[1..]) else None
  }

  function SkipSemicolons(ts: seq<Token>): (r: seq<Token>)
    ensures |r| <= |ts|
  {
    if Peek(ts).Semicolon? then SkipSemicolons(ts[1..]) else ts
  }

  const BRANCH_ENDS: set<Token> := {KwElsif, KwElse, KwEndIf}

  // ---- The grammar ----

  function ParseBlock(ends: set<Token>, ts: seq<Token>): (r: Parsed<seq<Stmt>>)
    requires EndOfFile !in ends
    ensures r.Some? ==> |r.value.1| <= |ts| && Peek(r.value.1) in ends
    decreases |ts|, 5
  {
    if Peek(ts) in ends then Some(([], ts))
    else
      var (st, rest) :- ParseStmt(ts);
      var (more, rest') :- ParseBlock(ends, SkipSemicolons(rest));
      Some(([st] + more, rest'))
  }

  function ParseStmt(ts: seq<Token>): (r: Parsed<Stmt>)
    ensures r.Some? ==> |r.value.1| < |ts|
    decreases |ts|, 4
  {
    match Peek(ts)
    case KwIf => ParseIf(ts[1..])
    case KwWhile => ParseWhile(ts[1..])
    case KwRung => ParseRung(ts[1..])
    case IdentifierToken(_) => ParseAssignOrCall(ts)
    case _ => None
  }

  function ParseIf(ts: seq<Token>): (r: Parsed<Stmt>)
    ensures r.Some? ==> |r.value.1| < |ts|
    decreases |ts|, 3
  {
    var (first, r1) :- ParseBranch(ts);
    var (more, r2) :- ParseElsifs(r1);
    var (els, r3) :- ParseElse(r2);
    var r4 :- Expect(KwEndIf, r3);
    Some((If([first] + more, els), r4))
  }

  // condition THEN statements
  function ParseBranch(ts: seq<Token>): (r: Parsed<IfBranch>)
    ensures r.Some? ==> |r.value.1| < |ts|
    decreases |ts|, 2
  {
    var (condition, r1) :- ParseLevel(0, ts);
    var r2 :- Expect(KwThen, r1);
    var (body, r3) :- ParseBlock(BRANCH_ENDS, r2);
    Some((IfBranch(condition, body), r3))
  }

  function ParseElsifs(ts: seq<Token>): (r: Parsed<seq<IfBranch>>)
    ensures r.Some? ==> |r.value.1| <= |ts|
    decreases |ts|, 2
  {
    if !Peek(ts).KwElsif? then Some(([], ts))
    else
      var (b, r1) :- ParseBranch(ts[1..]);
      var (more, r2) :- ParseElsifs(r1);
      Some(([b] + more, r2))
  }

  function ParseElse(ts: seq<Token>): (r: Parsed<seq<Stmt>>)
    ensures r.Some? ==> |r.value.1| <= |ts|
    decreases |ts|, 2
  {
    if !Peek(ts).KwElse? then Some(([], ts)) else ParseBlock({KwEndIf}, ts[1..])
  }

  function ParseWhile(ts: seq<Token>): (r: Parsed<Stmt>)
    ensures r.Some? ==> |r.value.1| < |ts|
    decreases |ts|, 3
  {
    var (condition, r1) :- ParseLevel(0, ts);
    var r2 :- Expect(KwDo, r1);
    var (body, r3) :- ParseBlock({KwEndWhile}, r2);
    var r4 :- Expect(KwEndWhile, r3);
    Some((While(condition, body), r4))
  }

  function ParseRung(ts: seq<Token>): (r: Parsed<Stmt>)
    ensures r.Some? ==> |r.value.1| < |ts|
  {
    var (condition, r1) :- ParseLevel(0, ts);
    var r2 :- Expect(RArrow, r1);
    var (outputs, r3) :- ParseOutputs(r2);
    var r4 :- Expect(Semicolon, r3);
    Some((Rung(condition, outputs), r4))
  }

  function ParseOutputs(ts: seq<Token>): (r: Parsed<seq<RungOutput>>)
    ensures r.Some? ==> |r.value.1| < |ts|
    decreases |ts|
  {
    var (o, r1) :- ParseOutput(ts);
    if !Peek(r1).Comma? then Some(([o], r1))
    else
      var (more, r2) :- ParseOutputs(r1[1..]);
      Some(([o] + more, r2))
  }

  function ParseOutput(ts: seq<Token>): (r: Parsed<RungOutput>)
    ensures r.Some? ==> |r.value.1| < |ts|
  {
    var kind := if Peek(ts).KwSet? then Set else if Peek(ts).KwReset? then Reset else Direct;
    var (target, r1) :- ParseDotted(if kind == Direct then ts else ts[1..]);
    Some((RungOutput(kind, target, INVALID_TAG), r1))
  }

  function ParseAssignOrCall(ts: seq<Token>): (r: Parsed<Stmt>)
    ensures r.Some? ==> |r.value.1| < |ts|
    decreases |ts|, 3
  {
    var (name, r1) :- ParseDotted(ts);
    if Peek(r1).LParen? then ParseCallRest(name, r1[1..])
    else
      var r2 :- Expect(AssignToken, r1);
      var (value, r3) :- ParseLevel(0, r2);
      var r4 :- Expect(Semicolon, r3);
      Some((Assign(name, INVALID_TAG, value), r4))
  }

  function ParseCallRest(callee: string, ts: seq<Token>): (r: Parsed<Stmt>)
    ensures r.Some? ==> |r.value.1| < |ts|
  {
    var (args, r1) :- if Peek(ts).RParen? then Some(([], ts)) else ParseArgs(ts);
    var r2 :- Expect(RParen, r1);
    var r3 :- Expect(Semicolon, r2);
    Some((Call(callee, args, INVALID_FRAME), r3))
  }

  function ParseArgs(ts: seq<Token>): (r: Parsed<seq<CallArg>>)
    ensures r.Some? ==> |r.value.1| < |ts|
    decreases |ts|
  {
    var (a, r1) :- ParseArg(ts);
    if !Peek(r1).Comma? then Some(([a], r1))
    else
      var (more, r2) :- ParseArgs(r1[1..]);
      Some(([a] + more, r2))
  }

  function ParseArg(ts: seq<Token>): (r: Parsed<CallArg>)
    ensures r.Some? ==> |r.value.1| < |ts|
  {
    if !Peek(ts).IdentifierToken? then None
    else if Peek(ts[1..]).AssignToken? then
      var (value, r1) :- ParseLevel(0, ts[2..]);
      Some((InputArg(ts[0].text, value, INVALID_TAG), r1))
    else if Peek(ts[1..]).RArrow? then
      var (target, r1) :- ParseDotted(ts[2..]);
      Some((OutputArg(ts[0].text, target, INVALID_TAG, INVALID_TAG), r1))
    else None
  }

  // ---- Loops over the grammar: what has been parsed, then the rest ----

  function After<T>(done: seq<T>, p: Parsed<seq<T>>): Parsed<seq<T>> {
    match p
    case None => None
    case Some((more, rest)) => Some((done + more, rest))
  }

  lemma NothingBefore<T>(p: Parsed<seq<T>>)
    ensures After([], p) == p
  {
    if p.Some? { assert [] + p.value.0 == p.value.0; }
  }

  lemma AfterOneMore<T>(done: seq<T>, x: T, p: Parsed<seq<T>>)
    ensures After(done, After([x], p)) == After(done + [x], p)
  {
    if p.Some? { assert done + ([x] + p.value.0) == done + [x] + p.value.0; }
  }

  function AfterStmt(ends: set<Token>, done: seq<Stmt>, ts: seq<Token>): Parsed<seq<Stmt>>
    requires EndOfFile !in ends
  {
    var (st, rest) :- ParseStmt(ts);
    After(done + [st], ParseBlock(ends, SkipSemicolons(rest)))
  }

  lemma BlockUnfolds(ends: set<Token>, ts: seq<Token>, done: seq<Stmt>)
    requires EndOfFile !in ends && Peek(ts) !in ends
    ensures After(done, ParseBlock(ends, ts)) == AfterStmt(ends, done, ts)
  {
    var first := ParseStmt(ts);
    if first.Some? { AfterOneMore(done, first.value.0, ParseBlock(ends, SkipSemicolons(first.value.1))); }
  }

  lemma BlockEnds(ends: set<Token>, ts: seq<Token>)
    requires EndOfFile !in ends && Peek(ts) in ends
    ensures ParseBlock(ends, ts) == Some(([], ts))
  {
  }

  // After ELSIF, one more branch and the rest.
  function AfterBranch(done: seq<IfBranch>, ts: seq<Token>): Parsed<seq<IfBranch>> {
    var (b, rest) :- ParseBranch(ts);
    After(done + [b], ParseElsifs(rest))
  }

  lemma ElsifsUnfold(ts: seq<Token>, done: seq<IfBranch>)
    ensures After(done, ParseElsifs(ts)) == if Peek(ts).KwElsif? then AfterBranch(done, ts[1..]) else Some((done, ts))
  {
    if Peek(ts).KwElsif? {
      var b := ParseBranch(ts[1..]);
      if b.Some? { AfterOneMore(done, b.value.0, ParseElsifs(b.value.1)); }
    } else {
      assert done + [] == done;
    }
  }

  function AfterOutput(done: seq<RungOutput>, ts: seq<Token>): Parsed<seq<RungOutput>> {
    var (o, rest) :- ParseOutput(ts);
    if Peek(rest).Comma? then After(done + [o], ParseOutputs(rest[1..])) else Some((done + [o], rest))
  }

  lemma OutputsUnfold(ts: seq<Token>, done: seq<RungOutput>)
    ensures After(done, ParseOutputs(ts)) == AfterOutput(done, ts)
  {
    var o := ParseOutput(ts);
    if o.Some? && Peek(o.value.1).Comma? { AfterOneMore(done, o.value.0, ParseOutputs(o.value.1[1..])); }
  }

  function AfterArg(done: seq<CallArg>, ts: seq<Token>): Parsed<seq<CallArg>> {
    var (a, rest) :- ParseArg(ts);
    if Peek(rest).Comma? then After(done + [a], ParseArgs(rest[1..])) else Some((done + [a], rest))
  }

  lemma ArgsUnfold(ts: seq<Token>, done: seq<CallArg>)
    ensures After(done, ParseArgs(ts)) == AfterArg(done, ts)
  {
    var a := ParseArg(ts);
    if a.Some? && Peek(a.value.1).Comma? { AfterOneMore(done, a.value.0, ParseArgs(a.value.1[1..])); }
  }

  // ---- Printing ----

  predicate PrintableArg(a: CallArg) {
    match a
    case InputArg(_, e, id) => Printable(e) && id == INVALID_TAG
    case OutputArg(_, _, id, target) => id == INVALID_TAG && target == INVALID_TAG
  }

  predicate PrintableArgs(args: seq<CallArg>) {
    forall a | a in args :: PrintableArg(a)
  }

  predicate PrintableOutputs(outs: seq<RungOutput>) {
    outs != [] && forall o | o in outs :: o.targetId == INVALID_TAG
  }

  // Unbound statements of the forms the parser makes.
  predicate PrintableStmt(st: Stmt)
    decreases st
  {
    match st
    case Assign(_, id, e) => id == INVALID_TAG && Printable(e)
    case If(branches, els) => branches != [] && (forall b | b in branches :: PrintableBranch(b)) && PrintableBlock(els)
    case While(c, body) => Printable(c) && PrintableBlock(body)
    case Call(_, args, f) => f == INVALID_FRAME && PrintableArgs(args)
    case Rung(c, outs) => Printable(c) && PrintableOutputs(outs)
  }

  predicate PrintableBranch(b: IfBranch)
    decreases b
  {
    Printable(b.condition) && PrintableBlock(b.body)
  }

  predicate PrintableBlock(ss: seq<Stmt>)
    decreases ss
  {
    forall st | st in ss :: PrintableStmt(st)
  }

  function PrintStmt(st: Stmt): seq<Token>
    requires PrintableStmt(st)
    decreases st
  {
    match st
    case Assign(name, _, e) => PrintName(name) + ([AssignToken] + (Print(e, 0) + [Semicolon]))
    case If(branches, els) =>
      assert branches[0] in branches;
      [KwIf] + (PrintBranch(branches[0]) + (PrintElsifs(branches[1..]) + (PrintElse(els) + [KwEndIf])))
    case While(c, body) => [KwWhile] + (Print(c, 0) + ([KwDo] + (PrintBlock(body) + [KwEndWhile])))
    case Call(callee, args, _) => PrintName(callee) + ([LParen] + (PrintArgs(args) + [RParen, Semicolon]))
    case Rung(c, outs) => [KwRung] + (Print(c, 0) + ([RArrow] + (PrintOutputs(outs) + [Semicolon])))
  }

  function PrintBranch(b: IfBranch): seq<Token>
    requires PrintableBranch(b)
    decreases b
  {
    Print(b.condition, 0) + ([KwThen] + PrintBlock(b.body))
  }

  function PrintElsifs(bs: seq<IfBranch>): seq<Token>
    requires forall b | b in bs :: PrintableBranch(b)
    decreases bs
  {
    if bs == [] then []
    else
      assert bs[0] in bs;
      [KwElsif] + (PrintBranch(bs[0]) + PrintElsifs(bs[1..]))
  }

  function PrintElse(els: seq<Stmt>): seq<Token>
    requires PrintableBlock(els)
    decreases els, 1
  {
    if els == [] then [] else [KwElse] + PrintBlock(els)
  }

  function PrintBlock(ss: seq<Stmt>): seq<Token>
    requires PrintableBlock(ss)
    decreases ss, 0
  {
    if ss == [] then []
    else
      assert ss[0] in ss;
      PrintStmt(ss[0]) + PrintBlock(ss[1..])
  }

  function PrintOutput(o: RungOutput): seq<Token> {
    (match o.kind case Direct => [] case Set => [KwSet] case Reset => [KwReset]) + PrintName(o.targetName)
  }

  function PrintOutputs(outs: seq<RungOutput>): seq<Token>
    requires outs != []
  {
    PrintOutput(outs[0]) + (if |outs| == 1 then [] else [Comma] + PrintOutputs(outs[1..]))
  }

  function PrintArg(a: CallArg): seq<Token>
    requires PrintableArg(a)
  {
    match a
    case InputArg(name, e, _) => [IdentifierToken(name), AssignToken] + Print(e, 0)
    case OutputArg(name, target, _, _) => [IdentifierToken(name), RArrow] + PrintName(target)
  }

  function PrintArgs(args: seq<CallArg>): seq<Token>
    requires PrintableArgs(args)
  {
    if args == [] then []
    else
      assert args[0] in args;
      PrintArg(args[0]) + (if |args| == 1 then [] else [Comma] + PrintArgs(args[1..]))
  }

  // ---- Parsing inverts printing ----

  // Keywords that end a statement list: none of them starts a statement.
  predicate Terminators(ends: set<Token>) {
    forall t | t in ends :: t in {KwElsif, KwElse, KwEndIf, KwEndWhile, KwEndProgram, KwEndFunction, KwEndFunctionBlock}
  }

  // Not a continuation of an expression or of a name.
  predicate ClosesExpression(t: Token) {
    t in {KwThen, KwDo, RArrow, Semicolon, Comma, RParen}
  }

  lemma ExpressionParses(e: Expr, rest: seq<Token>)
    requires Printable(e) && ClosesExpression(Peek(rest))
    ensures ParseLevel(0, Print(e, 0) + rest) == Some((e, rest))
  {
    ParsingInvertsPrinting(e, rest);
  }

  lemma OutputParses(o: RungOutput, rest: seq<Token>)
    requires o.targetId == INVALID_TAG && !Peek(rest).Dot?
    ensures ParseOutput(PrintOutput(o) + rest) == Some((o, rest))
  {
    hide ParseDotted, PrintName;
    var ts := PrintOutput(o) + rest;
    StartsWithName(o.targetName);
    NameParses(o.targetName, rest);
    if o.kind == Direct {
      assert ts == PrintName(o.targetName) + rest;
    } else {
      assert ts[1..] == PrintName(o.targetName) + rest;
    }
  }

  lemma {:induction false} OutputsParse(outs: seq<RungOutput>, rest: seq<Token>)
    requires PrintableOutputs(outs) && !Peek(rest).Dot? && !Peek(rest).Comma?
    ensures ParseOutputs(PrintOutputs(outs) + rest) == Some((outs, rest))
    decreases |outs|
  {
    hide ParseOutput, PrintOutput;
    var ts := PrintOutputs(outs) + rest;
    assert outs[0] in outs;
    if |outs| == 1 {
      assert ts == PrintOutput(outs[0]) + rest && outs == [outs[0]];
      OutputParses(outs[0], rest);
    } else {
      var tail := PrintOutputs(outs[1..]) + rest;
      assert ts == PrintOutput(outs[0]) + ([Comma] + tail) && ([Comma] + tail)[1..] == tail;
      OutputParses(outs[0], [Comma] + tail);
      OutputsParse(outs[1..], rest);
      assert [outs[0]] + outs[1..] == outs;
    }
  }

  lemma ArgParses(a: CallArg, rest: seq<Token>)
    requires PrintableArg(a) && (Peek(rest).Comma? || Peek(rest).RParen?)
    ensures ParseArg(PrintArg(a) + rest) == Some((a, rest))
  {
    hide ParseDotted, ParseLevel, Print, PrintName;
    var ts := PrintArg(a) + rest;
    match a
    case InputArg(_, e, _) =>
      assert ts[2..] == Print(e, 0) + rest && ts[1..][0] == AssignToken;
      ExpressionParses(e, rest);
    case OutputArg(_, target, _, _) =>
      assert ts[2..] == PrintName(target) + rest && ts[1..][0] == RArrow;
      NameParses(target, rest);
  }

  lemma {:induction false} ArgsParse(args: seq<CallArg>, rest: seq<Token>)
    requires args != [] && PrintableArgs(args) && Peek(rest).RParen?
    ensures ParseArgs(PrintArgs(args) + rest) == Some((args, rest))
    decreases |args|
  {
    hide ParseArgs, ParseArg, PrintArgs, PrintArg, PrintableArg;
    var ts := PrintArgs(args) + rest;
    assert args[0] in args;
    ArgsShape(args, rest);
    if |args| == 1 {
      ArgParses(args[0], rest);
      LastArg(ts, args[0], rest);
      assert args == [args[0]];
    } else {
      var tail := PrintArgs(args[1..]) + rest;
      ArgParses(args[0], [Comma] + tail);
      ArgsParse(args[1..], rest);
      MoreArgs(ts, args[0], tail, args[1..], rest);
      assert [args[0]] + args[1..] == args;
    }
  }

  lemma ArgsShape(args: seq<CallArg>, rest: seq<Token>)
    requires args != [] && PrintableArgs(args)
    ensures args[0] in args
    ensures PrintArgs(args) + rest ==
            PrintArg(args[0]) + (if |args| == 1 then rest else [Comma] + (PrintArgs(args[1..]) + rest))
  {
    hide PrintArg, PrintableArg;
    assert args[0] in args;
    if |args| == 1 {
      assert PrintArgs(args) == PrintArg(args[0]);
    } else {
      Regrouped(PrintArg(args[0]), PrintArgs(args[1..]), rest);
    }
  }

  lemma Regrouped(a: seq<Token>, b: seq<Token>, rest: seq<Token>)
    ensures a + ([Comma] + b) + rest == a + ([Comma] + (b + rest))
  {
  }

  lemma LastArg(ts: seq<Token>, a: CallArg, rest: seq<Token>)
    requires ParseArg(ts) == Some((a, rest)) && !Peek(rest).Comma?
    ensures ParseArgs(ts) == Some(([a], rest))
  {
    hide ParseArg;
  }

  lemma MoreArgs(ts: seq<Token>, a: CallArg, tail: seq<Token>, more: seq<CallArg>, rest: seq<Token>)
    requires ParseArg(ts) == Some((a, [Comma] + tail)) && ParseArgs(tail) == Some((more, rest))
    ensures ParseArgs(ts) == Some(([a] + more, rest))
  {
    hide ParseArg;
    assert ([Comma] + tail)[1..] == tail;
  }

  lemma AssignParses(st: Stmt, rest: seq<Token>)
    requires st.Assign? && PrintableStmt(st)
    ensures ParseStmt(PrintStmt(st) + rest) == Some((st, rest))
  {
    hide ParseDotted, ParseLevel;
    var value := Print(st.value, 0) + ([Semicolon] + rest);
    var ts := PrintName(st.target) + ([AssignToken] + value);
    assert PrintStmt(st) + rest == ts && Peek(ts).IdentifierToken?;
    assert ([AssignToken] + value)[1..] == value && ([Semicolon] + rest)[1..] == rest;
    NameParses(st.target, [AssignToken] + value);
    ExpressionParses(st.value, [Semicolon] + rest);
  }

  lemma CallParses(st: Stmt, rest: seq<Token>)
    requires st.Call? && PrintableStmt(st)
    ensures ParseStmt(PrintStmt(st) + rest) == Some((st, rest))
  {
    hide ParseDotted, ParseArgs, ParseCallRest, PrintArgs, PrintName;
    var args := PrintArgs(st.args) + ([RParen, Semicolon] + rest);
    var ts := PrintName(st.calleeName) + ([LParen] + args);
    StartsWithName(st.calleeName);
    assert PrintStmt(st) + rest == ts && Peek(ts).IdentifierToken?;
    assert ([LParen] + args)[1..] == args;
    NameParses(st.calleeName, [LParen] + args);
    CallRestParses(st, rest);
  }

  lemma CallRestParses(st: Stmt, rest: seq<Token>)
    requires st.Call? && PrintableStmt(st)
    ensures ParseCallRest(st.calleeName, PrintArgs(st.args) + ([RParen, Semicolon] + rest)) == Some((st, rest))
  {
    hide ParseArgs;
    var close := [RParen, Semicolon] + rest;
    assert close[1..][0] == Semicolon && close[1..][1..] == rest;
    if st.args == [] { assert PrintArgs(st.args) + close == close; } else { ArgsParse(st.args, close); }
  }

  lemma RungParses(st: Stmt, rest: seq<Token>)
    requires st.Rung? && PrintableStmt(st)
    ensures ParseStmt(PrintStmt(st) + rest) == Some((st, rest))
  {
    hide ParseStmt, ParseLevel, Print, PrintOutputs;
    var coils := [RArrow] + (PrintOutputs(st.outputs) + ([Semicolon] + rest));
    ExpressionParses(st.power, coils);
    RungTextParses(Print(st.power, 0), st.power, st.outputs, rest);
    assert PrintStmt(st) + rest == [KwRung] + (Print(st.power, 0) + coils);
  }

  // A rung, however its condition is printed.
  lemma RungTextParses(condition: seq<Token>, e: Expr, outs: seq<RungOutput>, rest: seq<Token>)
    requires PrintableOutputs(outs)
    requires var tail := [RArrow] + (PrintOutputs(outs) + ([Semicolon] + rest)); ParseLevel(0, condition + tail) == Some((e, tail))
    ensures ParseStmt([KwRung] + (condition + ([RArrow] + (PrintOutputs(outs) + ([Semicolon] + rest))))) == Some((Rung(e, outs), rest))
  {
    hide ParseLevel, ParseOutputs, PrintOutputs;
    var coils := PrintOutputs(outs) + ([Semicolon] + rest);
    var ts := [KwRung] + (condition + ([RArrow] + coils));
    assert ts[1..] == condition + ([RArrow] + coils);
    assert ([RArrow] + coils)[1..] == coils && ([Semicolon] + rest)[1..] == rest;
    OutputsParse(outs, [Semicolon] + rest);
  }

  lemma StartsStatement(st: Stmt, rest: seq<Token>)
    requires PrintableStmt(st)
    ensures var t := Peek(PrintStmt(st) + rest); t.KwIf? || t.KwWhile? || t.KwRung? || t.IdentifierToken?
  {
    hide PrintName, Print, PrintBranch, PrintElsifs, PrintElse, PrintBlock, PrintArgs, PrintOutputs;
    var ts := PrintStmt(st);
    match st
    case Assign(name, _, _) => StartsWithName(name);
    case Call(name, _, _) => StartsWithName(name);
    case _ => assert (ts + rest)[0] == ts[0];
  }

  lemma StartsWithName(name: string)
    ensures PrintName(name) != [] && PrintName(name)[0].IdentifierToken?
  {
  }

  lemma {:induction false} BlockParses(ss: seq<Stmt>, ends: set<Token>, rest: seq<Token>)
    requires PrintableBlock(ss) && Terminators(ends) && Peek(rest) in ends
    ensures ParseBlock(ends, PrintBlock(ss) + rest) == Some((ss, rest))
    decreases ss, 0
  {
    hide ParseStmt, PrintStmt, PrintableStmt;
    if ss == [] {
      assert PrintBlock(ss) + rest == rest;
    } else {
      var tail := PrintBlock(ss[1..]) + rest;
      assert ss[0] in ss;
      assert PrintBlock(ss) + rest == PrintStmt(ss[0]) + tail;
      StartsStatement(ss[0], tail);
      StmtParses(ss[0], tail);
      NoSemicolon(ss[1..], ends, rest);
      BlockParses(ss[1..], ends, rest);
      assert [ss[0]] + ss[1..] == ss;
    }
  }

  lemma NoSemicolon(ss: seq<Stmt>, ends: set<Token>, rest: seq<Token>)
    requires PrintableBlock(ss) && Terminators(ends) && Peek(rest) in ends
    ensures SkipSemicolons(PrintBlock(ss) + rest) == PrintBlock(ss) + rest
  {
    hide PrintStmt, PrintableStmt;
    if ss == [] {
      assert PrintBlock(ss) + rest == rest;
    } else {
      assert ss[0] in ss;
      assert PrintBlock(ss) + rest == PrintStmt(ss[0]) + (PrintBlock(ss[1..]) + rest);
      StartsStatement(ss[0], PrintBlock(ss[1..]) + rest);
    }
  }

  // A whole statement, whatever follows it.
  lemma {:induction false} StmtParses(st: Stmt, rest: seq<Token>)
    requires PrintableStmt(st)
    ensures ParseStmt(PrintStmt(st) + rest) == Some((st, rest))
    decreases st, 1
  {
    match st
    case Assign(_, _, _) => AssignParses(st, rest);
    case If(_, _) => IfParses(st, rest);
    case While(_, _) => WhileParses(st, rest);
    case Call(_, _, _) => CallParses(st, rest);
    case Rung(_, _) => RungParses(st, rest);
  }

  lemma WhileShape(st: Stmt, rest: seq<Token>)
    requires st.While? && PrintableStmt(st)
    ensures PrintStmt(st) + rest == [KwWhile] + (Print(st.condition, 0) + ([KwDo] + (PrintBlock(st.body) + ([KwEndWhile] + rest))))
  {
    hide PrintBlock, Print;
  }

  lemma {:induction false} WhileParses(st: Stmt, rest: seq<Token>)
    requires st.While? && PrintableStmt(st)
    ensures ParseStmt(PrintStmt(st) + rest) == Some((st, rest))
    decreases st, 0
  {
    hide ParseLevel, ParseBlock, PrintStmt, PrintBlock, PrintableBlock, Print;
    var end := [KwEndWhile] + rest;
    var body := PrintBlock(st.body) + end;
    WhileShape(st, rest);
    assert ([KwDo] + body)[1..] == body && end[1..] == rest;
    ExpressionParses(st.condition, [KwDo] + body);
    BlockParses(st.body, {KwEndWhile}, end);
    assert ([KwWhile] + (Print(st.condition, 0) + ([KwDo] + body)))[1..] == Print(st.condition, 0) + ([KwDo] + body);
  }

  lemma {:induction false} IfParses(st: Stmt, rest: seq<Token>)
    requires st.If? && PrintableStmt(st)
    ensures ParseStmt(PrintStmt(st) + rest) == Some((st, rest))
    decreases st, 0
  {
    hide ParseBranch, ParseElsifs, ParseElse, PrintBranch, PrintElsifs, PrintElse, PrintableBranch, PrintableBlock;
    var bs := st.branches;
    assert bs[0] in bs;
    var end := [KwEndIf] + rest;
    var els := PrintElse(st.elseBody) + end;
    var elsifs := PrintElsifs(bs[1..]) + els;
    var ts := [KwIf] + (PrintBranch(bs[0]) + elsifs);
    assert PrintStmt(st) + rest == ts && ts[1..] == PrintBranch(bs[0]) + elsifs && end[1..] == rest;
    ElseStarts(st.elseBody, end);
    ElsifsStart(bs[1..], els);
    BranchParses(bs[0], elsifs);
    ElsifsParse(bs[1..], els);
    ElseParses(st.elseBody, end);
    assert [bs[0]] + bs[1..] == bs;
  }

  lemma ElseStarts(els: seq<Stmt>, end: seq<Token>)
    requires PrintableBlock(els) && Peek(end).KwEndIf?
    ensures Peek(PrintElse(els) + end) in {KwElse, KwEndIf}
  {
    hide PrintBlock;
    if els == [] { assert PrintElse(els) + end == end; }
  }

  lemma ElsifsStart(bs: seq<IfBranch>, rest: seq<Token>)
    requires (forall b | b in bs :: PrintableBranch(b)) && Peek(rest) in {KwElse, KwEndIf}
    ensures Peek(PrintElsifs(bs) + rest) in BRANCH_ENDS
  {
    hide PrintBranch, PrintableBranch;
    if bs == [] { assert PrintElsifs(bs) + rest == rest; }
  }

  lemma {:induction false} BranchParses(b: IfBranch, rest: seq<Token>)
    requires PrintableBranch(b) && Peek(rest) in BRANCH_ENDS
    ensures ParseBranch(PrintBranch(b) + rest) == Some((b, rest))
    decreases b
  {
    hide ParseLevel, ParseBlock, PrintBlock, PrintableBlock;
    var body := PrintBlock(b.body) + rest;
    assert PrintBranch(b) + rest == Print(b.condition, 0) + ([KwThen] + body);
    assert ([KwThen] + body)[1..] == body;
    ExpressionParses(b.condition, [KwThen] + body);
    BlockParses(b.body, BRANCH_ENDS, rest);
  }

  lemma {:induction false} ElsifsParse(bs: seq<IfBranch>, rest: seq<Token>)
    requires (forall b | b in bs :: PrintableBranch(b)) && Peek(rest) in {KwElse, KwEndIf}
    ensures ParseElsifs(PrintElsifs(bs) + rest) == Some((bs, rest))
    decreases bs
  {
    hide ParseBranch, PrintBranch, PrintableBranch;
    if bs == [] {
      assert PrintElsifs(bs) + rest == rest;
    } else {
      hide ParseElsifs;
      var tail := PrintElsifs(bs[1..]) + rest;
      assert bs[0] in bs;
      assert PrintElsifs(bs) + rest == [KwElsif] + (PrintBranch(bs[0]) + tail);
      ElsifsStart(bs[1..], rest);
      BranchParses(bs[0], tail);
      ElsifsParse(bs[1..], rest);
      MoreElsifs(PrintBranch(bs[0]) + tail, bs[0], tail, bs[1..], rest);
      assert [bs[0]] + bs[1..] == bs;
    }
  }

  lemma MoreElsifs(ts: seq<Token>, b: IfBranch, tail: seq<Token>, more: seq<IfBranch>, rest: seq<Token>)
    requires ParseBranch(ts) == Some((b, tail)) && ParseElsifs(tail) == Some((more, rest))
    ensures ParseElsifs([KwElsif] + ts) == Some(([b] + more, rest))
  {
    hide ParseBranch;
    assert ([KwElsif] + ts)[1..] == ts;
  }

  lemma {:induction false} ElseParses(els: seq<Stmt>, rest: seq<Token>)
    requires PrintableBlock(els) && Peek(rest).KwEndIf?
    ensures ParseElse(PrintElse(els) + rest) == Some((els, rest))
    decreases els, 1
  {
    hide ParseBlock, PrintBlock, PrintableBlock;
    if els == [] {
      assert PrintElse(els) + rest == rest;
    } else {
      assert (PrintElse(els) + rest)[1..] == PrintBlock(els) + rest;
      BlockParses(els, {KwEndIf}, rest);
    }
  }
}

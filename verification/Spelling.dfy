// What the parser accepts beyond the printed form (src/st/parser.cpp:102-370): any
// grouping of variables into blocks, any number of stray semicolons after a statement,
// empty ELSE parts, redundant parentheses, and literals that need a cast.

module Spelling {
  import opened Values
  import opened Ast
  import opened BoundUnit
  import opened Grammar
  import opened Statements
  import opened Declarations

  // ---- Expressions ----

  ghost predicate SpellsExpr(ts: seq<Token>, e: Expr) {
    forall rest: seq<Token> | ClosesExpression(Peek(rest)) :: ParseLevel(0, ts + rest) == Some((e, rest))
  }

  lemma PrintedExpr(e: Expr)
    requires Printable(e)
    ensures SpellsExpr(Print(e, 0), e)
  {
    forall rest: seq<Token> | ClosesExpression(Peek(rest)) ensures ParseLevel(0, Print(e, 0) + rest) == Some((e, rest)) {
      ExpressionParses(e, rest);
    }
  }

  // Any expression may stand in any number of parentheses.
  lemma Parenthesised(ts: seq<Token>, e: Expr)
    requires SpellsExpr(ts, e)
    ensures SpellsExpr([LParen] + (ts + [RParen]), e)
  {
    forall rest: seq<Token> | ClosesExpression(Peek(rest)) ensures ParseLevel(0, [LParen] + (ts + [RParen]) + rest) == Some((e, rest)) {
      var inner := ts + ([RParen] + rest);
      assert [LParen] + (ts + [RParen]) + rest == [LParen] + inner;
      ParenthesesParse(inner, e, rest);
      AtLevel(0, [LParen] + inner, e, rest);
    }
  }

  // ---- Statements ----

  ghost predicate SpellsStmt(ts: seq<Token>, st: Stmt) {
    && ts != [] && (ts[0].KwIf? || ts[0].KwWhile? || ts[0].KwRung? || ts[0].IdentifierToken?)
    && forall rest: seq<Token> :: ParseStmt(ts + rest) == Some((st, rest))
  }

  ghost predicate Spells(ts: seq<Token>, ss: seq<Stmt>) {
    forall ends: set<Token>, rest: seq<Token> | Terminators(ends) && Peek(rest) in ends :: ParseBlock(ends, ts + rest) == Some((ss, rest))
  }

  lemma PrintedStmt(st: Stmt)
    requires PrintableStmt(st)
    ensures SpellsStmt(PrintStmt(st), st)
  {
    hide ParseStmt, PrintStmt, PrintableStmt;
    forall rest: seq<Token> ensures ParseStmt(PrintStmt(st) + rest) == Some((st, rest)) { StmtParses(st, rest); }
    StartsStatement(st, []);
    assert PrintStmt(st) + [] == PrintStmt(st);
  }

  lemma SpelledUpTo(ends: set<Token>, ts: seq<Token>, ss: seq<Stmt>, rest: seq<Token>)
    requires Spells(ts, ss) && Terminators(ends) && Peek(rest) in ends
    ensures ParseBlock(ends, ts + rest) == Some((ss, rest))
  {
    hide ParseBlock;
  }

  lemma NoStatements()
    ensures Spells([], [])
  {
    forall ends: set<Token>, rest: seq<Token> | Terminators(ends) && Peek(rest) in ends ensures ParseBlock(ends, [] + rest) == Some(([], rest)) {
      assert [] + rest == rest;
    }
  }

  function Semicolons(n: nat): seq<Token> {
    if n == 0 then [] else [Semicolon] + Semicolons(n - 1)
  }

  lemma {:induction false} SemicolonsSkipped(n: nat, rest: seq<Token>)
    requires !Peek(rest).Semicolon?
    ensures SkipSemicolons(Semicolons(n) + rest) == rest
  {
    if n == 0 {
      assert Semicolons(n) + rest == rest;
    } else {
      assert (Semicolons(n) + rest)[1..] == Semicolons(n - 1) + rest;
      SemicolonsSkipped(n - 1, rest);
    }
  }

  lemma OneStatement(ends: set<Token>, ts: seq<Token>, st: Stmt, rest: seq<Token>, ss: seq<Stmt>, rest': seq<Token>)
    requires EndOfFile !in ends && Peek(ts) !in ends && ParseStmt(ts) == Some((st, rest))
    requires ParseBlock(ends, SkipSemicolons(rest)) == Some((ss, rest'))
    ensures ParseBlock(ends, ts) == Some(([st] + ss, rest'))
  {
    hide ParseStmt, SkipSemicolons;
  }

  // A statement, any number of semicolons, more statements.
  lemma StatementThen(ts: seq<Token>, st: Stmt, n: nat, more: seq<Token>, ss: seq<Stmt>)
    requires SpellsStmt(ts, st) && Spells(more, ss) && !Peek(more).Semicolon?
    ensures Spells(ts + (Semicolons(n) + more), [st] + ss)
  {
    hide ParseStmt, ParseBlock, SkipSemicolons;
    forall ends: set<Token>, rest: seq<Token> | Terminators(ends) && Peek(rest) in ends
      ensures ParseBlock(ends, ts + (Semicolons(n) + more) + rest) == Some(([st] + ss, rest))
    {
      var all := ts + (Semicolons(n) + (more + rest));
      assert ts + (Semicolons(n) + more) + rest == all && all[0] == ts[0];
      assert Peek(more + rest) == if more == [] then Peek(rest) else Peek(more);
      SemicolonsSkipped(n, more + rest);
      OneStatement(ends, all, st, Semicolons(n) + (more + rest), ss, rest);
    }
  }

  ghost predicate SpellsElsifs(ts: seq<Token>, bs: seq<IfBranch>) {
    forall rest: seq<Token> | Peek(rest).KwElse? || Peek(rest).KwEndIf? :: ParseElsifs(ts + rest) == Some((bs, rest))
  }

  lemma NoElsifs()
    ensures SpellsElsifs([], [])
  {
    forall rest: seq<Token> | Peek(rest).KwElse? || Peek(rest).KwEndIf? ensures ParseElsifs([] + rest) == Some(([], rest)) {
      assert [] + rest == rest;
    }
  }

  lemma BranchSpelled(c: seq<Token>, e: Expr, body: seq<Token>, b: seq<Stmt>, rest: seq<Token>)
    requires SpellsExpr(c, e) && Spells(body, b) && Peek(rest) in BRANCH_ENDS
    ensures ParseBranch(c + ([KwThen] + (body + rest))) == Some((IfBranch(e, b), rest))
  {
    hide ParseLevel, ParseBlock;
    var tail := [KwThen] + (body + rest);
    assert ParseLevel(0, c + tail) == Some((e, tail)) && tail[1..] == body + rest;
    SpelledUpTo(BRANCH_ENDS, body, b, rest);
  }

  lemma ElsifSpelled(c: seq<Token>, e: Expr, body: seq<Token>, b: seq<Stmt>, more: seq<Token>, bs: seq<IfBranch>)
    requires SpellsExpr(c, e) && Spells(body, b) && SpellsElsifs(more, bs) && (more == [] || more[0].KwElsif?)
    ensures SpellsElsifs([KwElsif] + (c + ([KwThen] + (body + more))), [IfBranch(e, b)] + bs)
  {
    hide ParseBranch, SpellsExpr, Spells;
    var ts := [KwElsif] + (c + ([KwThen] + (body + more)));
    forall rest: seq<Token> | Peek(rest).KwElse? || Peek(rest).KwEndIf? ensures ParseElsifs(ts + rest) == Some(([IfBranch(e, b)] + bs, rest)) {
      var tail := more + rest;
      assert Peek(tail) == if more == [] then Peek(rest) else more[0];
      assert (ts + rest)[1..] == c + ([KwThen] + (body + tail));
      BranchSpelled(c, e, body, b, tail);
    }
  }

  // No ELSE, or one with any statements or none.
  function ElseText(els: Option<seq<Token>>): seq<Token> {
    if els.None? then [] else [KwElse] + els.value
  }

  function IfText(c: seq<Token>, body: seq<Token>, elsifs: seq<Token>, els: Option<seq<Token>>): seq<Token> {
    [KwIf] + (c + ([KwThen] + (body + (elsifs + (ElseText(els) + [KwEndIf])))))
  }

  lemma ElseSpelled(els: Option<seq<Token>>, l: seq<Stmt>, rest: seq<Token>)
    requires if els.None? then l == [] else Spells(els.value, l)
    requires Peek(rest).KwEndIf?
    ensures ParseElse(ElseText(els) + rest) == Some((l, rest))
  {
    hide ParseBlock;
    if els.None? {
      assert ElseText(els) + rest == rest;
    } else {
      assert (ElseText(els) + rest)[1..] == els.value + rest;
      SpelledUpTo({KwEndIf}, els.value, l, rest);
    }
  }

  lemma IfSpelled(c: seq<Token>, e: Expr, body: seq<Token>, b: seq<Stmt>, elsifs: seq<Token>, bs: seq<IfBranch>, els: Option<seq<Token>>, l: seq<Stmt>)
    requires SpellsExpr(c, e) && Spells(body, b) && SpellsElsifs(elsifs, bs) && (elsifs == [] || elsifs[0].KwElsif?)
    requires if els.None? then l == [] else Spells(els.value, l)
    ensures SpellsStmt(IfText(c, body, elsifs, els), If([IfBranch(e, b)] + bs, l))
  {
    hide ParseBranch, ParseElsifs, ParseElse, SpellsExpr, Spells, ElseText;
    var ts := IfText(c, body, elsifs, els);
    forall rest: seq<Token> ensures ParseStmt(ts + rest) == Some((If([IfBranch(e, b)] + bs, l), rest)) {
      var end := [KwEndIf] + rest;
      var r2 := ElseText(els) + end;
      var r1 := elsifs + r2;
      ElseStarts(els, end);
      assert ts + rest == [KwIf] + (c + ([KwThen] + (body + r1)));
      assert Peek(r1) == if elsifs == [] then Peek(r2) else elsifs[0];
      BranchSpelled(c, e, body, b, r1);
      ElseSpelled(els, l, end);
      assert ParseElsifs(r1) == Some((bs, r2)) by { assert SpellsElsifs(elsifs, bs); }
      assert end[1..] == rest && (ts + rest)[1..] == c + ([KwThen] + (body + r1));
    }
  }

  lemma ElseStarts(els: Option<seq<Token>>, end: seq<Token>)
    requires Peek(end).KwEndIf?
    ensures var t := Peek(ElseText(els) + end); t.KwElse? || t.KwEndIf?
  {
    if els.None? { assert ElseText(els) + end == end; }
  }

  lemma WhileSpelled(c: seq<Token>, e: Expr, body: seq<Token>, b: seq<Stmt>)
    requires SpellsExpr(c, e) && Spells(body, b)
    ensures SpellsStmt([KwWhile] + (c + ([KwDo] + (body + [KwEndWhile]))), While(e, b))
  {
    hide ParseLevel, ParseBlock;
    var ts := [KwWhile] + (c + ([KwDo] + (body + [KwEndWhile])));
    forall rest: seq<Token> ensures ParseStmt(ts + rest) == Some((While(e, b), rest)) {
      var end := [KwEndWhile] + rest;
      var tail := [KwDo] + (body + end);
      assert ts + rest == [KwWhile] + (c + tail) && (ts + rest)[1..] == c + tail;
      assert ParseLevel(0, c + tail) == Some((e, tail)) && tail[1..] == body + end;
      SpelledUpTo({KwEndWhile}, body, b, end);
      assert end[1..] == rest;
    }
  }

  // ---- Variables ----

  ghost predicate SpellsDecls(kind: VarKind, context: VarBlockContext, ts: seq<Token>, ds: seq<VarDecl>) {
    forall rest: seq<Token> :: ParseDecls(kind, context, ts + ([KwEndVar] + rest)) == Some((ds, rest))
  }

  ghost predicate SpellsVars(context: VarBlockContext, ts: seq<Token>, ds: seq<VarDecl>) {
    forall rest: seq<Token> | !Opens(context, Peek(rest)) :: ParseVarBlocks(context, ts + rest) == Some((ds, rest))
  }

  lemma NoDecls(kind: VarKind, context: VarBlockContext)
    ensures SpellsDecls(kind, context, [], [])
  {
    forall rest: seq<Token> ensures ParseDecls(kind, context, [] + ([KwEndVar] + rest)) == Some(([], rest)) {
      assert [] + ([KwEndVar] + rest) == [KwEndVar] + rest && ([KwEndVar] + rest)[1..] == rest;
    }
  }

  lemma DeclThen(context: VarBlockContext, d: VarDecl, more: seq<Token>, ds: seq<VarDecl>)
    requires PrintableDecl(context, d) && SpellsDecls(d.kind, context, more, ds)
    ensures SpellsDecls(d.kind, context, PrintDecl(context, d) + more, [d] + ds)
  {
    hide ParseDecl, PrintDecl;
    forall rest: seq<Token> ensures ParseDecls(d.kind, context, PrintDecl(context, d) + more + ([KwEndVar] + rest)) == Some(([d] + ds, rest)) {
      var tail := more + ([KwEndVar] + rest);
      assert PrintDecl(context, d) + more + ([KwEndVar] + rest) == PrintDecl(context, d) + tail;
      DeclParses(context, d, tail);
      StartsWithIdentifier(context, d, tail);
    }
  }

  lemma NoVars(context: VarBlockContext)
    ensures SpellsVars(context, [], [])
  {
    forall rest: seq<Token> | !Opens(context, Peek(rest)) ensures ParseVarBlocks(context, [] + rest) == Some(([], rest)) {
      assert [] + rest == rest;
    }
  }

  // A block of any number of declarations, then more blocks.
  lemma BlockOfVars(context: VarBlockContext, kind: VarKind, ts: seq<Token>, ds: seq<VarDecl>, more: seq<Token>, es: seq<VarDecl>)
    requires Opens(context, KindToken(kind)) && (context == InFunction ==> kind != Var)
    requires SpellsDecls(kind, context, ts, ds) && SpellsVars(context, more, es)
    ensures SpellsVars(context, [KindToken(kind)] + (ts + ([KwEndVar] + more)), ds + es)
  {
    hide ParseDecls;
    var all := [KindToken(kind)] + (ts + ([KwEndVar] + more));
    forall rest: seq<Token> | !Opens(context, Peek(rest)) ensures ParseVarBlocks(context, all + rest) == Some((ds + es, rest)) {
      assert all + rest == [KindToken(kind)] + (ts + ([KwEndVar] + (more + rest)));
      assert (all + rest)[1..] == ts + ([KwEndVar] + (more + rest));
      assert ParseDecls(kind, context, ts + ([KwEndVar] + (more + rest))) == Some((ds, more + rest));
    }
  }

  lemma PouSpelled(name: string, isFunction: bool, vars: seq<Token>, ds: seq<VarDecl>, body: seq<Token>, b: seq<Stmt>, rest: seq<Token>)
    requires SpellsVars(PouContext(isFunction), vars, ds) && Spells(body, b)
    requires body == [] || !Opens(PouContext(isFunction), body[0])
    ensures var (begin, end) := if isFunction then (KwFunction, KwEndFunction) else (KwFunctionBlock, KwEndFunctionBlock);
            ParsePou(isFunction, [begin, IdentifierToken(name)] + (vars + (body + ([end] + rest)))) == Some((Pou(name, isFunction, ds, b), rest))
  {
    hide ParseVarBlocks, ParseBlock;
    var end := [PouEnd(isFunction)] + rest;
    var ts := [PouKeyword(isFunction), IdentifierToken(name)] + (vars + (body + end));
    assert ts[1..][0] == ts[1] && ts[1..][1..] == vars + (body + end) && end[1..] == rest;
    assert Peek(body + end) == if body == [] then PouEnd(isFunction) else body[0];
    assert ParseVarBlocks(PouContext(isFunction), vars + (body + end)) == Some((ds, body + end));
    SpelledUpTo({PouEnd(isFunction)}, body, b, end);
  }

  // ---- Which blocks may stand where ----

  // PROGRAM takes VAR, VAR_INPUT and VAR_OUTPUT, a POU also VAR_TEMP, a DATA_BLOCK only
  // VAR; instances are declared in VAR of a PROGRAM or FUNCTION_BLOCK; a FUNCTION's VAR
  // is rejected.
  lemma BlocksAllowed(context: VarBlockContext, t: Token, kind: VarKind, ts: seq<Token>)
    ensures Opens(context, t) <==>
            match context
            case InProgram => t == KwVar || t == KwVarInput || t == KwVarOutput
            case InFunctionBlock => t == KwVar || t == KwVarInput || t == KwVarOutput || t == KwVarTemp
            case InFunction => t == KwVar || t == KwVarInput || t == KwVarOutput || t == KwVarTemp
            case InDataBlock => t == KwVar
    ensures InstancesAllowed(context, kind) <==> kind == Var && (context == InProgram || context == InFunctionBlock)
    ensures ParseVars(InFunction, [KwVar] + ts) == None
  {
  }

  // ---- Literals ----

  // The numbers of 8 bits unsigned, 16 and 32 bits signed, that differ from n by whole
  // turns of that width.
  function Wrapped8(n: int): u8 { n - n / 0x100 * 0x100 }

  function Wrapped16(n: int): i16 { n - (n + 0x8000) / 0x1_0000 * 0x1_0000 }

  function Wrapped32(n: int): i32 { n - (n + 0x8000_0000) / 0x1_0000_0000 * 0x1_0000_0000 }

  // A literal in a declaration is wrapped to the bits of the declared type.
  lemma ByteCast(n: int)
    ensures CastLiteral(n, Byte) == VByte(Wrapped8(n))
  {
  }

  lemma IntCast(n: int)
    ensures CastLiteral(n, Int) == VInt(Wrapped16(n))
  {
  }

  lemma DIntCast(n: int)
    ensures CastLiteral(n, DInt) == VDInt(Wrapped32(n))
  {
  }

  // In an expression, to 32 bits.
  lemma ExpressionCast(n: i64)
    ensures ToInt32(n) == Wrapped32(n)
  {
  }

  // A literal is accepted exactly where its kind is that of the declared type.
  lemma LiteralsAccepted(declared: TypeId, t: Token)
    ensures LiteralOf(declared, t) ==
            match t
            case IntLiteral(n) => if declared == Byte || declared == Int || declared == DInt then Some(CastLiteral(n, declared)) else None
            case BoolLiteral(b) => if declared == Bool then Some(VBool(b)) else None
            case TimeLiteral(ms) => if declared == Time then Some(VTime(ms)) else None
            case _ => None
  {
  }

  // Negation stays in the type, wrapped to it; a BOOL has none.
  lemma NegationsWrap(v: Value)
    ensures v.VBool? ==> NegateLiteral(v) == None
    ensures v.VByte? ==> NegateLiteral(v) == Some(VByte(Wrapped8(-AsInt(v))))
    ensures v.VInt? ==> NegateLiteral(v) == Some(VInt(Wrapped16(-AsInt(v))))
    ensures v.VDInt? ==> NegateLiteral(v) == Some(VDInt(Wrapped32(-AsInt(v))))
    ensures v.VTime? ==> NegateLiteral(v) == Some(VTime(if v.ms == -0x8000_0000_0000_0000 then v.ms else -(v.ms as int)))
  {
    hide CastLiteral, Wrapped8, Wrapped16, Wrapped32;
    match v
    case VByte(_) => ByteCast(-AsInt(v));
    case VInt(_) => IntCast(-AsInt(v));
    case VDInt(_) => DIntCast(-AsInt(v));
    case _ =>
  }
}

// The text of the standard timers and counters (include/softplc/st/standard_fbs.hpp:23-133),
// token by token, and that it parses to the blocks whose laws are proved.

module LibraryText {
  import opened Values
  import opened Ast
  import opened BoundUnit
  import opened Grammar
  import opened Statements
  import opened Declarations
  import opened Spelling
  import F = StandardFbs
  import P = Parser

  // ---- The text ----

  function Word(name: string): seq<Token> { [IdentifierToken(name)] }

  // name : BOOL;
  function DeclText(name: string, t: Token): seq<Token> {
    [IdentifierToken(name), Colon, t, Semicolon]
  }

  // name := value;
  function SetText(name: string, value: seq<Token>): seq<Token> {
    [IdentifierToken(name), AssignToken] + value + [Semicolon]
  }

  // IF c THEN body END_IF; and with an ELSE
  function WhenText(c: seq<Token>, body: seq<Token>): seq<Token> {
    IfText(c, body, [], None) + [Semicolon]
  }

  function EitherText(c: seq<Token>, body: seq<Token>, els: seq<Token>): seq<Token> {
    IfText(c, body, [], Some(els)) + [Semicolon]
  }

  const TRUE_TEXT: seq<Token> := [BoolLiteral(true)]
  const FALSE_TEXT: seq<Token> := [BoolLiteral(false)]

  // ET := ET + System.CycleTime; IF ET > PT THEN ET := PT; END_IF;
  const STEP_TEXT: seq<Token> :=
    SetText("ET", [IdentifierToken("ET"), Plus, IdentifierToken("System"), Dot, IdentifierToken("CycleTime")])
    + WhenText([IdentifierToken("ET"), GtToken, IdentifierToken("PT")], SetText("ET", Word("PT")))

  const ELAPSED_TEXT: seq<Token> := [IdentifierToken("ET"), GeToken, IdentifierToken("PT")]

  const TIMER_VARS: seq<Token> :=
    [KwVarInput] + (DeclText("IN", KwBool) + (DeclText("PT", KwTime) + ([KwEndVar] +
    ([KwVarOutput] + (DeclText("Q", KwBool) + (DeclText("ET", KwTime) + [KwEndVar]))))))

  const TON_TEXT: seq<Token> :=
    EitherText(Word("IN"),
               STEP_TEXT + EitherText(ELAPSED_TEXT, SetText("Q", TRUE_TEXT), SetText("Q", FALSE_TEXT)),
               SetText("ET", [TimeLiteral(0)]) + SetText("Q", FALSE_TEXT))

  const TOF_TEXT: seq<Token> :=
    EitherText(Word("IN"),
               SetText("Q", TRUE_TEXT) + SetText("ET", [TimeLiteral(0)]),
               WhenText(Word("Q"), STEP_TEXT + WhenText(ELAPSED_TEXT, SetText("Q", FALSE_TEXT))))

  function CounterVars(input: string, set_: string): seq<Token> {
    [KwVarInput] + (DeclText(input, KwBool) + (DeclText(set_, KwBool) + (DeclText("PV", KwDint) + ([KwEndVar] +
    ([KwVarOutput] + (DeclText("Q", KwBool) + (DeclText("CV", KwDint) + ([KwEndVar] +
    ([KwVar] + (DeclText("M", KwBool) + [KwEndVar]))))))))))
  }

  function EdgeText(input: string): seq<Token> { [IdentifierToken(input), KwAnd, KwNot, IdentifierToken("M")] }

  function CountText(sign: Token): seq<Token> { SetText("CV", [IdentifierToken("CV"), sign, IntLiteral(1)]) }

  function JudgeText(comparison: seq<Token>): seq<Token> {
    EitherText(comparison, SetText("Q", TRUE_TEXT), SetText("Q", FALSE_TEXT))
  }

  const CTU_TEXT: seq<Token> :=
    EitherText(Word("R"),
               SetText("CV", [IntLiteral(0)]) + SetText("M", FALSE_TEXT),
               WhenText(EdgeText("CU"), CountText(Plus)) + SetText("M", Word("CU")))
    + JudgeText([IdentifierToken("CV"), GeToken, IdentifierToken("PV")])

  const CTD_TEXT: seq<Token> :=
    EitherText(Word("LD"),
               SetText("CV", Word("PV")) + SetText("M", FALSE_TEXT),
               WhenText(EdgeText("CD"), WhenText([IdentifierToken("CV"), GtToken, IntLiteral(0)], CountText(Minus))) + SetText("M", Word("CD")))
    + JudgeText([IdentifierToken("CV"), LeToken, IntLiteral(0)])

  function BlockText(name: string, vars: seq<Token>, body: seq<Token>, rest: seq<Token>): seq<Token> {
    [KwFunctionBlock, IdentifierToken(name)] + (vars + (body + ([KwEndFunctionBlock] + rest)))
  }

  const LIBRARY_TEXT: seq<Token> :=
    BlockText("TON", TIMER_VARS, TON_TEXT,
    BlockText("TOF", TIMER_VARS, TOF_TEXT,
    BlockText("CTU", CounterVars("CU", "R"), CTU_TEXT,
    BlockText("CTD", CounterVars("CD", "LD"), CTD_TEXT, [EndOfFile]))))

  // ---- Names and expressions ----

  lemma {:induction false} SplitWord(name: string)
    requires '.' !in name
    ensures Split(name) == [name]
  {
    if name != "" {
      SplitWord(name[1..]);
      assert [name[0]] + name[1..] == name;
    }
  }

  lemma WordPrinted(name: string)
    requires '.' !in name
    ensures PrintName(name) == Word(name)
  {
    SplitWord(name);
    assert NameTokens(Split(name)[1..]) == [];
  }

  lemma {:induction false} SplitPair(a: string, b: string)
    requires '.' !in a && '.' !in b
    ensures Split(a + "." + b) == [a, b]
  {
    var name := a + "." + b;
    if a == "" {
      assert name[1..] == b;
      SplitWord(b);
    } else {
      assert name[1..] == a[1..] + "." + b && name[0] == a[0];
      SplitPair(a[1..], b);
      assert [a[0]] + a[1..] == a;
    }
  }

  lemma PairPrinted(a: string, b: string)
    requires '.' !in a && '.' !in b
    ensures PrintName(a + "." + b) == [IdentifierToken(a), Dot, IdentifierToken(b)]
  {
    SplitPair(a, b);
    assert NameTokens([b]) == [Dot, IdentifierToken(b)] + NameTokens([]);
  }

  function Tag(name: string): Expr { Identifier(name, INVALID_TAG) }

  // An operand of a name without dots, or a literal, is one token.
  predicate Operand(e: Expr, t: Token) {
    match e
    case Identifier(name, id) => id == INVALID_TAG && '.' !in name && t == IdentifierToken(name)
    case Literal(v) => (v.VBool? || (v.VDInt? && v.int32 >= 0) || (v.VTime? && v.ms >= 0)) && t == LiteralToken(v)
    case _ => false
  }

  lemma OperandPrinted(e: Expr, t: Token, k: nat)
    requires Operand(e, t) && k <= 8
    ensures Printable(e) && Print(e, k) == [t]
  {
    if e.Identifier? { WordPrinted(e.name); }
  }

  lemma OperandSpelled(e: Expr, t: Token)
    requires Operand(e, t)
    ensures SpellsExpr([t], e)
  {
    OperandPrinted(e, t, 0);
    PrintedExpr(e);
  }

  lemma PairSpelled(op: BinaryOp, l: Expr, s: Token, r: Expr, t: Token)
    requires Operand(l, s) && Operand(r, t)
    ensures SpellsExpr([s, OperatorToken(op), t], Binary(op, l, r))
  {
    var e := Binary(op, l, r);
    OperandPrinted(l, s, LevelOf(e));
    OperandPrinted(r, t, LevelOf(e) + 1);
    assert Print(e, 0) == PrintBare(e) == [s, OperatorToken(op), t];
    PrintedExpr(e);
  }

  lemma BinaryPrinted(op: BinaryOp, l: Expr, r: Expr)
    requires Printable(l) && Printable(r)
    ensures var e := Binary(op, l, r); Print(e, 0) == Print(l, LevelOf(e)) + [OperatorToken(op)] + Print(r, LevelOf(e) + 1)
  {
  }

  lemma TagPrinted(name: string, k: nat)
    requires k <= 8
    ensures Print(Tag(name), k) == PrintName(name)
  {
  }

  // ET + System.CycleTime
  lemma SumSpelled()
    ensures SpellsExpr([IdentifierToken("ET"), Plus, IdentifierToken("System"), Dot, IdentifierToken("CycleTime")],
                       Binary(Add, Tag("ET"), Tag("System.CycleTime")))
  {
    hide Print, PrintName, SpellsExpr;
    var e := Binary(Add, Tag("ET"), Tag("System.CycleTime"));
    TagPrinted("ET", LevelOf(e));
    TagPrinted("System.CycleTime", LevelOf(e) + 1);
    WordPrinted("ET");
    PairPrinted("System", "CycleTime");
    assert "System" + "." + "CycleTime" == "System.CycleTime";
    BinaryPrinted(Add, Tag("ET"), Tag("System.CycleTime"));
    assert Print(e, 0) == [IdentifierToken("ET"), Plus, IdentifierToken("System"), Dot, IdentifierToken("CycleTime")];
    PrintedExpr(e);
  }

  // CU AND NOT M
  lemma EdgeSpelled(input: string)
    requires '.' !in input
    ensures SpellsExpr(EdgeText(input), Binary(And, Tag(input), Unary(Not, Tag("M"))))
  {
    var e := Binary(And, Tag(input), Unary(Not, Tag("M")));
    OperandPrinted(Tag(input), IdentifierToken(input), LevelOf(e));
    OperandPrinted(Tag("M"), IdentifierToken("M"), UNARY);
    assert Print(e.rhs, LevelOf(e) + 1) == PrintBare(e.rhs) == [KwNot, IdentifierToken("M")];
    assert Print(e, 0) == PrintBare(e) == EdgeText(input);
    PrintedExpr(e);
  }

  // ---- Statements ----

  lemma SetThen(name: string, value: seq<Token>, e: Expr, more: seq<Token>, ss: seq<Stmt>)
    requires '.' !in name && SpellsExpr(value, e) && Spells(more, ss) && !Peek(more).Semicolon?
    ensures Spells(SetText(name, value) + more, [Assign(name, INVALID_TAG, e)] + ss)
  {
    SetSpelled(name, value, e);
    StatementThen(SetText(name, value), Assign(name, INVALID_TAG, e), 0, more, ss);
    assert Semicolons(0) + more == more;
  }

  lemma SetSpelled(name: string, value: seq<Token>, e: Expr)
    requires '.' !in name && SpellsExpr(value, e)
    ensures SpellsStmt(SetText(name, value), Assign(name, INVALID_TAG, e))
  {
    hide ParseLevel, ParseDotted, ParseStmt, PrintName;
    var ts := SetText(name, value);
    forall rest: seq<Token> ensures ParseStmt(ts + rest) == Some((Assign(name, INVALID_TAG, e), rest)) {
      var r2 := value + ([Semicolon] + rest);
      var r1 := [AssignToken] + r2;
      WordPrinted(name);
      NameParses(name, r1);
      assert ts + rest == Word(name) + r1 && r1[1..] == r2 && ([Semicolon] + rest)[1..] == rest;
      assert ParseLevel(0, r2) == Some((e, [Semicolon] + rest));
      AssignmentParsed(ts + rest, name, r1, e, [Semicolon] + rest);
    }
  }

  lemma AssignmentParsed(ts: seq<Token>, name: string, r1: seq<Token>, e: Expr, r3: seq<Token>)
    requires Peek(ts).IdentifierToken? && ParseDotted(ts) == Some((name, r1)) && Peek(r1).AssignToken?
    requires ParseLevel(0, r1[1..]) == Some((e, r3)) && Peek(r3).Semicolon?
    ensures ParseStmt(ts) == Some((Assign(name, INVALID_TAG, e), r3[1..]))
  {
    hide ParseLevel, ParseDotted;
  }

  lemma OneSet(name: string, value: seq<Token>, e: Expr)
    requires '.' !in name && SpellsExpr(value, e)
    ensures Spells(SetText(name, value), [Assign(name, INVALID_TAG, e)])
  {
    hide Spells, SpellsExpr, SetText;
    NoStatements();
    SetThen(name, value, e, [], []);
    assert SetText(name, value) + [] == SetText(name, value);
    assert [Assign(name, INVALID_TAG, e)] + [] == [Assign(name, INVALID_TAG, e)];
  }

  lemma EitherThen(c: seq<Token>, e: Expr, body: seq<Token>, b: seq<Stmt>, els: seq<Token>, l: seq<Stmt>, more: seq<Token>, ss: seq<Stmt>)
    requires SpellsExpr(c, e) && Spells(body, b) && Spells(els, l) && Spells(more, ss) && !Peek(more).Semicolon?
    ensures Spells(EitherText(c, body, els) + more, [F.When(e, b, l)] + ss)
  {
    hide Spells, SpellsExpr, SpellsStmt, SpellsElsifs, IfText;
    NoElsifs();
    IfSpelled(c, e, body, b, [], [], Some(els), l);
    assert [IfBranch(e, b)] + [] == [IfBranch(e, b)];
    StatementThen(IfText(c, body, [], Some(els)), F.When(e, b, l), 1, more, ss);
    assert Semicolons(1) + more == [Semicolon] + more;
    assert EitherText(c, body, els) + more == IfText(c, body, [], Some(els)) + ([Semicolon] + more);
  }

  lemma WhenThen(c: seq<Token>, e: Expr, body: seq<Token>, b: seq<Stmt>, more: seq<Token>, ss: seq<Stmt>)
    requires SpellsExpr(c, e) && Spells(body, b) && Spells(more, ss) && !Peek(more).Semicolon?
    ensures Spells(WhenText(c, body) + more, [F.When(e, b, [])] + ss)
  {
    hide Spells, SpellsExpr, SpellsStmt, SpellsElsifs, IfText;
    NoElsifs();
    IfSpelled(c, e, body, b, [], [], None, []);
    assert [IfBranch(e, b)] + [] == [IfBranch(e, b)];
    StatementThen(IfText(c, body, [], None), F.When(e, b, []), 1, more, ss);
    assert Semicolons(1) + more == [Semicolon] + more;
    assert WhenText(c, body) + more == IfText(c, body, [], None) + ([Semicolon] + more);
  }

  lemma OneEither(c: seq<Token>, e: Expr, body: seq<Token>, b: seq<Stmt>, els: seq<Token>, l: seq<Stmt>)
    requires SpellsExpr(c, e) && Spells(body, b) && Spells(els, l)
    ensures Spells(EitherText(c, body, els), [F.When(e, b, l)])
  {
    hide Spells, SpellsExpr, EitherText;
    NoStatements();
    EitherThen(c, e, body, b, els, l, [], []);
    assert EitherText(c, body, els) + [] == EitherText(c, body, els) && [F.When(e, b, l)] + [] == [F.When(e, b, l)];
  }

  lemma OneWhen(c: seq<Token>, e: Expr, body: seq<Token>, b: seq<Stmt>)
    requires SpellsExpr(c, e) && Spells(body, b)
    ensures Spells(WhenText(c, body), [F.When(e, b, [])])
  {
    hide Spells, SpellsExpr, WhenText;
    NoStatements();
    WhenThen(c, e, body, b, [], []);
    assert WhenText(c, body) + [] == WhenText(c, body) && [F.When(e, b, [])] + [] == [F.When(e, b, [])];
  }

  // ---- The bodies ----

  lemma ConstantsSpelled()
    ensures SpellsExpr(TRUE_TEXT, F.Truth(true)) && SpellsExpr(FALSE_TEXT, F.Truth(false))
    ensures SpellsExpr([TimeLiteral(0)], Literal(VTime(0)))
    ensures SpellsExpr([IntLiteral(0)], Literal(VDInt(0))) && SpellsExpr([IntLiteral(1)], Literal(VDInt(1)))
  {
    hide SpellsExpr;
    OperandSpelled(F.Truth(true), BoolLiteral(true));
    OperandSpelled(F.Truth(false), BoolLiteral(false));
    OperandSpelled(Literal(VTime(0)), TimeLiteral(0));
    OperandSpelled(Literal(VDInt(0)), IntLiteral(0));
    OperandSpelled(Literal(VDInt(1)), IntLiteral(1));
  }

  lemma WordSpelled(name: string)
    requires '.' !in name
    ensures SpellsExpr(Word(name), Tag(name))
  {
    hide SpellsExpr;
    OperandSpelled(Tag(name), IdentifierToken(name));
  }

  // ET := ET + System.CycleTime; IF ET > PT THEN ET := PT; END_IF; and what follows.
  lemma StepThen(more: seq<Token>, ss: seq<Stmt>)
    requires Spells(more, ss) && !Peek(more).Semicolon?
    ensures Spells(STEP_TEXT + more, [F.AddCycle(F.UNBOUND), F.CapEt(F.UNBOUND)] + ss)
  {
    hide Spells, SpellsExpr, SetText, WhenText;
    SumSpelled();
    WordSpelled("PT");
    PairSpelled(Gt, Tag("ET"), IdentifierToken("ET"), Tag("PT"), IdentifierToken("PT"));
    OneSet("ET", Word("PT"), Tag("PT"));
    var cap := WhenText([IdentifierToken("ET"), GtToken, IdentifierToken("PT")], SetText("ET", Word("PT")));
    var sum := SetText("ET", [IdentifierToken("ET"), Plus, IdentifierToken("System"), Dot, IdentifierToken("CycleTime")]);
    WhenThen([IdentifierToken("ET"), GtToken, IdentifierToken("PT")], Binary(Gt, Tag("ET"), Tag("PT")),
             SetText("ET", Word("PT")), [Assign("ET", INVALID_TAG, Tag("PT"))], more, ss);
    StartsWithIf([IdentifierToken("ET"), GtToken, IdentifierToken("PT")], SetText("ET", Word("PT")), more);
    SetThen("ET", [IdentifierToken("ET"), Plus, IdentifierToken("System"), Dot, IdentifierToken("CycleTime")],
            Binary(Add, Tag("ET"), Tag("System.CycleTime")), cap + more, [F.CapEt(F.UNBOUND)] + ss);
    assert STEP_TEXT + more == sum + (cap + more);
    assert [F.AddCycle(F.UNBOUND), F.CapEt(F.UNBOUND)] + ss == [F.AddCycle(F.UNBOUND)] + ([F.CapEt(F.UNBOUND)] + ss);
  }

  lemma StartsWithIf(c: seq<Token>, body: seq<Token>, more: seq<Token>)
    ensures !Peek(WhenText(c, body) + more).Semicolon?
    ensures forall els: seq<Token> :: !Peek(EitherText(c, body, els) + more).Semicolon?
  {
  }

  lemma StartsWithName(name: string, value: seq<Token>, more: seq<Token>)
    ensures !Peek(SetText(name, value) + more).Semicolon? && !Peek(SetText(name, value)).Semicolon?
  {
  }

  // IF ET >= PT THEN Q := TRUE; ELSE Q := FALSE; END_IF;
  lemma JudgeSpelled(c: seq<Token>, e: Expr)
    requires SpellsExpr(c, e)
    ensures Spells(JudgeText(c), [F.When(e, [Assign("Q", INVALID_TAG, F.Truth(true))], [Assign("Q", INVALID_TAG, F.Truth(false))])])
  {
    hide Spells, SpellsExpr, SetText, EitherText;
    ConstantsSpelled();
    OneSet("Q", TRUE_TEXT, F.Truth(true));
    OneSet("Q", FALSE_TEXT, F.Truth(false));
    OneEither(c, e, SetText("Q", TRUE_TEXT), [Assign("Q", INVALID_TAG, F.Truth(true))], SetText("Q", FALSE_TEXT), [Assign("Q", INVALID_TAG, F.Truth(false))]);
  }

  lemma TwoSets(a: string, v: seq<Token>, e: Expr, b: string, w: seq<Token>, f: Expr)
    requires '.' !in a && '.' !in b && SpellsExpr(v, e) && SpellsExpr(w, f)
    ensures Spells(SetText(a, v) + SetText(b, w), [Assign(a, INVALID_TAG, e), Assign(b, INVALID_TAG, f)])
  {
    hide Spells, SpellsExpr, SetText;
    OneSet(b, w, f);
    StartsWithName(b, w, []);
    SetThen(a, v, e, SetText(b, w), [Assign(b, INVALID_TAG, f)]);
    assert [Assign(a, INVALID_TAG, e)] + [Assign(b, INVALID_TAG, f)] == [Assign(a, INVALID_TAG, e), Assign(b, INVALID_TAG, f)];
  }

  lemma ElapsedSpelled()
    ensures SpellsExpr(ELAPSED_TEXT, F.Elapsed(F.UNBOUND))
  {
    hide SpellsExpr;
    PairSpelled(Ge, Tag("ET"), IdentifierToken("ET"), Tag("PT"), IdentifierToken("PT"));
  }

  lemma TonSpelled()
    ensures Spells(TON_TEXT, F.TonBody(F.UNBOUND))
  {
    hide Spells, SpellsExpr, SetText, EitherText, WhenText;
    ConstantsSpelled();
    WordSpelled("IN");
    ElapsedSpelled();
    JudgeSpelled(ELAPSED_TEXT, F.Elapsed(F.UNBOUND));
    var judged := F.When(F.Elapsed(F.UNBOUND), [Assign("Q", INVALID_TAG, F.Truth(true))], [Assign("Q", INVALID_TAG, F.Truth(false))]);
    EitherStarts(ELAPSED_TEXT, SetText("Q", TRUE_TEXT), SetText("Q", FALSE_TEXT));
    StepThen(JudgeText(ELAPSED_TEXT), [judged]);
    assert [F.AddCycle(F.UNBOUND), F.CapEt(F.UNBOUND)] + [judged] == [F.AddCycle(F.UNBOUND), F.CapEt(F.UNBOUND), judged];
    TwoSets("ET", [TimeLiteral(0)], Literal(VTime(0)), "Q", FALSE_TEXT, F.Truth(false));
    OneEither(Word("IN"), Tag("IN"), STEP_TEXT + JudgeText(ELAPSED_TEXT), [F.AddCycle(F.UNBOUND), F.CapEt(F.UNBOUND), judged],
              SetText("ET", [TimeLiteral(0)]) + SetText("Q", FALSE_TEXT), [Assign("ET", INVALID_TAG, Literal(VTime(0))), Assign("Q", INVALID_TAG, F.Truth(false))]);
  }

  lemma EitherStarts(c: seq<Token>, body: seq<Token>, els: seq<Token>)
    ensures !Peek(EitherText(c, body, els)).Semicolon? && !Peek(WhenText(c, body)).Semicolon?
  {
  }

  lemma TofSpelled()
    ensures Spells(TOF_TEXT, F.TofBody(F.UNBOUND))
  {
    hide Spells, SpellsExpr, SetText, EitherText, WhenText;
    ConstantsSpelled();
    WordSpelled("IN");
    WordSpelled("Q");
    ElapsedSpelled();
    OneSet("Q", FALSE_TEXT, F.Truth(false));
    OneWhen(ELAPSED_TEXT, F.Elapsed(F.UNBOUND), SetText("Q", FALSE_TEXT), [Assign("Q", INVALID_TAG, F.Truth(false))]);
    var over := F.When(F.Elapsed(F.UNBOUND), [Assign("Q", INVALID_TAG, F.Truth(false))], []);
    var overText := WhenText(ELAPSED_TEXT, SetText("Q", FALSE_TEXT));
    EitherStarts(ELAPSED_TEXT, SetText("Q", FALSE_TEXT), []);
    StepThen(overText, [over]);
    assert [F.AddCycle(F.UNBOUND), F.CapEt(F.UNBOUND)] + [over] == [F.AddCycle(F.UNBOUND), F.CapEt(F.UNBOUND), over];
    OneWhen(Word("Q"), Tag("Q"), STEP_TEXT + overText, [F.AddCycle(F.UNBOUND), F.CapEt(F.UNBOUND), over]);
    TwoSets("Q", TRUE_TEXT, F.Truth(true), "ET", [TimeLiteral(0)], Literal(VTime(0)));
    OneEither(Word("IN"), Tag("IN"),
              SetText("Q", TRUE_TEXT) + SetText("ET", [TimeLiteral(0)]), [Assign("Q", INVALID_TAG, F.Truth(true)), Assign("ET", INVALID_TAG, Literal(VTime(0)))],
              WhenText(Word("Q"), STEP_TEXT + overText), [F.When(Tag("Q"), [F.AddCycle(F.UNBOUND), F.CapEt(F.UNBOUND), over], [])]);
  }

  lemma CtuSpelled()
    ensures Spells(CTU_TEXT, F.CtuBody(F.UNBOUND))
  {
    hide Spells, SpellsExpr, SetText, EitherText, WhenText, EdgeText;
    ConstantsSpelled();
    WordSpelled("R");
    WordSpelled("CU");
    EdgeSpelled("CU");
    PairSpelled(Ge, Tag("CV"), IdentifierToken("CV"), Tag("PV"), IdentifierToken("PV"));
    PairSpelled(Add, Tag("CV"), IdentifierToken("CV"), Literal(VDInt(1)), IntLiteral(1));
    var count := Assign("CV", INVALID_TAG, Binary(Add, Tag("CV"), Literal(VDInt(1))));
    OneSet("CV", [IdentifierToken("CV"), Plus, IntLiteral(1)], Binary(Add, Tag("CV"), Literal(VDInt(1))));
    OneSet("M", Word("CU"), Tag("CU"));
    StartsWithName("M", Word("CU"), []);
    WhenThen(EdgeText("CU"), F.Edge("CU", F.UNBOUND), CountText(Plus), [count], SetText("M", Word("CU")), [Assign("M", INVALID_TAG, Tag("CU"))]);
    var counting := [F.When(F.Edge("CU", F.UNBOUND), [count], []), Assign("M", INVALID_TAG, Tag("CU"))];
    assert [F.When(F.Edge("CU", F.UNBOUND), [count], [])] + [Assign("M", INVALID_TAG, Tag("CU"))] == counting;
    TwoSets("CV", [IntLiteral(0)], Literal(VDInt(0)), "M", FALSE_TEXT, F.Truth(false));
    var limit := [IdentifierToken("CV"), GeToken, IdentifierToken("PV")];
    JudgeSpelled(limit, Binary(Ge, Tag("CV"), Tag("PV")));
    EitherStarts(limit, SetText("Q", TRUE_TEXT), SetText("Q", FALSE_TEXT));
    EitherThen(Word("R"), Tag("R"),
               SetText("CV", [IntLiteral(0)]) + SetText("M", FALSE_TEXT), [Assign("CV", INVALID_TAG, Literal(VDInt(0))), Assign("M", INVALID_TAG, F.Truth(false))],
               WhenText(EdgeText("CU"), CountText(Plus)) + SetText("M", Word("CU")), counting,
               JudgeText(limit), [F.Compare(F.UNBOUND, Ge, Tag("PV"))]);
    assert F.CtuBody(F.UNBOUND) == [F.CtuBody(F.UNBOUND)[0]] + [F.Compare(F.UNBOUND, Ge, Tag("PV"))];
  }

  lemma CtdSpelled()
    ensures Spells(CTD_TEXT, F.CtdBody(F.UNBOUND))
  {
    hide Spells, SpellsExpr, SetText, EitherText, WhenText, EdgeText;
    ConstantsSpelled();
    WordSpelled("LD");
    WordSpelled("CD");
    WordSpelled("PV");
    EdgeSpelled("CD");
    PairSpelled(Le, Tag("CV"), IdentifierToken("CV"), Literal(VDInt(0)), IntLiteral(0));
    PairSpelled(Gt, Tag("CV"), IdentifierToken("CV"), Literal(VDInt(0)), IntLiteral(0));
    PairSpelled(Sub, Tag("CV"), IdentifierToken("CV"), Literal(VDInt(1)), IntLiteral(1));
    var count := Assign("CV", INVALID_TAG, Binary(Sub, Tag("CV"), Literal(VDInt(1))));
    OneSet("CV", [IdentifierToken("CV"), Minus, IntLiteral(1)], Binary(Sub, Tag("CV"), Literal(VDInt(1))));
    var positive := [IdentifierToken("CV"), GtToken, IntLiteral(0)];
    OneWhen(positive, Binary(Gt, Tag("CV"), Literal(VDInt(0))), CountText(Minus), [count]);
    var guarded := F.When(Binary(Gt, Tag("CV"), Literal(VDInt(0))), [count], []);
    OneSet("M", Word("CD"), Tag("CD"));
    StartsWithName("M", Word("CD"), []);
    WhenThen(EdgeText("CD"), F.Edge("CD", F.UNBOUND), WhenText(positive, CountText(Minus)), [guarded], SetText("M", Word("CD")), [Assign("M", INVALID_TAG, Tag("CD"))]);
    var counting := [F.When(F.Edge("CD", F.UNBOUND), [guarded], []), Assign("M", INVALID_TAG, Tag("CD"))];
    assert [F.When(F.Edge("CD", F.UNBOUND), [guarded], [])] + [Assign("M", INVALID_TAG, Tag("CD"))] == counting;
    TwoSets("CV", Word("PV"), Tag("PV"), "M", FALSE_TEXT, F.Truth(false));
    var limit := [IdentifierToken("CV"), LeToken, IntLiteral(0)];
    JudgeSpelled(limit, Binary(Le, Tag("CV"), Literal(VDInt(0))));
    EitherStarts(limit, SetText("Q", TRUE_TEXT), SetText("Q", FALSE_TEXT));
    EitherThen(Word("LD"), Tag("LD"),
               SetText("CV", Word("PV")) + SetText("M", FALSE_TEXT), [Assign("CV", INVALID_TAG, Tag("PV")), Assign("M", INVALID_TAG, F.Truth(false))],
               WhenText(EdgeText("CD"), WhenText(positive, CountText(Minus))) + SetText("M", Word("CD")), counting,
               JudgeText(limit), [F.Compare(F.UNBOUND, Le, Literal(VDInt(0)))]);
    assert F.CtdBody(F.UNBOUND) == [F.CtdBody(F.UNBOUND)[0]] + [F.Compare(F.UNBOUND, Le, Literal(VDInt(0)))];
  }

  // ---- The variables ----

  lemma DeclTextThen(name: string, kind: VarKind, t: TypeId, more: seq<Token>, ds: seq<VarDecl>)
    requires kind != VarTemp && SpellsDecls(kind, InFunctionBlock, more, ds)
    ensures SpellsDecls(kind, InFunctionBlock, DeclText(name, TypeToken(t)) + more, [F.Declared(name, kind, t)] + ds)
  {
    hide SpellsDecls;
    var d := F.Declared(name, kind, t);
    assert PrintDecl(InFunctionBlock, d) == DeclText(name, TypeToken(t));
    DeclThen(InFunctionBlock, d, more, ds);
  }

  lemma TwoDecls(kind: VarKind, a: string, t: TypeId, b: string, u: TypeId)
    requires kind != VarTemp
    ensures SpellsDecls(kind, InFunctionBlock, DeclText(a, TypeToken(t)) + DeclText(b, TypeToken(u)), [F.Declared(a, kind, t), F.Declared(b, kind, u)])
  {
    hide SpellsDecls, DeclText;
    NoDecls(kind, InFunctionBlock);
    DeclTextThen(b, kind, u, [], []);
    DeclTextThen(a, kind, t, DeclText(b, TypeToken(u)) + [], [F.Declared(b, kind, u)] + []);
    assert DeclText(b, TypeToken(u)) + [] == DeclText(b, TypeToken(u));
    assert [F.Declared(a, kind, t)] + ([F.Declared(b, kind, u)] + []) == [F.Declared(a, kind, t), F.Declared(b, kind, u)];
  }

  lemma TimerVarsSpelled()
    ensures SpellsVars(InFunctionBlock, TIMER_VARS, F.TimerDecls())
  {
    hide SpellsVars, SpellsDecls, DeclText;
    TwoDecls(VarInput, "IN", Bool, "PT", Time);
    TwoDecls(VarOutput, "Q", Bool, "ET", Time);
    var ins, outs := DeclText("IN", KwBool) + DeclText("PT", KwTime), DeclText("Q", KwBool) + DeclText("ET", KwTime);
    var outDecls := [F.Declared("Q", VarOutput, Bool), F.Declared("ET", VarOutput, Time)];
    NoVars(InFunctionBlock);
    BlockOfVars(InFunctionBlock, VarOutput, outs, outDecls, [], []);
    var outText := [KwVarOutput] + (outs + ([KwEndVar] + []));
    BlockOfVars(InFunctionBlock, VarInput, ins, [F.Declared("IN", VarInput, Bool), F.Declared("PT", VarInput, Time)], outText, outDecls + []);
    assert [KwVarInput] + (ins + ([KwEndVar] + outText)) == TIMER_VARS;
    assert [F.Declared("IN", VarInput, Bool), F.Declared("PT", VarInput, Time)] + (outDecls + []) == F.TimerDecls();
  }

  lemma CounterVarsSpelled(input: string, set_: string)
    ensures SpellsVars(InFunctionBlock, CounterVars(input, set_), F.CounterDecls(input, set_))
  {
    hide SpellsVars, SpellsDecls, DeclText, CounterVars;
    TwoDecls(VarInput, set_, Bool, "PV", DInt);
    DeclTextThen(input, VarInput, Bool, DeclText(set_, KwBool) + DeclText("PV", KwDint), [F.Declared(set_, VarInput, Bool), F.Declared("PV", VarInput, DInt)]);
    TwoDecls(VarOutput, "Q", Bool, "CV", DInt);
    NoDecls(Var, InFunctionBlock);
    DeclTextThen("M", Var, Bool, [], []);
    NoVars(InFunctionBlock);
    var ins := DeclText(input, KwBool) + (DeclText(set_, KwBool) + DeclText("PV", KwDint));
    var inDecls := [F.Declared(input, VarInput, Bool)] + [F.Declared(set_, VarInput, Bool), F.Declared("PV", VarInput, DInt)];
    var outs, outDecls := DeclText("Q", KwBool) + DeclText("CV", KwDint), [F.Declared("Q", VarOutput, Bool), F.Declared("CV", VarOutput, DInt)];
    var m, mDecls := DeclText("M", KwBool) + [], [F.Declared("M", Var, Bool)] + [];
    BlockOfVars(InFunctionBlock, Var, m, mDecls, [], []);
    var mText := [KwVar] + (m + ([KwEndVar] + []));
    BlockOfVars(InFunctionBlock, VarOutput, outs, outDecls, mText, mDecls + []);
    var outText := [KwVarOutput] + (outs + ([KwEndVar] + mText));
    BlockOfVars(InFunctionBlock, VarInput, ins, inDecls, outText, outDecls + (mDecls + []));
    CounterVarsShape(input, set_);
    assert inDecls + (outDecls + (mDecls + [])) == F.CounterDecls(input, set_);
  }

  lemma CounterVarsShape(input: string, set_: string)
    ensures CounterVars(input, set_) ==
            [KwVarInput] + ((DeclText(input, KwBool) + (DeclText(set_, KwBool) + DeclText("PV", KwDint))) + ([KwEndVar] +
            ([KwVarOutput] + ((DeclText("Q", KwBool) + DeclText("CV", KwDint)) + ([KwEndVar] +
            ([KwVar] + ((DeclText("M", KwBool) + []) + ([KwEndVar] + []))))))))
  {
    hide DeclText;
  }

  // ---- The library ----

  lemma BlockThen(name: string, vars: seq<Token>, ds: seq<VarDecl>, body: seq<Token>, b: seq<Stmt>, done: seq<Pou>, rest: seq<Token>)
    requires SpellsVars(InFunctionBlock, vars, ds) && Spells(body, b) && Peek(body).KwIf?
    ensures ParseLibrary(done, BlockText(name, vars, body, rest)) == ParseLibrary(done + [Pou(name, false, ds, b)], rest)
  {
    hide ParsePou, SpellsVars, Spells;
    PouSpelled(name, false, vars, ds, body, b, rest);
  }

  lemma BodiesStart()
    ensures Peek(TON_TEXT).KwIf? && Peek(TOF_TEXT).KwIf? && Peek(CTU_TEXT).KwIf? && Peek(CTD_TEXT).KwIf?
  {
  }

  lemma TextShape()
    ensures LIBRARY_TEXT ==
            BlockText("TON", TIMER_VARS, TON_TEXT,
            BlockText("TOF", TIMER_VARS, TOF_TEXT,
            BlockText("CTU", CounterVars("CU", "R"), CTU_TEXT,
            BlockText("CTD", CounterVars("CD", "LD"), CTD_TEXT, [EndOfFile]))))
  {
    hide BlockText, CounterVars;
  }

  lemma Blocks()
    ensures F.TON == Pou("TON", false, F.TimerDecls(), F.TonBody(F.UNBOUND))
    ensures F.TOF == Pou("TOF", false, F.TimerDecls(), F.TofBody(F.UNBOUND))
    ensures F.CTU == Pou("CTU", false, F.CounterDecls("CU", "R"), F.CtuBody(F.UNBOUND))
    ensures F.CTD == Pou("CTD", false, F.CounterDecls("CD", "LD"), F.CtdBody(F.UNBOUND))
    ensures F.LIBRARY == [] + [F.TON] + [F.TOF] + [F.CTU] + [F.CTD]
  {
  }

  // The text parses to the four blocks.
  lemma LibraryParses()
    ensures ParseLibrary([], LIBRARY_TEXT) == Some(F.LIBRARY)
  {
    hide *;
    BodiesStart();
    TextShape();
    Blocks();
    var d := [EndOfFile];
    var c := BlockText("CTD", CounterVars("CD", "LD"), CTD_TEXT, d);
    var b := BlockText("CTU", CounterVars("CU", "R"), CTU_TEXT, c);
    var a := BlockText("TOF", TIMER_VARS, TOF_TEXT, b);
    TimerVarsSpelled();
    CounterVarsSpelled("CU", "R");
    CounterVarsSpelled("CD", "LD");
    TonSpelled();
    TofSpelled();
    CtuSpelled();
    CtdSpelled();
    BlockThen("TON", TIMER_VARS, F.TimerDecls(), TON_TEXT, F.TonBody(F.UNBOUND), [], a);
    BlockThen("TOF", TIMER_VARS, F.TimerDecls(), TOF_TEXT, F.TofBody(F.UNBOUND), [] + [F.TON], b);
    BlockThen("CTU", CounterVars("CU", "R"), F.CounterDecls("CU", "R"), CTU_TEXT, F.CtuBody(F.UNBOUND), [] + [F.TON] + [F.TOF], c);
    BlockThen("CTD", CounterVars("CD", "LD"), F.CounterDecls("CD", "LD"), CTD_TEXT, F.CtdBody(F.UNBOUND), [] + [F.TON] + [F.TOF] + [F.CTU], d);
    LibraryEnds(F.LIBRARY);
  }

  lemma LibraryEnds(done: seq<Pou>)
    ensures ParseLibrary(done, [EndOfFile]) == Some(done)
  {
  }

  // ---- Its tokens are what a lexer makes ----

  predicate AllPlain(ts: seq<Token>) {
    forall t | t in ts :: P.NamePlain(t)
  }

  predicate PlainWord(name: string) {
    Plain(name) && '.' !in name && name != ""
  }

  lemma JoinedPlain(a: seq<Token>, b: seq<Token>)
    ensures AllPlain(a + b) <==> AllPlain(a) && AllPlain(b)
  {
    assert forall t | t in a :: t in a + b;
    assert forall t | t in b :: t in a + b;
    assert forall t | t in a + b :: t in a || t in b;
  }

  lemma SetPlain(name: string, value: seq<Token>)
    requires PlainWord(name) && AllPlain(value)
    ensures AllPlain(SetText(name, value))
  {
    JoinedPlain([IdentifierToken(name), AssignToken] + value, [Semicolon]);
    JoinedPlain([IdentifierToken(name), AssignToken], value);
  }

  lemma IfPlain(c: seq<Token>, body: seq<Token>, els: Option<seq<Token>>)
    requires AllPlain(c) && AllPlain(body) && (els.Some? ==> AllPlain(els.value))
    ensures AllPlain(IfText(c, body, [], els) + [Semicolon])
  {
    hide AllPlain;
    KeywordsPlain();
    if els.Some? { JoinedPlain([KwElse], els.value); }
    JoinedPlain(ElseText(els), [KwEndIf]);
    JoinedPlain([], ElseText(els) + [KwEndIf]);
    JoinedPlain(body, [] + (ElseText(els) + [KwEndIf]));
    JoinedPlain([KwThen], body + ([] + (ElseText(els) + [KwEndIf])));
    JoinedPlain(c, [KwThen] + (body + ([] + (ElseText(els) + [KwEndIf]))));
    JoinedPlain([KwIf], c + ([KwThen] + (body + ([] + (ElseText(els) + [KwEndIf])))));
    JoinedPlain(IfText(c, body, [], els), [Semicolon]);
  }

  lemma KeywordsPlain()
    ensures AllPlain([]) && AllPlain([KwIf]) && AllPlain([KwThen]) && AllPlain([KwElse]) && AllPlain([KwEndIf]) && AllPlain([Semicolon])
  {
  }

  lemma WordsPlain()
    ensures PlainWord("ET") && PlainWord("PT") && PlainWord("IN") && PlainWord("Q") && PlainWord("CV") && PlainWord("PV") && PlainWord("M")
    ensures PlainWord("CU") && PlainWord("CD") && PlainWord("R") && PlainWord("LD")
    ensures PlainWord("System") && PlainWord("CycleTime") && PlainWord("TON") && PlainWord("TOF") && PlainWord("CTU") && PlainWord("CTD")
  {
  }

  lemma StepPlain()
    ensures AllPlain(STEP_TEXT) && AllPlain(ELAPSED_TEXT)
  {
    hide PlainWord;
    WordsPlain();
    var sum := [IdentifierToken("ET"), Plus, IdentifierToken("System"), Dot, IdentifierToken("CycleTime")];
    PlainTokens(sum);
    PlainTokens([IdentifierToken("ET"), GtToken, IdentifierToken("PT")]);
    PlainTokens(Word("PT"));
    PlainTokens(ELAPSED_TEXT);
    hide AllPlain, SetText, IfText;
    SetPlain("ET", sum);
    SetPlain("ET", Word("PT"));
    IfPlain([IdentifierToken("ET"), GtToken, IdentifierToken("PT")], SetText("ET", Word("PT")), None);
    JoinedPlain(SetText("ET", sum), WhenText([IdentifierToken("ET"), GtToken, IdentifierToken("PT")], SetText("ET", Word("PT"))));
  }

  lemma PlainTokens(ts: seq<Token>)
    requires forall i | 0 <= i < |ts| :: ts[i].IdentifierToken? ==> PlainWord(ts[i].text)
    ensures AllPlain(ts)
  {
  }

  lemma ConstantsPlain()
    ensures AllPlain(TRUE_TEXT) && AllPlain(FALSE_TEXT) && AllPlain([TimeLiteral(0)]) && AllPlain([IntLiteral(0)])
  {
  }

  lemma JudgePlain(c: seq<Token>)
    requires AllPlain(c)
    ensures AllPlain(JudgeText(c))
  {
    hide AllPlain, SetText, IfText;
    WordsPlain();
    ConstantsPlain();
    SetPlain("Q", TRUE_TEXT);
    SetPlain("Q", FALSE_TEXT);
    IfPlain(c, SetText("Q", TRUE_TEXT), Some(SetText("Q", FALSE_TEXT)));
  }

  lemma TwoSetsPlain(a: string, v: seq<Token>, b: string, w: seq<Token>)
    requires PlainWord(a) && PlainWord(b) && AllPlain(v) && AllPlain(w)
    ensures AllPlain(SetText(a, v) + SetText(b, w))
  {
    hide AllPlain, SetText;
    SetPlain(a, v);
    SetPlain(b, w);
    JoinedPlain(SetText(a, v), SetText(b, w));
  }

  lemma TimersPlain()
    ensures AllPlain(TON_TEXT) && AllPlain(TOF_TEXT)
  {
    WordsPlain();
    PlainTokens(Word("IN"));
    PlainTokens(Word("Q"));
    hide AllPlain, SetText, IfText, PlainWord;
    StepPlain();
    ConstantsPlain();
    JudgePlain(ELAPSED_TEXT);
    JoinedPlain(STEP_TEXT, JudgeText(ELAPSED_TEXT));
    TwoSetsPlain("ET", [TimeLiteral(0)], "Q", FALSE_TEXT);
    IfPlain(Word("IN"), STEP_TEXT + JudgeText(ELAPSED_TEXT), Some(SetText("ET", [TimeLiteral(0)]) + SetText("Q", FALSE_TEXT)));
    SetPlain("Q", FALSE_TEXT);
    IfPlain(ELAPSED_TEXT, SetText("Q", FALSE_TEXT), None);
    JoinedPlain(STEP_TEXT, WhenText(ELAPSED_TEXT, SetText("Q", FALSE_TEXT)));
    IfPlain(Word("Q"), STEP_TEXT + WhenText(ELAPSED_TEXT, SetText("Q", FALSE_TEXT)), None);
    TwoSetsPlain("Q", TRUE_TEXT, "ET", [TimeLiteral(0)]);
    IfPlain(Word("IN"), SetText("Q", TRUE_TEXT) + SetText("ET", [TimeLiteral(0)]),
            Some(WhenText(Word("Q"), STEP_TEXT + WhenText(ELAPSED_TEXT, SetText("Q", FALSE_TEXT)))));
  }

  lemma CountersPlain()
    ensures AllPlain(CTU_TEXT) && AllPlain(CTD_TEXT)
  {
    WordsPlain();
    PlainTokens(Word("R"));
    PlainTokens(Word("LD"));
    PlainTokens(Word("CU"));
    PlainTokens(Word("CD"));
    PlainTokens(Word("PV"));
    PlainTokens(EdgeText("CU"));
    PlainTokens(EdgeText("CD"));
    PlainTokens([IdentifierToken("CV"), Plus, IntLiteral(1)]);
    PlainTokens([IdentifierToken("CV"), Minus, IntLiteral(1)]);
    PlainTokens([IdentifierToken("CV"), GeToken, IdentifierToken("PV")]);
    PlainTokens([IdentifierToken("CV"), GtToken, IntLiteral(0)]);
    PlainTokens([IdentifierToken("CV"), LeToken, IntLiteral(0)]);
    hide AllPlain, SetText, IfText, PlainWord, EdgeText;
    ConstantsPlain();
    SetPlain("CV", [IdentifierToken("CV"), Plus, IntLiteral(1)]);
    SetPlain("CV", [IdentifierToken("CV"), Minus, IntLiteral(1)]);
    SetPlain("M", Word("CU"));
    SetPlain("M", Word("CD"));
    TwoSetsPlain("CV", [IntLiteral(0)], "M", FALSE_TEXT);
    TwoSetsPlain("CV", Word("PV"), "M", FALSE_TEXT);
    JudgePlain([IdentifierToken("CV"), GeToken, IdentifierToken("PV")]);
    JudgePlain([IdentifierToken("CV"), LeToken, IntLiteral(0)]);
    var up := WhenText(EdgeText("CU"), CountText(Plus));
    IfPlain(EdgeText("CU"), CountText(Plus), None);
    JoinedPlain(up, SetText("M", Word("CU")));
    IfPlain(Word("R"), SetText("CV", [IntLiteral(0)]) + SetText("M", FALSE_TEXT), Some(up + SetText("M", Word("CU"))));
    JoinedPlain(EitherText(Word("R"), SetText("CV", [IntLiteral(0)]) + SetText("M", FALSE_TEXT), up + SetText("M", Word("CU"))),
                JudgeText([IdentifierToken("CV"), GeToken, IdentifierToken("PV")]));
    var some := WhenText([IdentifierToken("CV"), GtToken, IntLiteral(0)], CountText(Minus));
    IfPlain([IdentifierToken("CV"), GtToken, IntLiteral(0)], CountText(Minus), None);
    var down := WhenText(EdgeText("CD"), some);
    IfPlain(EdgeText("CD"), some, None);
    JoinedPlain(down, SetText("M", Word("CD")));
    IfPlain(Word("LD"), SetText("CV", Word("PV")) + SetText("M", FALSE_TEXT), Some(down + SetText("M", Word("CD"))));
    JoinedPlain(EitherText(Word("LD"), SetText("CV", Word("PV")) + SetText("M", FALSE_TEXT), down + SetText("M", Word("CD"))),
                JudgeText([IdentifierToken("CV"), LeToken, IntLiteral(0)]));
  }

  lemma VarsPlain()
    ensures AllPlain(TIMER_VARS) && AllPlain(CounterVars("CU", "R")) && AllPlain(CounterVars("CD", "LD"))
  {
    WordsPlain();
    hide PlainWord;
    PlainTokens(TIMER_VARS);
    PlainTokens(CounterVars("CU", "R"));
    PlainTokens(CounterVars("CD", "LD"));
  }

  predicate Lexed(ts: seq<Token>) {
    ts != [] && ts[|ts| - 1] == EndOfFile && AllPlain(ts)
  }

  lemma BlockPlain(name: string, vars: seq<Token>, body: seq<Token>, rest: seq<Token>)
    requires PlainWord(name) && AllPlain(vars) && AllPlain(body) && Lexed(rest)
    ensures Lexed(BlockText(name, vars, body, rest))
  {
    PlainTokens([KwFunctionBlock, IdentifierToken(name)]);
    PlainTokens([KwEndFunctionBlock]);
    hide AllPlain, PlainWord;
    JoinedPlain([KwEndFunctionBlock], rest);
    JoinedPlain(body, [KwEndFunctionBlock] + rest);
    JoinedPlain(vars, body + ([KwEndFunctionBlock] + rest));
    JoinedPlain([KwFunctionBlock, IdentifierToken(name)], vars + (body + ([KwEndFunctionBlock] + rest)));
  }

  lemma LexedMeans(ts: seq<Token>)
    requires Lexed(ts)
    ensures ts != [] && ts[|ts| - 1] == EndOfFile && forall t | t in ts :: P.NamePlain(t)
  {
  }

  lemma LibraryTokens()
    ensures Lexed(LIBRARY_TEXT)
  {
    PlainTokens([EndOfFile]);
    assert Lexed([EndOfFile]);
    hide *;
    WordsPlain();
    TextShape();
    TimersPlain();
    CountersPlain();
    VarsPlain();
    var c := BlockText("CTD", CounterVars("CD", "LD"), CTD_TEXT, [EndOfFile]);
    var b := BlockText("CTU", CounterVars("CU", "R"), CTU_TEXT, c);
    BlockPlain("CTD", CounterVars("CD", "LD"), CTD_TEXT, [EndOfFile]);
    BlockPlain("CTU", CounterVars("CU", "R"), CTU_TEXT, c);
    BlockPlain("TOF", TIMER_VARS, TOF_TEXT, b);
    BlockPlain("TON", TIMER_VARS, TON_TEXT, BlockText("TOF", TIMER_VARS, TOF_TEXT, b));
  }
}

// The text the STL translator prints (tools/plc_project.py:140-186): it parses to the
// translator's statements, so what is proved of those is true of what is compiled.

module StlText {
  import opened Values
  import opened Ast
  import opened Grammar
  import opened Statements
  import opened StlTranslator

  // ---- Trees as the parser leaves them: names without tag numbers ----

  function Unbound(e: Expr): Expr {
    match e
    case Literal(_) => e
    case Identifier(n, _) => Identifier(n, INVALID_TAG)
    case Unary(op, x) => Unary(op, Unbound(x))
    case Binary(op, l, r) => Binary(op, Unbound(l), Unbound(r))
  }

  function UnboundArg(a: CallArg): CallArg {
    match a
    case InputArg(n, e, _) => InputArg(n, Unbound(e), INVALID_TAG)
    case OutputArg(n, target, _, _) => OutputArg(n, target, INVALID_TAG, INVALID_TAG)
  }

  // Of the statements the translator emits.
  function UnboundStmt(st: Stmt): Stmt {
    match st
    case Assign(n, _, e) => Assign(n, INVALID_TAG, Unbound(e))
    case Rung(c, outs) => Rung(Unbound(c), seq(|outs|, i requires 0 <= i < |outs| => outs[i].(targetId := INVALID_TAG)))
    case Call(n, args, _) => Call(n, seq(|args|, i requires 0 <= i < |args| => UnboundArg(args[i])), INVALID_FRAME)
    case _ => st
  }

  // The operands of a line are printed ST expressions, a CALL a printed call.
  predicate Written(i: Instruction) {
    match i
    case Contact(_, _, operand) => Printable(Unbound(operand))
    case Load(operand, _) => Printable(Unbound(operand))
    case CallBlock(call) => PrintableStmt(UnboundStmt(call))
    case _ => true
  }

  // ---- The translator on text ----

  // Registers and finished statements as tokens; count temporaries so far.
  datatype Text = Text(net: nat, rlo: Option<seq<Token>>, acc1: Option<seq<Token>>, acc2: Option<seq<Token>>, statements: seq<seq<Token>>, count: nat)

  function Infix(a: seq<Token>, op: BinaryOp, b: seq<Token>): seq<Token> {
    [LParen] + (a + ([OperatorToken(op)] + (b + [RParen])))
  }

  function AssignText(name: string, value: seq<Token>): seq<Token> {
    PrintName(name) + ([AssignToken] + (value + [Semicolon]))
  }

  function SnapshotText(x: Text, value: seq<Token>): (Text, seq<Token>) {
    var name := TempName(x.net, x.count);
    (x.(statements := x.statements + [AssignText(name, value)], count := x.count + 1), PrintName(name))
  }

  // '(operand)' or 'NOT (operand)'
  function ContactText(i: Instruction): seq<Token>
    requires i.Contact? && Written(i)
  {
    (if i.negated then [KwNot] else []) + ([LParen] + (Print(Unbound(i.operand), 0) + [RParen]))
  }

  function CoilText(rlo: seq<Token>, kind: RungOutputKind, name: string): seq<Token> {
    [KwRung] + (rlo + ([RArrow] + (PrintOutputs([RungOutput(kind, name, INVALID_TAG)]) + [Semicolon])))
  }

  function TextOne(i: Instruction, x: Text): Option<Text>
    requires WellFormed(i) && Written(i)
  {
    match i
    case SetRlo(on) => Some(x.(rlo := Some([BoolLiteral(on)])))
    case Contact(op, _, _) =>
      var (x1, t) := SnapshotText(x, if x.rlo.None? then ContactText(i) else Infix(x.rlo.value, op, ContactText(i)));
      Some(x1.(rlo := Some(t)))
    case Negate => if x.rlo.None? then None else Some(x.(rlo := Some([LParen] + ([KwNot] + (x.rlo.value + [RParen])))))
    case Coil(kind, name, _) =>
      if x.rlo.None? then None
      else Some(x.(statements := x.statements + [CoilText(x.rlo.value, kind, name)], rlo := None))
    case Load(operand, _) =>
      var (x1, t) := SnapshotText(x, Print(Unbound(operand), 0));
      Some(x1.(acc1 := Some(t), acc2 := x.acc1))
    case Transfer(name, _) =>
      if x.acc1.None? then None else Some(x.(statements := x.statements + [AssignText(name, x.acc1.value)]))
    case Arithmetic(op) =>
      if x.acc1.None? || x.acc2.None? then None
      else
        var (x1, t) := SnapshotText(x, Infix(x.acc2.value, op, x.acc1.value));
        Some(x1.(acc1 := Some(t), acc2 := None))
    case Compare(op) =>
      if x.acc1.None? || x.acc2.None? then None
      else
        var (x1, t) := SnapshotText(x, Infix(x.acc2.value, op, x.acc1.value));
        Some(x1.(rlo := Some(t)))
    case CallBlock(call) => Some(x.(statements := x.statements + [PrintStmt(UnboundStmt(call))]))
  }

  function TextOf(list: seq<Instruction>, x: Text): Option<Text>
    requires forall i | i in list :: WellFormed(i) && Written(i)
  {
    if list == [] then Some(x)
    else
      assert list[|list| - 1] in list;
      match TextOf(list[..|list| - 1], x)
      case None => None
      case Some(x1) => TextOne(list[|list| - 1], x1)
  }

  // ---- What a piece of text parses to, whatever follows it ----

  predicate AtomThen(ts: seq<Token>, e: Expr, rest: seq<Token>) {
    ParseUnary(ts + rest) == Some((e, rest))
  }

  ghost predicate Atom(ts: seq<Token>, e: Expr) {
    forall rest: seq<Token> | !Peek(rest).Dot? :: AtomThen(ts, e, rest)
  }

  // As the value of an assignment.
  predicate ValueThen(ts: seq<Token>, e: Expr, rest: seq<Token>) {
    ParseLevel(0, ts + rest) == Some((e, rest))
  }

  ghost predicate Value(ts: seq<Token>, e: Expr) {
    forall rest: seq<Token> | ClosesExpression(Peek(rest)) :: ValueThen(ts, e, rest)
  }

  predicate StmtThen(ts: seq<Token>, st: Stmt, rest: seq<Token>) {
    ParseStmt(ts + rest) == Some((st, rest))
  }

  ghost predicate Whole(ts: seq<Token>, st: Stmt) {
    && ts != [] && (ts[0].KwRung? || ts[0].IdentifierToken?)
    && forall rest: seq<Token> :: StmtThen(ts, st, rest)
  }

  lemma NameIsAtom(name: string)
    ensures Atom(PrintName(name), Identifier(name, INVALID_TAG))
  {
    forall rest: seq<Token> | !Peek(rest).Dot? ensures AtomThen(PrintName(name), Identifier(name, INVALID_TAG), rest) {
      TagParses(name, rest);
    }
  }

  lemma LiteralIsAtom(b: bool)
    ensures Atom([BoolLiteral(b)], Literal(VBool(b)))
  {
    forall rest: seq<Token> | !Peek(rest).Dot? ensures AtomThen([BoolLiteral(b)], Literal(VBool(b)), rest) {
      LiteralParses(VBool(b), rest);
    }
  }

  lemma AtomIsValue(ts: seq<Token>, e: Expr)
    requires Atom(ts, e)
    ensures Value(ts, e)
  {
    forall rest: seq<Token> | ClosesExpression(Peek(rest)) ensures ValueThen(ts, e, rest) {
      assert AtomThen(ts, e, rest);
      AtLevel(0, ts + rest, e, rest);
    }
  }

  lemma PrintedIsValue(e: Expr)
    requires Printable(e)
    ensures Value(Print(e, 0), e)
  {
    forall rest: seq<Token> | ClosesExpression(Peek(rest)) ensures ValueThen(Print(e, 0), e, rest) {
      ExpressionParses(e, rest);
    }
  }

  lemma ParenthesesAreAtom(ts: seq<Token>, e: Expr)
    requires Value(ts, e)
    ensures Atom([LParen] + (ts + [RParen]), e)
  {
    var all := [LParen] + (ts + [RParen]);
    forall rest: seq<Token> | !Peek(rest).Dot? ensures AtomThen(all, e, rest) {
      var close := [RParen] + rest;
      assert all + rest == [LParen] + (ts + close);
      assert ValueThen(ts, e, close);
      ParenthesesParse(ts + close, e, rest);
    }
  }

  lemma NotIsAtom(ts: seq<Token>, e: Expr)
    requires Atom(ts, e)
    ensures Atom([KwNot] + ts, Unary(Not, e))
  {
    forall rest: seq<Token> | !Peek(rest).Dot? ensures AtomThen([KwNot] + ts, Unary(Not, e), rest) {
      assert [KwNot] + ts + rest == [KwNot] + (ts + rest);
      assert AtomThen(ts, e, rest);
      PrefixParses(Not, ts + rest, e, rest);
    }
  }

  // '(a OP b)', the two operands being atoms.
  lemma InfixIsAtom(a: seq<Token>, ea: Expr, op: BinaryOp, b: seq<Token>, eb: Expr)
    requires Atom(a, ea) && Atom(b, eb)
    ensures Atom(Infix(a, op, b), Binary(op, ea, eb))
  {
    forall rest: seq<Token> | !Peek(rest).Dot? ensures AtomThen(Infix(a, op, b), Binary(op, ea, eb), rest) {
      var close := [RParen] + rest;
      var ts := a + ([OperatorToken(op)] + (b + close));
      InfixParses(a, ea, op, b, eb, close);
      assert Infix(a, op, b) + rest == [LParen] + ts;
      ParenthesesParse(ts, Binary(op, ea, eb), rest);
    }
  }

  lemma InfixParses(a: seq<Token>, ea: Expr, op: BinaryOp, b: seq<Token>, eb: Expr, close: seq<Token>)
    requires Atom(a, ea) && Atom(b, eb) && Peek(close).RParen?
    ensures ParseLevel(0, a + ([OperatorToken(op)] + (b + close))) == Some((Binary(op, ea, eb), close))
  {
    hide ParseLevel, ParseTail, ParseUnary;
    var e, t, right := Binary(op, ea, eb), OperatorToken(op), b + close;
    var k, mid := LevelOf(e), [t] + right;
    OperatorRoundTrip(op, ea, eb);
    assert AtomThen(a, ea, mid) && AtomThen(b, eb, close);
    Climb(k, UNARY, a + mid, ea, mid);
    if k + 1 < UNARY { AtLevel(k + 1, right, eb, close); } else { TopLevel(right); }
    NextOperand(k, t, op, ea, right, eb, close);
    NoOperator(k, e, close);
    NoOperator(0, e, close);
    if k > 0 { Climb(0, k, a + mid, e, close); }
  }

  // ---- Statements ----

  lemma AssignIsWhole(name: string, value: seq<Token>, e: Expr)
    requires Value(value, e)
    ensures Whole(AssignText(name, value), Assign(name, INVALID_TAG, e))
  {
    hide ParseDotted, ParseLevel;
    var ts := AssignText(name, value);
    StartsWithName(name);
    forall rest: seq<Token> ensures StmtThen(ts, Assign(name, INVALID_TAG, e), rest) {
      var tail := [Semicolon] + rest;
      var given := value + tail;
      assert ts + rest == PrintName(name) + ([AssignToken] + given);
      assert ([AssignToken] + given)[1..] == given && tail[1..] == rest;
      NameParses(name, [AssignToken] + given);
      assert ValueThen(value, e, tail);
    }
  }

  lemma CoilIsWhole(rlo: seq<Token>, e: Expr, kind: RungOutputKind, name: string)
    requires Value(rlo, e)
    ensures Whole(CoilText(rlo, kind, name), Rung(e, [RungOutput(kind, name, INVALID_TAG)]))
  {
    hide ParseStmt, ParseLevel, PrintOutputs;
    var outs := [RungOutput(kind, name, INVALID_TAG)];
    forall rest: seq<Token> ensures StmtThen(CoilText(rlo, kind, name), Rung(e, outs), rest) {
      var tail := [RArrow] + (PrintOutputs(outs) + ([Semicolon] + rest));
      assert ValueThen(rlo, e, tail);
      RungTextParses(rlo, e, outs, rest);
      assert CoilText(rlo, kind, name) + rest == [KwRung] + (rlo + tail);
    }
  }

  lemma CallIsWhole(call: Stmt)
    requires call.Call? && PrintableStmt(UnboundStmt(call))
    ensures Whole(PrintStmt(UnboundStmt(call)), UnboundStmt(call))
  {
    hide ParseStmt;
    var st := UnboundStmt(call);
    StartsWithName(call.calleeName);
    forall rest: seq<Token> ensures StmtThen(PrintStmt(st), st, rest) { StmtParses(st, rest); }
  }

  // ---- The two translators in step ----

  ghost predicate SameRegister(ts: Option<seq<Token>>, e: Option<Expr>) {
    match (ts, e)
    case (None, None) => true
    case (Some(t), Some(x)) => Atom(t, Unbound(x))
    case _ => false
  }

  ghost predicate SameStatements(texts: seq<seq<Token>>, ss: seq<Stmt>) {
    |texts| == |ss| && forall i | 0 <= i < |ss| :: Whole(texts[i], UnboundStmt(ss[i]))
  }

  ghost predicate InStep(x: Text, s: Symbolic) {
    && x.net == s.net && x.count == |s.temporary| && SameStatements(x.statements, s.statements)
    && SameRegister(x.rlo, s.rlo) && SameRegister(x.acc1, s.acc1) && SameRegister(x.acc2, s.acc2)
  }

  lemma SnapshotInStep(base: nat, x: Text, s: Symbolic, value: seq<Token>, e: Expr, typ: TypeId)
    requires InStep(x, s) && Value(value, Unbound(e))
    ensures InStep(SnapshotText(x, value).0, Snapshot(base, s, e, typ).0)
    ensures Atom(SnapshotText(x, value).1, Unbound(Snapshot(base, s, e, typ).1))
  {
    hide Whole, Atom, AssignText;
    var name := TempName(s.net, |s.temporary|);
    AssignIsWhole(name, value, Unbound(e));
    NameIsAtom(name);
  }

  lemma ContactIsAtom(i: Instruction)
    requires i.Contact? && Written(i)
    ensures var value := if i.negated then Unary(Not, i.operand) else i.operand;
      Atom(ContactText(i), Unbound(value)) && Value(ContactText(i), Unbound(value))
  {
    hide Atom, Value;
    var e := Unbound(i.operand);
    var inner := [LParen] + (Print(e, 0) + [RParen]);
    PrintedIsValue(e);
    ParenthesesAreAtom(Print(e, 0), e);
    if i.negated { NotIsAtom(inner, e); } else { assert [] + inner == inner; }
    AtomIsValue(ContactText(i), if i.negated then Unary(Not, e) else e);
  }

  lemma ContactInStep(base: nat, i: Instruction, x: Text, s: Symbolic)
    requires i.Contact? && WellFormed(i) && Written(i) && InStep(x, s)
    ensures InStep(TextOne(i, x).value, TranslateOne(base, i, s).value)
  {
    hide Atom, Value, Whole, Infix, ContactText, AssignText;
    var e := ContactExpr(i, s.rlo);
    var text := if x.rlo.None? then ContactText(i) else Infix(x.rlo.value, i.op, ContactText(i));
    ContactIsAtom(i);
    if x.rlo.Some? {
      InfixIsAtom(x.rlo.value, Unbound(s.rlo.value), i.op, ContactText(i), Unbound(if i.negated then Unary(Not, i.operand) else i.operand));
      AtomIsValue(text, Unbound(e));
    }
    SnapshotInStep(base, x, s, text, e, Bool);
  }

  lemma AccumulatorsInStep(base: nat, i: Instruction, x: Text, s: Symbolic)
    requires (i.Arithmetic? || i.Compare?) && WellFormed(i) && InStep(x, s) && s.acc1.Some? && s.acc2.Some?
    ensures InStep(TextOne(i, x).value, TranslateOne(base, i, s).value)
  {
    hide Atom, Value, Whole, Infix, AssignText;
    var e, text := Binary(i.op, s.acc2.value, s.acc1.value), Infix(x.acc2.value, i.op, x.acc1.value);
    InfixIsAtom(x.acc2.value, Unbound(s.acc2.value), i.op, x.acc1.value, Unbound(s.acc1.value));
    AtomIsValue(text, Unbound(e));
    SnapshotInStep(base, x, s, text, e, if i.Arithmetic? then DInt else Bool);
  }

  // One line is accepted by both or by neither, and leaves both in step.
  lemma LineInStep(base: nat, i: Instruction, x: Text, s: Symbolic)
    requires WellFormed(i) && Written(i) && InStep(x, s)
    ensures TextOne(i, x).Some? <==> TranslateOne(base, i, s).Some?
    ensures TextOne(i, x).Some? ==> InStep(TextOne(i, x).value, TranslateOne(base, i, s).value)
  {
    hide Atom, Value, Whole, Infix, AssignText, CoilText, ContactText;
    match i
    case SetRlo(on) => LiteralIsAtom(on);
    case Contact(_, _, _) => ContactInStep(base, i, x, s);
    case Negate =>
      if s.rlo.Some? {
        NotIsAtom(x.rlo.value, Unbound(s.rlo.value));
        AtomIsValue([KwNot] + x.rlo.value, Unary(Not, Unbound(s.rlo.value)));
        ParenthesesAreAtom([KwNot] + x.rlo.value, Unary(Not, Unbound(s.rlo.value)));
        assert [KwNot] + x.rlo.value + [RParen] == [KwNot] + (x.rlo.value + [RParen]);
      }
    case Coil(kind, name, target) =>
      if s.rlo.Some? {
        AtomIsValue(x.rlo.value, Unbound(s.rlo.value));
        CoilIsWhole(x.rlo.value, Unbound(s.rlo.value), kind, name);
        assert UnboundStmt(Rung(s.rlo.value, [RungOutput(kind, name, target)])).outputs == [RungOutput(kind, name, INVALID_TAG)];
      }
    case Load(operand, typ) =>
      PrintedIsValue(Unbound(operand));
      SnapshotInStep(base, x, s, Print(Unbound(operand), 0), operand, typ);
    case Transfer(name, _) =>
      if s.acc1.Some? {
        AtomIsValue(x.acc1.value, Unbound(s.acc1.value));
        AssignIsWhole(name, x.acc1.value, Unbound(s.acc1.value));
      }
    case Arithmetic(_) => if s.acc1.Some? && s.acc2.Some? { AccumulatorsInStep(base, i, x, s); }
    case Compare(_) => if s.acc1.Some? && s.acc2.Some? { AccumulatorsInStep(base, i, x, s); }
    case CallBlock(call) => CallIsWhole(call);
  }

  lemma {:induction false} LinesInStep(base: nat, list: seq<Instruction>, x: Text, s: Symbolic)
    requires (forall i | i in list :: WellFormed(i) && Written(i)) && InStep(x, s)
    ensures TextOf(list, x).Some? <==> Translate(base, list, s).Some?
    ensures TextOf(list, x).Some? ==> InStep(TextOf(list, x).value, Translate(base, list, s).value)
  {
    hide InStep, TextOne, TranslateOne;
    if list != [] {
      var last := list[|list| - 1];
      assert last in list;
      LinesInStep(base, list[..|list| - 1], x, s);
      var before := TextOf(list[..|list| - 1], x);
      if before.Some? { LineInStep(base, last, before.value, Translate(base, list[..|list| - 1], s).value); }
    }
  }

  // ---- The whole network ----

  function Joined(texts: seq<seq<Token>>): seq<Token> {
    if texts == [] then [] else texts[0] + Joined(texts[1..])
  }

  function UnboundAll(ss: seq<Stmt>): (r: seq<Stmt>)
    ensures |r| == |ss|
  {
    if ss == [] then [] else [UnboundStmt(ss[0])] + UnboundAll(ss[1..])
  }

  lemma {:induction false} JoinedParse(texts: seq<seq<Token>>, ss: seq<Stmt>, ends: set<Token>, rest: seq<Token>)
    requires SameStatements(texts, ss) && Terminators(ends) && Peek(rest) in ends
    ensures ParseBlock(ends, Joined(texts) + rest) == Some((UnboundAll(ss), rest))
    ensures !Peek(Joined(texts) + rest).Semicolon?
    decreases |ss|
  {
    if ss == [] {
      assert Joined(texts) + rest == rest;
    } else {
      var tail := Joined(texts[1..]) + rest;
      assert Joined(texts) + rest == texts[0] + tail;
      assert Whole(texts[0], UnboundStmt(ss[0]));
      assert StmtThen(texts[0], UnboundStmt(ss[0]), tail);
      JoinedParse(texts[1..], ss[1..], ends, rest);
    }
  }

  // The text printed for a network is accepted exactly when the translator accepts it,
  // and parses to the translator's statements, their names still to be bound.
  lemma PrintedTextIsTheTranslation(base: nat, net: nat, list: seq<Instruction>, temporary: seq<TypeId>, ends: set<Token>, rest: seq<Token>)
    requires forall i | i in list :: WellFormed(i) && Written(i)
    requires Terminators(ends) && Peek(rest) in ends
    ensures var x, s := TextOf(list, Text(net, None, None, None, [], |temporary|)), Translate(base, list, Symbolic(net, None, None, None, [], temporary));
      && (x.Some? <==> s.Some?)
      && (x.Some? ==> ParseBlock(ends, Joined(x.value.statements) + rest) == Some((UnboundAll(s.value.statements), rest)))
  {
    hide TextOne, TranslateOne, Whole, Atom;
    var x, s := Text(net, None, None, None, [], |temporary|), Symbolic(net, None, None, None, [], temporary);
    LinesInStep(base, list, x, s);
    var done := TextOf(list, x);
    if done.Some? { JoinedParse(done.value.statements, Translate(base, list, s).value.statements, ends, rest); }
  }
}

// The expression grammar of structured text (src/st/parser.cpp:241-248, 441-564) as
// functions on token sequences, and its inverse: printing with as few parentheses as
// the precedence table allows.

module Grammar {
  import opened Values
  import opened Ast

  datatype Token =
    | IntLiteral(int64: i64)
    | BoolLiteral(b: bool)
    | TimeLiteral(ms: i64)
    | AddressLiteral(area: nat, byteOffset: nat, bitOffset: nat)
    | IdentifierToken(text: string)
    | KwProgram | KwEndProgram | KwVar | KwVarInput | KwVarOutput | KwVarTemp | KwEndVar | KwAt
    | KwIf | KwThen | KwElsif | KwElse | KwEndIf | KwWhile | KwDo | KwEndWhile
    | KwAnd | KwOr | KwXor | KwNot
    | KwBool | KwByte | KwInt | KwDint | KwTime
    | KwFunctionBlock | KwEndFunctionBlock | KwFunction | KwEndFunction | KwDataBlock | KwEndDataBlock
    | KwRung | KwSet | KwReset
    | Colon | Semicolon | AssignToken | LParen | RParen | Plus | Minus | Star | Slash
    | EqToken | NeToken | LtToken | GtToken | LeToken | GeToken | Dot | Comma | RArrow
    | EndOfFile

  // peek(): past the end the EOF sentinel repeats.
  function Peek(ts: seq<Token>): Token {
    if ts == [] then EndOfFile else ts[0]
  }

  type Parsed<T> = Option<(T, seq<Token>)>

  // ---- The precedence ladder: 0 OR, 1 XOR, 2 AND, 3 equality, 4 relations, 5 sums,
  // 6 products, 7 unary ----

  const UNARY: nat := 7

  function OperatorAt(k: nat, t: Token): Option<BinaryOp> {
    if k == 0 then (if t.KwOr? then Some(Or) else None)
    else if k == 1 then (if t.KwXor? then Some(Xor) else None)
    else if k == 2 then (if t.KwAnd? then Some(And) else None)
    else if k == 3 then (if t.EqToken? then Some(Eq) else if t.NeToken? then Some(Ne) else None)
    else if k == 4 then
      (if t.LtToken? then Some(Lt) else if t.GtToken? then Some(Gt) else if t.LeToken? then Some(Le)
       else if t.GeToken? then Some(Ge) else None)
    else if k == 5 then (if t.Plus? then Some(Add) else if t.Minus? then Some(Sub) else None)
    else if k == 6 then (if t.Star? then Some(Mul) else if t.Slash? then Some(Div) else None)
    else None
  }

  // static_cast<int32_t>
  function ToInt32(n: i64): i32 {
    var m := n % 0x1_0000_0000;
    if m >= 0x8000_0000 then m - 0x1_0000_0000 else m
  }

  function ParseLevel(k: nat, ts: seq<Token>): (r: Parsed<Expr>)
    requires k <= UNARY
    ensures r.Some? ==> |r.value.1| < |ts|
    decreases |ts|, UNARY + 1 - k, 0
  {
    if k == UNARY then ParseUnary(ts)
    else match ParseLevel(k + 1, ts)
      case None => None
      case Some((left, rest)) => ParseTail(k, left, rest)
  }

  // The while loop of a level: operators of the level associate to the left.
  function ParseTail(k: nat, left: Expr, ts: seq<Token>): (r: Parsed<Expr>)
    requires k < UNARY
    ensures r.Some? ==> |r.value.1| <= |ts|
    decreases |ts|, UNARY + 1 - k, 0
  {
    match OperatorAt(k, Peek(ts))
    case None => Some((left, ts))
    case Some(op) =>
      match ParseLevel(k + 1, ts[1..])
      case None => None
      case Some((right, rest)) => ParseTail(k, Binary(op, left, right), rest)
  }

  function ParseUnary(ts: seq<Token>): (r: Parsed<Expr>)
    ensures r.Some? ==> |r.value.1| < |ts|
    decreases |ts|, 0, 1
  {
    if Peek(ts).KwNot? || Peek(ts).Minus? then
      match ParseUnary(ts[1..])
      case None => None
      case Some((e, rest)) => Some((Unary(if ts[0].KwNot? then Not else Neg, e), rest))
    else ParsePrimary(ts)
  }

  function ParsePrimary(ts: seq<Token>): (r: Parsed<Expr>)
    ensures r.Some? ==> |r.value.1| < |ts|
    decreases |ts|, 0, 0
  {
    match Peek(ts)
    case IntLiteral(n) => Some((Literal(VDInt(ToInt32(n))), ts[1..]))
    case BoolLiteral(b) => Some((Literal(VBool(b)), ts[1..]))
    case TimeLiteral(ms) => Some((Literal(VTime(ms)), ts[1..]))
    case IdentifierToken(_) =>
      (match ParseDotted(ts)
       case None => None
       case Some((name, rest)) => Some((Identifier(name, INVALID_TAG), rest)))
    case LParen =>
      (match ParseLevel(0, ts[1..])
       case None => None
       case Some((e, rest)) => if Peek(rest).RParen? then Some((e, rest[1..])) else None)
    case _ => None
  }

  function ParseDotted(ts: seq<Token>): (r: Parsed<string>)
    ensures r.Some? ==> |r.value.1| < |ts|
  {
    if Peek(ts).IdentifierToken? then ParseDots(ts[0].text, ts[1..]) else None
  }

  function ParseDots(name: string, ts: seq<Token>): (r: Parsed<string>)
    ensures r.Some? ==> |r.value.1| <= |ts|
    decreases |ts|
  {
    if !Peek(ts).Dot? then Some((name, ts))
    else if Peek(ts[1..]).IdentifierToken? then ParseDots(name + "." + ts[1].text, ts[2..])
    else None
  }

  // ---- Printing ----

  function LevelOf(e: Expr): (k: nat)
    ensures k <= 8
  {
    match e
    case Binary(op, _, _) =>
      (match op case Or => 0 case Xor => 1 case And => 2 case Eq => 3 case Ne => 3
       case Lt => 4 case Gt => 4 case Le => 4 case Ge => 4 case Add => 5 case Sub => 5 case Mul => 6 case Div => 6)
    case Unary(_, _) => 7
    case _ => 8
  }

  function OperatorToken(op: BinaryOp): Token {
    match op
    case Or => KwOr case Xor => KwXor case And => KwAnd case Eq => EqToken case Ne => NeToken
    case Lt => LtToken case Gt => GtToken case Le => LeToken case Ge => GeToken
    case Add => Plus case Sub => Minus case Mul => Star case Div => Slash
  }

  // Non-negative literals of the types the parser makes, and unbound identifiers.
  predicate Printable(e: Expr) {
    match e
    case Literal(v) => v.VBool? || (v.VDInt? && v.int32 >= 0) || (v.VTime? && v.ms >= 0)
    case Identifier(_, id) => id == INVALID_TAG
    case Unary(_, x) => Printable(x)
    case Binary(_, l, r) => Printable(l) && Printable(r)
  }

  function LiteralToken(v: Value): Token
    requires v.VBool? || v.VDInt? || v.VTime?
  {
    match v
    case VBool(b) => BoolLiteral(b)
    case VDInt(n) => IntLiteral(n)
    case VTime(ms) => TimeLiteral(ms)
  }

  // What stands between the dots of a name.
  function Split(name: string): (segments: seq<string>)
    ensures segments != []
  {
    if name == "" then [""]
    else
      var rest := Split(name[1..]);
      if name[0] == '.' then [""] + rest else [[name[0]] + rest[0]] + rest[1..]
  }

  function NameTokens(segments: seq<string>): seq<Token> {
    if segments == [] then [] else [Dot, IdentifierToken(segments[0])] + NameTokens(segments[1..])
  }

  function PrintName(name: string): seq<Token> {
    [IdentifierToken(Split(name)[0])] + NameTokens(Split(name)[1..])
  }

  // An operand of level below k needs parentheses.
  function Print(e: Expr, k: nat): seq<Token>
    requires Printable(e)
    decreases e, 1
  {
    if LevelOf(e) < k then [LParen] + PrintBare(e) + [RParen] else PrintBare(e)
  }

  // The right operand of a left-associative operator must bind tighter.
  function PrintBare(e: Expr): seq<Token>
    requires Printable(e)
    decreases e, 0
  {
    match e
    case Literal(v) => [LiteralToken(v)]
    case Identifier(name, _) => PrintName(name)
    case Unary(op, x) => [if op == Not then KwNot else Minus] + Print(x, UNARY)
    case Binary(op, l, r) => Print(l, LevelOf(e)) + [OperatorToken(op)] + Print(r, LevelOf(e) + 1)
  }

  // ---- Names round-trip ----

  function Append(name: string, segments: seq<string>): string
    decreases |segments|
  {
    if segments == [] then name else Append(name + "." + segments[0], segments[1..])
  }

  lemma {:induction false} AppendPrefix(a: string, b: string, segments: seq<string>)
    ensures Append(a + b, segments) == a + Append(b, segments)
    decreases |segments|
  {
    if segments != [] {
      assert a + b + "." + segments[0] == a + (b + "." + segments[0]);
      AppendPrefix(a, b + "." + segments[0], segments[1..]);
    }
  }

  lemma {:induction false} SplitJoins(name: string)
    ensures Append(Split(name)[0], Split(name)[1..]) == name
  {
    if name != "" {
      var rest := Split(name[1..]);
      SplitJoins(name[1..]);
      if name[0] == '.' {
        AppendPrefix(".", rest[0], rest[1..]);
        assert Split(name)[1..] == rest && "" + "." + rest[0] == "." + rest[0];
        assert name == "." + name[1..];
      } else {
        AppendPrefix([name[0]], rest[0], rest[1..]);
        assert Split(name)[1..] == rest[1..];
        assert name == [name[0]] + name[1..];
      }
    }
  }

  lemma {:induction false} DotsParse(name: string, segments: seq<string>, rest: seq<Token>)
    requires !Peek(rest).Dot?
    ensures ParseDots(name, NameTokens(segments) + rest) == Some((Append(name, segments), rest))
    decreases |segments|
  {
    var ts := NameTokens(segments) + rest;
    if segments == [] {
      assert ts == rest;
    } else {
      var tail := NameTokens(segments[1..]) + rest;
      assert ts == [Dot, IdentifierToken(segments[0])] + tail;
      assert ts[1] == IdentifierToken(segments[0]) && ts[2..] == tail && ts[1..][0] == ts[1];
      DotsParse(name + "." + segments[0], segments[1..], rest);
    }
  }

  lemma NameParses(name: string, rest: seq<Token>)
    requires !Peek(rest).Dot?
    ensures ParseDotted(PrintName(name) + rest) == Some((name, rest))
  {
    var segments := Split(name);
    var ts := PrintName(name) + rest;
    assert ts[1..] == NameTokens(segments[1..]) + rest;
    DotsParse(segments[0], segments[1..], rest);
    SplitJoins(name);
  }

  // ---- Parsing inverts printing ----

  // What may follow an operand of level k: nothing that binds tighter than k.
  predicate Follows(k: nat, rest: seq<Token>) {
    !Peek(rest).Dot? && forall j | k < j < UNARY :: OperatorAt(j, Peek(rest)).None?
  }

  // Climbing from level j down to level k without meeting an operator.
  lemma {:induction false} Climb(k: nat, j: nat, ts: seq<Token>, e: Expr, rest: seq<Token>)
    requires k < j <= UNARY && Follows(k, rest)
    requires if j == UNARY then ParseUnary(ts) == Some((e, rest)) else ParseLevel(j, ts) == ParseTail(j, e, rest)
    ensures ParseLevel(k, ts) == ParseTail(k, e, rest)
    decreases j
  {
    if j < UNARY { assert OperatorAt(j, Peek(rest)).None?; }
    assert ParseLevel(j, ts) == Some((e, rest));
    if j > k + 1 {
      assert ParseLevel(j - 1, ts) == ParseTail(j - 1, e, rest);
      Climb(k, j - 1, ts, e, rest);
    }
  }

  lemma OperatorRoundTrip(op: BinaryOp, l: Expr, r: Expr)
    ensures var k := LevelOf(Binary(op, l, r));
      k < UNARY && OperatorAt(k, OperatorToken(op)) == Some(op) && !OperatorToken(op).Dot?
      && forall j | k < j < UNARY :: OperatorAt(j, OperatorToken(op)).None?
  {
  }

  // An operand that is complete at level k.
  lemma AtLevel(k: nat, ts: seq<Token>, e: Expr, rest: seq<Token>)
    requires k < UNARY && Follows(k, rest) && OperatorAt(k, Peek(rest)).None? && ParseUnary(ts) == Some((e, rest))
    ensures ParseLevel(k, ts) == Some((e, rest))
  {
    Climb(k, UNARY, ts, e, rest);
  }

  lemma PrefixParses(op: UnaryOp, ts: seq<Token>, e: Expr, rest: seq<Token>)
    requires ParseUnary(ts) == Some((e, rest))
    ensures ParseUnary([if op == Not then KwNot else Minus] + ts) == Some((Unary(op, e), rest))
  {
    var all := [if op == Not then KwNot else Minus] + ts;
    assert all[1..] == ts;
  }

  lemma ParenthesesParse(ts: seq<Token>, e: Expr, rest: seq<Token>)
    requires ParseLevel(0, ts) == Some((e, [RParen] + rest))
    ensures ParseUnary([LParen] + ts) == Some((e, rest))
  {
    assert ([LParen] + ts)[1..] == ts && ([RParen] + rest)[1..] == rest;
  }

  lemma NextOperand(k: nat, t: Token, op: BinaryOp, left: Expr, ts: seq<Token>, right: Expr, rest: seq<Token>)
    requires k < UNARY && OperatorAt(k, t) == Some(op) && ParseLevel(k + 1, ts) == Some((right, rest))
    ensures ParseTail(k, left, [t] + ts) == ParseTail(k, Binary(op, left, right), rest)
  {
    assert ([t] + ts)[1..] == ts;
  }

  lemma TagParses(name: string, rest: seq<Token>)
    requires !Peek(rest).Dot?
    ensures ParseUnary(PrintName(name) + rest) == Some((Identifier(name, INVALID_TAG), rest))
  {
    NameParses(name, rest);
  }

  // Printing at level k and parsing at level k leaves exactly the loop of level k.
  lemma {:induction false} PrintedParses(e: Expr, k: nat, rest: seq<Token>)
    requires Printable(e) && k < UNARY && Follows(k, rest)
    ensures ParseLevel(k, Print(e, k) + rest) == ParseTail(k, e, rest)
    decreases e, if e.Binary? && k <= LevelOf(e) then 0 else 1,
              if e.Binary? && k <= LevelOf(e) then LevelOf(e) - k + 1 else UNARY + 1 - k
  {
    var ts := Print(e, k) + rest;
    if LevelOf(e) == k {
      BinaryParses(e, rest);
    } else if k + 1 < UNARY {
      PrintedParses(e, k + 1, rest);
      assert Print(e, k) == Print(e, k + 1);
      Climb(k, k + 1, ts, e, rest);
    } else {
      UnaryParses(e, rest);
      assert Print(e, k) == Print(e, UNARY);
      Climb(k, UNARY, ts, e, rest);
    }
  }

  lemma {:induction false} BinaryParses(e: Expr, rest: seq<Token>)
    requires Printable(e) && e.Binary? && Follows(LevelOf(e), rest)
    ensures ParseLevel(LevelOf(e), PrintBare(e) + rest) == ParseTail(LevelOf(e), e, rest)
    decreases e, 0, 0
  {
    hide ParseLevel, ParseUnary;
    var k, l, r := LevelOf(e), e.lhs, e.rhs;
    OperatorRoundTrip(e.bop, l, r);
    var right := Print(r, k + 1) + rest;
    var mid := [OperatorToken(e.bop)] + right;
    assert PrintBare(e) + rest == Print(l, k) + mid;
    assert Peek(mid) == OperatorToken(e.bop);
    PrintedParses(l, k, mid);
    if k + 1 < UNARY {
      PrintedParses(r, k + 1, rest);
      assert OperatorAt(k + 1, Peek(rest)).None?;
    } else {
      UnaryParses(r, rest);
      TopLevel(right);
    }
    NextOperand(k, OperatorToken(e.bop), e.bop, l, right, r, rest);
  }

  lemma TopLevel(ts: seq<Token>)
    ensures ParseLevel(UNARY, ts) == ParseUnary(ts)
  {
  }

  lemma LiteralParses(v: Value, rest: seq<Token>)
    requires Printable(Literal(v))
    ensures ParseUnary([LiteralToken(v)] + rest) == Some((Literal(v), rest))
  {
    var ts := [LiteralToken(v)] + rest;
    assert ts[1..] == rest && Peek(ts) == LiteralToken(v);
    assert ParseUnary(ts) == ParsePrimary(ts);
  }

  lemma InParentheses(a: seq<Token>, rest: seq<Token>)
    ensures [LParen] + a + [RParen] + rest == [LParen] + (a + ([RParen] + rest))
  {
  }

  lemma UnaryShape(e: Expr, rest: seq<Token>)
    requires Printable(e)
    ensures Print(e, UNARY) + rest == match e
      case Literal(v) => [LiteralToken(v)] + rest
      case Identifier(name, _) => PrintName(name) + rest
      case Unary(op, x) => [if op == Not then KwNot else Minus] + (Print(x, UNARY) + rest)
      case Binary(_, _, _) => [LParen] + (Print(e, 0) + ([RParen] + rest))
  {
    match e
    case Binary(_, _, _) =>
      assert Print(e, 0) == PrintBare(e) && Print(e, UNARY) == [LParen] + PrintBare(e) + [RParen];
      hide *;
      InParentheses(PrintBare(e), rest);
    case Unary(op, x) =>
      var sign := [if op == Not then KwNot else Minus];
      assert Print(e, UNARY) == PrintBare(e) == sign + Print(x, UNARY);
      hide *;
      assert sign + Print(x, UNARY) + rest == sign + (Print(x, UNARY) + rest);
    case _ => assert Print(e, UNARY) == PrintBare(e);
  }

  lemma {:induction false} UnaryParses(e: Expr, rest: seq<Token>)
    requires Printable(e) && !Peek(rest).Dot?
    ensures ParseUnary(Print(e, UNARY) + rest) == Some((e, rest))
    decreases e, 1, 0
  {
    hide ParseLevel, ParseUnary, ParseTail, Print;
    UnaryShape(e, rest);
    match e
    case Literal(v) => LiteralParses(v, rest);
    case Identifier(name, _) => TagParses(name, rest);
    case Unary(op, x) =>
      UnaryParses(x, rest);
      PrefixParses(op, Print(x, UNARY) + rest, x, rest);
    case Binary(_, _, _) =>
      var close := [RParen] + rest;
      PrintedParses(e, 0, close);
      NoOperator(0, e, close);
      ParenthesesParse(Print(e, 0) + close, e, rest);
  }

  lemma LevelUnfolds(k: nat, ts: seq<Token>)
    requires k < UNARY
    ensures var l := ParseLevel(k + 1, ts);
      ParseLevel(k, ts) == if l.None? then None else ParseTail(k, l.value.0, l.value.1)
  {
  }

  lemma TailUnfolds(k: nat, op: BinaryOp, left: Expr, ts: seq<Token>)
    requires k < UNARY && OperatorAt(k, Peek(ts)) == Some(op)
    ensures ts != []
    ensures var r := ParseLevel(k + 1, ts[1..]);
      ParseTail(k, left, ts) == if r.None? then None else ParseTail(k, Binary(op, left, r.value.0), r.value.1)
  {
  }

  lemma NoOperator(k: nat, e: Expr, rest: seq<Token>)
    requires k < UNARY && OperatorAt(k, Peek(rest)).None?
    ensures ParseTail(k, e, rest) == Some((e, rest))
  {
  }

  // A whole expression, whatever follows it that is not an operator or a dot.
  lemma ParsingInvertsPrinting(e: Expr, rest: seq<Token>)
    requires Printable(e) && Follows(0, rest) && OperatorAt(0, Peek(rest)).None?
    ensures ParseLevel(0, Print(e, 0) + rest) == Some((e, rest))
  {
    PrintedParses(e, 0, rest);
  }
}

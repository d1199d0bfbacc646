// The recursive-descent parser (src/st/parser.cpp): a cursor over the tokens that
// never passes the EOF sentinel. Every method is proved to return what the grammar
// (Grammar, Statements, Declarations) says, and to establish what the binder relies on.

module Parser {
  import opened Values
  import opened Ast
  import opened BoundUnit
  import opened Grammar
  import opened Statements
  import opened Declarations

  predicate NamePlain(t: Token) {
    t.IdentifierToken? ==> Plain(t.text) && '.' !in t.text && t.text != ""
  }

  class Parser {
    const tokens: seq<Token>
    var pos: nat

    // The lexer ends its output with the EOF sentinel, and an identifier is a
    // non-empty word of letters, digits and underscores.
    ghost predicate Valid()
      reads this
    {
      && pos < |tokens| && tokens[|tokens| - 1] == EndOfFile
      && forall t | t in tokens :: NamePlain(t)
    }

    constructor (tokens: seq<Token>)
      requires tokens != [] && tokens[|tokens| - 1] == EndOfFile && forall t | t in tokens :: NamePlain(t)
      ensures Valid() && pos == 0 && this.tokens == tokens
    {
      this.tokens, pos := tokens, 0;
    }

    ghost function Rest(): seq<Token>
      requires Valid()
      reads this
    {
      tokens[pos..]
    }

    lemma AtStart()
      requires Valid() && pos == 0
      ensures Rest() == tokens
    {
    }

    // ---- The cursor ----

    function Current(): (t: Token)
      requires Valid()
      reads this
      ensures t == Peek(Rest()) && NamePlain(t)
    {
      assert tokens[pos] in tokens;
      tokens[pos]
    }

    // Moves past one token, but never past the sentinel.
    method Advance() returns (t: Token)
      requires Valid()
      modifies this
      ensures Valid() && t == old(Current())
      ensures if t.EndOfFile? && old(pos) == |tokens| - 1 then pos == old(pos) else pos == old(pos) + 1
      ensures !t.EndOfFile? ==> Rest() == old(Rest())[1..]
    {
      t := Current();
      if pos < |tokens| - 1 { pos := pos + 1; }
    }

    method Match(t: Token) returns (matched: bool)
      requires Valid() && !t.EndOfFile?
      modifies this
      ensures Valid() && matched == (old(Current()) == t)
      ensures if matched then pos == old(pos) + 1 && Rest() == old(Rest())[1..] else pos == old(pos)
      ensures Expect(t, old(Rest())) == if matched then Some(Rest()) else None
    {
      matched := Current() == t;
      if matched { var _ := Advance(); }
    }

    // expect(TokenType::Identifier, ...)
    method ExpectIdentifier() returns (r: Option<string>)
      requires Valid()
      modifies this
      ensures Valid() && (r.Some? <==> old(Current()).IdentifierToken?)
      ensures r.Some? ==> r.value == old(Current()).text && pos == old(pos) + 1 && Rest() == old(Rest())[1..]
      ensures r.Some? ==> Plain(r.value) && '.' !in r.value && r.value != ""
      ensures r.None? ==> pos == old(pos)
      ensures ExpectName(old(Rest())) == if r.Some? then Some((r.value, Rest())) else None
    {
      if !Current().IdentifierToken? { return None; }
      var t := Advance();
      r := Some(t.text);
    }

    // ---- Expressions: each method returns what Grammar says of the tokens left ----

    ghost predicate Yields<T(!new)>(parsed: Parsed<T>, r: Option<T>, start: nat)
      requires Valid()
      reads this
    {
      match parsed
      case None => r.None? && start <= pos
      case Some((x, rest)) => r == Some(x) && Rest() == rest && start < pos
    }

    method ParseDottedIdentifier() returns (r: Option<string>)
      requires Valid()
      modifies this
      ensures Valid() && Yields(ParseDotted(old(Rest())), r, old(pos))
      ensures r.Some? ==> Plain(r.value)
    {
      hide NamePlain, Valid;
      ghost var start := Rest();
      r := ExpectIdentifier();
      if r.None? { return; }
      var name := r.value;
      while Current().Dot?
        invariant Valid() && old(pos) < pos && Plain(name)
        invariant ParseDots(name, Rest()) == ParseDotted(start)
        decreases |tokens| - pos
      {
        var _ := Match(Dot);
        var next := ExpectIdentifier();
        if next.None? { return None; }
        name := name + "." + next.value;
      }
      r := Some(name);
    }

    // parseOr .. parseMultiplicative are one loop each; k tells which.
    method ParseBinary(k: nat) returns (r: Option<Expr>)
      requires Valid() && k <= UNARY
      modifies this
      ensures Valid() && Yields(ParseLevel(k, old(Rest())), r, old(pos))
      ensures r.Some? ==> ExprPlain(r.value)
      decreases |tokens| - pos, UNARY + 1 - k, 0
    {
      hide ParseLevel, ParseTail, ParseUnary;
      ghost var start := Rest();
      if k == UNARY {
        TopLevel(start);
        r := ParseUnaryExpr();
        return;
      }
      LevelUnfolds(k, start);
      r := ParseBinary(k + 1);
      if r.None? { return; }
      var left := r.value;
      var op := OperatorAt(k, Current());
      while op.Some?
        invariant Valid() && old(pos) < pos && op == OperatorAt(k, Current()) && ExprPlain(left)
        invariant ParseTail(k, left, Rest()) == ParseLevel(k, start)
        decreases |tokens| - pos
      {
        TailUnfolds(k, op.value, left, Rest());
        var _ := Advance();
        var right := ParseBinary(k + 1);
        if right.None? { return None; }
        left := Binary(op.value, left, right.value);
        op := OperatorAt(k, Current());
      }
      NoOperator(k, left, Rest());
      r := Some(left);
    }

    method ParseUnaryExpr() returns (r: Option<Expr>)
      requires Valid()
      modifies this
      ensures Valid() && Yields(ParseUnary(old(Rest())), r, old(pos))
      ensures r.Some? ==> ExprPlain(r.value)
      decreases |tokens| - pos, 0, 1
    {
      var t := Current();
      if t.KwNot? || t.Minus? {
        var _ := Advance();
        r := ParseUnaryExpr();
        if r.Some? { r := Some(Unary(if t.KwNot? then Not else Neg, r.value)); }
      } else {
        r := ParsePrimaryExpr();
      }
    }

    method ParsePrimaryExpr() returns (r: Option<Expr>)
      requires Valid()
      modifies this
      ensures Valid() && Yields(ParsePrimary(old(Rest())), r, old(pos))
      ensures r.Some? ==> ExprPlain(r.value)
      decreases |tokens| - pos, 0, 0, 0
    {
      hide ParseLevel, ParseDotted;
      match Current() {
        case IntLiteral(n) =>
          var _ := Advance();
          r := Some(Literal(VDInt(ToInt32(n))));
        case BoolLiteral(b) =>
          var _ := Advance();
          r := Some(Literal(VBool(b)));
        case TimeLiteral(ms) =>
          var _ := Advance();
          r := Some(Literal(VTime(ms)));
        case IdentifierToken(_) =>
          var name := ParseDottedIdentifier();
          r := if name.Some? then Some(Identifier(name.value, INVALID_TAG)) else None;
        case LParen => r := ParseParenthesized();
        case _ => r := None;
      }
    }

    method ParseParenthesized() returns (r: Option<Expr>)
      requires Valid() && Current().LParen?
      modifies this
      ensures Valid() && Yields(ParsePrimary(old(Rest())), r, old(pos))
      ensures r.Some? ==> ExprPlain(r.value)
      decreases |tokens| - pos, 0, -1
    {
      hide ParseLevel, NamePlain, Valid, Rest, Expect;
      var _ := Match(LParen);
      r := ParseBinary(0);
      if r.Some? {
        var closed := Match(RParen);
        if !closed { r := None; }
      }
    }

    method ParseExpression() returns (r: Option<Expr>)
      requires Valid()
      modifies this
      ensures Valid() && Yields(ParseLevel(0, old(Rest())), r, old(pos))
      ensures r.Some? ==> ExprPlain(r.value)
      decreases |tokens| - pos, UNARY + 2
    {
      r := ParseBinary(0);
    }

    // ---- Statements: each method returns what Statements says of the tokens left ----

    ghost predicate Gives<T(!new)>(parsed: Parsed<T>, r: Option<T>)
      requires Valid()
      reads this
    {
      match parsed
      case None => r.None?
      case Some((x, rest)) => r == Some(x) && Rest() == rest
    }

    // Every statement list ends at one of its terminators or fails; a statement always
    // takes at least one token, so the loop cannot stay at the sentinel.
    method ParseStatementList(terminators: set<Token>) returns (r: Option<seq<Stmt>>)
      requires Valid() && EndOfFile !in terminators
      modifies this
      ensures Valid() && pos >= old(pos) && Gives(ParseBlock(terminators, old(Rest())), r)
      ensures r.Some? ==> BlockParsed(r.value) && Current() in terminators
      decreases |tokens| - pos, 10
    {
      hide ParseBlock, ParseStmt, StmtParsed;
      var stmts: seq<Stmt> := [];
      ghost var start := Rest();
      NothingBefore(ParseBlock(terminators, start));
      while Current() !in terminators
        invariant Valid() && pos >= old(pos) && BlockParsed(stmts)
        invariant ParseBlock(terminators, start) == After(stmts, ParseBlock(terminators, Rest()))
        decreases |tokens| - pos
      {
        BlockUnfolds(terminators, Rest(), stmts);
        var st := ParseStatement();
        if st.None? { return None; }
        SkipSemicolonTokens();
        stmts := stmts + [st.value];
      }
      BlockEnds(terminators, Rest());
      assert stmts + [] == stmts;
      r := Some(stmts);
    }

    method SkipSemicolonTokens()
      requires Valid()
      modifies this
      ensures Valid() && pos >= old(pos) && Rest() == SkipSemicolons(old(Rest()))
    {
      var more := Match(Semicolon);
      while more
        invariant Valid() && pos >= old(pos)
        invariant SkipSemicolons(old(Rest())) == if more then SkipSemicolons(Rest()) else Rest()
        decreases |tokens| - pos, more
      {
        more := Match(Semicolon);
      }
    }

    method ParseStatement() returns (r: Option<Stmt>)
      requires Valid()
      modifies this
      ensures Valid() && pos >= old(pos) && Gives(ParseStmt(old(Rest())), r)
      ensures r.Some? ==> StmtParsed(r.value) && pos > old(pos)
      decreases |tokens| - pos, 9
    {
      hide ParseIf, ParseWhile, ParseRung, ParseAssignOrCall;
      match Current() {
        case KwIf => r := ParseIfStatement();
        case KwWhile => r := ParseWhileStatement();
        case KwRung => r := ParseRungStatement();
        case IdentifierToken(_) => r := ParseAssignOrCallStatement();
        case _ => r := None;
      }
    }

    method ParseIfStatement() returns (r: Option<Stmt>)
      requires Valid() && Current().KwIf?
      modifies this
      ensures Valid() && pos >= old(pos) && Gives(ParseIf(old(Rest())[1..]), r)
      ensures r.Some? ==> StmtParsed(r.value) && pos > old(pos)
      decreases |tokens| - pos, 8
    {
      hide ParseBranch, ParseElsifs, ParseElse, BlockParsed;
      var _ := Match(KwIf);
      var first := ParseIfBranch();
      if first.None? { return None; }
      var more := ParseElsifBranches();
      if more.None? { return None; }
      var elseBody := ParseElseBody();
      if elseBody.None? { return None; }
      var closed := Match(KwEndIf);
      r := if closed then Some(If([first.value] + more.value, elseBody.value)) else None;
    }

    method ParseElsifBranches() returns (r: Option<seq<IfBranch>>)
      requires Valid()
      modifies this
      ensures Valid() && pos >= old(pos) && Gives(ParseElsifs(old(Rest())), r)
      ensures r.Some? ==> forall b | b in r.value :: ExprPlain(b.condition) && BlockParsed(b.body)
      decreases |tokens| - pos, UNARY + 6
    {
      hide ParseElsifs, ParseBranch, BlockParsed;
      var branches: seq<IfBranch> := [];
      ghost var start := Rest();
      NothingBefore(ParseElsifs(start));
      ElsifsUnfold(start, []);
      var more := Match(KwElsif);
      while more
        invariant Valid() && pos >= old(pos) && (more ==> pos > old(pos))
        invariant forall b | b in branches :: ExprPlain(b.condition) && BlockParsed(b.body)
        invariant ParseElsifs(start) == if more then AfterBranch(branches, Rest()) else Some((branches, Rest()))
        decreases |tokens| - pos, more
      {
        var branch := ParseIfBranch();
        if branch.None? { return None; }
        branches := branches + [branch.value];
        ElsifsUnfold(Rest(), branches);
        more := Match(KwElsif);
      }
      r := Some(branches);
    }

    method ParseElseBody() returns (r: Option<seq<Stmt>>)
      requires Valid()
      modifies this
      ensures Valid() && pos >= old(pos) && Gives(ParseElse(old(Rest())), r)
      ensures r.Some? ==> BlockParsed(r.value)
      decreases |tokens| - pos, 11
    {
      hide ParseBlock;
      var hasElse := Match(KwElse);
      if !hasElse { return Some([]); }
      r := ParseStatementList({KwEndIf});
    }

    method ParseIfBranch() returns (r: Option<IfBranch>)
      requires Valid()
      modifies this
      ensures Valid() && pos >= old(pos) && Gives(ParseBranch(old(Rest())), r)
      ensures r.Some? ==> ExprPlain(r.value.condition) && BlockParsed(r.value.body) && pos > old(pos)
      decreases |tokens| - pos, UNARY + 5
    {
      hide ParseLevel, ParseBlock, BlockParsed;
      var condition := ParseExpression();
      if condition.None? { return None; }
      var then_ := Match(KwThen);
      if !then_ { return None; }
      var body := ParseStatementList(BRANCH_ENDS);
      if body.None? { return None; }
      r := Some(IfBranch(condition.value, body.value));
    }

    method ParseWhileStatement() returns (r: Option<Stmt>)
      requires Valid() && Current().KwWhile?
      modifies this
      ensures Valid() && pos >= old(pos) && Gives(ParseWhile(old(Rest())[1..]), r)
      ensures r.Some? ==> StmtParsed(r.value) && pos > old(pos)
      decreases |tokens| - pos, 8
    {
      hide ParseLevel, ParseBlock, BlockParsed;
      var _ := Match(KwWhile);
      var condition := ParseExpression();
      if condition.None? { return None; }
      var do_ := Match(KwDo);
      if !do_ { return None; }
      var body := ParseStatementList({KwEndWhile});
      if body.None? { return None; }
      var closed := Match(KwEndWhile);
      r := if closed then Some(While(condition.value, body.value)) else None;
    }

    method ParseRungStatement() returns (r: Option<Stmt>)
      requires Valid() && Current().KwRung?
      modifies this
      ensures Valid() && pos >= old(pos) && Gives(ParseRung(old(Rest())[1..]), r)
      ensures r.Some? ==> StmtParsed(r.value) && pos > old(pos)
      decreases |tokens| - pos, 8
    {
      hide ParseLevel, ParseOutputs, Valid, Rest, Peek, Current, NamePlain;
      var _ := Match(KwRung);
      var condition := ParseExpression();
      if condition.None? { return None; }
      var arrow := Match(RArrow);
      if !arrow { return None; }
      var outputs := ParseRungOutputs();
      if outputs.None? { return None; }
      var closed := Match(Semicolon);
      r := if closed then Some(Rung(condition.value, outputs.value)) else None;
    }

    method ParseRungOutputs() returns (r: Option<seq<RungOutput>>)
      requires Valid()
      modifies this
      ensures Valid() && pos >= old(pos) && Gives(ParseOutputs(old(Rest())), r)
      ensures r.Some? ==> forall o | o in r.value :: Plain(o.targetName)
    {
      hide ParseOutputs, ParseOutput;
      ghost var start := Rest();
      NothingBefore(ParseOutputs(start));
      OutputsUnfold(start, []);
      var first := ParseRungOutput();
      if first.None? { return None; }
      var outputs := [first.value];
      assert [] + outputs == outputs;
      var more := Match(Comma);
      while more
        invariant Valid() && pos >= old(pos) && forall o | o in outputs :: Plain(o.targetName)
        invariant ParseOutputs(start) == if more then After(outputs, ParseOutputs(Rest())) else Some((outputs, Rest()))
        decreases |tokens| - pos, more
      {
        OutputsUnfold(Rest(), outputs);
        var next := ParseRungOutput();
        if next.None? { return None; }
        outputs := outputs + [next.value];
        more := Match(Comma);
      }
      r := Some(outputs);
    }

    method ParseRungOutput() returns (r: Option<RungOutput>)
      requires Valid()
      modifies this
      ensures Valid() && pos >= old(pos) && Gives(ParseOutput(old(Rest())), r)
      ensures r.Some? ==> Plain(r.value.targetName)
    {
      hide ParseDotted;
      var kind := Direct;
      var set_ := Match(KwSet);
      if set_ {
        kind := Set;
      } else {
        var reset := Match(KwReset);
        if reset { kind := Reset; }
      }
      var target := ParseDottedIdentifier();
      r := if target.Some? then Some(RungOutput(kind, target.value, INVALID_TAG)) else None;
    }

    method ParseAssignOrCallStatement() returns (r: Option<Stmt>)
      requires Valid()
      modifies this
      ensures Valid() && pos >= old(pos) && Gives(ParseAssignOrCall(old(Rest())), r)
      ensures r.Some? ==> StmtParsed(r.value) && pos > old(pos)
      decreases |tokens| - pos, 8
    {
      hide ParseDotted, ParseLevel, ParseCallRest;
      var name := ParseDottedIdentifier();
      if name.None? { return None; }
      var isCall := Match(LParen);
      if isCall {
        r := ParseCallStatementRest(name.value);
        return;
      }
      var assign := Match(AssignToken);
      if !assign { return None; }
      var value := ParseExpression();
      if value.None? { return None; }
      var closed := Match(Semicolon);
      r := if closed then Some(Assign(name.value, INVALID_TAG, value.value)) else None;
    }

    method ParseCallStatementRest(callee: string) returns (r: Option<Stmt>)
      requires Valid()
      modifies this
      ensures Valid() && pos >= old(pos) && Gives(ParseCallRest(callee, old(Rest())), r)
      ensures r.Some? ==> StmtParsed(r.value)
      decreases |tokens| - pos, 7
    {
      hide ParseArgs, NamePlain, Expect, Peek, Current, Valid, Rest;
      var args: seq<CallArg> := [];
      if !Current().RParen? {
        var given := ParseCallArgs();
        if given.None? { return None; }
        args := given.value;
      }
      var closed := Match(RParen);
      if !closed { return None; }
      var ended := Match(Semicolon);
      r := if ended then Some(Call(callee, args, INVALID_FRAME)) else None;
    }

    method ParseCallArgs() returns (r: Option<seq<CallArg>>)
      requires Valid()
      modifies this
      ensures Valid() && pos >= old(pos) && Gives(ParseArgs(old(Rest())), r)
      ensures r.Some? ==> forall a | a in r.value :: ArgParsed(a)
    {
      hide ParseArgs, ParseArg, ArgParsed;
      ghost var start := Rest();
      NothingBefore(ParseArgs(start));
      ArgsUnfold(start, []);
      var first := ParseCallArg();
      if first.None? { return None; }
      var args := [first.value];
      assert [] + args == args;
      var more := Match(Comma);
      while more
        invariant Valid() && pos >= old(pos) && forall a | a in args :: ArgParsed(a)
        invariant ParseArgs(start) == if more then After(args, ParseArgs(Rest())) else Some((args, Rest()))
        decreases |tokens| - pos, more
      {
        ArgsUnfold(Rest(), args);
        var next := ParseCallArg();
        if next.None? { return None; }
        args := args + [next.value];
        more := Match(Comma);
      }
      r := Some(args);
    }

    method ParseCallArg() returns (r: Option<CallArg>)
      requires Valid()
      modifies this
      ensures Valid() && pos >= old(pos) && Gives(ParseArg(old(Rest())), r)
      ensures r.Some? ==> ArgParsed(r.value) && pos > old(pos)
    {
      hide ParseLevel, ParseDotted, Expect, ExpectName, NamePlain, Valid;
      ghost var start := Rest();
      var name := ExpectIdentifier();
      if name.None? { return None; }
      assert start[1..][1..] == start[2..];
      var input := Match(AssignToken);
      if input {
        var value := ParseExpression();
        return if value.Some? then Some(InputArg(name.value, value.value, INVALID_TAG)) else None;
      }
      var output := Match(RArrow);
      if !output { return None; }
      var target := ParseDottedIdentifier();
      r := if target.Some? then Some(OutputArg(name.value, target.value, INVALID_TAG, INVALID_TAG)) else None;
    }

    // ---- Declarations ----

    method TryParseElementaryType() returns (t: Option<TypeId>)
      requires Valid()
      modifies this
      ensures Valid() && pos >= old(pos) && t == ElementaryType(old(Current()))
      ensures Rest() == if t.Some? then old(Rest())[1..] else old(Rest())
    {
      t := ElementaryType(Current());
      if t.Some? { var _ := Advance(); }
    }

    method ParseLiteralValue(declared: TypeId) returns (r: Option<Value>)
      requires Valid()
      modifies this
      ensures Valid() && pos >= old(pos) && Gives(ParseLiteral(declared, old(Rest())), r)
    {
      hide NegateLiteral, LiteralOf, NamePlain;
      var negative := Match(Minus);
      r := ParseUnsignedLiteral(declared);
      if r.None? { return; }
      if negative { r := NegateLiteral(r.value); }
    }

    method ParseUnsignedLiteral(declared: TypeId) returns (r: Option<Value>)
      requires Valid()
      modifies this
      ensures Valid() && pos >= old(pos) && r == LiteralOf(declared, old(Current()))
      ensures r.Some? ==> Rest() == old(Rest())[1..]
    {
      hide CastLiteral, NamePlain;
      var t := Advance();
      match t {
        case IntLiteral(n) =>
          if !IsNumeric(declared) { return None; }
          r := Some(CastLiteral(n, declared));
        case BoolLiteral(b) =>
          if declared != Bool { return None; }
          r := Some(VBool(b));
        case TimeLiteral(ms) =>
          if declared != Time { return None; }
          r := Some(VTime(ms));
        case _ => return None;
      }
    }

    method ParseVarBlock(context: VarBlockContext) returns (r: Option<seq<VarDecl>>)
      requires Valid()
      modifies this
      ensures Valid() && pos >= old(pos) && Gives(ParseVars(context, old(Rest())), r)
      ensures r.Some? ==> DeclsParsed(r.value) && pos > old(pos)
      ensures r.Some? && context == InFunction ==> forall d | d in r.value :: d.kind != Var
    {
      hide ParseDecls, DeclsParsed, KindOf, NamePlain;
      var opening := ParseVarKind();
      if opening.None? { return None; }
      var kind := opening.value;
      if context == InFunction && kind == Var { return None; }
      r := ParseVarDecls(kind, context);
    }

    // VAR, VAR_INPUT, VAR_OUTPUT or VAR_TEMP.
    method ParseVarKind() returns (r: Option<VarKind>)
      requires Valid()
      modifies this
      ensures Valid() && pos >= old(pos) && r == KindOf(old(Current()))
      ensures r.Some? ==> pos > old(pos) && Rest() == old(Rest())[1..]
    {
      hide NamePlain;
      match Current() {
        case KwVar => r := Some(Var);
        case KwVarInput => r := Some(VarInput);
        case KwVarOutput => r := Some(VarOutput);
        case KwVarTemp => r := Some(VarTemp);
        case _ => return None;
      }
      var _ := Advance();
    }

    // The declarations of a block, up to its END_VAR.
    method ParseVarDecls(kind: VarKind, context: VarBlockContext) returns (r: Option<seq<VarDecl>>)
      requires Valid()
      modifies this
      ensures Valid() && pos >= old(pos) && Gives(ParseDecls(kind, context, old(Rest())), r)
      ensures r.Some? ==> DeclsParsed(r.value) && forall d | d in r.value :: d.kind == kind
    {
      hide ParseDecls, ParseDecl, DeclParsed, NamePlain;
      var decls: seq<VarDecl> := [];
      ghost var start := Rest();
      NothingBefore(ParseDecls(kind, context, start));
      while !Current().KwEndVar?
        invariant Valid() && pos >= old(pos) && DeclsParsed(decls) && forall d | d in decls :: d.kind == kind
        invariant ParseDecls(kind, context, start) == After(decls, ParseDecls(kind, context, Rest()))
        decreases |tokens| - pos
      {
        DeclsUnfold(kind, context, Rest(), decls);
        var decl := ParseVarDecl(kind, context);
        if decl.None? { return None; }
        decls := decls + [decl.value];
      }
      DeclsEnd(kind, context, Rest(), decls);
      var _ := Match(KwEndVar);
      r := Some(decls);
    }

    // AT and a direct address, if there is one.
    method ParseAtClause() returns (r: Option<Option<Address>>)
      requires Valid()
      modifies this
      ensures Valid() && pos >= old(pos) && Gives(ParseAt(old(Rest())), r)
    {
      hide NamePlain;
      ghost var start := Rest();
      var at := Match(KwAt);
      if !at { return Some(None); }
      assert start[1..][1..] == start[2..];
      if !Current().AddressLiteral? { return None; }
      var t := Advance();
      r := Some(Some(Address(t.area, t.byteOffset, t.bitOffset)));
    }

    method ParseVarDecl(kind: VarKind, context: VarBlockContext) returns (r: Option<VarDecl>)
      requires Valid()
      modifies this
      ensures Valid() && pos >= old(pos) && Gives(ParseDecl(kind, context, old(Rest())), r)
      ensures r.Some? ==> DeclParsed(r.value) && r.value.kind == kind && pos > old(pos)
    {
      hide ParseAt, ParseTyped, Expect, ExpectName, NamePlain, Current, Valid, Rest;
      var name := ExpectIdentifier();
      if name.None? { return None; }
      var address := ParseAtClause();
      if address.None? { return None; }
      var colon := Match(Colon);
      if !colon { return None; }
      r := ParseDeclaredType(VarDecl(name.value, kind, None, None, address.value, None), context);
    }

    method ParseDeclaredType(d: VarDecl, context: VarBlockContext) returns (r: Option<VarDecl>)
      requires Valid() && Plain(d.name) && d.name != "" && '.' !in d.name && d.elementaryType.None? && d.initialValue.None?
      modifies this
      ensures Valid() && pos >= old(pos) && Gives(ParseTyped(d, context, old(Rest())), r)
      ensures r.Some? ==> DeclParsed(r.value) && r.value.kind == d.kind
    {
      hide ParseInitial, NamePlain;
      var elementary := TryParseElementaryType();
      var instanceOf: Option<string>, initial: Option<Value> := None, None;
      if elementary.Some? {
        var given := ParseInitialValue(elementary.value);
        if given.None? { return None; }
        initial := given.value;
      } else {
        if !InstancesAllowed(context, d.kind) { return None; }
        instanceOf := ExpectIdentifier();
        if instanceOf.None? { return None; }
      }
      var closed := Match(Semicolon);
      if !closed { return None; }
      r := Some(d.(elementaryType := elementary, initialValue := initial));
      if elementary.None? { r := Some(d.(instanceOfType := instanceOf)); }
    }

    method ParseInitialValue(declared: TypeId) returns (r: Option<Option<Value>>)
      requires Valid()
      modifies this
      ensures Valid() && pos >= old(pos) && Gives(ParseInitial(declared, old(Rest())), r)
      ensures r.Some? && r.value.Some? ==> TypeOf(r.value.value) == declared
    {
      hide ParseLiteral, NamePlain;
      var hasInitial := Match(AssignToken);
      if !hasInitial { return Some(None); }
      var initial := ParseLiteralValue(declared);
      if initial.None? { return None; }
      r := Some(initial);
    }

    // The VAR blocks before a body.
    method ParseVarBlockList(context: VarBlockContext) returns (r: Option<seq<VarDecl>>)
      requires Valid()
      modifies this
      ensures Valid() && pos >= old(pos) && Gives(ParseVarBlocks(context, old(Rest())), r)
      ensures r.Some? ==> DeclsParsed(r.value)
      ensures r.Some? && context == InFunction ==> forall d | d in r.value :: d.kind != Var
    {
      hide ParseVarBlocks, ParseVars, DeclParsed, Opens, NamePlain;
      var decls: seq<VarDecl> := [];
      ghost var start := Rest();
      NothingBefore(ParseVarBlocks(context, start));
      while Opens(context, Current())
        invariant Valid() && pos >= old(pos) && DeclsParsed(decls)
        invariant context == InFunction ==> forall d | d in decls :: d.kind != Var
        invariant ParseVarBlocks(context, start) == After(decls, ParseVarBlocks(context, Rest()))
        decreases |tokens| - pos
      {
        VarBlocksUnfold(context, Rest(), decls);
        var more := ParseVarBlock(context);
        if more.None? { return None; }
        decls := decls + more.value;
      }
      VarBlocksEnd(context, Rest(), decls);
      r := Some(decls);
    }

    // ---- Program organisation units ----

    method ParsePouDef(isFunction: bool) returns (r: Option<Pou>)
      requires Valid()
      modifies this
      ensures Valid() && pos >= old(pos) && Gives(ParsePou(isFunction, old(Rest())), r)
      ensures r.Some? ==> PouParsed(r.value) && pos > old(pos)
    {
      hide ParseVarBlocks, ParseBlock, DeclsParsed, BlockParsed, NamePlain, Expect, ExpectName, Peek, Current, Valid, Rest, Plain;
      var keyword := Match(PouKeyword(isFunction));
      if !keyword { return None; }
      var name := ExpectIdentifier();
      if name.None? { return None; }
      var decls := ParseVarBlockList(if isFunction then InFunction else InFunctionBlock);
      if decls.None? { return None; }
      var end := PouEnd(isFunction);
      var body := ParseStatementList({end});
      if body.None? { return None; }
      var closed := Match(end);
      r := if closed then Some(Pou(name.value, isFunction, decls.value, body.value)) else None;
    }

    method ParseDataBlockDef() returns (r: Option<DataBlock>)
      requires Valid()
      modifies this
      ensures Valid() && pos >= old(pos) && Gives(ParseDb(old(Rest())), r)
      ensures r.Some? ==> DeclsParsed(r.value.varDecls) && pos > old(pos)
    {
      hide ParseVarBlocks, DeclsParsed;
      var keyword := Match(KwDataBlock);
      if !keyword { return None; }
      var name := ExpectIdentifier();
      if name.None? { return None; }
      var decls := ParseVarBlockList(InDataBlock);
      if decls.None? { return None; }
      var closed := Match(KwEndDataBlock);
      r := if closed then Some(DataBlock(name.value, decls.value)) else None;
    }

    method ParseProgram() returns (r: Option<(seq<VarDecl>, seq<Stmt>)>)
      requires Valid()
      modifies this
      ensures Valid() && pos >= old(pos) && Gives(ParseMain(old(Rest())), r)
      ensures r.Some? ==> DeclsParsed(r.value.0) && BlockParsed(r.value.1) && pos > old(pos)
    {
      hide ParseVarBlocks, ParseBlock, DeclsParsed, BlockParsed;
      var keyword := Match(KwProgram);
      if !keyword { return None; }
      var name := ExpectIdentifier();
      if name.None? { return None; }
      var decls := ParseVarBlockList(InProgram);
      if decls.None? { return None; }
      var body := ParseStatementList({KwEndProgram});
      if body.None? { return None; }
      var closed := Match(KwEndProgram);
      r := if closed then Some((decls.value, body.value)) else None;
    }

    // What a unit's parts must meet, whatever comes after them.
    ghost predicate PartsParsed(u: Parts) {
      && (forall p | p in u.pous :: PouParsed(p)) && (forall db | db in u.dataBlocks :: DeclsParsed(db.varDecls))
      && (u.main.Some? ==> DeclsParsed(u.main.value.0) && BlockParsed(u.main.value.1))
    }

    // A unit is parsed to its end and has exactly one PROGRAM. Whatever parses meets
    // the binder's requirements.
    method ParseCompilationUnit() returns (r: Option<CompilationUnit>)
      requires Valid()
      modifies this
      ensures Valid() && r == ParseUnit(NOTHING, old(Rest()))
      ensures r.Some? ==> UnitParsed(r.value) && Current().EndOfFile?
    {
      hide ParsePou, ParseDb, ParseMain, PouParsed, DeclsParsed, BlockParsed, NamePlain, Peek;
      var u := NOTHING;
      while !Current().EndOfFile?
        invariant Valid() && PartsParsed(u) && ParseUnit(NOTHING, old(Rest())) == ParseUnit(u, Rest())
        decreases |tokens| - pos
      {
        if Current().KwFunctionBlock? || Current().KwFunction? {
          var pou := ParsePouDef(Current().KwFunction?);
          if pou.None? { return None; }
          u := u.(pous := u.pous + [pou.value]);
        } else if Current().KwDataBlock? {
          var db := ParseDataBlockDef();
          if db.None? { return None; }
          u := u.(dataBlocks := u.dataBlocks + [db.value]);
        } else if Current().KwProgram? && u.main.None? {
          var main := ParseProgram();
          if main.None? { return None; }
          u := u.(main := main);
        } else {
          return None;
        }
      }
      r := if u.main.Some? then Some(CompilationUnit(u.pous, u.dataBlocks, u.main.value.0, u.main.value.1)) else None;
    }

    method ParsePouLibrary() returns (r: Option<seq<Pou>>)
      requires Valid()
      modifies this
      ensures Valid() && r == ParseLibrary([], old(Rest()))
      ensures r.Some? ==> Current().EndOfFile? && forall p | p in r.value :: PouParsed(p)
    {
      hide ParsePou, PouParsed, NamePlain, Peek;
      var pous: seq<Pou> := [];
      while !Current().EndOfFile?
        invariant Valid() && (forall p | p in pous :: PouParsed(p)) && ParseLibrary([], old(Rest())) == ParseLibrary(pous, Rest())
        decreases |tokens| - pos
      {
        if !Current().KwFunctionBlock? && !Current().KwFunction? { return None; }
        var pou := ParsePouDef(Current().KwFunction?);
        if pou.None? { return None; }
        pous := pous + [pou.value];
      }
      r := Some(pous);
    }
  }
}

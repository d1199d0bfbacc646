// Declarations, program organisation units and whole compilation units
// (src/st/parser.cpp:60-306): the grammar, its printed form, and that parsing inverts
// printing.

module Declarations {
  import opened Values
  import opened Ast
  import opened BoundUnit
  import opened Grammar
  import opened Statements

  datatype VarBlockContext = InProgram | InFunctionBlock | InFunction | InDataBlock

  // ---- Initial values ----

  // static_cast of a literal to the declared type.
  function CastLiteral(n: int, t: TypeId): Value
    requires IsNumeric(t)
  {
    match t
    case Byte => VByte(n % 0x100)
    case Int => VInt(if n % 0x1_0000 >= 0x8000 then n % 0x1_0000 - 0x1_0000 else n % 0x1_0000)
    case DInt => VDInt(if n % 0x1_0000_0000 >= 0x8000_0000 then n % 0x1_0000_0000 - 0x1_0000_0000 else n % 0x1_0000_0000)
  }

  // negateLiteral; None where the source throws.
  function NegateLiteral(v: Value): Option<Value> {
    match v
    case VBool(_) => None
    case VTime(ms) => if ms == -0x8000_0000_0000_0000 then Some(v) else Some(VTime(-(ms as int)))
    case _ => Some(CastLiteral(-AsInt(v), TypeOf(v)))
  }

  function LiteralOf(declared: TypeId, t: Token): (r: Option<Value>)
    ensures r.Some? ==> !t.EndOfFile? && TypeOf(r.value) == declared
  {
    match t
    case IntLiteral(n) => if IsNumeric(declared) then Some(CastLiteral(n, declared)) else None
    case BoolLiteral(b) => if declared == Bool then Some(VBool(b)) else None
    case TimeLiteral(ms) => if declared == Time then Some(VTime(ms)) else None
    case _ => None
  }

  // A literal initializer has the declared type, whatever the literal.
  function ParseLiteral(declared: TypeId, ts: seq<Token>): (r: Parsed<Value>)
    ensures r.Some? ==> |r.value.1| < |ts| && TypeOf(r.value.0) == declared
  {
    var negative := Peek(ts).Minus?;
    var literal := if negative then ts[1..] else ts;
    var v :- LiteralOf(declared, Peek(literal));
    var signed :- if negative then NegateLiteral(v) else Some(v);
    Some((signed, literal[1..]))
  }

  // ---- Variables ----

  function KindOf(t: Token): Option<VarKind> {
    match t
    case KwVar => Some(Var)
    case KwVarInput => Some(VarInput)
    case KwVarOutput => Some(VarOutput)
    case KwVarTemp => Some(VarTemp)
    case _ => None
  }

  function ElementaryType(t: Token): Option<TypeId> {
    match t
    case KwBool => Some(Bool)
    case KwByte => Some(Byte)
    case KwInt => Some(Int)
    case KwDint => Some(DInt)
    case KwTime => Some(Time)
    case _ => None
  }

  predicate InstancesAllowed(context: VarBlockContext, kind: VarKind) {
    (context == InProgram || context == InFunctionBlock) && kind == Var
  }

  function ParseAt(ts: seq<Token>): (r: Parsed<Option<Address>>)
    ensures r.Some? ==> |r.value.1| <= |ts|
  {
    if !Peek(ts).KwAt? then Some((None, ts))
    else if !Peek(ts[1..]).AddressLiteral? then None
    else Some((Some(Address(ts[1].area, ts[1].byteOffset, ts[1].bitOffset)), ts[2..]))
  }

  function ParseInitial(declared: TypeId, ts: seq<Token>): (r: Parsed<Option<Value>>)
    ensures r.Some? ==> |r.value.1| <= |ts|
  {
    if !Peek(ts).AssignToken? then Some((None, ts))
    else
      var (v, rest) :- ParseLiteral(declared, ts[1..]);
      Some((Some(v), rest))
  }

  function ParseDecl(kind: VarKind, context: VarBlockContext, ts: seq<Token>): (r: Parsed<VarDecl>)
    ensures r.Some? ==> |r.value.1| < |ts|
  {
    if !Peek(ts).IdentifierToken? then None
    else
      var (address, r1) :- ParseAt(ts[1..]);
      var r2 :- Expect(Colon, r1);
      ParseTyped(VarDecl(ts[0].text, kind, None, None, address, None), context, r2)
  }

  // An elementary type with its initial value, or an instance of a function block.
  function ParseTyped(d: VarDecl, context: VarBlockContext, ts: seq<Token>): (r: Parsed<VarDecl>)
    ensures r.Some? ==> |r.value.1| < |ts|
  {
    var t := ElementaryType(Peek(ts));
    if t.Some? then
      var (initial, r1) :- ParseInitial(t.value, ts[1..]);
      var r2 :- Expect(Semicolon, r1);
      Some((d.(elementaryType := t, initialValue := initial), r2))
    else if InstancesAllowed(context, d.kind) && Peek(ts).IdentifierToken? then
      var r2 :- Expect(Semicolon, ts[1..]);
      Some((d.(instanceOfType := Some(ts[0].text)), r2))
    else None
  }

  // Up to END_VAR.
  function ParseDecls(kind: VarKind, context: VarBlockContext, ts: seq<Token>): (r: Parsed<seq<VarDecl>>)
    ensures r.Some? ==> |r.value.1| < |ts|
    decreases |ts|
  {
    if Peek(ts).KwEndVar? then Some(([], ts[1..]))
    else
      var (d, r1) :- ParseDecl(kind, context, ts);
      var (more, r2) :- ParseDecls(kind, context, r1);
      Some(([d] + more, r2))
  }

  function ParseVars(context: VarBlockContext, ts: seq<Token>): (r: Parsed<seq<VarDecl>>)
    ensures r.Some? ==> |r.value.1| < |ts|
  {
    var kind :- KindOf(Peek(ts));
    if context == InFunction && kind == Var then None else ParseDecls(kind, context, ts[1..])
  }

  // Which keywords open a variable block there.
  predicate Opens(context: VarBlockContext, t: Token) {
    t.KwVar? || (context != InDataBlock && (t.KwVarInput? || t.KwVarOutput?))
    || ((context == InFunction || context == InFunctionBlock) && t.KwVarTemp?)
  }

  function ParseVarBlocks(context: VarBlockContext, ts: seq<Token>): (r: Parsed<seq<VarDecl>>)
    ensures r.Some? ==> |r.value.1| <= |ts|
    decreases |ts|
  {
    if !Opens(context, Peek(ts)) then Some(([], ts))
    else
      var (ds, r1) :- ParseVars(context, ts);
      var (more, r2) :- ParseVarBlocks(context, r1);
      Some((ds + more, r2))
  }

  // ---- Units ----

  function ExpectName(ts: seq<Token>): (r: Parsed<string>)
    ensures r.Some? ==> |r.value.1| < |ts|
  {
    if Peek(ts).IdentifierToken? then Some((ts[0].text, ts[1..])) else None
  }

  function PouKeyword(isFunction: bool): Token { if isFunction then KwFunction else KwFunctionBlock }
  function PouEnd(isFunction: bool): Token { if isFunction then KwEndFunction else KwEndFunctionBlock }

  function ParsePou(isFunction: bool, ts: seq<Token>): (r: Parsed<Pou>)
    ensures r.Some? ==> |r.value.1| < |ts|
  {
    var r1 :- Expect(PouKeyword(isFunction), ts);
    var (name, r2) :- ExpectName(r1);
    var (decls, r3) :- ParseVarBlocks(if isFunction then InFunction else InFunctionBlock, r2);
    var (body, r4) :- ParseBlock({PouEnd(isFunction)}, r3);
    var r5 :- Expect(PouEnd(isFunction), r4);
    Some((Pou(name, isFunction, decls, body), r5))
  }

  function ParseDb(ts: seq<Token>): (r: Parsed<DataBlock>)
    ensures r.Some? ==> |r.value.1| < |ts|
  {
    var r1 :- Expect(KwDataBlock, ts);
    var (name, r2) :- ExpectName(r1);
    var (decls, r3) :- ParseVarBlocks(InDataBlock, r2);
    var r4 :- Expect(KwEndDataBlock, r3);
    Some((DataBlock(name, decls), r4))
  }

  // The program's declarations and body; nothing refers to its name.
  function ParseMain(ts: seq<Token>): (r: Parsed<(seq<VarDecl>, seq<Stmt>)>)
    ensures r.Some? ==> |r.value.1| < |ts|
  {
    var r1 :- Expect(KwProgram, ts);
    var (name, r2) :- ExpectName(r1);
    var (decls, r3) :- ParseVarBlocks(InProgram, r2);
    var (body, r4) :- ParseBlock({KwEndProgram}, r3);
    var r5 :- Expect(KwEndProgram, r4);
    Some(((decls, body), r5))
  }

  // What has been parsed of a unit so far.
  datatype Parts = Parts(pous: seq<Pou>, dataBlocks: seq<DataBlock>, main: Option<(seq<VarDecl>, seq<Stmt>)>)

  const NOTHING: Parts := Parts([], [], None)

  function ParseUnit(u: Parts, ts: seq<Token>): Option<CompilationUnit>
    decreases |ts|
  {
    match Peek(ts)
    case EndOfFile =>
      var main :- u.main;
      Some(CompilationUnit(u.pous, u.dataBlocks, main.0, main.1))
    case KwFunctionBlock =>
      var (pou, rest) :- ParsePou(false, ts);
      ParseUnit(u.(pous := u.pous + [pou]), rest)
    case KwFunction =>
      var (pou, rest) :- ParsePou(true, ts);
      ParseUnit(u.(pous := u.pous + [pou]), rest)
    case KwDataBlock =>
      var (db, rest) :- ParseDb(ts);
      ParseUnit(u.(dataBlocks := u.dataBlocks + [db]), rest)
    case KwProgram =>
      if u.main.Some? then None
      else
        var (main, rest) :- ParseMain(ts);
        ParseUnit(u.(main := Some(main)), rest)
    case _ => None
  }

  // A library: nothing but FUNCTION_BLOCKs and FUNCTIONs.
  function ParseLibrary(done: seq<Pou>, ts: seq<Token>): Option<seq<Pou>>
    decreases |ts|
  {
    match Peek(ts)
    case EndOfFile => Some(done)
    case KwFunctionBlock =>
      var (pou, rest) :- ParsePou(false, ts);
      ParseLibrary(done + [pou], rest)
    case KwFunction =>
      var (pou, rest) :- ParsePou(true, ts);
      ParseLibrary(done + [pou], rest)
    case _ => None
  }

  // ---- Loops over the grammar ----

  function AfterDecl(kind: VarKind, context: VarBlockContext, done: seq<VarDecl>, ts: seq<Token>): Parsed<seq<VarDecl>> {
    var (d, rest) :- ParseDecl(kind, context, ts);
    After(done + [d], ParseDecls(kind, context, rest))
  }

  lemma DeclsUnfold(kind: VarKind, context: VarBlockContext, ts: seq<Token>, done: seq<VarDecl>)
    requires !Peek(ts).KwEndVar?
    ensures After(done, ParseDecls(kind, context, ts)) == AfterDecl(kind, context, done, ts)
  {
    var d := ParseDecl(kind, context, ts);
    if d.Some? { AfterOneMore(done, d.value.0, ParseDecls(kind, context, d.value.1)); }
  }

  lemma DeclsEnd(kind: VarKind, context: VarBlockContext, ts: seq<Token>, done: seq<VarDecl>)
    requires Peek(ts).KwEndVar?
    ensures After(done, ParseDecls(kind, context, ts)) == Some((done, ts[1..]))
  {
    assert done + [] == done;
  }

  function AfterBlock(context: VarBlockContext, done: seq<VarDecl>, ts: seq<Token>): Parsed<seq<VarDecl>> {
    var (ds, rest) :- ParseVars(context, ts);
    After(done + ds, ParseVarBlocks(context, rest))
  }

  lemma VarBlocksUnfold(context: VarBlockContext, ts: seq<Token>, done: seq<VarDecl>)
    requires Opens(context, Peek(ts))
    ensures After(done, ParseVarBlocks(context, ts)) == AfterBlock(context, done, ts)
  {
    hide ParseVars, Opens;
    var block := ParseVars(context, ts);
    if block.Some? {
      var more := ParseVarBlocks(context, block.value.1);
      if more.Some? { assert done + (block.value.0 + more.value.0) == done + block.value.0 + more.value.0; }
    }
  }

  lemma VarBlocksEnd(context: VarBlockContext, ts: seq<Token>, done: seq<VarDecl>)
    requires !Opens(context, Peek(ts))
    ensures After(done, ParseVarBlocks(context, ts)) == Some((done, ts))
  {
    assert done + [] == done;
  }

  // ---- Printing ----

  function KindToken(kind: VarKind): Token {
    match kind case Var => KwVar case VarInput => KwVarInput case VarOutput => KwVarOutput case VarTemp => KwVarTemp
  }

  function TypeToken(t: TypeId): Token {
    match t case Bool => KwBool case Byte => KwByte case Int => KwInt case DInt => KwDint case Time => KwTime
  }

  // The least TIME has no literal.
  predicate PrintableLiteral(declared: TypeId, v: Value) {
    TypeOf(v) == declared && (v.VTime? ==> v.ms > -0x8000_0000_0000_0000)
  }

  function PrintLiteral(v: Value): seq<Token>
    requires PrintableLiteral(TypeOf(v), v)
  {
    match v
    case VBool(b) => [BoolLiteral(b)]
    case VTime(ms) => if ms < 0 then [Minus, TimeLiteral(-ms)] else [TimeLiteral(ms)]
    case VByte(n) => [IntLiteral(n)]
    case VInt(n) => PrintInteger(n)
    case VDInt(n) => PrintInteger(n)
  }

  function PrintInteger(n: int): seq<Token>
    requires -0x8000_0000 <= n < 0x8000_0000
  {
    if n < 0 then [Minus, IntLiteral(-n)] else [IntLiteral(n)]
  }

  // Declarations that may stand in a block of that context.
  predicate PrintableDecl(context: VarBlockContext, d: VarDecl) {
    && Opens(context, KindToken(d.kind)) && (context == InFunction ==> d.kind != Var)
    && if d.elementaryType.Some? then
         d.instanceOfType.None? && (d.initialValue.Some? ==> PrintableLiteral(d.elementaryType.value, d.initialValue.value))
       else
         d.instanceOfType.Some? && d.initialValue.None? && InstancesAllowed(context, d.kind)
  }

  predicate PrintableDecls(context: VarBlockContext, ds: seq<VarDecl>) {
    forall d | d in ds :: PrintableDecl(context, d)
  }

  function PrintAt(address: Option<Address>): seq<Token> {
    match address
    case None => []
    case Some(a) => [KwAt, AddressLiteral(a.area, a.byteOffset, a.bitOffset)]
  }

  // BOOL := TRUE, or the name of a function block type.
  function PrintType(context: VarBlockContext, d: VarDecl): seq<Token>
    requires PrintableDecl(context, d)
  {
    if d.elementaryType.None? then [IdentifierToken(d.instanceOfType.value)]
    else [TypeToken(d.elementaryType.value)] + PrintInitial(d.elementaryType.value, d.initialValue)
  }

  function PrintInitial(declared: TypeId, initial: Option<Value>): seq<Token>
    requires initial.Some? ==> PrintableLiteral(declared, initial.value)
  {
    if initial.None? then [] else [AssignToken] + PrintLiteral(initial.value)
  }

  function PrintDecl(context: VarBlockContext, d: VarDecl): seq<Token>
    requires PrintableDecl(context, d)
  {
    [IdentifierToken(d.name)] + (PrintAt(d.address) + ([Colon] + (PrintType(context, d) + [Semicolon])))
  }

  // One block for each declaration.
  function PrintVars(context: VarBlockContext, ds: seq<VarDecl>): seq<Token>
    requires PrintableDecls(context, ds)
  {
    if ds == [] then []
    else
      assert ds[0] in ds;
      [KindToken(ds[0].kind)] + (PrintDecl(context, ds[0]) + ([KwEndVar] + PrintVars(context, ds[1..])))
  }

  function PouContext(isFunction: bool): VarBlockContext { if isFunction then InFunction else InFunctionBlock }

  predicate PrintablePou(pou: Pou) {
    PrintableDecls(PouContext(pou.isFunction), pou.varDecls) && PrintableBlock(pou.body)
  }

  function PrintPou(pou: Pou): seq<Token>
    requires PrintablePou(pou)
  {
    [PouKeyword(pou.isFunction), IdentifierToken(pou.name)] +
    (PrintVars(PouContext(pou.isFunction), pou.varDecls) + (PrintBlock(pou.body) + [PouEnd(pou.isFunction)]))
  }

  function PrintPous(pous: seq<Pou>): seq<Token>
    requires forall p | p in pous :: PrintablePou(p)
  {
    if pous == [] then []
    else
      assert pous[0] in pous;
      PrintPou(pous[0]) + PrintPous(pous[1..])
  }

  function PrintDb(db: DataBlock): seq<Token>
    requires PrintableDecls(InDataBlock, db.varDecls)
  {
    [KwDataBlock, IdentifierToken(db.name)] + (PrintVars(InDataBlock, db.varDecls) + [KwEndDataBlock])
  }

  function PrintDbs(dbs: seq<DataBlock>): seq<Token>
    requires forall db | db in dbs :: PrintableDecls(InDataBlock, db.varDecls)
  {
    if dbs == [] then []
    else
      assert dbs[0] in dbs;
      PrintDb(dbs[0]) + PrintDbs(dbs[1..])
  }

  predicate PrintableUnit(u: CompilationUnit) {
    && (forall p | p in u.pous :: PrintablePou(p)) && (forall db | db in u.dataBlocks :: PrintableDecls(InDataBlock, db.varDecls))
    && PrintableDecls(InProgram, u.varDecls) && PrintableBlock(u.body)
  }

  function PrintMain(name: string, decls: seq<VarDecl>, body: seq<Stmt>): seq<Token>
    requires PrintableDecls(InProgram, decls) && PrintableBlock(body)
  {
    [KwProgram, IdentifierToken(name)] + (PrintVars(InProgram, decls) + (PrintBlock(body) + [KwEndProgram]))
  }

  function PrintUnit(name: string, u: CompilationUnit): seq<Token>
    requires PrintableUnit(u)
  {
    PrintPous(u.pous) + (PrintDbs(u.dataBlocks) + (PrintMain(name, u.varDecls, u.body) + [EndOfFile]))
  }

  // ---- Parsing inverts printing ----

  lemma InitialParses(declared: TypeId, initial: Option<Value>, rest: seq<Token>)
    requires (initial.Some? ==> PrintableLiteral(declared, initial.value)) && !Peek(rest).AssignToken?
    ensures ParseInitial(declared, PrintInitial(declared, initial) + rest) == Some((initial, rest))
  {
    hide ParseLiteral, PrintLiteral;
    var ts := PrintInitial(declared, initial) + rest;
    if initial.None? {
      assert ts == rest;
    } else {
      assert ts[1..] == PrintLiteral(initial.value) + rest;
      SignedLiteralParses(initial.value, rest);
    }
  }

  lemma SignedLiteralParses(v: Value, rest: seq<Token>)
    requires PrintableLiteral(TypeOf(v), v)
    ensures ParseLiteral(TypeOf(v), PrintLiteral(v) + rest) == Some((v, rest))
  {
    hide CastLiteral, NegateLiteral;
    var ts := PrintLiteral(v) + rest;
    if Peek(ts).Minus? { assert ts[1..][0] == ts[1] && ts[1..][1..] == rest; } else { assert ts[1..] == rest; }
    if v.VTime? { TimeNegates(v); } else if !v.VBool? { IntegerCasts(v); }
  }

  lemma TimeNegates(v: Value)
    requires v.VTime? && -0x8000_0000_0000_0000 < v.ms
    ensures NegateLiteral(VTime(-v.ms)) == Some(v)
  {
  }

  // Casting a literal that fits gives its value, and negating the cast of its magnitude
  // gives a negative one.
  lemma IntegerCasts(v: Value)
    requires IsNumeric(TypeOf(v))
    ensures CastLiteral(AsInt(v), TypeOf(v)) == v
    ensures AsInt(v) < 0 ==> NegateLiteral(CastLiteral(-AsInt(v), TypeOf(v))) == Some(v)
  {
    CastFits(AsInt(v), TypeOf(v));
    if AsInt(v) < 0 { NegativeCast(AsInt(v), TypeOf(v)); }
  }

  lemma CastFits(n: int, t: TypeId)
    requires IsNumeric(t) && Fits(n, t)
    ensures FromInt(n, t) == Ok(CastLiteral(n, t))
  {
    match t
    case Byte =>
    case Int => if n < 0 { assert n % 0x1_0000 == n + 0x1_0000; }
    case DInt => if n < 0 { assert n % 0x1_0000_0000 == n + 0x1_0000_0000; }
  }

  lemma NegativeCast(n: int, t: TypeId)
    requires (t == Int || t == DInt) && Fits(n, t) && n < 0
    ensures FromInt(n, t).Ok? && NegateLiteral(CastLiteral(-n, t)) == Some(FromInt(n, t).value)
  {
    CastFits(n, t);
    if Fits(-n, t) {
      CastFits(-n, t);
    } else if t == Int {
      assert n == -0x8000;
    } else {
      assert n == -0x8000_0000;
    }
  }

  lemma AtParses(address: Option<Address>, rest: seq<Token>)
    requires !Peek(rest).KwAt?
    ensures ParseAt(PrintAt(address) + rest) == Some((address, rest))
  {
    var ts := PrintAt(address) + rest;
    if address.None? { assert ts == rest; } else { assert ts[1..][0] == ts[1] && ts[2..] == rest; }
  }

  function Untyped(d: VarDecl): VarDecl { VarDecl(d.name, d.kind, None, None, d.address, None) }

  lemma TypedParses(context: VarBlockContext, d: VarDecl, rest: seq<Token>)
    requires PrintableDecl(context, d)
    ensures ParseTyped(Untyped(d), context, PrintType(context, d) + ([Semicolon] + rest)) == Some((d, rest))
  {
    hide ParseInitial, PrintInitial, Opens;
    var end := [Semicolon] + rest;
    var typed := PrintType(context, d) + end;
    assert end[1..] == rest;
    if d.elementaryType.None? {
      assert typed[1..] == end;
    } else {
      assert typed[1..] == PrintInitial(d.elementaryType.value, d.initialValue) + end;
      InitialParses(d.elementaryType.value, d.initialValue, end);
    }
  }

  lemma DeclParses(context: VarBlockContext, d: VarDecl, rest: seq<Token>)
    requires PrintableDecl(context, d)
    ensures ParseDecl(d.kind, context, PrintDecl(context, d) + rest) == Some((d, rest))
  {
    hide ParseAt, PrintAt, ParseTyped, PrintType, PrintableDecl;
    var typed := PrintType(context, d) + ([Semicolon] + rest);
    var ts := [IdentifierToken(d.name)] + (PrintAt(d.address) + ([Colon] + typed));
    assert PrintDecl(context, d) + rest == ts && ts[1..] == PrintAt(d.address) + ([Colon] + typed);
    AtParses(d.address, [Colon] + typed);
    assert ([Colon] + typed)[1..] == typed;
    TypedParses(context, d, rest);
  }

  lemma {:induction false} VarsParse(context: VarBlockContext, ds: seq<VarDecl>, rest: seq<Token>)
    requires PrintableDecls(context, ds) && !Opens(context, Peek(rest))
    ensures ParseVarBlocks(context, PrintVars(context, ds) + rest) == Some((ds, rest))
    decreases |ds|
  {
    hide ParseDecl, PrintDecl;
    if ds == [] {
      assert PrintVars(context, ds) + rest == rest;
    } else {
      var d, tail := ds[0], PrintVars(context, ds[1..]) + rest;
      assert d in ds;
      var block := PrintDecl(context, d) + ([KwEndVar] + tail);
      assert PrintVars(context, ds) + rest == [KindToken(d.kind)] + block;
      OneVarParses(context, d, tail);
      VarsParse(context, ds[1..], rest);
      assert [d] + ds[1..] == ds;
    }
  }

  lemma OneVarParses(context: VarBlockContext, d: VarDecl, tail: seq<Token>)
    requires PrintableDecl(context, d)
    ensures ParseVars(context, [KindToken(d.kind)] + (PrintDecl(context, d) + ([KwEndVar] + tail))) == Some(([d], tail))
  {
    hide ParseDecl, PrintDecl;
    var end := [KwEndVar] + tail;
    var block := PrintDecl(context, d) + end;
    assert ([KindToken(d.kind)] + block)[1..] == block && end[1..] == tail;
    DeclParses(context, d, end);
    StartsWithIdentifier(context, d, end);
    assert ParseDecls(d.kind, context, end) == Some(([], tail));
    assert [d] + [] == [d];
  }

  lemma StartsWithIdentifier(context: VarBlockContext, d: VarDecl, rest: seq<Token>)
    requires PrintableDecl(context, d)
    ensures Peek(PrintDecl(context, d) + rest).IdentifierToken?
  {
  }

  // A body starts with no variable block.
  lemma BodyStarts(context: VarBlockContext, body: seq<Stmt>, rest: seq<Token>)
    requires PrintableBlock(body) && !Opens(context, Peek(rest))
    ensures !Opens(context, Peek(PrintBlock(body) + rest))
  {
    hide PrintStmt, PrintableStmt;
    if body == [] {
      assert PrintBlock(body) + rest == rest;
    } else {
      assert body[0] in body;
      assert PrintBlock(body) + rest == PrintStmt(body[0]) + (PrintBlock(body[1..]) + rest);
      StartsStatement(body[0], PrintBlock(body[1..]) + rest);
    }
  }

  lemma PouParses(pou: Pou, rest: seq<Token>)
    requires PrintablePou(pou)
    ensures ParsePou(pou.isFunction, PrintPou(pou) + rest) == Some((pou, rest))
  {
    hide ParseVarBlocks, PrintVars, ParseBlock, PrintBlock, PrintableBlock, PrintableDecls;
    var end := [PouEnd(pou.isFunction)] + rest;
    var body := PrintBlock(pou.body) + end;
    var vars := PrintVars(PouContext(pou.isFunction), pou.varDecls) + body;
    var ts := [PouKeyword(pou.isFunction), IdentifierToken(pou.name)] + vars;
    assert PrintPou(pou) + rest == ts && ts[1..][0] == ts[1] && ts[1..][1..] == vars && end[1..] == rest;
    BodyStarts(PouContext(pou.isFunction), pou.body, end);
    VarsParse(PouContext(pou.isFunction), pou.varDecls, body);
    BlockParses(pou.body, {PouEnd(pou.isFunction)}, end);
  }

  lemma DbParses(db: DataBlock, rest: seq<Token>)
    requires PrintableDecls(InDataBlock, db.varDecls)
    ensures ParseDb(PrintDb(db) + rest) == Some((db, rest))
  {
    hide ParseVarBlocks, PrintVars, PrintableDecls;
    var end := [KwEndDataBlock] + rest;
    var vars := PrintVars(InDataBlock, db.varDecls) + end;
    var ts := [KwDataBlock, IdentifierToken(db.name)] + vars;
    assert PrintDb(db) + rest == ts && ts[1..][0] == ts[1] && ts[1..][1..] == vars && end[1..] == rest;
    VarsParse(InDataBlock, db.varDecls, end);
  }

  lemma MainParses(name: string, decls: seq<VarDecl>, stmts: seq<Stmt>, rest: seq<Token>)
    requires PrintableDecls(InProgram, decls) && PrintableBlock(stmts)
    ensures ParseMain(PrintMain(name, decls, stmts) + rest) == Some(((decls, stmts), rest))
  {
    hide ParseVarBlocks, PrintVars, ParseBlock, PrintBlock, PrintableBlock, PrintableDecls;
    var end := [KwEndProgram] + rest;
    var body := PrintBlock(stmts) + end;
    var vars := PrintVars(InProgram, decls) + body;
    var ts := [KwProgram, IdentifierToken(name)] + vars;
    assert PrintMain(name, decls, stmts) + rest == ts && ts[1..][0] == ts[1] && ts[1..][1..] == vars && end[1..] == rest;
    BodyStarts(InProgram, stmts, end);
    VarsParse(InProgram, decls, body);
    BlockParses(stmts, {KwEndProgram}, end);
  }

  lemma {:induction false} PousParse(u: Parts, pous: seq<Pou>, rest: seq<Token>)
    requires forall p | p in pous :: PrintablePou(p)
    ensures ParseUnit(u, PrintPous(pous) + rest) == ParseUnit(u.(pous := u.pous + pous), rest)
    decreases |pous|
  {
    hide ParsePou, ParseUnit, PrintPou, PrintablePou;
    if pous == [] {
      assert PrintPous(pous) + rest == rest && u.pous + pous == u.pous;
    } else {
      var tail := PrintPous(pous[1..]) + rest;
      assert pous[0] in pous;
      assert PrintPous(pous) + rest == PrintPou(pous[0]) + tail;
      PouParses(pous[0], tail);
      PouStarts(pous[0], tail);
      OnePouParsed(u, PrintPou(pous[0]) + tail, pous[0], tail);
      PousParse(u.(pous := u.pous + [pous[0]]), pous[1..], rest);
      assert u.pous + [pous[0]] + pous[1..] == u.pous + pous;
    }
  }

  lemma OnePouParsed(u: Parts, ts: seq<Token>, pou: Pou, rest: seq<Token>)
    requires Peek(ts) == PouKeyword(pou.isFunction) && ParsePou(pou.isFunction, ts) == Some((pou, rest))
    ensures ParseUnit(u, ts) == ParseUnit(u.(pous := u.pous + [pou]), rest)
  {
    hide ParsePou;
  }

  lemma PouStarts(pou: Pou, rest: seq<Token>)
    requires PrintablePou(pou)
    ensures Peek(PrintPou(pou) + rest) == PouKeyword(pou.isFunction)
  {
  }

  lemma {:induction false} DbsParse(u: Parts, dbs: seq<DataBlock>, rest: seq<Token>)
    requires forall db | db in dbs :: PrintableDecls(InDataBlock, db.varDecls)
    ensures ParseUnit(u, PrintDbs(dbs) + rest) == ParseUnit(u.(dataBlocks := u.dataBlocks + dbs), rest)
    decreases |dbs|
  {
    hide ParseDb, ParsePou, ParseMain, PrintDb, PrintableDecls;
    if dbs == [] {
      assert PrintDbs(dbs) + rest == rest && u.dataBlocks + dbs == u.dataBlocks;
    } else {
      var tail := PrintDbs(dbs[1..]) + rest;
      assert dbs[0] in dbs;
      assert PrintDbs(dbs) + rest == PrintDb(dbs[0]) + tail;
      DbParses(dbs[0], tail);
      DbStarts(dbs[0], tail);
      DbsParse(u.(dataBlocks := u.dataBlocks + [dbs[0]]), dbs[1..], rest);
      assert u.dataBlocks + [dbs[0]] + dbs[1..] == u.dataBlocks + dbs;
    }
  }

  lemma DbStarts(db: DataBlock, rest: seq<Token>)
    requires PrintableDecls(InDataBlock, db.varDecls)
    ensures Peek(PrintDb(db) + rest).KwDataBlock?
  {
    hide PrintVars, PrintableDecls;
  }

  // Printing any well-formed unit and parsing the text gives the unit back.
  lemma UnitParses(name: string, u: CompilationUnit)
    requires PrintableUnit(u)
    ensures ParseUnit(NOTHING, PrintUnit(name, u)) == Some(u)
  {
    hide PrintPous, PrintDbs, ParseMain, PrintVars, PrintBlock, PrintableDecls, PrintableBlock, PrintablePou, ParsePou, ParseDb;
    var end := [EndOfFile];
    var main := PrintMain(name, u.varDecls, u.body) + end;
    var dbs := PrintDbs(u.dataBlocks) + main;
    PousParse(NOTHING, u.pous, dbs);
    assert [] + u.pous == u.pous && [] + u.dataBlocks == u.dataBlocks;
    DbsParse(Parts(u.pous, [], None), u.dataBlocks, main);
    MainParses(name, u.varDecls, u.body, end);
    var all := Parts(u.pous, u.dataBlocks, None);
    assert Peek(main).KwProgram?;
    assert ParseUnit(all, main) == ParseUnit(all.(main := Some((u.varDecls, u.body))), end);
  }
}

// The generator as the source writes it: methods that append to the output,
// proved to emit Codegen.Generate exactly for the programs the check accepts.

module Generator {
  import opened Values
  import opened Ast
  import opened Codegen

  class Generator {
    const types: seq<TypeId>
    var out: seq<CStmt>
    var temps: set<nat>

    constructor (types: seq<TypeId>)
      ensures this.types == types && out == [] && temps == {}
    {
      this.types := types;
      out, temps := [], {};
    }

    // Emits one "write(c, id, type, e);", after the bounds check of tags.at.
    method Write(id: nat, e: CExpr) returns (ok: bool)
      modifies this`out
      ensures ok <==> id < |types|
      ensures ok ==> out == old(out) + [GenWrite(types, id, e)]
    {
      if id >= |types| { return false; }
      out := out + [CWrite(id, types[id], e)];
      return true;
    }

    // Runs Block with an empty output and gives back what it emitted: the text
    // between one pair of braces.
    method Braces(stmts: seq<Stmt>) returns (ok: bool, body: seq<CStmt>)
      modifies this`out
      ensures ok <==> BlockAccepted(types, stmts)
      ensures ok ==> body == GenBlock(types, stmts) && out == old(out)
      decreases stmts, 1
    {
      var saved := out;
      out := [];
      ok := Block(stmts);
      body := out;
      out := saved;
    }

    method Block(stmts: seq<Stmt>) returns (ok: bool)
      modifies this`out
      ensures ok <==> BlockAccepted(types, stmts)
      ensures ok ==> out == old(out) + GenBlock(types, stmts)
      decreases stmts, 0
    {
      for i := 0 to |stmts|
        invariant forall j | 0 <= j < i :: StmtAccepted(types, stmts[j])
        invariant out + GenBlock(types, stmts[i..]) == old(out) + GenBlock(types, stmts)
      {
        assert stmts[i] in stmts;
        assert stmts[i..][0] == stmts[i] && stmts[i..][1..] == stmts[i + 1..];
        var sofar := out;
        ok := Statement(stmts[i]);
        if !ok { return; }
        assert sofar + ([GenStmt(types, stmts[i])] + GenBlock(types, stmts[i + 1..])) == out + GenBlock(types, stmts[i + 1..]);
      }
      assert out + [] == out;
      ok := true;
    }

    method Statement(stmt: Stmt) returns (ok: bool)
      modifies this`out
      ensures ok <==> StmtAccepted(types, stmt)
      ensures ok ==> out == old(out) + [GenStmt(types, stmt)]
      decreases stmt, 2
    {
      match stmt
      case Assign(_, id, e) =>
        if !Assignable(types, id, e) { return false; }
        ok := Write(id, GenExpr(e));
      case If(_, _) => ok := IfStatement(stmt);
      case While(c, body) =>
        if !HasType(types, c, Bool) { return false; }
        var inner;
        ok, inner := Braces(body);
        if ok { out := out + [CLoop(GenExpr(c), inner)]; }
      case Call(_, _, _) => ok := CallStatement(stmt);
      case Rung(_, _) => ok := RungStatement(stmt);
    }

    method IfStatement(stmt: Stmt) returns (ok: bool)
      requires stmt.If?
      modifies this`out
      ensures ok <==> StmtAccepted(types, stmt)
      ensures ok ==> out == old(out) + [GenStmt(types, stmt)]
      decreases stmt, 1
    {
      var branches;
      ok, branches := Branches(stmt.branches);
      if !ok { return; }
      var els;
      ok, els := Braces(stmt.elseBody);
      if ok { out := out + [CIfChain(branches, els)]; }
    }

    method Branches(bs: seq<IfBranch>) returns (ok: bool, branches: seq<CBranch>)
      modifies this`out
      ensures ok <==> forall b | b in bs :: HasType(types, b.condition, Bool) && BlockAccepted(types, b.body)
      ensures ok ==> branches == GenBranches(types, bs) && out == old(out)
      decreases bs, 0
    {
      branches := [];
      for k := 0 to |bs|
        invariant out == old(out) && |branches| == k
        invariant forall j | 0 <= j < k :: HasType(types, bs[j].condition, Bool) && BlockAccepted(types, bs[j].body)
        invariant forall j | 0 <= j < k :: branches[j] == CBranch(GenExpr(bs[j].condition), GenBlock(types, bs[j].body))
      {
        assert bs[k] in bs;
        if !HasType(types, bs[k].condition, Bool) { return false, []; }
        var inner;
        ok, inner := Braces(bs[k].body);
        if !ok { return; }
        branches := branches + [CBranch(GenExpr(bs[k].condition), inner)];
      }
      ok := true;
    }

    method CallStatement(stmt: Stmt) returns (ok: bool)
      requires stmt.Call?
      modifies this`out
      ensures ok <==> StmtAccepted(types, stmt)
      ensures ok ==> out == old(out) + [GenStmt(types, stmt)]
    {
      var saved, args := out, stmt.args;
      out := [];
      ok := ArgumentValues(args);
      if !ok { return; }
      ghost var decls := out;
      ArgumentWrites(args);
      out := out + [CCallFrame(stmt.frameIndex)];
      ok := OutputWrites(args);
      if !ok { return; }
      assert decls == GenArgDecls(args);
      out := saved + [CScope(out)];
    }

    // const Value argN = ...; for each ':=' argument.
    method ArgumentValues(args: seq<CallArg>) returns (ok: bool)
      modifies this`out
      ensures ok <==> forall a | a in args && a.InputArg? :: ArgAccepted(types, a)
      ensures ok ==> out == old(out) + GenArgDecls(args)
    {
      for i := 0 to |args|
        invariant forall j | 0 <= j < i && args[j].InputArg? :: ArgAccepted(types, args[j])
        invariant out + GenArgDecls(args[i..]) == old(out) + GenArgDecls(args)
      {
        assert args[i] in args;
        assert args[i..][0] == args[i] && args[i..][1..] == args[i + 1..];
        if args[i].InputArg? {
          if !Assignable(types, args[i].paramTagId, args[i].inputExpr) { return false; }
          out := out + [CDeclareArg(GenExpr(args[i].inputExpr))];
        }
      }
      assert out + [] == out;
      ok := true;
    }

    // write(..., argN) for each of them.
    method ArgumentWrites(args: seq<CallArg>)
      requires forall a | a in args && a.InputArg? :: ArgAccepted(types, a)
      modifies this`out
      ensures out == old(out) + GenArgWrites(types, args, 0)
    {
      var n := 0;
      for i := 0 to |args|
        invariant out + GenArgWrites(types, args[i..], n) == old(out) + GenArgWrites(types, args, 0)
      {
        assert args[i] in args;
        assert args[i..][0] == args[i] && args[i..][1..] == args[i + 1..];
        if args[i].InputArg? {
          assert ArgAccepted(types, args[i]);
          var _ := Write(args[i].paramTagId, CArg(n));
          n := n + 1;
        }
      }
      assert out + [] == out;
    }

    // write(target, ..., read(param)) for each '=>' argument.
    method OutputWrites(args: seq<CallArg>) returns (ok: bool)
      modifies this`out
      ensures ok <==> forall a | a in args && a.OutputArg? :: ArgAccepted(types, a)
      ensures ok ==> out == old(out) + GenOutputs(types, args)
    {
      for i := 0 to |args|
        invariant forall j | 0 <= j < i && args[j].OutputArg? :: ArgAccepted(types, args[j])
        invariant out + GenOutputs(types, args[i..]) == old(out) + GenOutputs(types, args)
      {
        assert args[i] in args;
        assert args[i..][0] == args[i] && args[i..][1..] == args[i + 1..];
        if args[i].OutputArg? {
          if !Assignable(types, args[i].outputTargetId, Identifier("", args[i].paramTagId)) { return false; }
          var _ := Write(args[i].outputTargetId, CRead(args[i].paramTagId));
        }
      }
      assert out + [] == out;
      ok := true;
    }

    method Coil(o: RungOutput) returns (ok: bool)
      modifies this`out
      ensures ok <==> o.targetId < |types|
      ensures ok ==> out == old(out) + [GenCoil(types, o)]
    {
      var id := o.targetId;
      if id >= |types| { return false; }
      match o.kind {
        case Direct => var _ := Write(id, CPower);
        case Set => out := out + [CIfPower(CWrite(id, types[id], CLiteral(VBool(true))))];
        case Reset => out := out + [CIfPower(CWrite(id, types[id], CLiteral(VBool(false))))];
      }
      ok := true;
    }

    method RungStatement(stmt: Stmt) returns (ok: bool)
      requires stmt.Rung?
      modifies this`out
      ensures ok <==> StmtAccepted(types, stmt)
      ensures ok ==> out == old(out) + [GenStmt(types, stmt)]
    {
      hide GenExpr, GenCoil, TypeCheck;
      if !HasType(types, stmt.power, Bool) { return false; }
      var saved, outs := out, stmt.outputs;
      out := [CDeclarePower(GenExpr(stmt.power))];
      for i := 0 to |outs|
        invariant forall j | 0 <= j < i :: outs[j].targetId < |types|
        invariant out + GenCoils(types, outs[i..]) == [CDeclarePower(GenExpr(stmt.power))] + GenCoils(types, outs)
      {
        assert outs[i..][0] == outs[i] && outs[i..][1..] == outs[i + 1..];
        ok := Coil(outs[i]);
        if !ok { return false; }
      }
      assert out + [] == out;
      out := saved + [CScope(out)];
      ok := true;
    }

    method FrameFunction(f: Frame) returns (ok: bool, code: seq<CStmt>)
      modifies this
      ensures ok <==> FrameAccepted(types, f)
      ensures ok ==> code == GenFrame(types, f) && temps == old(temps) + ResetIds(f.tempResets)
    {
      out, code := [CCheck], [];
      ok := ResetWrites(f.tempResets);
      if !ok { return; }
      ok := Block(f.body);
      code := out;
    }

    method ResetWrites(resets: seq<TempReset>) returns (ok: bool)
      modifies this
      ensures ok <==> forall r | r in resets :: r.id < |types|
      ensures ok ==> out == old(out) + GenResets(types, resets) && temps == old(temps) + ResetIds(resets)
    {
      for i := 0 to |resets|
        invariant forall j | 0 <= j < i :: resets[j].id < |types|
        invariant out + GenResets(types, resets[i..]) == old(out) + GenResets(types, resets)
        invariant temps == old(temps) + ResetIds(resets[..i])
      {
        assert resets[i..][0] == resets[i] && resets[i..][1..] == resets[i + 1..];
        assert resets[..i + 1] == resets[..i] + [resets[i]];
        temps := temps + {resets[i].id};
        ok := Write(resets[i].id, CLiteral(resets[i].value));
        if !ok { return; }
      }
      assert resets[..|resets|] == resets && out + [] == out;
      ok := true;
    }

    // The whole translation unit; temps collects the tags symbols.json marks temporary.
    method Generate(p: Program) returns (ok: bool, c: CProgram)
      requires p.types == types && |p.initials| == |types| && temps == {}
      modifies this
      ensures ok <==> Accepted(p)
      ensures ok ==> c == Codegen.Generate(p)
      ensures ok ==> forall id :: id in temps <==> exists f :: f in p.frames && id in ResetIds(f.tempResets)
    {
      var frames: seq<seq<CStmt>> := [];
      for i := 0 to |p.frames|
        invariant |frames| == i
        invariant forall j | 0 <= j < i :: FrameAccepted(types, p.frames[j]) && frames[j] == GenFrame(types, p.frames[j])
        invariant forall id :: id in temps <==> exists f :: f in p.frames[..i] && id in ResetIds(f.tempResets)
      {
        assert p.frames[i] in p.frames;
        assert p.frames[..i + 1] == p.frames[..i] + [p.frames[i]];
        var code;
        ok, code := FrameFunction(p.frames[i]);
        if !ok { return false, CProgram([], []); }
        frames := frames + [code];
      }
      assert p.frames[..|p.frames|] == p.frames;
      out := [CCheck];
      ok := Block(p.body);
      c := CProgram(frames, out);
      if !ok { return; }
      for i := 0 to |types|
        invariant forall j | 0 <= j < i :: TypeOf(p.initials[j]) == types[j]
      {
        if TypeOf(p.initials[i]) != types[i] { return false, c; }
      }
    }
  }
}

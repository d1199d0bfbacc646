// The statement tree after parsing and binding (include/softplc/st/ast.hpp).
// Each reference keeps its source name and the number the binder writes into it.

module Ast {
  import opened Values

  // kInvalidTagId and kInvalidFrame: what an unbound node holds.
  const INVALID_TAG: nat := 0xFFFF_FFFF
  const INVALID_FRAME: nat := 0xFFFF_FFFF_FFFF_FFFF

  datatype Expr =
    | Literal(value: Value)
    | Identifier(name: string, tagId: nat)
    | Unary(uop: UnaryOp, operand: Expr)
    | Binary(bop: BinaryOp, lhs: Expr, rhs: Expr)

  datatype CallArg =
    | InputArg(paramName: string, inputExpr: Expr, paramTagId: nat)
    | OutputArg(paramName: string, outputTargetName: string, paramTagId: nat, outputTargetId: nat)

  datatype RungOutputKind = Direct | Set | Reset
  datatype RungOutput = RungOutput(kind: RungOutputKind, targetName: string, targetId: nat)

  datatype IfBranch = IfBranch(condition: Expr, body: seq<Stmt>)

  datatype Stmt =
    | Assign(target: string, targetId: nat, value: Expr)
    | If(branches: seq<IfBranch>, elseBody: seq<Stmt>)
    | While(condition: Expr, body: seq<Stmt>)
    | Call(calleeName: string, args: seq<CallArg>, frameIndex: nat)
    | Rung(power: Expr, outputs: seq<RungOutput>)

  datatype TempReset = TempReset(id: nat, value: Value)

  // One bound body: an FB instance or an FC call site.
  datatype Frame = Frame(scopeName: string, body: seq<Stmt>, tempResets: seq<TempReset>)

  // A bound compilation unit with the declared type and initial value of each tag.
  datatype Program = Program(types: seq<TypeId>, initials: seq<Value>, body: seq<Stmt>, frames: seq<Frame>)

  type Store = seq<Value>

  // Every tag holds a value of its declared type.
  predicate WellTyped(types: seq<TypeId>, s: Store) {
    |s| == |types| && forall i | 0 <= i < |s| :: TypeOf(s[i]) == types[i]
  }

  // ---- What a bound program guarantees (proved of the binder in Binder) ----

  predicate ExprBound(e: Expr, tagCount: nat) {
    match e
    case Literal(_) => true
    case Identifier(_, id) => id < tagCount
    case Unary(_, x) => ExprBound(x, tagCount)
    case Binary(_, l, r) => ExprBound(l, tagCount) && ExprBound(r, tagCount)
  }

  function ResetIds(resets: seq<TempReset>): set<nat> {
    set r | r in resets :: r.id
  }

  predicate ArgBound(a: CallArg, tagCount: nat, resets: seq<TempReset>) {
    match a
    case InputArg(_, e, param) =>
      ExprBound(e, tagCount) && param < tagCount && param !in ResetIds(resets)
    case OutputArg(_, _, param, target) => param < tagCount && target < tagCount
  }

  // limit bounds the frames a statement may call: the index of its own frame,
  // or the number of frames for the program body.
  predicate StmtBound(types: seq<TypeId>, frames: seq<Frame>, limit: nat, st: Stmt)
    decreases st
  {
    match st
    case Assign(_, id, e) => id < |types| && ExprBound(e, |types|)
    case If(branches, els) =>
      && |branches| > 0
      && (forall b | b in branches :: ExprBound(b.condition, |types|) && BlockBound(types, frames, limit, b.body))
      && BlockBound(types, frames, limit, els)
    case While(c, body) => ExprBound(c, |types|) && BlockBound(types, frames, limit, body)
    case Call(_, args, f) =>
      f < limit && f < |frames| && forall a | a in args :: ArgBound(a, |types|, frames[f].tempResets)
    case Rung(c, outs) =>
      && ExprBound(c, |types|)
      && forall o | o in outs :: o.targetId < |types| && types[o.targetId] == Bool
  }

  predicate BlockBound(types: seq<TypeId>, frames: seq<Frame>, limit: nat, ss: seq<Stmt>)
    decreases ss
  {
    forall st | st in ss :: StmtBound(types, frames, limit, st)
  }

  predicate ResetsBound(types: seq<TypeId>, resets: seq<TempReset>) {
    forall r | r in resets :: r.id < |types| && TypeOf(r.value) == types[r.id]
  }

  predicate FrameBound(types: seq<TypeId>, frames: seq<Frame>, i: nat)
    requires i < |frames|
  {
    BlockBound(types, frames, i, frames[i].body) && ResetsBound(types, frames[i].tempResets)
  }

  predicate Bound(p: Program) {
    && |p.initials| == |p.types|
    && BlockBound(p.types, p.frames, |p.frames|, p.body)
    && forall i | 0 <= i < |p.frames| :: FrameBound(p.types, p.frames, i)
  }
}

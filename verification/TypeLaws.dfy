// The generator's type check rejects an operator, an assignment or a condition exactly where
// evaluation would stop on a type mismatch (Generator::type and Generator::assignable,
// apps/plc_codegen/main.cpp:41-68, against include/softplc/st/value_ops.hpp:81-249).

module TypeLaws {
  import opened Values
  import opened Ast
  import opened Interpreter
  import opened Codegen

  // ---- One operator ----

  lemma LogicTypeIsExact(op: BinaryOp, l: Value, r: Value)
    requires IsLogical(op)
    ensures BinaryType(op, TypeOf(l), TypeOf(r)).None? <==> EvalBinary(op, l, r) == Err(TypeMismatch)
    ensures EvalBinary(op, l, r).Ok? ==> BinaryType(op, TypeOf(l), TypeOf(r)) == Some(TypeOf(EvalBinary(op, l, r).value))
  {
  }

  lemma ComparisonTypeIsExact(op: BinaryOp, l: Value, r: Value)
    requires !IsLogical(op) && IsComparison(op)
    ensures BinaryType(op, TypeOf(l), TypeOf(r)).None? <==> EvalBinary(op, l, r) == Err(TypeMismatch)
    ensures EvalBinary(op, l, r).Ok? ==> BinaryType(op, TypeOf(l), TypeOf(r)) == Some(TypeOf(EvalBinary(op, l, r).value))
  {
  }

  lemma IntArithmeticTyped(op: BinaryOp, a: int, b: int, t: TypeId)
    requires IsNumeric(t) && op in {Add, Sub, Mul, Div}
    ensures match IntArithmetic(op, a, b, t) { case Ok(v) => TypeOf(v) == t case Err(f) => f != TypeMismatch }
  {
    hide TruncDiv;
  }

  lemma ArithmeticTypeIsExact(op: BinaryOp, l: Value, r: Value)
    requires !IsLogical(op) && !IsComparison(op)
    ensures BinaryType(op, TypeOf(l), TypeOf(r)).None? <==> EvalBinary(op, l, r) == Err(TypeMismatch)
    ensures EvalBinary(op, l, r).Ok? ==> BinaryType(op, TypeOf(l), TypeOf(r)) == Some(TypeOf(EvalBinary(op, l, r).value))
  {
    hide IntArithmetic;
    if IsNumeric(TypeOf(l)) && IsNumeric(TypeOf(r)) {
      IntArithmeticTyped(op, AsInt(l), AsInt(r), NumericResultType(TypeOf(l), TypeOf(r)));
    }
  }

  lemma BinaryTypeIsExact(op: BinaryOp, l: Value, r: Value)
    ensures BinaryType(op, TypeOf(l), TypeOf(r)).None? <==> EvalBinary(op, l, r) == Err(TypeMismatch)
    ensures EvalBinary(op, l, r).Ok? ==> BinaryType(op, TypeOf(l), TypeOf(r)) == Some(TypeOf(EvalBinary(op, l, r).value))
  {
    hide BinaryType, EvalBinary;
    if IsLogical(op) {
      LogicTypeIsExact(op, l, r);
    } else if IsComparison(op) {
      ComparisonTypeIsExact(op, l, r);
    } else {
      ArithmeticTypeIsExact(op, l, r);
    }
  }

  lemma UnaryTypeIsExact(types: seq<TypeId>, op: UnaryOp, x: Expr, v: Value)
    requires TypeCheck(types, x) == Some(TypeOf(v))
    ensures TypeCheck(types, Unary(op, x)).None? <==> EvalUnary(op, v) == Err(TypeMismatch)
    ensures EvalUnary(op, v).Ok? ==> TypeCheck(types, Unary(op, x)) == Some(TypeOf(EvalUnary(op, v).value))
  {
  }

  lemma AssignableIsExact(types: seq<TypeId>, id: nat, e: Expr, v: Value)
    requires id < |types| && TypeCheck(types, e) == Some(TypeOf(v))
    ensures Assignable(types, id, e) <==> CoerceToType(v, types[id]) != Err(TypeMismatch)
  {
  }

  // ---- Whole expressions, by evaluation alone ----

  predicate Gives(r: Result<Value>, t: TypeId) { r.Ok? && TypeOf(r.value) == t }

  // Values of type t can come out of e, whatever values its tags hold.
  ghost predicate Admits(types: seq<TypeId>, e: Expr, t: TypeId) {
    match e
    case Literal(v) => TypeOf(v) == t
    case Identifier(_, id) => id < |types| && types[id] == t
    case Unary(op, x) => exists v: Value :: Admits(types, x, TypeOf(v)) && Gives(EvalUnary(op, v), t)
    case Binary(op, l, r) =>
      exists v: Value, w: Value :: Admits(types, l, TypeOf(v)) && Admits(types, r, TypeOf(w)) && Gives(EvalBinary(op, v, w), t)
  }

  // Every tag exists, and no operator meets operands on which it mismatches.
  ghost predicate NeverMismatches(types: seq<TypeId>, e: Expr) {
    match e
    case Literal(_) => true
    case Identifier(_, id) => id < |types|
    case Unary(op, x) =>
      NeverMismatches(types, x) && forall v: Value | Admits(types, x, TypeOf(v)) :: EvalUnary(op, v) != Err(TypeMismatch)
    case Binary(op, l, r) =>
      && NeverMismatches(types, l) && NeverMismatches(types, r)
      && forall v: Value, w: Value | Admits(types, l, TypeOf(v)) && Admits(types, r, TypeOf(w)) :: EvalBinary(op, v, w) != Err(TypeMismatch)
  }

  // A value on which no accepted operator faults.
  function Sample(t: TypeId, n: nat): (v: Value)
    requires n <= 1
    ensures TypeOf(v) == t
  {
    match t
    case Bool => VBool(n == 1)
    case Byte => VByte(n)
    case Int => VInt(n)
    case DInt => VDInt(n)
    case Time => VTime(n)
  }

  lemma UnarySample(types: seq<TypeId>, op: UnaryOp, x: Expr, a: TypeId)
    requires TypeCheck(types, x) == Some(a) && TypeCheck(types, Unary(op, x)).Some?
    ensures EvalUnary(op, Sample(a, 0)).Ok?
  {
  }

  lemma BinarySample(op: BinaryOp, a: TypeId, b: TypeId)
    requires BinaryType(op, a, b).Some?
    ensures EvalBinary(op, Sample(a, 1), Sample(b, 1)).Ok?
  {
  }

  // An expression has type t in the generator exactly when values of type t can come out of it.
  lemma {:induction false} TypeIsWhatComesOut(types: seq<TypeId>, e: Expr, t: TypeId)
    ensures TypeCheck(types, e) == Some(t) <==> Admits(types, e, t)
  {
    match e
    case Literal(_) =>
    case Identifier(_, _) =>
    case Unary(op, x) =>
      forall a: TypeId ensures TypeCheck(types, x) == Some(a) <==> Admits(types, x, a) { TypeIsWhatComesOut(types, x, a); }
      forall v: Value | Admits(types, x, TypeOf(v)) && Gives(EvalUnary(op, v), t) ensures TypeCheck(types, e) == Some(t) {
        UnaryTypeIsExact(types, op, x, v);
      }
      if TypeCheck(types, e) == Some(t) {
        var a := TypeCheck(types, x).value;
        UnarySample(types, op, x, a);
        UnaryTypeIsExact(types, op, x, Sample(a, 0));
        assert Admits(types, x, TypeOf(Sample(a, 0))) && Gives(EvalUnary(op, Sample(a, 0)), t);
      }
    case Binary(op, l, r) =>
      forall a: TypeId ensures TypeCheck(types, l) == Some(a) <==> Admits(types, l, a) { TypeIsWhatComesOut(types, l, a); }
      forall b: TypeId ensures TypeCheck(types, r) == Some(b) <==> Admits(types, r, b) { TypeIsWhatComesOut(types, r, b); }
      BinaryComesOut(types, op, l, r, t);
  }

  lemma BinaryComesOut(types: seq<TypeId>, op: BinaryOp, l: Expr, r: Expr, t: TypeId)
    requires forall a: TypeId :: TypeCheck(types, l) == Some(a) <==> Admits(types, l, a)
    requires forall b: TypeId :: TypeCheck(types, r) == Some(b) <==> Admits(types, r, b)
    ensures TypeCheck(types, Binary(op, l, r)) == Some(t) <==> Admits(types, Binary(op, l, r), t)
  {
    hide BinaryType, EvalBinary;
    var e := Binary(op, l, r);
    forall v: Value, w: Value | Admits(types, l, TypeOf(v)) && Admits(types, r, TypeOf(w)) && Gives(EvalBinary(op, v, w), t)
      ensures TypeCheck(types, e) == Some(t)
    {
      BinaryTypeIsExact(op, v, w);
    }
    if TypeCheck(types, e) == Some(t) {
      var v, w := Sample(TypeCheck(types, l).value, 1), Sample(TypeCheck(types, r).value, 1);
      BinarySample(op, TypeOf(v), TypeOf(w));
      BinaryTypeIsExact(op, v, w);
      assert Admits(types, l, TypeOf(v)) && Admits(types, r, TypeOf(w)) && Gives(EvalBinary(op, v, w), t);
    }
  }

  // It has a type exactly when its evaluation can never mismatch.
  lemma {:induction false} TypeCheckIsExact(types: seq<TypeId>, e: Expr)
    ensures TypeCheck(types, e).Some? <==> NeverMismatches(types, e)
  {
    match e
    case Literal(_) =>
    case Identifier(_, _) =>
    case Unary(op, x) =>
      TypeCheckIsExact(types, x);
      if TypeCheck(types, x).Some? {
        var a := TypeCheck(types, x).value;
        forall v: Value ensures Admits(types, x, TypeOf(v)) <==> TypeOf(v) == a { TypeIsWhatComesOut(types, x, TypeOf(v)); }
        forall v: Value | TypeOf(v) == a ensures TypeCheck(types, e).None? <==> EvalUnary(op, v) == Err(TypeMismatch) {
          UnaryTypeIsExact(types, op, x, v);
        }
        assert Admits(types, x, TypeOf(Sample(a, 0)));
      }
    case Binary(op, l, r) =>
      TypeCheckIsExact(types, l);
      TypeCheckIsExact(types, r);
      if TypeCheck(types, l).Some? && TypeCheck(types, r).Some? { BinaryNeverMismatches(types, op, l, r); }
  }

  lemma BinaryNeverMismatches(types: seq<TypeId>, op: BinaryOp, l: Expr, r: Expr)
    requires TypeCheck(types, l).Some? && TypeCheck(types, r).Some?
    ensures TypeCheck(types, Binary(op, l, r)).Some? <==>
            forall v: Value, w: Value | Admits(types, l, TypeOf(v)) && Admits(types, r, TypeOf(w)) :: EvalBinary(op, v, w) != Err(TypeMismatch)
  {
    hide BinaryType, EvalBinary, Admits;
    var a, b := TypeCheck(types, l).value, TypeCheck(types, r).value;
    forall v: Value ensures Admits(types, l, TypeOf(v)) <==> TypeOf(v) == a { TypeIsWhatComesOut(types, l, TypeOf(v)); }
    forall w: Value ensures Admits(types, r, TypeOf(w)) <==> TypeOf(w) == b { TypeIsWhatComesOut(types, r, TypeOf(w)); }
    forall v: Value, w: Value | TypeOf(v) == a && TypeOf(w) == b
      ensures BinaryType(op, a, b).None? <==> EvalBinary(op, v, w) == Err(TypeMismatch)
    {
      BinaryTypeIsExact(op, v, w);
    }
    var v, w := Sample(a, 1), Sample(b, 1);
    assert Admits(types, l, TypeOf(v)) && Admits(types, r, TypeOf(w));
  }

  // ---- Statements ----

  // Values of the expression can be stored in the tag, overflow apart.
  ghost predicate Storable(types: seq<TypeId>, id: nat, e: Expr) {
    && id < |types| && NeverMismatches(types, e)
    && forall v: Value | Admits(types, e, TypeOf(v)) :: CoerceToType(v, types[id]) != Err(TypeMismatch)
  }

  ghost predicate ArgFits(types: seq<TypeId>, a: CallArg) {
    match a
    case InputArg(_, e, param) => Storable(types, param, e)
    case OutputArg(_, _, param, target) => Storable(types, target, Identifier("", param))
  }

  // The interpreter's own tests, and nothing else: conditions give BOOLs, tags exist, and no
  // evaluation or store mismatches.
  ghost predicate StmtFits(types: seq<TypeId>, st: Stmt)
    decreases st
  {
    match st
    case Assign(_, id, e) => Storable(types, id, e)
    case If(branches, els) =>
      (forall b | b in branches :: Admits(types, b.condition, Bool) && BlockFits(types, b.body)) && BlockFits(types, els)
    case While(c, body) => Admits(types, c, Bool) && BlockFits(types, body)
    case Call(_, args, _) => forall a | a in args :: ArgFits(types, a)
    case Rung(c, outs) => Admits(types, c, Bool) && forall o | o in outs :: o.targetId < |types|
  }

  ghost predicate BlockFits(types: seq<TypeId>, ss: seq<Stmt>)
    decreases ss
  {
    forall st | st in ss :: StmtFits(types, st)
  }

  lemma StorableIsAssignable(types: seq<TypeId>, id: nat, e: Expr)
    ensures Assignable(types, id, e) <==> Storable(types, id, e)
  {
    TypeCheckIsExact(types, e);
    if TypeCheck(types, e).Some? && id < |types| {
      var a := TypeCheck(types, e).value;
      forall v: Value ensures Admits(types, e, TypeOf(v)) <==> TypeOf(v) == a { TypeIsWhatComesOut(types, e, TypeOf(v)); }
      forall v: Value | TypeOf(v) == a ensures Assignable(types, id, e) <==> CoerceToType(v, types[id]) != Err(TypeMismatch) {
        AssignableIsExact(types, id, e, v);
      }
      assert Admits(types, e, TypeOf(Sample(a, 0)));
    }
  }

  lemma {:induction false} StmtAcceptedExactly(types: seq<TypeId>, st: Stmt)
    ensures StmtAccepted(types, st) <==> StmtFits(types, st)
    decreases st
  {
    match st
    case Assign(_, id, e) => StorableIsAssignable(types, id, e);
    case If(branches, els) =>
      forall b | b in branches
        ensures (HasType(types, b.condition, Bool) <==> Admits(types, b.condition, Bool)) && (BlockAccepted(types, b.body) <==> BlockFits(types, b.body))
      {
        TypeIsWhatComesOut(types, b.condition, Bool);
        BlockAcceptedExactly(types, b.body);
      }
      BlockAcceptedExactly(types, els);
    case While(c, body) =>
      TypeIsWhatComesOut(types, c, Bool);
      BlockAcceptedExactly(types, body);
    case Call(_, args, _) =>
      forall a | a in args ensures ArgAccepted(types, a) <==> ArgFits(types, a) {
        match a
        case InputArg(_, e, param) => StorableIsAssignable(types, param, e);
        case OutputArg(_, _, param, target) => StorableIsAssignable(types, target, Identifier("", param));
      }
    case Rung(c, _) => TypeIsWhatComesOut(types, c, Bool);
  }

  // The generator accepts exactly the statements that cannot stop on a type mismatch.
  lemma {:induction false} BlockAcceptedExactly(types: seq<TypeId>, ss: seq<Stmt>)
    ensures BlockAccepted(types, ss) <==> BlockFits(types, ss)
    decreases ss
  {
    forall st | st in ss ensures StmtAccepted(types, st) <==> StmtFits(types, st) { StmtAcceptedExactly(types, st); }
  }

  // And the programs made of them, with initial values of the declared types.
  lemma AcceptedExactly(p: Program)
    ensures Accepted(p) <==>
            && BlockFits(p.types, p.body)
            && (forall f | f in p.frames :: BlockFits(p.types, f.body) && forall r | r in f.tempResets :: r.id < |p.types|)
            && |p.initials| == |p.types| && forall i | 0 <= i < |p.types| :: TypeOf(p.initials[i]) == p.types[i]
  {
    BlockAcceptedExactly(p.types, p.body);
    forall f | f in p.frames ensures FrameAccepted(p.types, f) <==> (BlockFits(p.types, f.body) && forall r | r in f.tempResets :: r.id < |p.types|) {
      BlockAcceptedExactly(p.types, f.body);
    }
  }
}

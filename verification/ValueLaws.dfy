// What the operators of include/softplc/st/value_ops.hpp compute, operator by operator,
// and that the source's detour over doubles gives it.

module ValueLaws {
  import opened Values
  import opened DoubleArithmetic

  // asDouble
  function AsDouble(v: Value): real
    requires IsNumeric(TypeOf(v))
  {
    match v
    case VByte(n) => n as real
    case VInt(n) => n as real
    case VDInt(n) => n as real
  }

  // ---- Comparisons ----

  // BYTE, INT and DINT in any mix: the comparison of the two doubles, which is the one of
  // the two integers.
  lemma NumbersCompare(l: Value, r: Value)
    requires IsNumeric(TypeOf(l)) && IsNumeric(TypeOf(r))
    ensures EvalBinary(Eq, l, r) == Ok(VBool(AsDouble(l) == AsDouble(r))) == Ok(VBool(AsInt(l) == AsInt(r)))
    ensures EvalBinary(Ne, l, r) == Ok(VBool(AsDouble(l) != AsDouble(r))) == Ok(VBool(AsInt(l) != AsInt(r)))
    ensures EvalBinary(Lt, l, r) == Ok(VBool(AsDouble(l) < AsDouble(r))) == Ok(VBool(AsInt(l) < AsInt(r)))
    ensures EvalBinary(Gt, l, r) == Ok(VBool(AsDouble(l) > AsDouble(r))) == Ok(VBool(AsInt(l) > AsInt(r)))
    ensures EvalBinary(Le, l, r) == Ok(VBool(AsDouble(l) <= AsDouble(r))) == Ok(VBool(AsInt(l) <= AsInt(r)))
    ensures EvalBinary(Ge, l, r) == Ok(VBool(AsDouble(l) >= AsDouble(r))) == Ok(VBool(AsInt(l) >= AsInt(r)))
  {
  }

  lemma TimesCompare(a: i64, b: i64)
    ensures EvalBinary(Eq, VTime(a), VTime(b)) == Ok(VBool(a == b))
    ensures EvalBinary(Ne, VTime(a), VTime(b)) == Ok(VBool(a != b))
    ensures EvalBinary(Lt, VTime(a), VTime(b)) == Ok(VBool(a < b))
    ensures EvalBinary(Gt, VTime(a), VTime(b)) == Ok(VBool(a > b))
    ensures EvalBinary(Le, VTime(a), VTime(b)) == Ok(VBool(a <= b))
    ensures EvalBinary(Ge, VTime(a), VTime(b)) == Ok(VBool(a >= b))
  {
  }

  // BOOLs are only equal or not.
  lemma BoolsCompare(a: bool, b: bool, op: BinaryOp)
    ensures EvalBinary(Eq, VBool(a), VBool(b)) == Ok(VBool(a == b))
    ensures EvalBinary(Ne, VBool(a), VBool(b)) == Ok(VBool(a != b))
    ensures op == Lt || op == Gt || op == Le || op == Ge ==> EvalBinary(op, VBool(a), VBool(b)) == Err(TypeMismatch)
  {
  }

  // ---- Logic ----

  lemma LogicMeans(a: bool, b: bool)
    ensures EvalBinary(And, VBool(a), VBool(b)) == Ok(VBool(a && b))
    ensures EvalBinary(Or, VBool(a), VBool(b)) == Ok(VBool(a || b))
    ensures EvalBinary(Xor, VBool(a), VBool(b)) == Ok(VBool(a != b))
    ensures EvalUnary(Not, VBool(a)) == Ok(VBool(!a))
  {
  }

  // ---- Arithmetic ----

  // + - * / of an expression on numbers are the source's computation in doubles.
  lemma NumbersInDoubles(round: real -> real, op: BinaryOp, l: Value, r: Value)
    requires IsRounding(round) && op in {Add, Sub, Mul, Div} && IsNumeric(TypeOf(l)) && IsNumeric(TypeOf(r))
    ensures EvalBinary(op, l, r) == RealArithmetic(round, op, AsDouble(l), AsDouble(r), NumericResultType(TypeOf(l), TypeOf(r)))
  {
    hide IsRounding, RealArithmetic;
    DoubleArithmeticIsExact(round, op, l, r);
  }

  // In integers: the sum, difference or product where the wider operand type holds it, the
  // quotient truncated toward zero.
  lemma NumbersCompute(l: Value, r: Value)
    requires IsNumeric(TypeOf(l)) && IsNumeric(TypeOf(r))
    ensures var a, b, t := AsInt(l), AsInt(r), NumericResultType(TypeOf(l), TypeOf(r));
      && EvalBinary(Add, l, r) == FromInt(a + b, t) && EvalBinary(Sub, l, r) == FromInt(a - b, t)
      && EvalBinary(Mul, l, r) == FromInt(a * b, t)
      && EvalBinary(Div, l, r) == if b == 0 then Err(DivisionByZero) else FromInt(TruncDiv(a, b), t)
  {
  }

  lemma FloorOfQuotient(a: int, b: int)
    requires b != 0
    ensures var q := MagnitudeQuotient(a, b); q * IntAbs(b) <= IntAbs(a) && IntAbs(a) - q * IntAbs(b) < IntAbs(b)
  {
    var m, n: nat := IntAbs(a), IntAbs(b);
    NatDivision(m, n, m / n, m % n);
  }

  lemma QuotientOfZero(a: int, b: int)
    requires b != 0
    ensures a == 0 ==> MagnitudeQuotient(a, b) == 0
    ensures MagnitudeQuotient(a, b) >= 0
  {
  }

  lemma SignKept(a: int, b: int, n: nat)
    requires b != 0 && (a == 0 ==> n == 0)
    ensures var q := Signed(a, b, n); IntAbs(q) == n && (q != 0 ==> (q > 0 <==> (a > 0) == (b > 0)))
  {
  }

  // The quotient has the magnitude of the quotient of the magnitudes, rounded down, and
  // the sign of the operands: it is a / b truncated toward zero.
  lemma QuotientTruncates(a: int, b: int)
    requires b != 0
    ensures var q := TruncDiv(a, b); (q != 0 ==> (q > 0 <==> (a > 0) == (b > 0)))
    ensures var n := IntAbs(TruncDiv(a, b)); n * IntAbs(b) <= IntAbs(a) && IntAbs(a) - n * IntAbs(b) < IntAbs(b)
  {
    hide TruncDiv, Signed, MagnitudeQuotient;
    TruncDivIsSigned(a, b);
    FloorOfQuotient(a, b);
    QuotientOfZero(a, b);
    SignKept(a, b, MagnitudeQuotient(a, b));
  }

  // The result type is one of the operand types and holds what either of them holds.
  lemma WiderTypeWins(a: TypeId, b: TypeId, n: int)
    requires IsNumeric(a) && IsNumeric(b)
    ensures var t := NumericResultType(a, b);
      && (t == a || t == b) && (Fits(n, a) || Fits(n, b) ==> Fits(n, t))
  {
  }

  // A number fits its own type and comes back from it.
  lemma NumberKept(v: Value)
    requires IsNumeric(TypeOf(v))
    ensures FromInt(AsInt(v), TypeOf(v)) == Ok(v) && AsDouble(v) == AsInt(v) as real
  {
  }

  // The ranges: 8 bits unsigned, 16 and 32 bits in two's complement; outside, a fault.
  lemma RangesOfTypes(n: int)
    ensures FromInt(n, Byte) == if n < 0 || n >= 0x100 then Err(Overflow) else Ok(VByte(n))
    ensures FromInt(n, Int) == if n < -0x8000 || n >= 0x8000 then Err(Overflow) else Ok(VInt(n))
    ensures FromInt(n, DInt) == if n < -0x8000_0000 || n >= 0x8000_0000 then Err(Overflow) else Ok(VDInt(n))
  {
  }

  const TIME_MAX: int := 0x7FFF_FFFF_FFFF_FFFF
  const TIME_MIN: int := -0x8000_0000_0000_0000

  // The source's guards never overflow themselves and hold exactly where the sum or the
  // difference leaves 64 bits.
  lemma TimesAdd(a: i64, b: i64)
    ensures EvalBinary(Add, VTime(a), VTime(b)) ==
            if (b > 0 && a > TIME_MAX - b) || (b < 0 && a < TIME_MIN - b) then Err(Overflow) else Ok(VTime(a + b))
    ensures EvalBinary(Sub, VTime(a), VTime(b)) ==
            if (b > 0 && a < TIME_MIN + b) || (b < 0 && a > TIME_MAX + b) then Err(Overflow) else Ok(VTime(a - b))
    ensures b > 0 ==> TIME_MIN <= TIME_MAX - b <= TIME_MAX && TIME_MIN <= TIME_MIN + b <= TIME_MAX
    ensures b < 0 ==> TIME_MIN <= TIME_MIN - b <= TIME_MAX && TIME_MIN <= TIME_MAX + b <= TIME_MAX
    ensures EvalBinary(Mul, VTime(a), VTime(b)) == EvalBinary(Div, VTime(a), VTime(b)) == Err(TypeMismatch)
  {
  }

  // Only the lowest TIME has no negative.
  lemma NegationMeans(v: Value)
    ensures IsNumeric(TypeOf(v)) ==> EvalUnary(Neg, v) == FromDouble(-AsDouble(v), TypeOf(v)) == FromInt(-AsInt(v), TypeOf(v))
    ensures v.VTime? ==> EvalUnary(Neg, v) == if v.ms == TIME_MIN then Err(Overflow) else Ok(VTime(-v.ms))
    ensures v.VBool? ==> EvalUnary(Neg, v) == Err(TypeMismatch)
    ensures !v.VBool? ==> EvalUnary(Not, v) == Err(TypeMismatch)
  {
    if IsNumeric(TypeOf(v)) {
      assert -AsDouble(v) == (-AsInt(v)) as real;
      FromIntegralDouble(-AsInt(v), TypeOf(v));
    }
  }

  // ---- Storing ----

  // A number is narrowed over its double to the type of the target, or does not fit it.
  lemma NumberStored(v: Value, t: TypeId)
    requires IsNumeric(TypeOf(v)) && IsNumeric(t)
    ensures CoerceToType(v, t) == FromDouble(AsDouble(v), t) == FromInt(AsInt(v), t)
  {
    FromIntegralDouble(AsInt(v), t);
    NumberKept(v);
  }

  // Other values are stored as they are, in a tag of their own type only.
  lemma OtherStored(v: Value, t: TypeId)
    requires !IsNumeric(TypeOf(v)) || !IsNumeric(t)
    ensures CoerceToType(v, t) == if (v.VBool? && t == Bool) || (v.VTime? && t == Time) then Ok(v) else Err(TypeMismatch)
  {
  }

  // ---- The rest mismatches ----

  lemma OtherOperandsMismatch(op: BinaryOp, l: Value, r: Value)
    ensures op in {And, Or, Xor} && !(l.VBool? && r.VBool?) ==> EvalBinary(op, l, r) == Err(TypeMismatch)
    ensures op !in {And, Or, Xor} && !(l.VTime? && r.VTime?) && !(IsNumeric(TypeOf(l)) && IsNumeric(TypeOf(r))) && !(l.VBool? && r.VBool?) ==>
              EvalBinary(op, l, r) == Err(TypeMismatch)
    ensures op in {Add, Sub, Mul, Div} && l.VBool? && r.VBool? ==> EvalBinary(op, l, r) == Err(TypeMismatch)
    ensures IsNumeric(TypeOf(l)) <==> l.VByte? || l.VInt? || l.VDInt?
  {
  }
}

// Integer arithmetic done in doubles (include/softplc/st/value_ops.hpp).

module DoubleArithmetic {
  import opened Values

  const TWO53: real := 9007199254740992.0

  function Abs(x: real): real { if x < 0.0 then -x else x }

  const TWO32: real := 4294967296.0
  const TWO63: real := 9223372036854775808.0

  // The magnitudes that operations on 32-bit operands can reach, 0 apart; binary64 has
  // neither subnormals nor overflow there.
  predicate Reachable(x: real) { 1.0 <= Abs(x) * TWO32 && Abs(x) <= TWO63 }

  // All that is used of IEEE binary64 rounding: relative error at most 2^-53, integers
  // up to 2^53 exact.
  ghost predicate IsRounding(round: real -> real) {
    && (forall x: real | Reachable(x) :: Abs(round(x) - x) * TWO53 <= Abs(x))
    && (forall x: real :: Abs(x) <= TWO53 && x == x.Floor as real ==> round(x) == x)
  }

  // static_cast from double to an integer type: truncation toward zero.
  function TruncReal(x: real): int {
    if x >= 0.0 then x.Floor else -((-x).Floor)
  }

  function Low(t: TypeId): int
    requires IsNumeric(t)
  {
    match t case Byte => 0 case Int => -32768 case DInt => -2147483648
  }

  function High(t: TypeId): int
    requires IsNumeric(t)
  {
    match t case Byte => 255 case Int => 32767 case DInt => 2147483647
  }

  // The range test is made on the untruncated double, the cast comes after it.
  function FromDouble(d: real, t: TypeId): Result<Value>
    requires IsNumeric(t)
  {
    if d < Low(t) as real || d > High(t) as real then Err(Overflow)
    else FromInt(TruncReal(d), t)
  }

  function RealArithmetic(round: real -> real, op: BinaryOp, a: real, b: real, t: TypeId): Result<Value>
    requires IsArithmetic(op) && IsNumeric(t)
  {
    match op
    case Add => FromDouble(round(a + b), t)
    case Sub => FromDouble(round(a - b), t)
    case Mul => FromDouble(round(a * b), t)
    case Div => if b == 0.0 then Err(DivisionByZero) else FromDouble(round(a / b), t)
  }

  function ArithmeticInDoubles(round: real -> real, op: BinaryOp, l: Value, r: Value): Result<Value>
    requires IsArithmetic(op) && IsNumeric(TypeOf(l)) && IsNumeric(TypeOf(r))
  {
    RealArithmetic(round, op, AsInt(l) as real, AsInt(r) as real, NumericResultType(TypeOf(l), TypeOf(r)))
  }

  // A double that is an integer is checked and cast as that integer.
  lemma FromIntegralDouble(n: int, t: TypeId)
    requires IsNumeric(t)
    ensures FromDouble(n as real, t) == FromInt(n, t)
  {
    assert (n as real).Floor == n && (-(n as real)).Floor == -n;
  }

  // Rounding never moves an integer into or out of the range of a type.
  lemma RoundedInteger(round: real -> real, n: int, t: TypeId)
    requires IsRounding(round) && IsNumeric(t) && -0x8000_0000_0000_0000 <= n <= 0x8000_0000_0000_0000
    ensures FromDouble(round(n as real), t) == FromInt(n, t)
  {
    if -9007199254740992 <= n <= 9007199254740992 {
      FromIntegralDouble(n, t);
    } else {
      var x := n as real;
      assert Reachable(x);
      assert Abs(round(x) - x) * TWO53 <= Abs(x);
      assert Abs(x) >= TWO53;
      assert Abs(round(x) - x) <= Abs(x) / TWO53;
      assert Abs(x) / TWO53 <= Abs(x) / 2.0;
    }
  }

  // Products are passed by name: the solver then compares them as plain reals.
  lemma Monotone(p: real, q: real, b: real, pb: real, qb: real)
    requires b > 0.0 && p <= q && pb == p * b && qb == q * b
    ensures pb <= qb
  {
  }

  lemma SmallerThanGap(gap: real, e: real, b: real, gb: real, eb: real)
    requires b > 0.0 && gb == gap * b && gb >= 1.0
    requires eb == e * b && eb < 1.0
    ensures e < gap
  {
    if gap <= e { Monotone(gap, e, b, gb, eb); }
  }

  lemma ErrorBelowOne(e: real, x: real, b: real, eb: real, xb: real)
    requires b > 0.0 && e * TWO53 <= x && eb == e * b && xb == x * b && xb <= 2147483648.0
    ensures eb < 1.0
  {
    Monotone(e * TWO53, x, b, eb * TWO53, xb);
  }

  lemma GapsOfQuotient(x: real, b: real, q: real, f: real)
    requires x * b == q * b + f
    ensures (x - q) * b == f
    ensures (q + 1.0 - x) * b == b - f
  {
  }

  // x = q + f / b lies between two integers; an error below 1 / b cannot
  // carry it across either.
  lemma StaysBetween(x: real, e: real, b: real, q: real, f: real)
    requires b > 0.0 && x * b == q * b + f && 1.0 <= f <= b - 1.0
    requires e * b < 1.0
    ensures q < x - e && x + e < q + 1.0
  {
    GapsOfQuotient(x, b, q, f);
    var below, above := x - q, q + 1.0 - x;
    assert below * b >= 1.0;
    SmallerThanGap(below, e, b, below * b, e * b);
    assert above * b >= 1.0;
    SmallerThanGap(above, e, b, above * b, e * b);
  }

  lemma MulAsReal(q: int, b: int)
    ensures (q * b) as real == q as real * b as real
  {
  }

  lemma QuotientCancels(a: real, b: real)
    requires b != 0.0
    ensures a / b * b == a
  {
  }

  function IntAbs(n: int): nat { if n < 0 then -n else n }

  function Signed(a: int, b: int, q: int): int {
    if (a >= 0) == (b > 0) then q else -q
  }

  // Sign and magnitude of an exact quotient.
  lemma SignedQuotient(a: real, b: real, x: real)
    requires b != 0.0 && x * b == a
    ensures Abs(x) * Abs(b) == Abs(a)
    ensures (a >= 0.0) == (b > 0.0) ==> x >= 0.0
    ensures (a >= 0.0) != (b > 0.0) ==> x <= 0.0
  {
    if x < 0.0 {
      assert -x * b == -a;
      assert -x * -b == a;
    } else {
      assert x * -b == -a;
    }
  }

  lemma IntegerQuotient(a: int, b: int, x: real)
    requires b != 0 && x == a as real / b as real
    ensures Abs(x) * IntAbs(b) as real == IntAbs(a) as real
    ensures (a >= 0) == (b > 0) ==> x >= 0.0
    ensures (a >= 0) != (b > 0) ==> x <= 0.0
  {
    QuotientCancels(a as real, b as real);
    SignedQuotient(a as real, b as real, x);
    assert Abs(b as real) == IntAbs(b) as real && Abs(a as real) == IntAbs(a) as real;
  }

  // The double nearest to a quotient q + f / b with 0 < f < b truncates to q.
  lemma RoundedQuotient(x: real, u: real, b: real, q: int, f: real)
    requires q >= 0 && b > 0.0 && Abs(x) * b == q as real * b + f && 1.0 <= f <= b - 1.0
    requires q as real * b + f <= 2147483648.0
    requires Abs(u - x) * TWO53 <= Abs(x)
    ensures q as real < Abs(u) < q as real + 1.0
    ensures (u >= 0.0) == (x >= 0.0)
  {
    var e := Abs(u - x);
    ErrorBelowOne(e, Abs(x), b, e * b, Abs(x) * b);
    StaysBetween(Abs(x), e, b, q as real, f);
  }

  // Range test and cast of a double between two neighbouring integers of one sign.
  lemma CastBetween(u: real, q: int, n: int, t: TypeId)
    requires IsNumeric(t) && q >= 0 && q as real < Abs(u) < q as real + 1.0
    requires n == if u >= 0.0 then q else -q
    requires q < High(t) && (t == Byte ==> u >= 0.0)
    ensures FromDouble(u, t) == FromInt(n, t)
  {
    assert Abs(u).Floor == q;
  }

  // Division of two integers that does not come out even.
  lemma UnevenQuotient(x: real, u: real, a: int, b: int, q: int, f: int, t: TypeId, qb: real)
    requires IsNumeric(t) && b != 0 && Fits(a, t) && Fits(b, t)
    requires 0 < f < IntAbs(b) && 0 <= 2 * q <= IntAbs(a)
    requires qb == q as real * IntAbs(b) as real && IntAbs(a) as real == qb + f as real
    requires Abs(x) * IntAbs(b) as real == IntAbs(a) as real
    requires (a >= 0) == (b > 0) ==> x >= 0.0
    requires (a >= 0) != (b > 0) ==> x <= 0.0
    requires Abs(u - x) * TWO53 <= Abs(x)
    ensures FromDouble(u, t) == FromInt(Signed(a, b, q), t)
  {
    RoundedQuotient(x, u, IntAbs(b) as real, q, f as real);
    CastBetween(u, q, Signed(a, b, q), t);
  }

  lemma RealQuotientUnique(q: real, b: real, a: real)
    requires b != 0.0 && a == q * b
    ensures a / b == q
  {
  }

  function MagnitudeQuotient(a: int, b: int): int
    requires b != 0
  {
    IntAbs(a) / IntAbs(b)
  }

  function MagnitudeRemainder(a: int, b: int): int
    requires b != 0
  {
    IntAbs(a) % IntAbs(b)
  }

  // TruncDiv is the quotient of the magnitudes with the sign of the operands.
  lemma TruncDivIsSigned(a: int, b: int)
    requires b != 0
    ensures TruncDiv(a, b) == Signed(a, b, MagnitudeQuotient(a, b))
  {
    if a == 0 && b < 0 { assert 0 / -b == 0; }
  }

  lemma MagnitudeDivision(a: int, b: int, q: int, f: int)
    requires b != 0 && q == MagnitudeQuotient(a, b) && f == MagnitudeRemainder(a, b)
    ensures q >= 0 && 0 <= f < IntAbs(b)
    ensures IntAbs(a) as real == q as real * IntAbs(b) as real + f as real
    ensures f != 0 ==> 2 * q <= IntAbs(a)
  {
    var A, B := IntAbs(a), IntAbs(b);
    NatDivision(A, B, q, f);
    MulAsReal(q, B);
  }

  lemma NatDivision(a: nat, b: nat, q: nat, f: nat)
    requires b != 0 && q == a / b && f == a % b
    ensures a == q * b + f && f < b && (f != 0 ==> 2 * q <= a)
  {
    if b >= 2 { MulMonotone(2, b, q); }
  }

  lemma QuotientBounded(a: nat, b: nat, q: nat)
    requires b != 0 && q == a / b
    ensures q <= a
  {
    assert a == q * b + a % b;
    MulMonotone(1, b, q);
  }

  lemma MulMonotone(p: int, r: int, q: int)
    requires p <= r && q >= 0
    ensures p * q <= r * q
  {
  }

  lemma SignedProduct(a: int, b: int, n: int, q: real)
    requires b != 0 && q == n as real && IntAbs(a) as real == q * IntAbs(b) as real
    ensures a as real == Signed(a, b, n) as real * b as real
  {
    var B := IntAbs(b) as real;
    assert -q * B == -(q * B) && q * -B == -(q * B) && -q * -B == q * B;
  }

  lemma EvenQuotient(round: real -> real, a: int, b: int, q: int, t: TypeId)
    requires IsRounding(round) && IsNumeric(t) && b != 0 && -0x8000_0000 <= q <= 0x8000_0000
    requires a as real == q as real * b as real
    ensures FromDouble(round(a as real / b as real), t) == FromInt(q, t)
  {
    RealQuotientUnique(q as real, b as real, a as real);
    RoundedInteger(round, q, t);
  }

  lemma UnevenQuotientIsExact(round: real -> real, a: int, b: int, q: int, f: int, t: TypeId, x: real)
    requires IsRounding(round) && IsNumeric(t) && b != 0 && Fits(a, t) && Fits(b, t)
    requires q >= 0 && 0 < f < IntAbs(b) && 2 * q <= IntAbs(a)
    requires IntAbs(a) as real == q as real * IntAbs(b) as real + f as real
    requires x == a as real / b as real
    ensures FromDouble(round(x), t) == FromInt(Signed(a, b, q), t)
  {
    hide IsRounding, Reachable;
    IntegerQuotient(a, b, x);
    QuotientReachable(x, IntAbs(a), IntAbs(b), IntAbs(a) as real);
    RelativeError(round, x);
    UnevenQuotient(x, round(x), a, b, q, f, t, q as real * IntAbs(b) as real);
  }

  lemma QuotientReachable(x: real, a: nat, b: nat, xb: real)
    requires xb == Abs(x) * b as real && xb == a as real && 1 <= a <= 0x8000_0000 && 1 <= b <= 0x8000_0000
    ensures Reachable(x)
  {
    Monotone(1.0, b as real, Abs(x), Abs(x), xb);
    Monotone(b as real, TWO32, Abs(x), xb, Abs(x) * TWO32);
  }

  lemma RelativeError(round: real -> real, x: real)
    requires IsRounding(round) && Reachable(x)
    ensures Abs(round(x) - x) * TWO53 <= Abs(x)
  {
  }

  lemma EvenQuotientIsExact(round: real -> real, a: int, b: int, q: int, t: TypeId)
    requires IsRounding(round) && IsNumeric(t) && b != 0 && 0 <= q <= 0x8000_0000
    requires IntAbs(a) as real == q as real * IntAbs(b) as real
    ensures FromDouble(round(a as real / b as real), t) == FromInt(Signed(a, b, q), t)
  {
    hide IsRounding;
    SignedProduct(a, b, q, q as real);
    EvenQuotient(round, a, b, Signed(a, b, q), t);
  }

  lemma QuotientIsExact(round: real -> real, a: int, b: int, t: TypeId)
    requires IsRounding(round) && IsNumeric(t) && b != 0 && Fits(a, t) && Fits(b, t)
    ensures FromDouble(round(a as real / b as real), t) == FromInt(TruncDiv(a, b), t)
  {
    var q, f := MagnitudeQuotient(a, b), MagnitudeRemainder(a, b);
    TruncDivIsSigned(a, b);
    MagnitudeDivision(a, b, q, f);
    if f == 0 {
      QuotientBounded(IntAbs(a), IntAbs(b), q);
      EvenQuotientIsExact(round, a, b, q, t);
    } else {
      UnevenQuotientIsExact(round, a, b, q, f, t, a as real / b as real);
    }
  }

  lemma SumBounded(a: int, b: int, t: TypeId)
    requires IsNumeric(t) && Fits(a, t) && (Fits(b, t) || Fits(-b, t))
    ensures -0x1_0000_0000 <= a + b <= 0x1_0000_0000
  {
  }

  lemma SumIsExact(round: real -> real, a: int, b: int, t: TypeId)
    requires IsRounding(round) && IsNumeric(t) && Fits(a, t) && Fits(b, t)
    ensures FromDouble(round(a as real + b as real), t) == FromInt(a + b, t)
  {
    hide IsRounding, FromDouble, FromInt;
    SumBounded(a, b, t);
    assert a as real + b as real == (a + b) as real;
    RoundedInteger(round, a + b, t);
  }

  lemma DifferenceIsExact(round: real -> real, a: int, b: int, t: TypeId)
    requires IsRounding(round) && IsNumeric(t) && Fits(a, t) && Fits(b, t)
    ensures FromDouble(round(a as real - b as real), t) == FromInt(a - b, t)
  {
    hide IsRounding, FromDouble, FromInt;
    SumBounded(a, -b, t);
    assert a as real - b as real == (a - b) as real;
    RoundedInteger(round, a - b, t);
  }

  lemma ProductIsExact(round: real -> real, a: int, b: int, t: TypeId)
    requires IsRounding(round) && IsNumeric(t) && Fits(a, t) && Fits(b, t)
    ensures FromDouble(round(a as real * b as real), t) == FromInt(a * b, t)
  {
    MulAsReal(a, b);
    RoundedProduct(round, a, b, a * b, t);
  }

  lemma RoundedProduct(round: real -> real, a: int, b: int, ab: int, t: TypeId)
    requires IsRounding(round) && IsNumeric(t) && Fits(a, t) && Fits(b, t) && ab == a * b
    ensures FromDouble(round(ab as real), t) == FromInt(ab, t)
  {
    hide IsRounding;
    ProductBounded(a, b, ab);
    RoundedInteger(round, ab, t);
  }

  lemma ProductBounded(a: int, b: int, ab: int)
    requires -0x8000_0000 <= a <= 0x8000_0000 && -0x8000_0000 <= b <= 0x8000_0000 && ab == a * b
    ensures -0x4000_0000_0000_0000 <= ab <= 0x4000_0000_0000_0000
  {
    MulMonotone(IntAbs(a), 0x8000_0000, IntAbs(b));
    assert IntAbs(a) * IntAbs(b) == if (a < 0) == (b < 0) then ab else -ab;
  }

  lemma MultiplicationInDoubles(round: real -> real, a: int, b: int, t: TypeId)
    requires IsRounding(round) && IsNumeric(t) && Fits(a, t) && Fits(b, t)
    ensures RealArithmetic(round, Mul, a as real, b as real, t) == IntArithmetic(Mul, a, b, t)
  {
    ProductIsExact(round, a, b, t);
  }

  lemma DivisionInDoubles(round: real -> real, a: int, b: int, t: TypeId)
    requires IsRounding(round) && IsNumeric(t) && Fits(a, t) && Fits(b, t)
    ensures RealArithmetic(round, Div, a as real, b as real, t) == IntArithmetic(Div, a, b, t)
  {
    if b != 0 { QuotientIsExact(round, a, b, t); }
  }

  lemma IntegersInDoubles(round: real -> real, op: BinaryOp, a: int, b: int, t: TypeId)
    requires IsRounding(round) && IsArithmetic(op) && IsNumeric(t) && Fits(a, t) && Fits(b, t)
    ensures RealArithmetic(round, op, a as real, b as real, t) == IntArithmetic(op, a, b, t)
  {
    if op == Mul { MultiplicationInDoubles(round, a, b, t); }
    else if op == Div { DivisionInDoubles(round, a, b, t); }
    else if op == Add { SumIsExact(round, a, b, t); }
    else { DifferenceIsExact(round, a, b, t); }
  }

  // + - * / on BYTE, INT and DINT, computed in doubles with any rounding of
  // relative error at most 2^-53, fault exactly when the divisor is zero or the
  // true (truncated) result is out of range, and otherwise return it.
  lemma DoubleArithmeticIsExact(round: real -> real, op: BinaryOp, l: Value, r: Value)
    requires IsRounding(round) && IsArithmetic(op) && IsNumeric(TypeOf(l)) && IsNumeric(TypeOf(r))
    ensures ArithmeticInDoubles(round, op, l, r) == EvalArithmetic(op, l, r)
  {
    IntegersInDoubles(round, op, AsInt(l), AsInt(r), NumericResultType(TypeOf(l), TypeOf(r)));
  }
}

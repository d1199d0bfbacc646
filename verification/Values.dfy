// Tag values, tag types and the failure results shared by the whole model
// (include/softplc/tags/value.hpp, include/softplc/st/value_ops.hpp).

module Values {

  // Why a scan stops. TypeMismatch covers every "wrong kind of value" throw of
  // value_ops.hpp; Unresolved covers tag or frame numbers that do not exist.
  datatype Fault = TypeMismatch | Overflow | DivisionByZero | LoopLimit | Unresolved

  datatype Result<+T> = Ok(value: T) | Err(fault: Fault) {
    predicate IsFailure() { Err? }

    function PropagateFailure<U>(): Result<U>
      requires Err?
    {
      Err(fault)
    }

    function Extract(): T
      requires Ok?
    {
      value
    }
  }

  datatype Option<+T> = None | Some(value: T) {
    predicate IsFailure() { None? }

    function PropagateFailure<U>(): Option<U>
      requires None?
    {
      None
    }

    function Extract(): T
      requires Some?
    {
      value
    }
  }

  // The source's integer widths.
  type u8 = x: int | 0 <= x <= 255
  type i16 = x: int | -32768 <= x <= 32767
  type i32 = x: int | -2147483648 <= x <= 2147483647
  type i64 = x: int | -9223372036854775808 <= x <= 9223372036854775807

  datatype TypeId = Bool | Byte | Int | DInt | Time

  datatype Value =
    | VBool(b: bool)
    | VByte(byte: u8)
    | VInt(int16: i16)
    | VDInt(int32: i32)
    | VTime(ms: i64)

  function TypeOf(v: Value): TypeId {
    match v
    case VBool(_) => Bool
    case VByte(_) => Byte
    case VInt(_) => Int
    case VDInt(_) => DInt
    case VTime(_) => Time
  }

  function DefaultValueFor(t: TypeId): Value {
    match t
    case Bool => VBool(false)
    case Byte => VByte(0)
    case Int => VInt(0)
    case DInt => VDInt(0)
    case Time => VTime(0)
  }

  function NumericRank(t: TypeId): int {
    match t
    case Byte => 0
    case Int => 1
    case DInt => 2
    case _ => -1
  }

  predicate IsNumeric(t: TypeId) { NumericRank(t) >= 0 }

  // The integer a numeric value stands for.
  function AsInt(v: Value): int
    requires IsNumeric(TypeOf(v))
  {
    match v
    case VByte(n) => n
    case VInt(n) => n
    case VDInt(n) => n
  }

  predicate Fits(n: int, t: TypeId) {
    match t
    case Byte => 0 <= n <= 255
    case Int => -32768 <= n <= 32767
    case DInt => -2147483648 <= n <= 2147483647
    case _ => false
  }

  function FromInt(n: int, t: TypeId): Result<Value>
    requires IsNumeric(t)
  {
    if !Fits(n, t) then Err(Overflow)
    else match t
      case Byte => Ok(VByte(n))
      case Int => Ok(VInt(n))
      case DInt => Ok(VDInt(n))
  }

  function NumericResultType(a: TypeId, b: TypeId): TypeId
    requires IsNumeric(a) && IsNumeric(b)
  {
    if NumericRank(a) >= NumericRank(b) then a else b
  }

  // Every write through the interpreter or the generated code narrows to the
  // declared type of the target.
  function CoerceToType(v: Value, target: TypeId): Result<Value> {
    if TypeOf(v) == target then Ok(v)
    else if IsNumeric(TypeOf(v)) && IsNumeric(target) then FromInt(AsInt(v), target)
    else Err(TypeMismatch)
  }

  // Division of the source truncates toward zero; Dafny's is Euclidean.
  function TruncDiv(a: int, b: int): int
    requires b != 0
  {
    if a >= 0 then (if b > 0 then a / b else -(a / -b))
    else (if b > 0 then -(-a / b) else -a / -b)
  }

  datatype UnaryOp = Neg | Not
  datatype BinaryOp = Add | Sub | Mul | Div | Eq | Ne | Lt | Gt | Le | Ge | And | Or | Xor

  predicate IsArithmetic(op: BinaryOp) { op in {Add, Sub, Mul, Div} }
  predicate IsComparison(op: BinaryOp) { op in {Eq, Ne, Lt, Gt, Le, Ge} }
  predicate IsLogical(op: BinaryOp) { op in {And, Or, Xor} }

  function TimeResult(n: int): Result<Value> {
    if -9223372036854775808 <= n <= 9223372036854775807 then Ok(VTime(n)) else Err(Overflow)
  }

  function IntArithmetic(op: BinaryOp, a: int, b: int, t: TypeId): Result<Value>
    requires IsNumeric(t)
  {
    match op
    case Add => FromInt(a + b, t)
    case Sub => FromInt(a - b, t)
    case Mul => FromInt(a * b, t)
    case Div => if b == 0 then Err(DivisionByZero) else FromInt(TruncDiv(a, b), t)
    case _ => Err(TypeMismatch)
  }

  // Integer form of evalArithmetic; DoubleArithmetic proves that the source's
  // computation in doubles gives exactly this.
  function EvalArithmetic(op: BinaryOp, l: Value, r: Value): Result<Value> {
    if l.VTime? && r.VTime? then
      match op
      case Add => TimeResult(l.ms + r.ms)
      case Sub => TimeResult(l.ms - r.ms)
      case _ => Err(TypeMismatch)
    else if !IsNumeric(TypeOf(l)) || !IsNumeric(TypeOf(r)) then Err(TypeMismatch)
    else IntArithmetic(op, AsInt(l), AsInt(r), NumericResultType(TypeOf(l), TypeOf(r)))
  }

  function CompareInts(op: BinaryOp, a: int, b: int): Result<Value> {
    match op
    case Eq => Ok(VBool(a == b))
    case Ne => Ok(VBool(a != b))
    case Lt => Ok(VBool(a < b))
    case Gt => Ok(VBool(a > b))
    case Le => Ok(VBool(a <= b))
    case Ge => Ok(VBool(a >= b))
    case _ => Err(TypeMismatch)
  }

  function EvalComparison(op: BinaryOp, l: Value, r: Value): Result<Value> {
    if l.VBool? && r.VBool? then
      match op
      case Eq => Ok(VBool(l.b == r.b))
      case Ne => Ok(VBool(l.b != r.b))
      case _ => Err(TypeMismatch)
    else if l.VTime? && r.VTime? then CompareInts(op, l.ms, r.ms)
    else if IsNumeric(TypeOf(l)) && IsNumeric(TypeOf(r)) then CompareInts(op, AsInt(l), AsInt(r))
    else Err(TypeMismatch)
  }

  function EvalLogical(op: BinaryOp, l: Value, r: Value): Result<Value> {
    if !l.VBool? || !r.VBool? then Err(TypeMismatch)
    else match op
      case And => Ok(VBool(l.b && r.b))
      case Or => Ok(VBool(l.b || r.b))
      case Xor => Ok(VBool(l.b != r.b))
      case _ => Err(TypeMismatch)
  }

  function EvalUnary(op: UnaryOp, v: Value): Result<Value> {
    if op == Not then
      if v.VBool? then Ok(VBool(!v.b)) else Err(TypeMismatch)
    else if v.VTime? then TimeResult(-(v.ms as int))
    else if IsNumeric(TypeOf(v)) then FromInt(-AsInt(v), TypeOf(v))
    else Err(TypeMismatch)
  }

  function EvalBinary(op: BinaryOp, l: Value, r: Value): Result<Value> {
    if IsLogical(op) then EvalLogical(op, l, r)
    else if IsComparison(op) then EvalComparison(op, l, r)
    else EvalArithmetic(op, l, r)
  }
}

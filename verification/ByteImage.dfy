// Values of the program ABI and their place in a byte image
// (include/softplc/runtime/program_abi.h, apps/plc_runtime/main.cpp:37-51, 104-133).

module ByteImage {
  import Values

  // A C++ call that may throw; message is what() of the exception.
  datatype Outcome<+T> = Returned(value: T) | Threw(message: string) {
    predicate IsFailure() { Threw? }

    function PropagateFailure<U>(): Outcome<U>
      requires Threw?
    {
      Threw(message)
    }

    function Extract(): T
      requires Returned?
    {
      value
    }
  }

  type u8 = Values.u8
  type i64 = Values.i64
  type Text = s: seq<u8> | |s| == 256 witness Zeros(256)

  function Zeros(n: nat): (s: seq<u8>)
    ensures |s| == n && forall k | 0 <= k < n :: s[k] == 0
  {
    if n == 0 then [] else Zeros(n - 1) + [0]
  }

  datatype AbiType = BOOL | BYTE | INT | DINT | REAL | LREAL | TIME | STRING

  function Size(t: AbiType): nat {
    match t
    case BOOL => 1
    case BYTE => 1
    case INT => 2
    case DINT => 4
    case REAL => 4
    case LREAL => 8
    case TIME => 8
    case STRING => 256
  }

  // The ABI struct. A REAL or LREAL is carried as its IEEE 754 bit pattern (32 or 64 bits).
  datatype PlcValue = PlcValue(typ: AbiType, integer: i64, bits: nat, text: Text)

  const BLANK: Text := Zeros(256)

  // Valid for REAL and LREAL: a finite number, the exponent is not all ones.
  predicate FinitePattern(t: AbiType, bits: nat) {
    if t == REAL then bits < 0x1_0000_0000 && bits / 0x80_0000 % 0x100 != 0xFF
    else bits < 0x1_0000_0000_0000_0000 && bits / 0x10_0000_0000_0000 % 0x800 != 0x7FF
  }

  // Infinities and NaNs are the upper ends of both signs' patterns.
  lemma FiniteMeant(bits: nat)
    ensures FinitePattern(REAL, bits) <==> bits < 0x7F80_0000 || 0x8000_0000 <= bits < 0xFF80_0000
    ensures FinitePattern(LREAL, bits) <==>
            bits < 0x7FF0_0000_0000_0000 || 0x8000_0000_0000_0000 <= bits < 0xFFF0_0000_0000_0000
  {
  }

  predicate IntegerInRange(t: AbiType, n: int) {
    match t
    case BOOL => n == 0 || n == 1
    case BYTE => 0 <= n <= 255
    case INT => -32768 <= n <= 32767
    case DINT => -2147483648 <= n <= 2147483647
    case _ => true
  }

  function ValidateValue(v: PlcValue): Outcome<()> {
    if !IntegerInRange(v.typ, v.integer) then Threw("integer out of range")
    else if (v.typ == REAL || v.typ == LREAL) && !FinitePattern(v.typ, v.bits) then Threw("real out of range")
    else if v.typ == STRING && 0 !in v.text[..255] then Threw("STRING must be terminated within 255 bytes")
    else Returned(())
  }

  predicate Valid(v: PlcValue) { ValidateValue(v).Returned? }

  // Which values are accepted: numbers in the range of their type, finite reals, texts that
  // end within 255 bytes.
  lemma ValidMeant(v: PlcValue)
    ensures Valid(v) <==>
            match v.typ
            case BOOL => v.integer == 0 || v.integer == 1
            case BYTE => 0 <= v.integer < 256
            case INT => -0x8000 <= v.integer < 0x8000
            case DINT => -0x8000_0000 <= v.integer < 0x8000_0000
            case TIME => true
            case REAL => v.bits < 0x7F80_0000 || 0x8000_0000 <= v.bits < 0xFF80_0000
            case LREAL => v.bits < 0x7FF0_0000_0000_0000 || 0x8000_0000_0000_0000 <= v.bits < 0xFFF0_0000_0000_0000
            case STRING => exists k :: 0 <= k < 255 && v.text[k] == 0
  {
    FiniteMeant(v.bits);
    if v.typ == STRING {
      assert 0 in v.text[..255] <==> exists k :: 0 <= k < 255 && v.text[..255][k] == 0;
      assert forall k | 0 <= k < 255 :: v.text[..255][k] == v.text[k];
    }
  }

  // ---- Big-endian numbers ----

  function Pow256(k: nat): (p: nat)
    ensures p > 0
  {
    if k == 0 then 1 else 256 * Pow256(k - 1)
  }

  function Encode(n: nat, size: nat): (bs: seq<u8>)
    ensures |bs| == size
  {
    if size == 0 then [] else Encode(n / 256, size - 1) + [n % 256]
  }

  function Decode(bs: seq<u8>): nat {
    if bs == [] then 0 else 256 * Decode(bs[..|bs| - 1]) + bs[|bs| - 1]
  }

  lemma MultiplesApart(a: nat, b: nat, m: nat)
    requires a < b
    ensures a * m + m <= b * m
  {
    var gap := b - a - 1;
    assert gap * m >= 0;
    assert b * m == a * m + m + gap * m;
  }

  lemma RemainderUnique(n: nat, m: nat, q: nat, r: nat, qm: nat)
    requires m > 0 && qm == q * m && n == qm + r && r < m
    ensures n % m == r
  {
    var d := n / m;
    if d < q { MultiplesApart(d, q, m); }
    if q < d { MultiplesApart(q, d, m); }
  }

  // Dividing by 256 first splits off the last byte.
  lemma LastByte(n: nat, p: nat)
    requires p > 0
    ensures n % (256 * p) == 256 * (n / 256 % p) + n % 256
  {
    var h := n / 256;
    var q, r := h / p, h % p;
    var qp := q * p;
    assert q * (256 * p) == 256 * qp;
    RemainderUnique(n, 256 * p, q, 256 * r + n % 256, 256 * qp);
  }

  // Encoding keeps the low size bytes.
  lemma {:induction false} DecodeEncode(n: nat, size: nat)
    ensures Decode(Encode(n, size)) == n % Pow256(size)
  {
    if size > 0 {
      DecodeEncode(n / 256, size - 1);
      assert Encode(n, size)[..size - 1] == Encode(n / 256, size - 1);
      LastByte(n, Pow256(size - 1));
    }
  }

  // The first byte is the most significant one.
  lemma {:induction false} FirstByteIsHighest(n: nat, size: nat, k: nat)
    requires k < size
    ensures Encode(n, size)[k] == n / Pow256(size - 1 - k) % 256
  {
    if k < size - 1 {
      FirstByteIsHighest(n / 256, size - 1, k);
      var p := Pow256(size - 2 - k);
      assert Encode(n, size)[k] == Encode(n / 256, size - 1)[k];
      DivideTwice(n, p);
    }
  }

  lemma DivideTwice(n: nat, p: nat)
    requires p > 0
    ensures n / 256 / p == n / (256 * p)
  {
    var h := n / 256;
    var q, r := h / p, h % p;
    var qp := q * p;
    assert h == qp + r && n == 256 * h + n % 256;
    assert q * (256 * p) == 256 * qp;
    QuotientUnique(n, 256 * p, q, 256 * r + n % 256, 256 * qp);
  }

  lemma QuotientUnique(n: nat, m: nat, q: nat, r: nat, qm: nat)
    requires m > 0 && qm == q * m && n == qm + r && r < m
    ensures n / m == q
  {
    var d := n / m;
    if d < q { MultiplesApart(d, q, m); }
    if q < d { MultiplesApart(q, d, m); }
  }

  // An INT: high byte, low byte.
  lemma TwoBytes(n: nat)
    ensures Encode(n, 2) == [n / 256 % 256, n % 256]
  {
    assert Encode(n / 256, 1) == Encode(n / 256 / 256, 0) + [n / 256 % 256];
  }

  lemma WidthPowers()
    ensures Pow256(1) == 0x100 && Pow256(2) == 0x1_0000 && Pow256(4) == 0x1_0000_0000
    ensures Pow256(8) == 0x1_0000_0000_0000_0000
  {
    assert Pow256(3) == 0x100_0000 && Pow256(5) == 0x100_0000_0000;
    assert Pow256(6) == 0x1_0000_0000_0000;
  }

  // uint64_t(v.integer), or the bit pattern of a real.
  function Raw(v: PlcValue): nat {
    if v.typ == REAL || v.typ == LREAL then v.bits
    else if v.integer < 0 then v.integer + 0x1_0000_0000_0000_0000
    else v.integer
  }

  function Signed(n: nat, modulus: nat): int {
    if n >= modulus / 2 then n - modulus else n
  }

  // ---- Bits of a byte ----

  // (b >> k) & 1
  function GetBit(b: nat, k: nat): nat {
    if k == 0 then b % 2 else GetBit(b / 2, k - 1)
  }

  // (b & ~mask) | (on ? mask : 0), mask being 1 << k
  function SetBit(b: nat, k: nat, on: bool): nat {
    if k == 0 then b / 2 * 2 + (if on then 1 else 0) else SetBit(b / 2, k - 1, on) * 2 + b % 2
  }

  function Pow2(k: nat): (p: nat)
    ensures p > 0
  {
    if k == 0 then 1 else 2 * Pow2(k - 1)
  }

  // Bit 0 is the least significant one.
  lemma {:induction false} BitOfNumber(b: nat, k: nat)
    ensures GetBit(b, k) == b / Pow2(k) % 2
  {
    if k > 0 {
      BitOfNumber(b / 2, k - 1);
      HalveThenDivide(b, Pow2(k - 1));
    }
  }

  lemma HalveThenDivide(b: nat, p: nat)
    requires p > 0
    ensures b / 2 / p == b / (2 * p)
  {
    var h := b / 2;
    var q, r := h / p, h % p;
    var qp := q * p;
    assert h == qp + r && b == 2 * h + b % 2;
    assert q * (2 * p) == 2 * qp;
    QuotientUnique(b, 2 * p, q, 2 * r + b % 2, 2 * qp);
  }

  lemma {:induction false} SetBitFits(b: nat, k: nat, on: bool, width: nat)
    requires b < Pow2(width) && k < width
    ensures SetBit(b, k, on) < Pow2(width)
  {
    if k > 0 { SetBitFits(b / 2, k - 1, on, width - 1); }
  }

  lemma SetBitInByte(b: u8, k: nat, on: bool)
    requires k < 8
    ensures SetBit(b, k, on) < 256
  {
    assert Pow2(2) == 4 && Pow2(4) == 16 && Pow2(6) == 64 && Pow2(8) == 256;
    SetBitFits(b, k, on, 8);
  }

  lemma {:induction false} GetBitOfSetBit(b: nat, k: nat, on: bool, j: nat)
    ensures GetBit(SetBit(b, k, on), j) == if j == k then (if on then 1 else 0) else GetBit(b, j)
  {
    if k > 0 && j > 0 { GetBitOfSetBit(b / 2, k - 1, on, j - 1); }
  }
}

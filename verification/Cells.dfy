// Tag addresses and the byte images they live in (apps/plc_runtime/main.cpp:102-135).

module Cells {
  import opened ByteImage

  datatype Area = LOCAL | INPUT | OUTPUT | MEMORY | DB

  // Where a value lives; bit is -1 when the address names no bit.
  datatype Cell = Cell(area: Area, db: nat, offset: nat, bit: int, typ: AbiType)

  type Images = map<(Area, nat), seq<u8>>

  function Key(area: Area, db: nat): (Area, nat) {
    (area, if area == DB then db else 0)
  }

  function BitOf(c: Cell): nat {
    if c.bit < 0 then 0 else c.bit
  }

  predicate InBounds(m: Images, c: Cell) {
    && Key(c.area, c.db) in m && c.offset + Size(c.typ) <= |m[Key(c.area, c.db)]|
    && -1 <= c.bit <= 7 && (c.bit >= 0 ==> c.typ == BOOL)
  }

  // ---- Reading and writing one image ----

  function Splice(data: seq<u8>, at: nat, bs: seq<u8>): (r: seq<u8>)
    requires at + |bs| <= |data|
    ensures |r| == |data|
    ensures forall k | 0 <= k < |data| :: r[k] == if at <= k < at + |bs| then bs[k - at] else data[k]
  {
    data[..at] + bs + data[at + |bs|..]
  }

  function Blank(t: AbiType): PlcValue {
    PlcValue(t, 0, 0, BLANK)
  }

  // The first 255 bytes; text[255] is always 0.
  function TextOf(bs: seq<u8>): Text
    requires |bs| == 256
  {
    bs[..255] + [0]
  }

  // The value held by the bytes of a cell of a type other than BOOL.
  function FromBytes(t: AbiType, bs: seq<u8>): PlcValue
    requires t != BOOL && |bs| == Size(t)
  {
    var n := Decode(bs);
    match t
    case STRING => Blank(t).(text := TextOf(bs))
    case BYTE => Blank(t).(integer := n % 0x100)
    case INT => Blank(t).(integer := Signed(n % 0x1_0000, 0x1_0000))
    case DINT => Blank(t).(integer := Signed(n % 0x1_0000_0000, 0x1_0000_0000))
    case TIME => Blank(t).(integer := Signed(n % 0x1_0000_0000_0000_0000, 0x1_0000_0000_0000_0000))
    case _ => Blank(t).(bits := n)
  }

  function StringLength(s: seq<u8>): (n: nat)
    ensures n <= |s| && 0 !in s[..n] && (n < |s| ==> s[n] == 0)
  {
    if s == [] || s[0] == 0 then 0 else 1 + StringLength(s[1..])
  }

  // The text up to its NUL, then zeros.
  function Terminated(t: Text): (r: Text)
    ensures StringLength(t) < 256 ==> r[StringLength(t)] == 0
  {
    t[..StringLength(t)] + BLANK[StringLength(t)..]
  }

  function ToBytes(v: PlcValue): (bs: seq<u8>)
    requires v.typ != BOOL
    ensures |bs| == Size(v.typ)
  {
    if v.typ == STRING then Terminated(v.text) else Encode(Raw(v), Size(v.typ))
  }

  function ReadImage(data: seq<u8>, c: Cell): (v: PlcValue)
    requires c.offset + Size(c.typ) <= |data|
    ensures v.typ == c.typ
  {
    if c.typ == BOOL then Blank(BOOL).(integer := GetBit(data[c.offset], BitOf(c)) % 2)
    else FromBytes(c.typ, data[c.offset..c.offset + Size(c.typ)])
  }

  function WriteImage(data: seq<u8>, c: Cell, v: PlcValue): (r: seq<u8>)
    requires c.offset + Size(c.typ) <= |data| && v.typ == c.typ && c.bit <= 7
    ensures |r| == |data|
  {
    if c.typ == BOOL then
      SetBitInByte(data[c.offset], BitOf(c), v.integer != 0);
      data[c.offset := SetBit(data[c.offset], BitOf(c), v.integer != 0)]
    else Splice(data, c.offset, ToBytes(v))
  }

  lemma DecodeTwo(bs: seq<u8>)
    requires |bs| >= 2
    ensures Decode(bs[..2]) == bs[0] as int * 256 + bs[1]
  {
    assert bs[..2][..1] == bs[..1] && bs[..1][..0] == [];
    assert Decode(bs[..1]) == bs[0];
  }

  lemma DecodeFour(bs: seq<u8>)
    requires |bs| == 4
    ensures Decode(bs) == bs[0] as int * 0x100_0000 + bs[1] as int * 0x1_0000 + bs[2] as int * 0x100 + bs[3]
  {
    DecodeTwo(bs);
    assert bs[..3][..2] == bs[..2] && bs[..4][..3] == bs[..3] && bs[..4] == bs;
    assert Decode(bs[..3]) == 256 * Decode(bs[..2]) + bs[2];
  }

  // What the bytes of a cell read as: a BOOL is its bit, the lowest where none is given;
  // numbers come high byte first, signed ones in two's complement.
  lemma ReadBoolMeant(data: seq<u8>, c: Cell)
    requires c.typ == BOOL && c.offset + 1 <= |data|
    ensures ReadImage(data, c).integer == data[c.offset] / Pow2(if c.bit <= 0 then 0 else c.bit) % 2
  {
    hide Pow2;
    BitOfNumber(data[c.offset], BitOf(c));
    assert GetBit(data[c.offset], BitOf(c)) % 2 == GetBit(data[c.offset], BitOf(c));
  }

  lemma ReadByteMeant(data: seq<u8>, c: Cell)
    requires c.typ == BYTE && c.offset + 1 <= |data|
    ensures ReadImage(data, c).integer == data[c.offset]
  {
    var bs := data[c.offset..c.offset + 1];
    assert bs[..0] == [] && Decode(bs) == data[c.offset];
  }

  lemma ReadIntMeant(data: seq<u8>, c: Cell)
    requires c.typ == INT && c.offset + 2 <= |data|
    ensures var n := data[c.offset] as int * 256 + data[c.offset + 1];
      ReadImage(data, c).integer == if n < 0x8000 then n else n - 0x1_0000
  {
    var bs := data[c.offset..c.offset + 2];
    DecodeTwo(bs);
    assert bs[..2] == bs;
    hide Decode;
  }

  // A value read carries nothing but what its type calls for.
  lemma ReadIsBlank(data: seq<u8>, c: Cell)
    requires c.offset + Size(c.typ) <= |data|
    ensures var v := ReadImage(data, c);
      && v.typ == c.typ && (c.typ == STRING ==> v.text == data[c.offset..c.offset + 255] + [0])
      && (c.typ != STRING ==> v.text == Zeros(256)) && (c.typ != REAL && c.typ != LREAL ==> v.bits == 0)
      && (c.typ == STRING || c.typ == REAL || c.typ == LREAL ==> v.integer == 0)
  {
    hide Decode, GetBit, Zeros;
  }

  lemma ReadDIntMeant(data: seq<u8>, c: Cell)
    requires c.typ == DINT && c.offset + 4 <= |data|
    ensures var n := data[c.offset] as int * 0x100_0000 + data[c.offset + 1] as int * 0x1_0000 + data[c.offset + 2] as int * 0x100 + data[c.offset + 3];
      ReadImage(data, c).integer == if n < 0x8000_0000 then n else n - 0x1_0000_0000
  {
    DecodeFour(data[c.offset..c.offset + 4]);
  }

  const OUT_OF_BOUNDS := "DB address out of bounds"

  function ReadCell(m: Images, c: Cell): (r: Outcome<PlcValue>)
    ensures r.Returned? ==> InBounds(m, c) && r.value.typ == c.typ
  {
    if !InBounds(m, c) then Threw(OUT_OF_BOUNDS)
    else
      var v := ReadImage(m[Key(c.area, c.db)], c);
      var _ :- ValidateValue(v);
      Returned(v)
  }

  function WriteCell(m: Images, c: Cell, v: PlcValue): Outcome<Images>
    requires v.typ == c.typ
  {
    var _ :- ValidateValue(v);
    if !InBounds(m, c) then Threw(OUT_OF_BOUNDS)
    else Returned(m[Key(c.area, c.db) := WriteImage(m[Key(c.area, c.db)], c, v)])
  }

  // ---- One cell reads back what was written ----

  // What a valid value keeps through the image: all but text after its NUL.
  function Stored(v: PlcValue): PlcValue {
    match v.typ
    case STRING => Blank(STRING).(text := Terminated(v.text))
    case REAL => Blank(REAL).(bits := v.bits)
    case LREAL => Blank(LREAL).(bits := v.bits)
    case t => Blank(t).(integer := v.integer)
  }

  lemma LowBytes(v: PlcValue, m: nat)
    requires Valid(v) && v.typ != BOOL && v.typ != STRING && m == Pow256(Size(v.typ))
    ensures Decode(ToBytes(v)) == Raw(v) % m
  {
    DecodeEncode(Raw(v), Size(v.typ));
  }

  // Reducing 64-bit two's complement to a narrower signed width m keeps a value that fits.
  lemma TwosComplement(n: int, raw: nat, m: int, q: nat)
    requires raw == (if n < 0 then n + 0x1_0000_0000_0000_0000 else n)
    requires m > 0 && m % 2 == 0 && q > 0 && 0x1_0000_0000_0000_0000 == q * m
    requires -m <= 2 * n < m
    ensures Signed(raw % m % m, m) == n
  {
    var r := if n < 0 then m + n else n;
    if n < 0 {
      assert (q - 1) * m == q * m - m;
      RemainderUnique(raw, m, q - 1, r, q * m - m);
    } else {
      RemainderUnique(raw, m, 0, r, 0);
    }
    RemainderUnique(r, m, 0, r, 0);
  }

  lemma BytesRoundTrip(v: PlcValue)
    requires Valid(v) && v.typ != BOOL
    ensures FromBytes(v.typ, ToBytes(v)) == Stored(v)
  {
    if v.typ == STRING {
      TerminatedIsStored(v.text);
    } else {
      NumbersRoundTrip(v);
    }
  }

  lemma SignedRoundTrip(v: PlcValue, m: int, q: nat)
    requires Valid(v) && (v.typ == INT || v.typ == DINT || v.typ == TIME)
    requires m == Pow256(Size(v.typ)) && m % 2 == 0 && 0x1_0000_0000_0000_0000 == q * m
    requires -m <= 2 * v.integer < m
    ensures Signed(Decode(ToBytes(v)) % m, m) == v.integer
  {
    LowBytes(v, m);
    TwosComplement(v.integer, Raw(v), m, q);
  }

  lemma UnsignedRoundTrip(v: PlcValue, m: nat)
    requires Valid(v) && v.typ != BOOL && v.typ != STRING && m == Pow256(Size(v.typ)) && Raw(v) < m
    ensures Decode(ToBytes(v)) == Raw(v)
  {
    LowBytes(v, m);
    RemainderUnique(Raw(v), m, 0, Raw(v), 0);
  }

  lemma NumbersRoundTrip(v: PlcValue)
    requires Valid(v) && v.typ != BOOL && v.typ != STRING
    ensures FromBytes(v.typ, ToBytes(v)) == Stored(v)
  {
    WidthPowers();
    match v.typ
    case INT => SignedRoundTrip(v, 0x1_0000, 0x1_0000_0000_0000);
    case DINT => SignedRoundTrip(v, 0x1_0000_0000, 0x1_0000_0000);
    case TIME => SignedRoundTrip(v, 0x1_0000_0000_0000_0000, 1);
    case BYTE => UnsignedRoundTrip(v, 0x100);
    case REAL => UnsignedRoundTrip(v, 0x1_0000_0000);
    case LREAL => UnsignedRoundTrip(v, 0x1_0000_0000_0000_0000);
  }

  lemma {:induction false} StringEnds(s: seq<u8>, k: nat)
    requires k < |s| && s[k] == 0
    ensures StringLength(s) <= k
  {
    if k > 0 { StringEnds(s[1..], k - 1); }
  }

  lemma TerminatedIsStored(t: Text)
    requires 0 in t[..255]
    ensures TextOf(Terminated(t)) == Terminated(t)
  {
    var k :| 0 <= k < 255 && t[k] == 0;
    StringEnds(t, k);
  }

  lemma {:induction false} ReadBack(data: seq<u8>, c: Cell, v: PlcValue)
    requires c.offset + Size(c.typ) <= |data| && v.typ == c.typ && c.bit <= 7 && Valid(v)
    ensures ReadImage(WriteImage(data, c, v), c) == Stored(v)
  {
    if c.typ == BOOL {
      SetBitInByte(data[c.offset], BitOf(c), v.integer != 0);
      GetBitOfSetBit(data[c.offset], BitOf(c), v.integer != 0, BitOf(c));
    } else {
      var r := WriteImage(data, c, v);
      assert r[c.offset..c.offset + Size(c.typ)] == ToBytes(v);
      BytesRoundTrip(v);
    }
  }

  // ---- Disjoint cells do not interfere ----

  predicate Disjoint(c: Cell, d: Cell) {
    || Key(c.area, c.db) != Key(d.area, d.db)
    || c.offset + Size(c.typ) <= d.offset || d.offset + Size(d.typ) <= c.offset
    || (c.typ == BOOL && d.typ == BOOL && BitOf(c) != BitOf(d))
  }

  lemma OtherBitKept(data: seq<u8>, c: Cell, d: Cell, v: PlcValue)
    requires c.offset < |data| && v.typ == BOOL && c.bit <= 7
    requires c.typ == BOOL && d.typ == BOOL && d.offset == c.offset && BitOf(c) != BitOf(d)
    ensures ReadImage(WriteImage(data, c, v), d) == ReadImage(data, d)
  {
    SetBitInByte(data[c.offset], BitOf(c), v.integer != 0);
    GetBitOfSetBit(data[c.offset], BitOf(c), v.integer != 0, BitOf(d));
  }

  lemma OtherBytesKept(data: seq<u8>, c: Cell, v: PlcValue, lo: nat, hi: nat)
    requires c.offset + Size(c.typ) <= |data| && v.typ == c.typ && c.bit <= 7 && lo <= hi <= |data|
    requires hi <= c.offset || c.offset + Size(c.typ) <= lo
    ensures WriteImage(data, c, v)[lo..hi] == data[lo..hi]
  {
  }

  lemma OtherCellKept(data: seq<u8>, c: Cell, d: Cell, v: PlcValue)
    requires c.offset + Size(c.typ) <= |data| && v.typ == c.typ && c.bit <= 7
    requires d.offset + Size(d.typ) <= |data| && Disjoint(c, d) && Key(c.area, c.db) == Key(d.area, d.db)
    ensures ReadImage(WriteImage(data, c, v), d) == ReadImage(data, d)
  {
    if c.typ == BOOL && d.typ == BOOL && c.offset == d.offset {
      OtherBitKept(data, c, d, v);
    } else {
      var lo, hi := d.offset, d.offset + Size(d.typ);
      OtherBytesKept(data, c, v, lo, hi);
      assert d.typ == BOOL ==> WriteImage(data, c, v)[lo] == WriteImage(data, c, v)[lo..hi][0] == data[lo..hi][0] == data[lo];
    }
  }

  // The images refine a map from cells to values.
  lemma WriteRefinesUpdate(m: Images, c: Cell, v: PlcValue, d: Cell)
    requires v.typ == c.typ && Valid(v) && InBounds(m, c) && InBounds(m, d)
    ensures var w := WriteCell(m, c, v);
      && w.Returned? && InBounds(w.value, c) && InBounds(w.value, d)
      && ReadCell(w.value, c) == Returned(Stored(v))
      && (Disjoint(c, d) ==> ReadCell(w.value, d) == ReadCell(m, d))
  {
    var data := m[Key(c.area, c.db)];
    ReadBack(data, c, v);
    StoredValid(v);
    if Disjoint(c, d) && Key(c.area, c.db) == Key(d.area, d.db) { OtherCellKept(data, c, d, v); }
  }

  lemma StoredValid(v: PlcValue)
    requires Valid(v)
    ensures Valid(Stored(v))
  {
    if v.typ == STRING {
      TerminatedIsStored(v.text);
      assert Terminated(v.text)[255] == 0;
      var k :| 0 <= k < 255 && v.text[k] == 0;
      StringEnds(v.text, k);
      assert Terminated(v.text)[..255][StringLength(v.text)] == 0;
    }
  }

  lemma {:induction false} StringRuns(s: seq<u8>, n: nat)
    requires n <= |s| && forall k | 0 <= k < n :: s[k] != 0
    ensures StringLength(s) >= n
  {
    if n > 0 { StringRuns(s[1..], n - 1); }
  }

  lemma StoredOnce(v: PlcValue)
    requires Valid(v)
    ensures Stored(Stored(v)) == Stored(v)
  {
    if v.typ == STRING {
      var t, n := v.text, StringLength(v.text);
      var k :| 0 <= k < 255 && t[k] == 0;
      StringEnds(t, k);
      StringEnds(Terminated(t), n);
      assert forall j | 0 <= j < n :: t[..n][j] != 0;
      StringRuns(Terminated(t), n);
    }
  }
}

// Where the front end puts tags (tools/plc_project.py:208-231, 296-315). What it
// accepts is exactly the layouts on which the byte image behaves like a map.

module Layout {
  import opened ByteImage
  import opened Cells
  import opened ProcessMemory

  // Which bits of which byte are taken; the source keeps them as one mask per byte.
  type Occupied = map<(Area, nat, nat), set<nat>>

  function Taken(occ: Occupied, key: (Area, nat, nat)): set<nat> {
    if key in occ then occ[key] else {}
  }

  // 1 << max(bit, 0) for a BOOL, 255 otherwise
  function MaskBits(c: Cell): set<nat> {
    if c.typ == BOOL then {BitOf(c)} else {0, 1, 2, 3, 4, 5, 6, 7}
  }

  predicate Covers(c: Cell, area: Area, db: nat, byte: nat) {
    Key(c.area, c.db) == (area, db) && c.offset <= byte < c.offset + Size(c.typ)
  }

  predicate Claimed(cells: seq<Cell>, key: (Area, nat, nat), b: nat) {
    exists i | 0 <= i < |cells| :: Covers(cells[i], key.0, key.1, key.2) && b in MaskBits(cells[i])
  }

  // occ records exactly the bits of cells.
  ghost predicate Records(occ: Occupied, cells: seq<Cell>) {
    forall key, b :: b in Taken(occ, key) <==> Claimed(cells, key, b)
  }

  predicate CellOk(c: Cell) {
    -1 <= c.bit <= 7 && (c.area != DB ==> c.db == 0)
  }

  predicate PairwiseDisjoint(cells: seq<Cell>) {
    forall i, j | 0 <= i < j < |cells| :: Disjoint(cells[i], cells[j])
  }

  lemma MeetsIfNotDisjoint(c: Cell, d: Cell) returns (byte: nat, b: nat)
    requires CellOk(c) && CellOk(d) && !Disjoint(c, d)
    ensures Covers(c, d.area, d.db, byte) && Covers(d, d.area, d.db, byte)
    ensures b in MaskBits(c) && b in MaskBits(d)
  {
    byte := if c.offset < d.offset then d.offset else c.offset;
    b := if c.typ == BOOL then BitOf(c) else BitOf(d);
  }

  lemma DisjointNeverMeets(c: Cell, d: Cell, byte: nat, b: nat)
    requires Covers(c, d.area, d.db, byte) && Covers(d, d.area, d.db, byte) && b in MaskBits(c) && b in MaskBits(d)
    ensures !Disjoint(c, d) && !Disjoint(d, c)
  {
  }

  // Bytes offset..upto of the cell are added.
  ghost predicate Adding(occ: Occupied, cells: seq<Cell>, c: Cell, upto: nat) {
    forall key: (Area, nat, nat), b :: b in Taken(occ, key) <==>
      (Claimed(cells, key, b) || (Covers(c, key.0, key.1, key.2) && key.2 < upto && b in MaskBits(c)))
  }

  method Claim(occupied: Occupied, c: Cell, ghost cells: seq<Cell>) returns (ok: bool, occ: Occupied)
    requires CellOk(c) && Records(occupied, cells) && forall i | 0 <= i < |cells| :: CellOk(cells[i])
    ensures ok <==> forall i | 0 <= i < |cells| :: Disjoint(cells[i], c)
    ensures ok ==> Records(occ, cells + [c])
  {
    occ := occupied;
    for byte := c.offset to c.offset + Size(c.typ)
      invariant Adding(occ, cells, c, byte)
      invariant forall x, b | c.offset <= x < byte && b in MaskBits(c) :: !Claimed(cells, (c.area, c.db, x), b)
    {
      var key := (c.area, c.db, byte);
      var meet := Taken(occ, key) * MaskBits(c);
      if meet != {} {
        ghost var b :| b in meet;
        ghost var i :| 0 <= i < |cells| && Covers(cells[i], c.area, c.db, byte) && b in MaskBits(cells[i]);
        DisjointNeverMeets(cells[i], c, byte, b);
        return false, occ;
      }
      occ := AddMask(occ, cells, c, byte);
    }
    forall i | 0 <= i < |cells| ensures Disjoint(cells[i], c) {
      if !Disjoint(cells[i], c) { ClaimedUnlessDisjoint(cells, c, i); }
    }
    ok := true;
    RecordsOneMore(occ, cells, c);
  }

  lemma ClaimedUnlessDisjoint(cells: seq<Cell>, c: Cell, i: nat)
    requires CellOk(c) && i < |cells| && CellOk(cells[i]) && !Disjoint(cells[i], c)
    ensures exists x, b :: c.offset <= x < c.offset + Size(c.typ) && b in MaskBits(c) && Claimed(cells, (c.area, c.db, x), b)
  {
    var x, b := MeetsIfNotDisjoint(cells[i], c);
    assert Claimed(cells, (c.area, c.db, x), b);
  }

  lemma NoneTaken(occupied: Occupied, cells: seq<Cell>, c: Cell, byte: nat)
    requires Adding(occupied, cells, c, byte) && Taken(occupied, (c.area, c.db, byte)) * MaskBits(c) == {}
    ensures forall b | b in MaskBits(c) :: !Claimed(cells, (c.area, c.db, byte), b)
  {
    var key := (c.area, c.db, byte);
    forall b | b in MaskBits(c) ensures !Claimed(cells, key, b) {
      assert b !in Taken(occupied, key) * MaskBits(c);
      assert b !in Taken(occupied, key);
    }
  }

  method AddMask(occupied: Occupied, ghost cells: seq<Cell>, c: Cell, byte: nat) returns (occ: Occupied)
    requires CellOk(c) && Adding(occupied, cells, c, byte) && Covers(c, c.area, c.db, byte)
    requires Taken(occupied, (c.area, c.db, byte)) * MaskBits(c) == {}
    ensures Adding(occ, cells, c, byte + 1)
    ensures forall b | b in MaskBits(c) :: !Claimed(cells, (c.area, c.db, byte), b)
  {
    var key := (c.area, c.db, byte);
    NoneTaken(occupied, cells, c, byte);
    occ := occupied[key := Taken(occupied, key) + MaskBits(c)];
  }

  lemma RecordsOneMore(occ: Occupied, cells: seq<Cell>, c: Cell)
    requires Adding(occ, cells, c, c.offset + Size(c.typ))
    ensures Records(occ, cells + [c])
  {
    var all := cells + [c];
    forall key, b ensures b in Taken(occ, key) <==> Claimed(all, key, b) {
      if Claimed(cells, key, b) {
        var i :| 0 <= i < |cells| && Covers(cells[i], key.0, key.1, key.2) && b in MaskBits(cells[i]);
        assert all[i] == cells[i];
      }
      if Covers(c, key.0, key.1, key.2) && b in MaskBits(c) { assert all[|cells|] == c; }
    }
  }

  lemma PairwiseSnoc(cells: seq<Cell>, c: Cell)
    ensures PairwiseDisjoint(cells + [c]) <==> PairwiseDisjoint(cells) && forall i | 0 <= i < |cells| :: Disjoint(cells[i], c)
  {
    var all := cells + [c];
    if PairwiseDisjoint(all) {
      forall i, j | 0 <= i < j < |cells| ensures Disjoint(cells[i], cells[j]) { assert Disjoint(all[i], all[j]); }
      forall i | 0 <= i < |cells| ensures Disjoint(cells[i], c) { assert Disjoint(all[i], all[|cells|]); }
    }
  }

  // ---- Data blocks (prepare) ----

  // A field after the JSON type checks: absent offset and bit have their defaults later.
  datatype Field = Field(name: string, typ: AbiType, offset: Unset<int>, bit: Unset<int>)
  datatype Unset<T> = Default | Given(value: T)

  function OffsetOf(f: Field, cursor: nat): int {
    if f.offset.Given? then f.offset.value else cursor
  }

  function FieldBit(f: Field): int {
    if f.typ != BOOL then -1 else if f.bit.Given? then f.bit.value else 0
  }

  predicate FieldInRange(f: Field, cursor: nat) {
    0 <= OffsetOf(f, cursor) <= IMAGE_LIMIT - Size(f.typ) && -1 <= FieldBit(f) <= 7 && (f.typ == BOOL ==> FieldBit(f) >= 0)
  }

  // Where the fields go, the next one without an offset after the furthest end so far.
  function FieldCells(number: nat, fs: seq<Field>): (r: (seq<Cell>, nat))
    requires FieldsInRange(number, fs)
    ensures |r.0| == |fs|
    decreases |fs|, 1
  {
    if fs == [] then ([], 0)
    else
      var (cells, cursor) := FieldCells(number, fs[..|fs| - 1]);
      var c := FieldCell(number, fs[|fs| - 1], cursor);
      (cells + [c], Further(cursor, c))
  }

  function FieldCell(number: nat, f: Field, cursor: nat): Cell
    requires FieldInRange(f, cursor)
  {
    Cell(DB, number, OffsetOf(f, cursor), FieldBit(f), f.typ)
  }

  function Further(cursor: nat, c: Cell): nat {
    if cursor < c.offset + Size(c.typ) then c.offset + Size(c.typ) else cursor
  }

  predicate FieldsInRange(number: nat, fs: seq<Field>)
    decreases |fs|, 0
  {
    fs == [] ||
    (FieldsInRange(number, fs[..|fs| - 1]) && FieldInRange(fs[|fs| - 1], FieldCells(number, fs[..|fs| - 1]).1))
  }

  predicate NamesDistinct(fs: seq<Field>) {
    forall i, j | 0 <= i < j < |fs| :: fs[i].name != fs[j].name
  }

  // ---- The same in plain terms ----

  function EndOf(c: Cell): nat { c.offset + Size(c.typ) }

  // Byte e is the first after all these cells.
  predicate AfterAll(cells: seq<Cell>, e: nat) {
    && (forall i | 0 <= i < |cells| :: EndOf(cells[i]) <= e)
    && if cells == [] then e == 0 else exists i | 0 <= i < |cells| :: EndOf(cells[i]) == e
  }

  // A field lies at its offset or, without one, after all fields before it; a BOOL at its
  // bit or at bit 0; within 1 MiB.
  predicate Lies(number: nat, f: Field, before: seq<Cell>, c: Cell) {
    && c.area == DB && c.db == number && c.typ == f.typ && EndOf(c) <= 1_048_576
    && (match f.offset case Given(at) => c.offset == at case Default => AfterAll(before, c.offset))
    && if f.typ == BOOL then 0 <= c.bit <= 7 && (match f.bit case Given(b) => c.bit == b case Default => c.bit == 0) else c.bit == -1
  }

  predicate Lays(number: nat, fs: seq<Field>, cells: seq<Cell>) {
    |cells| == |fs| && forall k | 0 <= k < |fs| :: Lies(number, fs[k], cells[..k], cells[k])
  }

  lemma AfterOneMore(cells: seq<Cell>, cursor: nat, c: Cell)
    requires AfterAll(cells, cursor) && Size(c.typ) > 0
    ensures AfterAll(cells + [c], Further(cursor, c))
  {
    var all := cells + [c];
    if cells != [] {
      var i :| 0 <= i < |cells| && EndOf(cells[i]) == cursor;
      assert all[i] == cells[i];
    }
    assert all[|cells|] == c;
  }

  lemma AfterAllIsOne(cells: seq<Cell>, e: nat, e': nat)
    requires AfterAll(cells, e) && AfterAll(cells, e')
    ensures e == e'
  {
  }

  lemma LiesExactly(number: nat, f: Field, before: seq<Cell>, cursor: nat, c: Cell)
    requires AfterAll(before, cursor)
    ensures Lies(number, f, before, c) <==> FieldInRange(f, cursor) && c == FieldCell(number, f, cursor)
  {
    if f.offset.Default? && AfterAll(before, c.offset) { AfterAllIsOne(before, cursor, c.offset); }
  }

  // The cells computed field by field are the only ones that lie so.
  lemma {:induction false} LaysExactly(number: nat, fs: seq<Field>, cells: seq<Cell>)
    ensures Lays(number, fs, cells) <==> FieldsInRange(number, fs) && FieldCells(number, fs).0 == cells
    ensures FieldsInRange(number, fs) ==> AfterAll(FieldCells(number, fs).0, FieldCells(number, fs).1)
    decreases |fs|
  {
    if fs != [] {
      var n := |fs| - 1;
      var init := fs[..n];
      if FieldsInRange(number, init) {
        LaysExactly(number, init, FieldCells(number, init).0);
        AfterLastField(number, fs);
      }
      if |cells| == |fs| {
        LaysExactly(number, init, cells[..n]);
        LaysOneMore(number, fs, cells);
        if FieldsInRange(number, init) && FieldCells(number, init).0 == cells[..n] {
          LiesExactly(number, fs[n], cells[..n], FieldCells(number, init).1, cells[n]);
          assert cells == cells[..n] + [cells[n]];
        }
      }
    }
  }

  lemma AfterLastField(number: nat, fs: seq<Field>)
    requires fs != [] && FieldsInRange(number, fs[..|fs| - 1])
    requires AfterAll(FieldCells(number, fs[..|fs| - 1]).0, FieldCells(number, fs[..|fs| - 1]).1)
    ensures FieldsInRange(number, fs) ==> AfterAll(FieldCells(number, fs).0, FieldCells(number, fs).1)
  {
    var n := |fs| - 1;
    var (sofar, cursor) := FieldCells(number, fs[..n]);
    if FieldInRange(fs[n], cursor) {
      AfterOneMore(sofar, cursor, FieldCell(number, fs[n], cursor));
      assert FieldCells(number, fs) == (sofar + [FieldCell(number, fs[n], cursor)], Further(cursor, FieldCell(number, fs[n], cursor)));
    }
  }

  lemma LaysOneMore(number: nat, fs: seq<Field>, cells: seq<Cell>)
    requires fs != [] && |cells| == |fs|
    ensures var n := |fs| - 1;
      Lays(number, fs, cells) <==> Lays(number, fs[..n], cells[..n]) && Lies(number, fs[n], cells[..n], cells[n])
  {
    var n := |fs| - 1;
    forall k | 0 <= k < n ensures cells[..n][..k] == cells[..k] {}
    if Lays(number, fs[..n], cells[..n]) {
      forall k | 0 <= k < n ensures Lies(number, fs[k], cells[..k], cells[k]) { assert Lies(number, fs[..n][k], cells[..n][..k], cells[..n][k]); }
    }
  }

  // A data block is accepted exactly when its fields are in range, named apart and
  // pairwise disjoint.
  predicate DataBlockOk(number: nat, fs: seq<Field>) {
    FieldsInRange(number, fs) && NamesDistinct(fs) && PairwiseDisjoint(FieldCells(number, fs).0)
  }

  // What one more field needs.
  predicate FieldFits(number: nat, before: seq<Field>, f: Field)
    requires DataBlockOk(number, before)
  {
    var (cells, cursor) := FieldCells(number, before);
    && FieldInRange(f, cursor) && (forall i | 0 <= i < |before| :: before[i].name != f.name)
    && forall i | 0 <= i < |cells| :: Disjoint(cells[i], FieldCell(number, f, cursor))
  }

  lemma OneMoreField(number: nat, before: seq<Field>, f: Field)
    ensures DataBlockOk(number, before + [f]) <==> DataBlockOk(number, before) && FieldFits(number, before, f)
  {
    var all := before + [f];
    assert all[..|before|] == before;
    if FieldsInRange(number, all) {
      var (cells, cursor) := FieldCells(number, before);
      PairwiseSnoc(cells, FieldCell(number, f, cursor));
    }
    if NamesDistinct(all) {
      forall i, j | 0 <= i < j < |before| ensures before[i].name != before[j].name { assert all[i].name != all[j].name; }
      forall i | 0 <= i < |before| ensures before[i].name != f.name { assert all[i].name != all[|before|].name; }
    }
  }

  lemma {:induction false} PrefixFails(number: nat, fs: seq<Field>, k: nat)
    requires k <= |fs| && !DataBlockOk(number, fs[..k])
    ensures !DataBlockOk(number, fs)
    decreases |fs| - k
  {
    if k == |fs| {
      assert fs[..k] == fs;
    } else {
      assert fs[..k + 1] == fs[..k] + [fs[k]];
      OneMoreField(number, fs[..k], fs[k]);
      PrefixFails(number, fs, k + 1);
    }
  }

  ghost predicate Checked(number: nat, fs: seq<Field>, used: Occupied, cells: seq<Cell>, cursor: nat, names: set<string>) {
    && DataBlockOk(number, fs) && FieldCells(number, fs) == (cells, cursor)
    && Records(used, cells) && (forall i | 0 <= i < |cells| :: CellOk(cells[i]))
    && (forall i | 0 <= i < |fs| :: fs[i].name in names) && forall n | n in names :: exists i | 0 <= i < |fs| :: fs[i].name == n
  }

  method CheckField(number: nat, ghost before: seq<Field>, f: Field, used: Occupied, cells: seq<Cell>, cursor: nat, names: set<string>)
    returns (ok: bool, used': Occupied, cells': seq<Cell>, cursor': nat)
    requires Checked(number, before, used, cells, cursor, names)
    ensures ok <==> DataBlockOk(number, before + [f])
    ensures ok ==> Checked(number, before + [f], used', cells', cursor', names + {f.name})
  {
    OneMoreField(number, before, f);
    used', cells', cursor' := used, cells, cursor;
    if !FieldInRange(f, cursor) { return false, used, cells, cursor; }
    var c := FieldCell(number, f, cursor);
    ok, used' := Claim(used, c, cells);
    if !ok || f.name in names { return false, used, cells, cursor; }
    ghost var all := before + [f];
    assert all[..|before|] == before;
    assert forall n | n in names + {f.name} :: exists i | 0 <= i < |all| :: all[i].name == n by {
      forall n | n in names ensures exists i | 0 <= i < |all| :: all[i].name == n {
        var i :| 0 <= i < |before| && before[i].name == n;
        assert all[i].name == n;
      }
      assert all[|before|].name == f.name;
    }
    cursor', cells' := Further(cursor, c), cells + [c];
  }

  method CheckDataBlock(number: nat, fs: seq<Field>) returns (ok: bool, cells: seq<Cell>)
    ensures ok <==> DataBlockOk(number, fs)
    ensures ok ==> Lays(number, fs, cells) && NamesDistinct(fs) && PairwiseDisjoint(cells)
    ensures !ok ==> forall any | Lays(number, fs, any) :: !NamesDistinct(fs) || !PairwiseDisjoint(any)
  {
    forall any | Lays(number, fs, any) ensures DataBlockOk(number, fs) <==> NamesDistinct(fs) && PairwiseDisjoint(any) { LaysExactly(number, fs, any); }
    var used: Occupied, cursor, names := map[], 0, {};
    ok, cells := true, [];
    for k := 0 to |fs|
      invariant Checked(number, fs[..k], used, cells, cursor, names)
    {
      assert fs[..k + 1] == fs[..k] + [fs[k]];
      ok, used, cells, cursor := CheckField(number, fs[..k], fs[k], used, cells, cursor, names);
      if !ok {
        PrefixFails(number, fs, k + 1);
        return false, cells;
      }
      names := names + {fs[k].name};
    }
    assert fs[..|fs|] == fs;
    LaysExactly(number, fs, cells);
    ok := true;
  }

  // ---- All tags (map_symbols) ----

  datatype Symbol = Symbol(name: string, typ: AbiType, temporary: bool, area: Area, db: nat, offset: nat, bit: int)

  function SymbolCell(s: Symbol): Cell {
    Cell(s.area, s.db, s.offset, s.bit, s.typ)
  }

  // name.split('.')[0]
  function Prefix(name: string): string {
    if name == "" || name[0] == '.' then "" else [name[0]] + Prefix(name[1..])
  }

  datatype Prepared = Prepared(fields: map<string, Cell>, instances: map<string, nat>)

  type Cursors = map<nat, nat>

  function CursorOf(cur: Cursors, db: nat): nat {
    if db in cur then cur[db] else 0
  }

  // A DB field goes where prepare put it, a variable of an instance to the next free
  // byte of the instance's DB, anything else stays at its declared address.
  function PlaceSymbol(p: Prepared, cur: Cursors, s: Symbol): (Symbol, Cursors) {
    if s.name in p.fields then
      var c := p.fields[s.name];
      (s.(area := c.area, db := c.db, offset := c.offset, bit := c.bit), cur)
    else if !s.temporary && Prefix(s.name) in p.instances then
      var db := p.instances[Prefix(s.name)];
      var at := CursorOf(cur, db);
      (s.(area := DB, db := db, offset := at, bit := if s.typ == BOOL then 0 else -1), cur[db := at + Size(s.typ)])
    else (s.(db := 0), cur)
  }

  function PlaceAll(p: Prepared, ss: seq<Symbol>): (r: (seq<Symbol>, Cursors))
    ensures |r.0| == |ss|
  {
    if ss == [] then ([], map[])
    else
      var (placed, cur) := PlaceAll(p, ss[..|ss| - 1]);
      var (s, cur') := PlaceSymbol(p, cur, ss[|ss| - 1]);
      (placed + [s], cur')
  }

  // The cells of the placed symbols that live in an image.
  function Mapped(ss: seq<Symbol>): seq<Cell> {
    if ss == [] then []
    else
      var s := ss[|ss| - 1];
      if s.area == LOCAL then Mapped(ss[..|ss| - 1]) else Mapped(ss[..|ss| - 1]) + [SymbolCell(s)]
  }

  predicate BitsOk(ss: seq<Symbol>) {
    forall s | s in ss :: s.area != LOCAL && s.bit >= 0 ==> s.typ == BOOL
  }

  predicate SymbolsOk(p: Prepared, ss: seq<Symbol>) {
    BitsOk(PlaceAll(p, ss).0) && PairwiseDisjoint(Mapped(PlaceAll(p, ss).0))
  }

  // What the compiler writes and prepare hands over: at most one bit of a byte,
  // data blocks only from prepare, and each DB field under the type it was given.
  predicate SymbolParsed(p: Prepared, s: Symbol) {
    && -1 <= s.bit <= 7 && s.area != DB
    && (s.name in p.fields ==> CellOk(p.fields[s.name]) && p.fields[s.name].area == DB && p.fields[s.name].typ == s.typ)
  }

  // ---- The same in plain terms ----

  // The part of a name before its first dot.
  lemma {:induction false} PrefixMeans(name: string)
    ensures var head := Prefix(name);
      head <= name && '.' !in head && (|head| < |name| ==> name[|head|] == '.')
  {
    if name != "" && name[0] != '.' { PrefixMeans(name[1..]); }
  }

  // The bytes of an instance's DB that the variables among these take.
  function BytesTaken(p: Prepared, ss: seq<Symbol>, db: nat): nat {
    if ss == [] then 0
    else BytesTaken(p, ss[..|ss| - 1], db) + if InInstance(p, ss[|ss| - 1], db) then Size(ss[|ss| - 1].typ) else 0
  }

  // A DB field sits where prepare put it, a variable of an instance behind all earlier ones
  // of the instance's DB, anything else where it was declared.
  predicate Sits(p: Prepared, s: Symbol, before: seq<Symbol>, t: Symbol) {
    && t.name == s.name && t.typ == s.typ && t.temporary == s.temporary
    && if s.name in p.fields then
         var c := p.fields[s.name];
         t.area == c.area && t.db == c.db && t.offset == c.offset && t.bit == c.bit
       else if !s.temporary && Prefix(s.name) in p.instances then
         var db := p.instances[Prefix(s.name)];
         t.area == DB && t.db == db && t.offset == BytesTaken(p, before, db) && t.bit == if s.typ == BOOL then 0 else -1
       else t.area == s.area && t.db == 0 && t.offset == s.offset && t.bit == s.bit
  }

  predicate AllSit(p: Prepared, ss: seq<Symbol>, placed: seq<Symbol>) {
    |placed| == |ss| && forall k | 0 <= k < |ss| :: Sits(p, ss[k], ss[..k], placed[k])
  }

  lemma {:induction false} CursorIsTaken(p: Prepared, ss: seq<Symbol>, db: nat)
    ensures CursorOf(PlaceAll(p, ss).1, db) == BytesTaken(p, ss, db)
  {
    if ss != [] {
      CursorIsTaken(p, ss[..|ss| - 1], db);
      var s := ss[|ss| - 1];
      if Prefix(s.name) in p.instances { CursorIsTaken(p, ss[..|ss| - 1], p.instances[Prefix(s.name)]); }
    }
  }

  lemma SitsExactly(p: Prepared, before: seq<Symbol>, s: Symbol, t: Symbol)
    ensures Sits(p, s, before, t) <==> t == PlaceSymbol(p, PlaceAll(p, before).1, s).0
  {
    if Prefix(s.name) in p.instances { CursorIsTaken(p, before, p.instances[Prefix(s.name)]); }
  }

  // There is one way to sit.
  lemma {:induction false} SitExactly(p: Prepared, ss: seq<Symbol>, placed: seq<Symbol>)
    ensures AllSit(p, ss, placed) <==> placed == PlaceAll(p, ss).0
    decreases |ss|
  {
    if ss != [] {
      var n := |ss| - 1;
      var before := PlaceAll(p, ss[..n]).0;
      SitExactly(p, ss[..n], before);
      assert PlaceAll(p, ss).0 == before + [PlaceSymbol(p, PlaceAll(p, ss[..n]).1, ss[n]).0];
      if |placed| == |ss| {
        SitExactly(p, ss[..n], placed[..n]);
        SitsExactly(p, ss[..n], ss[n], placed[n]);
        SitOneMore(p, ss, placed);
        assert placed == placed[..n] + [placed[n]];
      }
    }
  }

  lemma SitOneMore(p: Prepared, ss: seq<Symbol>, placed: seq<Symbol>)
    requires ss != [] && |placed| == |ss|
    ensures var n := |ss| - 1; AllSit(p, ss, placed) <==> AllSit(p, ss[..n], placed[..n]) && Sits(p, ss[n], ss[..n], placed[n])
  {
    var n := |ss| - 1;
    forall k | 0 <= k < n ensures ss[..n][..k] == ss[..k] {}
    if AllSit(p, ss[..n], placed[..n]) {
      forall k | 0 <= k < n ensures Sits(p, ss[k], ss[..k], placed[k]) { assert Sits(p, ss[..n][k], ss[..n][..k], placed[..n][k]); }
    }
  }

  // Addresses with a bit are BOOLs, and no two tags in images share a bit.
  predicate NoClash(placed: seq<Symbol>) {
    && (forall k | 0 <= k < |placed| :: placed[k].area == LOCAL || placed[k].bit < 0 || placed[k].typ == BOOL)
    && forall i, j | 0 <= i < j < |placed| && placed[i].area != LOCAL && placed[j].area != LOCAL ::
         Disjoint(SymbolCell(placed[i]), SymbolCell(placed[j]))
  }

  lemma {:induction false} MappedFrom(ss: seq<Symbol>, k: nat) returns (i: nat)
    requires k < |Mapped(ss)|
    ensures i < |ss| && ss[i].area != LOCAL && Mapped(ss)[k] == SymbolCell(ss[i])
  {
    if ss[|ss| - 1].area != LOCAL && k == |Mapped(ss)| - 1 { i := |ss| - 1; } else { i := MappedFrom(ss[..|ss| - 1], k); }
  }

  lemma {:induction false} MappedDisjoint(ss: seq<Symbol>)
    requires forall i, j | 0 <= i < j < |ss| && ss[i].area != LOCAL && ss[j].area != LOCAL :: Disjoint(SymbolCell(ss[i]), SymbolCell(ss[j]))
    ensures PairwiseDisjoint(Mapped(ss))
  {
    if ss != [] {
      var n := |ss| - 1;
      MappedDisjoint(ss[..n]);
      if ss[n].area != LOCAL {
        forall k | 0 <= k < |Mapped(ss[..n])| ensures Disjoint(Mapped(ss[..n])[k], SymbolCell(ss[n])) {
          var i := MappedFrom(ss[..n], k);
          assert ss[..n][i] == ss[i];
        }
        PairwiseSnoc(Mapped(ss[..n]), SymbolCell(ss[n]));
      }
    }
  }

  lemma ClashExactly(placed: seq<Symbol>)
    ensures NoClash(placed) <==> BitsOk(placed) && PairwiseDisjoint(Mapped(placed))
  {
    if NoClash(placed) { MappedDisjoint(placed); }
    if BitsOk(placed) && PairwiseDisjoint(Mapped(placed)) {
      forall k | 0 <= k < |placed| ensures placed[k].area == LOCAL || placed[k].bit < 0 || placed[k].typ == BOOL { assert placed[k] in placed; }
      forall i, j | 0 <= i < j < |placed| && placed[i].area != LOCAL && placed[j].area != LOCAL
        ensures Disjoint(SymbolCell(placed[i]), SymbolCell(placed[j]))
      {
        MappedApart(placed, i, j);
      }
    }
  }

  // What one more symbol needs.
  predicate SymbolFits(p: Prepared, before: seq<Symbol>, s: Symbol) {
    var (placed, cur) := PlaceAll(p, before);
    var t := PlaceSymbol(p, cur, s).0;
    t.area != LOCAL ==>
      && (t.bit >= 0 ==> t.typ == BOOL)
      && forall i | 0 <= i < |Mapped(placed)| :: Disjoint(Mapped(placed)[i], SymbolCell(t))
  }

  lemma OneMorePlaced(p: Prepared, before: seq<Symbol>, s: Symbol)
    ensures var (placed, cur) := PlaceAll(p, before);
      var (t, cur') := PlaceSymbol(p, cur, s);
      PlaceAll(p, before + [s]) == (placed + [t], cur') &&
      Mapped(placed + [t]) == if t.area == LOCAL then Mapped(placed) else Mapped(placed) + [SymbolCell(t)]
  {
    var (placed, cur) := PlaceAll(p, before);
    var t := PlaceSymbol(p, cur, s).0;
    assert (before + [s])[..|before|] == before;
    assert (placed + [t])[..|placed|] == placed;
  }

  lemma OneMoreSymbol(p: Prepared, before: seq<Symbol>, s: Symbol)
    ensures SymbolsOk(p, before + [s]) <==> SymbolsOk(p, before) && SymbolFits(p, before, s)
  {
    var (placed, cur) := PlaceAll(p, before);
    var t := PlaceSymbol(p, cur, s).0;
    OneMorePlaced(p, before, s);
    if t.area != LOCAL { PairwiseSnoc(Mapped(placed), SymbolCell(t)); }
    assert forall x | x in placed :: x in placed + [t];
    assert t in placed + [t];
  }

  lemma {:induction false} LaterSymbolsFail(p: Prepared, ss: seq<Symbol>, k: nat)
    requires k <= |ss| && !SymbolsOk(p, ss[..k])
    ensures !SymbolsOk(p, ss)
    decreases |ss| - k
  {
    if k == |ss| {
      assert ss[..k] == ss;
    } else {
      assert ss[..k + 1] == ss[..k] + [ss[k]];
      OneMoreSymbol(p, ss[..k], ss[k]);
      LaterSymbolsFail(p, ss, k + 1);
    }
  }

  ghost predicate PlacedSoFar(p: Prepared, ss: seq<Symbol>, placed: seq<Symbol>, cursors: Cursors, occupied: Occupied) {
    && SymbolsOk(p, ss) && PlaceAll(p, ss) == (placed, cursors)
    && Records(occupied, Mapped(placed)) && forall i | 0 <= i < |Mapped(placed)| :: CellOk(Mapped(placed)[i])
  }

  method MapSymbol(p: Prepared, ghost before: seq<Symbol>, symbol: Symbol, placed: seq<Symbol>, cursors: Cursors, occupied: Occupied)
    returns (ok: bool, placed': seq<Symbol>, cursors': Cursors, occupied': Occupied)
    requires SymbolParsed(p, symbol) && PlacedSoFar(p, before, placed, cursors, occupied)
    ensures ok <==> SymbolsOk(p, before + [symbol])
    ensures ok ==> PlacedSoFar(p, before + [symbol], placed', cursors', occupied')
  {
    var (s, next) := PlaceSymbol(p, cursors, symbol);
    OneMoreSymbol(p, before, symbol);
    OneMorePlaced(p, before, symbol);
    ok, placed', cursors', occupied' := true, placed + [s], next, occupied;
    if s.area != LOCAL {
      if s.bit >= 0 && s.typ != BOOL { return false, placed, cursors, occupied; }
      ok, occupied' := Claim(occupied, SymbolCell(s), Mapped(placed));
    }
  }

  method MapSymbols(p: Prepared, ss: seq<Symbol>) returns (ok: bool, placed: seq<Symbol>)
    requires forall s | s in ss :: SymbolParsed(p, s)
    ensures ok <==> SymbolsOk(p, ss)
    ensures ok ==> placed == PlaceAll(p, ss).0 && AllSit(p, ss, placed) && NoClash(placed)
    ensures !ok ==> forall any | AllSit(p, ss, any) :: !NoClash(any)
  {
    hide AllSit, NoClash, SymbolsOk, PlacedSoFar;
    OnlyOnePlacing(p, ss);
    NothingPlaced(p);
    var cursors: Cursors, occupied: Occupied := map[], map[];
    ok, placed := true, [];
    for k := 0 to |ss|
      invariant PlacedSoFar(p, ss[..k], placed, cursors, occupied)
    {
      assert ss[k] in ss && ss[..k + 1] == ss[..k] + [ss[k]];
      ok, placed, cursors, occupied := MapSymbol(p, ss[..k], ss[k], placed, cursors, occupied);
      if !ok {
        LaterSymbolsFail(p, ss, k + 1);
        return false, placed;
      }
    }
    assert ss[..|ss|] == ss;
    AllPlaced(p, ss, placed, cursors, occupied);
    ok := true;
  }

  lemma NothingPlaced(p: Prepared)
    ensures PlacedSoFar(p, [], [], map[], map[])
  {
  }

  lemma AllPlaced(p: Prepared, ss: seq<Symbol>, placed: seq<Symbol>, cursors: Cursors, occupied: Occupied)
    requires PlacedSoFar(p, ss, placed, cursors, occupied)
    ensures SymbolsOk(p, ss) && placed == PlaceAll(p, ss).0
  {
  }

  lemma OnlyOnePlacing(p: Prepared, ss: seq<Symbol>)
    ensures AllSit(p, ss, PlaceAll(p, ss).0) && forall any | AllSit(p, ss, any) :: any == PlaceAll(p, ss).0
    ensures SymbolsOk(p, ss) ==> NoClash(PlaceAll(p, ss).0)
    ensures NoClash(PlaceAll(p, ss).0) ==> SymbolsOk(p, ss)
  {
    SitExactly(p, ss, PlaceAll(p, ss).0);
    forall any | AllSit(p, ss, any) ensures any == PlaceAll(p, ss).0 { SitExactly(p, ss, any); }
    ClashExactly(PlaceAll(p, ss).0);
  }

  // ---- What an accepted layout means for the running program ----

  lemma {:induction false} InMapped(ss: seq<Symbol>, i: nat) returns (k: nat)
    requires i < |ss| && ss[i].area != LOCAL
    ensures k < |Mapped(ss)| && Mapped(ss)[k] == SymbolCell(ss[i])
  {
    if i == |ss| - 1 { k := |Mapped(ss)| - 1; } else { k := InMapped(ss[..|ss| - 1], i); }
  }

  lemma {:induction false} MappedApart(ss: seq<Symbol>, i: nat, j: nat)
    requires PairwiseDisjoint(Mapped(ss)) && i < j < |ss| && ss[i].area != LOCAL && ss[j].area != LOCAL
    ensures Disjoint(SymbolCell(ss[i]), SymbolCell(ss[j]))
  {
    var init, s := ss[..|ss| - 1], ss[|ss| - 1];
    if s.area != LOCAL { PairwiseSnoc(Mapped(init), SymbolCell(s)); }
    if j < |ss| - 1 {
      MappedApart(init, i, j);
    } else {
      var k := InMapped(init, i);
    }
  }

  // Every program whose symbols were accepted has a disjoint layout, the premise under
  // which ProcessMemory.Memory.Write is a map update.
  lemma AcceptedLayoutIsDisjoint(p: Prepared, ss: seq<Symbol>, tags: seq<TagDef>)
    requires SymbolsOk(p, ss) && |tags| == |ss|
    requires forall i | 0 <= i < |ss| :: CellOf(tags[i]) == SymbolCell(PlaceAll(p, ss).0[i])
    ensures LayoutDisjoint(tags)
  {
    var placed := PlaceAll(p, ss).0;
    forall i, j | 0 <= i < j < |tags| ensures CellsApart(tags, i, j) {
      assert CellOf(tags[i]) == SymbolCell(placed[i]) && CellOf(tags[j]) == SymbolCell(placed[j]);
      if tags[i].area != LOCAL && tags[j].area != LOCAL { MappedApart(placed, i, j); }
    }
  }

  predicate InInstance(p: Prepared, s: Symbol, db: nat) {
    s.name !in p.fields && !s.temporary && Prefix(s.name) in p.instances && p.instances[Prefix(s.name)] == db
  }

  // The allocator alone never makes two variables of one instance DB collide.
  lemma {:induction false} InstanceVariablesApart(p: Prepared, ss: seq<Symbol>, i: nat, j: nat, db: nat)
    requires i < j < |ss| && InInstance(p, ss[i], db) && InInstance(p, ss[j], db)
    ensures var placed := PlaceAll(p, ss).0;
      && placed[i].area == DB && placed[j].area == DB && placed[i].db == db == placed[j].db
      && placed[i].offset + Size(ss[i].typ) <= placed[j].offset
  {
    var init := ss[..|ss| - 1];
    if j < |ss| - 1 {
      InstanceVariablesApart(p, init, i, j, db);
    } else {
      CursorPassed(p, init, i, db);
    }
  }

  lemma {:induction false} CursorPassed(p: Prepared, ss: seq<Symbol>, i: nat, db: nat)
    requires i < |ss| && InInstance(p, ss[i], db)
    ensures var (placed, cur) := PlaceAll(p, ss);
      && placed[i].area == DB && placed[i].db == db && placed[i].offset + Size(ss[i].typ) <= CursorOf(cur, db)
  {
    if i < |ss| - 1 { CursorPassed(p, ss[..|ss| - 1], i, db); }
  }
}

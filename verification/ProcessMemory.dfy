// The CPU's tag memory (struct Memory, apps/plc_runtime/main.cpp:80-137).

module ProcessMemory {
  import opened ByteImage
  import opened Cells

  datatype TagDef = TagDef(name: string, typ: AbiType, initial: PlcValue, area: Area, db: nat, offset: nat, bit: int)

  const IMAGE_LIMIT: nat := 1_048_576
  const TOTAL_LIMIT: nat := 64 * 1_048_576

  function CellOf(d: TagDef): Cell {
    Cell(d.area, d.db, d.offset, d.bit, d.typ)
  }

  // What a generated module's symbol map guarantees (see Layout).
  predicate LayoutDisjoint(tags: seq<TagDef>) {
    forall i, j | 0 <= i < j < |tags| :: CellsApart(tags, i, j)
  }

  predicate CellsApart(tags: seq<TagDef>, i: nat, j: nat)
    requires i < |tags| && j < |tags|
  {
    tags[i].area != LOCAL && tags[j].area != LOCAL ==> Disjoint(CellOf(tags[i]), CellOf(tags[j]))
  }

  lemma ApartEitherWay(tags: seq<TagDef>, i: nat, j: nat)
    requires LayoutDisjoint(tags) && i < |tags| && j < |tags| && i != j
    requires tags[i].area != LOCAL && tags[j].area != LOCAL
    ensures Disjoint(CellOf(tags[i]), CellOf(tags[j]))
  {
    if i < j { assert CellsApart(tags, i, j); } else { assert CellsApart(tags, j, i); }
  }

  predicate DescriptorOk(d: TagDef) {
    d.initial.typ == d.typ && -1 <= d.bit <= 7 && (d.bit >= 0 ==> d.typ == BOOL)
  }

  // Tag i is described properly, has a typed local value and lies inside its image.
  predicate TagReady(tags: seq<TagDef>, images: Images, store: seq<PlcValue>, i: nat)
    requires i < |tags| && i < |store|
  {
    && DescriptorOk(tags[i]) && ByteImage.Valid(tags[i].initial)
    && store[i].typ == tags[i].typ && ByteImage.Valid(store[i]) && store[i] == Stored(store[i])
    && (tags[i].area != LOCAL ==> InBounds(images, CellOf(tags[i])))
  }

  predicate Ready(tags: seq<TagDef>, images: Images, store: seq<PlcValue>) {
    |store| == |tags| && forall i | 0 <= i < |tags| :: TagReady(tags, images, store, i)
  }

  function ReadTag(tags: seq<TagDef>, images: Images, store: seq<PlcValue>, i: nat): Outcome<PlcValue>
    requires i < |tags| && i < |store|
  {
    if tags[i].area == LOCAL then Returned(store[i]) else ReadCell(images, CellOf(tags[i]))
  }

  function TagValues(tags: seq<TagDef>, images: Images, store: seq<PlcValue>): (c: seq<Outcome<PlcValue>>)
    requires |store| == |tags|
    ensures |c| == |tags| && forall i | 0 <= i < |tags| :: c[i] == ReadTag(tags, images, store, i)
  {
    seq(|tags|, i requires 0 <= i < |tags| => ReadTag(tags, images, store, i))
  }

  predicate AllZero(data: seq<u8>) {
    forall k | 0 <= k < |data| :: data[k] == 0
  }

  predicate OutputsZero(images: Images) {
    forall k | k in images && k.0 == OUTPUT :: AllZero(images[k])
  }

  predicate SameShape(m: Images, m': Images) {
    m.Keys == m'.Keys && forall k | k in m :: |m[k]| == |m'[k]|
  }

  predicate SameExcept(m: Images, m': Images, key: (Area, nat)) {
    SameShape(m, m') && forall k | k in m && k != key :: m[k] == m'[k]
  }

  // The images a program's tags call for, each as long as its furthest tag.
  function ImagesFor(tags: seq<TagDef>): Images {
    if tags == [] then map[] else Grown(ImagesFor(tags[..|tags| - 1]), tags[|tags| - 1])
  }

  function Grown(m: Images, d: TagDef): Images {
    if d.area == LOCAL then m
    else
      var key := Key(d.area, d.db);
      var data := if key in m then m[key] else [];
      var end := d.offset + Size(d.typ);
      m[key := if |data| < end then data + Zeros(end - |data|) else data]
  }

  predicate FitsImage(d: TagDef) {
    d.area == LOCAL || (d.offset <= IMAGE_LIMIT && d.offset + Size(d.typ) <= IMAGE_LIMIT)
  }

  predicate TagAccepted(d: TagDef) {
    DescriptorOk(d) && ByteImage.Valid(d.initial) && FitsImage(d)
  }

  predicate TagsAccepted(tags: seq<TagDef>) {
    && (forall i | 0 <= i < |tags| :: TagAccepted(tags[i]))
    && forall i, j | 0 <= i < j < |tags| :: tags[i].name != tags[j].name
  }

  // ---- Writing one tag, on values ----

  function WriteTag(tags: seq<TagDef>, images: Images, store: seq<PlcValue>, id: nat, v: PlcValue): (Images, seq<PlcValue>)
    requires Ready(tags, images, store) && id < |tags| && v.typ == tags[id].typ && ByteImage.Valid(v)
  {
    assert TagReady(tags, images, store, id);
    if tags[id].area == LOCAL then (images, store[id := Stored(v)])
    else
      var w := WriteCell(images, CellOf(tags[id]), v);
      (w.value, store)
  }

  lemma TagStaysReady(tags: seq<TagDef>, images: Images, store: seq<PlcValue>, m: Images, s: seq<PlcValue>, i: nat)
    requires i < |tags| && i < |store| == |s| && TagReady(tags, images, store, i) && SameShape(images, m)
    requires s[i] == store[i] || (s[i].typ == tags[i].typ && ByteImage.Valid(s[i]) && s[i] == Stored(s[i]))
    ensures TagReady(tags, m, s, i)
  {
    hide ByteImage.Valid, Stored, DescriptorOk;
  }

  // What a write of a tag changes: one image, or one local value.
  lemma WriteTagChanges(tags: seq<TagDef>, images: Images, store: seq<PlcValue>, id: nat, v: PlcValue)
    requires Ready(tags, images, store) && id < |tags| && v.typ == tags[id].typ && ByteImage.Valid(v)
    ensures var (m, s) := WriteTag(tags, images, store, id, v);
      && SameExcept(images, m, Key(tags[id].area, tags[id].db))
      && s == if tags[id].area == LOCAL then store[id := Stored(v)] else store
  {
    hide ValidateValue, Stored, WriteImage, DescriptorOk;
    assert TagReady(tags, images, store, id);
  }

  lemma WrittenTagReads(tags: seq<TagDef>, images: Images, store: seq<PlcValue>, id: nat, v: PlcValue)
    requires Ready(tags, images, store) && id < |tags| && v.typ == tags[id].typ && ByteImage.Valid(v)
    ensures var (m, s) := WriteTag(tags, images, store, id, v);
      |s| == |store| && ReadTag(tags, m, s, id) == Returned(Stored(v))
  {
    assert TagReady(tags, images, store, id);
    if tags[id].area != LOCAL { WriteRefinesUpdate(images, CellOf(tags[id]), v, CellOf(tags[id])); }
    hide ByteImage.Valid, Stored, WriteCell, ReadCell, DescriptorOk;
  }

  lemma WriteTagKeepsReady(tags: seq<TagDef>, images: Images, store: seq<PlcValue>, id: nat, v: PlcValue)
    requires Ready(tags, images, store) && id < |tags| && v.typ == tags[id].typ && ByteImage.Valid(v)
    ensures var (m, s) := WriteTag(tags, images, store, id, v);
      && Ready(tags, m, s) && SameExcept(images, m, Key(tags[id].area, tags[id].db))
      && ReadTag(tags, m, s, id) == Returned(Stored(v))
  {
    var (m, s) := WriteTag(tags, images, store, id, v);
    assert Stored(v).typ == v.typ;
    hide ByteImage.Valid, Stored, WriteTag, ReadTag, TagReady;
    WriteTagChanges(tags, images, store, id, v);
    WrittenTagReads(tags, images, store, id, v);
    StoredValid(v);
    StoredOnce(v);
    forall i | 0 <= i < |tags| ensures TagReady(tags, m, s, i) { TagStaysReady(tags, images, store, m, s, i); }
  }

  lemma ReadyKept(tags: seq<TagDef>, images: Images, images': Images, store: seq<PlcValue>)
    requires Ready(tags, images, store) && SameShape(images, images')
    ensures Ready(tags, images', store)
  {
    forall i | 0 <= i < |tags| ensures TagReady(tags, images', store, i) { assert TagReady(tags, images, store, i); }
  }

  // A TIME always reads, and reads as what writing it back would store.
  lemma TimeReads(tags: seq<TagDef>, images: Images, store: seq<PlcValue>, id: nat)
    requires Ready(tags, images, store) && id < |tags| && tags[id].typ == TIME
    ensures var r := ReadTag(tags, images, store, id);
      r.Returned? && r.value.typ == TIME && ByteImage.Valid(r.value) && Stored(r.value) == r.value
  {
    assert TagReady(tags, images, store, id);
  }

  // On a disjoint layout the memory is a map from tags to values.
  lemma WriteTagRefinesUpdate(tags: seq<TagDef>, images: Images, store: seq<PlcValue>, id: nat, v: PlcValue, j: nat)
    requires Ready(tags, images, store) && id < |tags| && v.typ == tags[id].typ && ByteImage.Valid(v)
    requires LayoutDisjoint(tags) && j < |tags| && j != id
    ensures var (m, s) := WriteTag(tags, images, store, id, v);
      |s| == |store| && ReadTag(tags, m, s, j) == ReadTag(tags, images, store, j)
  {
    assert TagReady(tags, images, store, id) && TagReady(tags, images, store, j);
    if tags[id].area != LOCAL && tags[j].area != LOCAL {
      ApartEitherWay(tags, id, j);
      WriteRefinesUpdate(images, CellOf(tags[id]), v, CellOf(tags[j]));
    }
  }

  // The address a tag's text shows: a BOOL always with a bit, 0 when none was given.
  function ShownCell(d: TagDef): Cell {
    CellOf(d).(bit := if d.typ == BOOL then BitOf(CellOf(d)) else -1)
  }

  // Raw access at the shown address of a tag in a DB reads and writes the tag.
  lemma RawAccessAgrees(tags: seq<TagDef>, images: Images, store: seq<PlcValue>, id: nat, v: PlcValue)
    requires Ready(tags, images, store) && id < |tags| && tags[id].area == DB
    requires v.typ == tags[id].typ && ByteImage.Valid(v)
    ensures ReadCell(images, ShownCell(tags[id])) == ReadTag(tags, images, store, id)
    ensures WriteCell(images, ShownCell(tags[id]), v) == Returned(WriteTag(tags, images, store, id, v).0)
  {
    assert TagReady(tags, images, store, id);
  }

  // Zeros and then the text up to its NUL make the stored text.
  lemma TextSpliced(image: seq<u8>, at: nat, text: Text)
    requires at + 256 <= |image|
    ensures Splice(Splice(image, at, Zeros(256)), at, text[..StringLength(text)]) == Splice(image, at, Terminated(text))
  {
    hide StringLength;
  }

  // ---- The memory object ----

  class Memory {
    const tags: seq<TagDef>
    const names: map<string, nat>
    var images: Images
    var store: seq<PlcValue>

    ghost predicate Valid()
      reads this
    {
      && Ready(tags, images, store)
      && forall n | n in names :: names[n] < |tags| && tags[names[n]].name == n
    }

    // The value each tag reads as.
    ghost function Contents(): (c: seq<Outcome<PlcValue>>)
      requires Valid()
      reads this
      ensures |c| == |tags|
    {
      TagValues(tags, images, store)
    }

    constructor (tags: seq<TagDef>, names: map<string, nat>, images: Images)
      requires forall n | n in names :: names[n] < |tags| && tags[names[n]].name == n
      requires forall i | 0 <= i < |tags| ::
        && DescriptorOk(tags[i]) && ByteImage.Valid(tags[i].initial)
        && (tags[i].area != LOCAL ==> InBounds(images, CellOf(tags[i])))
      ensures Valid() && this.tags == tags && this.names == names
      ensures SameShape(this.images, images)
      ensures LayoutDisjoint(tags) ==> forall i | 0 <= i < |tags| :: Contents()[i] == Returned(Stored(tags[i].initial))
    {
      this.tags, this.names, this.images := tags, names, images;
      this.store := seq(|tags|, i requires 0 <= i < |tags| => Stored(tags[i].initial));
      new;
      forall i | 0 <= i < |tags| ensures TagReady(tags, images, store, i) {
        StoredValid(tags[i].initial);
        StoredOnce(tags[i].initial);
      }
      Reset();
    }

    // ---- Raw addresses ----

    method ReadAddress(c: Cell) returns (r: Outcome<PlcValue>)
      ensures r == ReadCell(images, c)
    {
      if !InBounds(images, c) { return Threw(OUT_OF_BOUNDS); }
      var data := images[Key(c.area, c.db)];
      var v := Blank(c.typ);
      if c.typ == BOOL {
        v := v.(integer := GetBit(data[c.offset], BitOf(c)) % 2);
        return Returned(v);
      }
      var bs := data[c.offset..c.offset + Size(c.typ)];
      if c.typ == STRING {
        v := v.(text := TextOf(bs));
      } else {
        var n: nat := 0;
        for i := 0 to |bs|
          invariant n == Decode(bs[..i])
        {
          n := n * 0x100 + bs[i];
          assert bs[..i + 1][..i] == bs[..i];
        }
        assert bs[..|bs|] == bs;
        match c.typ
        case BYTE => v := v.(integer := n % 0x100);
        case INT => v := v.(integer := Signed(n % 0x1_0000, 0x1_0000));
        case DINT => v := v.(integer := Signed(n % 0x1_0000_0000, 0x1_0000_0000));
        case TIME => v := v.(integer := Signed(n % 0x1_0000_0000_0000_0000, 0x1_0000_0000_0000_0000));
        case _ => v := v.(bits := n);
      }
      var ok := ValidateValue(v);
      return if ok.Returned? then Returned(v) else Threw(ok.message);
    }

    method WriteAddress(c: Cell, v: PlcValue) returns (r: Outcome<()>)
      requires Valid() && v.typ == c.typ
      modifies this`images
      ensures Valid() && SameExcept(old(images), images, Key(c.area, c.db))
      ensures r == (match WriteCell(old(images), c, v) case Returned(_) => Returned(()) case Threw(m) => Threw(m))
      ensures images == match WriteCell(old(images), c, v) case Returned(m) => m case Threw(_) => old(images)
    {
      r := ValidateValue(v);
      if r.Threw? { return; }
      if !InBounds(images, c) { return Threw(OUT_OF_BOUNDS); }
      var data, key := images[Key(c.area, c.db)], Key(c.area, c.db);
      if c.typ == BOOL {
        SetBitInByte(data[c.offset], BitOf(c), v.integer != 0);
        data := data[c.offset := SetBit(data[c.offset], BitOf(c), v.integer != 0)];
      } else if c.typ == STRING {
        data := Splice(data, c.offset, Zeros(256));
        data := Splice(data, c.offset, v.text[..StringLength(v.text)]);
        TextSpliced(images[key], c.offset, v.text);
      } else {
        data := PutNumber(data, c.offset, Raw(v), Size(c.typ));
      }
      images := images[key := data];
      ReadyKept(tags, old(images), images, store);
    }

    static method PutNumber(image: seq<u8>, at: nat, n: nat, size: nat) returns (data: seq<u8>)
      requires at + size <= |image|
      ensures data == Splice(image, at, Encode(n, size))
    {
      data := image;
      var rest := n;
      for i := 0 to size
        invariant |data| == |image|
        invariant Encode(n, size) == Encode(rest, size - i) + data[at + size - i..at + size]
        invariant data[..at + size - i] == image[..at + size - i] && data[at + size..] == image[at + size..]
      {
        var last := at + size - i - 1;
        ghost var tail := data[at + size - i..at + size];
        data := data[last := rest % 0x100];
        assert data[last..at + size] == [rest % 0x100] + tail;
        assert Encode(rest, size - i) == Encode(rest / 0x100, size - i - 1) + [rest % 0x100];
        rest := rest / 0x100;
      }
      assert data == data[..at] + data[at..at + size] + data[at + size..];
    }

    // ---- Tags ----

    method Read(id: nat) returns (r: Outcome<PlcValue>)
      requires Valid()
      ensures r == if id < |tags| then Contents()[id] else Threw("invalid tag ID")
    {
      if id >= |tags| { return Threw("invalid tag ID"); }
      if tags[id].area == LOCAL { return Returned(store[id]); }
      r := ReadAddress(CellOf(tags[id]));
    }

    // Writing a tag is a map update on every disjoint layout.
    method Write(id: nat, v: PlcValue) returns (r: Outcome<()>)
      requires Valid()
      modifies this
      ensures Valid()
      ensures r.Returned? <==> id < |tags| && tags[id].typ == v.typ && ByteImage.Valid(v)
      ensures r.Threw? ==> images == old(images) && store == old(store)
      ensures r.Returned? ==> (images, store) == WriteTag(tags, old(images), old(store), id, v)
      ensures r.Returned? ==> SameExcept(old(images), images, Key(tags[id].area, tags[id].db))
      ensures r.Returned? ==> Contents()[id] == Returned(Stored(v))
      ensures r.Returned? && LayoutDisjoint(tags) ==> Contents() == old(Contents())[id := Returned(Stored(v))]
    {
      if id >= |tags| || tags[id].typ != v.typ { return Threw("tag type mismatch"); }
      r := ValidateValue(v);
      if r.Threw? { return; }
      ghost var m, s := images, store;
      assert TagReady(tags, images, store, id);
      if tags[id].area == LOCAL { store := store[id := Stored(v)]; } else { r := WriteAddress(CellOf(tags[id]), v); }
      WriteTagKeepsReady(tags, m, s, id, v);
      if LayoutDisjoint(tags) {
        forall j | 0 <= j < |tags| && j != id ensures ReadTag(tags, images, store, j) == ReadTag(tags, m, s, j) {
          WriteTagRefinesUpdate(tags, m, s, id, v, j);
        }
      }
    }

    // ---- Whole images ----

    method Reset()
      requires Valid()
      modifies this
      ensures Valid() && SameShape(old(images), images)
      ensures LayoutDisjoint(tags) ==> forall i | 0 <= i < |tags| :: Contents()[i] == Returned(Stored(tags[i].initial))
    {
      images := map k | k in images :: Zeros(|images[k]|);
      ReadyKept(tags, old(images), images, store);
      for i := 0 to |tags|
        invariant Valid() && SameShape(old(images), images)
        invariant LayoutDisjoint(tags) ==> forall j | 0 <= j < i :: Contents()[j] == Returned(Stored(tags[j].initial))
      {
        assert TagReady(tags, images, store, i);
        var _ := Write(i, tags[i].initial);
      }
    }

    method SafeOutputs()
      requires Valid()
      modifies this`images
      ensures Valid() && OutputsZero(images) && SameShape(old(images), images)
      ensures forall k | k in images && k.0 != OUTPUT :: images[k] == old(images)[k]
      ensures forall i | 0 <= i < |tags| && tags[i].area != OUTPUT :: Contents()[i] == old(Contents())[i]
    {
      images := map k | k in images :: if k.0 == OUTPUT then Zeros(|images[k]|) else images[k];
      ReadyKept(tags, old(images), images, store);
    }
  }

  // The sizes of all images added up, in any order.
  ghost function Sizes(m: Images): nat
    decreases |m|
  {
    if m == map[] then 0
    else
      var k :| k in m;
      |m[k]| + Sizes(m - {k})
  }

  lemma {:induction false} SizesWithout(m: Images, k: (Area, nat))
    requires k in m
    ensures Sizes(m) == |m[k]| + Sizes(m - {k})
    decreases |m|
  {
    var j :| j in m && Sizes(m) == |m[j]| + Sizes(m - {j});
    if j != k {
      SizesWithout(m - {j}, k);
      SizesWithout(m - {k}, j);
      assert m - {j} - {k} == m - {k} - {j};
    }
  }

  method TotalSize(m: Images) returns (total: nat)
    ensures total == Sizes(m)
  {
    total := 0;
    var rest := m;
    while rest != map[]
      invariant total + Sizes(rest) == Sizes(m)
      decreases |rest|
    {
      var k :| k in rest;
      SizesWithout(rest, k);
      total, rest := total + |rest[k]|, rest - {k};
    }
  }

  // The tags of a program that can be given a memory.
  ghost predicate MemoryFits(tags: seq<TagDef>) {
    TagsAccepted(tags) && Sizes(ImagesFor(tags)) <= TOTAL_LIMIT
  }

  ghost predicate Building(tags: seq<TagDef>, names: map<string, nat>, images: Images) {
    && TagsAccepted(tags) && images == ImagesFor(tags)
    && (forall i | 0 <= i < |tags| && tags[i].area != LOCAL :: InBounds(images, CellOf(tags[i])))
    && (forall i | 0 <= i < |tags| :: tags[i].name in names)
    && forall n | n in names :: names[n] < |tags| && tags[names[n]].name == n
  }

  // The limits in numbers: 1 MiB an image, 64 MiB together; descriptors agree with
  // themselves, and names differ.
  predicate TagLimits(d: TagDef) {
    && d.initial.typ == d.typ && ByteImage.Valid(d.initial) && -1 <= d.bit <= 7 && (d.bit >= 0 ==> d.typ == BOOL)
    && (d.area != LOCAL ==> d.offset + Size(d.typ) <= 1_048_576)
  }

  lemma TagLimitsMeant(d: TagDef)
    ensures TagAccepted(d) <==> TagLimits(d)
  {
  }

  lemma MemoryLimits(tags: seq<TagDef>)
    ensures MemoryFits(tags) <==>
            && (forall i | 0 <= i < |tags| :: TagLimits(tags[i]))
            && (forall i, j | 0 <= i < j < |tags| :: tags[i].name != tags[j].name)
            && Sizes(ImagesFor(tags)) <= 67_108_864
  {
    hide TagAccepted, TagLimits, Sizes, ImagesFor;
    forall i | 0 <= i < |tags| ensures TagAccepted(tags[i]) <==> TagLimits(tags[i]) { TagLimitsMeant(tags[i]); }
  }

  // An image for each address area and data block with a tag, ending with its furthest one.
  lemma {:induction false} ImagesMeant(tags: seq<TagDef>, key: (Area, nat))
    ensures var m := ImagesFor(tags);
      && (key in m <==> exists i | 0 <= i < |tags| :: tags[i].area != LOCAL && Key(tags[i].area, tags[i].db) == key)
      && (key in m ==> AllZero(m[key]))
      && (key in m ==> forall i | 0 <= i < |tags| && tags[i].area != LOCAL && Key(tags[i].area, tags[i].db) == key :: tags[i].offset + Size(tags[i].typ) <= |m[key]|)
      && (key in m ==> exists i | 0 <= i < |tags| :: tags[i].area != LOCAL && Key(tags[i].area, tags[i].db) == key && tags[i].offset + Size(tags[i].typ) == |m[key]|)
  {
    if tags != [] {
      var n := |tags| - 1;
      ImagesMeant(tags[..n], key);
      forall i | 0 <= i < n ensures tags[..n][i] == tags[i] {}
    }
  }

  // A program's tags make a memory exactly when each is acceptable, names differ and
  // the total is in bounds; its tags then start at their initial values.
  method CreateMemory(tags: seq<TagDef>) returns (r: Outcome<Memory>)
    ensures r.Returned? <==> MemoryFits(tags)
    ensures r.Returned? ==> fresh(r.value) && r.value.Valid() && r.value.tags == tags && SameShape(r.value.images, ImagesFor(tags))
    ensures r.Returned? ==> forall i | 0 <= i < |tags| :: tags[i].name in r.value.names
    ensures r.Returned? && LayoutDisjoint(tags) ==>
      forall i | 0 <= i < |tags| :: r.value.Contents()[i] == Returned(Stored(tags[i].initial))
  {
    var names: map<string, nat>, images: Images := map[], map[];
    for k := 0 to |tags|
      invariant Building(tags[..k], names, images)
    {
      var d := tags[k];
      if !DescriptorOk(d) { return Threw("invalid tag descriptor"); }
      var valid := ValidateValue(d.initial);
      if valid.Threw? { return Threw(valid.message); }
      if d.name in names { return Threw("duplicate tag"); }
      if !FitsImage(d) { return Threw("DB exceeds 1 MiB"); }
      assert tags[..k + 1] == tags[..k] + [d];
      BuildOneMore(tags[..k], names, images, d);
      names, images := names[d.name := k], Grown(images, d);
    }
    assert tags[..|tags|] == tags;
    var total := TotalSize(images);
    if total > TOTAL_LIMIT { return Threw("memory image exceeds 64 MiB"); }
    var memory := new Memory(tags, names, images);
    r := Returned(memory);
  }

  lemma AcceptedOneMore(tags: seq<TagDef>, names: map<string, nat>, d: TagDef)
    requires TagsAccepted(tags) && TagAccepted(d) && d.name !in names && forall i | 0 <= i < |tags| :: tags[i].name in names
    ensures TagsAccepted(tags + [d])
  {
    hide TagAccepted;
  }

  lemma NamesOneMore(tags: seq<TagDef>, names: map<string, nat>, d: TagDef)
    requires (forall i | 0 <= i < |tags| :: tags[i].name in names) && forall n | n in names :: names[n] < |tags| && tags[names[n]].name == n
    requires d.name !in names
    ensures var all, names' := tags + [d], names[d.name := |tags|];
            && (forall i | 0 <= i < |all| :: all[i].name in names')
            && forall n | n in names' :: names'[n] < |all| && all[names'[n]].name == n
  {
  }

  lemma StillInBounds(images: Images, d: TagDef, c: TagDef)
    requires InBounds(images, CellOf(c))
    ensures InBounds(Grown(images, d), CellOf(c))
  {
  }

  lemma NowInBounds(images: Images, d: TagDef)
    requires TagAccepted(d) && d.area != LOCAL
    ensures InBounds(Grown(images, d), CellOf(d))
  {
  }

  lemma BuildOneMore(tags: seq<TagDef>, names: map<string, nat>, images: Images, d: TagDef)
    requires Building(tags, names, images) && TagAccepted(d) && d.name !in names
    ensures Building(tags + [d], names[d.name := |tags|], Grown(images, d))
  {
    hide TagsAccepted, TagAccepted, InBounds, CellOf, Grown;
    var all, m := tags + [d], Grown(images, d);
    AcceptedOneMore(tags, names, d);
    NamesOneMore(tags, names, d);
    assert all[..|tags|] == tags;
    forall i | 0 <= i < |all| && all[i].area != LOCAL ensures InBounds(m, CellOf(all[i])) {
      if i < |tags| { StillInBounds(images, d, tags[i]); } else { NowInBounds(images, d); }
    }
  }
}

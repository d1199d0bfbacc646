// Mapping tags to Modbus registers: validation, batching and the register codec
// (src/io/modbus_mapping.cpp).

module Modbus {
  import opened Values

  type u16 = x: int | 0 <= x < 0x1_0000
  type u32 = x: int | 0 <= x < 0x1_0000_0000

  datatype Table = Coil | DiscreteInput | HoldingRegister | InputRegister
  datatype WordOrder = BigEndianWords | LittleEndianWords
  datatype PointType = BOOL | BYTE | INT | DINT | REAL | OTHER

  // output tells whether the point's tag lives at a %Q address.
  datatype Point = Point(typ: PointType, table: Table, address: u16, wordOrder: WordOrder, output: bool)

  function Count(p: Point): nat {
    match p.typ
    case BOOL => 1
    case BYTE => 1
    case INT => 1
    case DINT => 2
    case REAL => 2
    case OTHER => 0
  }

  function End(p: Point): nat { p.address + Count(p) }

  function Wrap16(n: nat): u16 { n % 0x1_0000 }

  predicate IsBitTable(t: Table) { t == Coil || t == DiscreteInput }

  predicate IsReadOnly(t: Table) { t == DiscreteInput || t == InputRegister }

  // ---- Grouping ----

  predicate Ascending(ps: seq<Point>) {
    forall i, j | 0 <= i < j < |ps| :: ps[i].address <= ps[j].address
  }

  function Place(p: Point, ps: seq<Point>): (r: seq<Point>)
    ensures multiset(r) == multiset(ps) + multiset{p} && |r| == |ps| + 1
  {
    if ps == [] || p.address <= ps[0].address then [p] + ps
    else
      assert ps == [ps[0]] + ps[1..];
      [ps[0]] + Place(p, ps[1..])
  }

  function Group(ps: seq<Point>, t: Table): seq<Point> {
    if ps == [] then []
    else if ps[0].table == t then Place(ps[0], Group(ps[1..], t))
    else Group(ps[1..], t)
  }

  function OfTable(ps: seq<Point>, t: Table): seq<Point> {
    if ps == [] then [] else (if ps[0].table == t then [ps[0]] else []) + OfTable(ps[1..], t)
  }

  lemma PlacedFrom(p: Point, ps: seq<Point>, i: nat)
    requires i < |Place(p, ps)|
    ensures Place(p, ps)[i] == p || Place(p, ps)[i] in ps
  {
    assert Place(p, ps)[i] in multiset(Place(p, ps));
  }

  lemma {:induction false} PlaceAscending(p: Point, ps: seq<Point>)
    requires Ascending(ps)
    ensures Ascending(Place(p, ps))
  {
    if ps != [] && p.address > ps[0].address {
      var rest := Place(p, ps[1..]);
      PlaceAscending(p, ps[1..]);
      forall i | 0 <= i < |rest| ensures ps[0].address <= rest[i].address { PlacedFrom(p, ps[1..], i); }
    }
  }

  // The points of one table by ascending address; std::sort leaves points of equal
  // address in any order.
  predicate IsGroup(ps: seq<Point>, t: Table, g: seq<Point>) {
    Ascending(g) && multiset(g) == multiset(OfTable(ps, t))
  }

  datatype Groups = Groups(coils: seq<Point>, inputs: seq<Point>, holding: seq<Point>, registers: seq<Point>) {
    function Of(t: Table): seq<Point> {
      match t case Coil => coils case DiscreteInput => inputs case HoldingRegister => holding case InputRegister => registers
    }
  }

  predicate Grouping(ps: seq<Point>, groups: Groups) {
    forall t: Table :: IsGroup(ps, t, groups.Of(t))
  }

  // Sorting by insertion is one way to get there.
  lemma {:induction false} GroupSorts(ps: seq<Point>, t: Table)
    ensures IsGroup(ps, t, Group(ps, t))
  {
    if ps != [] {
      GroupSorts(ps[1..], t);
      if ps[0].table == t { PlaceAscending(ps[0], Group(ps[1..], t)); }
    }
  }

  lemma GroupMember(ps: seq<Point>, t: Table, g: seq<Point>, p: Point)
    requires IsGroup(ps, t, g) && p in g
    ensures p in ps && p.table == t
  {
    assert p in multiset(g);
    TableMember(ps, t, p);
  }

  lemma {:induction false} TableMember(ps: seq<Point>, t: Table, p: Point)
    requires p in OfTable(ps, t)
    ensures p in ps && p.table == t
  {
    if !(ps[0].table == t && p == ps[0]) { TableMember(ps[1..], t, p); }
  }

  // ---- Validation ----

  predicate PointOk(p: Point) {
    && (if IsBitTable(p.table) then p.typ == BOOL else p.typ != BOOL && p.typ != OTHER)
    && !(IsReadOnly(p.table) && p.output)
    && Count(p) > 0 && End(p) <= 0x1_0000
  }

  // The overlap check looks at neighbours only, and computes an end in 16 bits.
  predicate NeighboursOk(g: seq<Point>) {
    forall i | 0 < i < |g| :: g[i].address >= Wrap16(End(g[i - 1]))
  }

  predicate Accepted(ps: seq<Point>, groups: Groups)
    requires Grouping(ps, groups)
  {
    (forall p | p in ps :: PointOk(p)) && forall t: Table :: NeighboursOk(groups.Of(t))
  }

  // The rules for one point: BOOLs in bit tables and numbers in register tables; nothing a
  // table cannot write may be fed from an output; the range ends within 16 bits.
  predicate PointRules(p: Point) {
    && (match p.table
        case Coil => p.typ == BOOL
        case DiscreteInput => p.typ == BOOL && !p.output
        case HoldingRegister => p.typ in {BYTE, INT, DINT, REAL}
        case InputRegister => p.typ in {BYTE, INT, DINT, REAL} && !p.output)
    && p.address + Registers(p) <= 65536
  }

  // One for a BOOL, BYTE or INT, two for a DINT or REAL.
  function Registers(p: Point): nat {
    if p.typ == DINT || p.typ == REAL then 2 else if p.typ == OTHER then 0 else 1
  }

  // The next point starts at or after the end of this one, or this one ends at 65536.
  predicate PassesAsNext(a: Point, b: Point) {
    b.address >= a.address + Registers(a) || a.address + Registers(a) == 65536
  }

  lemma PointRulesMeant(p: Point)
    ensures PointOk(p) <==> PointRules(p)
    ensures PointOk(p) ==> forall b: Point :: PassesAsNext(p, b) <==> b.address >= Wrap16(End(p))
  {
  }

  lemma RulesMeant(ps: seq<Point>, groups: Groups)
    requires Grouping(ps, groups)
    ensures Accepted(ps, groups) <==>
            && (forall p | p in ps :: PointRules(p))
            && forall t: Table, i: nat | 0 < i < |groups.Of(t)| :: PassesAsNext(groups.Of(t)[i - 1], groups.Of(t)[i])
  {
    hide IsGroup, PointOk, PointRules, PassesAsNext, Wrap16, End;
    forall p: Point ensures PointOk(p) <==> PointRules(p) { PointRulesMeant(p); }
    if forall p | p in ps :: PointOk(p) {
      forall t: Table, i: nat | 0 < i < |groups.Of(t)|
        ensures PassesAsNext(groups.Of(t)[i - 1], groups.Of(t)[i]) <==> groups.Of(t)[i].address >= Wrap16(End(groups.Of(t)[i - 1]))
      {
        GroupMember(ps, t, groups.Of(t), groups.Of(t)[i - 1]);
        PointRulesMeant(groups.Of(t)[i - 1]);
      }
    }
  }

  method ValidatePoint(p: Point) returns (ok: bool)
    ensures ok <==> PointOk(p)
  {
    if IsBitTable(p.table) {
      if p.typ != BOOL { return false; }
    } else if p.typ == BOOL || p.typ == OTHER {
      return false;
    }
    if IsReadOnly(p.table) && p.output { return false; }
    ok := Count(p) > 0 && p.address + Count(p) <= 65536;
  }

  // groups is what sorting the points of each table has left.
  method ValidatePoints(ps: seq<Point>, groups: Groups) returns (ok: bool)
    requires Grouping(ps, groups)
    ensures ok <==> Accepted(ps, groups)
    ensures ok <==> (forall p | p in ps :: PointRules(p)) &&
                    forall t: Table, i: nat | 0 < i < |groups.Of(t)| :: PassesAsNext(groups.Of(t)[i - 1], groups.Of(t)[i])
  {
    hide IsGroup, NeighboursOk, PointOk, PointRules, PassesAsNext;
    RulesMeant(ps, groups);
    for i := 0 to |ps|
      invariant forall k | 0 <= k < i :: PointOk(ps[k])
    {
      var good := ValidatePoint(ps[i]);
      if !good { return false; }
    }
    var tables := [Coil, DiscreteInput, HoldingRegister, InputRegister];
    for k := 0 to 4
      invariant forall j | 0 <= j < k :: NeighboursOk(groups.Of(tables[j]))
    {
      var good := CheckNeighbours(groups.Of(tables[k]));
      if !good { return false; }
    }
    forall t: Table ensures NeighboursOk(groups.Of(t)) {
      assert t == tables[0] || t == tables[1] || t == tables[2] || t == tables[3];
    }
    ok := true;
  }

  method CheckNeighbours(g: seq<Point>) returns (ok: bool)
    ensures ok <==> NeighboursOk(g)
  {
    var i := 1;
    while i < |g|
      invariant 1 <= i
      invariant forall k | 0 < k < i && k < |g| :: g[k].address >= Wrap16(End(g[k - 1]))
    {
      var prevEnd := Wrap16(End(g[i - 1]));
      if g[i].address < prevEnd { return false; }
      i := i + 1;
    }
    ok := true;
  }

  predicate Disjoint(g: seq<Point>) {
    forall i, j | 0 <= i < j < |g| :: End(g[i]) <= g[j].address
  }

  predicate OnlyLastReachesTop(g: seq<Point>) {
    forall i | 0 <= i < |g| - 1 :: End(g[i]) < 0x1_0000
  }

  lemma {:induction false} NeighboursChain(g: seq<Point>, i: nat, j: nat)
    requires NeighboursOk(g) && OnlyLastReachesTop(g) && i < j < |g|
    ensures End(g[i]) <= g[j].address
    decreases j - i
  {
    assert g[j].address >= Wrap16(End(g[j - 1]));
    if i < j - 1 { NeighboursChain(g, i, j - 1); }
  }

  // What validation accepts is free of overlaps exactly when no range but the last of
  // a table ends at 65536, where the 16-bit end wraps to 0.
  lemma AcceptedIsDisjointUnlessWrapped(ps: seq<Point>, groups: Groups, t: Table)
    requires Grouping(ps, groups) && Accepted(ps, groups)
    ensures Disjoint(groups.Of(t)) <==> OnlyLastReachesTop(groups.Of(t))
  {
    var g := groups.Of(t);
    if OnlyLastReachesTop(g) {
      forall i, j | 0 <= i < j < |g| ensures End(g[i]) <= g[j].address { NeighboursChain(g, i, j); }
    }
    if Disjoint(g) {
      forall i | 0 <= i < |g| - 1 ensures End(g[i]) < 0x1_0000 { assert End(g[i]) <= g[i + 1].address; }
    }
  }

  // Two overlapping points that validation accepts.
  lemma OverlapAtTheTopIsAccepted(a: Point, b: Point, groups: Groups)
    requires a == Point(DINT, HoldingRegister, 65534, BigEndianWords, false)
    requires b == Point(INT, HoldingRegister, 65535, BigEndianWords, false)
    requires groups == Groups([], [], [a, b], [])
    ensures Grouping([a, b], groups) && Accepted([a, b], groups) && !Disjoint(groups.Of(HoldingRegister))
  {
    hide IsGroup, Grouping, Accepted, PointOk;
    PairVerdict(a, b, groups, [a, b]);
    PairIsOk(a, b);
    assert End(groups.holding[0]) > groups.holding[1].address;
  }

  lemma PairIsGrouped(a: Point, b: Point, groups: Groups, g: seq<Point>)
    requires a.table == b.table == HoldingRegister && a.address <= b.address
    requires g == [a, b] || (a.address == b.address && g == [b, a])
    requires groups == Groups([], [], g, [])
    ensures Grouping([a, b], groups)
  {
    hide IsGroup;
    forall t: Table ensures IsGroup([a, b], t, groups.Of(t)) {
      PairOfTable(a, b, t);
      if t == HoldingRegister { SwapIsGroup(a, b, t, g); } else { NothingIsGroup([a, b], t); }
    }
  }

  lemma PairOfTable(a: Point, b: Point, t: Table)
    requires a.table == b.table == HoldingRegister
    ensures OfTable([a, b], t) == if t == HoldingRegister then [a, b] else []
  {
    assert [a, b][1..] == [b] && [b][1..] == [];
    assert OfTable([b], t) == if t == HoldingRegister then [b] else [];
  }

  lemma NothingIsGroup(ps: seq<Point>, t: Table)
    requires OfTable(ps, t) == []
    ensures IsGroup(ps, t, [])
  {
  }

  lemma SwapIsGroup(a: Point, b: Point, t: Table, g: seq<Point>)
    requires OfTable([a, b], t) == [a, b] && a.address <= b.address
    requires g == [a, b] || (a.address == b.address && g == [b, a])
    ensures IsGroup([a, b], t, g)
  {
    hide OfTable;
  }

  lemma PairVerdict(a: Point, b: Point, groups: Groups, g: seq<Point>)
    requires a.table == b.table == HoldingRegister && a.address <= b.address
    requires g == [a, b] || (a.address == b.address && g == [b, a])
    requires groups == Groups([], [], g, [])
    ensures Grouping([a, b], groups)
    ensures Accepted([a, b], groups) <==> PointOk(a) && PointOk(b) && g[1].address >= Wrap16(End(g[0]))
  {
    PairIsGrouped(a, b, groups, g);
    hide IsGroup, PointOk, Grouping, Wrap16, End, NeighboursOk, Accepted;
    PairNeighbours(g);
    OneTable(groups, g);
    TablesDecide([a, b], groups, g);
    assert a in [a, b] && b in [a, b];
  }

  lemma TablesDecide(ps: seq<Point>, groups: Groups, g: seq<Point>)
    requires Grouping(ps, groups) && ((forall t: Table :: NeighboursOk(groups.Of(t))) <==> NeighboursOk(g))
    ensures Accepted(ps, groups) <==> (forall p | p in ps :: PointOk(p)) && NeighboursOk(g)
  {
    hide Grouping, PointOk, NeighboursOk;
  }

  lemma OneTable(groups: Groups, g: seq<Point>)
    requires groups == Groups([], [], g, [])
    ensures (forall t: Table :: NeighboursOk(groups.Of(t))) <==> NeighboursOk(g)
  {
    hide Wrap16, End;
    assert groups.Of(HoldingRegister) == g;
    forall t: Table ensures t != HoldingRegister ==> NeighboursOk(groups.Of(t)) {}
  }

  lemma PairNeighbours(g: seq<Point>)
    requires |g| == 2
    ensures NeighboursOk(g) <==> g[1].address >= Wrap16(End(g[0]))
  {
    hide Wrap16, End;
    if g[1].address >= Wrap16(End(g[0])) {
      forall i | 0 < i < |g| ensures g[i].address >= Wrap16(End(g[i - 1])) { assert i == 1; }
    }
  }

  lemma PairIsOk(a: Point, b: Point)
    requires a.table == b.table == HoldingRegister && a.typ == DINT && b.typ == INT && a.address == 65534 && !a.output && !b.output
    ensures PointOk(a) && PointOk(b)
  {
  }

  // Near the top the verdict can hang on the order sorting leaves equal addresses in.
  lemma OrderCanDecide(a: Point, b: Point, one: Groups, other: Groups)
    requires a == Point(DINT, HoldingRegister, 65534, BigEndianWords, false)
    requires b == Point(INT, HoldingRegister, 65534, BigEndianWords, false)
    requires one == Groups([], [], [a, b], [])
    requires other == Groups([], [], [b, a], [])
    ensures Grouping([a, b], one) && Accepted([a, b], one)
    ensures Grouping([a, b], other) && !Accepted([a, b], other)
  {
    hide IsGroup, Grouping, Accepted, PointOk;
    PairVerdict(a, b, one, [a, b]);
    PairVerdict(a, b, other, [b, a]);
    PairIsOk(a, b);
  }

  // Elsewhere it cannot: without a range that ends at 65536, what one order passes every
  // order passes, because there is only one.
  lemma OrderRarelyMatters(ps: seq<Point>, t: Table, g: seq<Point>, h: seq<Point>)
    requires (forall p | p in ps :: PointOk(p)) && IsGroup(ps, t, g) && IsGroup(ps, t, h)
    requires forall p | p in g :: End(p) < 0x1_0000
    requires NeighboursOk(g)
    ensures h == g && NeighboursOk(h)
  {
    forall p | p in g ensures Count(p) > 0 { GroupMember(ps, t, g, p); }
    forall i, j | 0 <= i < j < |g| ensures g[i].address < g[j].address {
      NeighboursChain(g, i, j);
    }
    SortedOnce(g, h);
  }

  lemma {:induction false} SortedOnce(g: seq<Point>, h: seq<Point>)
    requires multiset(g) == multiset(h) && Ascending(h) && forall i, j | 0 <= i < j < |g| :: g[i].address < g[j].address
    ensures g == h
  {
    assert |multiset(h)| == |multiset(g)|;
    if g != [] {
      FirstAgrees(g, h);
      TailBag(g);
      TailBag(h);
      SortedOnce(g[1..], h[1..]);
      assert g == [g[0]] + g[1..] && h == [h[0]] + h[1..];
    }
  }

  lemma FirstAgrees(g: seq<Point>, h: seq<Point>)
    requires g != [] && h != [] && multiset(g) == multiset(h) && Ascending(h)
    requires forall i, j | 0 <= i < j < |g| :: g[i].address < g[j].address
    ensures h[0] == g[0]
  {
    assert g[0] in multiset(h) && h[0] in multiset(g);
    var k :| 0 <= k < |h| && h[k] == g[0];
    var i :| 0 <= i < |g| && g[i] == h[0];
    assert h[0].address <= h[k].address;
    assert g[0].address <= g[i].address;
  }

  lemma TailBag(g: seq<Point>)
    requires g != []
    ensures multiset(g[1..]) == multiset(g) - multiset{g[0]}
  {
    assert g == [g[0]] + g[1..];
  }

  // ---- Batching ----

  datatype Batch = Batch(table: Table, start: u16, quantity: u16, points: seq<Point>)

  // Section 6.1 and 6.3 of the MODBUS Application Protocol V1.1b3.
  function MaxQuantity(t: Table): nat { if IsBitTable(t) then 2000 else 125 }

  function Total(ps: seq<Point>): nat {
    if ps == [] then 0 else Total(ps[..|ps| - 1]) + Count(ps[|ps| - 1])
  }

  predicate GapFree(ps: seq<Point>) {
    forall i | 0 < i < |ps| :: ps[i].address == End(ps[i - 1])
  }

  // A run one request can carry.
  predicate Fits(ps: seq<Point>, cap: nat) {
    ps != [] && GapFree(ps) && Total(ps) <= cap
  }

  // What one request may read, in numbers: 2000 coils or inputs, 125 registers.
  predicate OneRequest(t: Table, run: seq<Point>) {
    && run != [] && (forall i | 0 < i < |run| :: run[i].address == run[i - 1].address + Registers(run[i - 1]))
    && Sum(run) <= match t { case Coil => 2000 case DiscreteInput => 2000 case HoldingRegister => 125 case InputRegister => 125 }
  }

  function Sum(ps: seq<Point>): nat {
    if ps == [] then 0 else Registers(ps[0]) + Sum(ps[1..])
  }

  lemma {:induction false} SumIsTotal(ps: seq<Point>)
    ensures Sum(ps) == Total(ps)
    decreases |ps|
  {
    if |ps| > 1 {
      var last := |ps| - 1;
      SumIsTotal(ps[1..]);
      SumIsTotal(ps[..last]);
      SumIsTotal(ps[1..last]);
      assert ps[1..][..last - 1] == ps[1..last] == ps[..last][1..];
    } else if |ps| == 1 {
      assert ps[..0] == ps[1..] == [];
    }
  }

  lemma OneRequestFits(t: Table, run: seq<Point>)
    ensures OneRequest(t, run) <==> Fits(run, MaxQuantity(t))
  {
    SumIsTotal(run);
    forall p: Point ensures Count(p) == Registers(p) {}
  }

  lemma {:induction false} RunEnds(ps: seq<Point>)
    requires ps != [] && GapFree(ps)
    ensures ps[0].address + Total(ps) == End(ps[|ps| - 1])
  {
    if |ps| > 1 { RunEnds(ps[..|ps| - 1]); }
  }

  // How far the greedy batch that holds g[k..e] grows.
  function Extent(g: seq<Point>, k: nat, e: nat, cap: nat): (r: nat)
    requires k < e <= |g|
    ensures e <= r <= |g|
    decreases |g| - e
  {
    if e < |g| && g[e].address == End(g[e - 1]) && Total(g[k..e]) + Count(g[e]) <= cap then Extent(g, k, e + 1, cap) else e
  }

  function GreedyFrom(g: seq<Point>, k: nat, cap: nat): seq<seq<Point>>
    requires k <= |g|
    decreases |g| - k
  {
    if k == |g| then [] else [g[k..Extent(g, k, k + 1, cap)]] + GreedyFrom(g, Extent(g, k, k + 1, cap), cap)
  }

  function Flatten(runs: seq<seq<Point>>): seq<Point> {
    if runs == [] then [] else runs[0] + Flatten(runs[1..])
  }

  lemma {:induction false} ExtentFits(g: seq<Point>, k: nat, e: nat, cap: nat)
    requires k < e <= |g| && Fits(g[k..e], cap)
    ensures Fits(g[k..Extent(g, k, e, cap)], cap)
    decreases |g| - e
  {
    if e < |g| && g[e].address == End(g[e - 1]) && Total(g[k..e]) + Count(g[e]) <= cap {
      var longer := g[k..e + 1];
      assert longer[..|longer| - 1] == g[k..e];
      forall i | 0 < i < |longer| ensures longer[i].address == End(longer[i - 1]) {
        if i < e - k { assert g[k..e][i].address == End(g[k..e][i - 1]); }
      }
      ExtentFits(g, k, e + 1, cap);
    }
  }

  predicate CountsFit(g: seq<Point>, cap: nat) {
    forall p | p in g :: 0 < Count(p) <= cap
  }

  lemma SingletonFits(g: seq<Point>, k: nat, cap: nat)
    requires k < |g| && CountsFit(g, cap)
    ensures Fits(g[k..k + 1], cap)
  {
    assert g[k..k + 1] == [g[k]] && g[k] in g;
    assert [g[k]][..0] == [];
  }

  // The greedy runs are a partition into runs that fit.
  lemma {:induction false} GreedyPartitions(g: seq<Point>, k: nat, cap: nat)
    requires k <= |g| && CountsFit(g, cap)
    ensures Flatten(GreedyFrom(g, k, cap)) == g[k..] && forall r | r in GreedyFrom(g, k, cap) :: Fits(r, cap)
    decreases |g| - k
  {
    if k < |g| {
      var e := Extent(g, k, k + 1, cap);
      SingletonFits(g, k, cap);
      ExtentFits(g, k, k + 1, cap);
      GreedyPartitions(g, e, cap);
      assert g[k..] == g[k..e] + g[e..];
    }
  }

  // ---- Greedy is optimal ----

  // A run from k that fits ends no later than the greedy one.
  lemma {:induction false} GreedyReachesFurthest(g: seq<Point>, k: nat, e: nat, end: nat, cap: nat)
    requires k < e <= end <= |g| && GapFree(g[k..end]) && Total(g[k..end]) <= cap
    ensures end <= Extent(g, k, e, cap)
    decreases end - e
  {
    if e < end {
      assert g[k..end][e - k].address == End(g[k..end][e - k - 1]);
      TotalGrows(g, k, e, end);
      GreedyReachesFurthest(g, k, e + 1, end, cap);
    }
  }

  lemma {:induction false} TotalGrows(g: seq<Point>, k: nat, e: nat, end: nat)
    requires k < e < end <= |g|
    ensures Total(g[k..e]) + Count(g[e]) <= Total(g[k..end])
    decreases end - e
  {
    var longer := g[k..end];
    assert longer[..|longer| - 1] == g[k..end - 1];
    if e < end - 1 { TotalGrows(g, k, e, end - 1); }
  }

  // Starting later, the greedy run ends no earlier.
  lemma StartingLaterEndsLater(g: seq<Point>, k: nat, cap: nat)
    requires k + 1 < |g| && CountsFit(g, cap) && Extent(g, k, k + 1, cap) > k + 1
    ensures Extent(g, k + 1, k + 2, cap) >= Extent(g, k, k + 1, cap)
  {
    var e := Extent(g, k, k + 1, cap);
    SingletonFits(g, k, cap);
    ExtentFits(g, k, k + 1, cap);
    var tail := g[k + 1..e];
    forall i | 0 < i < |tail| ensures tail[i].address == End(tail[i - 1]) {
      assert g[k..e][i + 1].address == End(g[k..e][i]);
    }
    DroppingFirst(g, k, e);
    GreedyReachesFurthest(g, k + 1, k + 2, e, cap);
  }

  lemma {:induction false} DroppingFirst(g: seq<Point>, k: nat, e: nat)
    requires k < e <= |g|
    ensures Total(g[k + 1..e]) <= Total(g[k..e])
    decreases e - k
  {
    if e > k + 1 {
      assert g[k + 1..e][..e - k - 2] == g[k + 1..e - 1] && g[k..e][..e - k - 1] == g[k..e - 1];
      DroppingFirst(g, k, e - 1);
    }
  }

  lemma {:induction false} FewerPointsFewerRuns(g: seq<Point>, k: nat, j: nat, cap: nat)
    requires k <= j <= |g| && CountsFit(g, cap)
    ensures |GreedyFrom(g, j, cap)| <= |GreedyFrom(g, k, cap)|
    decreases |g| - k, j - k
  {
    if k < j {
      var e := Extent(g, k, k + 1, cap);
      if j > k + 1 {
        FewerPointsFewerRuns(g, k + 1, j, cap);
        FewerPointsFewerRuns(g, k, k + 1, cap);
      } else if e > k + 1 {
        StartingLaterEndsLater(g, k, cap);
        FewerPointsFewerRuns(g, e, Extent(g, k + 1, k + 2, cap), cap);
      }
    }
  }

  // No split of the points into runs that fit has fewer runs than the greedy one.
  lemma {:induction false} GreedyIsOptimal(g: seq<Point>, k: nat, split: seq<seq<Point>>, cap: nat)
    requires k <= |g| && CountsFit(g, cap) && Flatten(split) == g[k..] && forall r | r in split :: Fits(r, cap)
    ensures |GreedyFrom(g, k, cap)| <= |split|
    decreases |split|
  {
    if split != [] {
      var r, end := split[0], k + |split[0]|;
      assert r in split && Flatten(split) == r + Flatten(split[1..]);
      assert g[k..][..|r|] == r && g[k..][|r|..] == Flatten(split[1..]);
      assert g[k..end] == r && g[end..] == Flatten(split[1..]);
      GreedyIsOptimal(g, end, split[1..], cap);
      GreedyReachesFurthest(g, k, k + 1, end, cap);
      FewerPointsFewerRuns(g, end, Extent(g, k, k + 1, cap), cap);
    }
  }

  // ---- The loop of buildBatches ----

  function ToBatches(t: Table, runs: seq<seq<Point>>): seq<Batch>
    requires forall r | r in runs :: Fits(r, MaxQuantity(t))
  {
    if runs == [] then [] else [ToBatch(t, runs[0])] + ToBatches(t, runs[1..])
  }

  // A request starts at its first point and covers the summed counts.
  function ToBatch(t: Table, run: seq<Point>): Batch
    requires Fits(run, MaxQuantity(t))
  {
    Batch(t, run[0].address, Total(run), run)
  }

  lemma CapsFit(t: Table, g: seq<Point>)
    requires GroupOk(t, g)
    ensures CountsFit(g, MaxQuantity(t))
  {
  }

  predicate GroupOk(t: Table, g: seq<Point>) {
    Ascending(g) && forall p | p in g :: p.table == t && PointOk(p)
  }

  predicate Carries(b: Batch, t: Table, run: seq<Point>) {
    run != [] && b.table == t && b.start == run[0].address && b.quantity == Total(run) && b.points == run
  }

  // Whether point p joins batch b, in the 16-bit arithmetic of the source.
  predicate Joins(b: Batch, p: Point, cap: nat) {
    p.address == Wrap16(b.start + b.quantity) && Wrap16(b.quantity + Count(p)) <= cap
  }

  function Extended(b: Batch, p: Point): Batch {
    b.(quantity := Wrap16(b.quantity + Count(p)), points := b.points + [p])
  }

  function Single(t: Table, p: Point): Batch {
    Batch(t, p.address, Count(p), [p])
  }

  // The rest of the loop from point e.
  function Coalesce(t: Table, g: seq<Point>, e: nat, b: Batch, done: seq<Batch>): seq<Batch>
    requires e <= |g|
    decreases |g| - e
  {
    if e == |g| then done + [b]
    else if Joins(b, g[e], MaxQuantity(t)) then Coalesce(t, g, e + 1, Extended(b, g[e]), done)
    else Coalesce(t, g, e + 1, Single(t, g[e]), done + [b])
  }

  // The end of a batch wraps only at 65536, where no later point can be, and its
  // quantity never does: joining is exactly what the greedy run does.
  lemma JoinsIsExact(t: Table, g: seq<Point>, k: nat, e: nat, b: Batch)
    requires GroupOk(t, g) && k < e < |g| && GapFree(g[k..e]) && Total(g[k..e]) <= MaxQuantity(t) && Carries(b, t, g[k..e])
    ensures Joins(b, g[e], MaxQuantity(t)) <==> g[e].address == End(g[e - 1]) && Total(g[k..e]) + Count(g[e]) <= MaxQuantity(t)
    ensures Joins(b, g[e], MaxQuantity(t)) ==> Extended(b, g[e]).quantity == Total(g[k..e]) + Count(g[e])
  {
    hide Wrap16;
    RunEnds(g[k..e]);
    assert g[k..e][|g[k..e]| - 1] == g[e - 1] && g[e - 1] in g && g[e] in g;
    assert g[e - 1].address <= g[e].address;
    WrapsAtTheTop(b.start + b.quantity);
    WrapsAtTheTop(b.quantity + Count(g[e]));
  }

  lemma WrapsAtTheTop(n: nat)
    requires n <= 0x1_0000
    ensures Wrap16(n) == if n == 0x1_0000 then 0 else n
  {
  }

  lemma GrowRun(g: seq<Point>, k: nat, e: nat)
    requires k < e < |g| && GapFree(g[k..e]) && g[e].address == End(g[e - 1])
    ensures GapFree(g[k..e + 1]) && Total(g[k..e + 1]) == Total(g[k..e]) + Count(g[e]) && g[k..e + 1] == g[k..e] + [g[e]]
  {
    var longer := g[k..e + 1];
    assert longer[..|longer| - 1] == g[k..e];
    forall i | 0 < i < |longer| ensures longer[i].address == End(longer[i - 1]) {
      if i < e - k { assert g[k..e][i].address == End(g[k..e][i - 1]); }
    }
  }

  lemma SingleCarries(t: Table, g: seq<Point>, e: nat)
    requires e < |g|
    ensures Carries(Single(t, g[e]), t, g[e..e + 1])
  {
    var run := g[e..e + 1];
    assert run == [g[e]] && run[..|run| - 1] == [];
  }

  // b carries g[k..e], which is a beginning of the greedy run from k. (Compared with
  // true so that the verifier keeps the parts together.)
  predicate Current(t: Table, g: seq<Point>, k: nat, e: nat, b: Batch) { CurrentRun(t, g, k, e, b) == true }

  predicate CurrentRun(t: Table, g: seq<Point>, k: nat, e: nat, b: Batch) {
    && k < e <= |g| && Fits(g[k..e], MaxQuantity(t)) && Carries(b, t, g[k..e])
    && Extent(g, k, e, MaxQuantity(t)) == Extent(g, k, k + 1, MaxQuantity(t))
  }

  lemma StartRun(t: Table, g: seq<Point>, k: nat)
    requires GroupOk(t, g) && k < |g|
    ensures Current(t, g, k, k + 1, Single(t, g[k]))
  {
    CapsFit(t, g);
    SingletonFits(g, k, MaxQuantity(t));
    SingleCarries(t, g, k);
  }

  lemma JoinRun(t: Table, g: seq<Point>, k: nat, e: nat, b: Batch)
    requires GroupOk(t, g) && Current(t, g, k, e, b) && e < |g| && Joins(b, g[e], MaxQuantity(t))
    ensures Current(t, g, k, e + 1, Extended(b, g[e]))
  {
    JoinsIsExact(t, g, k, e, b);
    GrowRun(g, k, e);
  }

  lemma LeaveRun(t: Table, g: seq<Point>, k: nat, e: nat, b: Batch, done: seq<Batch>)
    requires GroupOk(t, g) && Current(t, g, k, e, b) && (e == |g| || !Joins(b, g[e], MaxQuantity(t)))
    ensures GreedyFits(t, g, k) && GreedyFits(t, g, e)
    ensures done + GreedyBatches(t, g, k) == done + [b] + GreedyBatches(t, g, e)
  {
    if e < |g| { JoinsIsExact(t, g, k, e, b); }
    CapsFit(t, g);
    GreedyPartitions(g, k, MaxQuantity(t));
    CloseRun(t, g, k, e, b, done);
  }

  predicate GreedyFits(t: Table, g: seq<Point>, k: nat)
    requires k <= |g|
  {
    forall r | r in GreedyFrom(g, k, MaxQuantity(t)) :: Fits(r, MaxQuantity(t))
  }

  function GreedyBatches(t: Table, g: seq<Point>, k: nat): seq<Batch>
    requires k <= |g| && GreedyFits(t, g, k)
  {
    ToBatches(t, GreedyFrom(g, k, MaxQuantity(t)))
  }

  lemma GroupFits(t: Table, g: seq<Point>, k: nat)
    requires GroupOk(t, g) && k <= |g|
    ensures GreedyFits(t, g, k)
  {
    CapsFit(t, g);
    GreedyPartitions(g, k, MaxQuantity(t));
  }

  // The loop builds the greedy runs.
  lemma {:induction false} CoalesceIsGreedy(t: Table, g: seq<Point>, k: nat, e: nat, b: Batch, done: seq<Batch>)
    requires GroupOk(t, g) && k < e <= |g| && Current(t, g, k, e, b)
    ensures GreedyFits(t, g, k) && Coalesce(t, g, e, b, done) == done + GreedyBatches(t, g, k)
    decreases |g| - e
  {
    hide Current, Joins, GreedyFits, GreedyBatches;
    GroupFits(t, g, k);
    if e < |g| && Joins(b, g[e], MaxQuantity(t)) {
      JoinRun(t, g, k, e, b);
      CoalesceIsGreedy(t, g, k, e + 1, Extended(b, g[e]), done);
    } else {
      LeaveRun(t, g, k, e, b, done);
      if e < |g| {
        StartRun(t, g, e);
        CoalesceIsGreedy(t, g, e, e + 1, Single(t, g[e]), done + [b]);
      } else {
        NothingLeft(t, g);
        assert done + [b] + [] == done + [b];
      }
    }
  }

  lemma NothingLeft(t: Table, g: seq<Point>)
    ensures GreedyFits(t, g, |g|) && GreedyBatches(t, g, |g|) == []
  {
  }

  lemma CloseRun(t: Table, g: seq<Point>, k: nat, e: nat, b: Batch, done: seq<Batch>)
    requires k < e <= |g| && Extent(g, k, k + 1, MaxQuantity(t)) == e && Carries(b, t, g[k..e])
    requires forall r | r in GreedyFrom(g, k, MaxQuantity(t)) :: Fits(r, MaxQuantity(t))
    ensures GreedyFits(t, g, e) && GreedyFits(t, g, k)
    ensures done + GreedyBatches(t, g, k) == done + [b] + GreedyBatches(t, g, e)
  {
    var runs := GreedyFrom(g, k, MaxQuantity(t));
    assert runs[0] == g[k..e] && runs[1..] == GreedyFrom(g, e, MaxQuantity(t));
    assert forall r | r in runs[1..] :: r in runs;
    assert runs[0] in runs && ToBatch(t, runs[0]) == b;
  }

  lemma GroupIsGreedy(t: Table, g: seq<Point>)
    requires GroupOk(t, g) && g != []
    ensures GreedyFits(t, g, 0) && Coalesce(t, g, 1, Single(t, g[0]), []) == GreedyBatches(t, g, 0)
  {
    StartRun(t, g, 0);
    CoalesceIsGreedy(t, g, 0, 1, Single(t, g[0]), []);
  }

  method BuildGroup(t: Table, g: seq<Point>) returns (batches: seq<Batch>)
    requires GroupOk(t, g)
    ensures GreedyFits(t, g, 0) && batches == GreedyBatches(t, g, 0)
  {
    batches := [];
    if g == [] { return; }
    hide GroupOk, GreedyFits, GreedyBatches;
    var current := Single(t, g[0]);
    for e := 1 to |g|
      invariant Coalesce(t, g, e, current, batches) == Coalesce(t, g, 1, Single(t, g[0]), [])
    {
      var expectedNext := Wrap16(current.start + current.quantity);
      var newQuantity := Wrap16(current.quantity + Count(g[e]));
      if g[e].address == expectedNext && newQuantity <= MaxQuantity(t) {
        current := current.(quantity := newQuantity, points := current.points + [g[e]]);
      } else {
        batches := batches + [current];
        current := Batch(t, g[e].address, Count(g[e]), [g[e]]);
      }
    }
    batches := batches + [current];
    GroupIsGreedy(t, g);
  }

  // The batches of a device, table by table: each group is partitioned into gap-free
  // requests within the protocol's caps, and into as few as possible.
  method BuildBatches(ps: seq<Point>, groups: Groups) returns (batches: seq<Batch>)
    requires (forall p | p in ps :: PointOk(p)) && Grouping(ps, groups)
    ensures forall t: Table :: GreedyFits(t, groups.Of(t), 0)
    ensures batches == GroupBatches(Coil, groups.Of(Coil)) + GroupBatches(DiscreteInput, groups.Of(DiscreteInput))
                       + GroupBatches(HoldingRegister, groups.Of(HoldingRegister)) + GroupBatches(InputRegister, groups.Of(InputRegister))
    ensures forall t: Table :: WellBatched(ps, t, groups.Of(t), BatchesFor(t, batches))
  {
    forall t: Table ensures GreedyFits(t, groups.Of(t), 0) && GroupOk(t, groups.Of(t)) {
      GroupIsOk(ps, t, groups.Of(t));
      GroupFits(t, groups.Of(t), 0);
    }
    var coils := BuildGroup(Coil, groups.Of(Coil));
    var inputs := BuildGroup(DiscreteInput, groups.Of(DiscreteInput));
    var holding := BuildGroup(HoldingRegister, groups.Of(HoldingRegister));
    var registers := BuildGroup(InputRegister, groups.Of(InputRegister));
    batches := coils + inputs + holding + registers;
    forall t: Table ensures WellBatched(ps, t, groups.Of(t), BatchesFor(t, batches)) {
      GroupWellBatched(ps, Coil, groups.coils);
      GroupWellBatched(ps, DiscreteInput, groups.inputs);
      GroupWellBatched(ps, HoldingRegister, groups.holding);
      GroupWellBatched(ps, InputRegister, groups.registers);
      AllWellBatched(ps, groups, t, coils, inputs, holding, registers);
    }
  }

  lemma GroupIsOk(ps: seq<Point>, t: Table, g: seq<Point>)
    requires (forall p | p in ps :: PointOk(p)) && IsGroup(ps, t, g)
    ensures GroupOk(t, g)
  {
    forall p | p in g ensures p.table == t && PointOk(p) { GroupMember(ps, t, g, p); }
  }

  function GroupBatches(t: Table, g: seq<Point>): seq<Batch>
    requires GreedyFits(t, g, 0)
  {
    GreedyBatches(t, g, 0)
  }

  function PointsOf(bs: seq<Batch>): seq<Point> {
    if bs == [] then [] else bs[0].points + PointsOf(bs[1..])
  }

  lemma {:induction false} BatchesCarryRuns(t: Table, runs: seq<seq<Point>>)
    requires forall r | r in runs :: Fits(r, MaxQuantity(t))
    ensures var bs := ToBatches(t, runs);
      && |bs| == |runs| && PointsOf(bs) == Flatten(runs)
      && forall b | b in bs :: Carries(b, t, b.points) && GapFree(b.points) && b.quantity <= MaxQuantity(t)
  {
    if runs != [] {
      BatchesCarryRuns(t, runs[1..]);
      var bs := ToBatches(t, runs);
      assert bs[0] == ToBatch(t, runs[0]) && bs[1..] == ToBatches(t, runs[1..]);
      assert forall b | b in bs :: b == bs[0] || b in bs[1..];
    }
  }

  // The batches of a table partition its sorted points; each is gap-free, starts at its
  // first point, covers the sum of the counts and respects the cap; and no split into
  // such runs has fewer.
  lemma BatchesAreCorrectAndOptimal(ps: seq<Point>, t: Table, g: seq<Point>, split: seq<seq<Point>>)
    requires (forall p | p in ps :: PointOk(p)) && IsGroup(ps, t, g)
    requires Flatten(split) == g && forall r | r in split :: OneRequest(t, r)
    ensures GreedyFits(t, g, 0)
    ensures PointsOf(GroupBatches(t, g)) == g
    ensures forall b | b in GroupBatches(t, g) :: IsRequest(b, t)
    ensures |GroupBatches(t, g)| <= |split|
  {
    var cap := MaxQuantity(t);
    forall r | r in split ensures Fits(r, cap) { OneRequestFits(t, r); }
    GroupIsOk(ps, t, g);
    CapsFit(t, g);
    assert g[0..] == g;
    GreedyIsOptimal(g, 0, split, cap);
    GroupIsServed(ps, t, g);
  }

  // A request for its points: it starts at the first, covers them without a gap, and stays
  // within what one request may read.
  predicate IsRequest(b: Batch, t: Table) {
    && b.table == t && OneRequest(t, b.points) && b.start == b.points[0].address && b.quantity == Sum(b.points)
    && forall p | p in b.points :: p.table == t
  }

  lemma {:induction false} PointsIn(bs: seq<Batch>, b: Batch, p: Point)
    requires b in bs && p in b.points
    ensures p in PointsOf(bs)
  {
    if b != bs[0] { PointsIn(bs[1..], b, p); }
  }

  lemma GroupIsServed(ps: seq<Point>, t: Table, g: seq<Point>)
    requires (forall p | p in ps :: PointOk(p)) && IsGroup(ps, t, g)
    ensures GreedyFits(t, g, 0) && |GroupBatches(t, g)| == |GreedyFrom(g, 0, MaxQuantity(t))|
    ensures PointsOf(GroupBatches(t, g)) == g && forall b | b in GroupBatches(t, g) :: IsRequest(b, t)
  {
    var cap := MaxQuantity(t);
    GroupIsOk(ps, t, g);
    CapsFit(t, g);
    assert g[0..] == g;
    GreedyPartitions(g, 0, cap);
    BatchesCarryRuns(t, GreedyFrom(g, 0, cap));
    forall b | b in GroupBatches(t, g) ensures IsRequest(b, t) {
      OneRequestFits(t, b.points);
      SumIsTotal(b.points);
      forall p | p in b.points ensures p.table == t { PointsIn(GroupBatches(t, g), b, p); }
    }
  }

  // ---- What buildBatches returns ----

  function BatchesFor(t: Table, bs: seq<Batch>): seq<Batch> {
    if bs == [] then [] else (if bs[0].table == t then [bs[0]] else []) + BatchesFor(t, bs[1..])
  }

  lemma {:induction false} BatchesForJoined(t: Table, a: seq<Batch>, b: seq<Batch>)
    ensures BatchesFor(t, a + b) == BatchesFor(t, a) + BatchesFor(t, b)
  {
    if a == [] {
      assert a + b == b;
    } else {
      assert (a + b)[1..] == a[1..] + b;
      BatchesForJoined(t, a[1..], b);
    }
  }

  lemma {:induction false} BatchesForOwn(t: Table, own: Table, bs: seq<Batch>)
    requires forall b | b in bs :: b.table == own
    ensures BatchesFor(t, bs) == if t == own then bs else []
  {
    if bs != [] { BatchesForOwn(t, own, bs[1..]); }
  }

  // Every point of a table is in exactly one request of its table, in order, and no split
  // of the table's points into requests is shorter.
  ghost predicate WellBatched(ps: seq<Point>, t: Table, g: seq<Point>, bs: seq<Batch>) {
    && (forall b | b in bs :: IsRequest(b, t)) && PointsOf(bs) == g && multiset(g) == multiset(OfTable(ps, t))
    && forall split: seq<seq<Point>> | Flatten(split) == g && (forall r | r in split :: OneRequest(t, r)) :: |bs| <= |split|
  }

  lemma GroupWellBatched(ps: seq<Point>, t: Table, g: seq<Point>)
    requires (forall p | p in ps :: PointOk(p)) && IsGroup(ps, t, g)
    ensures GreedyFits(t, g, 0) && WellBatched(ps, t, g, GroupBatches(t, g))
  {
    GroupIsServed(ps, t, g);
    forall split: seq<seq<Point>> | Flatten(split) == g && (forall r | r in split :: OneRequest(t, r))
      ensures |GroupBatches(t, g)| <= |split|
    {
      BatchesAreCorrectAndOptimal(ps, t, g, split);
    }
  }

  predicate OfOneTable(t: Table, bs: seq<Batch>) { forall b | b in bs :: b.table == t }

  lemma PickTable(t: Table, coils: seq<Batch>, inputs: seq<Batch>, holding: seq<Batch>, registers: seq<Batch>)
    requires OfOneTable(Coil, coils) && OfOneTable(DiscreteInput, inputs) && OfOneTable(HoldingRegister, holding) && OfOneTable(InputRegister, registers)
    ensures BatchesFor(t, coils + inputs + holding + registers) ==
            match t case Coil => coils case DiscreteInput => inputs case HoldingRegister => holding case InputRegister => registers
  {
    BatchesForJoined(t, coils + inputs + holding, registers);
    BatchesForJoined(t, coils + inputs, holding);
    BatchesForJoined(t, coils, inputs);
    BatchesForOwn(t, Coil, coils);
    BatchesForOwn(t, DiscreteInput, inputs);
    BatchesForOwn(t, HoldingRegister, holding);
    BatchesForOwn(t, InputRegister, registers);
  }

  lemma OwnTable(ps: seq<Point>, t: Table, g: seq<Point>, bs: seq<Batch>)
    requires WellBatched(ps, t, g, bs)
    ensures OfOneTable(t, bs)
  {
  }

  lemma AllWellBatched(ps: seq<Point>, groups: Groups, t: Table, coils: seq<Batch>, inputs: seq<Batch>, holding: seq<Batch>, registers: seq<Batch>)
    requires WellBatched(ps, Coil, groups.coils, coils) && WellBatched(ps, DiscreteInput, groups.inputs, inputs)
    requires WellBatched(ps, HoldingRegister, groups.holding, holding) && WellBatched(ps, InputRegister, groups.registers, registers)
    ensures WellBatched(ps, t, groups.Of(t), BatchesFor(t, coils + inputs + holding + registers))
  {
    hide WellBatched, BatchesFor, OfOneTable;
    OwnTable(ps, Coil, groups.coils, coils);
    OwnTable(ps, DiscreteInput, groups.inputs, inputs);
    OwnTable(ps, HoldingRegister, groups.holding, holding);
    OwnTable(ps, InputRegister, groups.registers, registers);
    PickTable(t, coils, inputs, holding, registers);
  }

  // ---- The register codec ----

  // A REAL is carried as its bit pattern.
  datatype RegValue = ByteValue(n: u8) | IntValue(i: i16) | DIntValue(d: i32) | RealValue(bits: u32)

  predicate Suits(p: Point, v: RegValue) {
    match p.typ
    case BYTE => v.ByteValue?
    case INT => v.IntValue?
    case DINT => v.DIntValue?
    case REAL => v.RealValue?
    case _ => false
  }

  function Combined(v: RegValue): u32
    requires v.DIntValue? || v.RealValue?
  {
    var d: int := if v.RealValue? then v.bits else v.d;
    if d < 0 then d + 0x1_0000_0000 else d
  }

  // The registers a point's value occupies.
  function Words(p: Point, v: RegValue): (ws: seq<u16>)
    requires Suits(p, v)
    ensures |ws| == Count(p)
  {
    match v
    case ByteValue(n) => [n]
    case IntValue(i) =>
      var n: int := i;
      [if n < 0 then n + 0x1_0000 else n]
    case _ =>
      var high, low := Combined(v) / 0x1_0000, Combined(v) % 0x1_0000;
      if p.wordOrder == BigEndianWords then [high, low] else [low, high]
  }

  function FromWords(p: Point, ws: seq<u16>): RegValue
    requires |ws| == Count(p) && p.typ != BOOL && p.typ != OTHER
  {
    var a: int := ws[0];
    if p.typ == BYTE then ByteValue(a % 0x100)
    else if p.typ == INT then IntValue(if a >= 0x8000 then a - 0x1_0000 else a)
    else
      var b: int := ws[1];
      var combined := if p.wordOrder == BigEndianWords then a * 0x1_0000 + b else b * 0x1_0000 + a;
      if p.typ == DINT then DIntValue(if combined >= 0x8000_0000 then combined - 0x1_0000_0000 else combined)
      else RealValue(combined)
  }

  lemma WordsRoundTrip(p: Point, v: RegValue)
    requires Suits(p, v)
    ensures FromWords(p, Words(p, v)) == v
  {
  }

  // High and low word of a two-register value, in the order of the point.
  predicate TwoWords(p: Point, ws: seq<u16>, n: int) {
    |ws| == 2 &&
    var first: int, second: int := ws[0], ws[1];
    match p.wordOrder
    case BigEndianWords => first * 65536 + second == n
    case LittleEndianWords => second * 65536 + first == n
  }

  // What is in the registers: numbers in two's complement of 16 or 32 bits, a BYTE in the
  // low half, a REAL as its bits.
  lemma WordsMeant(p: Point, v: RegValue)
    requires Suits(p, v)
    ensures v.ByteValue? ==> Words(p, v) == [v.n]
    ensures v.IntValue? ==> Words(p, v) == [if v.i < 0 then v.i + 65536 else v.i]
    ensures v.DIntValue? ==> TwoWords(p, Words(p, v), if v.d < 0 then v.d + 0x1_0000_0000 else v.d)
    ensures v.RealValue? ==> TwoWords(p, Words(p, v), v.bits)
  {
  }

  // What any registers read as; of a BYTE's register only the low half counts.
  lemma ReadingMeant(p: Point, ws: seq<u16>, n: u32)
    requires |ws| == Count(p) && p.typ != BOOL && p.typ != OTHER
    ensures var first: int := ws[0];
      && (p.typ == BYTE ==> FromWords(p, ws) == ByteValue(first % 256))
      && (p.typ == INT ==> FromWords(p, ws) == IntValue(if first < 32768 then first else first - 65536))
    ensures p.typ == DINT && TwoWords(p, ws, n) ==> FromWords(p, ws) == DIntValue(if n < 0x8000_0000 then n else n as int - 0x1_0000_0000)
    ensures p.typ == REAL && TwoWords(p, ws, n) ==> FromWords(p, ws) == RealValue(n)
  {
  }

  predicate InBatch(p: Point, start: u16, size: nat) {
    start <= p.address && End(p) - start <= size
  }

  // The registers read from start on; None where a register of the point is not among
  // them and registers.at throws.
  function Decode(p: Point, start: u16, registers: seq<u16>): (r: Option<RegValue>)
    requires p.typ != BOOL && p.typ != OTHER
  {
    if InBatch(p, start, |registers|) then Some(FromWords(p, registers[p.address - start..p.address - start + Count(p)]))
    else None
  }

  // Where registers.at throws, the words before the missing one have been written.
  method Encode(p: Point, v: RegValue, offset: nat, registers: array<u16>) returns (ok: bool)
    requires Suits(p, v)
    modifies registers
    ensures ok <==> offset + Count(p) <= registers.Length
    ensures forall k | 0 <= k < registers.Length ::
      registers[k] == if offset <= k < offset + Count(p) then Words(p, v)[k - offset] else old(registers[k])
  {
    if offset >= registers.Length { return false; }
    if p.typ == BYTE {
      registers[offset] := v.n;
    } else if p.typ == INT {
      var n: int := v.i;
      registers[offset] := if n < 0 then n + 0x1_0000 else n;
    } else {
      var combined := Combined(v);
      var high, low := combined / 0x1_0000, combined % 0x1_0000;
      registers[offset] := if p.wordOrder == BigEndianWords then high else low;
      if offset + 1 >= registers.Length { return false; }
      registers[offset + 1] := if p.wordOrder == BigEndianWords then low else high;
    }
    ok := true;
  }

  lemma {:induction false} RunIsDisjoint(ps: seq<Point>, i: nat, j: nat)
    requires GapFree(ps) && i < j < |ps|
    ensures End(ps[i]) <= ps[j].address
    decreases j - i
  {
    assert ps[j].address == End(ps[j - 1]);
    if i < j - 1 { RunIsDisjoint(ps, i, j - 1); }
  }

  lemma {:induction false} RunInBatch(ps: seq<Point>, i: nat)
    requires GapFree(ps) && i < |ps|
    ensures InBatch(ps[i], ps[0].address, Total(ps))
  {
    RunEnds(ps);
    if i > 0 { RunIsDisjoint(ps, 0, i); }
    if i < |ps| - 1 { RunIsDisjoint(ps, i, |ps| - 1); }
  }

  predicate Holds(b: Batch, values: seq<RegValue>, i: nat, registers: seq<u16>)
    requires i < |b.points| == |values| && b.points[i].typ != BOOL && b.points[i].typ != OTHER
  {
    Decode(b.points[i], b.start, registers) == Some(values[i])
  }

  predicate ValuesSuit(b: Batch, values: seq<RegValue>) {
    |values| == |b.points| && forall i | 0 <= i < |values| :: Suits(b.points[i], values[i])
  }

  // Encoding one point into the batch's registers leaves what the others decode to.
  method EncodePoint(b: Batch, values: seq<RegValue>, j: nat, registers: array<u16>)
    requires Carries(b, b.table, b.points) && GapFree(b.points) && ValuesSuit(b, values) && j < |values|
    requires registers.Length == b.quantity
    modifies registers
    ensures Holds(b, values, j, registers[..])
    ensures forall i | 0 <= i < |values| && old(Holds(b, values, i, registers[..])) :: Holds(b, values, i, registers[..])
  {
    var p := b.points[j];
    ghost var before := registers[..];
    RunInBatch(b.points, j);
    var offset := p.address - b.start;
    var _ := Encode(p, values[j], offset, registers);
    WordsRoundTrip(p, values[j]);
    assert registers[..][offset..offset + Count(p)] == Words(p, values[j]);
    forall i | 0 <= i < |values| && i != j && Holds(b, values, i, before) ensures Holds(b, values, i, registers[..]) {
      var q := b.points[i];
      if i < j { RunIsDisjoint(b.points, i, j); } else { RunIsDisjoint(b.points, j, i); }
      var o := q.address - b.start;
      assert registers[..][o..o + Count(q)] == before[o..o + Count(q)];
    }
  }

  // After encoding every point of a batch into one register array, in any order and
  // with any mix of word orders, each point decodes to its own value.
  method EncodeBatch(b: Batch, values: seq<RegValue>, order: seq<nat>, registers: array<u16>)
    requires Carries(b, b.table, b.points) && GapFree(b.points) && ValuesSuit(b, values)
    requires forall k | 0 <= k < |order| :: order[k] < |values|
    requires forall i | 0 <= i < |values| :: i in order
    requires registers.Length == b.quantity
    modifies registers
    ensures forall i | 0 <= i < |values| :: Holds(b, values, i, registers[..])
  {
    hide Holds;
    for k := 0 to |order|
      invariant forall j | 0 <= j < k :: Holds(b, values, order[j], registers[..])
    {
      EncodePoint(b, values, order[k], registers);
    }
    forall i | 0 <= i < |values| ensures Holds(b, values, i, registers[..]) {
      assert i in order;
      var j :| 0 <= j < |order| && order[j] == i;
    }
  }
}

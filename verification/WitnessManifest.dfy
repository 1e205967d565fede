/** Witness-v1 worlds, cases and manifests: the counted lists around the records of a world. */
module WitnessManifest {
  import opened Wrappers
  import opened ByteCodec
  import opened WitnessCodec

  // ---------------------------------------------------------------------------------------
  // Worlds

  function LinkList(w: World): Bytes {
    ListBytes(B1, LinkBytes, w.links)
  }

  function CellList(w: World): Bytes {
    ListBytes(B1, CellBytes, w.cells) + LinkList(w)
  }

  function ValveList(w: World): Bytes {
    ListBytes(B1, ValveBytes, w.valves) + CellList(w)
  }

  function BeaconList(w: World): Bytes {
    ListBytes(B1, BeaconBytes, w.beacons) + ValveList(w)
  }

  function DepotList(w: World): Bytes {
    ListBytes(B1, DepotBytes, w.depots) + BeaconList(w)
  }

  function SourceList(w: World): Bytes {
    ListBytes(B1, SourceBytes, w.sources) + DepotList(w)
  }

  function WallList(w: World): Bytes {
    ListBytes(B2, PointBytes, w.walls) + SourceList(w)
  }

  function WorldBytes(w: World): Bytes {
    [w.width, w.height] + WallList(w)
  }

  /** Every count has room in its field. */
  predicate CountsFit(w: World) {
    && |w.walls| < 0x1_0000 && |w.sources| < 0x100 && |w.depots| < 0x100 && |w.beacons| < 0x100
    && |w.valves| < 0x100 && |w.cells| < 0x100 && |w.links| < 0x100
    && All(SourceFits, w.sources)
  }

  predicate WorldFits(w: World) {
    CountsFit(w) && All(CellFits, w.cells)
  }

  function DecodeWorld(b: Bytes): Decoded<World> {
    if |b| < 2 then None
    else
      var (walls, b1) :- DecodeList(B2, DecodePoint, b[2..]);
      var (sources, b2) :- DecodeList(B1, DecodeSource, b1);
      var (depots, b3) :- DecodeList(B1, DecodeDepot, b2);
      var (beacons, b4) :- DecodeList(B1, DecodeBeacon, b3);
      var (valves, b5) :- DecodeList(B1, DecodeValve, b4);
      var (cells, b6) :- DecodeList(B1, DecodeCell, b5);
      var (links, b7) :- DecodeList(B1, DecodeLink, b6);
      Some((World(b[0], b[1], walls, sources, depots, beacons, valves, cells, links), b7))
  }

  ghost predicate DecodersUndo() {
    && Undoes(PointBytes, _ => true, DecodePoint)
    && Undoes(SourceBytes, SourceFits, DecodeSource)
    && Undoes(DepotBytes, _ => true, DecodeDepot)
    && Undoes(BeaconBytes, _ => true, DecodeBeacon)
    && Undoes(ValveBytes, _ => true, DecodeValve)
    && Undoes(CellBytes, CellFits, DecodeCell)
    && Undoes(LinkBytes, _ => true, DecodeLink)
  }

  lemma RecordsBack()
    ensures DecodersUndo()
  {
    forall x, t ensures DecodePoint(PointBytes(x) + t) == Some((x, t)) { PointBack(x, t); }
    forall x, t | SourceFits(x) ensures DecodeSource(SourceBytes(x) + t) == Some((x, t)) { SourceBack(x, t); }
    forall x, t ensures DecodeDepot(DepotBytes(x) + t) == Some((x, t)) { DepotBack(x, t); }
    forall x, t ensures DecodeBeacon(BeaconBytes(x) + t) == Some((x, t)) { BeaconBack(x, t); }
    forall x, t ensures DecodeValve(ValveBytes(x) + t) == Some((x, t)) { ValveBack(x, t); }
    forall x, t | CellFits(x) ensures DecodeCell(CellBytes(x) + t) == Some((x, t)) { CellBack(x, t); }
    forall x, t ensures DecodeLink(LinkBytes(x) + t) == Some((x, t)) { LinkBack(x, t); }
  }

  /** A decoder reads the first list of a world's tail and leaves the later ones. */
  lemma ListThenTail<T(!new)>(w: Width, enc: T -> Bytes, good: T -> bool, dec: Bytes -> Decoded<T>,
                              xs: seq<T>, tail: Bytes, rest: Bytes)
    requires Undoes(enc, good, dec) && All(good, xs) && |xs| < w.Limit()
    ensures DecodeList(w, dec, (ListBytes(w, enc, xs) + tail) + rest) == Some((xs, tail + rest))
  {
    Regroup(ListBytes(w, enc, xs), tail, rest);
    ListBack(w, enc, good, dec, xs, tail + rest);
  }

  lemma WorldBack(w: World, rest: Bytes)
    requires WorldFits(w)
    ensures DecodeWorld(WorldBytes(w) + rest) == Some((w, rest))
  {
    RecordsBack();
    Regroup([w.width, w.height], WallList(w), rest);
    HeadAndTail([w.width, w.height], WallList(w) + rest);
    ListThenTail(B2, PointBytes, _ => true, DecodePoint, w.walls, SourceList(w), rest);
    ListThenTail(B1, SourceBytes, SourceFits, DecodeSource, w.sources, DepotList(w), rest);
    ListThenTail(B1, DepotBytes, _ => true, DecodeDepot, w.depots, BeaconList(w), rest);
    ListThenTail(B1, BeaconBytes, _ => true, DecodeBeacon, w.beacons, ValveList(w), rest);
    ListThenTail(B1, ValveBytes, _ => true, DecodeValve, w.valves, CellList(w), rest);
    ListThenTail(B1, CellBytes, CellFits, DecodeCell, w.cells, LinkList(w), rest);
    ListBack(B1, LinkBytes, _ => true, DecodeLink, w.links, rest);
  }

  // ---------------------------------------------------------------------------------------
  // When a world's encoding determines the world

  lemma CellAgrees(c: Cell, t: Bytes, c': Cell, t': Bytes)
    requires CellBytes(c) + t == CellBytes(c') + t' && |c.memory| == |c'.memory|
    ensures c == c' && t == t'
  {
    var fields := [c.id, c.position.x, c.position.y, DirectionByte(c.heading), Bit(c.mobile)];
    var fields' := [c'.id, c'.position.x, c'.position.y, DirectionByte(c'.heading), Bit(c'.mobile)];
    Regroup(Pack(CELL, fields), c.memory, t);
    Regroup(Pack(CELL, fields'), c'.memory, t');
    PackBack(CELL, fields, c.memory + t);
    PackBack(CELL, fields', c'.memory + t');
    HeadAndTail(c.memory, t);
    HeadAndTail(c'.memory, t');
    assert fields[0] == fields'[0] && fields[1] == fields'[1] && fields[2] == fields'[2];
    assert fields[3] == fields'[3] && fields[4] == fields'[4];
  }

  predicate SameMemoryLengths(cells: seq<Cell>, cells': seq<Cell>) {
    && |cells| == |cells'|
    && forall i | 0 <= i < |cells| :: |cells[i].memory| == |cells'[i].memory|
  }

  lemma {:induction false} CellsAgree(cells: seq<Cell>, t: Bytes, cells': seq<Cell>, t': Bytes)
    requires Each(CellBytes, cells) + t == Each(CellBytes, cells') + t' && SameMemoryLengths(cells, cells')
    ensures cells == cells' && t == t'
  {
    if cells == [] {
      assert Each(CellBytes, cells) + t == t && Each(CellBytes, cells') + t' == t';
    } else {
      Regroup(CellBytes(cells[0]), Each(CellBytes, cells[1..]), t);
      Regroup(CellBytes(cells'[0]), Each(CellBytes, cells'[1..]), t');
      CellAgrees(cells[0], Each(CellBytes, cells[1..]) + t, cells'[0], Each(CellBytes, cells'[1..]) + t');
      CellsAgree(cells[1..], t, cells'[1..], t');
      assert cells == [cells[0]] + cells[1..] && cells' == [cells'[0]] + cells'[1..];
    }
  }

  /** Lists of records that are undone by a decoder agree wherever their encodings begin the same. */
  lemma ListsAgree<T(!new)>(w: Width, enc: T -> Bytes, good: T -> bool, dec: Bytes -> Decoded<T>,
                            xs: seq<T>, tail: Bytes, rest: Bytes, xs': seq<T>, tail': Bytes, rest': Bytes)
    requires Undoes(enc, good, dec) && All(good, xs) && All(good, xs') && |xs| < w.Limit() && |xs'| < w.Limit()
    requires (ListBytes(w, enc, xs) + tail) + rest == (ListBytes(w, enc, xs') + tail') + rest'
    ensures xs == xs' && tail + rest == tail' + rest'
  {
    ListThenTail(w, enc, good, dec, xs, tail, rest);
    ListThenTail(w, enc, good, dec, xs', tail', rest');
  }

  /** Up to its cells, a world's encoding determines the world and the number of its cells. */
  lemma AgreeUpToCells(w: World, rest: Bytes, w': World, rest': Bytes)
    requires CountsFit(w) && CountsFit(w') && WorldBytes(w) + rest == WorldBytes(w') + rest'
    ensures w' == w.(cells := w'.cells, links := w'.links)
    ensures |w.cells| == |w'.cells|
    ensures Each(CellBytes, w.cells) + (LinkList(w) + rest) == Each(CellBytes, w'.cells) + (LinkList(w') + rest')
  {
    Regroup([w.width, w.height], WallList(w), rest);
    Regroup([w'.width, w'.height], WallList(w'), rest');
    PairsAgree(w.width, w.height, WallList(w) + rest, w'.width, w'.height, WallList(w') + rest');
    AgreeFromWalls(w, rest, w', rest');
    AgreeFromDepots(w, rest, w', rest');
    CellCountsAgree(w.cells, LinkList(w), rest, w'.cells, LinkList(w'), rest');
  }

  lemma PairsAgree(a: Byte, b: Byte, t: Bytes, a': Byte, b': Byte, t': Bytes)
    requires [a, b] + t == [a', b'] + t'
    ensures a == a' && b == b' && t == t'
  {
    HeadAndTail([a, b], t);
    HeadAndTail([a', b'], t');
    assert [a, b][0] == [a', b'][0] && [a, b][1] == [a', b'][1];
  }

  lemma AgreeFromWalls(w: World, rest: Bytes, w': World, rest': Bytes)
    requires CountsFit(w) && CountsFit(w') && WallList(w) + rest == WallList(w') + rest'
    ensures w.walls == w'.walls && w.sources == w'.sources
    ensures DepotList(w) + rest == DepotList(w') + rest'
  {
    RecordsBack();
    ListsAgree(B2, PointBytes, _ => true, DecodePoint, w.walls, SourceList(w), rest, w'.walls, SourceList(w'), rest');
    ListsAgree(B1, SourceBytes, SourceFits, DecodeSource, w.sources, DepotList(w), rest,
               w'.sources, DepotList(w'), rest');
  }

  lemma AgreeFromDepots(w: World, rest: Bytes, w': World, rest': Bytes)
    requires CountsFit(w) && CountsFit(w') && DepotList(w) + rest == DepotList(w') + rest'
    ensures w.depots == w'.depots && w.beacons == w'.beacons && w.valves == w'.valves
    ensures CellList(w) + rest == CellList(w') + rest'
  {
    RecordsBack();
    ListsAgree(B1, DepotBytes, _ => true, DecodeDepot, w.depots, BeaconList(w), rest, w'.depots, BeaconList(w'), rest');
    ListsAgree(B1, BeaconBytes, _ => true, DecodeBeacon, w.beacons, ValveList(w), rest,
               w'.beacons, ValveList(w'), rest');
    ListsAgree(B1, ValveBytes, _ => true, DecodeValve, w.valves, CellList(w), rest, w'.valves, CellList(w'), rest');
  }

  lemma CellCountsAgree(cells: seq<Cell>, tail: Bytes, rest: Bytes, cells': seq<Cell>, tail': Bytes, rest': Bytes)
    requires |cells| < 0x100 && |cells'| < 0x100
    requires (ListBytes(B1, CellBytes, cells) + tail) + rest == (ListBytes(B1, CellBytes, cells') + tail') + rest'
    ensures |cells| == |cells'|
    ensures Each(CellBytes, cells) + (tail + rest) == Each(CellBytes, cells') + (tail' + rest')
  {
    var each, each' := Each(CellBytes, cells), Each(CellBytes, cells');
    Regroup(Count(B1, |cells|) + each, tail, rest);
    Regroup(Count(B1, |cells'|) + each', tail', rest');
    Regroup(Count(B1, |cells|), each, tail + rest);
    Regroup(Count(B1, |cells'|), each', tail' + rest');
    HeadAndTail(Count(B1, |cells|), each + (tail + rest));
    HeadAndTail(Count(B1, |cells'|), each' + (tail' + rest'));
    CountValue(B1, |cells|);
    CountValue(B1, |cells'|);
  }

  /** Two worlds whose encodings begin the same bytes have as many cells; and they are the same world,
      followed by the same bytes, exactly when their cells have memories of the same lengths. */
  lemma WorldDeterminedExactlyWhen(w: World, rest: Bytes, w': World, rest': Bytes)
    requires CountsFit(w) && CountsFit(w') && WorldBytes(w) + rest == WorldBytes(w') + rest'
    ensures |w.cells| == |w'.cells|
    ensures (forall i | 0 <= i < |w.cells| :: |w.cells[i].memory| == |w'.cells[i].memory|)
            <==> w == w' && rest == rest'
  {
    AgreeUpToCells(w, rest, w', rest');
    if SameMemoryLengths(w.cells, w'.cells) {
      CellsAgree(w.cells, LinkList(w) + rest, w'.cells, LinkList(w') + rest');
      RecordsBack();
      ListBack(B1, LinkBytes, _ => true, DecodeLink, w.links, rest);
      ListBack(B1, LinkBytes, _ => true, DecodeLink, w'.links, rest');
    }
  }

  /** In particular, so are any two worlds all of whose cells have memories of one agreed length. */
  lemma WorldIsSelfDelimiting(w: World, rest: Bytes, w': World, rest': Bytes, length: nat)
    requires CountsFit(w) && CountsFit(w') && WorldBytes(w) + rest == WorldBytes(w') + rest'
    requires forall c | c in w.cells || c in w'.cells :: |c.memory| == length
    ensures w == w' && rest == rest'
  {
    WorldDeterminedExactlyWhen(w, rest, w', rest');
  }

  // ---------------------------------------------------------------------------------------
  // Manifests

  datatype Slot = Slot(cell: U16, fixed: Option<seq<Rule>>)

  datatype Event =
    | LinkEnabled(tick: U32, id: U16, enabled: bool)
    | ValveEnabled(tick: U32, id: U16, enabled: bool)
    | CellEvent(tick: U32, cell: U16)

  datatype Case = Case(seed: U64, ticks: U32, fuel: U64, activationFuel: U32, events: seq<Event>)

  datatype Contract = Contract(usefulFloor: U64, totalCeiling: U64, requirePassed: bool)

  datatype Manifest = Manifest(world: World, slots: seq<Slot>, cases: seq<Case>, contract: Contract)

  const EVENT := [B4, B1]
  const SWITCH := [B2, B1]
  const CASE := [B8, B4, B8, B4]
  const CONTRACT := [B8, B8, B1]

  function SlotBytes(s: Slot): Bytes {
    Pack([B2], [s.cell]) + match s.fixed
                           case None => [0]
                           case Some(rules) => [1] + ProgramBytes(rules)
  }

  predicate SlotFits(s: Slot) {
    s.fixed.Some? ==> ProgramFits(s.fixed.value)
  }

  function DecodeSlot(b: Bytes): Decoded<Slot> {
    var (v, rest) :- Unpack([B2], b);
    if |rest| == 0 then None
    else if rest[0] == 0 then Some((Slot(v[0], None), rest[1..]))
    else if rest[0] == 1 then
      var (rules, rest') :- DecodeProgram(rest[1..]);
      Some((Slot(v[0], Some(rules)), rest'))
    else None
  }

  function EventBytes(e: Event): Bytes {
    match e
    case LinkEnabled(tick, id, enabled) => Pack(EVENT, [tick, 1]) + Pack(SWITCH, [id, Bit(enabled)])
    case ValveEnabled(tick, id, enabled) => Pack(EVENT, [tick, 2]) + Pack(SWITCH, [id, Bit(enabled)])
    case CellEvent(tick, cell) => Pack(EVENT, [tick, 3]) + Pack([B2], [cell])
  }

  function DecodeEvent(b: Bytes): Decoded<Event> {
    var (head, rest) :- Unpack(EVENT, b);
    if head[1] == 3 then
      var (v, rest') :- Unpack([B2], rest);
      Some((CellEvent(head[0], v[0]), rest'))
    else
      var (v, rest') :- Unpack(SWITCH, rest);
      if v[1] > 1 then None
      else if head[1] == 1 then Some((LinkEnabled(head[0], v[0], v[1] == 1), rest'))
      else if head[1] == 2 then Some((ValveEnabled(head[0], v[0], v[1] == 1), rest'))
      else None
  }

  /** A case as written: with the loading work of the manifest it belongs to. */
  type Loaded = (Case, U64)

  function CaseFields(c: Case): seq<nat> {
    [c.seed, c.ticks, c.fuel, c.activationFuel]
  }

  function CaseBytes(c: Loaded): Bytes {
    Pack(CASE, CaseFields(c.0)) + (ListBytes(B1, EventBytes, c.0.events) + Pack([B8], [c.1]))
  }

  predicate CaseFits(c: Loaded) {
    |c.0.events| < 0x100
  }

  function DecodeCase(b: Bytes): Decoded<Loaded> {
    var (v, rest) :- Unpack(CASE, b);
    var (events, rest') :- DecodeList(B1, DecodeEvent, rest);
    var (load, rest'') :- Unpack([B8], rest');
    Some(((Case(v[0], v[1], v[2], v[3], events), load[0]), rest''))
  }

  function Load(cases: seq<Case>, work: U64): (r: seq<Loaded>)
    ensures |r| == |cases|
    ensures forall i | 0 <= i < |r| :: r[i] == (cases[i], work)
  {
    if cases == [] then [] else [(cases[0], work)] + Load(cases[1..], work)
  }

  function ContractBytes(c: Contract): Bytes {
    Pack(CONTRACT, [c.usefulFloor, c.totalCeiling, Bit(c.requirePassed)])
  }

  function CaseList(m: Manifest, work: U64): Bytes {
    ListBytes(B1, CaseBytes, Load(m.cases, work)) + ContractBytes(m.contract)
  }

  function SlotList(m: Manifest, work: U64): Bytes {
    ListBytes(B1, SlotBytes, m.slots) + CaseList(m, work)
  }

  /** Version and language, the world, then the slots, the cases and the contract. */
  function ManifestBytes(m: Manifest, work: U64): Bytes {
    [1, 1] + (WorldBytes(m.world) + SlotList(m, work))
  }

  /** Every count has room in its field. */
  predicate Writable(m: Manifest) {
    && CountsFit(m.world)
    && |m.slots| < 0x100 && All(SlotFits, m.slots)
    && CaseCountsFit(m.cases)
  }

  predicate ManifestFits(m: Manifest) {
    Writable(m) && WorldFits(m.world)
  }

  predicate CaseCountsFit(cases: seq<Case>) {
    |cases| < 0x100 && forall i | 0 <= i < |cases| :: |cases[i].events| < 0x100
  }

  datatype Decoding = Decoding(world: World, slots: seq<Slot>, cases: seq<Loaded>, contract: Contract)

  function DecodeManifest(b: Bytes): Decoded<Decoding> {
    if |b| < 2 || b[..2] != [1, 1] then None
    else
      var (world, b1) :- DecodeWorld(b[2..]);
      var (slots, b2) :- DecodeList(B1, DecodeSlot, b1);
      var (cases, b3) :- DecodeList(B1, DecodeCase, b2);
      var (contract, b4) :- DecodeContract(b3);
      Some((Decoding(world, slots, cases, contract), b4))
  }

  lemma SlotBack(s: Slot, rest: Bytes)
    requires SlotFits(s)
    ensures DecodeSlot(SlotBytes(s) + rest) == Some((s, rest))
  {
    match s.fixed {
      case None =>
        Regroup(Pack([B2], [s.cell]), [0], rest);
        PackBack([B2], [s.cell], [0] + rest);
        HeadAndTail([0], rest);
      case Some(rules) =>
        Regroup(Pack([B2], [s.cell]), [1] + ProgramBytes(rules), rest);
        Regroup([1], ProgramBytes(rules), rest);
        PackBack([B2], [s.cell], [1] + (ProgramBytes(rules) + rest));
        HeadAndTail([1], ProgramBytes(rules) + rest);
        ProgramBack(rules, rest);
    }
  }

  lemma EventBack(e: Event, rest: Bytes)
    ensures DecodeEvent(EventBytes(e) + rest) == Some((e, rest))
  {
    match e {
      case LinkEnabled(tick, id, enabled) =>
        TwoGroupsBack(EVENT, [tick, 1], SWITCH, [id, Bit(enabled)], rest);
      case ValveEnabled(tick, id, enabled) =>
        TwoGroupsBack(EVENT, [tick, 2], SWITCH, [id, Bit(enabled)], rest);
      case CellEvent(tick, cell) =>
        TwoGroupsBack(EVENT, [tick, 3], [B2], [cell], rest);
    }
  }

  lemma TwoGroupsBack(ws: seq<Width>, vs: seq<nat>, ws': seq<Width>, vs': seq<nat>, rest: Bytes)
    requires Fit(ws, vs) && Fit(ws', vs')
    ensures Unpack(ws, (Pack(ws, vs) + Pack(ws', vs')) + rest) == Some((vs, Pack(ws', vs') + rest))
    ensures Unpack(ws', Pack(ws', vs') + rest) == Some((vs', rest))
  {
    Regroup(Pack(ws, vs), Pack(ws', vs'), rest);
    PackBack(ws, vs, Pack(ws', vs') + rest);
    PackBack(ws', vs', rest);
  }

  lemma CaseBack(c: Loaded, rest: Bytes)
    requires CaseFits(c)
    ensures DecodeCase(CaseBytes(c) + rest) == Some((c, rest))
  {
    var load := Pack([B8], [c.1]);
    var events := ListBytes(B1, EventBytes, c.0.events);
    Regroup(Pack(CASE, CaseFields(c.0)), events + load, rest);
    PackBack(CASE, CaseFields(c.0), (events + load) + rest);
    forall e, t ensures DecodeEvent(EventBytes(e) + t) == Some((e, t)) {
      EventBack(e, t);
    }
    ListThenTail(B1, EventBytes, _ => true, DecodeEvent, c.0.events, load, rest);
    PackBack([B8], [c.1], rest);
  }

  lemma SlotsBack(m: Manifest, work: U64, rest: Bytes)
    requires Writable(m)
    ensures DecodeList(B1, DecodeSlot, SlotList(m, work) + rest) == Some((m.slots, CaseList(m, work) + rest))
  {
    forall s, t | SlotFits(s) ensures DecodeSlot(SlotBytes(s) + t) == Some((s, t)) {
      SlotBack(s, t);
    }
    ListThenTail(B1, SlotBytes, SlotFits, DecodeSlot, m.slots, CaseList(m, work), rest);
  }

  lemma CasesBack(m: Manifest, work: U64, rest: Bytes)
    requires Writable(m)
    ensures DecodeList(B1, DecodeCase, CaseList(m, work) + rest)
            == Some((Load(m.cases, work), ContractBytes(m.contract) + rest))
  {
    forall c, t | CaseFits(c) ensures DecodeCase(CaseBytes(c) + t) == Some((c, t)) {
      CaseBack(c, t);
    }
    ListThenTail(B1, CaseBytes, CaseFits, DecodeCase, Load(m.cases, work), ContractBytes(m.contract), rest);
  }

  function DecodeContract(b: Bytes): Decoded<Contract> {
    var (v, rest) :- Unpack(CONTRACT, b);
    if v[2] > 1 then None else Some((Contract(v[0], v[1], v[2] == 1), rest))
  }

  lemma ContractBack(c: Contract, rest: Bytes)
    ensures DecodeContract(ContractBytes(c) + rest) == Some((c, rest))
  {
    PackBack(CONTRACT, [c.usefulFloor, c.totalCeiling, Bit(c.requirePassed)], rest);
  }

  /** The decoder undoes a manifest: it returns the world, slots, cases and contract, the loading
      work written with each case, and exactly the bytes that followed. */
  lemma ManifestBack(m: Manifest, work: U64, rest: Bytes)
    requires ManifestFits(m)
    ensures DecodeManifest(ManifestBytes(m, work) + rest)
            == Some((Decoding(m.world, m.slots, Load(m.cases, work), m.contract), rest))
  {
    var slots := SlotList(m, work);
    Regroup([1, 1], WorldBytes(m.world) + slots, rest);
    Regroup(WorldBytes(m.world), slots, rest);
    HeadAndTail([1, 1], WorldBytes(m.world) + (slots + rest));
    WorldBack(m.world, slots + rest);
    SlotsBack(m, work, rest);
    CasesBack(m, work, rest);
    ContractBack(m.contract, rest);
  }

  lemma {:induction false} LastByteOut(ws: seq<Width>, vs: seq<nat>, last: Byte)
    requires Fit(ws, vs)
    ensures Pack(ws + [B1], vs + [last]) == Pack(ws, vs) + [last]
  {
    if ws == [] {
      assert Pack([B1], [last]) == [last];
      assert ws + [B1] == [B1] && vs + [last] == [last];
    } else {
      assert (ws + [B1])[1..] == ws[1..] + [B1] && (vs + [last])[1..] == vs[1..] + [last];
      LastByteOut(ws[1..], vs[1..], last);
    }
  }

  lemma DisabledLinkEndsInZero(l: Link) returns (front: Bytes)
    requires !l.enabled
    ensures LinkBytes(l) == front + [0]
  {
    match l {
      case CellLink(id, from, port, toCell, toPort, delay, _) =>
        front := FrontOf(Pack(LINK, [id, 1]), [B2, B1, B2, B1, B4], [from, port, toCell, toPort, delay]);
        assert CELL_LINK == [B2, B1, B2, B1, B4] + [B1];
        assert [from, port, toCell, toPort, delay, 0] == [from, port, toCell, toPort, delay] + [0];
      case ReceiverLink(id, from, toCell, toPort, delay, _) =>
        front := FrontOf(Pack(LINK, [id, 2]), [B2, B2, B1, B4], [from, toCell, toPort, delay]);
        assert RECEIVER_LINK == [B2, B2, B1, B4] + [B1];
        assert [from, toCell, toPort, delay, 0] == [from, toCell, toPort, delay] + [0];
    }
  }

  lemma FrontOf(head: Bytes, ws: seq<Width>, vs: seq<nat>) returns (front: Bytes)
    requires Fit(ws, vs)
    ensures head + Pack(ws + [B1], vs + [0]) == front + [0]
  {
    LastByteOut(ws, vs, 0);
    front := head + Pack(ws, vs);
    Regroup(head, Pack(ws, vs), [0]);
  }

  lemma OneElement<T>(enc: T -> Bytes, x: T)
    ensures ListBytes(B1, enc, [x]) == [1] + enc(x) && ListBytes(B1, enc, []) == [0]
  {
    assert Each(enc, [x]) == enc(x) + Each(enc, []) == enc(x);
  }

  /** The memory's length is not written, so a longer memory can pass for the records behind it: every
      world with one cell and one disabled link is encoded like another with no link at all. */
  lemma MemoryLengthsCollide(w: World, c: Cell, l: Link) returns (w': World)
    requires w.cells == [c] && w.links == [l] && !l.enabled
    ensures w'.links == [] && |w'.cells| == 1 && |w'.cells[0].memory| > |c.memory|
    ensures WorldBytes(w') == WorldBytes(w)
  {
    var front := DisabledLinkEndsInZero(l);
    var longer := c.(memory := c.memory + ([1] + front));
    w' := w.(cells := [longer], links := []);
    OneElement(CellBytes, c);
    OneElement(CellBytes, longer);
    OneElement(LinkBytes, l);
    LongerCell(c, longer, front);
    assert CellList(w') == CellList(w);
  }

  lemma LongerCell(c: Cell, longer: Cell, front: Bytes)
    requires longer == c.(memory := c.memory + ([1] + front))
    ensures ([1] + CellBytes(longer)) + [0] == ([1] + CellBytes(c)) + ([1] + (front + [0]))
  {
    var fields := Pack(CELL, [c.id, c.position.x, c.position.y, DirectionByte(c.heading), Bit(c.mobile)]);
    assert CellBytes(c) == fields + c.memory && CellBytes(longer) == fields + (c.memory + ([1] + front));
  }

  /** Two programs whose encodings begin the same bytes are the same program, followed by the same
      bytes. */
  lemma ProgramIsSelfDelimiting(p: seq<Rule>, rest: Bytes, p': seq<Rule>, rest': Bytes)
    requires ProgramFits(p) && ProgramFits(p') && ProgramBytes(p) + rest == ProgramBytes(p') + rest'
    ensures p == p' && rest == rest'
  {
    ProgramBack(p, rest);
    ProgramBack(p', rest');
  }

  /** Two manifests whose encodings begin the same bytes have worlds with as many cells; and they are
      the same manifest, followed by the same bytes, with the same loading work unless no case
      carries it, exactly when the cells have memories of the same lengths. */
  lemma ManifestDeterminedExactlyWhen(m: Manifest, work: U64, rest: Bytes, m': Manifest, work': U64, rest': Bytes)
    requires Writable(m) && Writable(m')
    requires ManifestBytes(m, work) + rest == ManifestBytes(m', work') + rest'
    ensures var cells, cells' := m.world.cells, m'.world.cells;
            && |cells| == |cells'|
            && ((forall i | 0 <= i < |cells| :: |cells[i].memory| == |cells'[i].memory|)
                <==> m == m' && rest == rest' && (m.cases == [] || work == work'))
  {
    BehindHeader(WorldBytes(m.world), SlotList(m, work), rest);
    BehindHeader(WorldBytes(m'.world), SlotList(m', work'), rest');
    WorldDeterminedExactlyWhen(m.world, SlotList(m, work) + rest, m'.world, SlotList(m', work') + rest');
    if SlotList(m, work) + rest == SlotList(m', work') + rest' {
      SlotsBack(m, work, rest);
      SlotsBack(m', work', rest');
      CasesBack(m, work, rest);
      CasesBack(m', work', rest');
      ContractBack(m.contract, rest);
      ContractBack(m'.contract, rest');
      LoadIsInjective(m.cases, work, m'.cases, work');
    }
  }

  lemma BehindHeader(world: Bytes, slots: Bytes, rest: Bytes)
    ensures (([1, 1] + (world + slots)) + rest)[2..] == world + (slots + rest)
  {
    Regroup([1, 1], world + slots, rest);
    Regroup(world, slots, rest);
    HeadAndTail([1, 1], world + (slots + rest));
  }

  /** In particular, for manifests whose cells all have four bytes of memory. */
  lemma ManifestIsSelfDelimiting(m: Manifest, work: U64, rest: Bytes, m': Manifest, work': U64, rest': Bytes)
    requires ManifestFits(m) && ManifestFits(m')
    requires ManifestBytes(m, work) + rest == ManifestBytes(m', work') + rest'
    ensures m == m' && rest == rest' && (m.cases == [] || work == work')
  {
    ManifestDeterminedExactlyWhen(m, work, rest, m', work', rest');
  }

  lemma LoadIsInjective(cases: seq<Case>, work: U64, cases': seq<Case>, work': U64)
    requires Load(cases, work) == Load(cases', work')
    ensures cases == cases' && (cases == [] || work == work')
  {
    assert |cases| == |cases'|;
    forall i | 0 <= i < |cases| ensures cases[i] == cases'[i] && work == work' {
      assert Load(cases, work)[i] == Load(cases', work')[i];
    }
  }

  // ---------------------------------------------------------------------------------------
  // The loading work

  lemma {:induction false} CasesKeepTheirLength(cases: seq<Case>, work: U64, work': U64)
    ensures |Each(CaseBytes, Load(cases, work))| == |Each(CaseBytes, Load(cases, work'))|
  {
    if cases != [] {
      CasesKeepTheirLength(cases[1..], work, work');
      assert Load(cases, work)[1..] == Load(cases[1..], work);
      assert Load(cases, work')[1..] == Load(cases[1..], work');
      CaseKeepsItsLength(cases[0], work, work');
    }
  }

  lemma OneField(v: U64)
    ensures |Pack([B8], [v])| == 8
  {
    assert [B8][1..] == [];
  }

  lemma CaseKeepsItsLength(c: Case, work: U64, work': U64)
    ensures |CaseBytes((c, work))| == |CaseBytes((c, work'))|
  {
    OneField(work);
    OneField(work');
  }

  lemma LengthIgnoresLoadingWork(m: Manifest, work: U64, work': U64)
    ensures |ManifestBytes(m, work)| == |ManifestBytes(m, work')|
  {
    CasesKeepTheirLength(m.cases, work, work');
  }

  /** Measuring once with no loading work gives the one loading work equal to the length of the
      manifest that carries it. */
  lemma LoadingWorkFixpoint(m: Manifest, work: U64)
    requires |ManifestBytes(m, 0)| < 0x1_0000_0000_0000_0000
    ensures |ManifestBytes(m, work)| == work <==> work == |ManifestBytes(m, 0)|
  {
    LengthIgnoresLoadingWork(m, work, 0);
  }

  // ---------------------------------------------------------------------------------------
  // The writers

  /** Write each element behind what is already there. */
  method AppendEach<T>(before: Bytes, enc: T -> Bytes, xs: seq<T>) returns (out: Bytes)
    ensures out == before + Each(enc, xs)
  {
    out := before;
    for i := 0 to |xs|
      invariant out + Each(enc, xs[i..]) == before + Each(enc, xs)
    {
      assert xs[i..][1..] == xs[i + 1..];
      Regroup(out, enc(xs[i]), Each(enc, xs[i + 1..]));
      out := out + enc(xs[i]);
    }
  }

  /** Write a count, then the elements; a count that does not fit its field is refused. */
  method AppendList<T>(before: Bytes, w: Width, enc: T -> Bytes, xs: seq<T>) returns (out: Option<Bytes>)
    ensures out == if |xs| < w.Limit() then Some(before + ListBytes(w, enc, xs)) else None
  {
    if |xs| >= w.Limit() {
      return None;
    }
    var body := AppendEach(before + Count(w, |xs|), enc, xs);
    Regroup(before, Count(w, |xs|), Each(enc, xs));
    return Some(body);
  }

  method WriteRule(r: Rule) returns (out: Option<Bytes>)
    ensures out == if RuleFits(r) then Some(RuleBytes(r)) else None
  {
    var when := AppendList([], B1, ConditionBytes, r.when);
    if when == None {
      return None;
    }
    assert [] + ListBytes(B1, ConditionBytes, r.when) == ListBytes(B1, ConditionBytes, r.when);
    Regroup(when.value, ActionBytes(r.action), RememberBytes(r.remember));
    return Some((when.value + ActionBytes(r.action)) + RememberBytes(r.remember));
  }

  method WriteProgram(rules: seq<Rule>) returns (out: Option<Bytes>)
    ensures out == if ProgramFits(rules) then Some(ProgramBytes(rules)) else None
  {
    if |rules| > 0xFF {
      return None;
    }
    var body := Count(B1, |rules|);
    for i := 0 to |rules|
      invariant body + Each(RuleBytes, rules[i..]) == ProgramBytes(rules)
      invariant forall k | 0 <= k < i :: RuleFits(rules[k])
    {
      var rule := WriteRule(rules[i]);
      if rule == None {
        return None;
      }
      assert rules[i..][1..] == rules[i + 1..];
      Regroup(body, rule.value, Each(RuleBytes, rules[i + 1..]));
      body := body + rule.value;
    }
    assert body + [] == body;
    return Some(body);
  }

  /** Cell memory is written as it is, whatever its length. */
  method WriteWorld(w: World) returns (out: Option<Bytes>)
    ensures out == if CountsFit(w) then Some(WorldBytes(w)) else None
  {
    for i := 0 to |w.sources|
      invariant forall k | 0 <= k < i :: SourceFits(w.sources[k])
    {
      if |w.sources[i].sparks| > 0xFF {
        return None;
      }
    }
    var dims := [w.width, w.height];
    var walls := AppendList(dims, B2, PointBytes, w.walls);
    if walls == None { return None; }
    var sources := AppendList(walls.value, B1, SourceBytes, w.sources);
    if sources == None { return None; }
    var depots := AppendList(sources.value, B1, DepotBytes, w.depots);
    if depots == None { return None; }
    var beacons := AppendList(depots.value, B1, BeaconBytes, w.beacons);
    if beacons == None { return None; }
    var valves := AppendList(beacons.value, B1, ValveBytes, w.valves);
    if valves == None { return None; }
    var cells := AppendList(valves.value, B1, CellBytes, w.cells);
    if cells == None { return None; }
    var links := AppendList(cells.value, B1, LinkBytes, w.links);
    if links == None { return None; }
    FivePieces(beacons.value, ListBytes(B1, ValveBytes, w.valves), ListBytes(B1, CellBytes, w.cells),
               LinkList(w), []);
    FivePieces(dims, ListBytes(B2, PointBytes, w.walls), ListBytes(B1, SourceBytes, w.sources),
               ListBytes(B1, DepotBytes, w.depots), BeaconList(w));
    Regroup(depots.value, ListBytes(B1, BeaconBytes, w.beacons), ValveList(w));
    assert LinkList(w) + [] == LinkList(w) && links.value + [] == links.value;
    return links;
  }

  /** What the writer accepts: every count fits, whatever the length of a cell's memory. */
  method WriteSlots(before: Bytes, slots: seq<Slot>) returns (out: Option<Bytes>)
    ensures out == if |slots| < 0x100 && All(SlotFits, slots) then Some(before + ListBytes(B1, SlotBytes, slots))
                   else None
  {
    if |slots| > 0xFF {
      return None;
    }
    var body := before + Count(B1, |slots|);
    Regroup(before, Count(B1, |slots|), Each(SlotBytes, slots));
    for i := 0 to |slots|
      invariant body + Each(SlotBytes, slots[i..]) == before + ListBytes(B1, SlotBytes, slots)
      invariant forall k | 0 <= k < i :: SlotFits(slots[k])
    {
      var slot := slots[i];
      assert slots[i..][1..] == slots[i + 1..];
      Regroup(body, SlotBytes(slot), Each(SlotBytes, slots[i + 1..]));
      if slot.fixed == None {
        body := body + SlotBytes(slot);
      } else {
        var program := WriteProgram(slot.fixed.value);
        if program == None {
          return None;
        }
        body := body + (Pack([B2], [slot.cell]) + ([1] + program.value));
      }
    }
    assert body + [] == body;
    return Some(body);
  }

  lemma FivePieces(a: Bytes, b: Bytes, c: Bytes, d: Bytes, e: Bytes)
    ensures (((a + b) + c) + d) + e == a + (b + (c + (d + e)))
  {
  }

  method WriteCases(before: Bytes, cases: seq<Case>, work: U64) returns (out: Option<Bytes>)
    ensures out == if CaseCountsFit(cases) then Some(before + ListBytes(B1, CaseBytes, Load(cases, work)))
                   else None
  {
    for i := 0 to |cases|
      invariant forall k | 0 <= k < i :: |cases[k].events| < 0x100
    {
      if |cases[i].events| > 0xFF { return None; }
    }
    out := AppendList(before, B1, CaseBytes, Load(cases, work));
  }

  method WriteManifest(m: Manifest, work: U64) returns (out: Option<Bytes>)
    ensures out == if Writable(m) then Some(ManifestBytes(m, work)) else None
  {
    var world := WriteWorld(m.world);
    if world == None { return None; }
    var slots := WriteSlots([1, 1] + world.value, m.slots);
    if slots == None { return None; }
    var cases := WriteCases(slots.value, m.cases, work);
    if cases == None { return None; }
    FivePieces([1, 1], world.value, ListBytes(B1, SlotBytes, m.slots),
               ListBytes(B1, CaseBytes, Load(m.cases, work)), ContractBytes(m.contract));
    return Some(cases.value + ContractBytes(m.contract));
  }

  /** Measure the manifest without its loading work, then write it with its own length as the
      loading work: the measurement stays true. */
  method WriteMeasured(m: Manifest) returns (out: Option<Bytes>)
    ensures out.Some? <==> Writable(m) && |ManifestBytes(m, 0)| < 0x1_0000_0000_0000_0000
    ensures out.Some? ==> |out.value| < 0x1_0000_0000_0000_0000 && out.value == ManifestBytes(m, |out.value|)
  {
    var measured := WriteManifest(m, 0);
    if measured == None || |measured.value| >= 0x1_0000_0000_0000_0000 {
      return None;
    }
    LoadingWorkFixpoint(m, |measured.value|);
    out := WriteManifest(m, |measured.value|);
  }
}

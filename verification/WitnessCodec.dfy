/** The witness-v1 encodings of programs, worlds and manifests, with decoders that undo them.

Every encoding is self-delimiting: its decoder returns the value and exactly the bytes that
followed it.
*/
module WitnessCodec {
  import opened Wrappers
  import opened ByteCodec

  type Decoded<T> = Option<(T, Bytes)>

  // ---------------------------------------------------------------------------------------
  // Field groups and counted lists

  predicate Fit(ws: seq<Width>, vs: seq<nat>) {
    |ws| == |vs| && forall i | 0 <= i < |ws| :: vs[i] < ws[i].Limit()
  }

  /** Big-endian fields side by side. */
  function Pack(ws: seq<Width>, vs: seq<nat>): Bytes
    requires Fit(ws, vs)
  {
    if ws == [] then [] else Int(ws[0], vs[0]) + Pack(ws[1..], vs[1..])
  }

  function Unpack(ws: seq<Width>, b: Bytes): (r: Decoded<seq<nat>>)
    ensures r.Some? ==> Fit(ws, r.value.0)
  {
    if ws == [] then Some(([], b))
    else if |b| < ws[0].Size() then None
    else
      var (vs, rest) :- Unpack(ws[1..], b[ws[0].Size()..]);
      Some(([Value(ws[0], b[..ws[0].Size()])] + vs, rest))
  }

  lemma {:induction false} PackBack(ws: seq<Width>, vs: seq<nat>, rest: Bytes)
    requires Fit(ws, vs)
    ensures Unpack(ws, Pack(ws, vs) + rest) == Some((vs, rest))
  {
    if ws == [] {
      assert Pack(ws, vs) + rest == rest;
    } else {
      var first, others := Int(ws[0], vs[0]), Pack(ws[1..], vs[1..]);
      Regroup(first, others, rest);
      ValueOfInt(ws[0], vs[0]);
      PackBack(ws[1..], vs[1..], rest);
      HeadAndTail(first, others + rest);
      assert [vs[0]] + vs[1..] == vs;
    }
  }

  function Each<T>(enc: T -> Bytes, xs: seq<T>): Bytes {
    if xs == [] then [] else enc(xs[0]) + Each(enc, xs[1..])
  }

  function DecodeEach<T>(dec: Bytes -> Decoded<T>, n: nat, b: Bytes): Decoded<seq<T>> {
    if n == 0 then Some(([], b))
    else
      var (x, rest) :- dec(b);
      var (xs, rest') :- DecodeEach(dec, n - 1, rest);
      Some(([x] + xs, rest'))
  }

  /** The decoder returns what was encoded, and the bytes behind it untouched. */
  ghost predicate Undoes<T(!new)>(enc: T -> Bytes, good: T -> bool, dec: Bytes -> Decoded<T>) {
    forall x, rest :: good(x) ==> dec(enc(x) + rest) == Some((x, rest))
  }

  predicate All<T>(good: T -> bool, xs: seq<T>) {
    forall i | 0 <= i < |xs| :: good(xs[i])
  }

  lemma {:induction false} EachBack<T(!new)>(enc: T -> Bytes, good: T -> bool, dec: Bytes -> Decoded<T>,
                                             xs: seq<T>, rest: Bytes)
    requires Undoes(enc, good, dec) && All(good, xs)
    ensures DecodeEach(dec, |xs|, Each(enc, xs) + rest) == Some((xs, rest))
  {
    if xs == [] {
      assert Each(enc, xs) + rest == rest;
    } else {
      Regroup(enc(xs[0]), Each(enc, xs[1..]), rest);
      EachBack(enc, good, dec, xs[1..], rest);
      assert dec(enc(xs[0]) + (Each(enc, xs[1..]) + rest)) == Some((xs[0], Each(enc, xs[1..]) + rest));
      assert [xs[0]] + xs[1..] == xs;
    }
  }

  /** A count. Encoders refuse counts out of range; there the remainder is only a filler. */
  function Count(w: Width, n: nat): Bytes {
    Int(w, n % w.Limit())
  }

  function ListBytes<T>(w: Width, enc: T -> Bytes, xs: seq<T>): Bytes {
    Count(w, |xs|) + Each(enc, xs)
  }

  function DecodeList<T>(w: Width, dec: Bytes -> Decoded<T>, b: Bytes): Decoded<seq<T>> {
    if |b| < w.Size() then None
    else DecodeEach(dec, Value(w, b[..w.Size()]), b[w.Size()..])
  }

  lemma ListBack<T(!new)>(w: Width, enc: T -> Bytes, good: T -> bool, dec: Bytes -> Decoded<T>,
                          xs: seq<T>, rest: Bytes)
    requires Undoes(enc, good, dec) && All(good, xs) && |xs| < w.Limit()
    ensures DecodeList(w, dec, ListBytes(w, enc, xs) + rest) == Some((xs, rest))
  {
    CountValue(w, |xs|);
    Regroup(Count(w, |xs|), Each(enc, xs), rest);
    HeadAndTail(Count(w, |xs|), Each(enc, xs) + rest);
    EachBack(enc, good, dec, xs, rest);
  }

  lemma CountValue(w: Width, n: nat)
    requires n < w.Limit()
    ensures |Count(w, n)| == w.Size() && Value(w, Count(w, n)) == n
  {
    NothingToCast(w, n);
    ValueOfInt(w, n);
  }

  lemma NothingToCast(w: Width, n: nat)
    requires n < w.Limit()
    ensures n % w.Limit() == n
  {
    match w {
      case B1 => assert n % 0x100 == n;
      case B2 => assert n % 0x1_0000 == n;
      case B4 => assert n % 0x1_0000_0000 == n;
      case B8 => assert n % 0x1_0000_0000_0000_0000 == n;
    }
  }

  function Bit(b: bool): Byte {
    if b then 1 else 0
  }

  // ---------------------------------------------------------------------------------------
  // Programs

  datatype Relative = Forward | Left | Right | Back

  datatype Direction = North | East | South | West

  function RelativeByte(r: Relative): Byte {
    match r case Forward => 1 case Left => 2 case Right => 3 case Back => 4
  }

  function DirectionByte(d: Direction): Byte {
    match d case North => 1 case East => 2 case South => 3 case West => 4
  }

  function RelativeOf(b: nat): Option<Relative> {
    match b case 1 => Some(Forward) case 2 => Some(Left) case 3 => Some(Right) case 4 => Some(Back) case _ => None
  }

  function DirectionOf(b: nat): Option<Direction> {
    match b case 1 => Some(North) case 2 => Some(East) case 3 => Some(South) case 4 => Some(West) case _ => None
  }

  datatype Condition =
    | Carrying(value: bool)
    | AtSource(value: bool)
    | AtDepot(value: bool)
    | AtBeacon(value: bool)
    | AtReceiver(value: bool)
    | Blocked(direction: Relative, value: bool)
    | HasMessage(port: Byte, value: bool)
    | MessageBit(port: Byte, value: bool)
    | Memory(slot: Byte, content: Byte)
    | Heading(heading: Direction)

  datatype BitSource = Constant(value: bool) | MemoryBit(slot: Byte) | Message(port: Byte)

  datatype Action =
    | Move(direction: Relative)
    | Turn(direction: Relative)
    | Pickup
    | Drop
    | Wait
    | WriteMemory(slot: Byte, content: Byte)
    | TakeMessage(port: Byte, slot: Byte)
    | Send(port: Byte, bit: BitSource)
    | Route(valve: U16, bit: BitSource)

  datatype Remember = Remember(slot: Byte, content: Byte)

  datatype Rule = Rule(when: seq<Condition>, action: Action, remember: Option<Remember>)

  function ConditionBytes(c: Condition): Bytes {
    match c
    case Carrying(value) => [1, Bit(value)]
    case AtSource(value) => [2, Bit(value)]
    case AtDepot(value) => [3, Bit(value)]
    case AtBeacon(value) => [4, Bit(value)]
    case AtReceiver(value) => [5, Bit(value)]
    case Blocked(direction, value) => [6, RelativeByte(direction), Bit(value)]
    case HasMessage(port, value) => [7, port, Bit(value)]
    case MessageBit(port, value) => [8, port, Bit(value)]
    case Memory(slot, content) => [9, slot, content]
    case Heading(heading) => [10, DirectionByte(heading)]
  }

  function DecodeCondition(b: Bytes): Decoded<Condition> {
    if |b| < 2 then None
    else if b[0] == 10 then
      var heading :- DirectionOf(b[1]);
      Some((Heading(heading), b[2..]))
    else if b[0] <= 5 then
      if b[1] > 1 then None
      else
        var value := b[1] == 1;
        match b[0]
        case 1 => Some((Carrying(value), b[2..]))
        case 2 => Some((AtSource(value), b[2..]))
        case 3 => Some((AtDepot(value), b[2..]))
        case 4 => Some((AtBeacon(value), b[2..]))
        case 5 => Some((AtReceiver(value), b[2..]))
        case _ => None
    else if |b| < 3 then None
    else if b[0] == 9 then Some((Memory(b[1], b[2]), b[3..]))
    else if b[2] > 1 then None
    else
      match b[0]
      case 6 =>
        var direction :- RelativeOf(b[1]);
        Some((Blocked(direction, b[2] == 1), b[3..]))
      case 7 => Some((HasMessage(b[1], b[2] == 1), b[3..]))
      case 8 => Some((MessageBit(b[1], b[2] == 1), b[3..]))
      case _ => None
  }

  lemma ConditionBack(c: Condition, rest: Bytes)
    ensures DecodeCondition(ConditionBytes(c) + rest) == Some((c, rest))
  {
    HeadAndTail(ConditionBytes(c), rest);
  }

  function BitSourceBytes(s: BitSource): Bytes {
    match s
    case Constant(value) => [1, Bit(value)]
    case MemoryBit(slot) => [2, slot]
    case Message(port) => [3, port]
  }

  function DecodeBitSource(b: Bytes): Decoded<BitSource> {
    if |b| < 2 then None
    else
      match b[0]
      case 1 => if b[1] > 1 then None else Some((Constant(b[1] == 1), b[2..]))
      case 2 => Some((MemoryBit(b[1]), b[2..]))
      case 3 => Some((Message(b[1]), b[2..]))
      case _ => None
  }

  lemma BitSourceBack(s: BitSource, rest: Bytes)
    ensures DecodeBitSource(BitSourceBytes(s) + rest) == Some((s, rest))
  {
    HeadAndTail(BitSourceBytes(s), rest);
  }

  function ActionBytes(a: Action): Bytes {
    match a
    case Move(direction) => [1, RelativeByte(direction)]
    case Turn(direction) => [2, RelativeByte(direction)]
    case Pickup => [3]
    case Drop => [4]
    case Wait => [5]
    case WriteMemory(slot, content) => [6, slot, content]
    case TakeMessage(port, slot) => [7, port, slot]
    case Send(port, bit) => [8, port] + BitSourceBytes(bit)
    case Route(valve, bit) => ([9] + Pair(valve)) + BitSourceBytes(bit)
  }

  function DecodeAction(b: Bytes): Decoded<Action> {
    if |b| == 0 then None
    else if b[0] == 3 then Some((Pickup, b[1..]))
    else if b[0] == 4 then Some((Drop, b[1..]))
    else if b[0] == 5 then Some((Wait, b[1..]))
    else if |b| < 2 then None
    else if b[0] == 1 then
      var direction :- RelativeOf(b[1]);
      Some((Move(direction), b[2..]))
    else if b[0] == 2 then
      var direction :- RelativeOf(b[1]);
      Some((Turn(direction), b[2..]))
    else if b[0] == 8 then
      var (bit, rest) :- DecodeBitSource(b[2..]);
      Some((Send(b[1], bit), rest))
    else if |b| < 3 then None
    else if b[0] == 6 then Some((WriteMemory(b[1], b[2]), b[3..]))
    else if b[0] == 7 then Some((TakeMessage(b[1], b[2]), b[3..]))
    else if b[0] == 9 then
      var (bit, rest) :- DecodeBitSource(b[3..]);
      Some((Route(PairValue(b[1..3]), bit), rest))
    else None
  }

  lemma ActionBack(a: Action, rest: Bytes)
    ensures DecodeAction(ActionBytes(a) + rest) == Some((a, rest))
  {
    match a
    case Send(port, bit) => SendBack(port, bit, rest);
    case Route(valve, bit) => RouteBack(valve, bit, rest);
    case _ => ShortActionBack(a, rest);
  }

  lemma ShortActionBack(a: Action, rest: Bytes)
    requires !a.Send? && !a.Route?
    ensures DecodeAction(ActionBytes(a) + rest) == Some((a, rest))
  {
    HeadAndTail(ActionBytes(a), rest);
  }

  lemma SendBack(port: Byte, bit: BitSource, rest: Bytes)
    ensures DecodeAction(ActionBytes(Send(port, bit)) + rest) == Some((Send(port, bit), rest))
  {
    Regroup([8, port], BitSourceBytes(bit), rest);
    HeadAndTail([8, port], BitSourceBytes(bit) + rest);
    BitSourceBack(bit, rest);
  }

  lemma RouteBack(valve: U16, bit: BitSource, rest: Bytes)
    ensures DecodeAction(ActionBytes(Route(valve, bit)) + rest) == Some((Route(valve, bit), rest))
  {
    var front := [9] + Pair(valve);
    Regroup(front, BitSourceBytes(bit), rest);
    HeadAndTail(front, BitSourceBytes(bit) + rest);
    assert (front + (BitSourceBytes(bit) + rest))[1..3] == Pair(valve);
    BitSourceBack(bit, rest);
  }

  function RememberBytes(r: Option<Remember>): Bytes {
    match r
    case None => [0]
    case Some(memo) => [1, memo.slot, memo.content]
  }

  function DecodeRemember(b: Bytes): Decoded<Option<Remember>> {
    if |b| == 0 then None
    else if b[0] == 0 then Some((None, b[1..]))
    else if b[0] == 1 && |b| >= 3 then Some((Some(Remember(b[1], b[2])), b[3..]))
    else None
  }

  function RuleBytes(r: Rule): Bytes {
    ListBytes(B1, ConditionBytes, r.when) + (ActionBytes(r.action) + RememberBytes(r.remember))
  }

  predicate RuleFits(r: Rule) {
    |r.when| < 0x100
  }

  function DecodeRule(b: Bytes): Decoded<Rule> {
    var (when, rest) :- DecodeList(B1, DecodeCondition, b);
    var (action, rest') :- DecodeAction(rest);
    var (remember, rest'') :- DecodeRemember(rest');
    Some((Rule(when, action, remember), rest''))
  }

  lemma ConditionsBack(when: seq<Condition>, rest: Bytes)
    requires |when| < 0x100
    ensures DecodeList(B1, DecodeCondition, ListBytes(B1, ConditionBytes, when) + rest) == Some((when, rest))
  {
    forall c, t ensures DecodeCondition(ConditionBytes(c) + t) == Some((c, t)) {
      ConditionBack(c, t);
    }
    ListBack(B1, ConditionBytes, _ => true, DecodeCondition, when, rest);
  }

  lemma RememberBack(r: Option<Remember>, rest: Bytes)
    ensures DecodeRemember(RememberBytes(r) + rest) == Some((r, rest))
  {
    HeadAndTail(RememberBytes(r), rest);
  }

  lemma RuleBack(r: Rule, rest: Bytes)
    requires RuleFits(r)
    ensures DecodeRule(RuleBytes(r) + rest) == Some((r, rest))
  {
    var action, memo := ActionBytes(r.action), RememberBytes(r.remember);
    Regroup(ListBytes(B1, ConditionBytes, r.when), action + memo, rest);
    Regroup(action, memo, rest);
    ConditionsBack(r.when, action + (memo + rest));
    ActionBack(r.action, memo + rest);
    RememberBack(r.remember, rest);
  }

  function ProgramBytes(rules: seq<Rule>): Bytes {
    ListBytes(B1, RuleBytes, rules)
  }

  predicate ProgramFits(rules: seq<Rule>) {
    |rules| < 0x100 && All(RuleFits, rules)
  }

  function DecodeProgram(b: Bytes): Decoded<seq<Rule>> {
    DecodeList(B1, DecodeRule, b)
  }

  lemma ProgramBack(rules: seq<Rule>, rest: Bytes)
    requires ProgramFits(rules)
    ensures DecodeProgram(ProgramBytes(rules) + rest) == Some((rules, rest))
  {
    forall r, t | RuleFits(r) ensures DecodeRule(RuleBytes(r) + t) == Some((r, t)) {
      RuleBack(r, t);
    }
    ListBack(B1, RuleBytes, RuleFits, DecodeRule, rules, rest);
  }

  // ---------------------------------------------------------------------------------------
  // Worlds

  datatype Point = Point(x: Byte, y: Byte)

  datatype Spark = Spark(id: U32, bit: bool)

  datatype Source = Source(id: U16, position: Point, sparks: seq<Spark>)

  datatype Depot = Depot(id: U16, position: Point, capacity: Byte)

  datatype Beacon = Beacon(id: U16, position: Point, accepts: bool, initialCharge: U32, drainEvery: U32,
                           drainAmount: U32, sparkCharge: U32, requiredDeliveries: U32)

  datatype Valve = Valve(id: U16, position: Point, depot: U16, beaconZero: U16, beaconOne: U16, enabled: bool)

  datatype Cell = Cell(id: U16, position: Point, heading: Direction, mobile: bool, memory: Bytes)

  datatype Link =
    | CellLink(id: U16, from: U16, port: Byte, toCell: U16, toPort: Byte, delay: U32, enabled: bool)
    | ReceiverLink(id: U16, from: U16, toCell: U16, toPort: Byte, delay: U32, enabled: bool)

  datatype World = World(width: Byte, height: Byte, walls: seq<Point>, sources: seq<Source>, depots: seq<Depot>,
                         beacons: seq<Beacon>, valves: seq<Valve>, cells: seq<Cell>, links: seq<Link>)

  const POINT := [B1, B1]
  const SPARK := [B4, B1]
  const SOURCE := [B2, B1, B1]
  const DEPOT := [B2, B1, B1, B1]
  const BEACON := [B2, B1, B1, B1, B4, B4, B4, B4, B4]
  const VALVE := [B2, B1, B1, B2, B2, B2, B1]
  const CELL := [B2, B1, B1, B1, B1]
  const LINK := [B2, B1]
  const CELL_LINK := [B2, B1, B2, B1, B4, B1]
  const RECEIVER_LINK := [B2, B2, B1, B4, B1]

  function PointBytes(p: Point): Bytes {
    Pack(POINT, [p.x, p.y])
  }

  function DecodePoint(b: Bytes): Decoded<Point> {
    var (v, rest) :- Unpack(POINT, b);
    Some((Point(v[0], v[1]), rest))
  }

  function SparkBytes(s: Spark): Bytes {
    Pack(SPARK, [s.id, Bit(s.bit)])
  }

  function DecodeSpark(b: Bytes): Decoded<Spark> {
    var (v, rest) :- Unpack(SPARK, b);
    if v[1] > 1 then None else Some((Spark(v[0], v[1] == 1), rest))
  }

  function SourceBytes(s: Source): Bytes {
    Pack(SOURCE, [s.id, s.position.x, s.position.y]) + ListBytes(B1, SparkBytes, s.sparks)
  }

  predicate SourceFits(s: Source) {
    |s.sparks| < 0x100
  }

  function DecodeSource(b: Bytes): Decoded<Source> {
    var (v, rest) :- Unpack(SOURCE, b);
    var (sparks, rest') :- DecodeList(B1, DecodeSpark, rest);
    Some((Source(v[0], Point(v[1], v[2]), sparks), rest'))
  }

  function DepotBytes(d: Depot): Bytes {
    Pack(DEPOT, [d.id, d.position.x, d.position.y, d.capacity])
  }

  function DecodeDepot(b: Bytes): Decoded<Depot> {
    var (v, rest) :- Unpack(DEPOT, b);
    Some((Depot(v[0], Point(v[1], v[2]), v[3]), rest))
  }

  function BeaconFields(x: Beacon): seq<nat> {
    [x.id, x.position.x, x.position.y, Bit(x.accepts), x.initialCharge, x.drainEvery, x.drainAmount,
     x.sparkCharge, x.requiredDeliveries]
  }

  function BeaconBytes(x: Beacon): Bytes {
    Pack(BEACON, BeaconFields(x))
  }

  function DecodeBeacon(b: Bytes): Decoded<Beacon> {
    var (v, rest) :- Unpack(BEACON, b);
    if v[3] > 1 then None
    else Some((Beacon(v[0], Point(v[1], v[2]), v[3] == 1, v[4], v[5], v[6], v[7], v[8]), rest))
  }

  function ValveBytes(x: Valve): Bytes {
    Pack(VALVE, [x.id, x.position.x, x.position.y, x.depot, x.beaconZero, x.beaconOne, Bit(x.enabled)])
  }

  function DecodeValve(b: Bytes): Decoded<Valve> {
    var (v, rest) :- Unpack(VALVE, b);
    if v[6] > 1 then None
    else Some((Valve(v[0], Point(v[1], v[2]), v[3], v[4], v[5], v[6] == 1), rest))
  }

  /** The memory is written without its length. */
  function CellBytes(c: Cell): Bytes {
    Pack(CELL, [c.id, c.position.x, c.position.y, DirectionByte(c.heading), Bit(c.mobile)])
    + c.memory
  }

  predicate CellFits(c: Cell) {
    |c.memory| == 4
  }

  function DecodeCell(b: Bytes): Decoded<Cell> {
    var (v, rest) :- Unpack(CELL, b);
    var heading :- DirectionOf(v[3]);
    if v[4] > 1 || |rest| < 4 then None
    else Some((Cell(v[0], Point(v[1], v[2]), heading, v[4] == 1, rest[..4]), rest[4..]))
  }

  function LinkBytes(l: Link): Bytes {
    match l
    case CellLink(id, from, port, toCell, toPort, delay, enabled) =>
      Pack(LINK, [id, 1]) + Pack(CELL_LINK, [from, port, toCell, toPort, delay, Bit(enabled)])
    case ReceiverLink(id, from, toCell, toPort, delay, enabled) =>
      Pack(LINK, [id, 2]) + Pack(RECEIVER_LINK, [from, toCell, toPort, delay, Bit(enabled)])
  }

  function DecodeLink(b: Bytes): Decoded<Link> {
    var (head, rest) :- Unpack(LINK, b);
    if head[1] == 1 then
      var (v, rest') :- Unpack(CELL_LINK, rest);
      if v[5] > 1 then None
      else Some((CellLink(head[0], v[0], v[1], v[2], v[3], v[4], v[5] == 1), rest'))
    else if head[1] == 2 then
      var (v, rest') :- Unpack(RECEIVER_LINK, rest);
      if v[4] > 1 then None
      else Some((ReceiverLink(head[0], v[0], v[1], v[2], v[3], v[4] == 1), rest'))
    else None
  }

  lemma PointBack(p: Point, rest: Bytes)
    ensures DecodePoint(PointBytes(p) + rest) == Some((p, rest))
  {
    PackBack(POINT, [p.x, p.y], rest);
  }

  lemma SparkBack(s: Spark, rest: Bytes)
    ensures DecodeSpark(SparkBytes(s) + rest) == Some((s, rest))
  {
    PackBack(SPARK, [s.id, Bit(s.bit)], rest);
  }

  lemma SourceBack(s: Source, rest: Bytes)
    requires SourceFits(s)
    ensures DecodeSource(SourceBytes(s) + rest) == Some((s, rest))
  {
    var fields := [s.id, s.position.x, s.position.y];
    var sparks := ListBytes(B1, SparkBytes, s.sparks);
    Regroup(Pack(SOURCE, fields), sparks, rest);
    PackBack(SOURCE, fields, sparks + rest);
    forall x, t ensures DecodeSpark(SparkBytes(x) + t) == Some((x, t)) {
      SparkBack(x, t);
    }
    ListBack(B1, SparkBytes, _ => true, DecodeSpark, s.sparks, rest);
  }

  lemma DepotBack(d: Depot, rest: Bytes)
    ensures DecodeDepot(DepotBytes(d) + rest) == Some((d, rest))
  {
    PackBack(DEPOT, [d.id, d.position.x, d.position.y, d.capacity], rest);
  }

  lemma BeaconBack(x: Beacon, rest: Bytes)
    ensures DecodeBeacon(BeaconBytes(x) + rest) == Some((x, rest))
  {
    PackBack(BEACON, BeaconFields(x), rest);
  }

  lemma ValveBack(x: Valve, rest: Bytes)
    ensures DecodeValve(ValveBytes(x) + rest) == Some((x, rest))
  {
    PackBack(VALVE, [x.id, x.position.x, x.position.y, x.depot, x.beaconZero, x.beaconOne, Bit(x.enabled)], rest);
  }

  lemma CellBack(c: Cell, rest: Bytes)
    requires CellFits(c)
    ensures DecodeCell(CellBytes(c) + rest) == Some((c, rest))
  {
    var fields := [c.id, c.position.x, c.position.y, DirectionByte(c.heading), Bit(c.mobile)];
    Regroup(Pack(CELL, fields), c.memory, rest);
    PackBack(CELL, fields, c.memory + rest);
    HeadAndTail(c.memory, rest);
  }

  lemma LinkBack(l: Link, rest: Bytes)
    ensures DecodeLink(LinkBytes(l) + rest) == Some((l, rest))
  {
    match l {
      case CellLink(id, from, port, toCell, toPort, delay, enabled) =>
        var fields := [from, port, toCell, toPort, delay, Bit(enabled)];
        Regroup(Pack(LINK, [id, 1]), Pack(CELL_LINK, fields), rest);
        PackBack(LINK, [id, 1], Pack(CELL_LINK, fields) + rest);
        PackBack(CELL_LINK, fields, rest);
      case ReceiverLink(id, from, toCell, toPort, delay, enabled) =>
        var fields := [from, toCell, toPort, delay, Bit(enabled)];
        Regroup(Pack(LINK, [id, 2]), Pack(RECEIVER_LINK, fields), rest);
        PackBack(LINK, [id, 2], Pack(RECEIVER_LINK, fields) + rest);
        PackBack(RECEIVER_LINK, fields, rest);
    }
  }
}

/** Bytes, fixed-width big-endian integers, and reading them back. */
module ByteCodec {
  type Byte = x: nat | x < 0x100
  type U16 = x: nat | x < 0x1_0000
  type U32 = x: nat | x < 0x1_0000_0000
  type U64 = x: nat | x < 0x1_0000_0000_0000_0000
  type Bytes = seq<Byte>

  lemma HeadAndTail(first: Bytes, rest: Bytes)
    ensures (first + rest)[..|first|] == first && (first + rest)[|first|..] == rest
  {
  }

  lemma Regroup(a: Bytes, b: Bytes, c: Bytes)
    ensures (a + b) + c == a + (b + c)
  {
  }

  /** The widths of an unsigned big-endian field. */
  datatype Width = B1 | B2 | B4 | B8 {
    function Size(): nat {
      match this case B1 => 1 case B2 => 2 case B4 => 4 case B8 => 8
    }

    function Limit(): nat {
      match this
      case B1 => 0x100
      case B2 => 0x1_0000
      case B4 => 0x1_0000_0000
      case B8 => 0x1_0000_0000_0000_0000
    }
  }

  function Pair(v: U16): Bytes {
    [v / 0x100, v % 0x100]
  }

  function Quad(v: U32): Bytes {
    Pair(v / 0x1_0000) + Pair(v % 0x1_0000)
  }

  /** The big-endian bytes of a value. */
  function Int(w: Width, v: nat): (out: Bytes)
    requires v < w.Limit()
    ensures |out| == w.Size()
  {
    match w
    case B1 => [v]
    case B2 => Pair(v)
    case B4 => Quad(v)
    case B8 => Quad(v / 0x1_0000_0000) + Quad(v % 0x1_0000_0000)
  }

  function PairValue(b: Bytes): U16
    requires |b| == 2
  {
    (b[0] as nat) * 0x100 + b[1]
  }

  function QuadValue(b: Bytes): U32
    requires |b| == 4
  {
    PairValue(b[..2]) * 0x1_0000 + PairValue(b[2..])
  }

  function Value(w: Width, b: Bytes): (v: nat)
    requires |b| == w.Size()
    ensures v < w.Limit()
  {
    match w
    case B1 => b[0]
    case B2 => PairValue(b)
    case B4 => QuadValue(b)
    case B8 => QuadValue(b[..4]) * 0x1_0000_0000 + QuadValue(b[4..])
  }

  lemma QuadRoundTrip(v: U32)
    ensures QuadValue(Quad(v)) == v
  {
    assert Quad(v)[..2] == Pair(v / 0x1_0000) && Quad(v)[2..] == Pair(v % 0x1_0000);
  }

  lemma PairCanonical(b: Bytes)
    requires |b| == 2
    ensures Pair(PairValue(b)) == b
  {
  }

  lemma QuadCanonical(b: Bytes)
    requires |b| == 4
    ensures Quad(QuadValue(b)) == b
  {
    var high, low := PairValue(b[..2]), PairValue(b[2..]);
    assert QuadValue(b) / 0x1_0000 == high && QuadValue(b) % 0x1_0000 == low;
    PairCanonical(b[..2]);
    PairCanonical(b[2..]);
    assert b == b[..2] + b[2..];
  }

  lemma HalvesOfOctet(high: U32, low: U32)
    ensures var v := (high as nat) * 0x1_0000_0000 + low;
            v / 0x1_0000_0000 == high && v % 0x1_0000_0000 == low
  {
  }

  /** Writing and reading a field are inverse both ways. */
  lemma ValueOfInt(w: Width, v: nat)
    requires v < w.Limit()
    ensures Value(w, Int(w, v)) == v
  {
    match w {
      case B4 => QuadRoundTrip(v);
      case B8 =>
        var high, low := v / 0x1_0000_0000, v % 0x1_0000_0000;
        assert Int(B8, v)[..4] == Quad(high) && Int(B8, v)[4..] == Quad(low);
        QuadRoundTrip(high);
        QuadRoundTrip(low);
      case _ =>
    }
  }

  lemma IntOfValue(w: Width, b: Bytes)
    requires |b| == w.Size()
    ensures Int(w, Value(w, b)) == b
  {
    match w {
      case B1 =>
      case B2 => PairCanonical(b);
      case B4 => QuadCanonical(b);
      case B8 => OctetCanonical(b);
    }
  }

  lemma OctetCanonical(b: Bytes)
    requires |b| == 8
    ensures Int(B8, Value(B8, b)) == b
  {
    HalvesOfOctet(QuadValue(b[..4]), QuadValue(b[4..]));
    QuadCanonical(b[..4]);
    QuadCanonical(b[4..]);
    assert b == b[..4] + b[4..];
  }
}

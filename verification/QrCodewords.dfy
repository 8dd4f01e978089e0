/** The codewords of a QR symbol: byte-mode payload, padding, Reed-Solomon blocks and their interleaving. */
module QrCodewords {
  import opened Arith
  import opened Bits
  import opened QrTables
  import opened Wrappers

  // ---------- payload ----------

  /** Mode, count and payload as a bit string. */
  function Segment(data: seq<bv8>, version: Version): (bits: seq<bool>)
    ensures |bits| == 4 + CountBits(version) + 8 * |data|
  {
    IntBits(4, 4) + IntBits(|data|, CountBits(version)) + Unpack(data)
  }

  /** The segment with its terminator, as whole bytes. */
  function Header(data: seq<bv8>, version: Version): (bytes: seq<bv8>)
    ensures |bytes| == (8 + CountBits(version)) / 8 + |data|
  {
    Pack(Segment(data, version) + [false, false, false, false])
  }

  function PadByte(k: nat): bv8 { if k % 2 == 0 then 0xEC else 0x11 }

  /** The data codewords: the segment, then alternating pad bytes up to the capacity. */
  function DataCodewords(data: seq<bv8>, version: Version): (bytes: seq<bv8>)
    requires Fits(|data|, version)
    ensures |bytes| == Capacity(version)
  {
    var header := Header(data, version);
    header + seq(Capacity(version) - |header|, k requires k >= 0 => PadByte(k))
  }

  /** Reads a byte-mode payload back from data codewords. */
  function ParsePayload(bytes: seq<bv8>, version: Version): Option<seq<bv8>> {
    var bits := Unpack(bytes);
    var start := 4 + CountBits(version);
    if |bits| < start || NatOf(bits[..4]) != 4 then None
    else
      var count := NatOf(bits[4..start]);
      if start + 8 * count > |bits| then None else Some(BytesAt(bits, start, count))
  }

  /** count bytes read from bit position start on. */
  function BytesAt(bits: seq<bool>, start: nat, count: nat): seq<bv8>
    requires start + 8 * count <= |bits|
  {
    Pack(bits[start..start + 8 * count])
  }

  lemma {:induction false} SegmentReadsBack(data: seq<bv8>, version: Version, bits: seq<bool>)
    requires Fits(|data|, version)
    requires Segment(data, version) <= bits
    ensures var start := 4 + CountBits(version);
            && |bits| >= start + 8 * |data|
            && NatOf(bits[..4]) == 4
            && NatOf(bits[4..start]) == |data|
            && BytesAt(bits, start, |data|) == data
  {
    hide Unpack, Pack, NatOf, IntBits;
    var start := 4 + CountBits(version);
    CountFits(|data|, version);
    PowerValues();
    NatOfIntBits(4, 4);
    NatOfIntBits(|data|, CountBits(version));
    var segment := Segment(data, version);
    assert bits[..4] == segment[..4] == IntBits(4, 4);
    assert bits[4..start] == segment[4..start] == IntBits(|data|, CountBits(version));
    assert bits[start..start + 8 * |data|] == segment[start..] == Unpack(data);
    PackUnpack(data);
  }

  lemma {:induction false} PowerValues()
    ensures Pow2(4) == 16 && Pow2(8) == 256 && Pow2(16) == 65536
  {}

  /** Parsing the data codewords returns exactly the payload. */
  lemma {:induction false} PayloadRoundTrip(data: seq<bv8>, version: Version)
    requires Fits(|data|, version)
    ensures ParsePayload(DataCodewords(data, version), version) == Some(data)
  {
    hide Unpack, Pack, NatOf, Segment;
    var bytes := DataCodewords(data, version);
    var header := Header(data, version);
    UnpackConcat(header, bytes[|header|..]);
    assert header + bytes[|header|..] == bytes;
    UnpackPack(Segment(data, version) + [false, false, false, false]);
    SegmentReadsBack(data, version, Unpack(bytes));
  }

  /** Four zero bits end the payload; the rest of the capacity is filled with 11101100 and 00010001 in turn. */
  lemma {:induction false} PaddingIs(data: seq<bv8>, version: Version)
    requires Fits(|data|, version)
    ensures var words := DataCodewords(data, version);
            var used := |data| + if version < 10 then 2 else 3;
            && used <= |words|
            && Unpack(words)[8 * used - 4..8 * used] == [false, false, false, false]
            && forall k :: used <= k < |words| ==> words[k] == if (k - used) % 2 == 0 then 236 else 17
  {
    hide Unpack, Pack, NatOf, Segment;
    var words := DataCodewords(data, version);
    var header := Header(data, version);
    var segment := Segment(data, version);
    UnpackConcat(header, words[|header|..]);
    assert header + words[|header|..] == words;
    UnpackPack(segment + [false, false, false, false]);
    assert (segment + [false, false, false, false])[|segment|..] == [false, false, false, false];
    assert Unpack(words)[..8 * |header|] == segment + [false, false, false, false];
    assert Unpack(words)[8 * |header| - 4..8 * |header|] == Unpack(words)[..8 * |header|][8 * |header| - 4..];
  }

  lemma {:induction false} PackNone(bits: seq<bool>)
    ensures Pack(bits[..0]) == []
  {}

  lemma {:induction false} PackNext(bits: seq<bool>, t: nat)
    requires 8 * (t + 1) <= |bits|
    ensures Pack(bits[..8 * (t + 1)]) == Pack(bits[..8 * t]) + [ByteOf(bits[8 * t..8 * t + 8])]
  {
    hide ByteOf;
    var longer := bits[..8 * (t + 1)];
    assert longer[..|longer| - 8] == bits[..8 * t] && longer[|longer| - 8..] == bits[8 * t..8 * t + 8];
  }

  /** Groups bits into bytes, as the source's comprehension over every eighth index does. */
  method PackBits(bits: seq<bool>) returns (bytes: seq<bv8>)
    requires |bits| % 8 == 0
    ensures bytes == Pack(bits)
  {
    hide Pack, ByteOf;
    bytes := [];
    PackNone(bits);
    for t := 0 to |bits| / 8
      invariant bytes == Pack(bits[..8 * t])
    {
      PackNext(bits, t);
      bytes := bytes + [ByteOf(bits[8 * t..8 * t + 8])];
    }
    assert bits[..8 * (|bits| / 8)] == bits;
  }

  method SegmentBits(data: seq<bv8>, version: Version) returns (bits: seq<bool>)
    ensures bits == Segment(data, version)
  {
    hide IntBits, ByteBits;
    bits := AppendBits([], 4, 4);
    bits := AppendBits(bits, |data|, CountBits(version));
    ghost var prefix := bits;
    for t := 0 to |data|
      invariant bits == prefix + Unpack(data[..t])
    {
      assert data[..t + 1][..t] == data[..t];
      bits := bits + ByteBits(data[t]);
    }
    assert data[..|data|] == data;
  }

  method ComputeDataCodewords(data: seq<bv8>, version: Version) returns (bytes: seq<bv8>)
    requires Fits(|data|, version)
    ensures bytes == DataCodewords(data, version)
  {
    hide Segment, Pack, Capacity;
    var capacity := Capacity(version);
    var bits := SegmentBits(data, version);
    var room := capacity * 8 - |bits|;
    bits := bits + seq(if room < 4 then room else 4, _ => false);
    assert |bits| == 8 + CountBits(version) + 8 * |data|;
    bits := bits + seq((8 - |bits| % 8) % 8, _ => false);
    assert bits == Segment(data, version) + [false, false, false, false];
    bytes := PackBits(bits);
    ghost var header := bytes;
    while |bytes| < capacity
      invariant |header| <= |bytes| <= capacity
      invariant bytes == header + seq(|bytes| - |header|, k requires k >= 0 => PadByte(k))
    {
      bytes := bytes + [PadByte(|bytes| - |bits| / 8)];
    }
  }
}

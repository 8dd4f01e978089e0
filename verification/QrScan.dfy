/** Reading a symbol: along the encoder's own layout, and as the standard tells a scanner to. */
module QrScan {
  import opened Arith
  import opened Bits
  import opened QrTables
  import opened QrWalk
  import opened QrLayout
  import opened QrCapacity
  import opened QrStandard
  import opened Wrappers
  import QrCodewords
  import QrBlocks
  import Poly

  // ---------- reading by the encoder's layout ----------

  /** The modules a scanner of this version does not read as data. */
  function FunctionGrid(version: Version): (grid: Grid)
    ensures IsGrid(grid, Size(version))
    ensures ReservesFunctions(grid, version)
  {
    seq(Size(version), y requires 0 <= y < Size(version) =>
      seq(Size(version), x requires 0 <= x < Size(version) => IsFunction(version, Cell(x, y))))
  }

  /** The unmasked bits of all data modules, in walking order. */
  function SymbolBits(modules: Grid, version: Version): seq<bool>
    requires IsGrid(modules, Size(version))
  {
    SizeFacts(version);
    WalkVisitsOnce(Size(version));
    hide *;
    ReadBits(modules, FunctionGrid(version), Size(version), WholeWalk(Size(version)))
  }

  function DecodeWords(words: seq<bv8>, version: Version): Option<seq<bv8>> {
    QrBlocks.DataLengthsPositive(version);
    hide *;
    QrCodewords.ParsePayload(QrBlocks.Deinterleave(words, version, NumBlocks(version)), version)
  }

  /** Reads a symbol: unmask, walk, de-interleave, parse. Only the modules and the version are used. */
  function Decode(modules: Grid, version: Version): Option<seq<bv8>>
    requires IsGrid(modules, Size(version))
  {
    var bits := SymbolBits(modules, version);
    var n := RawCodewords(version);
    if n < 0 || |bits| < 8 * n then None else DecodeWords(BytesOf(bits, n), version)
  }

  function BytesOf(bits: seq<bool>, n: nat): seq<bv8>
    requires 8 * n <= |bits|
  {
    Pack(bits[..8 * n])
  }

  lemma {:induction false} SymbolBitsAre(modules: Grid, version: Version)
    requires IsGrid(modules, Size(version))
    ensures forall c :: c in WholeWalk(Size(version)) ==> Inside(c, Size(version))
    ensures SymbolBits(modules, version) == ReadBits(modules, FunctionGrid(version), Size(version),
        WholeWalk(Size(version)))
  {
    SizeFacts(version);
    WalkVisitsOnce(Size(version));
    hide IsGrid, ReadBits, FunctionGrid, WholeWalk, Size;
  }

  lemma {:induction false} RawBits(version: Version)
    ensures 0 <= 8 * RawCodewords(version) <= RawModules(version)
  {
    TablesAreConsistent(version);
    hide RawModules;
  }

  lemma {:induction false} DecodeIs(modules: Grid, version: Version)
    requires IsGrid(modules, Size(version))
    ensures NumBlocks(version) > 0 && forall c: nat :: QrBlocks.DataLen(version, c) > 0
    ensures 0 <= 8 * RawCodewords(version) <= |SymbolBits(modules, version)| ==>
              Decode(modules, version)
              == QrCodewords.ParsePayload(
                   QrBlocks.Deinterleave(BytesOf(SymbolBits(modules, version), RawCodewords(version)), version,
                       NumBlocks(version)), version)
  {
    QrBlocks.DataLengthsPositive(version);
    hide SymbolBits, BytesOf, RawCodewords, QrCodewords.ParsePayload, QrBlocks.Deinterleave, QrBlocks.DataLen, IsGrid;
  }

  // ---------- a scanner that knows only the standard ----------

  /** The format information beside the upper left finder pattern. */
  function FormatRead(modules: Grid): seq<bool>
    requires IsGrid(modules, |modules|) && |modules| >= 21
  {
    seq(15, i requires 0 <= i < 15 => At(modules, |modules|, FORMAT_CELLS[i]) != FORMAT_MASK[i])
  }

  /** The unmasked bits met in the first steps of the standard's order. */
  function ScanBits(modules: Grid, size: nat, version: Version, mask: nat, steps: nat): seq<bool>
    requires size % 2 == 1 && size >= 7 && IsGrid(modules, size) && steps <= StepCount(size)
  {
    if steps == 0 then []
    else
      WholeWalkIsPlaced(size, steps - 1);
      hide Placed, WholeWalk, StepCount;
      var c := Placed(size, steps - 1);
      ScanBits(modules, size, version, mask, steps - 1)
      + if Reserved(version, c) then [] else [At(modules, size, c) != Inverts(mask, c.y, c.x)]
  }

  function TotalCodewords(version: Version): nat {
    var (short, longer) := BLOCKS[version];
    short.count * short.total + longer * (short.total + 1)
  }

  function BlockCount(version: Version): nat { BLOCKS[version].0.count + BLOCKS[version].1 }

  function DataCount(version: Version, b: nat): nat {
    BLOCKS[version].0.data + if b < BLOCKS[version].0.count then 0 else 1
  }

  /** Where codeword i of data block b is placed: one codeword of each block in turn, short blocks ending first. */
  function Position(version: Version, b: nat, i: nat): nat
    requires i < DataCount(version, b)
  {
    var short := BLOCKS[version].0;
    if i < short.data then i * BlockCount(version) + b else i * BlockCount(version) + b - short.count
  }

  function Codeword(bits: seq<bool>, k: nat): seq<bool> {
    if 8 * k + 8 <= |bits| then bits[8 * k..8 * k + 8] else []
  }

  /** The first i codewords of data block b. */
  function BlockBits(bits: seq<bool>, version: Version, b: nat, i: nat): seq<bool>
    requires i <= DataCount(version, b)
  {
    if i == 0 then [] else BlockBits(bits, version, b, i - 1) + Codeword(bits, Position(version, b, i - 1))
  }

  /** The first data blocks, one after the other. */
  function MessageBits(bits: seq<bool>, version: Version, blocks: nat): seq<bool> {
    if blocks == 0 then []
    else MessageBits(bits, version, blocks - 1) + BlockBits(bits, version, blocks - 1, DataCount(version, blocks - 1))
  }

  /** Bits shifted into a register, the first of them becoming the most significant one. */
  function Shifted(bits: seq<bool>): bv8 {
    if |bits| == 0 then 0 else (Shifted(bits[..|bits| - 1]) << 1) | (if bits[|bits| - 1] then 1 else 0)
  }

  /** A message in byte mode: the mode indicator 0100, the count in 8 or 16 bits, the bytes. */
  function Message(message: seq<bool>, version: Version): Option<seq<bv8>> {
    var start := if version < 10 then 12 else 20;
    if |message| < start || message[..4] != [false, true, false, false] then None
    else
      var count := NatOf(message[4..start]);
      if start + 8 * count > |message| then None
      else Some(seq(count, k requires 0 <= k < count => Shifted(message[start + 8 * k..start + 8 * k + 8])))
  }

  /** Reads an undamaged symbol. Nothing but its modules is known: the size tells the version, the format information
      level and mask. */
  function Scan(modules: Grid): Option<seq<bv8>> {
    if !(21 <= |modules| <= 97 && |modules| % 4 == 1 && IsGrid(modules, |modules|)) then None
    else
      var version: Version := (|modules| - 17) / 4;
      var format := FormatRead(modules);
      if format[..2] != [false, true] then None
      else
        var bits := ScanBits(modules, |modules|, version, NatOf(format[2..5]), StepCount(|modules|));
        if |bits| < 8 * TotalCodewords(version) then None
        else Message(MessageBits(bits, version, BlockCount(version)), version)
  }

  // ---------- the two readers agree ----------

  lemma {:induction false} ReadStep(modules: Grid, reserved: Grid, size: nat, cells: seq<Cell>, c: Cell)
    requires IsGrid(modules, size) && IsGrid(reserved, size) && Inside(c, size)
    requires forall d :: d in cells ==> Inside(d, size)
    ensures forall d :: d in cells + [c] ==> Inside(d, size)
    ensures ReadBits(modules, reserved, size, cells + [c]) == ReadBits(modules, reserved, size, cells)
        + if At(reserved, size, c) then [] else [At(modules, size, c) != Masked(c)]
  {
    FreeStep(cells, reserved, size, c);
    hide Free, Masked, IsGrid;
  }

  lemma {:induction false} GridIs(version: Version)
    ensures forall c: Cell :: Inside(c, Size(version)) ==>
        At(FunctionGrid(version), Size(version), c) == IsFunction(version, c)
  {
    hide FunctionGrid, IsFunction, At;
  }

  /** With mask 0 the standard's order and the encoder's walk meet the same bits. */
  lemma {:induction false} ScanBitsAre(modules: Grid, size: nat, version: Version, steps: nat)
    requires size == Size(version) && IsGrid(modules, size) && steps <= StepCount(size)
    requires size % 2 == 1 && size >= 7
    requires |WholeWalk(size)| == StepCount(size) && forall c :: c in WholeWalk(size) ==> Inside(c, size)
    ensures ScanBits(modules, size, version, 0, steps)
        == ReadBits(modules, FunctionGrid(version), size, WholeWalk(size)[..steps])
  {
    hide *;
    if steps > 0 {
      var walk := WholeWalk(size);
      var c := walk[steps - 1];
      ScanBitsAre(modules, size, version, steps - 1);
      assert walk[..steps - 1] + [c] == walk[..steps];
      assert c in walk;
      ReadStep(modules, FunctionGrid(version), size, walk[..steps - 1], c);
      ScanStep(modules, size, version, steps - 1);
    } else {
      NothingRead(modules, size, version);
    }
  }

  lemma {:induction false} NothingRead(modules: Grid, size: nat, version: Version)
    requires size == Size(version) && IsGrid(modules, size) && size % 2 == 1 && size >= 7
    ensures ScanBits(modules, size, version, 0, 0) == [] == ReadBits(modules, FunctionGrid(version), size, [])
  {
    hide FunctionGrid, StepCount;
  }

  lemma {:induction false} CellRead(version: Version, c: Cell)
    requires Inside(c, Size(version))
    ensures Reserved(version, c) == At(FunctionGrid(version), Size(version), c)
    ensures Inverts(0, c.y, c.x) == Masked(c)
  {
    ReservedAre(version, c);
    GridIs(version);
    MaskZero(c);
    hide At, FunctionGrid, Reserved, IsFunction, Inverts, Masked;
  }

  lemma {:induction false} ScanStep(modules: Grid, size: nat, version: Version, steps: nat)
    requires size == Size(version) && IsGrid(modules, size) && size % 2 == 1 && size >= 7
    requires steps < StepCount(size) == |WholeWalk(size)|
    ensures var c := WholeWalk(size)[steps];
            && Inside(c, size)
            && ScanBits(modules, size, version, 0, steps + 1) == ScanBits(modules, size, version, 0, steps)
                 + if At(FunctionGrid(version), size, c) then [] else [At(modules, size, c) != Masked(c)]
  {
    hide Placed, WholeWalk, Reserved, FunctionGrid, Inverts, Masked, IsGrid, At, StepCount;
    WholeWalkIsPlaced(size, steps);
    CellRead(version, Placed(size, steps));
  }

  lemma {:induction false} WordBits(bits: seq<bool>, n: nat, k: nat)
    requires 8 * n <= |bits| && k < n
    ensures Codeword(bits, k) == ByteBits(BytesOf(bits, n)[k])
  {
    hide Pack, Unpack, ByteBits;
    var words := BytesOf(bits, n);
    UnpackPack(bits[..8 * n]);
    forall i | 0 <= i < 8 ensures bits[8 * k + i] == ByteBits(words[k])[i] {
      UnpackAt(words, 8 * k + i);
      DivUnique(8 * k + i, 8, k, i);
    }
  }

  /** The standard's table and the encoder's formulas describe the same blocks. */
  lemma {:induction false} BlockFacts(version: Version)
    ensures NumBlocks(version) > 0 && BlockCount(version) == NumBlocks(version)
    ensures TotalCodewords(version) == RawCodewords(version)
    ensures forall b: nat :: DataCount(version, b) == QrBlocks.DataLen(version, b)
    ensures forall b: nat, i: nat :: i < DataCount(version, b) ==>
        Position(version, b, i) == QrBlocks.DataSlot(version, b, i)
  {
    BlocksAre(version);
    hide NumShort, ShortData, RawCodewords, EccLen;
    forall b: nat, i: nat | i < DataCount(version, b)
      ensures Position(version, b, i) == QrBlocks.DataSlot(version, b, i)
    {
    }
  }

  lemma {:induction false} CapacityIsLess(version: Version)
    ensures Capacity(version) <= RawCodewords(version)
  {
    hide RawCodewords, EccLen, NumBlocks;
    assert EccLen(version) * NumBlocks(version) >= 0;
  }

  lemma {:induction false} SlotInRange(version: Version, b: nat, i: nat)
    requires NumBlocks(version) > 0 && b < NumBlocks(version) && i < QrBlocks.DataLen(version, b)
    ensures 0 <= QrBlocks.DataSlot(version, b, i) < RawCodewords(version)
  {
    TablesAreConsistent(version);
    hide QrBlocks.DataSlot, QrBlocks.DataLen, Capacity, RawCodewords, ShortData, NumShort, NumBlocks, EccLen;
    QrBlocks.DataSlotHolds(seq(Capacity(version), _ => 0), version, b, i);
    CapacityIsLess(version);
  }

  lemma {:induction false} BlockBitsAre(bits: seq<bool>, version: Version, b: nat, i: nat)
    requires 0 <= 8 * RawCodewords(version) <= |bits| && 0 < NumBlocks(version)
    requires b < NumBlocks(version) && i <= DataCount(version, b) && QrBlocks.DataLen(version, b) >= 0
    ensures i <= |QrBlocks.ReceivedData(BytesOf(bits, RawCodewords(version)), version, b)|
    ensures BlockBits(bits, version, b, i)
        == Unpack(QrBlocks.ReceivedData(BytesOf(bits, RawCodewords(version)), version, b)[..i])
  {
    BlockFacts(version);
    hide *;
    var words := BytesOf(bits, RawCodewords(version));
    var block := QrBlocks.ReceivedData(words, version, b);
    assert |block| == QrBlocks.DataLen(version, b);
    BlockBitsStep(bits, version, b, if i == 0 then 0 else i - 1);
    if i > 0 {
      BlockBitsAre(bits, version, b, i - 1);
      SlotInRange(version, b, i - 1);
      BytesCount(bits, RawCodewords(version));
      ReceivedAt(words, version, b, i - 1);
      WordBits(bits, RawCodewords(version), Position(version, b, i - 1));
      UnpackAppend(block[..i - 1], block[i - 1]);
      assert block[..i - 1] + [block[i - 1]] == block[..i];
    } else {
      NoBits();
    }
  }

  lemma {:induction false} NoBits()
    ensures Unpack([]) == []
  {}

  lemma {:induction false} BytesCount(bits: seq<bool>, n: nat)
    requires 8 * n <= |bits|
    ensures |BytesOf(bits, n)| == n
  {
    hide Pack;
  }

  lemma {:induction false} ReceivedAt(words: seq<bv8>, version: Version, b: nat, i: nat)
    requires NumBlocks(version) > 0 && i < QrBlocks.DataLen(version, b)
    requires 0 <= QrBlocks.DataSlot(version, b, i) < |words|
    ensures QrBlocks.ReceivedData(words, version, b)[i] == words[QrBlocks.DataSlot(version, b, i)]
  {
    hide QrBlocks.DataLen, QrBlocks.DataSlot;
  }

  lemma {:induction false} BlockBitsStep(bits: seq<bool>, version: Version, b: nat, i: nat)
    ensures BlockBits(bits, version, b, 0) == []
    ensures i < DataCount(version, b) ==>
        BlockBits(bits, version, b, i + 1) == BlockBits(bits, version, b, i) + Codeword(bits, Position(version, b, i))
  {
    hide DataCount, Codeword, Position;
  }

  /** The message is the bits of the de-interleaved data codewords. */
  lemma {:induction false} MessageBitsAre(bits: seq<bool>, version: Version, blocks: nat)
    requires 0 <= 8 * RawCodewords(version) <= |bits| && 0 < NumBlocks(version) && blocks <= NumBlocks(version)
    requires forall c: nat :: QrBlocks.DataLen(version, c) > 0
    ensures MessageBits(bits, version, blocks)
        == Unpack(QrBlocks.Deinterleave(BytesOf(bits, RawCodewords(version)), version, blocks))
  {
    hide *;
    var words := BytesOf(bits, RawCodewords(version));
    MessageStep(bits, version, if blocks == 0 then 0 else blocks - 1);
    QrBlocks.DeinterleaveStep(words, version, if blocks == 0 then 0 else blocks - 1);
    if blocks > 0 {
      MessageBitsAre(bits, version, blocks - 1);
      BlockFacts(version);
      BlockBitsAre(bits, version, blocks - 1, DataCount(version, blocks - 1));
      var block := QrBlocks.ReceivedData(words, version, blocks - 1);
      assert block[..DataCount(version, blocks - 1)] == block;
      UnpackConcat(QrBlocks.Deinterleave(words, version, blocks - 1), block);
    } else {
      NoBits();
    }
  }

  lemma {:induction false} MessageStep(bits: seq<bool>, version: Version, blocks: nat)
    ensures MessageBits(bits, version, 0) == []
    ensures MessageBits(bits, version, blocks + 1)
        == MessageBits(bits, version, blocks) + BlockBits(bits, version, blocks, DataCount(version, blocks))
  {
    hide BlockBits, DataCount;
  }

  /** Shifting in the bits of a byte gives the byte. */
  lemma {:induction false} ShiftedIs(bits: seq<bool>)
    requires |bits| == 8
    ensures Shifted(bits) == ByteOf(bits)
  {
    forall k | 0 < k <= 8 ensures bits[..k][..k - 1] == bits[..k - 1] {}
    assert bits[..8] == bits;
    assert Shifted(bits[..0]) == 0;
    assert Shifted(bits[..1]) == (Shifted(bits[..0]) << 1) | (if bits[0] then 1 else 0);
    assert Shifted(bits[..2]) == (Shifted(bits[..1]) << 1) | (if bits[1] then 1 else 0);
    assert Shifted(bits[..3]) == (Shifted(bits[..2]) << 1) | (if bits[2] then 1 else 0);
    assert Shifted(bits[..4]) == (Shifted(bits[..3]) << 1) | (if bits[3] then 1 else 0);
    assert Shifted(bits[..5]) == (Shifted(bits[..4]) << 1) | (if bits[4] then 1 else 0);
    assert Shifted(bits[..6]) == (Shifted(bits[..5]) << 1) | (if bits[5] then 1 else 0);
    assert Shifted(bits[..7]) == (Shifted(bits[..6]) << 1) | (if bits[6] then 1 else 0);
  }

  lemma {:induction false} ModeIs(bits: seq<bool>)
    requires |bits| == 4
    ensures NatOf(bits) == 4 <==> bits == [false, true, false, false]
  {
    var a, b, c := bits[..3], bits[..2], bits[..1];
    assert a[..2] == b && b[..1] == c && c[..0] == [];
    assert NatOf(c) == (if bits[0] then 1 else 0);
    assert NatOf(b) == 2 * NatOf(c) + if bits[1] then 1 else 0;
    assert NatOf(a) == 2 * NatOf(b) + if bits[2] then 1 else 0;
  }

  lemma {:induction false} PackAt(bits: seq<bool>, k: nat)
    requires |bits| % 8 == 0 && 8 * k + 8 <= |bits|
    ensures Pack(bits)[k] == Shifted(bits[8 * k..8 * k + 8])
  {
    WordBits(bits, |bits| / 8, k);
    assert bits[..8 * (|bits| / 8)] == bits;
    hide Pack, ByteOf, ByteBits;
    ByteOfByteBits(Pack(bits)[k]);
    ShiftedIs(bits[8 * k..8 * k + 8]);
  }

  lemma {:induction false} Inner(bits: seq<bool>, i: nat, j: nat, a: nat, b: nat)
    requires i <= j <= |bits| && a <= b <= j - i
    ensures bits[i..j][a..b] == bits[i + a..i + b]
  {
    assert |bits[i..j][a..b]| == |bits[i + a..i + b]|;
    forall k | 0 <= k < b - a ensures bits[i..j][a..b][k] == bits[i + a..i + b][k] {
      assert bits[i..j][a + k] == bits[i + (a + k)];
    }
  }

  lemma {:induction false} BytesAre(bits: seq<bool>, start: nat, count: nat)
    requires start + 8 * count <= |bits|
    ensures QrCodewords.BytesAt(bits, start, count)
        == seq(count, k requires 0 <= k < count => Shifted(bits[start + 8 * k..start + 8 * k + 8]))
  {
    hide Pack, Shifted;
    var payload := bits[start..start + 8 * count];
    forall k | 0 <= k < count ensures Pack(payload)[k] == Shifted(bits[start + 8 * k..start + 8 * k + 8]) {
      PackAt(payload, k);
      Inner(bits, start, start + 8 * count, 8 * k, 8 * k + 8);
    }
  }

  lemma {:induction false} MessageIs(bytes: seq<bv8>, version: Version)
    ensures Message(Unpack(bytes), version) == QrCodewords.ParsePayload(bytes, version)
  {
    hide Unpack, NatOf, Shifted, QrCodewords.BytesAt;
    var bits, start := Unpack(bytes), 4 + CountBits(version);
    if |bits| >= start {
      ModeIs(bits[..4]);
      if start + 8 * NatOf(bits[4..start]) <= |bits| {
        BytesAre(bits, start, NatOf(bits[4..start]));
      }
    }
  }

  lemma {:induction false} AllBits(modules: Grid, size: nat, version: Version)
    requires size == Size(version) && IsGrid(modules, size) && size % 2 == 1 && size >= 7
    ensures ScanBits(modules, size, version, 0, StepCount(size)) == SymbolBits(modules, version)
  {
    hide *;
    StepsOfWalk(size);
    SymbolBitsAre(modules, version);
    ScanBitsAre(modules, size, version, StepCount(size));
    assert WholeWalk(size)[..StepCount(size)] == WholeWalk(size);
  }

  /** Where the format information announces level L and mask 0, a scanner that knows the standard alone reads what
      the encoder's own layout holds. */
  lemma {:induction false} ScanIsDecode(modules: Grid, version: Version)
    requires IsGrid(modules, Size(version)) && |modules| >= 21
    requires FormatRead(modules)[..5] == [false, true, false, false, false]
    ensures Scan(modules) == Decode(modules, version)
  {
    hide *;
    var bits, n := SymbolBits(modules, version), RawCodewords(version);
    SizeFacts(version);
    AllBits(modules, Size(version), version);
    BlockFacts(version);
    RawBits(version);
    Announced(modules, version);
    NothingAnnounced();
    ScanIs(modules, version, bits);
    DecodeIs(modules, version);
    if 8 * n <= |bits| {
      MessageBitsAre(bits, version, NumBlocks(version));
      MessageIs(QrBlocks.Deinterleave(BytesOf(bits, n), version, NumBlocks(version)), version);
    } else {
      ShortSymbol(modules, version);
    }
  }

  lemma {:induction false} Announced(modules: Grid, version: Version)
    requires IsGrid(modules, Size(version)) && |modules| >= 21
    requires FormatRead(modules)[..5] == [false, true, false, false, false]
    ensures IsGrid(modules, |modules|)
    ensures FormatRead(modules)[..2] == [false, true] && FormatRead(modules)[2..5] == [false, false, false]
  {
    var format := FormatRead(modules);
    hide FormatRead;
    assert format[..2] == format[..5][..2];
    assert format[2..5] == format[..5][2..];
  }

  lemma {:induction false} NothingAnnounced()
    ensures NatOf([false, false, false]) == 0
  {
    assert [false, false, false][..2] == [false, false] && [false, false][..1] == [false];
    assert NatOf([false]) == 0;
    assert NatOf([false, false]) == 0;
  }

  lemma {:induction false} ShortSymbol(modules: Grid, version: Version)
    requires IsGrid(modules, Size(version))
    ensures 8 * RawCodewords(version) > |SymbolBits(modules, version)| ==> Decode(modules, version) == None
  {
    hide SymbolBits, RawCodewords, BytesOf, DecodeWords, IsGrid;
  }

  lemma {:induction false} ScanIs(modules: Grid, version: Version, bits: seq<bool>)
    requires IsGrid(modules, Size(version))
    requires FormatRead(modules)[..2] == [false, true] && FormatRead(modules)[2..5] == [false, false, false]
    requires NatOf([false, false, false]) == 0
    requires Size(version) % 2 == 1 && Size(version) >= 21
    requires bits == ScanBits(modules, Size(version), version, 0, StepCount(Size(version)))
    ensures Scan(modules) == if |bits| < 8 * TotalCodewords(version) then None
                             else Message(MessageBits(bits, version, BlockCount(version)), version)
  {
    hide ScanBits, StepCount, TotalCodewords, BlockCount, MessageBits, Message, FormatRead, NatOf;
    assert (Size(version) - 17) / 4 == version;
  }
}

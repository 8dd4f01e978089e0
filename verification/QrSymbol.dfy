/** The QR symbol: drawing the function patterns, placing and masking the data, and reading it back. */
module QrSymbol {
  import opened Bits
  import opened QrTables
  import opened QrWalk
  import opened QrLayout
  import opened QrCapacity
  import opened QrStandard
  import opened QrScan
  import QrCodewords
  import opened Wrappers
  import QrBlocks

  // ---------- what the function patterns show ----------

  predicate WordBit(word: bv32, i: nat)
    requires i < 32
  {
    (word >> i) & 1 != 0
  }

  const FORMAT_BITS: bv32 := 0x77C4

  /** The rings of a finder pattern with its separator. */
  predicate FinderRing(dx: int, dy: int) { Distance(dx, dy) != 2 && Distance(dx, dy) != 4 }

  predicate AlignmentRing(dx: int, dy: int) { Distance(dx, dy) != 1 }

  predicate IsTiming(c: Cell) { c.x == 6 || c.y == 6 }

  predicate TimingDark(c: Cell) { if c.y == 6 then c.x % 2 == 0 else c.y % 2 == 0 }

  predicate FinderDark(size: nat, c: Cell) {
    if Near(c, 3, 3, 4) then FinderRing(c.x - 3, c.y - 3)
    else if Near(c, size - 4, 3, 4) then FinderRing(c.x - (size - 4), c.y - 3)
    else FinderRing(c.x - 3, c.y - (size - 4))
  }

  /** Some alignment pattern covers the cell and is dark there. */
  predicate AlignmentDark(version: Version, c: Cell) {
    exists a, b :: 0 <= a < AlignmentCount(version) && 0 <= b < AlignmentCount(version) && Covers(version, a, b, c)
                   && AlignmentRing(c.x - AlignmentPositions(version)[b], c.y - AlignmentPositions(version)[a])
  }

  /** The format bit shown by a format cell. */
  function FormatIndex(size: nat, c: Cell): int {
    if c.x == 8 then
      if c.y < 6 then c.y else if c.y <= 8 then c.y - 1 else c.y - size + 15
    else
      if c.x >= size - 8 then size - 1 - c.x else if c.x == 7 then 8 else 14 - c.x
  }

  predicate FormatDark(size: nat, c: Cell)
    requires size >= 21 && InFormat(size, c)
  {
    c == Cell(8, size - 8) || WordBit(FORMAT_BITS, FormatIndex(size, c))
  }

  function VersionIndex(size: nat, c: Cell): int {
    if c.y <= 5 then 3 * c.y + (c.x - (size - 11)) else 3 * c.x + (c.y - (size - 11))
  }

  /** One division step by the generator 0x1F25 of the version code. */
  function VersionStep(value: bv32): bv32 { (value << 1) ^ ((value >> 11) * 0x1F25) }

  function VersionRemainder(value: bv32, steps: nat): bv32 {
    if steps == 0 then value else VersionStep(VersionRemainder(value, steps - 1))
  }

  function Number(version: Version): bv32 { version as bv32 }

  /** The version number followed by its twelve check bits. */
  function Join(number: bv32, remainder: bv32): bv32 { (number << 12) | remainder }

  /** The 18 bits of version information. */
  function VersionWord(version: Version): bv32 {
    Join(Number(version), VersionRemainder(Number(version), 12))
  }

  predicate VersionDark(version: Version, c: Cell)
    requires InVersion(Size(version), c)
  {
    WordBit(VersionWord(version), VersionIndex(Size(version), c))
  }

  // ---------- the stages of drawing ----------

  /** Reserved after the timing lines (0), finders (1), alignments (2), format (3) and version information (4). */
  predicate Area(version: Version, stage: nat, c: Cell) {
    var size := Size(version);
    || IsTiming(c)
    || (stage >= 1 && InFinder(size, c))
    || (stage >= 2 && InAlignment(version, c))
    || (stage >= 3 && InFormat(size, c))
    || (stage >= 4 && version >= 7 && InVersion(size, c))
  }

  /** What a reserved cell shows: the pattern drawn last. */
  predicate Dark(version: Version, stage: nat, c: Cell) {
    var size := Size(version);
    if stage >= 4 && version >= 7 && InVersion(size, c) then VersionDark(version, c)
    else if stage >= 3 && InFormat(size, c) then FormatDark(size, c)
    else if stage >= 2 && InAlignment(version, c) then AlignmentDark(version, c)
    else if stage >= 1 && InFinder(size, c) then FinderDark(size, c)
    else TimingDark(c)
  }

  ghost predicate Drawn(modules: Grid, reserved: Grid, version: Version, stage: nat)
    requires IsGrid(modules, Size(version)) && IsGrid(reserved, Size(version))
  {
    forall c: Cell :: Inside(c, Size(version)) ==>
      && At(reserved, Size(version), c) == Area(version, stage, c)
      && At(modules, Size(version), c) == (Area(version, stage, c) && Dark(version, stage, c))
  }

  // ---------- alignment patterns one by one ----------

  /** Pattern (a, b) comes before (i, j) in drawing order. */
  predicate Earlier(a: int, b: int, i: int, j: int) { a < i || (a == i && b < j) }

  predicate AlignedUpTo(version: Version, i: nat, j: nat, c: Cell) {
    exists a, b :: 0 <= a < AlignmentCount(version) && 0 <= b < AlignmentCount(version) && Covers(version, a, b, c)
                   && Earlier(a, b, i, j)
  }

  predicate DarkUpTo(version: Version, i: nat, j: nat, c: Cell) {
    exists a, b :: 0 <= a < AlignmentCount(version) && 0 <= b < AlignmentCount(version) && Covers(version, a, b, c)
                   && Earlier(a, b, i, j)
                   && AlignmentRing(c.x - AlignmentPositions(version)[b], c.y - AlignmentPositions(version)[a])
  }

  /** No cell lies in two alignment patterns. */
  lemma {:induction false} AlignmentsDisjoint(version: Version, a: int, b: int, a': int, b': int, c: Cell)
    requires 0 <= a < AlignmentCount(version) && 0 <= b < AlignmentCount(version)
    requires 0 <= a' < AlignmentCount(version) && 0 <= b' < AlignmentCount(version)
    requires Covers(version, a, b, c) && Covers(version, a', b', c)
    ensures a == a' && b == b'
  {
    hide AlignmentPositions, AlignmentCount, Skipped;
    if a < a' { PositionsApart(version, a, a'); }
    if a' < a { PositionsApart(version, a', a); }
    if b < b' { PositionsApart(version, b, b'); }
    if b' < b { PositionsApart(version, b', b); }
  }

  lemma {:induction false} AlignedStep(version: Version, i: nat, j: nat, c: Cell)
    requires i < AlignmentCount(version) && j < AlignmentCount(version)
    ensures Covers(version, i, j, c) ==>
              && AlignedUpTo(version, i, j + 1, c)
              && (DarkUpTo(version, i, j + 1, c)
                  <==> AlignmentRing(c.x - AlignmentPositions(version)[j], c.y - AlignmentPositions(version)[i]))
    ensures !Covers(version, i, j, c) ==>
              && AlignedUpTo(version, i, j + 1, c) == AlignedUpTo(version, i, j, c)
              && DarkUpTo(version, i, j + 1, c) == DarkUpTo(version, i, j, c)
  {
    hide AlignmentPositions, AlignmentCount, Covers;
    if Covers(version, i, j, c) {
      forall a, b | 0 <= a < AlignmentCount(version) && 0 <= b < AlignmentCount(version) && Covers(version, a, b, c)
        ensures a == i && b == j
      {
        AlignmentsDisjoint(version, a, b, i, j, c);
      }
    }
  }

  lemma {:induction false} AlignedRow(version: Version, i: nat, c: Cell)
    ensures AlignedUpTo(version, i + 1, 0, c) == AlignedUpTo(version, i, AlignmentCount(version), c)
    ensures DarkUpTo(version, i + 1, 0, c) == DarkUpTo(version, i, AlignmentCount(version), c)
  {
    hide AlignmentPositions, AlignmentCount, Covers;
  }

  lemma {:induction false} AlignedEnds(version: Version, c: Cell)
    ensures !AlignedUpTo(version, 0, 0, c)
    ensures AlignedUpTo(version, AlignmentCount(version), 0, c) == InAlignment(version, c)
    ensures DarkUpTo(version, AlignmentCount(version), 0, c) == AlignmentDark(version, c)
  {
    hide AlignmentPositions, AlignmentCount, Covers;
  }

  /** The grids after the alignment patterns before (i, j). */
  ghost predicate AlignmentsDrawn(modules: Grid, reserved: Grid, version: Version, i: nat, j: nat)
    requires IsGrid(modules, Size(version)) && IsGrid(reserved, Size(version))
  {
    forall c: Cell :: Inside(c, Size(version)) ==>
      && At(reserved, Size(version), c) == (AlignedUpTo(version, i, j, c) || Area(version, 1, c))
      && At(modules, Size(version), c) == if AlignedUpTo(version, i, j, c) then DarkUpTo(version, i, j, c)
                                          else Area(version, 1, c) && Dark(version, 1, c)
  }

  lemma {:induction false} AlignmentsStart(modules: Grid, reserved: Grid, version: Version)
    requires IsGrid(modules, Size(version)) && IsGrid(reserved, Size(version))
    requires Drawn(modules, reserved, version, 1)
    ensures AlignmentsDrawn(modules, reserved, version, 0, 0)
  {
    hide At, IsGrid, Area, Dark, AlignedUpTo, DarkUpTo;
    forall c: Cell ensures !AlignedUpTo(version, 0, 0, c) { AlignedEnds(version, c); }
  }

  lemma {:induction false} AlignmentsRow(modules: Grid, reserved: Grid, version: Version, i: nat)
    requires IsGrid(modules, Size(version)) && IsGrid(reserved, Size(version))
    requires AlignmentsDrawn(modules, reserved, version, i, AlignmentCount(version))
    ensures AlignmentsDrawn(modules, reserved, version, i + 1, 0)
  {
    hide At, IsGrid, Area, Dark, AlignedUpTo, DarkUpTo;
    forall c: Cell
      ensures AlignedUpTo(version, i + 1, 0, c) == AlignedUpTo(version, i, AlignmentCount(version), c)
      ensures DarkUpTo(version, i + 1, 0, c) == DarkUpTo(version, i, AlignmentCount(version), c)
    {
      AlignedRow(version, i, c);
    }
  }

  lemma {:induction false} AlignmentsEnd(modules: Grid, reserved: Grid, version: Version)
    requires IsGrid(modules, Size(version)) && IsGrid(reserved, Size(version))
    requires AlignmentsDrawn(modules, reserved, version, AlignmentCount(version), 0)
    ensures Drawn(modules, reserved, version, 2)
  {
    hide At, IsGrid, AlignedUpTo, DarkUpTo, InFinder, InAlignment, AlignmentDark, FinderDark;
    forall c: Cell
      ensures AlignedUpTo(version, AlignmentCount(version), 0, c) == InAlignment(version, c)
      ensures DarkUpTo(version, AlignmentCount(version), 0, c) == AlignmentDark(version, c)
    {
      AlignedEnds(version, c);
    }
  }

  /** Drawing one more alignment pattern. */
  lemma {:induction false} AlignmentsStep(modules: Grid, reserved: Grid, version: Version, i: nat, j: nat,
      modules': Grid, reserved': Grid)
    requires IsGrid(modules, Size(version)) && IsGrid(reserved, Size(version))
    requires IsGrid(modules', Size(version)) && IsGrid(reserved', Size(version))
    requires i < AlignmentCount(version) && j < AlignmentCount(version)
    requires AlignmentsDrawn(modules, reserved, version, i, j)
    requires AlignmentAdded(modules, reserved, modules', reserved', Size(version),
                            AlignmentPositions(version)[j], AlignmentPositions(version)[i])
    ensures AlignmentsDrawn(modules', reserved', version, i, j + 1)
  {
    hide At, IsGrid, Area, Dark, AlignedUpTo, DarkUpTo, AlignmentRing, Near, Skipped, AlignmentPositions;
    forall c: Cell | Inside(c, Size(version))
      ensures At(reserved', Size(version), c) == (AlignedUpTo(version, i, j + 1, c) || Area(version, 1, c))
      ensures At(modules', Size(version), c) == if AlignedUpTo(version, i, j + 1, c) then DarkUpTo(version, i, j + 1, c)
                                                else Area(version, 1, c) && Dark(version, 1, c)
    {
      AlignedStep(version, i, j, c);
    }
  }

  /** Modules and reserved cells before and after drawing the finder pattern around (x, y). */
  ghost predicate FinderAdded(m: Grid, r: Grid, m': Grid, r': Grid, size: nat, x: int, y: int)
    requires IsGrid(m, size) && IsGrid(r, size) && IsGrid(m', size) && IsGrid(r', size)
  {
    forall c: Cell :: Inside(c, size) ==>
      && At(r', size, c) == (Near(c, x, y, 4) || At(r, size, c))
      && At(m', size, c) == if Near(c, x, y, 4) then FinderRing(c.x - x, c.y - y) else At(m, size, c)
  }

  /** The same for the alignment pattern around (x, y), unless it would lie in a finder pattern. */
  ghost predicate AlignmentAdded(m: Grid, r: Grid, m': Grid, r': Grid, size: nat, x: int, y: int)
    requires IsGrid(m, size) && IsGrid(r, size) && IsGrid(m', size) && IsGrid(r', size)
  {
    forall c: Cell :: Inside(c, size) ==>
      var hit := !Skipped(size, x, y) && Near(c, x, y, 2);
      && At(r', size, c) == (hit || At(r, size, c))
      && At(m', size, c) == if hit then AlignmentRing(c.x - x, c.y - y) else At(m, size, c)
  }

  lemma {:induction false} FindersDrawn(m: Grid, r: Grid, m1: Grid, r1: Grid, m2: Grid, r2: Grid, m3: Grid, r3: Grid,
      version: Version)
    requires IsGrid(m, Size(version)) && IsGrid(r, Size(version)) && IsGrid(m1, Size(version))
    requires IsGrid(r1, Size(version)) && IsGrid(m2, Size(version)) && IsGrid(r2, Size(version))
    requires IsGrid(m3, Size(version)) && IsGrid(r3, Size(version)) && Drawn(m, r, version, 0)
    requires FinderAdded(m, r, m1, r1, Size(version), 3, 3)
    requires FinderAdded(m1, r1, m2, r2, Size(version), Size(version) - 4, 3)
    requires FinderAdded(m2, r2, m3, r3, Size(version), 3, Size(version) - 4)
    ensures Drawn(m3, r3, version, 1)
  {
    hide At, IsGrid, FinderRing, TimingDark, IsTiming;
  }

  /** The listed cells have been visited: the free ones hold the first bits, everything else is as before. */
  ghost predicate Filled(modules: Grid, before: Grid, reserved: Grid, size: nat, cells: seq<Cell>, bits: seq<bool>,
      next: nat) {
    && IsGrid(modules, size) && IsGrid(before, size) && IsGrid(reserved, size)
    && (forall c :: c in cells ==> Inside(c, size))
    && Carries(modules, before, reserved, size, cells, bits)
    && next == |Free(cells, reserved, size)|
  }

  class Qr {
    const version: Version
    var modules: Grid
    var reserved: Grid

    ghost predicate Valid()
      reads this
    {
      IsGrid(modules, Size(version)) && IsGrid(reserved, Size(version))
    }

    /** Draws the whole symbol; a scanner that knows nothing but the standard reads the payload from its modules. */
    constructor (version: Version, data: seq<bv8>)
      requires Fits(|data|, version)
      ensures Valid() && this.version == version
      ensures Scan(modules) == Decode(modules, version) == Some(data)
      ensures reserved == FunctionGrid(version)
      ensures forall c: Cell :: Inside(c, Size(version)) && IsFunction(version, c) ==>
                At(modules, Size(version), c) == Dark(version, 4, c)
    {
      this.version := version;
      modules := seq(Size(version), _ => seq(Size(version), _ => false));
      reserved := seq(Size(version), _ => seq(Size(version), _ => false));
      new;
      hide Set, Drawn, Scan, Decode, Dark, FunctionGrid, IsFunction, QrCodewords.DataCodewords, Fits;
      DrawFunctions();
      Complete(data);
    }

    /** Places the payload, masks it and writes the format information again. */
    method Complete(data: seq<bv8>)
      requires Fits(|data|, version)
      requires Valid() && Drawn(modules, reserved, version, 4)
      modifies this
      ensures Valid() && Scan(modules) == Decode(modules, version) == Some(data)
      ensures reserved == FunctionGrid(version)
      ensures forall c: Cell :: Inside(c, Size(version)) && IsFunction(version, c) ==>
                At(modules, Size(version), c) == Dark(version, 4, c)
    {
      hide Set, Drawn, Scan, Decode, Dark, FunctionGrid, IsFunction, QrCodewords.DataCodewords, QrBlocks.Codewords,
          Filled, Unpack, At, InFormat, FormatDark, IsGrid, Masked, WholeWalk, Inside, Fits, Capacity, Size;
      ghost var blank := modules;
      ReservedIs(modules, reserved, version);
      var codewords := QrCodewords.ComputeDataCodewords(data, version);
      var words := QrBlocks.ComputeCodewords(codewords, version);
      DrawData(words);
      ghost var plain, grid := modules, reserved;
      ApplyMask();
      ghost var masked := modules;
      Format();
      CompleteIs(version, data, blank, plain, masked, modules, grid, reserved);
    }

    /** Draws a function module; positions outside the symbol are ignored. */
    method SetFunction(x: int, y: int, dark: bool)
      requires Valid()
      modifies this
      ensures Valid()
      ensures if Inside(Cell(x, y), Size(version))
              then modules == Set(old(modules), Size(version), Cell(x, y), dark)
                   && reserved == Set(old(reserved), Size(version), Cell(x, y), true)
              else modules == old(modules) && reserved == old(reserved)
    {
      if 0 <= x < Size(version) && 0 <= y < Size(version) {
        modules := modules[y := modules[y][x := dark]];
        reserved := reserved[y := reserved[y][x := true]];
      }
    }

    method Finder(x: int, y: int)
      requires Valid()
      modifies this
      ensures Valid() && FinderAdded(old(modules), old(reserved), modules, reserved, Size(version), x, y)
    {
      hide Set, At, IsGrid;
      for dy := -4 to 5
        invariant Valid()
        invariant forall c: Cell :: Inside(c, Size(version)) ==>
                    var hit := Near(c, x, y, 4) && c.y - y < dy;
                    && At(reserved, Size(version), c) == (hit || At(old(reserved), Size(version), c))
                    && At(modules, Size(version), c) == if hit then FinderRing(c.x - x, c.y - y)
                        else At(old(modules), Size(version), c)
      {
        for dx := -4 to 5
          invariant Valid()
          invariant forall c: Cell :: Inside(c, Size(version)) ==>
                      var hit := Near(c, x, y, 4) && (c.y - y < dy || (c.y - y == dy && c.x - x < dx));
                      && At(reserved, Size(version), c) == (hit || At(old(reserved), Size(version), c))
                      && At(modules, Size(version), c) == if hit then FinderRing(c.x - x, c.y - y)
                          else At(old(modules), Size(version), c)
        {
          var distance := Distance(dx, dy);
          SetFunction(x + dx, y + dy, distance != 2 && distance != 4);
        }
      }
    }

    method Alignment(x: int, y: int)
      requires Valid()
      modifies this
      ensures Valid()
      ensures forall c: Cell :: Inside(c, Size(version)) ==>
                && At(reserved, Size(version), c) == (Near(c, x, y, 2) || At(old(reserved), Size(version), c))
                && At(modules, Size(version), c)
                   == if Near(c, x, y, 2) then AlignmentRing(c.x - x, c.y - y) else At(old(modules), Size(version), c)
    {
      hide Set, At, IsGrid;
      for dy := -2 to 3
        invariant Valid()
        invariant forall c: Cell :: Inside(c, Size(version)) ==>
                    var hit := Near(c, x, y, 2) && c.y - y < dy;
                    && At(reserved, Size(version), c) == (hit || At(old(reserved), Size(version), c))
                    && At(modules, Size(version), c) == if hit then AlignmentRing(c.x - x, c.y - y)
                        else At(old(modules), Size(version), c)
      {
        for dx := -2 to 3
          invariant Valid()
          invariant forall c: Cell :: Inside(c, Size(version)) ==>
                      var hit := Near(c, x, y, 2) && (c.y - y < dy || (c.y - y == dy && c.x - x < dx));
                      && At(reserved, Size(version), c) == (hit || At(old(reserved), Size(version), c))
                      && At(modules, Size(version), c) == if hit then AlignmentRing(c.x - x, c.y - y)
                          else At(old(modules), Size(version), c)
        {
          SetFunction(x + dx, y + dy, Distance(dx, dy) != 1);
        }
      }
    }

    method Timing()
      requires Valid()
      requires forall c: Cell :: Inside(c, Size(version)) ==>
                 !At(reserved, Size(version), c) && !At(modules, Size(version), c)
      modifies this
      ensures Valid() && Drawn(modules, reserved, version, 0)
    {
      hide Set, At, IsGrid;
      for i := 0 to Size(version)
        invariant Valid()
        invariant forall c: Cell :: Inside(c, Size(version)) ==>
                    var hit := (c.x == 6 && c.y < i) || (c.y == 6 && c.x < i);
                    At(reserved, Size(version), c) == hit && At(modules, Size(version), c) == (hit && TimingDark(c))
      {
        SetFunction(6, i, i % 2 == 0);
        SetFunction(i, 6, i % 2 == 0);
      }
    }

    /** Format information; both copies and the dark module. */
    method Format()
      requires Valid()
      modifies this
      ensures Valid()
      ensures forall c: Cell :: Inside(c, Size(version)) ==>
                && At(reserved, Size(version), c) == (InFormat(Size(version), c) || At(old(reserved), Size(version), c))
                && At(modules, Size(version), c)
                   == if InFormat(Size(version), c) then FormatDark(Size(version), c)
                       else At(old(modules), Size(version), c)
    {
      hide Set, At, IsGrid, WordBit;
      var size := Size(version);
      for i := 0 to 15
        invariant Valid()
        invariant forall c: Cell :: Inside(c, size) ==>
                    var hit := InFormat(size, c) && c != Cell(8, size - 8) && FormatIndex(size, c) < i;
                    && At(reserved, size, c) == (hit || At(old(reserved), size, c))
                    && At(modules, size, c) == if hit then FormatDark(size, c) else At(old(modules), size, c)
      {
        var bit := WordBit(FORMAT_BITS, i);
        var y := if i < 6 then i else if i < 8 then i + 1 else size - 15 + i;
        SetFunction(8, y, bit);
        var x := if i < 8 then size - 1 - i else if i < 9 then 15 - i else 14 - i;
        SetFunction(x, 8, bit);
      }
      SetFunction(8, size - 8, true);
    }

    method VersionBits()
      requires Valid() && version >= 7
      modifies this
      ensures Valid()
      ensures forall c: Cell :: Inside(c, Size(version)) ==>
                && At(reserved, Size(version), c) == (InVersion(Size(version), c)
                    || At(old(reserved), Size(version), c))
                && At(modules, Size(version), c)
                   == if InVersion(Size(version), c) then VersionDark(version, c)
                       else At(old(modules), Size(version), c)
    {
      hide Set, At, IsGrid, WordBit, VersionWord;
      var size := Size(version);
      var value := ComputeVersionWord(version);
      for i := 0 to 18
        invariant Valid()
        invariant forall c: Cell :: Inside(c, size) ==>
                    var hit := InVersion(size, c) && VersionIndex(size, c) < i;
                    && At(reserved, size, c) == (hit || At(old(reserved), size, c))
                    && At(modules, size, c) == if hit then VersionDark(version, c) else At(old(modules), size, c)
      {
        var bit := WordBit(value, i);
        var a := size - 11 + i % 3;
        var b := i / 3;
        SetFunction(a, b, bit);
        SetFunction(b, a, bit);
      }
    }

    method Finders()
      requires Valid() && Drawn(modules, reserved, version, 0)
      modifies this
      ensures Valid() && Drawn(modules, reserved, version, 1)
    {
      hide At, IsGrid, FinderAdded, Drawn;
      ghost var m, r := modules, reserved;
      var size := Size(version);
      Finder(3, 3);
      ghost var m1, r1 := modules, reserved;
      Finder(size - 4, 3);
      ghost var m2, r2 := modules, reserved;
      Finder(3, size - 4);
      FindersDrawn(m, r, m1, r1, m2, r2, modules, reserved, version);
    }

    method AlignmentUnlessSkipped(x: int, y: int)
      requires Valid()
      modifies this
      ensures Valid() && AlignmentAdded(old(modules), old(reserved), modules, reserved, Size(version), x, y)
    {
      hide At, IsGrid, AlignmentRing, Near;
      if !Skipped(Size(version), x, y) {
        Alignment(x, y);
      }
    }

    method Alignments()
      requires Valid() && Drawn(modules, reserved, version, 1)
      modifies this
      ensures Valid() && Drawn(modules, reserved, version, 2)
    {
      hide At, IsGrid, AlignmentsDrawn, AlignmentAdded, Drawn, AlignmentPositions;
      AlignmentsStart(modules, reserved, version);
      var positions := AlignmentPositions(version);
      for i := 0 to |positions|
        invariant Valid() && AlignmentsDrawn(modules, reserved, version, i, 0)
      {
        for j := 0 to |positions|
          invariant Valid() && AlignmentsDrawn(modules, reserved, version, i, j)
        {
          ghost var m, r := modules, reserved;
          AlignmentUnlessSkipped(positions[j], positions[i]);
          AlignmentsStep(m, r, version, i, j, modules, reserved);
        }
        AlignmentsRow(modules, reserved, version, i);
      }
      AlignmentsEnd(modules, reserved, version);
    }

    method DrawFunctions()
      requires Valid()
      requires forall c: Cell :: Inside(c, Size(version)) ==>
                 !At(reserved, Size(version), c) && !At(modules, Size(version), c)
      modifies this
      ensures Valid() && Drawn(modules, reserved, version, 4)
    {
      Timing();
      Finders();
      Alignments();
      hide At, IsGrid, InFinder, InAlignment, AlignmentDark, FinderDark, InFormat, InVersion, FormatDark, VersionDark;
      Format();
      assert Drawn(modules, reserved, version, 3);
      if version >= 7 {
        VersionBits();
      }
    }

    /** One module of the walk: a free one takes the next bit, or zero when the bits are used up. */
    method Visit(c: Cell, bits: seq<bool>, next: nat, ghost before: Grid, ghost cells: seq<Cell>) returns (after: nat)
      requires Valid() && Filled(modules, before, reserved, Size(version), cells, bits, next)
      requires Inside(c, Size(version)) && c !in cells
      modifies this`modules
      ensures Valid() && Filled(modules, before, reserved, Size(version), cells + [c], bits, after)
    {
      CarriesStep(modules, before, reserved, Size(version), cells, bits, c);
      FreeStep(cells, reserved, Size(version), c);
      hide Carries, Free;
      after := next;
      if !reserved[c.y][c.x] {
        ghost var was := modules;
        modules := modules[c.y := modules[c.y][c.x := next < |bits| && bits[next]]];
        assert modules == Set(was, Size(version), c, BitAt(bits, next));
        after := next + 1;
      }
    }

    /** Fills one pair of columns. */
    method DrawPair(right: int, upward: bool, bits: seq<bool>, next: nat, ghost p: nat,
        ghost before: Grid) returns (after: nat)
      requires p < Pairs(Size(version)) && right == RightColumn(Size(version), p) && (upward <==> p % 2 == 0)
      requires Valid() && Filled(modules, before, reserved, Size(version), Walk(Size(version), p, 0), bits, next)
      modifies this`modules
      ensures Valid() && Filled(modules, before, reserved, Size(version), Walk(Size(version), p + 1, 0), bits, after)
    {
      var size := Size(version);
      SizeFacts(version);
      after := next;
      hide IsGrid, Walk, Inside, Filled, Size;
      for vert := 0 to size
        invariant Valid() && Filled(modules, before, reserved, size, Walk(size, p, vert), bits, after)
      {
        var y := if upward then size - 1 - vert else vert;
        WalkStep(size, p, vert);
        ghost var walk := Walk(size, p, vert);
        after := Visit(Cell(right, y), bits, after, before, walk);
        after := Visit(Cell(right - 1, y), bits, after, before, walk + [Cell(right, y)]);
      }
      WalkPair(size, p);
    }

    /** Writes bits along the zigzag walk; free modules left over become light. */
    method DrawBits(bits: seq<bool>) returns (next: nat)
      requires Valid()
      modifies this`modules
      ensures Valid() && Filled(modules, old(modules), reserved, Size(version), WholeWalk(Size(version)), bits, next)
    {
      SizeFacts(version);
      FillStart(version, modules, reserved, bits);
      hide *;
      ghost var m, size := modules, Size(version);
      RightStart(size);
      next := 0;
      var upward := true;
      var right: int := Size(version) - 1;
      ghost var p := 0;
      while right >= 1
        invariant RightIs(size, p, right, upward)
        invariant Valid() && Filled(modules, m, reserved, size, Walk(size, p, 0), bits, next)
        decreases right
      {
        RightStep(size, p, right, upward);
        if right == 6 {
          right := 5;
        }
        next := DrawPair(right, upward, bits, next, p, m);
        upward := !upward;
        right := right - 2;
        p := p + 1;
      }
      RightEnd(size, p, right, upward);
    }

    /** Inverts the data modules of every even diagonal. */
    method ApplyMask()
      requires Valid()
      modifies this`modules
      ensures Valid()
      ensures forall c: Cell :: Inside(c, Size(version)) ==>
                At(modules, Size(version), c)
                == (At(old(modules), Size(version), c) != (!At(reserved, Size(version), c) && Masked(c)))
    {
      hide Set, At, IsGrid;
      ghost var size := Size(version);
      for y := 0 to Size(version)
        invariant Valid()
        invariant forall c: Cell :: Inside(c, size) ==>
                    At(modules, size, c) ==
                    (At(old(modules), size, c) != (c.y < y && !At(reserved, size, c) && Masked(c)))
      {
        for x := 0 to Size(version)
          invariant Valid()
          invariant forall c: Cell :: Inside(c, size) ==>
                      At(modules, size, c)
                      == (At(old(modules), size, c) != ((c.y < y || (c.y == y && c.x < x))
                          && !At(reserved, size, c) && Masked(c)))
        {
          MaskModule(x, y);
        }
      }
    }

    method MaskModule(x: int, y: int)
      requires Valid() && Inside(Cell(x, y), Size(version))
      modifies this`modules
      ensures Valid()
      ensures forall c: Cell :: Inside(c, Size(version)) ==>
                At(modules, Size(version), c)
                == (At(old(modules), Size(version), c) !=
                    (c == Cell(x, y) && !At(reserved, Size(version), c) && Masked(c)))
    {
      if !reserved[y][x] {
        ghost var was := modules;
        modules := modules[y := modules[y][x := modules[y][x] != ((x + y) % 2 == 0)]];
        assert modules == Set(was, Size(version), Cell(x, y), modules[y][x]);
      }
    }

    /** The data are written byte by byte, most significant bit first. */
    method DrawData(data: seq<bv8>)
      requires Valid()
      modifies this`modules
      ensures Valid()
      ensures exists next: nat :: Filled(modules, old(modules), reserved, Size(version), WholeWalk(Size(version)),
          Unpack(data), next)
    {
      hide *;
      var next := DrawBits(Unpack(data));
    }
  }

  /** The loop variables of the walk before pair p, when column 6 has not been stepped over yet. */
  ghost predicate RightIs(size: nat, p: nat, right: int, upward: bool) {
    && p <= Pairs(size)
    && right == (if size - 1 - 2 * p >= 6 then size - 1 - 2 * p else size - 2 - 2 * p)
    && (upward <==> p % 2 == 0)
  }

  lemma {:induction false} RightStart(size: nat)
    requires size >= 7
    ensures RightIs(size, 0, size - 1, true)
  {}

  lemma {:induction false} RightStep(size: nat, p: nat, right: int, upward: bool)
    requires size % 2 == 1 && RightIs(size, p, right, upward) && right >= 1
    ensures p < Pairs(size) && (if right == 6 then 5 else right) == RightColumn(size, p) && (upward <==> p % 2 == 0)
    ensures RightIs(size, p + 1, (if right == 6 then 5 else right) - 2, !upward)
  {}

  lemma {:induction false} RightEnd(size: nat, p: nat, right: int, upward: bool)
    requires size % 2 == 1 && RightIs(size, p, right, upward) && right < 1
    ensures WholeWalk(size) == Walk(size, p, 0)
  {}

  method ComputeVersionWord(version: Version) returns (word: bv32)
    ensures word == VersionWord(version)
  {
    hide VersionRemainder, VersionStep, Number, Join;
    var number := Number(version);
    var value := number;
    VersionRemainderStart(number);
    for k := 0 to 12
      invariant value == VersionRemainder(number, k)
    {
      VersionRemainderNext(number, k);
      value := VersionStep(value);
    }
    word := Join(number, value);
  }

  lemma {:induction false} VersionRemainderStart(value: bv32)
    ensures VersionRemainder(value, 0) == value
  {}

  lemma {:induction false} VersionRemainderNext(value: bv32, k: nat)
    ensures VersionRemainder(value, k + 1) == VersionStep(VersionRemainder(value, k))
  {
    hide VersionStep;
  }

  lemma {:induction false} FillStart(version: Version, modules: Grid, reserved: Grid, bits: seq<bool>)
    requires IsGrid(modules, Size(version)) && IsGrid(reserved, Size(version))
    ensures Filled(modules, modules, reserved, Size(version), Walk(Size(version), 0, 0), bits, 0)
  {}

  lemma {:induction false} WalkPair(size: nat, p: nat)
    ensures Walk(size, p + 1, 0) == Walk(size, p, size)
  {}

  lemma {:induction false} ReservedIs(modules: Grid, reserved: Grid, version: Version)
    requires IsGrid(modules, Size(version)) && IsGrid(reserved, Size(version))
    requires Drawn(modules, reserved, version, 4)
    ensures reserved == FunctionGrid(version)
  {
    var size, grid := Size(version), FunctionGrid(version);
    hide FunctionGrid, InFinder, InAlignment, InFormat, InVersion;
    forall y | 0 <= y < size ensures reserved[y] == grid[y] {
      forall x | 0 <= x < size ensures reserved[y][x] == grid[y][x] {
        var c := Cell(x, y);
        assert At(reserved, size, c) == Area(version, 4, c) == IsFunction(version, c) == At(grid, size, c);
      }
    }
  }

  lemma {:induction false} FormatAndVersionApart(size: nat, c: Cell)
    requires size >= 45 && InFormat(size, c)
    ensures !InVersion(size, c)
  {}

  /** Both copies of the format information are those of level L with mask 0; the dark module is dark. */
  lemma {:induction false} FormatShows(version: Version, modules: Grid)
    requires IsGrid(modules, Size(version))
    requires forall c: Cell :: Inside(c, Size(version)) && InFormat(Size(version), c) ==>
               At(modules, Size(version), c) == FormatDark(Size(version), c)
    ensures forall i :: 0 <= i < 15 ==>
              && Inside(FORMAT_CELLS[i], Size(version)) && Inside(SecondCells(Size(version))[i], Size(version))
              && At(modules, Size(version), FORMAT_CELLS[i]) == (FORMAT_LOW[i] == '#')
              && At(modules, Size(version), SecondCells(Size(version))[i]) == (FORMAT_LOW[i] == '#')
    ensures Inside(Cell(8, 4 * version + 9), Size(version))
    ensures At(modules, Size(version), Cell(8, 4 * version + 9))
  {
    var size := Size(version);
    FormatWord();
    hide At, IsGrid, WordBit;
    forall i | 0 <= i < 15
      ensures Inside(FORMAT_CELLS[i], size) && InFormat(size, FORMAT_CELLS[i])
      ensures Inside(SecondCells(size)[i], size) && InFormat(size, SecondCells(size)[i])
      ensures FormatIndex(size, FORMAT_CELLS[i]) == 14 - i && FORMAT_CELLS[i] != Cell(8, size - 8)
      ensures FormatIndex(size, SecondCells(size)[i]) == 14 - i && SecondCells(size)[i] != Cell(8, size - 8)
    {
    }
  }

  lemma {:induction false} FormatWord()
    ensures |FORMAT_LOW| == 15
    ensures forall i :: 0 <= i < 15 ==> WordBit(FORMAT_BITS, 14 - i) == (FORMAT_LOW[i] == '#')
  {
    forall i | 0 <= i < 15 ensures WordBit(FORMAT_BITS, 14 - i) == (FORMAT_LOW[i] == '#') {
      assert i in {0, 1, 2, 3, 4, 5, 6, 7, 8, 9, 10, 11, 12, 13, 14};
    }
  }

  lemma {:induction false} FormatAnnounces(version: Version, modules: Grid)
    requires IsGrid(modules, Size(version)) && |modules| >= 21
    requires forall c: Cell :: Inside(c, Size(version)) && InFormat(Size(version), c) ==>
               At(modules, Size(version), c) == FormatDark(Size(version), c)
    ensures FormatRead(modules)[..5] == [false, true, false, false, false]
  {
    FormatShows(version, modules);
    hide At, IsGrid, FormatDark, InFormat;
  }

  /** Masking and the second drawing of the format information leave the function patterns as first drawn. */
  lemma {:induction false} FormatIsStable(version: Version, blank: Grid, plain: Grid, masked: Grid, final: Grid,
      reserved: Grid, bits: seq<bool>)
    requires IsGrid(masked, Size(version)) && IsGrid(final, Size(version))
    requires IsGrid(blank, Size(version)) && IsGrid(reserved, Size(version)) && Drawn(blank, reserved, version, 4)
    requires exists next: nat :: Filled(plain, blank, reserved, Size(version), WholeWalk(Size(version)), bits, next)
    requires forall c: Cell :: Inside(c, Size(version)) ==>
               At(masked, Size(version), c) == (At(plain, Size(version), c) !=
                 (!At(reserved, Size(version), c) && Masked(c)))
    requires forall c: Cell :: Inside(c, Size(version)) ==>
               At(final, Size(version), c)
               == if InFormat(Size(version), c) then FormatDark(Size(version), c) else At(masked, Size(version), c)
    ensures forall c: Cell :: Inside(c, Size(version)) ==>
              At(final, Size(version), c) == if At(reserved, Size(version), c) then Dark(version, 4, c)
                                             else At(plain, Size(version), c) != Masked(c)
  {
    var size := Size(version);
    hide IsGrid, InFinder, InAlignment, FinderDark, AlignmentDark, InFormat, FormatDark, InVersion, VersionDark,
        WholeWalk, At, Free;
    forall c: Cell | Inside(c, size)
      ensures At(final, size, c) == if At(reserved, size, c) then Dark(version, 4, c)
          else At(plain, size, c) != Masked(c)
    {
      if At(reserved, size, c) {
        assert c !in Free(WholeWalk(size), reserved, size);
        assert At(plain, size, c) == At(blank, size, c);
        if version >= 7 && InFormat(size, c) {
          FormatAndVersionApart(size, c);
        }
      }
    }
  }

  /** A symbol whose free modules carry the masked codeword bits decodes to the payload. */
  lemma {:induction false} SymbolDecodes(version: Version, data: seq<bv8>, blank: Grid, plain: Grid, final: Grid)
    requires Fits(|data|, version) && IsGrid(final, Size(version)) && IsGrid(plain, Size(version))
    requires exists next: nat ::
               Filled(plain, blank, FunctionGrid(version), Size(version), WholeWalk(Size(version)),
                      Unpack(QrBlocks.Codewords(QrCodewords.DataCodewords(data, version), version)), next)
    requires forall c: Cell :: Inside(c, Size(version)) && !At(FunctionGrid(version), Size(version), c) ==>
               At(final, Size(version), c) == (At(plain, Size(version), c) != Masked(c))
    ensures Decode(final, version) == Some(data)
  {
    hide *;
    var size, reserved, walk := Size(version), FunctionGrid(version), WholeWalk(Size(version));
    var codewords := QrCodewords.DataCodewords(data, version);
    var words := QrBlocks.Codewords(codewords, version);
    var bits := Unpack(words);
    QrBlocks.CodewordsLength(codewords, version);
    EnoughFreeModules(reserved, version);
    RawBits(version);
    FilledReadsBack(plain, final, blank, reserved, size, walk, bits);
    SymbolBitsAre(final, version);
    BytesBack(SymbolBits(final, version), words);
    QrBlocks.DeinterleaveRoundTrip(codewords, version);
    QrCodewords.PayloadRoundTrip(data, version);
    DecodeIs(final, version);
  }

  lemma {:induction false} BytesBack(bits: seq<bool>, words: seq<bv8>)
    requires 8 * |words| <= |bits| && bits[..8 * |words|] == Unpack(words)
    ensures BytesOf(bits, |words|) == words
  {
    hide Unpack, Pack;
    PackUnpack(words);
  }

  lemma {:induction false} FilledReadsBack(plain: Grid, final: Grid, blank: Grid, reserved: Grid, size: nat,
      walk: seq<Cell>, bits: seq<bool>)
    requires IsGrid(final, size) && IsGrid(reserved, size) && IsGrid(plain, size)
        && forall c :: c in walk ==> Inside(c, size)
    requires exists next: nat :: Filled(plain, blank, reserved, size, walk, bits, next)
    requires forall c: Cell :: Inside(c, size) && !At(reserved, size, c) ==>
               At(final, size, c) == (At(plain, size, c) != Masked(c))
    requires |bits| <= |Free(walk, reserved, size)|
    ensures |bits| <= |ReadBits(final, reserved, size, walk)|
    ensures ReadBits(final, reserved, size, walk)[..|bits|] == bits
  {
    hide IsGrid, Carries, Free;
    ReadBack(plain, final, blank, reserved, size, walk, bits);
  }

  /** What the finished symbol shows, from what each step did. */
  lemma {:induction false} CompleteIs(version: Version, data: seq<bv8>, blank: Grid, plain: Grid, masked: Grid,
      final: Grid, grid: Grid, reserved: Grid)
    requires Fits(|data|, version)
    requires IsGrid(blank, Size(version)) && IsGrid(plain, Size(version)) && IsGrid(masked, Size(version))
    requires IsGrid(final, Size(version)) && IsGrid(reserved, Size(version))
    requires grid == FunctionGrid(version) && Drawn(blank, grid, version, 4)
    requires exists next: nat ::
               Filled(plain, blank, grid, Size(version), WholeWalk(Size(version)),
                      Unpack(QrBlocks.Codewords(QrCodewords.DataCodewords(data, version), version)), next)
    requires forall c: Cell :: Inside(c, Size(version)) ==>
               At(masked, Size(version), c) == (At(plain, Size(version), c) !=
                 (!At(grid, Size(version), c) && Masked(c)))
    requires forall c: Cell :: Inside(c, Size(version)) ==>
               && At(reserved, Size(version), c) == (InFormat(Size(version), c) || At(grid, Size(version), c))
               && At(final, Size(version), c)
                  == if InFormat(Size(version), c) then FormatDark(Size(version), c) else At(masked, Size(version), c)
    ensures Scan(final) == Decode(final, version) == Some(data)
    ensures reserved == FunctionGrid(version)
    ensures forall c: Cell :: Inside(c, Size(version)) && IsFunction(version, c) ==>
        At(final, Size(version), c) == Dark(version, 4, c)
  {
    var bits := Unpack(QrBlocks.Codewords(QrCodewords.DataCodewords(data, version), version));
    FormatReserved(version, grid, reserved);
    hide *;
    FormatIsStable(version, blank, plain, masked, final, grid, bits);
    SymbolDecodes(version, data, blank, plain, final);
    FormatAnnounces(version, final);
    ScanIsDecode(final, version);
    GridIs(version);
  }

  lemma {:induction false} FormatReserved(version: Version, grid: Grid, reserved: Grid)
    requires grid == FunctionGrid(version) && IsGrid(reserved, Size(version))
    requires forall c: Cell :: Inside(c, Size(version)) ==>
               At(reserved, Size(version), c) == (InFormat(Size(version), c) || At(grid, Size(version), c))
    ensures reserved == grid
  {
    var size := Size(version);
    hide FunctionGrid, InFinder, InAlignment, InVersion;
    forall y | 0 <= y < size ensures reserved[y] == grid[y] {
      forall x | 0 <= x < size ensures reserved[y][x] == grid[y][x] {
        var c := Cell(x, y);
        assert At(grid, size, c) == IsFunction(version, c);
        assert At(reserved, size, c) == At(grid, size, c);
      }
    }
  }
}

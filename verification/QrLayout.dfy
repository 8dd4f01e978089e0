/** Where the function patterns of a QR symbol lie and which modules they leave for data. */
module QrLayout {
  import opened QrTables
  import opened QrWalk

  function Abs(a: int): nat { if a < 0 then -a else a }

  function Distance(dx: int, dy: int): nat { if Abs(dx) < Abs(dy) then Abs(dy) else Abs(dx) }

  /** The cell lies in the square of the given radius around (x, y). */
  predicate Near(c: Cell, x: int, y: int, radius: nat) { Distance(c.x - x, c.y - y) <= radius }

  // ---------- finder patterns ----------

  predicate InFinder(size: nat, c: Cell) {
    Near(c, 3, 3, 4) || Near(c, size - 4, 3, 4) || Near(c, 3, size - 4, 4)
  }

  // ---------- alignment patterns ----------

  function AlignmentCount(version: Version): nat { if version == 1 then 0 else version / 7 + 2 }

  function AlignmentStep(version: Version): int
    requires version > 1
  {
    var count := AlignmentCount(version);
    (version * 4 + count * 2 + 1) / (count * 2 - 2) * 2
  }

  /** The coordinates of the alignment patterns, in increasing order. */
  function AlignmentPositions(version: Version): (positions: seq<int>)
    ensures |positions| == AlignmentCount(version)
  {
    if version == 1 then []
    else
      var count := AlignmentCount(version);
      [6] + seq(count - 1, i requires 0 <= i < count - 1 => version * 4 + 10 - AlignmentStep(version) * (count - 2 - i))
  }

  /** The three corners that finder patterns occupy get no alignment pattern. */
  predicate Skipped(size: nat, x: int, y: int) {
    (x == 6 && (y == 6 || y == size - 7)) || (x == size - 7 && y == 6)
  }

  /** Alignment pattern (a, b), row index first, covers the cell. */
  predicate Covers(version: Version, a: int, b: int, c: Cell)
    requires 0 <= a < AlignmentCount(version) && 0 <= b < AlignmentCount(version)
  {
    var positions := AlignmentPositions(version);
    !Skipped(Size(version), positions[b], positions[a]) && Near(c, positions[b], positions[a], 2)
  }

  predicate InAlignment(version: Version, c: Cell) {
    exists a, b :: 0 <= a < AlignmentCount(version) && 0 <= b < AlignmentCount(version) && Covers(version, a, b, c)
  }

  lemma {:induction false} StepTable()
    ensures AlignmentStep(7) == 16 && AlignmentStep(8) == 18 && AlignmentStep(9) == 20
        && AlignmentStep(10) == 22 && AlignmentStep(11) == 24 && AlignmentStep(12) == 26 && AlignmentStep(13) == 28
    ensures AlignmentStep(14) == 20 && AlignmentStep(15) == 22 && AlignmentStep(16) == 24
        && AlignmentStep(17) == 24 && AlignmentStep(18) == 26 && AlignmentStep(19) == 28 && AlignmentStep(20) == 28
  {}

  lemma {:induction false} StepBounds(version: Version)
    requires version >= 7
    ensures var step := AlignmentStep(version);
            && step % 2 == 0 && 16 <= step
            && (version < 14 ==> step <= version * 4 - 8)
            && (version >= 14 ==> 2 * step <= version * 4 - 8)
  {
    StepTable();
    hide AlignmentStep;
    assert version in {7, 8, 9, 10, 11, 12, 13, 14, 15, 16, 17, 18, 19, 20};
  }

  lemma {:induction false} PositionsExplicit(version: Version)
    requires version > 1
    ensures var positions, step, last := AlignmentPositions(version), AlignmentStep(version), version * 4 + 10;
            positions == if version < 7 then [6, last]
                         else if version < 14 then [6, last - step, last]
                         else [6, last - 2 * step, last - step, last]
  {
    hide AlignmentStep;
  }

  /** Neighbouring positions are at least 12 apart, so that patterns do not overlap; the ends are fixed. */
  lemma {:induction false} PositionsSpread(version: Version)
    requires version > 1
    ensures var positions := AlignmentPositions(version);
            && 2 <= |positions| <= 4
            && positions[0] == 6 && positions[|positions| - 1] == Size(version) - 7
            && (forall i :: 0 <= i < |positions| ==> positions[i] % 2 == 0)
            && (forall i :: 0 < i < |positions| ==> positions[i] - positions[i - 1] >= 12)
  {
    hide AlignmentStep, AlignmentPositions, AlignmentCount;
    PositionsExplicit(version);
    if version >= 14 {
      StepBounds(version);
    } else if version >= 7 {
      StepBounds(version);
    }
  }

  /** Positions at most 4 apart are the same. */
  lemma {:induction false} PositionsApart(version: Version, i: nat, j: nat)
    requires i < j < AlignmentCount(version)
    ensures AlignmentPositions(version)[j] - AlignmentPositions(version)[i] >= 12
    decreases j
  {
    PositionsSpread(version);
    hide AlignmentPositions, AlignmentCount;
    if i < j - 1 {
      PositionsApart(version, i, j - 1);
    }
  }

  // ---------- format and version information ----------

  predicate InFormat(size: nat, c: Cell) {
    || (c.x == 8 && ((0 <= c.y <= 8 && c.y != 6) || size - 8 <= c.y < size))
    || (c.y == 8 && ((0 <= c.x <= 7 && c.x != 6) || size - 8 <= c.x < size))
  }

  predicate InVersion(size: nat, c: Cell) {
    || (size - 11 <= c.x <= size - 9 && 0 <= c.y <= 5)
    || (size - 11 <= c.y <= size - 9 && 0 <= c.x <= 5)
  }

  /** The cell belongs to a function pattern and carries no data. */
  predicate IsFunction(version: Version, c: Cell) {
    var size := Size(version);
    || c.x == 6 || c.y == 6
    || InFinder(size, c)
    || InAlignment(version, c)
    || InFormat(size, c)
    || (version >= 7 && InVersion(size, c))
  }
}

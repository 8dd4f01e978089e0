/** Byte strings as sequences of small integers, shared by the framing and smart-card models. */
module Octets {

  type Byte = n: int | 0 <= n < 256
  type Bytes = seq<Byte>

  /** The concatenation of the parts, in order. */
  function Flatten(parts: seq<Bytes>): Bytes {
    if |parts| == 0 then [] else Flatten(parts[..|parts| - 1]) + parts[|parts| - 1]
  }

  lemma {:induction false} Associates<T>(a: seq<T>, b: seq<T>, c: seq<T>)
    ensures (a + b) + c == a + (b + c)
  {}

  lemma {:induction false} FlattenAppend(parts: seq<Bytes>, last: Bytes)
    ensures Flatten(parts + [last]) == Flatten(parts) + last
  {
    assert (parts + [last])[..|parts|] == parts;
  }

  lemma {:induction false} FlattenConcat(a: seq<Bytes>, b: seq<Bytes>)
    ensures Flatten(a + b) == Flatten(a) + Flatten(b)
  {
    if b == [] {
      assert a + b == a;
    } else {
      var init, last := b[..|b| - 1], b[|b| - 1];
      assert a + b == (a + init) + [last] && b == init + [last];
      FlattenConcat(a, init);
      FlattenAppend(a + init, last);
    }
  }

  lemma {:induction false} FlattenNone()
    ensures Flatten([]) == []
  {}

  lemma {:induction false} FlattenOne(part: Bytes)
    ensures Flatten([part]) == part
  {
    assert [] + [part] == [part];
    FlattenAppend([], part);
  }

  lemma {:induction false} FlattenFront(first: Bytes, parts: seq<Bytes>)
    ensures Flatten([first] + parts) == first + Flatten(parts)
  {
    FlattenConcat([first], parts);
    FlattenAppend([], first);
    assert [] + [first] == [first];
  }

  lemma {:induction false} SliceSlice(s: Bytes, a: nat, b: nat, lo: nat, hi: nat)
    requires a <= b <= |s| && lo <= hi <= b - a
    ensures s[a..b][lo..hi] == s[a + lo..a + hi]
  {
    forall i | 0 <= i < hi - lo ensures s[a..b][lo..hi][i] == s[a + lo..a + hi][i] {
      assert s[a..b][lo..hi][i] == s[a..b][lo + i] == s[a + (lo + i)];
    }
  }

  /** The number a byte string denotes, most significant byte first. */
  function BigEndian(s: Bytes): nat {
    if s == [] then 0 else 256 * BigEndian(s[..|s| - 1]) + s[|s| - 1]
  }

  function Pow256(n: nat): (p: nat)
    ensures p > 0
  {
    if n == 0 then 1 else 256 * Pow256(n - 1)
  }

  lemma {:induction false} Pow256Monotone(a: nat, b: nat)
    requires a <= b
    ensures Pow256(a) <= Pow256(b)
    decreases b
  {
    if a < b { Pow256Monotone(a, b - 1); }
  }

  lemma {:induction false} BigEndianBound(s: Bytes)
    ensures BigEndian(s) < Pow256(|s|)
  {
    if s != [] { BigEndianBound(s[..|s| - 1]); }
  }

  /** Python's int.to_bytes(len, "big"), which refuses numbers that do not fit. */
  function ToBytes(n: nat, len: nat): (s: Bytes)
    requires n < Pow256(len)
    ensures |s| == len && BigEndian(s) == n
  {
    if len == 0 then [] else ToBytes(n / 256, len - 1) + [n % 256]
  }

  /** Python's int.bit_length. */
  function BitLength(n: nat): nat {
    if n == 0 then 0 else 1 + BitLength(n / 2)
  }

  lemma {:induction false} BitLengthOfPairs(n: nat)
    ensures n >= 4 ==> BitLength(n) == 2 + BitLength(n / 4)
    ensures 0 < n < 4 ==> 1 <= BitLength(n) <= 2
  {
    assert n >= 2 ==> BitLength(n) == 1 + BitLength(n / 2);
    assert n / 2 / 2 == n / 4;
  }

  lemma {:induction false} BitLengthOfNibbles(n: nat)
    ensures n >= 16 ==> BitLength(n) == 4 + BitLength(n / 16)
    ensures 0 < n < 16 ==> 1 <= BitLength(n) <= 4
  {
    hide BitLength;
    BitLengthOfPairs(n);
    BitLengthOfPairs(n / 4);
    assert n / 4 / 4 == n / 16;
  }

  lemma {:induction false} BitLengthOfBytes(n: nat)
    ensures n >= 256 ==> BitLength(n) == 8 + BitLength(n / 256)
    ensures 0 < n < 256 ==> 1 <= BitLength(n) <= 8
  {
    hide BitLength;
    BitLengthOfNibbles(n);
    BitLengthOfNibbles(n / 16);
    assert n / 16 / 16 == n / 256;
  }

  /** The number of bytes the source asks for: enough for n, and no fewer would do. */
  function ByteLength(n: nat): nat { (BitLength(n) + 7) / 8 }

  lemma {:induction false} BitLengthOfNothing()
    ensures BitLength(0) == 0
  {}

  lemma {:induction false} ByteLengthIsLeast(n: nat)
    ensures n < Pow256(ByteLength(n))
    ensures ByteLength(n) > 0 <==> n > 0
    ensures n > 0 ==> Pow256(ByteLength(n) - 1) <= n
  {
    hide BitLength;
    BitLengthOfBytes(n);
    if n >= 256 {
      ByteLengthIsLeast(n / 256);
      assert ByteLength(n) == 1 + ByteLength(n / 256);
      assert Pow256(ByteLength(n)) == 256 * Pow256(ByteLength(n / 256));
      assert Pow256(ByteLength(n) - 1) == 256 * Pow256(ByteLength(n / 256) - 1);
    } else if n > 0 {
      assert ByteLength(n) == 1 && Pow256(1) == 256;
    } else {
      assert ByteLength(0) == 0 by { BitLengthOfNothing(); }
    }
  }

  function MinimalBytes(n: nat): (s: Bytes)
    ensures BigEndian(s) == n
    ensures |s| == ByteLength(n)
  {
    ByteLengthIsLeast(n);
    ToBytes(n, ByteLength(n))
  }

  /** No byte string for n is shorter. */
  lemma {:induction false} MinimalBytesAreShortest(n: nat, s: Bytes)
    requires BigEndian(s) == n
    ensures |MinimalBytes(n)| <= |s|
  {
    BigEndianBound(s);
    ByteLengthIsLeast(n);
    if |s| < ByteLength(n) { Pow256Monotone(|s|, ByteLength(n) - 1); }
  }

  /** The length bytes of anything that fits in memory number at most eight. */
  lemma {:induction false} FewLengthBytes(n: nat)
    requires n < 0x1_0000_0000_0000_0000
    ensures ByteLength(n) <= 8
  {
    ByteLengthIsLeast(n);
    if ByteLength(n) > 8 {
      Pow256Monotone(8, ByteLength(n) - 1);
      assert Pow256(8) == 0x1_0000_0000_0000_0000 by {
        assert Pow256(4) == 0x1_0000_0000 && Pow256(8) == 256 * Pow256(7) && Pow256(7) == 256 * Pow256(6);
        assert Pow256(6) == 256 * Pow256(5) && Pow256(5) == 256 * Pow256(4);
      }
    }
  }
}

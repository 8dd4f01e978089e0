/** Bit strings, most significant bit first, and their packing into bytes. */
module Bits {
  import opened Arith
  import opened Gf256

  /** The n low bits of a number. */
  function IntBits(value: nat, n: nat): (bits: seq<bool>)
    ensures |bits| == n
  {
    if n == 0 then [] else IntBits(value / 2, n - 1) + [value % 2 == 1]
  }

  /** The number a bit string denotes. */
  function NatOf(bits: seq<bool>): nat {
    if |bits| == 0 then 0 else 2 * NatOf(bits[..|bits| - 1]) + (if bits[|bits| - 1] then 1 else 0)
  }

  lemma {:induction false} NatOfIntBits(value: nat, n: nat)
    requires value < Pow2(n)
    ensures NatOf(IntBits(value, n)) == value
  {
    if n > 0 {
      NatOfIntBits(value / 2, n - 1);
      assert IntBits(value, n)[..n - 1] == IntBits(value / 2, n - 1);
    }
  }

  lemma {:induction false} DivPow2(value: nat, i: nat)
    ensures value / 2 / Pow2(i) == value / Pow2(i + 1)
  {
    var p := Pow2(i);
    var q, r := value / 2 / p, value / 2 % p;
    assert value / 2 == q * p + r;
    var s := value % 2;
    assert value == q * (2 * p) + (2 * r + s);
    DivUnique(value, 2 * p, q, 2 * r + s);
  }

  /** Bit j from the left is the one a shift by n - 1 - j brings to the end. */
  lemma {:induction false} IntBitsAt(value: nat, n: nat, j: nat)
    requires j < n
    ensures IntBits(value, n)[j] <==> value / Pow2(n - 1 - j) % 2 == 1
  {
    if j < n - 1 {
      IntBitsAt(value / 2, n - 1, j);
      DivPow2(value, n - 2 - j);
    } else {
      assert Pow2(0) == 1;
    }
  }

  method AppendBits(bits: seq<bool>, value: nat, length: nat) returns (result: seq<bool>)
    ensures result == bits + IntBits(value, length)
  {
    result := bits;
    var i := length;
    while i > 0
      invariant 0 <= i <= length
      invariant result == bits + IntBits(value, length)[..length - i]
    {
      i := i - 1;
      IntBitsAt(value, length, length - 1 - i);
      result := result + [value / Pow2(i) % 2 == 1];
    }
    assert IntBits(value, length)[..length] == IntBits(value, length);
  }

  /** The eight bits of a byte. */
  function ByteBits(b: bv8): (bits: seq<bool>)
    ensures |bits| == 8
  {
    [Bit(b, 7), Bit(b, 6), Bit(b, 5), Bit(b, 4), Bit(b, 3), Bit(b, 2), Bit(b, 1), Bit(b, 0)]
  }

  function Place(bit: bool, weight: bv8): bv8 {
    if bit then weight else 0
  }

  /** The byte whose bits are given: the sum of the weights of the set ones. */
  function ByteOf(bits: seq<bool>): bv8
    requires |bits| == 8
  {
    Place(bits[0], 0x80) + Place(bits[1], 0x40) + Place(bits[2], 0x20) + Place(bits[3], 0x10)
    + Place(bits[4], 0x08) + Place(bits[5], 0x04) + Place(bits[6], 0x02) + Place(bits[7], 0x01)
  }

  lemma {:induction false} ByteOfByteBits(b: bv8)
    ensures ByteOf(ByteBits(b)) == b
  {}

  lemma {:induction false} BitsOfByteOf(b: bv8, bits: seq<bool>)
    requires |bits| == 8 && b == ByteOf(bits)
    ensures Bit(b, 7) == bits[0] && Bit(b, 6) == bits[1] && Bit(b, 5) == bits[2] && Bit(b, 4) == bits[3]
    ensures Bit(b, 3) == bits[4] && Bit(b, 2) == bits[5] && Bit(b, 1) == bits[6] && Bit(b, 0) == bits[7]
  {}

  lemma {:induction false} ByteBitsOfByteOf(bits: seq<bool>)
    requires |bits| == 8
    ensures ByteBits(ByteOf(bits)) == bits
  {
    hide ByteOf, Bit;
    BitsOfByteOf(ByteOf(bits), bits);
  }

  /** The bits of a byte string. */
  function Unpack(bytes: seq<bv8>): (bits: seq<bool>)
    ensures |bits| == 8 * |bytes|
  {
    if |bytes| == 0 then [] else Unpack(bytes[..|bytes| - 1]) + ByteBits(bytes[|bytes| - 1])
  }

  /** The bytes of a bit string that fills whole bytes. */
  function Pack(bits: seq<bool>): (bytes: seq<bv8>)
    requires |bits| % 8 == 0
    ensures |bytes| == |bits| / 8
  {
    if |bits| == 0 then [] else Pack(bits[..|bits| - 8]) + [ByteOf(bits[|bits| - 8..])]
  }

  lemma {:induction false} PackAppend(bits: seq<bool>, last: seq<bool>)
    requires |bits| % 8 == 0 && |last| == 8
    ensures Pack(bits + last) == Pack(bits) + [ByteOf(last)]
  {
    hide ByteOf;
    var all := bits + last;
    assert all[..|all| - 8] == bits && all[|all| - 8..] == last;
  }

  lemma {:induction false} UnpackAppend(bytes: seq<bv8>, last: bv8)
    ensures Unpack(bytes + [last]) == Unpack(bytes) + ByteBits(last)
  {
    hide ByteBits;
    assert (bytes + [last])[..|bytes|] == bytes;
  }

  lemma {:induction false} PackUnpack(bytes: seq<bv8>)
    ensures Pack(Unpack(bytes)) == bytes
  {
    hide *;
    if |bytes| > 0 {
      var m := |bytes| - 1;
      PackUnpack(bytes[..m]);
      assert bytes[..m] + [bytes[m]] == bytes;
      UnpackAppend(bytes[..m], bytes[m]);
      PackAppend(Unpack(bytes[..m]), ByteBits(bytes[m]));
      ByteOfByteBits(bytes[m]);
    }
  }

  lemma {:induction false} UnpackPack(bits: seq<bool>)
    requires |bits| % 8 == 0
    ensures Unpack(Pack(bits)) == bits
  {
    hide *;
    if |bits| > 0 {
      var m := |bits| - 8;
      UnpackPack(bits[..m]);
      assert bits[..m] + bits[m..] == bits;
      PackAppend(bits[..m], bits[m..]);
      UnpackAppend(Pack(bits[..m]), ByteOf(bits[m..]));
      ByteBitsOfByteOf(bits[m..]);
    }
  }

  lemma {:induction false} UnpackConcat(a: seq<bv8>, b: seq<bv8>)
    ensures Unpack(a + b) == Unpack(a) + Unpack(b)
  {
    hide *;
    if |b| == 0 {
      assert a + b == a;
      assert Unpack(b) == [];
    } else {
      var m := |b| - 1;
      UnpackConcat(a, b[..m]);
      assert b[..m] + [b[m]] == b;
      UnpackAppend(b[..m], b[m]);
      UnpackAppend(a + b[..m], b[m]);
      assert a + (b[..m] + [b[m]]) == a + b[..m] + [b[m]];
    }
  }

  /** Bit k of a byte string is bit k % 8 of byte k / 8. */
  lemma {:induction false} UnpackAt(bytes: seq<bv8>, k: nat)
    requires k < 8 * |bytes|
    ensures Unpack(bytes)[k] == ByteBits(bytes[k / 8])[k % 8]
  {
    hide ByteBits;
    if k < 8 * (|bytes| - 1) {
      UnpackAt(bytes[..|bytes| - 1], k);
    }
  }

  lemma {:induction false} PackPrefix(bits: seq<bool>, n: nat)
    requires |bits| % 8 == 0 && 8 * n <= |bits|
    ensures Pack(bits[..8 * n]) == Pack(bits)[..n]
  {
    hide ByteOf;
    if 8 * n < |bits| {
      var m := |bits| - 8;
      PackPrefix(bits[..m], n);
      assert bits[..m][..8 * n] == bits[..8 * n];
    } else {
      assert bits[..8 * n] == bits;
    }
  }
}

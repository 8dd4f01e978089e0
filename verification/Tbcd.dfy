/** Telephony binary-coded decimal: two digits to a byte, low nibble first, padded with an F nibble. */
module Tbcd {
  import opened Octets

  type Digit = d: nat | d <= 9

  predicate IsDigit(c: char) { '0' <= c <= '9' }

  function Value(c: char): Digit
    requires IsDigit(c)
  {
    c as int - '0' as int
  }

  function Shown(d: Digit): (c: char)
    ensures IsDigit(c) && Value(c) == d
  {
    ('0' as int + d) as char
  }

  /** The digits of a text; everything else is skipped. */
  function Digits(s: string): seq<Digit> {
    if s == [] then [] else Digits(s[..|s| - 1]) + (if IsDigit(s[|s| - 1]) then [Value(s[|s| - 1])] else [])
  }

  /** A byte of two nibbles. */
  function Both(low: nat, high: nat): (b: Byte)
    requires low < 16 && high < 16
    ensures b % 16 == low && b / 16 == high
  {
    low + 16 * high
  }

  /** Byte k holds digits 2 k and 2 k + 1. */
  function Pack(digits: seq<Digit>): (raw: Bytes)
    ensures |raw| == (|digits| + 1) / 2
  {
    seq((|digits| + 1) / 2, k requires 0 <= k < (|digits| + 1) / 2 =>
      Both(digits[2 * k], if 2 * k + 1 < |digits| then digits[2 * k + 1] else 0xF))
  }

  function StringToTbcd(s: string): Bytes { Pack(Digits(s)) }

  function Nibble(n: nat): string { if n <= 9 then [Shown(n)] else [] }

  function TbcdToString(raw: Bytes): string {
    if raw == [] then []
    else TbcdToString(raw[..|raw| - 1]) + Nibble(raw[|raw| - 1] % 16) + Nibble(raw[|raw| - 1] / 16)
  }

  /** The digits alone, as text. */
  function Text(digits: seq<Digit>): string {
    if digits == [] then [] else Text(digits[..|digits| - 1]) + [Shown(digits[|digits| - 1])]
  }

  lemma {:induction false} TextAppend(digits: seq<Digit>, d: Digit)
    ensures Text(digits + [d]) == Text(digits) + [Shown(d)]
  {
    assert (digits + [d])[..|digits|] == digits;
  }

  lemma {:induction false} PackEven(digits: seq<Digit>, a: Digit, b: Digit)
    requires |digits| % 2 == 0
    ensures Pack(digits + [a, b]) == Pack(digits) + [Both(a, b)]
    ensures Pack(digits + [a]) == Pack(digits) + [Both(a, 0xF)]
  {}

  lemma {:induction false} ReadAppend(raw: Bytes, x: Byte)
    ensures TbcdToString(raw + [x]) == TbcdToString(raw) + Nibble(x % 16) + Nibble(x / 16)
  {
    assert (raw + [x])[..|raw|] == raw;
  }

  /** Reading what was written gives the digits, for an even and for an odd number of them. */
  lemma {:induction false} PackReads(digits: seq<Digit>)
    ensures TbcdToString(Pack(digits)) == Text(digits)
    decreases |digits|
  {
    hide Pack, TbcdToString, Text, Both;
    var n := |digits|;
    if n > 0 && n % 2 == 0 {
      var front, a, b := digits[..n - 2], digits[n - 2], digits[n - 1];
      assert digits == front + [a, b] && digits == (front + [a]) + [b];
      PackReads(front);
      PackEven(front, a, b);
      ReadAppend(Pack(front), Both(a, b));
      TextAppend(front, a);
      TextAppend(front + [a], b);
    } else if n > 0 {
      var front, a := digits[..n - 1], digits[n - 1];
      assert digits == front + [a];
      PackReads(front);
      PackEven(front, a, 0);
      ReadAppend(Pack(front), Both(a, 0xF));
      TextAppend(front, a);
    } else {
      assert Pack(digits) == [] && digits == [];
      NoDigits();
    }
  }

  lemma {:induction false} NoDigits()
    ensures TbcdToString([]) == [] && Text([]) == []
  {}

  /** A text comes back as its digits. */
  lemma {:induction false} TextRoundTrip(s: string)
    ensures TbcdToString(StringToTbcd(s)) == Text(Digits(s))
  {
    PackReads(Digits(s));
  }

  lemma {:induction false} TextDigits(digits: seq<Digit>)
    ensures Digits(Text(digits)) == digits
  {
    if digits != [] {
      var init, d := digits[..|digits| - 1], digits[|digits| - 1];
      TextDigits(init);
      var t := Text(init) + [Shown(d)];
      assert t[..|t| - 1] == Text(init);
    }
  }

  /** Digits in every nibble, but for an F in the last one. */
  predicate WellFormed(raw: Bytes) {
    && (forall k :: 0 <= k < |raw| ==> raw[k] % 16 <= 9)
    && (forall k :: 0 <= k < |raw| - 1 ==> raw[k] / 16 <= 9)
    && (raw != [] ==> raw[|raw| - 1] / 16 <= 9 || raw[|raw| - 1] / 16 == 0xF)
  }

  lemma {:induction false} PackIsWellFormed(digits: seq<Digit>)
    ensures WellFormed(Pack(digits))
  {}

  /** The nibbles of a well-formed number, without the padding. */
  function Unpack(raw: Bytes): seq<Digit>
    requires WellFormed(raw)
  {
    if raw == [] then []
    else
      var init, x := raw[..|raw| - 1], raw[|raw| - 1];
      Unpack(init) + [x % 16] + (if x / 16 <= 9 then [x / 16] else [])
  }

  lemma {:induction false} UnpackPacks(raw: Bytes)
    requires WellFormed(raw)
    ensures Pack(Unpack(raw)) == raw
    ensures (raw != [] && raw[|raw| - 1] / 16 == 0xF) || |Unpack(raw)| == 2 * |raw|
  {
    if raw != [] {
      var init, x := raw[..|raw| - 1], raw[|raw| - 1];
      UnpackPacks(init);
      UnpackedByte(Unpack(init), x);
      hide Pack;
    }
  }

  lemma {:induction false} UnpackedByte(u: seq<Digit>, x: Byte)
    requires |u| % 2 == 0 && x % 16 <= 9 && (x / 16 <= 9 || x / 16 == 0xF)
    ensures Pack(u + [x % 16] + (if x / 16 <= 9 then [x / 16] else [])) == Pack(u) + [x]
  {
    hide Pack;
    if x / 16 <= 9 {
      PackEven(u, x % 16, x / 16);
      assert u + [x % 16] + [x / 16] == u + [x % 16, x / 16];
      assert Both(x % 16, x / 16) == x;
    } else {
      PackEven(u, x % 16, 0);
      assert u + [x % 16] + [] == u + [x % 16];
      assert Both(x % 16, 0xF) == x;
    }
  }

  /** A byte string survives being read and written again if and only if it is well formed. */
  lemma {:induction false} RawRoundTrip(raw: Bytes)
    ensures StringToTbcd(TbcdToString(raw)) == raw <==> WellFormed(raw)
  {
    PackIsWellFormed(Digits(TbcdToString(raw)));
    if WellFormed(raw) {
      UnpackPacks(raw);
      PackReads(Unpack(raw));
      TextDigits(Unpack(raw));
    }
  }
}

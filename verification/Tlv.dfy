/** BER-TLV elements: printing, and reading them from arbitrary, possibly truncated, byte strings. */
module Tlv {
  import opened Octets
  import opened Wrappers

  /** What the reader yields: tag, value, and where the element starts and ends. */
  datatype Element = Element(tag: nat, value: Bytes, start: nat, end: nat)

  /** A tag and a value to print. */
  datatype Field = Field(tag: nat, value: Bytes)

  /** The longest byte string a 64-bit Python can hold. */
  const MAX_LENGTH: nat := 0x7FFF_FFFF_FFFF_FFFF

  // ---------- reading one header ----------

  /** The bytes up to and including the first one below 0x80, or all of them. */
  function ContinuationLength(s: Bytes): (n: nat)
    ensures n <= |s|
  {
    if s == [] then 0 else if s[0] < 128 then 1 else 1 + ContinuationLength(s[1..])
  }

  function TagLength(s: Bytes): (n: nat)
    requires s != []
    ensures 1 <= n <= |s|
  {
    if s[0] % 32 == 31 then 1 + ContinuationLength(s[1..]) else 1
  }

  /** size counts the bytes of tag and length, length is the announced length of the value. */
  datatype Header = NoHeader | Header(tag: nat, size: nat, length: nat)

  /** The header at the front, if all of it is there. */
  function Head(s: Bytes): (h: Header)
    ensures h.Header? ==> 2 <= h.size <= |s|
  {
    if s == [] || TagLength(s) >= |s| then NoHeader
    else
      var t, first := TagLength(s), s[TagLength(s)];
      if first < 128 then Header(BigEndian(s[..t]), t + 1, first)
      else if t + 1 + (first - 128) > |s| then NoHeader
      else Header(BigEndian(s[..t]), t + 1 + (first - 128), BigEndian(s[t + 1..t + 1 + (first - 128)]))
  }

  /** The whole first element is there. */
  predicate Complete(s: Bytes) {
    Head(s).Header? && Head(s).size + Head(s).length <= |s|
  }

  /** The length of the first element. */
  function Total(s: Bytes): (n: nat)
    requires Complete(s)
    ensures 2 <= n <= |s|
  {
    Head(s).size + Head(s).length
  }

  function First(s: Bytes, base: nat): Element
    requires Complete(s)
  {
    Element(Head(s).tag, s[Head(s).size..Total(s)], base, base + Total(s))
  }

  /** All complete elements from the front, positions counted from base. */
  function Elements(s: Bytes, base: nat): seq<Element>
    decreases |s|
  {
    if Complete(s) then [First(s, base)] + Elements(s[Total(s)..], base + Total(s)) else []
  }

  // ---------- truncation ----------

  lemma {:induction false} ContinuationCut(s: Bytes, k: nat)
    requires k <= |s|
    ensures ContinuationLength(s[..k]) == if k < ContinuationLength(s) then k else ContinuationLength(s)
  {
    if k > 0 {
      assert s[..k][1..] == s[1..][..k - 1];
      ContinuationCut(s[1..], k - 1);
    }
  }

  lemma {:induction false} TagCut(s: Bytes, k: nat)
    requires 0 < k <= |s|
    ensures TagLength(s[..k]) == if k < TagLength(s) then k else TagLength(s)
  {
    assert s[..k][1..] == s[1..][..k - 1];
    ContinuationCut(s[1..], k - 1);
  }

  lemma {:induction false} SliceCut(s: Bytes, k: nat, from: nat, to: nat)
    requires from <= to <= k <= |s|
    ensures s[..k][from..to] == s[from..to]
  {}

  /** A cut loses the header exactly when it falls inside it. */
  lemma {:induction false} HeadCut(s: Bytes, k: nat)
    requires k <= |s|
    ensures Head(s[..k]) == if Head(s).Header? && Head(s).size <= k then Head(s) else NoHeader
  {
    hide BigEndian, TagLength;
    if k > 0 {
      TagCut(s, k);
      var t := TagLength(s);
      if t < k {
        SliceCut(s, k, 0, t);
        var n := if s[t] < 128 then 0 else s[t] - 128;
        if t + 1 + n <= k { SliceCut(s, k, t + 1, t + 1 + n); }
      }
    }
  }

  /** A cut loses the first element exactly when it falls inside it. */
  lemma {:induction false} CompleteCut(s: Bytes, k: nat)
    requires k <= |s|
    ensures Head(s[..k]).Header? ==> Head(s[..k]) == Head(s)
    ensures Complete(s[..k]) <==> Complete(s) && Total(s) <= k
  {
    HeadCut(s, k);
    hide Head;
  }

  /** The elements that end no later than the limit. */
  function Within(es: seq<Element>, limit: nat): seq<Element> {
    if es == [] || es[0].end > limit then [] else [es[0]] + Within(es[1..], limit)
  }

  lemma {:induction false} ElementsStep(s: Bytes, base: nat)
    ensures Complete(s) ==> Elements(s, base) == [First(s, base)] + Elements(s[Total(s)..], base + Total(s))
    ensures !Complete(s) ==> Elements(s, base) == []
  {}

  lemma {:induction false} CutSlice(s: Bytes, lo: nat, hi: nat, k: nat)
    requires lo <= hi <= k <= |s|
    ensures s[..k][lo..hi] == s[lo..hi] && s[..k][lo..] == s[lo..][..k - lo]
  {}

  lemma {:induction false} FirstCut(s: Bytes, k: nat, base: nat)
    requires k <= |s| && Complete(s) && Total(s) <= k
    ensures Complete(s[..k]) && Total(s[..k]) == Total(s) && First(s[..k], base) == First(s, base)
  {
    CompleteCut(s, k);
    hide Head;
    CutSlice(s, Head(s).size, Total(s), k);
  }

  /** Reading a truncated string yields exactly the elements that end before the cut. */
  lemma {:induction false} TruncationKeepsComplete(s: Bytes, k: nat, base: nat)
    requires k <= |s|
    ensures Elements(s[..k], base) == Within(Elements(s, base), base + k)
    decreases |s|
  {
    hide Elements, Complete, Total, Head, First;
    CompleteCut(s, k);
    ElementsStep(s, base);
    ElementsStep(s[..k], base);
    if Complete(s) {
      FirstIs(s, base);
      if Total(s) <= k {
        var n := Total(s);
        FirstCut(s, k, base);
        CutSlice(s, n, k, k);
        TruncationKeepsComplete(s[n..], k - n, base + n);
      }
    }
  }

  lemma {:induction false} FirstIs(s: Bytes, base: nat)
    requires Complete(s)
    ensures First(s, base).start == base && First(s, base).end == base + Total(s)
  {}

  // ---------- positions ----------

  /** Where the last element ends. */
  function End(es: seq<Element>, base: nat): nat {
    if es == [] then base else es[|es| - 1].end
  }

  /** Element i starts where the one before it ends, and lies in the bytes it was read from. */
  ghost predicate TileAt(es: seq<Element>, s: Bytes, base: nat, i: nat)
    requires i < |es|
  {
    && es[i].start == End(es[..i], base)
    && base <= es[i].start < es[i].end <= base + |s|
    && Elements(s[es[i].start - base..es[i].end - base], es[i].start) == [es[i]]
  }

  /** Elements lie side by side from base on. */
  ghost predicate Tiling(es: seq<Element>, s: Bytes, base: nat) {
    forall i: nat :: i < |es| ==> TileAt(es, s, base, i)
  }

  lemma {:induction false} FirstAlone(s: Bytes, base: nat)
    requires Complete(s)
    ensures Elements(s[..Total(s)], base) == [First(s, base)]
  {
    hide Elements, Complete, Total, Head, First;
    TruncationKeepsComplete(s, Total(s), base);
    ElementsStep(s, base);
    FirstIs(s, base);
    var rest := Elements(s[Total(s)..], base + Total(s));
    ElementsStartLater(s[Total(s)..], base + Total(s));
    assert ([First(s, base)] + rest)[1..] == rest;
  }

  lemma {:induction false} ElementsStartLater(s: Bytes, base: nat)
    ensures Elements(s, base) != [] ==> Elements(s, base)[0].end > base
  {}

  lemma {:induction false} LaterTile(s: Bytes, base: nat, n: nat, first: Element, tail: seq<Element>, i: nat)
    requires 0 < n <= |s| && first.start == base && first.end == base + n && i < |tail|
    requires TileAt(tail, s[n..], base + n, i)
    ensures TileAt([first] + tail, s, base, i + 1)
  {
    hide Elements;
    var es, e := [first] + tail, tail[i];
    assert es[i + 1] == e && es[..i + 1] == [first] + tail[..i];
    Shift(s, n, e.start - base, e.end - base);
  }

  lemma {:induction false} FirstTile(s: Bytes, base: nat, n: nat, first: Element, tail: seq<Element>)
    requires 0 < n <= |s| && first.start == base && first.end == base + n
    requires Elements(s[..n], base) == [first]
    ensures TileAt([first] + tail, s, base, 0)
  {
    hide Elements;
    assert s[0..n] == s[..n];
  }

  /** Putting an element before a tiling gives a tiling. */
  lemma {:induction false} TilingGrows(s: Bytes, base: nat, n: nat, first: Element, tail: seq<Element>)
    requires 0 < n <= |s| && first.start == base && first.end == base + n
    requires Elements(s[..n], base) == [first] && Tiling(tail, s[n..], base + n)
    ensures Tiling([first] + tail, s, base)
  {
    hide TileAt, Elements;
    var es := [first] + tail;
    FirstTile(s, base, n, first, tail);
    forall i: nat | i < |es| ensures TileAt(es, s, base, i) {
      if i > 0 { LaterTile(s, base, n, first, tail, i - 1); }
    }
  }

  lemma {:induction false} Shift(s: Bytes, n: nat, lo: nat, hi: nat)
    requires n <= lo <= hi <= |s|
    ensures s[lo..hi] == s[n..][lo - n..hi - n] && s[hi..] == s[n..][hi - n..]
  {}

  /** The reported positions tile the input up to the point where no complete element is left. */
  lemma {:induction false} ElementsTile(s: Bytes, base: nat)
    ensures Tiling(Elements(s, base), s, base)
    ensures base <= End(Elements(s, base), base) <= base + |s|
    ensures !Complete(s[End(Elements(s, base), base) - base..])
    decreases |s|
  {
    hide Elements, Complete, Total, Head, First, Tiling;
    ElementsStep(s, base);
    if Complete(s) {
      var n := Total(s);
      var first, tail := First(s, base), Elements(s[n..], base + n);
      ElementsTile(s[n..], base + n);
      FirstAlone(s, base);
      FirstIs(s, base);
      TilingGrows(s, base, n, first, tail);
      var end := End(tail, base + n);
      assert End([first] + tail, base) == end;
      Shift(s, n, n, end - base);
    } else {
      assert s[0..] == s;
      NoTiling(s, base);
    }
  }

  lemma {:induction false} NoTiling(s: Bytes, base: nat)
    ensures Tiling([], s, base)
  {}

  // ---------- printing ----------

  function TagBytes(tag: nat): Bytes {
    if tag > 255 then [tag / 256 % 256, tag % 256] else [tag]
  }

  /** The first byte of a long form is 0x80 or-ed with the number of length bytes. */
  function LengthField(n: nat): Bytes {
    if n <= 127 then [n] else [128 + |MinimalBytes(n)| % 128] + MinimalBytes(n)
  }

  function EncodeTlv(tag: nat, value: Bytes): Bytes {
    TagBytes(tag) + LengthField(|value|) + value
  }

  function EncodeAll(fields: seq<Field>): Bytes {
    if fields == [] then [] else EncodeTlv(fields[0].tag, fields[0].value) + EncodeAll(fields[1..])
  }

  /** Tags of one or two bytes in the form BER prescribes. */
  predicate WellFormedTag(tag: nat) {
    || (tag <= 255 && tag % 32 != 31)
    || (255 < tag <= 0xFFFF && tag / 256 % 32 == 31 && tag % 256 < 128)
  }

  predicate WellFormed(fields: seq<Field>) {
    forall i :: 0 <= i < |fields| ==> WellFormedTag(fields[i].tag) && |fields[i].value| <= MAX_LENGTH
  }

  /** The elements the fields become when printed one after the other from base on. */
  function Placed(fields: seq<Field>, base: nat): seq<Element> {
    if fields == [] then []
    else
      var f, end := fields[0], base + |EncodeTlv(fields[0].tag, fields[0].value)|;
      [Element(f.tag, f.value, base, end)] + Placed(fields[1..], end)
  }

  lemma {:induction false} BigEndianShort(a: nat, b: Byte)
    ensures a < 256 ==> BigEndian([a]) == a && BigEndian([a, b]) == 256 * a + b
    ensures BigEndian([b]) == b
  {
    if a < 256 {
      assert [a, b][..1] == [a] && [a][..0] == [];
    }
    assert [b][..0] == [];
  }

  lemma {:induction false} TagBytesRead(tag: nat, rest: Bytes)
    requires WellFormedTag(tag)
    ensures TagLength(TagBytes(tag) + rest) == |TagBytes(tag)|
    ensures BigEndian(TagBytes(tag)) == tag
  {
    var s := TagBytes(tag) + rest;
    if tag > 255 {
      assert s[1..][0] == tag % 256;
      assert TagBytes(tag)[..1] == [tag / 256];
    }
    BigEndianShort(tag / 256, tag % 256);
  }

  lemma {:induction false} LengthFieldReads(n: nat)
    requires n <= MAX_LENGTH
    ensures n > 127 ==> 0 < |MinimalBytes(n)| <= 8
  {
    FewLengthBytes(n);
    ByteLengthIsLeast(n);
  }

  lemma {:induction false} LengthFieldIs(n: nat)
    requires n > 127 ==> 0 < |MinimalBytes(n)| <= 8
    ensures var b := LengthField(n);
            if n <= 127 then b == [n]
            else b != [] && b[0] == 128 + (|b| - 1) && 1 < |b| && b[1..] == MinimalBytes(n)
  {
    hide MinimalBytes;
  }

  /** A header that spells out its tag and length is read as such. */
  lemma {:induction false} HeadIs(s: Bytes, t: nat, n: nat)
    requires 0 < t < |s| && TagLength(s) == t
    requires t + 1 + n <= |s| && s[t] == if n == 0 then s[t] % 128 else 128 + n
    ensures Head(s) == Header(BigEndian(s[..t]), t + 1 + n, if n == 0 then s[t] else BigEndian(s[t + 1..t + 1 + n]))
  {
  }

  lemma {:induction false} EncodedParts(tag: nat, value: Bytes, rest: Bytes)
    ensures var a, b, s := TagBytes(tag), LengthField(|value|), EncodeTlv(tag, value) + rest;
            && s == a + (b + value + rest)
            && s[..|a|] == a && b != [] && s[|a|] == b[0] && s[|a| + 1..|a| + |b|] == b[1..]
  {
    var a, b := TagBytes(tag), LengthField(|value|);
    assert EncodeTlv(tag, value) == a + b + value;
    hide *;
    Regroup(a, b, value, rest);
    Pieces(a, b, value + rest);
  }

  lemma {:induction false} Regroup(a: Bytes, b: Bytes, c: Bytes, d: Bytes)
    ensures a + b + c + d == a + (b + c + d) && b + c + d == b + (c + d)
  {}

  lemma {:induction false} Pieces(a: Bytes, b: Bytes, c: Bytes)
    requires b != []
    ensures var s := a + (b + c); s[..|a|] == a && s[|a|] == b[0] && s[|a| + 1..|a| + |b|] == b[1..]
  {}

  /** The header of a printed element is read back, whatever follows it. */
  lemma {:induction false} HeadOfEncoded(tag: nat, value: Bytes, rest: Bytes)
    requires WellFormedTag(tag) && |value| <= MAX_LENGTH
    ensures Head(EncodeTlv(tag, value) + rest)
         == Header(tag, |TagBytes(tag)| + |LengthField(|value|)|, |value|)
  {
    var n, s := |value|, EncodeTlv(tag, value) + rest;
    var a, b := TagBytes(tag), LengthField(|value|);
    EncodedParts(tag, value, rest);
    hide *;
    TagBytesRead(tag, b + value + rest);
    LengthFieldReads(n);
    LengthFieldIs(n);
    HeadIs(s, |a|, |b| - 1);
  }

  lemma {:induction false} FirstOfEncoded(tag: nat, value: Bytes, rest: Bytes, base: nat)
    requires WellFormedTag(tag) && |value| <= MAX_LENGTH
    ensures var s, e := EncodeTlv(tag, value) + rest, EncodeTlv(tag, value);
            Complete(s) && Total(s) == |e| && First(s, base) == Element(tag, value, base, base + |e|)
                && s[|e|..] == rest
  {
    HeadOfEncoded(tag, value, rest);
    hide Head, TagBytes, LengthField;
    var e := EncodeTlv(tag, value);
    assert (e + rest)[|e| - |value|..|e|] == value;
  }

  /** Printing fields and reading them back gives the fields, tiling the printed bytes. */
  lemma {:induction false} RoundTrip(fields: seq<Field>, base: nat)
    requires WellFormed(fields)
    ensures Elements(EncodeAll(fields), base) == Placed(fields, base)
    ensures End(Placed(fields, base), base) == base + |EncodeAll(fields)|
  {
    hide EncodeTlv, Complete, WellFormedTag, First, Total, Elements;
    ElementsStep(EncodeAll(fields), base);
    if fields != [] {
      var f, rest := fields[0], EncodeAll(fields[1..]);
      FirstOfEncoded(f.tag, f.value, rest, base);
      RoundTrip(fields[1..], base + |EncodeTlv(f.tag, f.value)|);
    } else {
      NothingIsIncomplete();
    }
  }

  lemma {:induction false} NothingIsIncomplete()
    ensures !Complete([])
  {}

  /** Cutting printed fields anywhere leaves exactly the fields printed in full. */
  lemma {:induction false} TruncatedRoundTrip(fields: seq<Field>, k: nat)
    requires WellFormed(fields) && k <= |EncodeAll(fields)|
    ensures Elements(EncodeAll(fields)[..k], 0) == Within(Placed(fields, 0), k)
  {
    hide *;
    RoundTrip(fields, 0);
    TruncationKeepsComplete(EncodeAll(fields), k, 0);
  }

  lemma {:induction false} LastDigit(s: Bytes)
    requires s != []
    ensures BigEndian(s) % 256 == s[|s| - 1]
  {}

  lemma {:induction false} LeadingDigit(s: Bytes)
    requires s != []
    ensures BigEndian(s) >= s[0] * Pow256(|s| - 1)
  {
    if |s| > 1 {
      LeadingDigit(s[..|s| - 1]);
      assert BigEndian(s) >= 256 * (s[0] * Pow256(|s| - 2));
    } else {
      assert s[..0] == [];
    }
  }

  lemma {:induction false} ContinuationBytes(s: Bytes)
    ensures forall i :: 0 <= i < ContinuationLength(s) - 1 ==> s[i] >= 128
    ensures ContinuationLength(s) < |s| ==> ContinuationLength(s) > 0 && s[ContinuationLength(s) - 1] < 128
  {
    if s != [] && s[0] >= 128 {
      ContinuationBytes(s[1..]);
      forall i | 0 <= i < ContinuationLength(s) - 1 ensures s[i] >= 128 {
        if i > 0 { assert s[i] == s[1..][i - 1]; }
      }
    }
  }

  lemma {:induction false} TagStarts(s: Bytes)
    requires s != []
    ensures BigEndian(s[..1]) == s[0]
    ensures TagLength(s) == 1 + if s[0] % 32 == 31 then ContinuationLength(s[1..]) else 0
  {
    assert s[..1] == [s[0]] && s[..1][..0] == [];
  }

  /** What the bytes of a multi-byte tag look like. */
  lemma {:induction false} LongTag(s: Bytes)
    requires s != [] && TagLength(s) < |s| && s[0] % 32 == 31
    ensures var t, n := TagLength(s), BigEndian(s[..TagLength(s)]);
            && t >= 2 && n >= 31 * 256 && n % 256 < 128
            && (t == 2 ==> n == 256 * (s[0] as nat) + s[1])
            && (t > 2 ==> s[1] >= 128)
  {
    var t := TagLength(s);
    var name := s[..t];
    ContinuationBytes(s[1..]);
    LastDigit(name);
    LeadingDigit(name);
    assert s[t - 1] == s[1..][t - 2];
    hide *;
    assert name[t - 1] == s[t - 1] && name[0] == s[0];
    Pow256Monotone(1, t - 1);
    OneDigit();
    ProductBound(s[0], Pow256(t - 1));
    if t == 2 {
      assert name == [s[0], s[1]];
      BigEndianShort(s[0], s[1]);
    } else {
      assert s[1] == s[1..][0];
    }
  }

  lemma {:induction false} OneDigit()
    ensures Pow256(1) == 256
  {}

  lemma {:induction false} ProductBound(a: nat, b: nat)
    requires a >= 31 && b >= 256
    ensures a * b >= 31 * 256
  {}

  /** A tag that is not well formed is read back as some other tag, or not at all. */
  lemma {:induction false} BadTagIsMisread(tag: nat, rest: Bytes)
    requires !WellFormedTag(tag)
    ensures var h := Head(TagBytes(tag) + rest); h.Header? ==> h.tag != tag
  {
    var s := TagBytes(tag) + rest;
    assert s[0] == (if tag > 255 then tag / 256 % 256 else tag) && (tag > 255 ==> s[1] == tag % 256);
    TagStarts(s);
    if s[0] % 32 == 31 && TagLength(s) < |s| {
      LongTag(s);
    }
    HeadTag(s);
    hide Head, TagLength, BigEndian, TagBytes;
  }

  lemma {:induction false} HeadTag(s: Bytes)
    ensures Head(s).Header? ==> s != [] && TagLength(s) < |s| && Head(s).tag == BigEndian(s[..TagLength(s)])
  {}

  lemma {:induction false} FirstTag(s: Bytes, base: nat)
    ensures Elements(s, base) != [] ==> Head(s).Header? && Elements(s, base)[0].tag == Head(s).tag
  {}

  lemma {:induction false} EncodedFront(tag: nat, value: Bytes)
    ensures EncodeTlv(tag, value) == TagBytes(tag) + (LengthField(|value|) + value)
  {}

  /** One printed element is read back if and only if its tag is well formed. */
  lemma {:induction false} RoundTripExactly(tag: nat, value: Bytes)
    requires |value| <= MAX_LENGTH
    ensures var e := EncodeTlv(tag, value);
            Elements(e, 0) == [Element(tag, value, 0, |e|)] <==> WellFormedTag(tag)
  {
    hide *;
    var e := EncodeTlv(tag, value);
    if WellFormedTag(tag) {
      ElementsStep(e, 0);
      FirstOfEncoded(tag, value, [], 0);
      assert e + [] == e;
      NothingIsIncomplete();
      ElementsStep([], |e|);
    } else {
      EncodedFront(tag, value);
      BadTagIsMisread(tag, LengthField(|value|) + value);
      FirstTag(e, 0);
    }
  }

  // ---------- numbers ----------

  /** The fewest bytes that denote n, but at least one. */
  function IntBytes(n: nat): Bytes { if ByteLength(n) == 0 then [0] else MinimalBytes(n) }

  lemma {:induction false} IntBytesAreShortest(n: nat, s: Bytes)
    requires s != [] && BigEndian(s) == n
    ensures IntBytes(n) != [] && BigEndian(IntBytes(n)) == n && |IntBytes(n)| <= |s|
  {
    ByteLengthIsLeast(n);
    MinimalBytesAreShortest(n, s);
    BigEndianShort(0, 0);
  }

  // ---------- looking up a tag ----------

  function Find(es: seq<Element>, target: nat): Option<Bytes> {
    if es == [] then None
    else if es[0].tag == target then Some(es[0].value)
    else Find(es[1..], target)
  }

  /** The value found is that of the first element with the tag. */
  lemma {:induction false} FindsFirst(es: seq<Element>, i: nat)
    requires i < |es| && forall j :: 0 <= j < i ==> es[j].tag != es[i].tag
    ensures Find(es, es[i].tag) == Some(es[i].value)
  {
    if i > 0 {
      assert es[0].tag != es[i].tag && es[1..][i - 1] == es[i];
      FindsFirst(es[1..], i - 1);
    }
  }

  lemma {:induction false} FindsNothing(es: seq<Element>, target: nat)
    requires forall i :: 0 <= i < |es| ==> es[i].tag != target
    ensures Find(es, target) == None
  {
    if es != [] {
      FindsNothing(es[1..], target);
    }
  }

  function FindTag(data: Bytes, target: nat): Option<Bytes> {
    Find(Elements(data, 0), target)
  }

  lemma {:induction false} PlacedFields(fields: seq<Field>, base: nat)
    ensures |Placed(fields, base)| == |fields|
    ensures forall i :: 0 <= i < |fields| ==> Placed(fields, base)[i].tag == fields[i].tag
    ensures forall i :: 0 <= i < |fields| ==> Placed(fields, base)[i].value == fields[i].value
  {
    hide EncodeTlv;
    if fields != [] {
      PlacedFields(fields[1..], base + |EncodeTlv(fields[0].tag, fields[0].value)|);
    }
  }

  /** In printed fields the value found is that of the first field with the tag. */
  lemma {:induction false} FindsFirstField(fields: seq<Field>, i: nat)
    requires WellFormed(fields) && i < |fields|
    requires forall j :: 0 <= j < i ==> fields[j].tag != fields[i].tag
    ensures FindTag(EncodeAll(fields), fields[i].tag) == Some(fields[i].value)
  {
    RoundTrip(fields, 0);
    PlacedFields(fields, 0);
    hide Placed, Elements, EncodeAll, WellFormedTag, Find;
    FindsFirst(Placed(fields, 0), i);
  }

  /** In printed fields nothing is found if no field has the tag. */
  lemma {:induction false} FindsNoField(fields: seq<Field>, tag: nat)
    requires WellFormed(fields) && forall k :: 0 <= k < |fields| ==> fields[k].tag != tag
    ensures FindTag(EncodeAll(fields), tag) == None
  {
    RoundTrip(fields, 0);
    PlacedFields(fields, 0);
    hide Placed, Elements, EncodeAll, Find, WellFormedTag;
    FindsNothing(Placed(fields, 0), tag);
  }

  // ---------- the reader ----------

  lemma {:induction false} TagNumberGrows(s: Bytes, i: nat)
    requires i < |s|
    ensures BigEndian(s[..i + 1]) == BigEndian(s[..i]) * 256 + s[i]
    ensures ContinuationLength(s[i..]) == if s[i] < 128 then 1 else 1 + ContinuationLength(s[i + 1..])
  {
    assert s[..i + 1][..i] == s[..i];
    assert s[i..][1..] == s[i + 1..];
  }

  lemma {:induction false} NoMoreTag(s: Bytes)
    ensures ContinuationLength(s[|s|..]) == 0
  {}

  /** Reads the number of a tag that continues past its first byte. */
  method ContinueTag(data: Bytes, start: nat) returns (tagValue: nat, idx: nat)
    requires start < |data| && data[start] % 32 == 31
    ensures start < idx <= |data| && idx - start == TagLength(data[start..])
    ensures tagValue == BigEndian(data[start..idx])
  {
    hide *;
    idx, tagValue := start + 1, data[start];
    ghost var s := data[start..];
    TagStarts(s);
    NoMoreTag(s);
    while idx < |data|
      invariant start < idx <= |data|
      invariant tagValue == BigEndian(s[..idx - start])
      invariant TagLength(s) == idx - start + ContinuationLength(s[idx - start..])
    {
      var nextByte := data[idx];
      TagNumberGrows(s, idx - start);
      idx := idx + 1;
      tagValue := tagValue * 256 + nextByte;
      if nextByte < 128 { break; }
    }
    assert s[..idx - start] == data[start..idx];
  }

  lemma {:induction false} HeadAt(data: Bytes, start: nat, t: nat)
    requires start < |data| && t == TagLength(data[start..]) && start + t <= |data|
    ensures var s := data[start..]; var i := start + t;
            && (i == |data| ==> Head(s) == NoHeader)
            && (i < |data| && data[i] < 128 ==> Head(s) == Header(BigEndian(data[start..i]), t + 1, data[i]))
            && (i < |data| && data[i] >= 128 && i + 1 + (data[i] - 128) > |data| ==> Head(s) == NoHeader)
            && (i < |data| && data[i] >= 128 && i + 1 + (data[i] - 128) <= |data| ==>
                  Head(s) == Header(BigEndian(data[start..i]), t + 1 + (data[i] - 128),
                                    BigEndian(data[i + 1..i + 1 + (data[i] - 128)])))
  {
    hide BigEndian, TagLength;
    var s, i := data[start..], start + t;
    if i < |data| {
      SliceOfRest(data, start, 0, t);
      if data[i] >= 128 && i + 1 + (data[i] - 128) <= |data| {
        SliceOfRest(data, start, t + 1, t + 1 + (data[i] - 128));
      }
    }
  }

  lemma {:induction false} SliceOfRest(data: Bytes, start: nat, lo: nat, hi: nat)
    requires lo <= hi && start + hi <= |data|
    ensures data[start..][lo..hi] == data[start + lo..start + hi]
    ensures data[start..][hi..] == data[start + hi..]
  {}

  /** The reader has yielded `out` and stands at `idx`. */
  ghost predicate ReadUpTo(data: Bytes, idx: nat, out: seq<Element>) {
    idx <= |data| && out + Elements(data[idx..], idx) == Elements(data, 0)
  }

  lemma {:induction false} ReadStops(data: Bytes, idx: nat, out: seq<Element>)
    requires ReadUpTo(data, idx, out) && !Complete(data[idx..])
    ensures out == Elements(data, 0)
  {}

  lemma {:induction false} ReadStarts(data: Bytes)
    ensures ReadUpTo(data, 0, [])
  {
    assert data[0..] == data;
  }

  lemma {:induction false} ReadContinues(data: Bytes, idx: nat, out: seq<Element>, h: Header)
    requires ReadUpTo(data, idx, out) && Head(data[idx..]) == h && h.Header?
    requires idx + h.size + h.length <= |data|
    ensures var end := idx + h.size + h.length;
            ReadUpTo(data, end, out + [Element(h.tag, data[idx + h.size..end], idx, end)])
  {
    hide Elements, Head;
    var s := data[idx..];
    ElementsStep(s, idx);
    SliceOfRest(data, idx, h.size, h.size + h.length);
    var e := First(s, idx);
    assert out + ([e] + Elements(data[e.end..], e.end)) == (out + [e]) + Elements(data[e.end..], e.end);
  }

  lemma {:induction false} Incomplete(s: Bytes)
    ensures s == [] || Head(s) == NoHeader || Head(s).size + Head(s).length > |s| ==> !Complete(s)
  {}

  /** Reads all complete elements, in order. */
  method IterTlv(data: Bytes) returns (out: seq<Element>)
    ensures out == Elements(data, 0)
  {
    hide *;
    out := [];
    var idx, length := 0, |data|;
    ghost var done := 0;
    ReadStarts(data);
    while idx < length
      invariant done == idx <= length && ReadUpTo(data, done, out)
    {
      var startPos, tagValue: nat := idx, data[idx];
      TagStarts(data[startPos..]);
      idx := idx + 1;
      if tagValue % 32 == 31 {
        tagValue, idx := ContinueTag(data, startPos);
      }
      assert data[startPos..][..1] == data[startPos..startPos + 1];
      HeadAt(data, startPos, idx - startPos);
      Incomplete(data[startPos..]);
      if idx >= length { break; }
      var size: nat := data[idx];
      idx := idx + 1;
      if size >= 128 {
        var numBytes := size - 128;
        if idx + numBytes > length { break; }
        size := BigEndian(data[idx..idx + numBytes]);
        idx := idx + numBytes;
      }
      if idx + size > length { break; }
      ReadContinues(data, startPos, out, Header(tagValue, idx - startPos, size));
      out := out + [Element(tagValue, data[idx..idx + size], startPos, idx + size)];
      idx := idx + size;
      done := idx;
    }
    Incomplete(data[done..]);
    ReadStops(data, done, out);
  }
}

/** Splitting a Bound Profile Package into the byte strings that are sent to the eUICC one by one. */
module ProfilePackage {
  import opened Octets
  import opened Tlv
  import opened Wrappers

  const TAG_BPP: nat := 0xBF36
  const TAG_BPP_COMMAND: nat := 0xBF23

  // ---------- header lengths ----------

  /** The source's own count of the bytes of tag and length; it knows tags of one and two bytes. */
  function HeaderLength(data: Bytes): nat
    requires data != [] && |data| > (if data[0] % 32 == 31 then 2 else 1)
  {
    var tagLen := if data[0] % 32 == 31 then 2 else 1;
    var lengthByte := data[tagLen];
    tagLen + (if lengthByte >= 128 then 1 + lengthByte % 128 else 1)
  }

  /** For tags of at most two bytes it agrees with the reader. */
  lemma {:induction false} HeaderLengthIs(s: Bytes)
    requires Complete(s) && Head(s).tag <= 0xFFFF
    ensures |s| > (if s[0] % 32 == 31 then 2 else 1) && HeaderLength(s) == Head(s).size
  {
    ShortTag(s);
    TagStarts(s);
    hide BigEndian;
  }

  lemma {:induction false} ShortTag(s: Bytes)
    requires Head(s).Header? && Head(s).tag <= 0xFFFF
    ensures s != [] && TagLength(s) == if s[0] % 32 == 31 then 2 else 1
  {
    HeadTag(s);
    TagStarts(s);
    if s[0] % 32 == 31 {
      LongTag(s);
      var t := TagLength(s);
      LeadingDigit(s[..t]);
      hide Head, TagLength, BigEndian;
      if t > 2 {
        Pow256Monotone(2, t - 1);
        assert Pow256(2) == 256 * Pow256(1) && Pow256(1) == 256;
        ProductAtLeast(s[..t][0], 31, Pow256(t - 1), 0x1_0000);
      }
    }
  }

  lemma {:induction false} ProductAtLeast(a: nat, x: nat, b: nat, y: nat)
    requires a >= x && b >= y
    ensures a * b >= x * y
  {
    assert a * b >= x * b >= x * y;
  }

  // ---------- the pieces of a value ----------

  /** The stretches of a value that hold its elements. */
  function Stretches(value: Bytes, es: seq<Element>): seq<Bytes>
    requires Inside(value, es)
  {
    seq(|es|, i requires 0 <= i < |es| => value[es[i].start..es[i].end])
  }

  lemma {:induction false} StretchesLie(value: Bytes)
    ensures Inside(value, Elements(value, 0))
  {
    hide Elements, Complete, End;
    ElementsTile(value, 0);
    var es := Elements(value, 0);
    forall i: nat | i < |es| ensures 0 <= es[i].start <= es[i].end <= |value| {
      assert TileAt(es, value, 0, i);
    }
  }

  function Parts(value: Bytes): seq<Bytes> {
    StretchesLie(value);
    Stretches(value, Elements(value, 0))
  }

  /** Every child starts where the one before it ends. */
  ghost predicate Adjacent(es: seq<Element>, base: nat) {
    forall i :: 0 <= i < |es| ==> es[i].start == End(es[..i], base)
  }

  lemma {:induction false} AdjacentBut(es: seq<Element>, base: nat)
    requires Adjacent(es, base) && es != []
    ensures Adjacent(es[..|es| - 1], base) && es[|es| - 1].start == End(es[..|es| - 1], base)
        && es[|es| - 1].end == End(es, base)
  {
    var init := es[..|es| - 1];
    forall i | 0 <= i < |init| ensures init[i].start == End(init[..i], base) {
      assert init[..i] == es[..i] && init[i] == es[i];
    }
  }

  lemma {:induction false} AdjacentChildren(value: Bytes)
    ensures Adjacent(Elements(value, 0), 0) && End(Elements(value, 0), 0) <= |value|
  {
    hide Elements, Complete, End;
    ElementsTile(value, 0);
    var es := Elements(value, 0);
    forall i: nat | i < |es| ensures es[i].start == End(es[..i], 0) {
      assert TileAt(es, value, 0, i);
    }
  }

  ghost predicate Inside(value: Bytes, es: seq<Element>) {
    forall i :: 0 <= i < |es| ==> 0 <= es[i].start <= es[i].end <= |value|
  }

  lemma {:induction false} StretchesStep(value: Bytes, es: seq<Element>)
    requires Inside(value, es) && es != []
    ensures var init, last := es[..|es| - 1], es[|es| - 1];
            && Inside(value, init) && last.start <= last.end <= |value|
            && Stretches(value, es) == Stretches(value, init) + [value[last.start..last.end]]
  {}

  lemma {:induction false} StretchesJoin(value: Bytes, es: seq<Element>)
    requires Inside(value, es) && Adjacent(es, 0)
    ensures End(es, 0) <= |value| && Flatten(Stretches(value, es)) == value[..End(es, 0)]
  {
    if es != [] {
      var init, last := es[..|es| - 1], es[|es| - 1];
      StretchesStep(value, es);
      hide *;
      AdjacentBut(es, 0);
      StretchesJoin(value, init);
      FlattenAppend(Stretches(value, init), value[last.start..last.end]);
      Grow(value, last.start, last.end);
    }
  }

  lemma {:induction false} Grow(s: Bytes, a: nat, b: nat)
    requires a <= b <= |s|
    ensures s[..a] + s[a..b] == s[..b]
  {}

  /** The parts of a value, joined, are the value up to the end of its last complete element. */
  lemma {:induction false} PartsJoin(value: Bytes)
    ensures End(Elements(value, 0), 0) <= |value|
    ensures Flatten(Parts(value)) == value[..End(Elements(value, 0), 0)]
  {
    hide Elements, End, Stretches, Flatten, Adjacent;
    StretchesLie(value);
    AdjacentChildren(value);
    StretchesJoin(value, Elements(value, 0));
  }

  // ---------- splitting ----------

  predicate Listed(tag: nat) { 0xA0 <= tag <= 0xA3 }

  predicate Nested(tag: nat) { tag == 0xA1 || tag == 0xA3 }

  /** A child of the package lies in the body at its positions. */
  predicate Lies(e: Element, body: Bytes) {
    && e.start < e.end <= |body|
    && Elements(body[e.start..e.end], e.start) == [e]
  }

  lemma {:induction false} LiesIs(e: Element, body: Bytes)
    requires Lies(e, body)
    ensures var s := body[e.start..e.end];
            Complete(s) && Total(s) == |s| && Head(s).tag == e.tag && e.value == s[Head(s).size..]
  {
    var s := body[e.start..e.end];
    hide Head;
    ElementsStep(s, e.start);
    assert Elements(s, e.start)[0] == First(s, e.start);
  }

  lemma {:induction false} NestedHasHeader(e: Element, body: Bytes)
    requires Lies(e, body) && e.tag <= 0xFFFF
    ensures var s := body[e.start..e.end];
            && |s| > (if s[0] % 32 == 31 then 2 else 1)
            && HeaderLength(s) + |e.value| == |s| && s == s[..HeaderLength(s)] + e.value
  {
    LiesIs(e, body);
    HeaderLengthIs(body[e.start..e.end]);
    hide Elements, Head, Complete, HeaderLength;
  }

  /** The chunks one child of the package gives rise to. */
  function ChildChunks(bpp: Bytes, valStart: nat, body: Bytes, e: Element): seq<Bytes>
    requires valStart + |body| <= |bpp| && Lies(e, body)
  {
    if e.tag == TAG_BPP_COMMAND then [bpp[0..valStart + e.end]]
    else if e.tag == 0xA0 || e.tag == 0xA2 then [bpp[valStart + e.start..valStart + e.end]]
    else if Nested(e.tag) then
      NestedHasHeader(e, body);
      [bpp[valStart + e.start..valStart + e.start + HeaderLength(body[e.start..e.end])]] + Parts(e.value)
    else []
  }

  ghost predicate AllLie(es: seq<Element>, body: Bytes) {
    forall i :: 0 <= i < |es| ==> Lies(es[i], body)
  }

  function Chunks(bpp: Bytes, valStart: nat, body: Bytes, es: seq<Element>): seq<Bytes>
    requires valStart + |body| <= |bpp| && AllLie(es, body)
  {
    if es == [] then []
    else Chunks(bpp, valStart, body, es[..|es| - 1]) + ChildChunks(bpp, valStart, body, es[|es| - 1])
  }

  lemma {:induction false} ChildrenLie(body: Bytes)
    ensures AllLie(Elements(body, 0), body)
  {
    hide Elements, Complete, End;
    ElementsTile(body, 0);
    var es := Elements(body, 0);
    forall i: nat | i < |es| ensures Lies(es[i], body) {
      assert TileAt(es, body, 0, i);
    }
  }

  /** The first element with the tag of a package, if any. */
  function Root(es: seq<Element>): Option<Element> {
    if es == [] then None else if es[0].tag == TAG_BPP then Some(es[0]) else Root(es[1..])
  }

  lemma {:induction false} RootIsElement(es: seq<Element>)
    ensures Root(es).Some? ==> Root(es).value in es && Root(es).value.tag == TAG_BPP
    ensures Root(es).None? ==> forall i :: 0 <= i < |es| ==> es[i].tag != TAG_BPP
  {
    if es != [] { RootIsElement(es[1..]); }
  }

  lemma {:induction false} RootLies(bpp: Bytes)
    ensures var r := Root(Elements(bpp, 0)); r.Some? ==> Lies(r.value, bpp) && r.value.tag == TAG_BPP
  {
    ChildrenLie(bpp);
    RootIsElement(Elements(bpp, 0));
    hide Elements, Root, Lies;
  }

  /** Where the value of the root starts in the package. */
  function ValueStart(bpp: Bytes, root: Element): (v: nat)
    requires Lies(root, bpp) && root.tag == TAG_BPP
    ensures v + |root.value| == root.end && bpp[v..root.end] == root.value
  {
    NestedHasHeader(root, bpp);
    var s := bpp[root.start..root.end];
    assert s[HeaderLength(s)..] == root.value;
    root.start + HeaderLength(s)
  }

  function Split(bpp: Bytes): Result<seq<Bytes>> {
    var root := Root(Elements(bpp, 0));
    if root.None? then Err("Invalid BoundProfilePackage")
    else
      RootLies(bpp);
      ChildrenLie(root.value.value);
      Ok(Chunks(bpp, ValueStart(bpp, root.value), root.value.value, Elements(root.value.value, 0)))
  }

  // ---------- what the chunks amount to ----------

  /** Nothing of this child is lost. */
  predicate Kept(e: Element) {
    Listed(e.tag) && (Nested(e.tag) ==> End(Elements(e.value, 0), 0) == |e.value|)
  }

  lemma {:induction false} BodySlice(bpp: Bytes, v: nat, body: Bytes, lo: nat, hi: nat)
    requires v + |body| <= |bpp| && bpp[v..v + |body|] == body && lo <= hi <= |body|
    ensures bpp[v + lo..v + hi] == body[lo..hi]
  {
    SliceSlice(bpp, v, v + |body|, lo, hi);
  }

  /** The body lies in the package from valStart on. */
  ghost predicate Placed(bpp: Bytes, valStart: nat, body: Bytes) {
    valStart + |body| <= |bpp| && bpp[valStart..valStart + |body|] == body
  }

  lemma {:induction false} PlainChildJoin(bpp: Bytes, valStart: nat, body: Bytes, e: Element)
    requires Placed(bpp, valStart, body) && Lies(e, body)
    requires e.tag != TAG_BPP_COMMAND && !Nested(e.tag)
    ensures Flatten(ChildChunks(bpp, valStart, body, e)) == if Listed(e.tag) then body[e.start..e.end] else []
  {
    hide *;
    SpanOf(e, body);
    InPackage(bpp, valStart, body, e.start, e.end);
    PlainChunks(bpp, valStart, body, e);
    FlattenOne(body[e.start..e.end]);
    FlattenNone();
  }

  lemma {:induction false} PlainChunks(bpp: Bytes, valStart: nat, body: Bytes, e: Element)
    requires valStart + |body| <= |bpp| && Lies(e, body) && e.tag != TAG_BPP_COMMAND && !Nested(e.tag)
    ensures ChildChunks(bpp, valStart, body, e)
         == if Listed(e.tag) then [bpp[valStart + e.start..valStart + e.end]] else []
  {
    hide Elements, Parts, HeaderLength;
  }

  lemma {:induction false} NestedChunks(bpp: Bytes, valStart: nat, body: Bytes, e: Element)
    requires valStart + |body| <= |bpp| && Lies(e, body) && Nested(e.tag)
    ensures var own := body[e.start..e.end];
            && |own| > (if own[0] % 32 == 31 then 2 else 1)
            && 2 <= HeaderLength(own) <= |own| && own == own[..HeaderLength(own)] + e.value
            && ChildChunks(bpp, valStart, body, e)
            == [bpp[valStart + e.start..valStart + e.start + HeaderLength(own)]] + Parts(e.value)
  {
    NestedHasHeader(e, body);
    HeaderAtLeastTwo(body[e.start..e.end]);
    TagClasses(e.tag);
    hide Elements, Parts, HeaderLength, Lies, Nested, Listed;
  }

  lemma {:induction false} HeaderAtLeastTwo(s: Bytes)
    requires s != [] && |s| > (if s[0] % 32 == 31 then 2 else 1)
    ensures HeaderLength(s) >= 2
  {}

  lemma {:induction false} NestedChildJoin(bpp: Bytes, valStart: nat, body: Bytes, e: Element)
    requires Placed(bpp, valStart, body) && Lies(e, body) && Nested(e.tag)
    ensures var n := End(Elements(e.value, 0), 0);
            && n <= |e.value| < e.end - e.start
            && Flatten(ChildChunks(bpp, valStart, body, e)) == body[e.start..e.end][..e.end - e.start - (|e.value| - n)]
  {
    hide *;
    SpanOf(e, body);
    InPackage(bpp, valStart, body, 0, 0);
    NestedChunks(bpp, valStart, body, e);
    var own := body[e.start..e.end];
    var h := HeaderLength(own);
    InPackage(bpp, valStart, body, e.start, e.start + h);
    SliceSlice(body, e.start, e.end, 0, h);
    PartsJoin(e.value);
    FlattenFront(own[..h], Parts(e.value));
    Front(own, h, e.value, End(Elements(e.value, 0), 0));
  }

  lemma {:induction false} Front(own: Bytes, h: nat, value: Bytes, n: nat)
    requires h <= |own| && own == own[..h] + value && n <= |value|
    ensures own[..h] + value[..n] == own[..|own| - (|value| - n)]
  {}

  lemma {:induction false} InPackage(bpp: Bytes, valStart: nat, body: Bytes, lo: nat, hi: nat)
    requires Placed(bpp, valStart, body) && lo <= hi <= |body|
    ensures valStart + |body| <= |bpp| && bpp[valStart + lo..valStart + hi] == body[lo..hi]
  {
    BodySlice(bpp, valStart, body, lo, hi);
  }

  /** The chunks of a child other than the command hold a front part of it, all of it if it is kept. */
  lemma {:induction false} ChildJoin(bpp: Bytes, valStart: nat, body: Bytes, e: Element)
    requires Placed(bpp, valStart, body) && Lies(e, body) && e.tag != TAG_BPP_COMMAND
    ensures var joined, own := Flatten(ChildChunks(bpp, valStart, body, e)), body[e.start..e.end];
            && joined <= own
            && (|joined| == |own| <==> Kept(e))
            && (joined == [] <==> !Listed(e.tag))
  {
    hide Elements, End, ChildChunks, Flatten;
    if Nested(e.tag) {
      NestedChildJoin(bpp, valStart, body, e);
    } else {
      PlainChildJoin(bpp, valStart, body, e);
    }
  }

  lemma {:induction false} ListedStart(e: Element, body: Bytes)
    requires Lies(e, body) && Listed(e.tag)
    ensures body[e.start] == e.tag
  {
    LiesIs(e, body);
    var s := body[e.start..e.end];
    ShortTag(s);
    HeadTag(s);
    TagStarts(s);
    if s[0] % 32 == 31 { LongTag(s); }
  }

  ghost predicate NoCommand(es: seq<Element>) {
    forall i :: 0 <= i < |es| ==> es[i].tag != TAG_BPP_COMMAND
  }

  lemma {:induction false} ChunksConcat(bpp: Bytes, valStart: nat, body: Bytes, a: seq<Element>, b: seq<Element>)
    requires valStart + |body| <= |bpp| && AllLie(a + b, body)
    ensures AllLie(a, body) && AllLie(b, body)
    ensures Flatten(Chunks(bpp, valStart, body, a + b))
         == Flatten(Chunks(bpp, valStart, body, a)) + Flatten(Chunks(bpp, valStart, body, b))
  {
    hide Lies, ChildChunks;
    assert forall i :: 0 <= i < |b| ==> b[i] == (a + b)[|a| + i];
    assert forall i :: 0 <= i < |a| ==> a[i] == (a + b)[i];
    if b == [] {
      assert a + b == a;
    } else {
      var init, last := b[..|b| - 1], b[|b| - 1];
      assert (a + b)[..|a + b| - 1] == a + init && (a + b)[|a + b| - 1] == last;
      ChunksConcat(bpp, valStart, body, a, init);
      var own := ChildChunks(bpp, valStart, body, last);
      FlattenConcat(Chunks(bpp, valStart, body, a + init), own);
      FlattenConcat(Chunks(bpp, valStart, body, init), own);
      Associates(Flatten(Chunks(bpp, valStart, body, a)), Flatten(Chunks(bpp, valStart, body, init)), Flatten(own));
    }
  }

  lemma {:induction false} ChunksStep(bpp: Bytes, valStart: nat, body: Bytes, es: seq<Element>)
    requires valStart + |body| <= |bpp| && AllLie(es, body) && es != []
    ensures var init, last := es[..|es| - 1], es[|es| - 1];
            && AllLie(init, body) && Lies(last, body)
            && Flatten(Chunks(bpp, valStart, body, es))
            == Flatten(Chunks(bpp, valStart, body, init)) + Flatten(ChildChunks(bpp, valStart, body, last))
  {
    hide Lies, ChildChunks;
    FlattenConcat(Chunks(bpp, valStart, body, es[..|es| - 1]), ChildChunks(bpp, valStart, body, es[|es| - 1]));
  }

  ghost predicate NoneListed(es: seq<Element>) {
    forall i :: 0 <= i < |es| ==> !Listed(es[i].tag)
  }

  lemma {:induction false} NoneListedBut(es: seq<Element>)
    requires es != []
    ensures NoneListed(es) <==> NoneListed(es[..|es| - 1]) && !Listed(es[|es| - 1].tag)
  {
    hide Listed;
  }

  lemma {:induction false} FrontByte(a: Bytes, b: Bytes)
    ensures a + b == [] <==> a == [] && b == []
    ensures a != [] ==> (a + b)[0] == a[0]
    ensures a == [] ==> a + b == b
  {}

  lemma {:induction false} ChildFront(bpp: Bytes, valStart: nat, body: Bytes, e: Element)
    requires Placed(bpp, valStart, body) && Lies(e, body) && e.tag != TAG_BPP_COMMAND
    ensures valStart + |body| <= |bpp|
    ensures var joined := Flatten(ChildChunks(bpp, valStart, body, e));
            && (joined == [] <==> !Listed(e.tag))
            && (joined != [] ==> joined[0] == e.tag)
  {
    hide *;
    InPackage(bpp, valStart, body, 0, 0);
    ChildJoin(bpp, valStart, body, e);
    SpanOf(e, body);
    if Listed(e.tag) { ListedStart(e, body); }
  }

  /** Chunks of children before the command, if any, start with the tag of a listed child. */
  lemma {:induction false} BeforeCommand(bpp: Bytes, valStart: nat, body: Bytes, es: seq<Element>)
    requires Placed(bpp, valStart, body) && AllLie(es, body) && NoCommand(es)
    ensures valStart + |body| <= |bpp|
    ensures var joined := Flatten(Chunks(bpp, valStart, body, es));
            && (joined == [] <==> NoneListed(es))
            && (joined != [] ==> Listed(joined[0]))
  {
    if es != [] {
      var init, last := es[..|es| - 1], es[|es| - 1];
      ChunksStep(bpp, valStart, body, es);
      hide *;
      NoCommandBut(es);
      NoneListedBut(es);
      BeforeCommand(bpp, valStart, body, init);
      ChildFront(bpp, valStart, body, last);
      FrontByte(Flatten(Chunks(bpp, valStart, body, init)), Flatten(ChildChunks(bpp, valStart, body, last)));
    }
  }

  lemma {:induction false} NoCommandBut(es: seq<Element>)
    requires NoCommand(es) && es != []
    ensures NoCommand(es[..|es| - 1]) && es[|es| - 1].tag != TAG_BPP_COMMAND
  {}

  lemma {:induction false} SpanOf(e: Element, body: Bytes)
    requires Lies(e, body)
    ensures e.start < e.end <= |body| && body[e.start..e.end][0] == body[e.start]
  {}

  ghost predicate AllKept(es: seq<Element>) {
    forall i :: 0 <= i < |es| ==> Kept(es[i])
  }

  lemma {:induction false} AllKeptBut(es: seq<Element>)
    requires es != []
    ensures AllKept(es) <==> AllKept(es[..|es| - 1]) && Kept(es[|es| - 1])
  {
    hide Kept;
  }

  /** Chunks of adjacent children are as long as the children exactly when all are kept; then they are the children. */
  lemma {:induction false} AfterCommand(bpp: Bytes, valStart: nat, body: Bytes, es: seq<Element>, base: nat)
    requires Placed(bpp, valStart, body) && AllLie(es, body) && NoCommand(es) && Adjacent(es, base) && base <= |body|
    ensures valStart + |body| <= |bpp| && base <= End(es, base) <= |body|
    ensures var joined := Flatten(Chunks(bpp, valStart, body, es));
            && |joined| <= End(es, base) - base
            && (|joined| == End(es, base) - base <==> AllKept(es))
            && (AllKept(es) ==> joined == body[base..End(es, base)])
  {
    if es != [] {
      var init, last := es[..|es| - 1], es[|es| - 1];
      ChunksStep(bpp, valStart, body, es);
      hide *;
      InPackage(bpp, valStart, body, 0, 0);
      NoCommandBut(es);
      AdjacentBut(es, base);
      AllKeptBut(es);
      AfterCommand(bpp, valStart, body, init, base);
      ChildJoin(bpp, valStart, body, last);
      SpanOf(last, body);
      if AllKept(es) {
        Adjoin(body, base, last.start, last.end);
      }
    }
  }

  lemma {:induction false} Adjoin(s: Bytes, a: nat, b: nat, c: nat)
    requires a <= b <= c <= |s|
    ensures s[a..b] + s[b..c] == s[a..c]
  {}

  function Children(bpp: Bytes): seq<Element> {
    var root := Root(Elements(bpp, 0));
    if root.None? then [] else Elements(root.value.value, 0)
  }

  /** The data start with a package root. */
  ghost predicate StartsPackage(bpp: Bytes) {
    Elements(bpp, 0) != [] && Elements(bpp, 0)[0].tag == TAG_BPP
  }

  /** Nothing stands behind the root, and its children leave out no byte of it. */
  ghost predicate Whole(bpp: Bytes)
    requires StartsPackage(bpp)
  {
    var root := Elements(bpp, 0)[0];
    root.end == |bpp| && End(Children(bpp), 0) == |root.value|
  }

  ghost predicate OneCommand(es: seq<Element>, k: nat) {
    k < |es| && forall i :: 0 <= i < |es| ==> (es[i].tag == TAG_BPP_COMMAND <==> i == k)
  }

  /** One whole package with one command. */
  ghost predicate Package(bpp: Bytes, k: nat) {
    StartsPackage(bpp) && Whole(bpp) && OneCommand(Children(bpp), k)
  }

  /** What the children have to satisfy for nothing to be lost or repeated. */
  ghost predicate Deliverable(es: seq<Element>, k: nat) {
    && k < |es|
    && (forall i :: 0 <= i < k ==> !Listed(es[i].tag))
    && (forall i :: k < i < |es| ==> Kept(es[i]))
  }

  /** The children after child k, as children of their own. */
  lemma {:induction false} Later(es: seq<Element>, k: nat)
    requires Adjacent(es, 0) && k < |es|
    ensures Adjacent(es[k + 1..], es[k].end) && End(es[k + 1..], es[k].end) == End(es, 0)
    ensures AllKept(es[k + 1..]) <==> forall i :: k < i < |es| ==> Kept(es[i])
  {
    hide Kept;
    var after, middle := es[k + 1..], es[k].end;
    forall i | 0 <= i < |after| ensures after[i].start == End(after[..i], middle) {
      assert after[i] == es[k + 1 + i];
      assert i > 0 ==> after[..i][i - 1] == es[..k + 1 + i][k + i];
    }
    assert forall i :: k < i < |es| ==> es[i] == after[i - k - 1];
  }

  lemma {:induction false} Sublists(es: seq<Element>, k: nat, body: Bytes)
    requires AllLie(es, body) && OneCommand(es, k)
    ensures var before, after := es[..k], es[k + 1..];
            && es == before + ([es[k]] + after)
            && AllLie(before + ([es[k]] + after), body) && AllLie([es[k]] + after, body)
            && AllLie(before, body) && AllLie(after, body) && AllLie([es[k]], body)
            && Lies(es[k], body) && NoCommand(before) && NoCommand(after)
  {
    hide Lies, Listed;
    var before, after := es[..k], es[k + 1..];
    assert es == before + ([es[k]] + after);
    assert forall i :: 0 <= i < |after| ==> after[i] == es[k + 1 + i];
    assert forall i :: 0 <= i < |before| ==> before[i] == es[i];
  }

  /** The chunks joined: some of what precedes the command, the data up to its end, some of what follows it. */
  lemma {:induction false} JoinIs(bpp: Bytes, valStart: nat, body: Bytes, es: seq<Element>, k: nat)
      returns (first: Bytes, last: Bytes)
    requires Placed(bpp, valStart, body) && AllLie(es, body) && Adjacent(es, 0) && OneCommand(es, k)
    ensures valStart + |body| <= |bpp| && k < |es| && es[k].end <= End(es, 0) <= |body|
    ensures Flatten(Chunks(bpp, valStart, body, es)) == first + (bpp[..valStart + es[k].end] + last)
    ensures (first == [] <==> NoneListed(es[..k])) && (first != [] ==> Listed(first[0]))
    ensures |last| <= End(es, 0) - es[k].end && (|last| == End(es, 0) - es[k].end <==> AllKept(es[k + 1..]))
    ensures AllKept(es[k + 1..]) ==> last == body[es[k].end..End(es, 0)]
  {
    hide *;
    InPackage(bpp, valStart, body, 0, 0);
    CommandAt(es, k);
    var before, after := es[..k], es[k + 1..];
    Sublists(es, k, body);
    Later(es, k);
    SpanOf(es[k], body);
    CommandJoin(bpp, valStart, body, es[k]);
    ChunksConcat(bpp, valStart, body, before, [es[k]] + after);
    ChunksConcat(bpp, valStart, body, [es[k]], after);
    BeforeCommand(bpp, valStart, body, before);
    AfterCommand(bpp, valStart, body, after, es[k].end);
    first, last := Flatten(Chunks(bpp, valStart, body, before)), Flatten(Chunks(bpp, valStart, body, after));
  }

  lemma {:induction false} JoinedWhole(bpp: Bytes, valStart: nat, body: Bytes, es: seq<Element>, k: nat)
    requires Placed(bpp, valStart, body) && AllLie(es, body) && Adjacent(es, 0)
    requires bpp != [] && !Listed(bpp[0]) && OneCommand(es, k)
    ensures valStart + |body| <= |bpp|
    ensures Flatten(Chunks(bpp, valStart, body, es)) == bpp
       <==> Deliverable(es, k) && End(es, 0) == |body| && valStart + |body| == |bpp|
  {
    hide *;
    var first, last := JoinIs(bpp, valStart, body, es, k);
    TailIs(bpp, valStart, body, es[k].end, End(es, 0), last, AllKept(es[k + 1..]));
    JoinedParts(bpp, first, valStart + es[k].end, last);
    DeliverableParts(es, k);
  }

  lemma {:induction false} DeliverableParts(es: seq<Element>, k: nat)
    requires k < |es|
    ensures Deliverable(es, k) <==> NoneListed(es[..k]) && AllKept(es[k + 1..])
  {
    hide Listed, Kept;
    assert forall i :: k < i < |es| ==> es[i] == es[k + 1..][i - k - 1];
    assert forall i :: 0 <= i < k ==> es[i] == es[..k][i];
  }

  lemma {:induction false} CommandAt(es: seq<Element>, k: nat)
    requires OneCommand(es, k)
    ensures k < |es| && es[k].tag == TAG_BPP_COMMAND
  {}

  /** What comes after the command is the rest of the data exactly if nothing of it is missing. */
  lemma {:induction false} TailIs(bpp: Bytes, valStart: nat, body: Bytes, middle: nat, end: nat, last: Bytes,
      kept: bool)
    requires Placed(bpp, valStart, body) && middle <= end <= |body| && |last| <= end - middle
    requires (|last| == end - middle <==> kept) && (kept ==> last == body[middle..end])
    ensures valStart + |body| <= |bpp|
    ensures last == bpp[valStart + middle..] <==> kept && end == |body| && valStart + |body| == |bpp|
  {
    InPackage(bpp, valStart, body, middle, |body|);
    if last == bpp[valStart + middle..] {
      assert |last| == |bpp| - (valStart + middle);
    }
  }

  lemma {:induction false} CommandJoin(bpp: Bytes, valStart: nat, body: Bytes, e: Element)
    requires valStart + |body| <= |bpp| && Lies(e, body) && e.tag == TAG_BPP_COMMAND
    ensures AllLie([e], body) && e.end <= |body|
    ensures Flatten(Chunks(bpp, valStart, body, [e])) == bpp[..valStart + e.end]
  {
    SpanOf(e, body);
    hide Lies, Elements;
    assert [e][..0] == [];
    ChunksStep(bpp, valStart, body, [e]);
    assert bpp[0..valStart + e.end] == bpp[..valStart + e.end];
    FlattenOne(bpp[..valStart + e.end]);
  }

  /** first + s[..m] + last is s exactly when first is empty and last is the rest, if first cannot start s. */
  lemma {:induction false} JoinedParts(s: Bytes, first: Bytes, m: nat, last: Bytes)
    requires m <= |s| && (first != [] ==> s != [] && first[0] != s[0])
    ensures first + (s[..m] + last) == s <==> first == [] && last == s[m..]
  {
    var whole := first + (s[..m] + last);
    if first != [] {
      assert whole[0] == first[0];
    } else {
      assert whole[m..] == last && s == s[..m] + s[m..];
    }
  }

  lemma {:induction false} RootByte(root: Element, bpp: Bytes)
    requires Lies(root, bpp) && root.tag == TAG_BPP
    ensures bpp[root.start] == 0xBF
  {
    LiesIs(root, bpp);
    var s := bpp[root.start..root.end];
    ShortTag(s);
    HeadTag(s);
    TagStarts(s);
    if s[0] % 32 == 31 { LongTag(s); }
    hide Elements, Complete, Head, TagLength, BigEndian;
  }

  lemma {:induction false} RootSpans(bpp: Bytes)
    requires StartsPackage(bpp)
    ensures var es := Elements(bpp, 0);
            && Root(es) == Some(es[0]) && Lies(es[0], bpp) && es[0].tag == TAG_BPP
            && es[0].start == 0 && es[0].end <= |bpp| && bpp != []
            && Children(bpp) == Elements(es[0].value, 0)
            && AllLie(Children(bpp), es[0].value) && Adjacent(Children(bpp), 0)
  {
    hide Elements, Lies;
    ChildrenLie(bpp);
    ElementsTile(bpp, 0);
    var es := Elements(bpp, 0);
    assert TileAt(es, bpp, 0, 0) && es[..0] == [];
    SpanOf(es[0], bpp);
    var body := es[0].value;
    ChildrenLie(body);
    AdjacentChildren(body);
  }

  /** What is split and how, in terms of the root. */
  lemma {:induction false} SplitOfRoot(bpp: Bytes) returns (valStart: nat, body: Bytes)
    requires StartsPackage(bpp)
    ensures Placed(bpp, valStart, body) && bpp != [] && !Listed(bpp[0]) && valStart + |body| <= |bpp|
    ensures AllLie(Children(bpp), body) && Adjacent(Children(bpp), 0)
    ensures Split(bpp) == Ok(Chunks(bpp, valStart, body, Children(bpp)))
    ensures Whole(bpp) <==> End(Children(bpp), 0) == |body| && valStart + |body| == |bpp|
  {
    hide Elements, Lies, Chunks, ValueStart, Adjacent, End, Nested;
    RootSpans(bpp);
    var root := Elements(bpp, 0)[0];
    RootByte(root, bpp);
    valStart, body := ValueStart(bpp, root), root.value;
  }

  /**
   * For data that start with a package root and hold one command: the chunks, joined, are the data if and only if
   * nothing stands behind the root, its children tile it, no listed child stands before the command, and everything
   * after it is listed and, where nested, made of complete elements.
   */
  lemma {:induction false} SplitKeepsPackage(bpp: Bytes, k: nat)
    requires StartsPackage(bpp) && OneCommand(Children(bpp), k)
    ensures Split(bpp).Ok?
    ensures Flatten(Split(bpp).value) == bpp <==> Whole(bpp) && Deliverable(Children(bpp), k)
  {
    hide *;
    var valStart, body := SplitOfRoot(bpp);
    JoinedWhole(bpp, valStart, body, Children(bpp), k);
  }

  /** Without a command the chunks are never the data. */
  lemma {:induction false} SplitNeedsCommand(bpp: Bytes)
    requires StartsPackage(bpp) && NoCommand(Children(bpp))
    ensures Split(bpp).Ok? && Flatten(Split(bpp).value) != bpp
  {
    hide *;
    var valStart, body := SplitOfRoot(bpp);
    BeforeCommand(bpp, valStart, body, Children(bpp));
  }

  // ---------- packages printed by a server ----------

  /** The children of a package: the command, then listed ones whose nested values are themselves printed fields. */
  ghost predicate ServerFields(fields: seq<Field>, inner: seq<seq<Field>>) {
    && WellFormed(fields) && fields != [] && |inner| == |fields|
    && fields[0].tag == TAG_BPP_COMMAND
    && (forall i :: 1 <= i < |fields| ==> Listed(fields[i].tag))
    && (forall i :: 1 <= i < |fields| && Nested(fields[i].tag) ==>
          WellFormed(inner[i]) && fields[i].value == EncodeAll(inner[i]))
  }

  lemma {:induction false} PackageIs(bpp: Bytes, k: nat)
    requires Package(bpp, k)
    ensures StartsPackage(bpp) && Whole(bpp) && OneCommand(Children(bpp), k)
  {}

  lemma {:induction false} TagIsWellFormed()
    ensures WellFormedTag(TAG_BPP)
  {}

  lemma {:induction false} RootOfOne(e: Element)
    requires e.tag == TAG_BPP
    ensures Root([e]) == Some(e)
  {}

  /** A printed root around tiled children, the first of them the command, is a package. */
  lemma {:induction false} PackageOfOne(bpp: Bytes, e: Element, children: seq<Element>)
    requires Elements(bpp, 0) == [e] && e.tag == TAG_BPP && e.end == |bpp|
    requires Elements(e.value, 0) == children && End(children, 0) == |e.value|
    requires children != [] && forall i :: 0 <= i < |children| ==> (children[i].tag == TAG_BPP_COMMAND <==> i == 0)
    ensures Package(bpp, 0) && Children(bpp) == children
  {
    hide Elements, End;
    RootOfOne(e);
  }

  lemma {:induction false} ServerChild(e: Element, inner: seq<Field>)
    requires Listed(e.tag) && (Nested(e.tag) ==> WellFormed(inner) && e.value == EncodeAll(inner))
    ensures Kept(e)
  {
    hide Elements, End, WellFormed, EncodeAll;
    if Nested(e.tag) { RoundTrip(inner, 0); }
  }

  /** The children of a package as printed: the command comes first, and only there. */
  ghost predicate CommandFirst(fields: seq<Field>) {
    && WellFormed(fields) && |EncodeAll(fields)| <= MAX_LENGTH && fields != []
    && forall i :: 0 <= i < |fields| ==> (fields[i].tag == TAG_BPP_COMMAND <==> i == 0)
  }

  lemma {:induction false} PrintedPackage(fields: seq<Field>)
    requires CommandFirst(fields)
    ensures var bpp := EncodeTlv(TAG_BPP, EncodeAll(fields));
            Package(bpp, 0) && Children(bpp) == Tlv.Placed(fields, 0)
  {
    hide Elements, EncodeTlv, EncodeAll, Tlv.Placed, End, WellFormed, Package, Children, Root;
    var body := EncodeAll(fields);
    var bpp := EncodeTlv(TAG_BPP, body);
    TagIsWellFormed();
    RoundTripExactly(TAG_BPP, body);
    RoundTrip(fields, 0);
    PlacedFields(fields, 0);
    PackageOfOne(bpp, Element(TAG_BPP, body, 0, |bpp|), Tlv.Placed(fields, 0));
  }

  lemma {:induction false} ServerIsCommandFirst(fields: seq<Field>, inner: seq<seq<Field>>)
    requires ServerFields(fields, inner) && |EncodeAll(fields)| <= MAX_LENGTH
    ensures CommandFirst(fields)
  {
    hide EncodeAll, WellFormed;
  }

  /** Splitting what the server printed keeps it byte for byte. */
  lemma {:induction false} ServerPackageSplits(fields: seq<Field>, inner: seq<seq<Field>>)
    requires ServerFields(fields, inner) && |EncodeAll(fields)| <= MAX_LENGTH
    ensures var bpp := EncodeTlv(TAG_BPP, EncodeAll(fields)); Split(bpp).Ok? && Flatten(Split(bpp).value) == bpp
  {
    hide EncodeTlv, EncodeAll, Tlv.Placed, WellFormed, Kept, Package, Split, Flatten, Children, CommandFirst,
        StartsPackage, Whole, OneCommand;
    ServerIsCommandFirst(fields, inner);
    PrintedPackage(fields);
    PlacedFields(fields, 0);
    var children := Tlv.Placed(fields, 0);
    forall i | 0 < i < |children| ensures Kept(children[i]) {
      ServerChild(children[i], inner[i]);
    }
    PackageIs(EncodeTlv(TAG_BPP, EncodeAll(fields)), 0);
    SplitKeepsPackage(EncodeTlv(TAG_BPP, EncodeAll(fields)), 0);
  }

  /** A child with any other tag makes the chunks differ from the package, whatever else it holds. */
  lemma {:induction false} UnlistedChildIsLost(fields: seq<Field>, i: nat)
    requires CommandFirst(fields) && 0 < i < |fields| && !Listed(fields[i].tag)
    ensures var bpp := EncodeTlv(TAG_BPP, EncodeAll(fields)); Split(bpp).Ok? && Flatten(Split(bpp).value) != bpp
  {
    hide EncodeTlv, EncodeAll, Tlv.Placed, Package, Split, Flatten, Children, Elements, CommandFirst,
        StartsPackage, Whole, OneCommand;
    PrintedPackage(fields);
    PlacedFields(fields, 0);
    assert !Kept(Tlv.Placed(fields, 0)[i]);
    PackageIs(EncodeTlv(TAG_BPP, EncodeAll(fields)), 0);
    SplitKeepsPackage(EncodeTlv(TAG_BPP, EncodeAll(fields)), 0);
  }

  /** An empty command followed by an empty child with tag A4. */
  const EXAMPLE_FIELDS: seq<Field> := [Field(TAG_BPP_COMMAND, []), Field(0xA4, [])]
  const EXAMPLE: Bytes := [0xBF, 0x36, 5, 0xBF, 0x23, 0, 0xA4, 0]

  lemma {:induction false} ExampleIsPrinted()
    ensures EncodeTlv(TAG_BPP, EncodeAll(EXAMPLE_FIELDS)) == EXAMPLE
  {
    assert EncodeTlv(TAG_BPP_COMMAND, []) == [0xBF, 0x23, 0];
    assert EncodeTlv(0xA4, []) == [0xA4, 0];
    assert EXAMPLE_FIELDS[1..] == [Field(0xA4, [])];
    assert EncodeAll(EXAMPLE_FIELDS[1..]) == [0xA4, 0];
    assert EncodeAll(EXAMPLE_FIELDS) == [0xBF, 0x23, 0] + [0xA4, 0];
  }

  /** The last two bytes of this package are not sent. */
  lemma {:induction false} ExampleIsNotKept()
    ensures Split(EXAMPLE).Ok? && Flatten(Split(EXAMPLE).value) != EXAMPLE
  {
    ExampleIsPrinted();
    hide Split, Flatten;
    UnlistedChildIsLost(EXAMPLE_FIELDS, 1);
  }

  // ---------- the splitter ----------

  lemma {:induction false} ChunksGrow(bpp: Bytes, valStart: nat, body: Bytes, es: seq<Element>, i: nat)
    requires valStart + |body| <= |bpp| && AllLie(es, body) && i < |es|
    ensures AllLie(es[..i], body) && AllLie(es[..i + 1], body) && Lies(es[i], body)
    ensures Chunks(bpp, valStart, body, es[..i + 1])
         == Chunks(bpp, valStart, body, es[..i]) + ChildChunks(bpp, valStart, body, es[i])
  {
    hide Lies, ChildChunks;
    assert es[..i + 1][..i] == es[..i];
  }

  lemma {:induction false} ChunksOfNone(bpp: Bytes, valStart: nat, body: Bytes, es: seq<Element>)
    requires valStart + |body| <= |bpp| && AllLie(es, body)
    ensures es[..|es|] == es && AllLie(es[..0], body)
    ensures Chunks(bpp, valStart, body, es[..0]) == []
  {}

  lemma {:induction false} CommandChunks(bpp: Bytes, valStart: nat, body: Bytes, e: Element)
    requires valStart + |body| <= |bpp| && Lies(e, body) && e.tag == TAG_BPP_COMMAND
    ensures ChildChunks(bpp, valStart, body, e) == [bpp[0..valStart + e.end]]
  {
    hide Elements;
  }

  /** The parts of a value, one chunk each. */
  method SplitNested(value: Bytes) returns (chunks: seq<Bytes>)
    ensures chunks == Parts(value)
  {
    hide Elements;
    chunks := [];
    StretchesLie(value);
    var es := IterTlv(value);
    for i := 0 to |es|
      invariant chunks == Stretches(value, es)[..i]
    {
      chunks := chunks + [value[es[i].start..es[i].end]];
    }
  }

  lemma {:induction false} TagClasses(tag: nat)
    ensures Nested(tag) <==> tag == 0xA1 || tag == 0xA3
    ensures Listed(tag) <==> tag == 0xA0 || tag == 0xA1 || tag == 0xA2 || tag == 0xA3
    ensures tag == TAG_BPP_COMMAND ==> !Listed(tag)
  {}

  /** Adds the chunks of one child. */
  method SplitChild(bpp: Bytes, valStart: nat, body: Bytes, e: Element, before: seq<Bytes>) returns (chunks: seq<Bytes>)
    requires valStart + |body| <= |bpp| && Lies(e, body)
    ensures chunks == before + ChildChunks(bpp, valStart, body, e)
  {
    hide *;
    SpanOf(e, body);
    TagClasses(e.tag);
    chunks := before;
    if e.tag == TAG_BPP_COMMAND {
      CommandChunks(bpp, valStart, body, e);
      chunks := chunks + [bpp[0..valStart + e.end]];
    } else if e.tag == 0xA0 || e.tag == 0xA2 {
      PlainChunks(bpp, valStart, body, e);
      chunks := chunks + [bpp[valStart + e.start..valStart + e.end]];
    } else if e.tag == 0xA1 || e.tag == 0xA3 {
      NestedChunks(bpp, valStart, body, e);
      var header := HeaderLength(body[e.start..e.end]);
      chunks := chunks + [bpp[valStart + e.start..valStart + e.start + header]];
      var parts := SplitNested(e.value);
      chunks := chunks + parts;
    } else {
      PlainChunks(bpp, valStart, body, e);
    }
  }

  /** Splits a package; fails exactly when it holds no root. */
  method SplitBpp(bpp: Bytes) returns (r: Result<seq<Bytes>>)
    ensures r == Split(bpp)
    ensures r.Err? <==> forall i :: 0 <= i < |Elements(bpp, 0)| ==> Elements(bpp, 0)[i].tag != TAG_BPP
  {
    hide Elements, Lies, AllLie, Chunks, HeaderLength;
    var es := IterTlv(bpp);
    RootIsElement(es);
    RootLies(bpp);
    var rootValue: Option<Bytes>, valStart := None, 0;
    assert es[0..] == es;
    for i := 0 to |es|
      invariant rootValue == None && Root(es[i..]) == Root(es)
    {
      assert es[i..][1..] == es[i + 1..];
      if es[i].tag == TAG_BPP {
        SpanOf(es[i], bpp);
        NestedHasHeader(es[i], bpp);
        rootValue, valStart := Some(es[i].value), es[i].start + HeaderLength(bpp[es[i].start..es[i].end]);
        break;
      }
    }
    if rootValue.None? {
      return Err("Invalid BoundProfilePackage");
    }
    var body := rootValue.value;
    assert valStart == ValueStart(bpp, Root(es).value) && body == Root(es).value.value;
    SpanOf(Root(es).value, bpp);
    hide Root, ValueStart, Split;
    ChildrenLie(body);
    var children := IterTlv(body);
    var chunks := [];
    ChunksOfNone(bpp, valStart, body, children);
    for i := 0 to |children|
      invariant AllLie(children[..i], body) && chunks == Chunks(bpp, valStart, body, children[..i])
    {
      ChunksGrow(bpp, valStart, body, children, i);
      chunks := SplitChild(bpp, valStart, body, children[i], chunks);
    }
    SplitIs(bpp);
    return Ok(chunks);
  }

  lemma {:induction false} SplitIs(bpp: Bytes)
    requires Root(Elements(bpp, 0)).Some?
    ensures var root := Root(Elements(bpp, 0)).value;
            && Lies(root, bpp) && root.tag == TAG_BPP
            && AllLie(Elements(root.value, 0), root.value)
            && ValueStart(bpp, root) + |root.value| <= |bpp|
            && Split(bpp) == Ok(Chunks(bpp, ValueStart(bpp, root), root.value, Elements(root.value, 0)))
  {
    RootLies(bpp);
    ChildrenLie(Root(Elements(bpp, 0)).value.value);
    hide Elements, Chunks, Root;
  }
}

/** Framing of CAN messages towards and from a panda: packing, checksums and reassembly of the byte stream. */
module PandaCan {
  import opened Arith
  import opened Octets

  type Word32 = n: int | 0 <= n < 0x1_0000_0000

  const USB_TX_SOFT_LIMIT: nat := 0x100
  const RECV_SIZE: nat := 0x4000
  const HEADER_SIZE: nat := 6
  const MAX_DATA: nat := 64
  const CAN_REJECTED_BUS_OFFSET: nat := 0xC0
  const CAN_RETURNED_BUS_OFFSET: nat := 0x80
  const PANDA_BUS_OFFSET: nat := 4
  const DLC_TO_LEN: seq<nat> := [0, 1, 2, 3, 4, 5, 6, 7, 8, 12, 16, 20, 24, 32, 48, 64]

  /** A message to send: source bus, address, data. */
  datatype CanData = CanData(src: Byte, address: Word32, dat: Bytes)

  /** A received frame; src carries the offsets of rejected and returned frames. */
  datatype CanFrame = CanFrame(address: nat, dat: Bytes, src: nat)

  // ---------- length codes ----------

  function DlcToLen(dlc: nat): (len: nat)
    requires dlc < 16
    ensures len <= MAX_DATA
  {
    DLC_TO_LEN[dlc]
  }

  function LenToDlc(len: nat): nat {
    if len <= 8 then len
    else if len <= 24 then 8 + (len - 8) / 4 + (if len % 4 != 0 then 1 else 0)
    else 11 + len / 16 + (if len % 16 != 0 then 1 else 0)
  }

  /** The lengths a frame can have. */
  predicate ValidLength(len: nat) {
    len <= MAX_DATA && LenToDlc(len % 256) < 16 && DlcToLen(LenToDlc(len % 256)) == len
  }

  /** The code is the index of the smallest table entry that holds the length. */
  lemma {:induction false} LenToDlcIsSmallest(len: nat)
    requires len <= MAX_DATA
    ensures LenToDlc(len) < 16 && len <= DlcToLen(LenToDlc(len))
    ensures forall i :: 0 <= i < LenToDlc(len) ==> DlcToLen(i) < len
  {
  }

  lemma {:induction false} ValidLengths(len: nat)
    ensures ValidLength(len) <==> len in DLC_TO_LEN
  {
    if len in DLC_TO_LEN {
      var i :| 0 <= i < |DLC_TO_LEN| && DLC_TO_LEN[i] == len;
      CodeOfLength(i);
    }
  }

  lemma {:induction false} CodeOfLength(dlc: nat)
    requires dlc < 16
    ensures DlcToLen(dlc) % 256 == DlcToLen(dlc) && LenToDlc(DlcToLen(dlc)) == dlc
  {}

  // ---------- header ----------

  /** Bits 4 to 7 of the first byte. */
  function DlcOf(b0: Byte): (dlc: nat)
    ensures dlc < 16
  {
    b0 / 16
  }

  /** Bits 1 to 3 of the first byte. */
  function BusOf(b0: Byte): nat { b0 / 2 % 8 }

  function FirstByte(bus: Byte, dlc: nat): Byte
    requires dlc < 16
  {
    dlc * 16 + bus % 8 * 2
  }

  lemma {:induction false} FirstByteReads(bus: Byte, dlc: nat)
    requires dlc < 16 && bus < 8
    ensures DlcOf(FirstByte(bus, dlc)) == dlc && BusOf(FirstByte(bus, dlc)) == bus
  {
    var b := FirstByte(bus, dlc);
    DivUnique(bus, 8, 0, bus);
    assert b == dlc * 16 + bus * 2;
    DivUnique(b, 16, dlc, bus * 2);
    DivUnique(b, 2, dlc * 8 + bus, 0);
    DivUnique(dlc * 8 + bus, 8, dlc, bus);
  }

  /** The 32 bits after the first byte, least significant byte first. */
  function Word(b1: Byte, b2: Byte, b3: Byte, b4: Byte): Word32 {
    b1 + 0x100 * (b2 + 0x100 * (b3 + 0x100 * b4))
  }

  function ByteAt(w: Word32, k: nat): Byte
    requires k < 4
  {
    if k == 0 then w % 0x100 else if k == 1 then w / 0x100 % 0x100
    else if k == 2 then w / 0x100 / 0x100 % 0x100 else w / 0x100 / 0x100 / 0x100
  }

  lemma {:induction false} WordReads(w: Word32)
    ensures Word(ByteAt(w, 0), ByteAt(w, 1), ByteAt(w, 2), ByteAt(w, 3)) == w
  {}

  /** Flags in the low three bits, then the low 29 bits of the address. */
  function AddressWord(address: Word32, extended: bool): Word32 {
    Cut29(address) * 8 + (if extended then 4 else 0)
  }

  function Cut29(address: Word32): Word32 { address % 0x2000_0000 }

  function AddressOf(w: Word32): Word32 { w / 8 }

  predicate Rejected(w: Word32) { w % 2 == 1 }

  predicate Returned(w: Word32) { w / 2 % 2 == 1 }

  lemma {:induction false} AddressReads(address: Word32, extended: bool)
    ensures AddressOf(AddressWord(address, extended)) == Cut29(address)
    ensures !Rejected(AddressWord(address, extended)) && !Returned(AddressWord(address, extended))
  {}

  // ---------- checksum ----------

  /** Bitwise exclusive or. */
  function Xor(a: nat, b: nat): nat {
    if a == 0 && b == 0 then 0 else 2 * Xor(a / 2, b / 2) + (if a % 2 != b % 2 then 1 else 0)
  }

  lemma {:induction false} XorBound(a: nat, b: nat, n: nat)
    requires a < Pow2(n) && b < Pow2(n)
    ensures Xor(a, b) < Pow2(n)
  {
    if n > 0 {
      XorBound(a / 2, b / 2, n - 1);
    }
  }

  lemma {:induction false} XorAssoc(a: nat, b: nat, c: nat)
    ensures Xor(Xor(a, b), c) == Xor(a, Xor(b, c))
    decreases a + b + c
  {
    if a != 0 || b != 0 || c != 0 {
      XorAssoc(a / 2, b / 2, c / 2);
      assert Xor(a, b) / 2 == Xor(a / 2, b / 2) && Xor(b, c) / 2 == Xor(b / 2, c / 2);
    }
  }

  lemma {:induction false} XorComm(a: nat, b: nat)
    ensures Xor(a, b) == Xor(b, a)
    decreases a + b
  {
    if a != 0 || b != 0 {
      XorComm(a / 2, b / 2);
    }
  }

  lemma {:induction false} XorSelf(a: nat)
    ensures Xor(a, a) == 0 && Xor(a, 0) == a
  {
    if a != 0 {
      XorSelf(a / 2);
    }
  }

  function Checksum(data: Bytes): Byte {
    if |data| == 0 then 0
    else
      XorBound(Checksum(data[..|data| - 1]), data[|data| - 1], 8);
      assert Pow2(8) == 256;
      Xor(Checksum(data[..|data| - 1]), data[|data| - 1])
  }

  lemma {:induction false} ChecksumConcat(a: Bytes, b: Bytes)
    ensures Checksum(a + b) == Xor(Checksum(a), Checksum(b))
  {
    hide Xor;
    if |b| == 0 {
      XorSelf(Checksum(a));
      assert a + b == a;
    } else {
      var m := |b| - 1;
      ChecksumConcat(a, b[..m]);
      assert (a + b)[..|a| + m] == a + b[..m];
      XorAssoc(Checksum(a), Checksum(b[..m]), b[m]);
    }
  }

  lemma {:induction false} ChecksumOne(b: Byte)
    ensures Checksum([b]) == b
  {
    hide Xor;
    assert Checksum([]) == 0;
    XorComm(0, b);
    XorSelf(b);
  }

  // ---------- frames ----------

  function Header(m: CanData, dlc: nat, checksum: Byte): (header: Bytes)
    requires dlc < 16
    ensures |header| == HEADER_SIZE
  {
    var w := AddressWord(m.address, m.address >= 0x800);
    [FirstByte(m.src, dlc), ByteAt(w, 0), ByteAt(w, 1), ByteAt(w, 2), ByteAt(w, 3), checksum]
  }

  /** The bytes of one message: header with checksum, then data. */
  function Frame(m: CanData): (frame: Bytes)
    requires ValidLength(|m.dat|)
    ensures |frame| == HEADER_SIZE + |m.dat| <= HEADER_SIZE + MAX_DATA
  {
    var dlc := LenToDlc(|m.dat| % 256);
    Header(m, dlc, Checksum(Header(m, dlc, 0) + m.dat)) + m.dat
  }

  /** Every frame XORs to zero. */
  lemma {:induction false} FrameChecksum(m: CanData)
    requires ValidLength(|m.dat|)
    ensures Checksum(Frame(m)) == 0
  {
    var dlc := LenToDlc(|m.dat| % 256);
    var c := Checksum(Header(m, dlc, 0) + m.dat);
    var five := Header(m, dlc, 0)[..5];
    hide Checksum, Xor, LenToDlc, FirstByte, ByteAt, AddressWord;
    assert Header(m, dlc, 0) == five + [0] && Header(m, dlc, c) == five + [c];
    ChecksumConcat(five + [0], m.dat);
    ChecksumConcat(five + [c], m.dat);
    ChecksumConcat(five, [0]);
    ChecksumConcat(five, [c]);
    ChecksumOne(0);
    ChecksumOne(c);
    ChecksumCancels(Checksum(five), c, Checksum(m.dat));
  }

  lemma {:induction false} ChecksumCancels(five: nat, c: nat, dat: nat)
    requires c == Xor(Xor(five, 0), dat)
    ensures Xor(Xor(five, c), dat) == 0
  {
    hide Xor;
    XorSelf(five);
    XorSelf(dat);
    XorAssoc(five, five, dat);
    XorComm(0, dat);
    XorSelf(0);
    XorAssoc(Xor(five, five), dat, dat);
  }

  function FrameLength(b0: Byte): (n: nat)
    ensures HEADER_SIZE <= n <= HEADER_SIZE + MAX_DATA
  {
    HEADER_SIZE + DlcToLen(DlcOf(b0))
  }

  function ReadFrame(frame: Bytes): CanFrame
    requires |frame| >= HEADER_SIZE
  {
    var w := Word(frame[1], frame[2], frame[3], frame[4]);
    var rejected := if Rejected(w) then CAN_REJECTED_BUS_OFFSET else 0;
    var returned := if Returned(w) then CAN_RETURNED_BUS_OFFSET else 0;
    CanFrame(AddressOf(w), frame[HEADER_SIZE..], BusOf(frame[0]) + rejected + returned)
  }

  /** The frame a receiver sees for a message: address cut to 29 bits, no flags. */
  function Sent(m: CanData): CanFrame { CanFrame(Cut29(m.address), m.dat, m.src) }

  lemma {:induction false} FrameBytes(m: CanData)
    requires ValidLength(|m.dat|)
    ensures var frame, w := Frame(m), AddressWord(m.address, m.address >= 0x800);
            && frame[0] == FirstByte(m.src, LenToDlc(|m.dat| % 256))
            && frame[1] == ByteAt(w, 0) && frame[2] == ByteAt(w, 1) && frame[3] == ByteAt(w, 2)
                && frame[4] == ByteAt(w, 3)
            && frame[HEADER_SIZE..] == m.dat
  {
    hide Checksum, LenToDlc, FirstByte, ByteAt, AddressWord;
  }

  lemma {:induction false} ReadFrameIs(frame: Bytes, w: Word32)
    requires |frame| >= HEADER_SIZE && w == Word(frame[1], frame[2], frame[3], frame[4]) && !Rejected(w) && !Returned(w)
    ensures ReadFrame(frame) == CanFrame(AddressOf(w), frame[HEADER_SIZE..], BusOf(frame[0]))
  {
    hide Word, BusOf, AddressOf, Rejected, Returned;
  }

  /** A packed frame announces its own length and reads back as the message. */
  lemma {:induction false} FrameReadsBack(m: CanData)
    requires ValidLength(|m.dat|) && m.src < 4
    ensures FrameLength(Frame(m)[0]) == |Frame(m)|
    ensures ReadFrame(Frame(m)) == Sent(m)
  {
    var dlc, w := LenToDlc(|m.dat| % 256), AddressWord(m.address, m.address >= 0x800);
    FrameBytes(m);
    FirstByteReads(m.src, dlc);
    WordReads(w);
    AddressReads(m.address, m.address >= 0x800);
    hide Checksum, Xor, LenToDlc, FirstByte, ByteAt, AddressWord, Word, Frame, DlcOf, BusOf, DlcToLen, Header,
         AddressOf, Rejected, Returned, Cut29;
    ReadFrameIs(Frame(m), w);
  }

  // ---------- the receiver ----------

  /** What a buffer yields: complete frames, the unread rest, and whether every checksum was right. */
  datatype Parsed = Parsed(frames: seq<CanFrame>, rest: Bytes, ok: bool)

  predicate HasFrame(data: Bytes) {
    |data| >= HEADER_SIZE && FrameLength(data[0]) <= |data|
  }

  /** Reads frames off the front; a wrong checksum discards the whole buffer. */
  function Parse(data: Bytes): Parsed
    decreases |data|
  {
    if !HasFrame(data) then Parsed([], data, true)
    else
      var n := FrameLength(data[0]);
      if Checksum(data[..n]) != 0 then Parsed([], [], false)
      else
        var p := Parse(data[n..]);
        p.(frames := [ReadFrame(data[..n])] + p.frames)
  }

  lemma {:induction false} ParseStep(data: Bytes)
    ensures !HasFrame(data) ==> Parse(data) == Parsed([], data, true)
    ensures HasFrame(data) ==>
              var n := FrameLength(data[0]);
              Parse(data) == if Checksum(data[..n]) != 0 then Parsed([], [], false)
                             else Parsed([ReadFrame(data[..n])] + Parse(data[n..]).frames, Parse(data[n..]).rest,
                                 Parse(data[n..]).ok)
  {
    hide Checksum, ReadFrame, FrameLength;
  }

  lemma {:induction false} FrontOf(a: Bytes, b: Bytes)
    requires HasFrame(a)
    ensures var n := FrameLength(a[0]);
            HasFrame(a + b) && (a + b)[0] == a[0] && (a + b)[..n] == a[..n] && (a + b)[n..] == a[n..] + b
  {
    hide FrameLength;
  }

  /** Reading in two portions: the second continues from what the first left over. */
  lemma {:induction false} ParseContinues(a: Bytes, b: Bytes)
    requires Parse(a).ok
    ensures var q := Parse(Parse(a).rest + b);
            Parse(a + b) == Parsed(Parse(a).frames + q.frames, q.rest, q.ok)
    decreases |a|
  {
    hide *;
    ParseStep(a);
    if HasFrame(a) {
      FrontOf(a, b);
      ParseStep(a + b);
      FrameShortens(a);
      var tail := a[FrameLength(a[0])..];
      ParseContinues(tail, b);
      var q := Parse(Parse(tail).rest + b);
      assert Parse(a + b).frames == [ReadFrame(a[..FrameLength(a[0])])] + (Parse(tail).frames + q.frames);
    }
  }

  lemma {:induction false} FrameShortens(data: Bytes)
    requires HasFrame(data)
    ensures 0 < FrameLength(data[0]) <= |data|
  {}

  /** A wrong checksum in the first portion stays a wrong checksum, with the same frames before it. */
  lemma {:induction false} ParseFails(a: Bytes, b: Bytes)
    requires !Parse(a).ok
    ensures Parse(a + b) == Parse(a)
    decreases |a|
  {
    ParseStep(a);
    FrontOf(a, b);
    ParseStep(a + b);
    var n := FrameLength(a[0]);
    hide *;
    if Checksum(a[..n]) == 0 {
      ParseFails(a[n..], b);
    }
  }

  /** The unread rest is a proper part of one frame, the very end of the data. */
  lemma {:induction false} RestIsShort(data: Bytes)
    ensures |Parse(data).rest| < HEADER_SIZE + MAX_DATA
    ensures Parse(data).ok ==>
              && !HasFrame(Parse(data).rest)
              && |Parse(data).rest| <= |data| && Parse(data).rest == data[|data| - |Parse(data).rest|..]
    decreases |data|
  {
    hide Checksum, ReadFrame, FrameLength, Parse, HasFrame;
    ParseStep(data);
    if HasFrame(data) {
      FrameShortens(data);
      var n := FrameLength(data[0]);
      RestIsShort(data[n..]);
      var rest := Parse(data[n..]).rest;
      if |rest| <= |data| - n {
        assert data[n..][|data| - n - |rest|..] == data[|data| - |rest|..];
      }
    } else {
      NoFrameIsShort(data);
    }
  }

  lemma {:induction false} NoFrameIsShort(data: Bytes)
    requires !HasFrame(data)
    ensures |data| < HEADER_SIZE + MAX_DATA
  {}

  /** What one read brings: some bytes, or a failure; afterwards the connection is healthy or not. */
  datatype Read = Read(incoming: Bytes, failed: bool, healthy: bool)

  predicate Delivers(r: Read) { r.healthy && !r.failed && |r.incoming| > 0 }

  /** One read: what it delivers is parsed after the rest of the read before; otherwise nothing changes. */
  function Receive(pending: Bytes, r: Read): Parsed {
    if Delivers(r) then Parse(pending + r.incoming) else Parsed([], pending, r.healthy)
  }

  /** All frames received, the bytes kept for the next read, and how often a checksum failed. */
  datatype Reception = Reception(frames: seq<CanFrame>, pending: Bytes, resets: nat)

  function ReceiveAll(rs: seq<Read>): Reception {
    if rs == [] then Reception([], [], 0)
    else
      var before, r := ReceiveAll(rs[..|rs| - 1]), rs[|rs| - 1];
      var p := Receive(before.pending, r);
      Reception(before.frames + p.frames, p.rest, before.resets + if r.healthy && !p.ok then 1 else 0)
  }

  /** The byte stream as delivered. */
  function Arrived(rs: seq<Read>): Bytes {
    if rs == [] then []
    else
      Arrived(rs[..|rs| - 1]) + if Delivers(rs[|rs| - 1]) then rs[|rs| - 1].incoming else []
  }

  /** What a read adds to the stream: its bytes, unless it failed or left the connection unhealthy. */
  function Brought(rs: seq<Read>): seq<Bytes> {
    seq(|rs|, i requires 0 <= i < |rs| => if rs[i].failed || !rs[i].healthy then [] else rs[i].incoming)
  }

  /** The stream is all that successful reads bring, in order; other reads change nothing and are refused only if
      the connection is unhealthy. */
  lemma {:induction false} SuccessfulReadsArrive(rs: seq<Read>, pending: Bytes, r: Read)
    ensures Arrived(rs) == Flatten(Brought(rs))
    ensures r.failed || !r.healthy ==> Receive(pending, r) == Parsed([], pending, r.healthy)
  {
    if rs != [] {
      var init, last := rs[..|rs| - 1], rs[|rs| - 1];
      SuccessfulReadsArrive(init, pending, r);
      assert Brought(rs) == Brought(init) + [if last.failed || !last.healthy then [] else last.incoming];
      FlattenAppend(Brought(init), if last.failed || !last.healthy then [] else last.incoming);
    }
  }

  /** The stream in pieces: each broken one ends with the read in which its first wrong checksum was met. */
  datatype Streams = Streams(broken: seq<Bytes>, open: Bytes)

  function StreamsOf(rs: seq<Read>): Streams {
    if rs == [] then Streams([], [])
    else
      var before, r := StreamsOf(rs[..|rs| - 1]), rs[|rs| - 1];
      if !Delivers(r) then before
      else
        var open := before.open + r.incoming;
        if Parse(open).ok then Streams(before.broken, open) else Streams(before.broken + [open], [])
  }

  function FramesIn(streams: seq<Bytes>): seq<CanFrame> {
    if streams == [] then [] else FramesIn(streams[..|streams| - 1]) + Parse(streams[|streams| - 1]).frames
  }

  lemma {:induction false} FramesInMore(streams: seq<Bytes>, last: Bytes)
    ensures FramesIn(streams + [last]) == FramesIn(streams) + Parse(last).frames
  {
    assert (streams + [last])[..|streams|] == streams;
    hide Parse;
  }

  /** One more read after the pieces so far. */
  lemma {:induction false} ReceiveContinues(open: Bytes, r: Read)
    requires Parse(open).ok && Delivers(r)
    ensures var p, q := Receive(Parse(open).rest, r), Parse(open + r.incoming);
            p.ok == q.ok && p.rest == q.rest && Parse(open).frames + p.frames == q.frames
    ensures !Parse(open + r.incoming).ok ==> Parse(open + r.incoming).rest == []
  {
    ParseContinues(open, r.incoming);
    FailureKeepsNothing(open + r.incoming);
    hide Parse;
  }

  lemma {:induction false} FailureKeepsNothing(data: Bytes)
    ensures !Parse(data).ok ==> Parse(data).rest == []
    decreases |data|
  {
    hide Checksum, ReadFrame, FrameLength, Parse, HasFrame;
    ParseStep(data);
    if HasFrame(data) {
      FrameShortens(data);
      FailureKeepsNothing(data[FrameLength(data[0])..]);
    }
  }

  /**
   * Over any sequence of reads, failed, unhealthy or with wrong checksums, the frames are those of the pieces of the
   * stream, each parsed as a whole, and what is kept is the rest of the last piece.
   */
  lemma {:induction false} ReceptionFollowsStreams(rs: seq<Read>)
    ensures var s := StreamsOf(rs);
            && Parse(s.open).ok
            && ReceiveAll(rs) ==
               Reception(FramesIn(s.broken) + Parse(s.open).frames, Parse(s.open).rest, |s.broken|)
  {
    hide Parse;
    ParseNothing();
    if rs != [] {
      var init, r := rs[..|rs| - 1], rs[|rs| - 1];
      ReceptionFollowsStreams(init);
      hide Receive, Delivers, FramesIn;
      var s := StreamsOf(init);
      if Delivers(r) {
        ReceiveContinues(s.open, r);
        FramesInMore(s.broken, s.open + r.incoming);
        assert (FramesIn(s.broken) + Parse(s.open).frames) + Receive(Parse(s.open).rest, r).frames
            == FramesIn(s.broken) + Parse(s.open + r.incoming).frames;
      } else {
        NothingDelivered(Parse(s.open).rest, r);
      }
    }
  }

  lemma {:induction false} NothingDelivered(pending: Bytes, r: Read)
    requires !Delivers(r)
    ensures Receive(pending, r) == Parsed([], pending, r.healthy)
  {}

  /** Whether the stream broke does not depend on how it was cut, nor does what came before the first wrong checksum. */
  lemma {:induction false} BreaksWithStream(rs: seq<Read>)
    ensures var s := StreamsOf(rs);
            if Parse(Arrived(rs)).ok then s == Streams([], Arrived(rs))
            else s.broken != [] && Parse(s.broken[0]) == Parse(Arrived(rs))
  {
    hide Parse;
    ParseNothing();
    if rs != [] {
      var init, r := rs[..|rs| - 1], rs[|rs| - 1];
      BreaksWithStream(init);
      if Delivers(r) {
        if !Parse(Arrived(init)).ok { ParseFails(Arrived(init), r.incoming); }
      } else {
        assert Arrived(rs) == Arrived(init);
      }
    }
  }

  lemma {:induction false} FramesInFirst(streams: seq<Bytes>)
    requires streams != []
    ensures Parse(streams[0]).frames <= FramesIn(streams)
  {
    hide Parse;
    if |streams| > 1 {
      FramesInFirst(streams[..|streams| - 1]);
    } else {
      assert streams[..0] == [];
      assert FramesIn([]) == [];
    }
  }

  /**
   * However the stream is cut into reads, and whatever failed and unhealthy reads come between them, frames and rest
   * are those of the whole stream if its checksums are right; otherwise the frames before the first wrong one come
   * first.
   */
  lemma {:induction false} ReceptionIgnoresCuts(rs: seq<Read>)
    ensures var p, r := Parse(Arrived(rs)), ReceiveAll(rs);
            if p.ok then r == Reception(p.frames, p.rest, 0) else r.resets > 0 && p.frames <= r.frames
  {
    hide *;
    ReceptionFollowsStreams(rs);
    BreaksWithStream(rs);
    var s := StreamsOf(rs);
    if Parse(Arrived(rs)).ok {
      NoFrames();
    } else {
      FramesInFirst(s.broken);
    }
  }

  lemma {:induction false} NoFrames()
    ensures FramesIn([]) == []
  {}

  /** When nothing is pending, as after a wrong checksum, reception goes on as if it had just begun. */
  lemma {:induction false} ReceptionRecovers(p: seq<Read>, q: seq<Read>)
    requires ReceiveAll(p).pending == []
    ensures var a, b := ReceiveAll(p), ReceiveAll(q);
            ReceiveAll(p + q) == Reception(a.frames + b.frames, b.pending, a.resets + b.resets)
  {
    hide Receive;
    if q == [] {
      assert p + q == p;
    } else {
      var n := |q| - 1;
      assert (p + q)[..|p| + n] == p + q[..n];
      ReceptionRecovers(p, q[..n]);
    }
  }

  lemma {:induction false} ParseNothing()
    ensures Parse([]) == Parsed([], [], true)
  {}

  // ---------- the sender ----------

  /** What the source asserts about every message meant for this panda. */
  predicate Sendable(list: seq<CanData>) {
    forall i :: 0 <= i < |list| && list[i].src < PANDA_BUS_OFFSET ==> ValidLength(|list[i].dat|)
  }

  predicate Mine(m: CanData) { m.src < PANDA_BUS_OFFSET }

  /** The buffers handed on so far, and the bytes still being collected. */
  datatype Outbox = Outbox(written: seq<Bytes>, pending: Bytes)

  function Collect(list: seq<CanData>): Outbox
    requires Sendable(list)
  {
    if |list| == 0 then Outbox([], [])
    else
      var before, m := Collect(list[..|list| - 1]), list[|list| - 1];
      if Mine(m) then Add(before, Frame(m)) else before
  }

  /** One more frame; a buffer at the limit is handed on. */
  function Add(o: Outbox, frame: Bytes): Outbox {
    var pending := o.pending + frame;
    if |pending| >= USB_TX_SOFT_LIMIT then Outbox(o.written + [pending], []) else Outbox(o.written, pending)
  }

  /** All buffers of a call, the last partial one included. */
  function Buffers(list: seq<CanData>): seq<Bytes>
    requires Sendable(list)
  {
    var o := Collect(list);
    if |o.pending| > 0 then o.written + [o.pending] else o.written
  }

  /** The messages meant for this panda, in order. */
  function Addressed(list: seq<CanData>): (own: seq<CanData>)
    ensures |own| <= |list|
  {
    if |list| == 0 then []
    else
      var rest, m := Addressed(list[..|list| - 1]), list[|list| - 1];
      if m.src < 4 then rest + [m] else rest
  }

  function FramesOf(list: seq<CanData>): seq<CanFrame> {
    seq(|list|, i requires 0 <= i < |list| => Sent(list[i]))
  }

  /** The frames of a list of own messages, one after the other. */
  function Packed(list: seq<CanData>): Bytes
    requires Sendable(list)
  {
    if |list| == 0 then []
    else
      var before, m := Packed(list[..|list| - 1]), list[|list| - 1];
      if Mine(m) then before + Frame(m) else before
  }

  lemma {:induction false} CollectStep(list: seq<CanData>, m: CanData)
    requires Sendable(list) && (Mine(m) ==> ValidLength(|m.dat|))
    ensures Sendable(list + [m])
    ensures Packed(list + [m]) == if Mine(m) then Packed(list) + Frame(m) else Packed(list)
    ensures Addressed(list + [m]) == if Mine(m) then Addressed(list) + [m] else Addressed(list)
    ensures Collect(list + [m]) == if Mine(m) then Add(Collect(list), Frame(m)) else Collect(list)
  {
    hide Frame, Add;
    assert (list + [m])[..|list|] == list;
  }

  /** A buffer that is a whole number of frames with right checksums. */
  predicate Whole(buffer: Bytes) { Parse(buffer).ok && Parse(buffer).rest == [] }

  lemma {:induction false} ParseFrame(m: CanData)
    requires Mine(m) && ValidLength(|m.dat|)
    ensures Parse(Frame(m)) == Parsed([Sent(m)], [], true)
  {
    hide Frame, Checksum, FrameLength, ReadFrame, Parse, Sent;
    FrameReadsBack(m);
    FrameChecksum(m);
    var frame := Frame(m);
    assert frame[..|frame|] == frame && frame[|frame|..] == [];
    ParseStep(frame);
    ParseNothing();
  }

  lemma {:induction false} WholeGrows(buffer: Bytes, m: CanData)
    requires Whole(buffer) && Mine(m) && ValidLength(|m.dat|)
    ensures Whole(buffer + Frame(m))
    ensures Parse(buffer + Frame(m)).frames == Parse(buffer).frames + [Sent(m)]
  {
    hide Frame, Parse, Sent, ValidLength;
    ParseContinues(buffer, Frame(m));
    assert [] + Frame(m) == Frame(m);
    ParseFrame(m);
  }

  lemma {:induction false} FramesOfAppend(list: seq<CanData>, m: CanData)
    ensures FramesOf(list + [m]) == FramesOf(list) + [Sent(m)]
  {
    hide Sent;
  }

  lemma {:induction false} EmptyLists()
    ensures Packed([]) == [] && Addressed([]) == [] && FramesOf([]) == [] && Collect([]) == Outbox([], [])
        && Flatten([]) == []
  {}

  /** What is packed reads back as the messages meant for this panda, in order. */
  lemma {:induction false} PackedParses(list: seq<CanData>)
    requires Sendable(list)
    ensures Parse(Packed(list)) == Parsed(FramesOf(Addressed(list)), [], true)
  {
    hide Parse, Frame, Sent, Packed, Addressed, FramesOf;
    if |list| == 0 {
      ParseNothing();
      EmptyLists();
      assert list == [];
    } else {
      var init, m := list[..|list| - 1], list[|list| - 1];
      assert list == init + [m];
      PackedParses(init);
      CollectStep(init, m);
      if Mine(m) {
        WholeGrows(Packed(init), m);
        FramesOfAppend(Addressed(init), m);
      }
    }
  }

  /** No byte is lost or added, and every buffer is whole, at least 256 and at most 325 bytes long. */
  ghost predicate Keeps(o: Outbox, packed: Bytes) {
    && Flatten(o.written) + o.pending == packed
    && |o.pending| < USB_TX_SOFT_LIMIT && Whole(o.pending)
    && forall i :: 0 <= i < |o.written| ==>
         USB_TX_SOFT_LIMIT <= |o.written[i]| < USB_TX_SOFT_LIMIT + HEADER_SIZE + MAX_DATA && Whole(o.written[i])
  }

  lemma {:induction false} EmptyIsWhole()
    ensures Whole([])
  {
    ParseNothing();
  }

  lemma {:induction false} KeepsStep(o: Outbox, packed: Bytes, m: CanData)
    requires Keeps(o, packed) && Mine(m) && ValidLength(|m.dat|)
    ensures Keeps(Add(o, Frame(m)), packed + Frame(m))
  {
    hide Frame, Parse, Flatten, Sent, ValidLength, Whole;
    EmptyIsWhole();
    WholeGrows(o.pending, m);
    FlattenAppend(o.written, o.pending + Frame(m));
    assert Flatten(o.written) + (o.pending + Frame(m)) == packed + Frame(m);
  }

  lemma {:induction false} CollectKeeps(list: seq<CanData>)
    requires Sendable(list)
    ensures Keeps(Collect(list), Packed(list))
  {
    if |list| == 0 {
      ParseNothing();
      EmptyLists();
      assert list == [];
      hide Parse, Packed, Collect, Flatten;
    } else {
      hide Frame, Packed, Addressed, Collect, Keeps, Add;
      var init, m := list[..|list| - 1], list[|list| - 1];
      assert list == init + [m];
      CollectKeeps(init);
      CollectStep(init, m);
      if Mine(m) {
        KeepsStep(Collect(init), Packed(init), m);
      }
    }
  }

  /** Every buffer handed to the transport is a whole number of frames of at most 325 bytes, and of at least 256 if
      another one follows; together they are the packed list. */
  lemma {:induction false} BuffersAreWhole(list: seq<CanData>)
    requires Sendable(list)
    ensures Flatten(Buffers(list)) == Packed(list)
    ensures forall i :: 0 <= i < |Buffers(list)| ==>
              (if i < |Buffers(list)| - 1 then 256 else 1) <= |Buffers(list)[i]| <= 325 && Whole(Buffers(list)[i])
  {
    hide Collect, Packed, Flatten, Whole;
    CollectKeeps(list);
    FlattenAppend(Collect(list).written, Collect(list).pending);
  }

  /** However the transport cuts the bytes, and whichever reads fail, the receiver gets exactly the messages sent. */
  lemma {:induction false} Delivery(list: seq<CanData>, rs: seq<Read>)
    requires Sendable(list) && Arrived(rs) == Flatten(Buffers(list))
    ensures ReceiveAll(rs) == Reception(FramesOf(Addressed(list)), [], 0)
  {
    hide *;
    ReceptionIgnoresCuts(rs);
    BuffersAreWhole(list);
    PackedParses(list);
  }

  // ---------- the format on the wire ----------

  /** One member of a packed structure: its value, and the bits it takes. */
  datatype BitField = BitField(value: nat, width: nat)

  /** The number a packed structure stands for; the first member takes the lowest bits. */
  function PackedValue(fields: seq<BitField>): nat {
    if fields == [] then 0
    else fields[0].value % Pow2(fields[0].width) + Pow2(fields[0].width) * PackedValue(fields[1..])
  }

  /** The bytes of a number in memory, lowest first. */
  function LittleEndian(value: nat, count: nat): Bytes {
    if count == 0 then [] else [value % 256] + LittleEndian(value / 256, count - 1)
  }

  /** A frame on the wire, by the members of its header. */
  datatype WireFrame = WireFrame(
    bus: nat, dlc: nat, rejected: bool, returned: bool, extended: bool, address: nat, dat: Bytes)

  predicate WellFormedFrame(f: WireFrame) {
    f.bus < 8 && f.dlc < 16 && f.address < 0x2000_0000 && |f.dat| == DLC_TO_LEN[f.dlc]
  }

  function Flag(b: bool): nat { if b then 1 else 0 }

  /** The members of the header before the checksum, in declaration order, the reserved bit first. */
  function HeaderFields(f: WireFrame): seq<BitField> {
    [BitField(0, 1), BitField(f.bus, 3), BitField(f.dlc, 4), BitField(Flag(f.rejected), 1),
     BitField(Flag(f.returned), 1), BitField(Flag(f.extended), 1), BitField(f.address, 29)]
  }

  /** The bytes of a frame: five of members, the checksum, which makes the frame XOR to zero, and the data. */
  function WireBytes(f: WireFrame): Bytes {
    var header := LittleEndian(PackedValue(HeaderFields(f)), 5);
    header + [Checksum(header + f.dat)] + f.dat
  }

  /** What the sender means to put on the wire: 29 bits of address, extended from 0x800 on, no other flag. */
  function Outgoing(m: CanData): WireFrame
    requires ValidLength(|m.dat|)
  {
    WireFrame(m.src, LenToDlc(|m.dat|), false, false, m.address >= 0x800, m.address % 0x2000_0000, m.dat)
  }

  /** What a receiver is to make of a frame: rejected frames are marked by 0xC0 on their bus, returned ones by 0x80. */
  function Incoming(f: WireFrame): CanFrame {
    CanFrame(f.address, f.dat, f.bus + (if f.rejected then 0xC0 else 0) + (if f.returned then 0x80 else 0))
  }

  lemma {:induction false} PackedValueStep(value: nat, width: nat, values: nat, rest: seq<BitField>)
    requires Pow2(width) == values && value < values
    ensures PackedValue([BitField(value, width)] + rest) == value + values * PackedValue(rest)
  {
    hide Pow2;
    DivUnique(value, values, 0, value);
    PackedValueMore(BitField(value, width), rest);
    hide PackedValue;
  }

  lemma {:induction false} PackedValueMore(f: BitField, rest: seq<BitField>)
    ensures PackedValue([f] + rest) == f.value % Pow2(f.width) + Pow2(f.width) * PackedValue(rest)
  {
    hide Pow2;
    assert ([f] + rest)[1..] == rest;
  }

  lemma {:induction false} WidthsOfHeader()
    ensures Pow2(1) == 2 && Pow2(3) == 8 && Pow2(4) == 16 && Pow2(29) == 0x2000_0000
  {
    assert Pow2(8) == 256 && Pow2(16) == 65536 && Pow2(24) == 256 * Pow2(16);
  }

  /** The four bytes after the first one, as a number. */
  function FlagsAndAddress(f: WireFrame): nat {
    Flag(f.rejected) + 2 * Flag(f.returned) + 4 * Flag(f.extended) + 8 * f.address
  }

  lemma {:induction false} HeaderValueIs(f: WireFrame)
    requires WellFormedFrame(f)
    ensures PackedValue(HeaderFields(f)) == f.dlc * 16 + f.bus * 2 + 256 * FlagsAndAddress(f)
  {
    UpperIs(f);
    WidthsOfHeader();
    SmallValues(f);
    hide Pow2, PackedValue, Upper, FlagsAndAddress, Flag, WellFormedFrame;
    PackedValueStep(f.dlc, 4, 16, Upper(f));
    PackedValueStep(f.bus, 3, 8, [BitField(f.dlc, 4)] + Upper(f));
    PackedValueStep(0, 1, 2, [BitField(f.bus, 3)] + ([BitField(f.dlc, 4)] + Upper(f)));
    HeaderFieldsAre(f);
  }

  /** The members after the first byte. */
  function Upper(f: WireFrame): seq<BitField> {
    [BitField(Flag(f.rejected), 1), BitField(Flag(f.returned), 1), BitField(Flag(f.extended), 1),
     BitField(f.address, 29)]
  }

  lemma {:induction false} HeaderFieldsAre(f: WireFrame)
    ensures HeaderFields(f) == [BitField(0, 1)] + ([BitField(f.bus, 3)] + ([BitField(f.dlc, 4)] + Upper(f)))
  {}

  lemma {:induction false} UpperIs(f: WireFrame)
    requires WellFormedFrame(f)
    ensures PackedValue(Upper(f)) == FlagsAndAddress(f)
  {
    WidthsOfHeader();
    SmallValues(f);
    hide Pow2, PackedValue, Flag, WellFormedFrame;
    var rejected, returned, extended := Flag(f.rejected), Flag(f.returned), Flag(f.extended);
    var address := [BitField(f.address, 29)];
    EmptyStructure();
    PackedValueStep(f.address, 29, 0x2000_0000, []);
    assert [BitField(f.address, 29)] + [] == address;
    PackedValueStep(extended, 1, 2, address);
    PackedValueStep(returned, 1, 2, [BitField(extended, 1)] + address);
    PackedValueStep(rejected, 1, 2, [BitField(returned, 1)] + ([BitField(extended, 1)] + address));
    assert Upper(f) ==
           [BitField(rejected, 1)] + ([BitField(returned, 1)] + ([BitField(extended, 1)] + address));
  }

  lemma {:induction false} EmptyStructure()
    ensures PackedValue([]) == 0
  {}

  lemma {:induction false} SmallValues(f: WireFrame)
    requires WellFormedFrame(f)
    ensures Flag(f.rejected) < 2 && Flag(f.returned) < 2 && Flag(f.extended) < 2
    ensures f.bus < 8 && f.dlc < 16 && f.address < 0x2000_0000
  {}

  lemma {:induction false} HeaderBytesAre(first: Byte, w: Word32)
    ensures LittleEndian(first + 256 * w, 5) == [first, ByteAt(w, 0), ByteAt(w, 1), ByteAt(w, 2), ByteAt(w, 3)]
  {
    DivUnique(first + 256 * w, 256, w, first);
    LittleEndianStep(first + 256 * w, 4);
    LittleEndianStep(w, 3);
    LittleEndianStep(w / 256, 2);
    LittleEndianStep(w / 256 / 256, 1);
    LittleEndianStep(w / 256 / 256 / 256, 0);
    hide LittleEndian;
  }

  lemma {:induction false} LittleEndianStep(value: nat, count: nat)
    ensures LittleEndian(value, count + 1) == [value % 256] + LittleEndian(value / 256, count)
    ensures LittleEndian(value, 0) == []
  {}

  lemma {:induction false} WireHeaderIs(f: WireFrame)
    requires WellFormedFrame(f)
    ensures f.dlc * 16 + f.bus * 2 < 256 && FlagsAndAddress(f) < 0x1_0000_0000
    ensures var header, w := LittleEndian(PackedValue(HeaderFields(f)), 5), FlagsAndAddress(f);
            && header == [f.dlc * 16 + f.bus * 2, ByteAt(w, 0), ByteAt(w, 1), ByteAt(w, 2), ByteAt(w, 3)]
            && WireBytes(f) == header + [Checksum(header + f.dat)] + f.dat
  {
    HeaderValueIs(f);
    HeaderBytesAre(f.dlc * 16 + f.bus * 2, FlagsAndAddress(f));
    hide PackedValue, LittleEndian, ByteAt, Checksum;
  }

  /** A zero in the place of the checksum does not change it. */
  lemma {:induction false} ChecksumSkipsZero(five: Bytes, dat: Bytes)
    ensures Checksum(five + [0] + dat) == Checksum(five + dat)
  {
    hide Xor, Checksum;
    ChecksumConcat(five + [0], dat);
    ChecksumConcat(five, dat);
    ChecksumConcat(five, [0]);
    ChecksumOne(0);
    XorSelf(Checksum(five));
  }

  /** The frame of a message is, byte for byte, what the header declares. */
  lemma {:induction false} FrameIsOnWire(m: CanData)
    requires Mine(m) && ValidLength(|m.dat|)
    ensures WellFormedFrame(Outgoing(m)) && Frame(m) == WireBytes(Outgoing(m))
  {
    hide *;
    var f, dlc, w := Outgoing(m), LenToDlc(|m.dat| % 256), AddressWord(m.address, m.address >= 0x800);
    OutgoingWord(m);
    WireHeaderIs(f);
    OutgoingIs(m);
    FirstByteIs(m.src, dlc);
    HeaderIs(m, dlc);
    var five := [FirstByte(m.src, dlc), ByteAt(w, 0), ByteAt(w, 1), ByteAt(w, 2), ByteAt(w, 3)];
    ChecksumSkipsZero(five, m.dat);
    FrameFrom(m, dlc);
  }

  lemma {:induction false} FirstByteIs(bus: Byte, dlc: nat)
    requires dlc < 16 && bus < 8
    ensures FirstByte(bus, dlc) == dlc * 16 + bus * 2
  {}

  lemma {:induction false} OutgoingWord(m: CanData)
    requires Mine(m) && ValidLength(|m.dat|)
    ensures WellFormedFrame(Outgoing(m))
    ensures FlagsAndAddress(Outgoing(m)) == AddressWord(m.address, m.address >= 0x800)
  {}

  lemma {:induction false} OutgoingIs(m: CanData)
    requires Mine(m) && ValidLength(|m.dat|)
    ensures var f := Outgoing(m);
            f.bus == m.src < 8 && f.dlc == LenToDlc(|m.dat| % 256) < 16 && f.dat == m.dat
  {}

  lemma {:induction false} HeaderIs(m: CanData, dlc: nat)
    requires dlc < 16
    ensures var w := AddressWord(m.address, m.address >= 0x800);
            forall c: Byte :: Header(m, dlc, c) ==
              [FirstByte(m.src, dlc), ByteAt(w, 0), ByteAt(w, 1), ByteAt(w, 2), ByteAt(w, 3)] + [c]
  {
    hide FirstByte, ByteAt, AddressWord;
  }

  lemma {:induction false} FrameFrom(m: CanData, dlc: nat)
    requires ValidLength(|m.dat|) && dlc == LenToDlc(|m.dat| % 256)
    ensures dlc < 16 && Frame(m) == Header(m, dlc, Checksum(Header(m, dlc, 0) + m.dat)) + m.dat
  {
    hide Checksum, Header, LenToDlc;
  }

  lemma {:induction false} WireChecksum(f: WireFrame)
    ensures Checksum(WireBytes(f)) == 0
  {
    var five := LittleEndian(PackedValue(HeaderFields(f)), 5);
    hide Checksum, Xor, LittleEndian, PackedValue;
    var c := Checksum(five + f.dat);
    ChecksumConcat(five, f.dat);
    ChecksumConcat(five + [c], f.dat);
    ChecksumConcat(five, [c]);
    ChecksumOne(c);
    XorSelf(Checksum(five));
    ChecksumCancels(Checksum(five), c, Checksum(f.dat));
  }

  lemma {:induction false} FlagsRead(f: WireFrame)
    requires WellFormedFrame(f)
    ensures var w := FlagsAndAddress(f);
            && w < 0x1_0000_0000 && AddressOf(w) == f.address
            && Rejected(w) == f.rejected && Returned(w) == f.returned
  {
    var rejected, returned, extended := Flag(f.rejected), Flag(f.returned), Flag(f.extended);
    var w := FlagsAndAddress(f);
    DivUnique(w, 8, f.address, rejected + 2 * returned + 4 * extended);
    DivUnique(w, 2, returned + 2 * extended + 4 * f.address, rejected);
    DivUnique(w / 2, 2, extended + 2 * f.address, returned);
  }

  /** Reading a frame gives what it stands for, flags included. */
  lemma {:induction false} WireFrameReads(f: WireFrame)
    requires WellFormedFrame(f)
    ensures |WireBytes(f)| == HEADER_SIZE + |f.dat| && FrameLength(WireBytes(f)[0]) == |WireBytes(f)|
    ensures ReadFrame(WireBytes(f)) == Incoming(f)
  {
    hide Checksum, ByteAt, Word, FlagsAndAddress, AddressOf, Rejected, Returned, BusOf, DlcOf, WireBytes, FrameLength,
        ReadFrame, Incoming, WellFormedFrame, PackedValue, LittleEndian, HeaderFields, FirstByte;
    FrameMembers(f);
    WireHeaderIs(f);
    FlagsRead(f);
    FirstByteReads(f.bus, f.dlc);
    FirstByteIs(f.bus, f.dlc);
    var frame, w := WireBytes(f), FlagsAndAddress(f);
    WordReads(w);
    assert frame[HEADER_SIZE..] == f.dat;
    LengthFrom(frame[0], f.dlc);
    ReadFrameFlags(frame, w);
    IncomingIs(f);
  }

  lemma {:induction false} FrameMembers(f: WireFrame)
    requires WellFormedFrame(f)
    ensures f.bus < 8 && f.dlc < 16 && |f.dat| == DLC_TO_LEN[f.dlc]
  {}

  lemma {:induction false} LengthFrom(b0: Byte, dlc: nat)
    requires dlc < 16 && DlcOf(b0) == dlc
    ensures FrameLength(b0) == HEADER_SIZE + DLC_TO_LEN[dlc]
  {}

  lemma {:induction false} IncomingIs(f: WireFrame)
    ensures Incoming(f) ==
            CanFrame(f.address, f.dat, f.bus + (if f.rejected then CAN_REJECTED_BUS_OFFSET else 0)
                                       + (if f.returned then CAN_RETURNED_BUS_OFFSET else 0))
  {}

  lemma {:induction false} ReadFrameFlags(frame: Bytes, w: Word32)
    requires |frame| >= HEADER_SIZE && w == Word(frame[1], frame[2], frame[3], frame[4])
    ensures ReadFrame(frame) ==
            CanFrame(AddressOf(w), frame[HEADER_SIZE..],
                     BusOf(frame[0]) + (if Rejected(w) then CAN_REJECTED_BUS_OFFSET else 0)
                     + (if Returned(w) then CAN_RETURNED_BUS_OFFSET else 0))
  {
    hide Word, BusOf, AddressOf, Rejected, Returned;
  }

  function OnWire(fs: seq<WireFrame>): Bytes {
    if fs == [] then [] else OnWire(fs[..|fs| - 1]) + WireBytes(fs[|fs| - 1])
  }

  function IncomingAll(fs: seq<WireFrame>): seq<CanFrame> {
    if fs == [] then [] else IncomingAll(fs[..|fs| - 1]) + [Incoming(fs[|fs| - 1])]
  }

  /** A stream of frames parses to what they stand for, in order, with nothing left. */
  lemma {:induction false} WireParses(fs: seq<WireFrame>)
    requires forall i :: 0 <= i < |fs| ==> WellFormedFrame(fs[i])
    ensures Parse(OnWire(fs)) == Parsed(IncomingAll(fs), [], true)
  {
    hide Parse, WireBytes, Incoming, WellFormedFrame;
    if fs == [] {
      ParseNothing();
    } else {
      var init, f := fs[..|fs| - 1], fs[|fs| - 1];
      WireParses(init);
      WireFrameParses(f);
      ParseContinues(OnWire(init), WireBytes(f));
      assert [] + WireBytes(f) == WireBytes(f);
    }
  }

  lemma {:induction false} WireFrameParses(f: WireFrame)
    requires WellFormedFrame(f)
    ensures Parse(WireBytes(f)) == Parsed([Incoming(f)], [], true)
  {
    hide WireBytes, Checksum, FrameLength, ReadFrame, Parse, Incoming, WellFormedFrame;
    WireFrameReads(f);
    WireChecksum(f);
    var bytes := WireBytes(f);
    assert bytes[..|bytes|] == bytes && bytes[|bytes|..] == [];
    ParseStep(bytes);
    ParseNothing();
  }

  /** Whatever the device sends, cut in any way and with failed reads between, is received as what it stands for. */
  lemma {:induction false} WireDelivery(fs: seq<WireFrame>, rs: seq<Read>)
    requires forall i :: 0 <= i < |fs| ==> WellFormedFrame(fs[i])
    requires Arrived(rs) == OnWire(fs)
    ensures ReceiveAll(rs) == Reception(IncomingAll(fs), [], 0)
  {
    hide *;
    ReceptionIgnoresCuts(rs);
    WireParses(fs);
  }

  function OutgoingAll(list: seq<CanData>): (fs: seq<WireFrame>)
    requires Sendable(list)
  {
    if list == [] then []
    else
      var m := list[|list| - 1];
      OutgoingAll(list[..|list| - 1]) + if Mine(m) then [Outgoing(m)] else []
  }

  /** The buffers handed on hold exactly the frames of the messages meant for this panda. */
  lemma {:induction false} BuffersAreOnWire(list: seq<CanData>)
    requires Sendable(list)
    ensures Flatten(Buffers(list)) == OnWire(OutgoingAll(list))
  {
    BuffersAreWhole(list);
    hide Buffers, Flatten;
    PackedIsOnWire(list);
  }

  lemma {:induction false} PackedIsOnWire(list: seq<CanData>)
    requires Sendable(list)
    ensures Packed(list) == OnWire(OutgoingAll(list))
  {
    hide Frame, WireBytes, Outgoing;
    if list != [] {
      var init, m := list[..|list| - 1], list[|list| - 1];
      PackedIsOnWire(init);
      if Mine(m) {
        FrameIsOnWire(m);
        var before := OutgoingAll(init);
        assert (before + [Outgoing(m)])[..|before|] == before;
      } else {
        assert OutgoingAll(init) + [] == OutgoingAll(init);
      }
    }
  }

  // ---------- the code ----------

  method CalculateChecksum(data: array<Byte>, pos: nat, len: nat) returns (checksum: Byte)
    requires pos + len <= data.Length
    ensures checksum == Checksum(data[pos..pos + len])
  {
    hide Xor;
    checksum := 0;
    for i := 0 to len
      invariant checksum == Checksum(data[pos..pos + i])
    {
      assert data[pos..pos + i + 1][..i] == data[pos..pos + i];
      XorBound(checksum, data[pos + i], 8);
      assert Pow2(8) == 256;
      checksum := Xor(checksum, data[pos + i]);
    }
  }

  /** Copies bytes into a buffer. */
  method Copy(buffer: array<Byte>, pos: nat, bytes: Bytes)
    requires pos + |bytes| <= buffer.Length
    modifies buffer
    ensures buffer[..pos + |bytes|] == old(buffer[..pos]) + bytes
  {
    forall k | 0 <= k < |bytes| {
      buffer[pos + k] := bytes[k];
    }
  }

  /** Packs the messages meant for this panda and hands on a buffer whenever the soft limit is reached. */
  method PackCanBuffer(list: seq<CanData>) returns (written: seq<Bytes>)
    requires Sendable(list)
    ensures written == Buffers(list)
  {
    hide Collected, Buffers, Frame, ValidLength, Sendable, Mine;
    var pos: nat := 0;
    var sendBuf := new Byte[2 * USB_TX_SOFT_LIMIT];
    written := [];
    CollectedStart(list);
    for i := 0 to |list|
      invariant pos < USB_TX_SOFT_LIMIT
      invariant Collected(list, i, written, sendBuf[..pos])
    {
      var m := list[i];
      ghost var before := sendBuf[..pos];
      CollectedStep(list, i, written, before);
      if m.src >= PANDA_BUS_OFFSET {
        continue;
      }
      PackMessage(sendBuf, pos, m);
      pos := pos + HEADER_SIZE + |m.dat|;
      FrameSize(m);
      if pos >= USB_TX_SOFT_LIMIT {
        written := written + [sendBuf[..pos]];
        pos := 0;
      }
    }
    CollectedEnd(list, written, sendBuf[..pos]);
    if pos > 0 {
      written := written + [sendBuf[..pos]];
    }
  }

  ghost predicate Collected(list: seq<CanData>, i: nat, written: seq<Bytes>, pending: Bytes)
    requires Sendable(list)
  {
    i <= |list| && Collect(list[..i]) == Outbox(written, pending)
  }

  lemma {:induction false} CollectedStart(list: seq<CanData>)
    requires Sendable(list)
    ensures Collected(list, 0, [], [])
  {
    EmptyLists();
    assert list[..0] == [];
    hide Collect;
  }

  lemma {:induction false} CollectedStep(list: seq<CanData>, i: nat, written: seq<Bytes>, pending: Bytes)
    requires Sendable(list) && i < |list| && Collected(list, i, written, pending)
    ensures !Mine(list[i]) ==> Collected(list, i + 1, written, pending)
    ensures list[i].src < PANDA_BUS_OFFSET <==> Mine(list[i])
    ensures Mine(list[i]) ==>
              && ValidLength(|list[i].dat|)
              && var more := pending + Frame(list[i]);
                 if |more| >= USB_TX_SOFT_LIMIT then Collected(list, i + 1, written + [more], [])
                 else Collected(list, i + 1, written, more)
  {
    hide Collect, Frame, ValidLength;
    assert list[..i + 1] == list[..i] + [list[i]];
    CollectStep(list[..i], list[i]);
  }

  lemma {:induction false} CollectedEnd(list: seq<CanData>, written: seq<Bytes>, pending: Bytes)
    requires Sendable(list) && Collected(list, |list|, written, pending)
    ensures Buffers(list) == if |pending| > 0 then written + [pending] else written
  {
    hide Collect;
    assert list[..|list|] == list;
  }

  lemma {:induction false} FrameSize(m: CanData)
    requires ValidLength(|m.dat|)
    ensures |Frame(m)| == HEADER_SIZE + |m.dat| <= HEADER_SIZE + MAX_DATA
  {}

  /** Writes header and data of one message, then the checksum over both. */
  method PackMessage(sendBuf: array<Byte>, pos: nat, m: CanData)
    requires ValidLength(|m.dat|) && pos + HEADER_SIZE + MAX_DATA <= sendBuf.Length
    modifies sendBuf
    ensures sendBuf[..pos + HEADER_SIZE + |m.dat|] == old(sendBuf[..pos]) + Frame(m)
  {
    hide LenToDlc, Checksum, Frame, Header, DlcToLen;
    var dlc := LenToDlc(|m.dat| % 256);
    var header := Header(m, dlc, 0);
    var size := HEADER_SIZE + |m.dat|;
    ghost var before := sendBuf[..pos];
    Copy(sendBuf, pos, header);
    Copy(sendBuf, pos + HEADER_SIZE, m.dat);
    ghost var unsigned := sendBuf[..pos + size];
    assert unsigned == before + header + m.dat;
    Middle(before, header, m.dat);
    assert sendBuf[pos..pos + size] == unsigned[pos..];
    var checksum := CalculateChecksum(sendBuf, pos, size);
    sendBuf[pos + 5] := checksum;
    assert sendBuf[..pos + size] == unsigned[pos + 5 := checksum];
    Overwrite(before, header, m.dat, checksum);
    HeaderChecksum(m, dlc, checksum);
    FrameIs(m, dlc, checksum);
  }

  lemma {:induction false} Middle(before: Bytes, header: Bytes, dat: Bytes)
    ensures (before + header + dat)[|before|..] == header + dat
  {}

  lemma {:induction false} Overwrite(before: Bytes, header: Bytes, dat: Bytes, checksum: Byte)
    requires |header| == HEADER_SIZE
    ensures (before + header + dat)[|before| + 5 := checksum] == before + (header[5 := checksum] + dat)
  {}

  lemma {:induction false} HeaderChecksum(m: CanData, dlc: nat, checksum: Byte)
    requires dlc < 16
    ensures Header(m, dlc, 0)[5 := checksum] == Header(m, dlc, checksum)
  {
    hide FirstByte, ByteAt, AddressWord;
  }

  lemma {:induction false} FrameIs(m: CanData, dlc: nat, checksum: Byte)
    requires ValidLength(|m.dat|) && dlc == LenToDlc(|m.dat| % 256)
    requires checksum == Checksum(Header(m, dlc, 0) + m.dat)
    ensures Frame(m) == Header(m, dlc, checksum) + m.dat
  {
    hide Checksum, Header, LenToDlc;
  }

  /** The frames read so far are those of the front of the buffer, which ended at pos. */
  ghost predicate ParsedSoFar(all: Bytes, pos: nat, frames: seq<CanFrame>) {
    && pos <= |all|
    && Parse(all) == Parsed(frames + Parse(all[pos..]).frames, Parse(all[pos..]).rest, Parse(all[pos..]).ok)
  }

  lemma {:induction false} ParsedStart(all: Bytes)
    ensures ParsedSoFar(all, 0, [])
  {
    hide Parse;
    assert all[0..] == all;
  }

  lemma {:induction false} ParsedStep(all: Bytes, pos: nat, frames: seq<CanFrame>, length: nat)
    requires ParsedSoFar(all, pos, frames) && pos < |all|
    requires length == FrameLength(all[pos]) && pos + length <= |all|
    ensures var frame := all[pos..pos + length];
            if Checksum(frame) != 0 then Parse(all) == Parsed(frames, [], false)
            else ParsedSoFar(all, pos + length, frames + [ReadFrame(frame)])
  {
    var tail, frame := all[pos..], all[pos..pos + length];
    assert tail[..length] == frame && tail[length..] == all[pos + length..];
    ParseStep(tail);
    hide Parse, Checksum, ReadFrame, FrameLength;
    if Checksum(frame) == 0 {
      Regroup(frames, ReadFrame(frame), Parse(all[pos + length..]).frames);
    }
  }

  lemma {:induction false} Regroup<T>(a: seq<T>, x: T, b: seq<T>)
    ensures a + ([x] + b) == a + [x] + b
  {}

  lemma {:induction false} ParsedEnd(all: Bytes, pos: nat, frames: seq<CanFrame>)
    requires ParsedSoFar(all, pos, frames)
    requires |all| < pos + HEADER_SIZE || |all| < pos + FrameLength(all[pos])
    ensures Parse(all) == Parsed(frames, all[pos..], true)
  {
    hide Parse, FrameLength;
    ParseStep(all[pos..]);
  }

  /** Subtraction of 64-bit sizes: below zero it wraps around. */
  function SizeMinus(a: nat, b: nat): nat
    requires b <= 0x1_0000_0000_0000_0000
  {
    if a >= b then a - b else 0x1_0000_0000_0000_0000 - b + a
  }

  lemma {:induction false} Slice(data: array<Byte>, size: nat, pos: nat, length: nat)
    requires pos + length <= size <= data.Length
    ensures data[..size][pos..pos + length] == data[pos..pos + length]
    ensures pos < size ==> data[..size][pos] == data[pos]
    ensures data[..size][pos..] == data[pos..size]
  {}

  /** One frame of the buffer, as the reading loop sees it. */
  lemma {:induction false} ReadingStep(data: array<Byte>, size: nat, pos: nat, frames: seq<CanFrame>)
    requires pos < size <= data.Length && ParsedSoFar(data[..size], pos, frames)
    ensures pos + FrameLength(data[pos]) <= size ==>
              var frame := data[pos..pos + FrameLength(data[pos])];
              if Checksum(frame) != 0 then Parse(data[..size]) == Parsed(frames, [], false)
              else ParsedSoFar(data[..size], pos + FrameLength(data[pos]), frames + [ReadFrame(frame)])
    ensures pos + FrameLength(data[pos]) > size ==> Parse(data[..size]) == Parsed(frames, data[pos..size], true)
  {
    hide *;
    var length := FrameLength(data[pos]);
    Slice(data, size, pos, size - pos);
    if pos + length <= size {
      Slice(data, size, pos, length);
      ParsedStep(data[..size], pos, frames, length);
    } else {
      ParsedEnd(data[..size], pos, frames);
    }
  }

  lemma {:induction false} ReadingEnd(data: array<Byte>, size: nat, pos: nat, frames: seq<CanFrame>)
    requires pos <= size <= data.Length && ParsedSoFar(data[..size], pos, frames) && size < pos + HEADER_SIZE
    ensures Parse(data[..size]) == Parsed(frames, data[pos..size], true)
  {
    hide Parse, ParsedSoFar, FrameLength;
    Slice(data, size, pos, size - pos);
    ParsedEnd(data[..size], pos, frames);
  }

  class Panda {
    const receiveBuffer: array<Byte>
    var receiveBufferSize: nat

    ghost predicate Valid()
      reads this
    {
      receiveBuffer.Length == RECV_SIZE + HEADER_SIZE + MAX_DATA && receiveBufferSize < HEADER_SIZE + MAX_DATA
    }

    /** The bytes kept for the next read. */
    ghost function Pending(): Bytes
      requires Valid()
      reads this, receiveBuffer
    {
      receiveBuffer[..receiveBufferSize]
    }

    constructor ()
      ensures Valid() && Pending() == [] && fresh(receiveBuffer)
    {
      receiveBuffer := new Byte[RECV_SIZE + HEADER_SIZE + MAX_DATA];
      receiveBufferSize := 0;
    }

    /** Reads complete frames until the data run out or a checksum is wrong; pos is where the rest starts. */
    method ReadFrames(data: array<Byte>, size: nat) returns (ok: bool, pos: nat, frames: seq<CanFrame>)
      requires HEADER_SIZE <= data.Length && size <= data.Length
      ensures pos <= size
      ensures Parse(data[..size]) == Parsed(frames, if ok then data[pos..size] else [], ok)
    {
      hide Parse, ParsedSoFar, FrameLength, ReadFrame, Checksum;
      pos, frames := 0, [];
      ParsedStart(data[..size]);
      while pos <= SizeMinus(size, HEADER_SIZE)
        invariant pos <= size && ParsedSoFar(data[..size], pos, frames)
        decreases size - pos
      {
        if pos == size {
          ReadingEnd(data, size, pos, frames);
        } else {
          ReadingStep(data, size, pos, frames);
        }
        var length := FrameLength(data[pos]);
        if pos + length > size {
          return true, pos, frames;
        }
        var checksum := CalculateChecksum(data, pos, length);
        if checksum != 0 {
          return false, 0, frames;
        }
        frames := frames + [ReadFrame(data[pos..pos + length])];
        pos := pos + length;
      }
      ReadingEnd(data, size, pos, frames);
      ok := true;
    }

    /** Reads the complete frames of the buffer and moves the rest to its beginning. */
    method UnpackCanBuffer(data: array<Byte>, size: nat) returns (ok: bool, rest: nat, frames: seq<CanFrame>)
      requires HEADER_SIZE <= data.Length && size <= data.Length
      modifies data
      ensures rest <= size
      ensures Parsed(frames, data[..rest], ok) == Parse(old(data[..size]))
    {
      hide *;
      var pos: nat;
      ok, pos, frames := ReadFrames(data, size);
      if !ok {
        return false, 0, frames;
      }
      rest := size - pos;
      Move(data, pos, rest);
    }

    /** Moves count bytes from pos to the beginning of the buffer. */
    method Move(data: array<Byte>, pos: nat, count: nat)
      requires pos + count <= data.Length
      modifies data
      ensures data[..count] == old(data[pos..pos + count])
    {
      forall k | 0 <= k < count {
        data[k] := data[pos + k];
      }
    }

    /** One read: incoming bytes (none when the read failed) are appended and complete frames are handed out. */
    method CanReceive(read: Read) returns (ok: bool, frames: seq<CanFrame>)
      requires Valid() && |read.incoming| <= RECV_SIZE
      modifies this, receiveBuffer
      ensures Valid()
      ensures Parsed(frames, Pending(), ok) == Receive(old(Pending()), read)
    {
      assert receiveBufferSize + RECV_SIZE <= receiveBuffer.Length;
      ghost var kept := Pending();
      hide Parse;
      var recv: int := -1;
      if !read.failed {
        Copy(receiveBuffer, receiveBufferSize, read.incoming);
        recv := |read.incoming|;
      }
      frames := [];
      if !read.healthy {
        return false, frames;
      }
      ok := true;
      if recv > 0 {
        receiveBufferSize := receiveBufferSize + recv;
        assert receiveBuffer[..receiveBufferSize] == kept + read.incoming;
        ok, receiveBufferSize, frames := UnpackCanBuffer(receiveBuffer, receiveBufferSize);
        RestIsShort(kept + read.incoming);
      }
    }
  }
}

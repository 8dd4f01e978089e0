/** Transfers to and from a panda over SPI: frame checksums, and cutting bulk transfers into pieces. */
module SpiTransfer {
  import opened Arith
  import opened Octets
  import opened Wrappers
  import PandaCan

  const SPI_BUF_SIZE: nat := 2048
  const XFER_SIZE: nat := SPI_BUF_SIZE - 0x40
  const SPI_CHECKSUM_START: Byte := 0xAB

  // ---------- checksums ----------

  /** The checksum of all bytes, its own included, cancels the start value. */
  predicate Accepts(frame: Bytes) { PandaCan.Xor(SPI_CHECKSUM_START, PandaCan.Checksum(frame)) == 0 }

  lemma {:induction false} XorByte(a: Byte, b: Byte)
    ensures PandaCan.Xor(a, b) < 256
  {
    assert Pow2(8) == 256;
    PandaCan.XorBound(a, b, 8);
  }

  function ChecksumOf(data: Bytes): Byte {
    XorByte(SPI_CHECKSUM_START, PandaCan.Checksum(data));
    PandaCan.Xor(SPI_CHECKSUM_START, PandaCan.Checksum(data))
  }

  lemma {:induction false} XorCancels(a: nat, b: nat)
    ensures PandaCan.Xor(a, b) == 0 <==> a == b
  {
    PandaCan.XorSelf(a);
    PandaCan.XorSelf(b);
    hide PandaCan.Xor;
    if PandaCan.Xor(a, b) == 0 {
      PandaCan.XorAssoc(a, b, b);
      PandaCan.XorComm(0, b);
    }
  }

  /** A frame is accepted exactly when its last byte is the checksum of the others. */
  lemma {:induction false} AcceptsExactly(data: Bytes, last: Byte)
    ensures Accepts(data + [last]) <==> last == ChecksumOf(data)
  {
    PandaCan.ChecksumConcat(data, [last]);
    PandaCan.ChecksumOne(last);
    hide PandaCan.Xor, PandaCan.Checksum;
    PandaCan.XorAssoc(SPI_CHECKSUM_START, PandaCan.Checksum(data), last);
    XorCancels(PandaCan.Xor(SPI_CHECKSUM_START, PandaCan.Checksum(data)), last);
  }

  /** The checksum that goes with some data: 0xAB with all bytes exclusive-or'ed in. */
  lemma {:induction false} ChecksumIs(data: Bytes, last: Byte)
    ensures ChecksumOf(data + [last]) == PandaCan.Xor(ChecksumOf(data), last) && ChecksumOf([]) == 0xAB
  {
    PandaCan.ChecksumConcat(data, [last]);
    PandaCan.ChecksumOne(last);
    PandaCan.XorSelf(SPI_CHECKSUM_START);
    hide PandaCan.Xor;
    PandaCan.XorAssoc(SPI_CHECKSUM_START, PandaCan.Checksum(data), last);
  }

  lemma {:induction false} XorInjective(a: nat, b: nat, c: nat)
    requires PandaCan.Xor(a, b) == PandaCan.Xor(a, c)
    ensures b == c
  {
    hide PandaCan.Xor;
    PandaCan.XorAssoc(a, a, b);
    PandaCan.XorAssoc(a, a, c);
    PandaCan.XorSelf(a);
    PandaCan.XorSelf(b);
    PandaCan.XorSelf(c);
    PandaCan.XorComm(0, b);
    PandaCan.XorComm(0, c);
  }

  /** Changing any one byte of an accepted frame is noticed. */
  lemma {:induction false} OneByteErrorIsNoticed(frame: Bytes, i: nat, x: Byte)
    requires i < |frame| && x != frame[i] && Accepts(frame)
    ensures !Accepts(frame[i := x])
  {
    hide PandaCan.Xor, PandaCan.Checksum;
    var a, b := frame[..i], frame[i + 1..];
    ChecksumAround(a, frame[i], b);
    ChecksumAround(a, x, b);
    assert frame == a + [frame[i]] + b && frame[i := x] == a + [x] + b;
    XorCancels(SPI_CHECKSUM_START, PandaCan.Checksum(frame));
    XorCancels(SPI_CHECKSUM_START, PandaCan.Checksum(frame[i := x]));
    if PandaCan.Checksum(frame[i := x]) == PandaCan.Checksum(frame) {
      XorInjective(PandaCan.Xor(PandaCan.Checksum(a), PandaCan.Checksum(b)), x, frame[i]);
    }
  }

  /** The checksum of a frame as one byte against all the others. */
  lemma {:induction false} ChecksumAround(a: Bytes, x: Byte, b: Bytes)
    ensures PandaCan.Checksum(a + [x] + b)
         == PandaCan.Xor(PandaCan.Xor(PandaCan.Checksum(a), PandaCan.Checksum(b)), x)
  {
    PandaCan.ChecksumConcat(a + [x], b);
    PandaCan.ChecksumConcat(a, [x]);
    PandaCan.ChecksumOne(x);
    hide PandaCan.Xor, PandaCan.Checksum;
    var p, q := PandaCan.Checksum(a), PandaCan.Checksum(b);
    PandaCan.XorAssoc(p, x, q);
    PandaCan.XorComm(x, q);
    PandaCan.XorAssoc(p, q, x);
  }

  /** Writes the checksum of the first bytes after them. */
  method AddChecksum(data: array<Byte>, len: nat)
    requires len < data.Length
    modifies data
    ensures data[..len] == old(data[..len]) && data[len + 1..] == old(data[len + 1..])
    ensures Accepts(data[..len + 1])
  {
    hide PandaCan.Xor, PandaCan.Checksum, Accepts, ChecksumOf;
    ghost var before := data[..];
    data[len] := SPI_CHECKSUM_START;
    SumStart();
    assert before[..0] == [];
    for i := 0 to len
      invariant data[..] == before[len := data[len]] && data[len] == ChecksumOf(before[..i])
    {
      SumStep(before, i);
      data[len] := XorOf(data[len], data[i]);
    }
    assert data[..len + 1] == before[..len] + [data[len]];
    AcceptsExactly(before[..len], data[len]);
  }

  function XorOf(a: Byte, b: Byte): Byte {
    XorByte(a, b);
    PandaCan.Xor(a, b)
  }

  lemma {:induction false} SumStart()
    ensures ChecksumOf([]) == SPI_CHECKSUM_START
  {
    PandaCan.XorSelf(SPI_CHECKSUM_START);
  }

  lemma {:induction false} SumStep(data: Bytes, i: nat)
    requires i < |data|
    ensures ChecksumOf(data[..i + 1]) == XorOf(ChecksumOf(data[..i]), data[i])
  {
    assert data[..i + 1][..i] == data[..i];
    PandaCan.XorAssoc(SPI_CHECKSUM_START, PandaCan.Checksum(data[..i]), data[i]);
  }

  method CheckChecksum(data: array<Byte>, len: nat) returns (ok: bool)
    requires len <= data.Length
    ensures ok == Accepts(data[..len])
  {
    hide PandaCan.Xor, PandaCan.Checksum;
    var checksum := SPI_CHECKSUM_START;
    SumStart();
    for i := 0 to len
      invariant checksum == ChecksumOf(data[..i])
    {
      SumStep(data[..], i);
      checksum := XorOf(checksum, data[i]);
    }
    return checksum == 0;
  }

  // ---------- bulk transfers ----------

  function Pieces(length: nat): nat { (length + XFER_SIZE - 1) / XFER_SIZE }

  /** What one transfer comes to: an error code, or the bytes of the answer. */
  datatype Transfer = Failed(code: int) | Answered(bytes: Bytes)

  /** The device, with the outcomes of the transfers to come. */
  class Device {
    var outcomes: seq<Transfer>
    var written: seq<Bytes>

    constructor (outcomes: seq<Transfer>)
      ensures this.outcomes == outcomes && written == []
    {
      this.outcomes, written := outcomes, [];
    }

    /** One transfer; a device that has nothing more to say fails. */
    method Exchange(tx: Bytes) returns (t: Transfer)
      modifies this
      ensures written == old(written) + [tx]
      ensures old(outcomes) == [] ==> t == Failed(-1) && outcomes == []
      ensures old(outcomes) != [] ==> t == old(outcomes)[0] && outcomes == old(outcomes)[1..]
    {
      written := written + [tx];
      if outcomes == [] { return Failed(-1); }
      t := outcomes[0];
      outcomes := outcomes[1..];
    }
  }

  /** The first pieces of the data, each as long as a transfer can be. */
  function Cut(data: Bytes, n: nat): (pieces: seq<Bytes>)
    ensures |pieces| == n
  {
    if n == 0 then []
    else Cut(data, n - 1) + [data[Least((n - 1) * XFER_SIZE, |data|)..Least(n * XFER_SIZE, |data|)]]
  }

  /** A transfer carries up to 1984 bytes; every piece that another one follows is that long. */
  lemma {:induction false} CutAt(data: Bytes, n: nat, i: nat)
    requires i < n <= Pieces(|data|)
    ensures Pieces(|data|) == (|data| + 1983) / 1984 && 1984 * i < |data|
    ensures Cut(data, n)[i] == data[1984 * i..Least(1984 * i + 1984, |data|)]
  {
    if i < n - 1 { CutAt(data, n - 1, i); }
  }

  lemma {:induction false} CutJoins(data: Bytes, n: nat)
    ensures Flatten(Cut(data, n)) == data[..Least(n * XFER_SIZE, |data|)]
  {
    if n > 0 {
      CutJoins(data, n - 1);
      var from, to := Least((n - 1) * XFER_SIZE, |data|), Least(n * XFER_SIZE, |data|);
      FlattenAppend(Cut(data, n - 1), data[from..to]);
      assert data[..from] + data[from..to] == data[..to];
    }
  }

  /** Sends the data in pieces; unless a transfer fails, the pieces together are the data. */
  method BulkWrite(device: Device, data: Bytes) returns (r: Result<nat>)
    modifies device
    ensures |old(device.written)| <= |device.written| && old(device.written) == device.written[..|old(device.written)|]
    ensures var sent := device.written[|old(device.written)|..];
            && (exists n: nat :: n <= Pieces(|data|) && sent == Cut(data, n))
            && (r.Ok? ==> Flatten(sent) == data)
  {
    ghost var before := device.written;
    var total: nat := 0;
    assert before + [] == before;
    for i := 0 to Pieces(|data|)
      invariant device.written == before + Cut(data, i)
    {
      var len := Least(XFER_SIZE, |data| - XFER_SIZE * i);
      var piece := data[XFER_SIZE * i..XFER_SIZE * i + len];
      var t := device.Exchange(piece);
      assert before + Cut(data, i) + [piece] == before + (Cut(data, i) + [piece]);
      assert Cut(data, i + 1) == Cut(data, i) + [piece];
      if t.Failed? {
        assert device.written[|before|..] == Cut(data, i + 1);
        return Err("bulk transfer failed");
      }
      total := total + |t.bytes|;
    }
    assert device.written[|before|..] == Cut(data, Pieces(|data|));
    CutJoins(data, Pieces(|data|));
    assert data[..|data|] == data;
    return Ok(total);
  }

  /** The answers a read of this length takes: up to the first short one, or until there are enough. */
  function Answers(outcomes: seq<Transfer>, left: nat): (r: Option<Bytes>)
    decreases left
  {
    if left == 0 then Some([])
    else if outcomes == [] || outcomes[0].Failed? then None
    else if |outcomes[0].bytes| < XFER_SIZE || left < XFER_SIZE then Some(outcomes[0].bytes)
    else
      var rest := Answers(outcomes[1..], left - XFER_SIZE);
      if rest.None? then None else Some(outcomes[0].bytes + rest.value)
  }

  /** The device never answers with more than it was asked for. */
  predicate Polite(outcomes: seq<Transfer>, left: nat)
    decreases left
  {
    left > 0 && outcomes != [] && outcomes[0].Answered? ==>
      && |outcomes[0].bytes| <= Least(XFER_SIZE, left)
      && (left >= XFER_SIZE ==> Polite(outcomes[1..], left - XFER_SIZE))
  }

  lemma {:induction false} AnswersStep(outcomes: seq<Transfer>, left: nat)
    requires left > 0
    ensures Answers(outcomes, left)
         == if outcomes == [] || outcomes[0].Failed? then None
            else if |outcomes[0].bytes| < XFER_SIZE || left < XFER_SIZE then Some(outcomes[0].bytes)
            else match Answers(outcomes[1..], left - XFER_SIZE)
                 case None => None
                 case Some(rest) => Some(outcomes[0].bytes + rest)
  {}

  lemma {:induction false} PoliteStep(outcomes: seq<Transfer>, left: nat)
    requires left > 0 && Polite(outcomes, left) && outcomes != [] && outcomes[0].Answered?
    ensures |outcomes[0].bytes| <= Least(XFER_SIZE, left)
    ensures left >= XFER_SIZE ==> Polite(outcomes[1..], left - XFER_SIZE)
  {}

  /** Reads in pieces; the answers land side by side at the start of the buffer, and nothing else is written. */
  method BulkRead(device: Device, rx: array<Byte>) returns (r: Result<nat>)
    requires Polite(device.outcomes, rx.Length)
    modifies device, rx
    ensures var answers := Answers(old(device.outcomes), rx.Length);
            if answers.None? then r.Err?
            else
              && |answers.value| <= rx.Length && r == Ok(|answers.value|)
              && rx[..] == answers.value + old(rx[|answers.value|..])
  {
    hide Answers, Polite, Pieces, Reading;
    ghost var before, outcomes := rx[..], device.outcomes;
    ghost var got: Bytes := [];
    var total: nat := 0;
    ReadingStarts(before, outcomes);
    for i := 0 to Pieces(rx.Length)
      invariant total == XFER_SIZE * i
      invariant Reading(before, outcomes, total, rx[..], device.outcomes)
    {
      ghost var script := device.outcomes;
      PiecesLeft(rx.Length, i);
      ReadingStep(before, outcomes, total, rx[..], script);
      var t := device.Exchange([]);
      if t.Failed? {
        return Err("bulk transfer failed");
      }
      Put(rx, XFER_SIZE * i, t.bytes);
      total := total + |t.bytes|;
      if |t.bytes| < XFER_SIZE {
        return Ok(total);
      }
    }
    PiecesCover(rx.Length);
    ReadingEnds(before, outcomes, total, rx[..], device.outcomes);
    return Ok(total);
  }

  /** `total` bytes have been read into the buffer, and the device has `script` still to answer. */
  ghost predicate Reading(before: Bytes, outcomes: seq<Transfer>, total: nat, rx: Bytes, script: seq<Transfer>) {
    && |rx| == |before| && total <= |rx|
    && rx[total..] == before[total..]
    && Polite(script, |rx| - total)
    && Joined(rx[..total], Answers(script, |rx| - total)) == Answers(outcomes, |rx|)
  }

  lemma {:induction false} PiecesLeft(length: nat, i: nat)
    requires i < Pieces(length)
    ensures XFER_SIZE * i < length
  {}

  lemma {:induction false} PiecesCover(length: nat)
    ensures XFER_SIZE * Pieces(length) >= length
  {}

  lemma {:induction false} ReadingStarts(rx: Bytes, outcomes: seq<Transfer>)
    requires Polite(outcomes, |rx|)
    ensures Reading(rx, outcomes, 0, rx, outcomes)
  {
    hide Polite, Answers;
    AnswersFrom(outcomes, |rx|);
    assert rx[..0] == [];
  }

  /** What one more transfer leads to: failure, the end, or another round. */
  lemma {:induction false} ReadingStep(before: Bytes, outcomes: seq<Transfer>, total: nat, rx: Bytes,
      script: seq<Transfer>)
    requires Reading(before, outcomes, total, rx, script) && total < |rx|
    ensures |rx| == |before|
    ensures script == [] || script[0].Failed? ==> Answers(outcomes, |rx|) == None
    ensures script != [] && script[0].Answered? ==>
              var bytes := script[0].bytes;
              && total + |bytes| <= |rx| && |bytes| <= XFER_SIZE
              && var after := Overwritten(rx, total, bytes);
                 if |bytes| < XFER_SIZE then
                   Answers(outcomes, |rx|) == Some(after[..total + |bytes|])
                   && after == after[..total + |bytes|] + before[total + |bytes|..]
                   && |after[..total + |bytes|]| == total + |bytes|
                 else Reading(before, outcomes, total + |bytes|, after, script[1..])
  {
    hide Polite, Answers;
    var left := |rx| - total;
    AnswersStep(script, left);
    if script != [] && script[0].Answered? {
      PoliteStep(script, left);
      var bytes := script[0].bytes;
      var after := Overwritten(rx, total, bytes);
      assert after[..total + |bytes|] == rx[..total] + bytes;
      assert after[total + |bytes|..] == before[total + |bytes|..];
      assert after == after[..total + |bytes|] + after[total + |bytes|..];
      if |bytes| == XFER_SIZE {
        AnswersLonger(rx[..total], bytes, script[1..], left);
      }
    }
  }

  lemma {:induction false} ReadingEnds(before: Bytes, outcomes: seq<Transfer>, total: nat, rx: Bytes,
      script: seq<Transfer>)
    requires Reading(before, outcomes, total, rx, script) && total >= |before|
    ensures total == |rx| == |before| && Answers(outcomes, |rx|) == Some(rx) && before[total..] == [] && rx + [] == rx
  {
    AnswersEnd(script);
    hide Polite, Answers;
    assert rx[..total] + [] == rx;
  }

  /** Bytes already there, in front of further answers. */
  function Joined(got: Bytes, answers: Option<Bytes>): Option<Bytes> {
    if answers.None? then None else Some(got + answers.value)
  }

  lemma {:induction false} AnswersFrom(outcomes: seq<Transfer>, left: nat)
    ensures Joined([], Answers(outcomes, left)) == Answers(outcomes, left)
  {
    var a := Answers(outcomes, left);
    if a.Some? { assert [] + a.value == a.value; }
  }

  lemma {:induction false} AnswersEnd(outcomes: seq<Transfer>)
    ensures Answers(outcomes, 0) == Some([])
    ensures forall got: Bytes :: got + [] == got
  {}

  lemma {:induction false} AnswersLonger(got: Bytes, bytes: Bytes, rest: seq<Transfer>, left: nat)
    requires |bytes| == XFER_SIZE <= left
    ensures Joined(got, match Answers(rest, left - XFER_SIZE) case None => None case Some(a) => Some(bytes + a))
         == Joined(got + bytes, Answers(rest, left - XFER_SIZE))
  {
    var a := Answers(rest, left - XFER_SIZE);
    if a.Some? { assert got + (bytes + a.value) == (got + bytes) + a.value; }
  }

  method Put(rx: array<Byte>, n: nat, bytes: Bytes)
    requires n + |bytes| <= rx.Length
    modifies rx
    ensures rx[..] == Overwritten(old(rx[..]), n, bytes)
  {
    forall k | 0 <= k < |bytes| { rx[n + k] := bytes[k]; }
  }
}

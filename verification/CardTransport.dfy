/** Sending byte strings to the eUICC as segmented STORE DATA commands, and fetching the answers. */
module CardTransport {
  import opened Arith
  import opened Octets
  import opened Tlv
  import opened ProfilePackage
  import opened Wrappers

  const ES10X_MSS: nat := 120
  const TAG_PROFILE_INSTALL_RESULT: nat := 0xBF37
  const TAG_INSTALL_RESULT_DATA: nat := 0xBF27

  // ---------- segments ----------

  /** One STORE DATA command; P1 tells the last segment from the others. */
  function StoreData(chunk: Bytes, last: bool, sequence: nat): Bytes
    requires |chunk| <= 255
  {
    [0x80, 0xE2, if last then 0x91 else 0x11, sequence % 256, |chunk|] + chunk
  }

  function GetResponse(length: Byte): Bytes { [0x80, 0xC0, 0, 0, length] }

  /** The commands that carry the data, numbered from sequence on. */
  function Segments(data: Bytes, sequence: nat): seq<Bytes> {
    if data == [] then []
    else
      var n := Least(ES10X_MSS, |data|);
      [StoreData(data[..n], n == |data|, sequence)] + Segments(data[n..], sequence + 1)
  }

  /** The data a command carries. */
  function Payload(command: Bytes): Bytes { if |command| < 5 then [] else command[5..] }

  function Payloads(commands: seq<Bytes>): Bytes {
    if commands == [] then [] else Payload(commands[0]) + Payloads(commands[1..])
  }

  lemma {:induction false} PayloadsConcat(a: seq<Bytes>, b: seq<Bytes>)
    ensures Payloads(a + b) == Payloads(a) + Payloads(b)
  {
    if a == [] {
      assert a + b == b;
    } else {
      assert (a + b)[1..] == a[1..] + b;
      PayloadsConcat(a[1..], b);
      Associates(Payload(a[0]), Payloads(a[1..]), Payloads(b));
    }
  }

  lemma {:induction false} FirstSegment(data: Bytes, sequence: nat)
    requires data != []
    ensures var n := Least(ES10X_MSS, |data|);
            Segments(data, sequence)
            == [StoreData(data[..n], n == |data|, sequence)] + Segments(data[n..], sequence + 1)
  {}

  /** Segment i holds bytes 120 i onwards, at most 120 of them, and is marked last exactly when none follow. */
  lemma {:induction false} SegmentAt(data: Bytes, sequence: nat, i: nat)
    requires 120 * i < |data|
    ensures var from, to := 120 * i, Least(120 * i + 120, |data|);
            && i < |Segments(data, sequence)|
            && Segments(data, sequence)[i] ==
               [0x80, 0xE2, if to == |data| then 0x91 else 0x11, (sequence + i) % 256, to - from] + data[from..to]
  {
    hide Segments;
    FirstSegment(data, sequence);
    var n := Least(ES10X_MSS, |data|);
    if i > 0 {
      SegmentAt(data[n..], sequence + 1, i - 1);
      var from, to := 120 * i, Least(120 * i + 120, |data|);
      Shift(data, n, from, to);
    }
  }

  /** There are no more segments than needed, and together they carry the data. */
  lemma {:induction false} SegmentsCarry(data: Bytes, sequence: nat)
    ensures |Segments(data, sequence)| == (|data| + 119) / 120
    ensures Payloads(Segments(data, sequence)) == data
    decreases |data|
  {
    if data != [] {
      var n := Least(ES10X_MSS, |data|);
      SegmentsCarry(data[n..], sequence + 1);
      assert Payload(StoreData(data[..n], n == |data|, sequence)) == data[..n];
      var rest := Segments(data[n..], sequence + 1);
      assert Segments(data, sequence)[1..] == rest;
      hide Segments, StoreData, Payload;
      assert data == data[..n] + data[n..];
    }
  }

  // ---------- what the card makes of the segments ----------

  /** Commands put together so far, and the data of the one being received. */
  datatype Inbox = Inbox(received: seq<Bytes>, pending: Bytes)

  function Accept(box: Inbox, command: Bytes): Inbox
    requires |command| >= 5
  {
    if command[2] == 0x91 then Inbox(box.received + [box.pending + command[5..]], [])
    else Inbox(box.received, box.pending + command[5..])
  }

  function AcceptAll(box: Inbox, commands: seq<Bytes>): Inbox
    requires forall i :: 0 <= i < |commands| ==> |commands[i]| >= 5
    decreases |commands|
  {
    if commands == [] then box else AcceptAll(Accept(box, commands[0]), commands[1..])
  }

  lemma {:induction false} SegmentsAreCommands(data: Bytes, sequence: nat)
    ensures forall i :: 0 <= i < |Segments(data, sequence)| ==>
              |Segments(data, sequence)[i]| >= 5 && Segments(data, sequence)[i][1] == 0xE2
    decreases |data|
  {
    if data != [] { SegmentsAreCommands(data[Least(ES10X_MSS, |data|)..], sequence + 1); }
  }

  /** A card that joins segments up to the one marked last receives the data as one command. */
  lemma {:induction false} SegmentsReassemble(data: Bytes, sequence: nat, box: Inbox)
    requires data != []
    ensures forall i :: 0 <= i < |Segments(data, sequence)| ==> |Segments(data, sequence)[i]| >= 5
    ensures AcceptAll(box, Segments(data, sequence)) == Inbox(box.received + [box.pending + data], [])
    decreases |data|
  {
    SegmentsAreCommands(data, sequence);
    var n := Least(ES10X_MSS, |data|);
    var first, rest := StoreData(data[..n], n == |data|, sequence), Segments(data[n..], sequence + 1);
    assert Segments(data, sequence)[1..] == rest;
    assert first[5..] == data[..n] && data[..n] + data[n..] == data;
    if n < |data| {
      var next := Inbox(box.received, box.pending + data[..n]);
      assert Accept(box, first) == next;
      SegmentsReassemble(data[n..], sequence + 1, next);
      hide Segments, StoreData;
      Associates(box.pending, data[..n], data[n..]);
    } else {
      assert data[..n] == data && rest == [];
    }
  }

  // ---------- the conversation ----------

  /** What the card answers to a command: data and status. */
  datatype Reply = Reply(segment: Bytes, sw1: Byte, sw2: Byte)

  /** The commands sent, how many replies they used up, and what came of it. */
  datatype Outcome = Outcome(sent: seq<Bytes>, used: nat, response: Result<Bytes>)

  const APDU_ERROR: string := "APDU failed"
  const NO_REPLY: string := "Missing +CGLA response"

  /** An outcome preceded by commands, replies and response bytes. */
  function After(sent: seq<Bytes>, used: nat, response: Bytes, rest: Outcome): Outcome {
    Outcome(sent + rest.sent, used + rest.used,
            if rest.response.Ok? then Ok(response + rest.response.value) else rest.response)
  }

  predicate MoreData(reply: Reply) { reply.sw1 == 0x61 }

  predicate Done(reply: Reply) { reply.sw1 / 16 == 9 }

  /** Commands are sent in turn, each followed by as many requests for more as the card calls for. */
  function Converse(commands: seq<Bytes>, replies: seq<Reply>): Outcome
    decreases |replies|, 0
  {
    if commands == [] then Outcome([], 0, Ok([]))
    else if replies == [] then Outcome([commands[0]], 0, Err(NO_REPLY))
    else After([commands[0]], 1, [], Answered(replies[0], commands[1..], replies[1..]))
  }

  function Answered(reply: Reply, commands: seq<Bytes>, replies: seq<Reply>): Outcome
    decreases |replies|, 1
  {
    if MoreData(reply) then
      if replies == [] then Outcome([GetResponse(reply.sw2)], 0, Err(NO_REPLY))
      else After([GetResponse(reply.sw2)], 1, reply.segment, Answered(replies[0], commands, replies[1..]))
    else if Done(reply) then After([], 0, reply.segment, Converse(commands, replies))
    else Outcome([], 0, Err(APDU_ERROR))
  }

  lemma {:induction false} ConverseStep(commands: seq<Bytes>, replies: seq<Reply>)
    requires commands != []
    ensures Converse(commands, replies)
         == if replies == [] then Outcome([commands[0]], 0, Err(NO_REPLY))
            else After([commands[0]], 1, [], Answered(replies[0], commands[1..], replies[1..]))
  {}

  lemma {:induction false} AnsweredStep(reply: Reply, commands: seq<Bytes>, replies: seq<Reply>)
    ensures Answered(reply, commands, replies)
         == if MoreData(reply) then
              if replies == [] then Outcome([GetResponse(reply.sw2)], 0, Err(NO_REPLY))
              else After([GetResponse(reply.sw2)], 1, reply.segment, Answered(replies[0], commands, replies[1..]))
            else if Done(reply) then After([], 0, reply.segment, Converse(commands, replies))
            else Outcome([], 0, Err(APDU_ERROR))
  {}

  lemma {:induction false} AfterAfter(a: seq<Bytes>, i: nat, x: Bytes, b: seq<Bytes>, j: nat, y: Bytes, rest: Outcome)
    ensures After(a, i, x, After(b, j, y, rest)) == After(a + b, i + j, x + y, rest)
  {
    assert a + (b + rest.sent) == (a + b) + rest.sent;
    if rest.response.Ok? {
      assert x + (y + rest.response.value) == (x + y) + rest.response.value;
    }
  }

  // ---------- what every conversation keeps ----------

  /** The STORE DATA commands among those sent. */
  function Stores(sent: seq<Bytes>): seq<Bytes> {
    if sent == [] then []
    else (if |sent[0]| > 1 && sent[0][1] == 0xE2 then [sent[0]] else []) + Stores(sent[1..])
  }

  lemma {:induction false} StoresFront(first: Bytes, rest: seq<Bytes>)
    ensures Stores([first] + rest) == (if |first| > 1 && first[1] == 0xE2 then [first] else []) + Stores(rest)
  {
    assert ([first] + rest)[1..] == rest;
  }

  predicate AreStores(commands: seq<Bytes>) {
    forall i :: 0 <= i < |commands| ==> |commands[i]| > 1 && commands[i][1] == 0xE2
  }

  /** All reply data, in order. */
  function Segment(replies: seq<Reply>): Bytes {
    if replies == [] then [] else replies[0].segment + Segment(replies[1..])
  }

  lemma {:induction false} SegmentFront(replies: seq<Reply>, used: nat)
    requires 0 < used <= |replies|
    ensures Segment(replies[..used]) == replies[0].segment + Segment(replies[1..][..used - 1])
  {
    assert replies[..used][1..] == replies[1..][..used - 1];
  }

  /** What holds of an outcome that took these commands and replies. */
  ghost predicate Faithful(o: Outcome, commands: seq<Bytes>, replies: seq<Reply>) {
    && o.used <= |replies|
    && Stores(o.sent) <= commands
    && (o.response.Ok? ==>
          Stores(o.sent) == commands && |o.sent| == o.used && o.response.value == Segment(replies[..o.used]))
  }

  /** Before the answers to one command are complete, a reply is already at hand. */
  ghost predicate FaithfulFrom(o: Outcome, reply: Reply, commands: seq<Bytes>, replies: seq<Reply>) {
    && o.used <= |replies|
    && Stores(o.sent) <= commands
    && (o.response.Ok? ==>
          Stores(o.sent) == commands && |o.sent| == o.used
          && o.response.value == reply.segment + Segment(replies[..o.used]))
  }

  /** A request for more data in front of a faithful outcome. */
  lemma {:induction false} MoreIsFaithful(reply: Reply, commands: seq<Bytes>, replies: seq<Reply>, o: Outcome)
    requires replies != [] && FaithfulFrom(o, replies[0], commands, replies[1..])
    ensures FaithfulFrom(After([GetResponse(reply.sw2)], 1, reply.segment, o), reply, commands, replies)
  {
    hide Stores, Segment;
    StoresFront(GetResponse(reply.sw2), o.sent);
    SegmentFront(replies, o.used + 1);
  }

  /** A command in front of a faithful outcome. */
  lemma {:induction false} FirstIsFaithful(first: Bytes, rest: seq<Bytes>, replies: seq<Reply>, o: Outcome)
    requires |first| > 1 && first[1] == 0xE2
    requires replies != [] && FaithfulFrom(o, replies[0], rest, replies[1..])
    ensures Faithful(After([first], 1, [], o), [first] + rest, replies)
  {
    hide Stores, Segment;
    StoresFront(first, o.sent);
    SegmentFront(replies, o.used + 1);
    if o.response.Ok? {
      assert [] + o.response.value == o.response.value;
    }
  }

  lemma {:induction false} ConverseIsFaithful(commands: seq<Bytes>, replies: seq<Reply>)
    requires AreStores(commands)
    ensures Faithful(Converse(commands, replies), commands, replies)
    decreases |replies|, 0
  {
    if commands == [] {
      assert replies[..0] == [];
    } else {
      var first, rest := commands[0], commands[1..];
      assert commands == [first] + rest;
      StoresFront(first, []);
      assert [first] + [] == [first];
      if replies != [] {
        AnsweredIsFaithful(replies[0], rest, replies[1..]);
        FirstIsFaithful(first, rest, replies, Answered(replies[0], rest, replies[1..]));
      }
    }
  }

  lemma {:induction false} AnsweredIsFaithful(reply: Reply, commands: seq<Bytes>, replies: seq<Reply>)
    requires AreStores(commands)
    ensures FaithfulFrom(Answered(reply, commands, replies), reply, commands, replies)
    decreases |replies|, 1
  {
    if MoreData(reply) {
      var get := GetResponse(reply.sw2);
      StoresFront(get, []);
      assert [get] + [] == [get];
      if replies != [] {
        AnsweredIsFaithful(replies[0], commands, replies[1..]);
        MoreIsFaithful(reply, commands, replies, Answered(replies[0], commands, replies[1..]));
      }
    } else if Done(reply) {
      ConverseIsFaithful(commands, replies);
      var o := Converse(commands, replies);
      assert [] + o.sent == o.sent;
    }
  }

  predicate Fine(reply: Reply) { MoreData(reply) || Done(reply) }

  /** Success means only good replies; failure means the last one was bad, or there was none. */
  ghost predicate Justified(used: nat, response: Result<Bytes>, replies: seq<Reply>) {
    && used <= |replies|
    && (forall i :: 0 <= i < used - 1 ==> Fine(replies[i]))
    && (response.Ok? ==> forall i :: 0 <= i < used ==> Fine(replies[i]))
    && (response.Err? ==>
          || (response.error == NO_REPLY && used == |replies| && forall i :: 0 <= i < used ==> Fine(replies[i]))
          || (response.error == APDU_ERROR && used > 0 && !Fine(replies[used - 1])))
  }

  lemma {:induction false} JustifiedGrows(used: nat, before: Result<Bytes>, after: Result<Bytes>, reply: Reply,
      replies: seq<Reply>)
    requires Justified(used, before, replies) && Fine(reply)
    requires after.Ok? <==> before.Ok?
    requires before.Err? ==> after == before
    ensures Justified(used + 1, after, [reply] + replies)
  {
    hide Fine;
    var all := [reply] + replies;
    assert forall i :: 0 < i < |all| ==> all[i] == replies[i - 1];
  }

  lemma {:induction false} ConverseIsJustified(commands: seq<Bytes>, replies: seq<Reply>)
    ensures var o := Converse(commands, replies); Justified(o.used, o.response, replies)
    decreases |replies|, 0
  {
    if commands != [] && replies != [] {
      AnsweredIsJustified(replies[0], commands[1..], replies[1..]);
      assert [replies[0]] + replies[1..] == replies;
      hide Fine, Answered;
    }
  }

  lemma {:induction false} AnsweredIsJustified(reply: Reply, commands: seq<Bytes>, replies: seq<Reply>)
    ensures var o := Answered(reply, commands, replies); Justified(o.used + 1, o.response, [reply] + replies)
    decreases |replies|, 1
  {
    AnsweredStep(reply, commands, replies);
    hide Answered, Converse;
    var o := Answered(reply, commands, replies);
    if MoreData(reply) && replies != [] {
      AnsweredIsJustified(replies[0], commands, replies[1..]);
      assert [replies[0]] + replies[1..] == replies;
      var rest := Answered(replies[0], commands, replies[1..]);
      JustifiedGrows(rest.used + 1, rest.response, o.response, reply, replies);
    } else if Done(reply) {
      ConverseIsJustified(commands, replies);
      var rest := Converse(commands, replies);
      JustifiedGrows(rest.used, rest.response, o.response, reply, replies);
    }
  }

  /** A data string sent in segments: the card gets a front part of the segments, all of them unless it refuses. */
  lemma {:induction false} DataArrives(data: Bytes, replies: seq<Reply>)
    ensures var o := Converse(Segments(data, 0), replies);
            && Stores(o.sent) <= Segments(data, 0)
            && (o.response.Ok? ==> Payloads(Stores(o.sent)) == data)
  {
    SegmentsAreCommands(data, 0);
    ConverseIsFaithful(Segments(data, 0), replies);
    SegmentsCarry(data, 0);
    hide Segments, Converse, Payloads, Stores, Segment;
  }

  /** The command after reply `before`: a request for what it announced, or a new STORE DATA once it is done. */
  predicate Follows(command: Bytes, before: Reply) {
    if MoreData(before) then command == [0x80, 0xC0, 0, 0, before.sw2]
    else Done(before) && |command| > 1 && command[1] == 0xE2
  }

  /** Every command follows the reply to the one before it; the first follows `reply`. */
  ghost predicate InStep(sent: seq<Bytes>, reply: Reply, replies: seq<Reply>) {
    && (sent != [] ==> |replies| >= |sent| - 1 && Follows(sent[0], reply))
    && forall i :: 0 < i < |sent| ==> Follows(sent[i], replies[i - 1])
  }

  lemma {:induction false} InStepGrows(first: Bytes, sent: seq<Bytes>, reply: Reply, replies: seq<Reply>)
    requires replies != [] && InStep(sent, replies[0], replies[1..]) && Follows(first, reply)
    ensures InStep([first] + sent, reply, replies)
  {
    hide Follows;
    var all := [first] + sent;
    forall i | 0 < i < |all| ensures Follows(all[i], replies[i - 1]) {
      assert all[i] == sent[i - 1];
      assert i > 1 ==> replies[i - 1] == replies[1..][i - 2];
    }
  }

  lemma {:induction false} AnsweredInStep(reply: Reply, commands: seq<Bytes>, replies: seq<Reply>)
    requires AreStores(commands)
    ensures InStep(Answered(reply, commands, replies).sent, reply, replies)
    decreases |replies|
  {
    if MoreData(reply) {
      if replies != [] {
        AnsweredInStep(replies[0], commands, replies[1..]);
        InStepGrows(GetResponse(reply.sw2), Answered(replies[0], commands, replies[1..]).sent, reply, replies);
      }
    } else if Done(reply) && commands != [] {
      if replies != [] {
        AnsweredInStep(replies[0], commands[1..], replies[1..]);
        var o := Answered(replies[0], commands[1..], replies[1..]);
        InStepGrows(commands[0], o.sent, reply, replies);
        assert Answered(reply, commands, replies).sent == [] + ([commands[0]] + o.sent);
        assert [] + ([commands[0]] + o.sent) == [commands[0]] + o.sent;
      }
    }
  }

  // ---------- the transport ----------

  /** A card that answers from a script; once it runs out, sending fails. */
  class Card {
    var replies: seq<Reply>
    var sent: seq<Bytes>

    constructor (script: seq<Reply>)
      ensures replies == script && sent == []
    {
      replies, sent := script, [];
    }

    method SendApdu(apdu: Bytes) returns (answer: Option<Reply>)
      modifies this
      ensures sent == old(sent) + [apdu]
      ensures old(replies) == [] ==> answer == None && replies == []
      ensures old(replies) != [] ==> answer == Some(old(replies[0])) && replies == old(replies[1..])
    {
      sent := sent + [apdu];
      if replies == [] { return None; }
      answer := Some(replies[0]);
      replies := replies[1..];
    }
  }

  lemma {:induction false} SegmentsStep(data: Bytes, offset: nat, sequence: nat)
    requires offset < |data|
    ensures var n := Least(ES10X_MSS, |data| - offset);
            && 0 < n <= ES10X_MSS <= 255 && offset + n <= |data|
            && Segments(data[offset..], sequence)
            == [StoreData(data[offset..offset + n], offset + n == |data|, sequence)]
               + Segments(data[offset + n..], sequence + 1)
  {
    var n := Least(ES10X_MSS, |data| - offset);
    assert data[offset..][..n] == data[offset..offset + n] && data[offset..][n..] == data[offset + n..];
  }

  lemma {:induction false} NoSegments(data: Bytes, sequence: nat)
    ensures Segments(data[|data|..], sequence) == []
  {}

  lemma {:induction false} NothingLeft(sent: seq<Bytes>, used: nat, response: Bytes, replies: seq<Reply>)
    ensures After(sent, used, response, Converse([], replies)) == Outcome(sent, used, Ok(response))
  {
    assert sent + [] == sent && response + [] == response;
  }

  lemma {:induction false} AfterFailure(sent: seq<Bytes>, used: nat, response: Bytes, o: Outcome)
    requires o.response.Err?
    ensures After(sent, used, response, o) == Outcome(sent + o.sent, used + o.used, o.response)
  {}

  lemma {:induction false} AfterNothing(o: Outcome)
    ensures After([], 0, [], o) == o
  {
    assert [] + o.sent == o.sent;
    if o.response.Ok? { assert [] + o.response.value == o.response.value; }
  }

  /** The commands sent since `sent0`, in an exchange foretold by o that still has `rest` to come. */
  ghost predicate Underway(card: Card, sent0: seq<Bytes>, replies0: seq<Reply>, o: Outcome,
                           sent: seq<Bytes>, used: nat, response: Bytes, rest: Outcome)
    reads card
  {
    && card.sent == sent0 + sent
    && used <= |replies0| && card.replies == replies0[used..]
    && o == After(sent, used, response, rest)
  }

  lemma {:induction false} NextReply(replies: seq<Reply>, used: nat)
    requires used < |replies|
    ensures replies[used..] != [] && replies[used..][0] == replies[used] && replies[used..][1..] == replies[used + 1..]
  {}

  lemma {:induction false} AnsweredSplits(reply: Reply, a: seq<Bytes>, b: seq<Bytes>, replies: seq<Reply>)
    ensures var o := Answered(reply, a, replies);
            && o.used <= |replies|
            && Answered(reply, a + b, replies)
            == if o.response.Ok? then After(o.sent, o.used, o.response.value, Converse(b, replies[o.used..])) else o
    decreases |replies|, 1
  {
    AnsweredStep(reply, a, replies);
    AnsweredStep(reply, a + b, replies);
    if MoreData(reply) {
      if replies != [] {
        AnsweredSplits(replies[0], a, b, replies[1..]);
        var o := Answered(replies[0], a, replies[1..]);
        hide Converse, Answered;
        assert replies[1..][o.used..] == replies[o.used + 1..];
        if o.response.Ok? {
          AfterAfter([GetResponse(reply.sw2)], 1, reply.segment, o.sent, o.used, o.response.value,
                     Converse(b, replies[o.used + 1..]));
        }
      }
    } else if Done(reply) {
      ConverseSplits(a, b, replies);
      var o := Converse(a, replies);
      hide Converse, Answered;
      if o.response.Ok? {
        AfterAfter([], 0, reply.segment, o.sent, o.used, o.response.value, Converse(b, replies[o.used..]));
      }
    }
  }

  /** A conversation about more commands is one about the first ones, then, if that goes well, one about the others. */
  lemma {:induction false} ConverseSplits(a: seq<Bytes>, b: seq<Bytes>, replies: seq<Reply>)
    ensures var o := Converse(a, replies);
            && o.used <= |replies|
            && Converse(a + b, replies)
            == if o.response.Ok? then After(o.sent, o.used, o.response.value, Converse(b, replies[o.used..])) else o
    decreases |replies|, 0
  {
    if a == [] {
      assert a + b == b && replies[0..] == replies;
      AfterNothing(Converse(b, replies));
    } else {
      ConverseStep(a, replies);
      ConverseStep(a + b, replies);
      assert (a + b)[1..] == a[1..] + b;
      if replies != [] {
        AnsweredSplits(replies[0], a[1..], b, replies[1..]);
        var o := Answered(replies[0], a[1..], replies[1..]);
        hide Converse, Answered;
        assert replies[1..][o.used..] == replies[o.used + 1..];
        if o.response.Ok? {
          AfterAfter([a[0]], 1, [], o.sent, o.used, o.response.value, Converse(b, replies[o.used + 1..]));
        }
      }
    }
  }

  /** Sends one command and fetches everything the card has to say to it. */
  method SendCommand(client: Card, apdu: Bytes) returns (r: Result<Bytes>)
    modifies client
    ensures var o := Converse([apdu], old(client.replies));
            && o.used <= |old(client.replies)|
            && client.sent == old(client.sent) + o.sent
            && client.replies == old(client.replies)[o.used..]
            && r == o.response
  {
    hide *;
    ghost var sent0, replies0 := client.sent, client.replies;
    ghost var o := Converse([apdu], replies0);
    ConverseStep([apdu], replies0);
    assert [apdu][1..] == [];
    var answer := client.SendApdu(apdu);
    if answer.None? { return Err(NO_REPLY); }
    ghost var sent: seq<Bytes>, used, before: Bytes := [apdu], 1, [];
    var reply := answer.value;
    var response := reply.segment;
    UnderwayIs(client, sent0, replies0, o, sent, used, before, Answered(reply, [], replies0[used..]));
    while true
      invariant used <= |replies0| && response == before + reply.segment
      invariant Underway(client, sent0, replies0, o, sent, used, before, Answered(reply, [], replies0[used..]))
      decreases |client.replies|
    {
      UnderwayIs(client, sent0, replies0, o, sent, used, before, Answered(reply, [], replies0[used..]));
      AnsweredStep(reply, [], replies0[used..]);
      StatusOf(reply);
      if reply.sw1 == 0x61 {
        var get := GetResponse(reply.sw2);
        answer := client.SendApdu(get);
        assert sent0 + sent + [get] == sent0 + (sent + [get]);
        if answer.None? {
          AfterFailure(sent, used, before, Outcome([get], 0, Err(NO_REPLY)));
          return Err(NO_REPLY);
        }
        NextReply(replies0, used);
        AfterAfter(sent, used, before, [get], 1, reply.segment, Answered(answer.value, [], replies0[used + 1..]));
        sent, used, before := sent + [get], used + 1, response;
        reply := answer.value;
        response := response + reply.segment;
        UnderwayIs(client, sent0, replies0, o, sent, used, before, Answered(reply, [], replies0[used..]));
        continue;
      }
      if reply.sw1 / 16 == 9 {
        AfterAfter(sent, used, before, [], 0, reply.segment, Converse([], replies0[used..]));
        NothingLeft(sent, used, response, replies0[used..]);
        assert sent + [] == sent;
        return Ok(response);
      }
      AfterFailure(sent, used, before, Outcome([], 0, Err(APDU_ERROR)));
      assert sent + [] == sent;
      return Err(APDU_ERROR);
    }
  }

  lemma {:induction false} StatusOf(reply: Reply)
    ensures MoreData(reply) <==> reply.sw1 == 0x61
    ensures Done(reply) <==> reply.sw1 / 16 == 9
  {}

  lemma {:induction false} UnderwayIs(card: Card, sent0: seq<Bytes>, replies0: seq<Reply>, o: Outcome,
                   sent: seq<Bytes>, used: nat, response: Bytes, rest: Outcome)
    ensures Underway(card, sent0, replies0, o, sent, used, response, rest)
       <==> card.sent == sent0 + sent && used <= |replies0| && card.replies == replies0[used..]
            && o == After(sent, used, response, rest)
  {}

  /** Sends the data and returns the joined answers. */
  method Es10xCommand(client: Card, data: Bytes) returns (r: Result<Bytes>)
    modifies client
    ensures var o := Converse(Segments(data, 0), old(client.replies));
            && o.used <= |old(client.replies)|
            && client.sent == old(client.sent) + o.sent
            && client.replies == old(client.replies)[o.used..]
            && r == o.response
  {
    hide *;
    ghost var sent0, replies0 := client.sent, client.replies;
    ghost var o := Converse(Segments(data, 0), replies0);
    ghost var sent: seq<Bytes>, used := [], 0;
    var response: Bytes := [];
    var sequence, offset := 0, 0;
    AfterNothing(o);
    assert data[0..] == data && replies0[0..] == replies0 && sent0 + [] == sent0;
    UnderwayIs(client, sent0, replies0, o, [], 0, [], o);
    while offset < |data|
      invariant offset <= |data| && used <= |replies0|
      invariant Underway(client, sent0, replies0, o, sent, used, response,
                         Converse(Segments(data[offset..], sequence), replies0[used..]))
    {
      UnderwayIs(client, sent0, replies0, o, sent, used, response,
                 Converse(Segments(data[offset..], sequence), replies0[used..]));
      SegmentsStep(data, offset, sequence);
      var chunk := data[offset..offset + Least(ES10X_MSS, |data| - offset)];
      offset := offset + |chunk|;
      var isLast := offset == |data|;
      var apdu := StoreData(chunk, isLast, sequence);
      ghost var rest := Segments(data[offset..], sequence + 1);
      ConverseSplits([apdu], rest, replies0[used..]);
      ghost var one := Converse([apdu], replies0[used..]);
      var answer := SendCommand(client, apdu);
      assert sent0 + sent + one.sent == sent0 + (sent + one.sent);
      assert replies0[used..][one.used..] == replies0[used + one.used..];
      if answer.Err? {
        AfterFailure(sent, used, response, one);
        return answer;
      }
      AfterAfter(sent, used, response, one.sent, one.used, answer.value, Converse(rest, replies0[used + one.used..]));
      sent, used := sent + one.sent, used + one.used;
      response := response + answer.value;
      sequence := sequence + 1;
      UnderwayIs(client, sent0, replies0, o, sent, used, response,
                 Converse(Segments(data[offset..], sequence), replies0[used..]));
    }
    UnderwayIs(client, sent0, replies0, o, sent, used, response,
               Converse(Segments(data[offset..], sequence), replies0[used..]));
    NoSegments(data, sequence);
    NothingLeft(sent, used, response, replies0[used..]);
    return Ok(response);
  }

  // ---------- loading a package ----------

  /** The answer reports how the installation went. */
  predicate HasInstallResult(response: Bytes) {
    && response != []
    && var root := FindTag(response, TAG_PROFILE_INSTALL_RESULT);
       root.Some? && root.value != []
       && var result := FindTag(root.value, TAG_INSTALL_RESULT_DATA);
          result.Some? && result.value != []
  }

  /** Field i is the first one with the tag. */
  predicate FirstWith(fields: seq<Field>, i: nat, tag: nat) {
    i < |fields| && fields[i].tag == tag && forall k :: 0 <= k < i ==> fields[k].tag != tag
  }

  lemma {:induction false} FieldFound(fields: seq<Field>, i: nat, tag: nat)
    requires WellFormed(fields)
    ensures (forall k :: 0 <= k < |fields| ==> fields[k].tag != tag) ==> FindTag(EncodeAll(fields), tag) == None
    ensures FirstWith(fields, i, tag) ==> FindTag(EncodeAll(fields), tag) == Some(fields[i].value)
  {
    hide EncodeAll, FindTag;
    if FirstWith(fields, i, tag) { FindsFirstField(fields, i); }
    if forall k :: 0 <= k < |fields| ==> fields[k].tag != tag { FindsNoField(fields, tag); }
  }

  lemma {:induction false} NothingInNothing(tag: nat)
    ensures FindTag([], tag) == None
  {}

  /** An answer without a field of the outer tag is none; otherwise the first field of the inner tag in the first of
      the outer one decides. */
  lemma {:induction false} InstallResultIs(fields: seq<Field>, i: nat, inner: seq<Field>, j: nat)
    requires WellFormed(fields) && WellFormed(inner)
    ensures (forall k :: 0 <= k < |fields| ==> fields[k].tag != 0xBF37) ==> !HasInstallResult(EncodeAll(fields))
    ensures FirstWith(fields, i, 0xBF37) && fields[i].value == EncodeAll(inner) ==>
              && ((forall k :: 0 <= k < |inner| ==> inner[k].tag != 0xBF27) ==> !HasInstallResult(EncodeAll(fields)))
              && (FirstWith(inner, j, 0xBF27) ==>
                    (HasInstallResult(EncodeAll(fields)) <==> inner[j].value != []))
  {
    hide EncodeAll, FindTag, FirstWith, WellFormed;
    FieldFound(fields, i, 0xBF37);
    FieldFound(inner, j, 0xBF27);
    NothingInNothing(0xBF37);
    NothingInNothing(0xBF27);
  }

  const NO_RESULT: string := "Profile installation failed: no result from eUICC"

  /** Like an outcome, with the number of chunks that were answered. */
  datatype Loaded = Loaded(sent: seq<Bytes>, used: nat, answered: nat, response: Result<Bytes>)

  /** Chunks are sent in turn until one answer holds an installation result. */
  function Load(chunks: seq<Bytes>, replies: seq<Reply>): Loaded {
    if chunks == [] then Loaded([], 0, 0, Err(NO_RESULT))
    else
      ConverseSplits(Segments(chunks[0], 0), [], replies);
      var o := Converse(Segments(chunks[0], 0), replies);
      if o.response.Err? then Loaded(o.sent, o.used, 0, o.response)
      else if HasInstallResult(o.response.value) then Loaded(o.sent, o.used, 1, o.response)
      else
        var rest := Load(chunks[1..], replies[o.used..]);
        Loaded(o.sent + rest.sent, o.used + rest.used, 1 + rest.answered, rest.response)
  }

  lemma {:induction false} LoadOfNone(replies: seq<Reply>)
    ensures Load([], replies) == Loaded([], 0, 0, Err(NO_RESULT))
  {}

  lemma {:induction false} LoadStep(chunks: seq<Bytes>, replies: seq<Reply>)
    requires chunks != []
    ensures var o := Converse(Segments(chunks[0], 0), replies);
            && o.used <= |replies|
            && Load(chunks, replies)
            == if o.response.Err? then Loaded(o.sent, o.used, 0, o.response)
               else if HasInstallResult(o.response.value) then Loaded(o.sent, o.used, 1, o.response)
               else var rest := Load(chunks[1..], replies[o.used..]);
                    Loaded(o.sent + rest.sent, o.used + rest.used, 1 + rest.answered, rest.response)
  {
    hide Converse, Segments, HasInstallResult;
    ConverseSplits(Segments(chunks[0], 0), [], replies);
  }

  /** The commands for several byte strings. */
  function AllSegments(chunks: seq<Bytes>): seq<Bytes> {
    if chunks == [] then [] else Segments(chunks[0], 0) + AllSegments(chunks[1..])
  }

  lemma {:induction false} NothingCarried()
    ensures Payloads([]) == [] && Flatten([]) == []
  {}

  lemma {:induction false} AllSegmentsCarry(chunks: seq<Bytes>)
    ensures Payloads(AllSegments(chunks)) == Flatten(chunks)
  {
    hide Segments, Payloads, Flatten;
    if chunks == [] {
      NothingCarried();
    } else {
      SegmentsCarry(chunks[0], 0);
      AllSegmentsCarry(chunks[1..]);
      PayloadsConcat(Segments(chunks[0], 0), AllSegments(chunks[1..]));
      FlattenFront(chunks[0], chunks[1..]);
      assert chunks == [chunks[0]] + chunks[1..];
    }
  }

  lemma {:induction false} StoresConcat(a: seq<Bytes>, b: seq<Bytes>)
    ensures Stores(a + b) == Stores(a) + Stores(b)
  {
    if a == [] {
      assert a + b == b;
    } else {
      assert (a + b)[1..] == a[1..] + b;
      StoresConcat(a[1..], b);
    }
  }

  /** Every chunk that was answered went out whole, nothing out of turn, and nothing was left out unless the card
      stopped it. */
  ghost predicate InTurn(l: Loaded, chunks: seq<Bytes>) {
    && l.answered <= |chunks|
    && AllSegments(chunks[..l.answered]) <= Stores(l.sent) <= AllSegments(chunks)
    && (l.response.Ok? ==> l.answered > 0 && Stores(l.sent) == AllSegments(chunks[..l.answered])
                           && HasInstallResult(l.response.value))
    && (l.response == Err(NO_RESULT) ==> l.answered == |chunks|)
  }

  lemma {:induction false} AllSegmentsStep(first: Bytes, later: seq<Bytes>)
    ensures AllSegments([]) == []
    ensures AllSegments([first] + later) == Segments(first, 0) + AllSegments(later)
  {
    assert ([first] + later)[1..] == later;
  }

  /** One chunk in turn, the last one to be sent. */
  lemma {:induction false} InTurnStops(o: Outcome, first: Bytes, later: seq<Bytes>, answered: nat)
    requires Stores(o.sent) <= Segments(first, 0) && answered <= 1
    requires answered == 1 ==> Stores(o.sent) == Segments(first, 0)
    requires o.response.Ok? ==> answered == 1 && HasInstallResult(o.response.value)
    requires o.response != Err(NO_RESULT)
    ensures InTurn(Loaded(o.sent, o.used, answered, o.response), [first] + later)
  {
    AllSegmentsStep(first, later);
    AllSegmentsStep(first, []);
    hide Segments, Stores, HasInstallResult, AllSegments;
    assert [first] + [] == [first];
    assert ([first] + later)[..answered] == if answered == 0 then [] else [first];
    assert Segments(first, 0) + [] == Segments(first, 0);
  }

  /** One chunk in turn, then the others. */
  lemma {:induction false} InTurnGrows(sent: seq<Bytes>, used: nat, first: Bytes, later: seq<Bytes>, rest: Loaded)
    requires Stores(sent) == Segments(first, 0) && InTurn(rest, later)
    ensures InTurn(Loaded(sent + rest.sent, used + rest.used, 1 + rest.answered, rest.response), [first] + later)
  {
    hide Segments, Stores, HasInstallResult, AllSegments;
    StoresConcat(sent, rest.sent);
    AllSegmentsStep(first, later);
    AllSegmentsStep(first, later[..rest.answered]);
    assert ([first] + later)[..1 + rest.answered] == [first] + later[..rest.answered];
    PrefixUnder(Segments(first, 0), AllSegments(later[..rest.answered]), Stores(rest.sent));
    PrefixUnder(Segments(first, 0), Stores(rest.sent), AllSegments(later));
  }

  lemma {:induction false} PrefixUnder(a: seq<Bytes>, b: seq<Bytes>, c: seq<Bytes>)
    requires b <= c
    ensures a + b <= a + c
  {}

  lemma {:induction false} LoadIsInTurn(chunks: seq<Bytes>, replies: seq<Reply>)
    ensures InTurn(Load(chunks, replies), chunks)
  {
    if chunks == [] {
      LoadOfNone(replies);
    } else {
      hide *;
      var first, later := chunks[0], chunks[1..];
      assert chunks == [first] + later;
      LoadStep(chunks, replies);
      ConverseErrors(Segments(first, 0), replies);
      ChunkArrives(first, replies);
      var o := Converse(Segments(first, 0), replies);
      if o.response.Err? {
        InTurnStops(o, first, later, 0);
      } else if HasInstallResult(o.response.value) {
        InTurnStops(o, first, later, 1);
      } else {
        LoadIsInTurn(later, replies[o.used..]);
        InTurnGrows(o.sent, o.used, first, later, Load(later, replies[o.used..]));
      }
    }
  }

  lemma {:induction false} ChunkArrives(chunk: Bytes, replies: seq<Reply>)
    ensures var o := Converse(Segments(chunk, 0), replies);
            && Stores(o.sent) <= Segments(chunk, 0)
            && (o.response.Ok? ==> Stores(o.sent) == Segments(chunk, 0))
  {
    SegmentsAreCommands(chunk, 0);
    ConverseIsFaithful(Segments(chunk, 0), replies);
    hide Segments, Converse, Stores, Segment;
  }

  lemma {:induction false} ConverseErrors(commands: seq<Bytes>, replies: seq<Reply>)
    ensures Converse(commands, replies).response != Err(NO_RESULT)
    decreases |replies|, 0
  {
    if commands != [] && replies != [] {
      AnsweredErrors(replies[0], commands[1..], replies[1..]);
    }
  }

  lemma {:induction false} AnsweredErrors(reply: Reply, commands: seq<Bytes>, replies: seq<Reply>)
    ensures Answered(reply, commands, replies).response != Err(NO_RESULT)
    decreases |replies|, 1
  {
    if MoreData(reply) {
      if replies != [] { AnsweredErrors(replies[0], commands, replies[1..]); }
    } else if Done(reply) {
      ConverseErrors(commands, replies);
    }
  }

  lemma {:induction false} PayloadsPrefix(a: seq<Bytes>, b: seq<Bytes>)
    requires a <= b
    ensures Payloads(a) <= Payloads(b)
  {
    PayloadsConcat(a, b[|a|..]);
    assert a + b[|a|..] == b;
  }

  /**
   * While a package is loaded, the data the card has been sent is at all times a front part of the package, and all
   * of it when every chunk was answered.
   */
  lemma {:induction false} PackageArrives(bpp: Bytes, k: nat, replies: seq<Reply>)
    requires Package(bpp, k) && Deliverable(Children(bpp), k)
    ensures Split(bpp).Ok?
    ensures var chunks, l := Split(bpp).value, Load(Split(bpp).value, replies);
            && Payloads(Stores(l.sent)) <= bpp
            && l.answered <= |chunks|
            && Flatten(chunks[..l.answered]) <= Payloads(Stores(l.sent))
            && (l.answered == |chunks| ==> Payloads(Stores(l.sent)) == bpp)
  {
    SplitKeepsPackage(bpp, k);
    var chunks := Split(bpp).value;
    var l := Load(chunks, replies);
    LoadIsInTurn(chunks, replies);
    AllSegmentsCarry(chunks);
    assert chunks[..|chunks|] == chunks;
    hide Split, Load, Children, Package, Payloads, Stores, AllSegments, Flatten;
    AllSegmentsCarry(chunks[..l.answered]);
    PayloadsPrefix(Stores(l.sent), AllSegments(chunks));
    PayloadsPrefix(AllSegments(chunks[..l.answered]), Stores(l.sent));
  }

  /** The whole run is what was sent so far, then the run still to come. */
  ghost predicate Loading(client: Card, sent0: seq<Bytes>, whole: Loaded, chunks: seq<Bytes>, i: nat)
    reads client
  {
    && i <= |chunks| && sent0 <= client.sent
    && whole.response == Load(chunks[i..], client.replies).response
    && sent0 + whole.sent == client.sent + Load(chunks[i..], client.replies).sent
  }

  lemma {:induction false} LoadingStarts(client: Card, chunks: seq<Bytes>)
    ensures Loading(client, client.sent, Load(chunks, client.replies), chunks, 0)
  {
    assert chunks[0..] == chunks;
  }

  /** What the next chunk does to a run. */
  lemma {:induction false} LoadingNext(client: Card, sent0: seq<Bytes>, whole: Loaded, chunks: seq<Bytes>, i: nat)
    requires Loading(client, sent0, whole, chunks, i) && i < |chunks|
    ensures var o := Converse(Segments(chunks[i], 0), client.replies);
            && o.used <= |client.replies|
            && if o.response.Err? || HasInstallResult(o.response.value) then
                 whole.response == o.response && sent0 + whole.sent == client.sent + o.sent
               else
                 && whole.response == Load(chunks[i + 1..], client.replies[o.used..]).response
                 && sent0 + whole.sent == client.sent + o.sent + Load(chunks[i + 1..], client.replies[o.used..]).sent
  {
    hide Load, Converse, Segments, HasInstallResult;
    LoadStep(chunks[i..], client.replies);
    assert chunks[i..][1..] == chunks[i + 1..] && chunks[i..][0] == chunks[i];
    var o := Converse(Segments(chunks[i], 0), client.replies);
    Associates(client.sent, o.sent, Load(chunks[i + 1..], client.replies[o.used..]).sent);
  }

  lemma {:induction false} LoadingIs(client: Card, sent0: seq<Bytes>, whole: Loaded, chunks: seq<Bytes>, i: nat)
    ensures Loading(client, sent0, whole, chunks, i)
       <==> i <= |chunks| && sent0 <= client.sent
            && whole.response == Load(chunks[i..], client.replies).response
            && sent0 + whole.sent == client.sent + Load(chunks[i..], client.replies).sent
  {}

  lemma {:induction false} LoadingEnds(client: Card, sent0: seq<Bytes>, whole: Loaded, chunks: seq<Bytes>)
    requires Loading(client, sent0, whole, chunks, |chunks|)
    ensures whole.response == Err(NO_RESULT) && client.sent == sent0 + whole.sent
  {
    assert chunks[|chunks|..] == [] && client.sent + [] == client.sent;
  }

  /** Loads a package; returns the answer that holds the installation result. */
  method LoadBpp(client: Card, bpp: Bytes) returns (r: Result<Bytes>)
    modifies client
    ensures Split(bpp).Err? ==> r == Err(Split(bpp).error) && client.sent == old(client.sent)
    ensures Split(bpp).Ok? ==>
              var l := Load(Split(bpp).value, old(client.replies));
              r == l.response && client.sent == old(client.sent) + l.sent
  {
    hide *;
    ghost var sent0 := client.sent;
    var split := SplitBpp(bpp);
    if split.Err? { return Err(split.error); }
    var chunks := split.value;
    ghost var whole := Load(chunks, client.replies);
    LoadingStarts(client, chunks);
    for i := 0 to |chunks|
      invariant Loading(client, sent0, whole, chunks, i)
    {
      LoadingIs(client, sent0, whole, chunks, i);
      LoadingNext(client, sent0, whole, chunks, i);
      var response := Es10xCommand(client, chunks[i]);
      if response.Err? { return response; }
      if HasInstallResult(response.value) { return response; }
      LoadingIs(client, sent0, whole, chunks, i + 1);
    }
    LoadingEnds(client, sent0, whole, chunks);
    return Err(NO_RESULT);
  }
}

/** Bridging message queues to network publishers: subscriptions follow the clients, messages keep to their endpoint. */
module MsgqBridge {
  import opened Wrappers

  type Message = string

  const MAX_MESSAGES_PER_SOCKET: nat := 50

  /** An endpoint: its publisher, its subscriber while there are clients, and how many there are. */
  datatype Pair = Pair(endpoint: string, pub: nat, sub: Option<nat>, clients: nat)

  /**
   * The bridge and what it is connected to: `pending` are the messages each subscriber still holds, `published` all
   * that was ever published on each endpoint, `sent` what was handed to each publisher.
   */
  datatype State = State(
    pairs: seq<Pair>, sub2pub: map<nat, nat>, poller: Option<seq<nat>>,
    pending: seq<seq<Message>>, published: seq<seq<Message>>, sent: map<nat, seq<Message>>)

  // ---------- the steps under the mutex ----------

  /** The subscribers the poller is given. */
  function Registered(pairs: seq<Pair>): seq<nat> {
    if pairs == [] then []
    else
      Registered(pairs[..|pairs| - 1])
      + (if pairs[|pairs| - 1].sub.Some? then [pairs[|pairs| - 1].sub.value] else [])
  }

  /** A subscriber that does not exist yet. */
  predicate Unused(s: State, id: nat) {
    id !in s.sub2pub && forall i :: 0 <= i < |s.pairs| ==> s.pairs[i].sub != Some(id)
  }

  function Accepted(s: State, i: nat, id: nat): State
    requires i < |s.pairs| == |s.pending|
  {
    var p := s.pairs[i];
    if p.clients + 1 == 1 then
      var pairs := s.pairs[i := Pair(p.endpoint, p.pub, Some(id), 1)];
      s.(pairs := pairs, sub2pub := s.sub2pub[id := p.pub], poller := Some(Registered(pairs)),
          pending := s.pending[i := []])
    else s.(pairs := s.pairs[i := p.(clients := p.clients + 1)])
  }

  function Disconnected(s: State, i: nat): State
    requires i < |s.pairs| == |s.pending|
  {
    var p := s.pairs[i];
    if p.clients <= 1 then
      var pairs := s.pairs[i := Pair(p.endpoint, p.pub, None, 0)];
      s.(pairs := pairs, sub2pub := if p.sub.Some? then s.sub2pub - {p.sub.value} else s.sub2pub,
         poller := Some(Registered(pairs)), pending := s.pending[i := []])
    else s.(pairs := s.pairs[i := p.(clients := p.clients - 1)])
  }

  /** A message published on an endpoint reaches its subscriber, if there is one. */
  function Published(s: State, i: nat, m: Message): State
    requires i < |s.pairs| == |s.pending| == |s.published|
  {
    s.(published := s.published[i := s.published[i] + [m]],
       pending := if s.pairs[i].sub.Some? then s.pending[i := s.pending[i] + [m]] else s.pending)
  }

  /** The endpoint a subscriber belongs to. */
  function OwnerOf(pairs: seq<Pair>, id: nat): (i: nat)
    requires exists k :: 0 <= k < |pairs| && pairs[k].sub == Some(id)
    ensures i < |pairs| && pairs[i].sub == Some(id)
  {
    if pairs[0].sub == Some(id) then 0
    else
      assert forall k :: 0 <= k < |pairs| && pairs[k].sub == Some(id) ==> k > 0 && pairs[1..][k - 1] == pairs[k];
      1 + OwnerOf(pairs[1..], id)
  }

  function Batch(pending: seq<Message>): nat {
    if |pending| < MAX_MESSAGES_PER_SOCKET then |pending| else MAX_MESSAGES_PER_SOCKET
  }

  /** Up to fifty messages of one subscriber go to the publisher the map has for it. */
  function ForwardOne(s: State, id: nat): State
    requires Valid(s) && id in s.sub2pub
  {
    OwnerExists(s, id);
    var i, pub := OwnerOf(s.pairs, id), s.sub2pub[id];
    PublisherKnown(s, i);
    var n := Batch(s.pending[i]);
    s.(pending := s.pending[i := s.pending[i][n..]],
       sent := s.sent[pub := s.sent[pub] + s.pending[i][..n]])
  }

  // ---------- the invariant ----------

  /** Clients, subscribers, map and poller agree. */
  ghost predicate Wired(pairs: seq<Pair>, sub2pub: map<nat, nat>, poller: Option<seq<nat>>) {
    && (forall i, j :: 0 <= i < j < |pairs| ==> pairs[i].pub != pairs[j].pub)
    && (forall i :: 0 <= i < |pairs| ==> (pairs[i].sub.Some? <==> pairs[i].clients > 0))
    && (forall i, j :: 0 <= i < j < |pairs| && pairs[i].sub.Some? ==> pairs[i].sub != pairs[j].sub)
    && (forall i :: 0 <= i < |pairs| && pairs[i].sub.Some? ==>
          pairs[i].sub.value in sub2pub && sub2pub[pairs[i].sub.value] == pairs[i].pub)
    && (forall id :: id in sub2pub ==> HasOwner(pairs, id))
    && (poller.Some? ==> poller.value == Registered(pairs))
    && (poller.None? ==> sub2pub == map[])
  }

  /** What the publisher got and what its subscriber still holds was published on the endpoint, in that order. */
  ghost predicate FlowAt(s: State, i: nat)
    requires i < |s.pairs| == |s.pending| == |s.published|
  {
    && s.pairs[i].pub in s.sent
    && (s.pairs[i].sub.None? ==> s.pending[i] == [])
    && Subsequence(s.sent[s.pairs[i].pub] + s.pending[i], s.published[i])
  }

  ghost predicate Flows(s: State) {
    && |s.pairs| == |s.pending| == |s.published|
    && forall i: nat :: i < |s.pairs| ==> FlowAt(s, i)
  }

  ghost predicate Valid(s: State) { Wired(s.pairs, s.sub2pub, s.poller) && Flows(s) }

  predicate HasOwner(pairs: seq<Pair>, id: nat) {
    exists k :: 0 <= k < |pairs| && pairs[k].sub == Some(id)
  }

  lemma {:induction false} OwnerExists(s: State, id: nat)
    requires Valid(s) && id in s.sub2pub
    ensures HasOwner(s.pairs, id)
  {}

  lemma {:induction false} PublisherKnown(s: State, i: nat)
    requires Valid(s) && i < |s.pairs|
    ensures s.pairs[i].pub in s.sent && |s.pending| == |s.pairs| == |s.published|
    ensures s.pairs[i].sub.Some? ==>
              s.pairs[i].sub.value in s.sub2pub && s.sub2pub[s.pairs[i].sub.value] == s.pairs[i].pub
  {
    hide Registered, Subsequence;
    assert FlowAt(s, i);
  }

  /** The first messages are among the second ones, in the same order. */
  predicate Subsequence(a: seq<Message>, b: seq<Message>) {
    if a == [] then true
    else if b == [] then false
    else if a[|a| - 1] == b[|b| - 1] && Subsequence(a[..|a| - 1], b[..|b| - 1]) then true
    else Subsequence(a, b[..|b| - 1])
  }

  lemma {:induction false} SubsequenceBoth(a: seq<Message>, b: seq<Message>, m: Message)
    requires Subsequence(a, b)
    ensures Subsequence(a + [m], b + [m])
  {
    assert (a + [m])[..|a|] == a && (b + [m])[..|b|] == b;
  }

  lemma {:induction false} SubsequenceMore(a: seq<Message>, b: seq<Message>, m: Message)
    requires Subsequence(a, b)
    ensures Subsequence(a, b + [m])
  {
    assert (b + [m])[..|b|] == b;
  }

  /** Dropping from the end keeps a subsequence. */
  lemma {:induction false} SubsequenceLess(a: seq<Message>, c: seq<Message>, b: seq<Message>)
    requires Subsequence(a + c, b)
    ensures Subsequence(a, b)
    decreases |b|
  {
    if a != [] {
      var last := (a + c)[|a + c| - 1];
      if last == b[|b| - 1] && Subsequence((a + c)[..|a + c| - 1], b[..|b| - 1]) {
        if c == [] {
          assert a + c == a;
        } else {
          assert (a + c)[..|a + c| - 1] == a + c[..|c| - 1];
          SubsequenceLess(a, c[..|c| - 1], b[..|b| - 1]);
          assert b == b[..|b| - 1] + [b[|b| - 1]];
          SubsequenceMore(a, b[..|b| - 1], b[|b| - 1]);
        }
      } else {
        SubsequenceLess(a, c, b[..|b| - 1]);
        assert b == b[..|b| - 1] + [b[|b| - 1]];
        SubsequenceMore(a, b[..|b| - 1], b[|b| - 1]);
      }
    }
  }

  /** The poller watches exactly the subscribers there are. */
  lemma {:induction false} RegisteredAre(pairs: seq<Pair>, id: nat)
    ensures id in Registered(pairs) <==> HasOwner(pairs, id)
  {
    if pairs != [] {
      var init, last := pairs[..|pairs| - 1], pairs[|pairs| - 1];
      RegisteredAre(init, id);
      assert forall k :: 0 <= k < |init| ==> init[k] == pairs[k];
      if HasOwner(pairs, id) && !HasOwner(init, id) {
        var k :| 0 <= k < |pairs| && pairs[k].sub == Some(id);
        assert k == |init|;
      }
      if HasOwner(init, id) {
        var k :| 0 <= k < |init| && init[k].sub == Some(id);
        assert pairs[k].sub == Some(id);
      }
      if last.sub == Some(id) { assert pairs[|pairs| - 1].sub == Some(id); }
    }
  }

  /** An endpoint has a subscriber if and only if it has clients, if and only if it is mapped to its own publisher,
      if and only if it is polled. */
  lemma {:induction false} SubscribedMappedPolled(s: State, i: nat, id: nat)
    requires Valid(s) && i < |s.pairs|
    ensures s.pairs[i].sub.Some? <==> s.pairs[i].clients > 0
    ensures s.pairs[i].sub == Some(id) ==>
              && id in s.sub2pub && s.sub2pub[id] == s.pairs[i].pub
              && s.poller.Some? && id in s.poller.value
    ensures id in s.sub2pub <==> s.poller.Some? && id in s.poller.value
    ensures id in s.sub2pub && s.sub2pub[id] == s.pairs[i].pub ==> s.pairs[i].sub == Some(id)
  {
    hide Registered, Subsequence;
    RegisteredAre(s.pairs, id);
    if id in s.sub2pub {
      var k :| 0 <= k < |s.pairs| && s.pairs[k].sub == Some(id);
      assert s.sub2pub[id] == s.pairs[k].pub;
    }
  }

  // ---------- every step keeps it ----------

  lemma {:induction false} NewSubscriber(pairs: seq<Pair>, sub2pub: map<nat, nat>, poller: Option<seq<nat>>,
      i: nat, id: nat)
    requires Wired(pairs, sub2pub, poller) && i < |pairs| && pairs[i].clients == 0
    requires id !in sub2pub && forall k :: 0 <= k < |pairs| ==> pairs[k].sub != Some(id)
    ensures var q := pairs[i := Pair(pairs[i].endpoint, pairs[i].pub, Some(id), 1)];
            Wired(q, sub2pub[id := pairs[i].pub], Some(Registered(q)))
  {
    hide Registered;
    var q := pairs[i := Pair(pairs[i].endpoint, pairs[i].pub, Some(id), 1)];
    assert q[i].sub == Some(id);
    forall k | k in sub2pub ensures HasOwner(q, k) {
      var o :| 0 <= o < |pairs| && pairs[o].sub == Some(k);
      assert q[o].sub == Some(k);
    }
  }

  lemma {:induction false} LostSubscriber(pairs: seq<Pair>, sub2pub: map<nat, nat>, poller: Option<seq<nat>>, i: nat)
    requires Wired(pairs, sub2pub, poller) && i < |pairs|
    ensures var q := pairs[i := Pair(pairs[i].endpoint, pairs[i].pub, None, 0)];
            Wired(q, if pairs[i].sub.Some? then sub2pub - {pairs[i].sub.value} else sub2pub, Some(Registered(q)))
  {
    hide Registered;
    var q := pairs[i := Pair(pairs[i].endpoint, pairs[i].pub, None, 0)];
    forall k | k in sub2pub && pairs[i].sub != Some(k) ensures HasOwner(q, k) {
      var o :| 0 <= o < |pairs| && pairs[o].sub == Some(k);
      assert q[o].sub == Some(k);
    }
  }

  lemma {:induction false} OtherCount(pairs: seq<Pair>, sub2pub: map<nat, nat>, poller: Option<seq<nat>>, i: nat,
      n: nat)
    requires Wired(pairs, sub2pub, poller) && i < |pairs| && pairs[i].clients > 0 && n > 0
    ensures Wired(pairs[i := pairs[i].(clients := n)], sub2pub, poller)
  {
    hide Registered;
    var q := pairs[i := pairs[i].(clients := n)];
    SameSubs(pairs, q, i);
    forall k | k in sub2pub ensures HasOwner(q, k) {
      var o :| 0 <= o < |pairs| && pairs[o].sub == Some(k);
      assert q[o].sub == Some(k);
    }
  }

  lemma {:induction false} AcceptWires(s: State, i: nat, id: nat)
    requires Valid(s) && i < |s.pairs| && Unused(s, id)
    ensures |s.pending| == |s.pairs|
    ensures var r := Accepted(s, i, id); Wired(r.pairs, r.sub2pub, r.poller)
  {
    hide Registered, Flows, Subsequence, Wired;
    FlowLengths(s);
    if s.pairs[i].clients == 0 {
      NewSubscriber(s.pairs, s.sub2pub, s.poller, i, id);
    } else {
      OtherCount(s.pairs, s.sub2pub, s.poller, i, s.pairs[i].clients + 1);
    }
  }

  lemma {:induction false} FlowLengths(s: State)
    requires Flows(s)
    ensures |s.pairs| == |s.pending| == |s.published|
  {}

  /** Changing only the count of clients does not change what is registered. */
  lemma {:induction false} SameSubs(p: seq<Pair>, q: seq<Pair>, i: nat)
    requires i < |p| == |q| && q == p[i := q[i]]
    ensures p[i].sub == q[i].sub ==> Registered(p) == Registered(q)
  {
    if p[i].sub == q[i].sub {
      var n := |p| - 1;
      if i < n {
        SameSubs(p[..n], q[..n], i);
      } else {
        assert p[..n] == q[..n];
      }
    }
  }

  lemma {:induction false} DisconnectWires(s: State, i: nat)
    requires Valid(s) && i < |s.pairs|
    ensures |s.pending| == |s.pairs|
    ensures var r := Disconnected(s, i); Wired(r.pairs, r.sub2pub, r.poller)
  {
    hide Registered, Flows, Subsequence, Wired;
    FlowLengths(s);
    if s.pairs[i].clients <= 1 {
      LostSubscriber(s.pairs, s.sub2pub, s.poller, i);
    } else {
      OtherCount(s.pairs, s.sub2pub, s.poller, i, s.pairs[i].clients - 1);
    }
  }

  /** Endpoints a step does not concern flow on. */
  lemma {:induction false} OtherFlows(s: State, r: State, i: nat)
    requires Flows(s) && i < |s.pairs|
    requires |r.pairs| == |r.pending| == |r.published| == |s.pairs|
    requires forall j :: 0 <= j < |s.pairs| && j != i ==>
               r.pairs[j] == s.pairs[j] && r.pending[j] == s.pending[j] && r.published[j] == s.published[j]
    requires forall j :: 0 <= j < |s.pairs| && j != i && s.pairs[j].pub in s.sent ==>
               s.pairs[j].pub in r.sent && r.sent[s.pairs[j].pub] == s.sent[s.pairs[j].pub]
    requires FlowAt(r, i)
    ensures Flows(r)
  {
    hide Subsequence;
    forall j: nat | j < |r.pairs| ensures FlowAt(r, j) {
      if j != i { assert FlowAt(s, j); }
    }
  }

  lemma {:induction false} AcceptFlows(s: State, i: nat, id: nat)
    requires Valid(s) && i < |s.pairs|
    ensures |s.pending| == |s.pairs|
    ensures Flows(Accepted(s, i, id))
  {
    hide Subsequence, Registered, Wired, Flows, FlowAt;
    FlowsAt(s, i);
    SubscriberIffClients(s, i);
    AcceptFlowAt(s, i, id);
    OtherFlows(s, Accepted(s, i, id), i);
  }

  lemma {:induction false} DisconnectFlows(s: State, i: nat)
    requires Valid(s) && i < |s.pairs|
    ensures |s.pending| == |s.pairs| && Flows(Disconnected(s, i))
  {
    hide Subsequence, Registered, Wired, Flows, FlowAt;
    FlowsAt(s, i);
    DisconnectFlowAt(s, i);
    OtherFlows(s, Disconnected(s, i), i);
  }

  lemma {:induction false} FlowsAt(s: State, i: nat)
    requires Flows(s) && i < |s.pairs|
    ensures |s.pairs| == |s.pending| == |s.published| && FlowAt(s, i)
  {}

  lemma {:induction false} PublishFlowAt(s: State, i: nat, m: Message)
    requires i < |s.pairs| == |s.pending| == |s.published| && FlowAt(s, i)
    ensures FlowAt(Published(s, i, m), i)
  {
    hide Subsequence;
    var got, held, all := s.sent[s.pairs[i].pub], s.pending[i], s.published[i];
    assert got + (held + [m]) == (got + held) + [m];
    SubsequenceBoth(got + held, all, m);
    SubsequenceMore(got + held, all, m);
  }

  lemma {:induction false} DisconnectFlowAt(s: State, i: nat)
    requires i < |s.pairs| == |s.pending| == |s.published| && FlowAt(s, i)
    ensures FlowAt(Disconnected(s, i), i)
  {
    hide Subsequence, Registered;
    var got, held, all := s.sent[s.pairs[i].pub], s.pending[i], s.published[i];
    SubsequenceLess(got, held, all);
    assert got + [] == got;
  }

  lemma {:induction false} AcceptFlowAt(s: State, i: nat, id: nat)
    requires i < |s.pairs| == |s.pending| == |s.published| && FlowAt(s, i)
    requires s.pairs[i].sub.Some? <==> s.pairs[i].clients > 0
    ensures FlowAt(Accepted(s, i, id), i)
  {
    hide Subsequence, Registered;
  }

  lemma {:induction false} SubscriberIffClients(s: State, i: nat)
    requires Valid(s) && i < |s.pairs|
    ensures s.pairs[i].sub.Some? <==> s.pairs[i].clients > 0
  {
    hide Registered, Flows;
  }

  lemma {:induction false} PublishFlows(s: State, i: nat, m: Message)
    requires Flows(s) && i < |s.pairs|
    ensures |s.pending| == |s.pairs| == |s.published| && Flows(Published(s, i, m))
  {
    hide Subsequence, Flows, FlowAt;
    FlowLengths(s);
    FlowsAt(s, i);
    PublishFlowAt(s, i, m);
    OtherFlows(s, Published(s, i, m), i);
  }

  lemma {:induction false} PubsDiffer(s: State, i: nat, j: nat)
    requires Valid(s) && i < |s.pairs| && j < |s.pairs| && i != j
    ensures s.pairs[i].pub != s.pairs[j].pub
  {
    hide Registered, Flows;
    if i > j { assert s.pairs[j].pub != s.pairs[i].pub; }
  }

  lemma {:induction false} OneOwner(s: State, id: nat, i: nat)
    requires Valid(s) && i < |s.pairs| && s.pairs[i].sub == Some(id)
    ensures HasOwner(s.pairs, id) && OwnerOf(s.pairs, id) == i
    ensures id in s.sub2pub && s.sub2pub[id] == s.pairs[i].pub
  {
    hide Registered, Flows;
    assert HasOwner(s.pairs, id);
    var k := OwnerOf(s.pairs, id);
    assert s.pairs[k].sub == s.pairs[i].sub;
  }

  /** Forwarding moves messages from the subscriber of an endpoint to that endpoint's own publisher, and nothing
      else. */
  lemma {:induction false} ForwardOneIs(s: State, id: nat, i: nat)
    requires Valid(s) && i < |s.pairs| && s.pairs[i].sub == Some(id)
    ensures id in s.sub2pub && s.pairs[i].pub in s.sent && |s.pending| == |s.pairs| == |s.published|
    ensures var held := s.pending[i];
            var r, n, pub := ForwardOne(s, id), if |held| <= 50 then |held| else 50, s.pairs[i].pub;
            r == s.(pending := s.pending[i := s.pending[i][n..]],
                sent := s.sent[pub := s.sent[pub] + s.pending[i][..n]])
  {
    hide Registered, Subsequence, Wired, Flows;
    FlowLengths(s);
    PublisherKnown(s, i);
    OneOwner(s, id, i);
    hide OwnerOf;
  }

  lemma {:induction false} Regroup(sent: seq<Message>, pending: seq<Message>)
    ensures Batch(pending) <= |pending|
    ensures (sent + pending[..Batch(pending)]) + pending[Batch(pending)..] == sent + pending
  {
    assert pending == pending[..Batch(pending)] + pending[Batch(pending)..];
  }

  lemma {:induction false} ForwardOneFlows(s: State, id: nat)
    requires Valid(s) && id in s.sub2pub
    ensures Flows(ForwardOne(s, id))
    ensures var r := ForwardOne(s, id);
            r.pairs == s.pairs && r.sub2pub == s.sub2pub && r.poller == s.poller && r.published == s.published
  {
    hide Registered, Subsequence, Wired, ForwardOne;
    OwnerExists(s, id);
    var i :| 0 <= i < |s.pairs| && s.pairs[i].sub == Some(id);
    ForwardOneIs(s, id, i);
    var r := ForwardOne(s, id);
    Regroup(s.sent[s.pairs[i].pub], s.pending[i]);
    assert FlowAt(s, i);
    assert FlowAt(r, i);
    forall j | 0 <= j < |s.pairs| && j != i ensures s.pairs[j].pub != s.pairs[i].pub {
      PubsDiffer(s, i, j);
    }
    OtherFlows(s, r, i);
  }

  // ---------- runs ----------

  datatype Action =
    | Accept(i: nat, id: nat) | Disconnect(i: nat) | Publish(i: nat, m: Message) | Forward(ready: seq<nat>)

  /** The sockets a poll reports are among those registered. */
  predicate Enabled(s: State, a: Action) {
    match a
    case Accept(i, id) => i < |s.pairs| && Unused(s, id)
    case Disconnect(i) => i < |s.pairs|
    case Publish(i, _) => i < |s.pairs|
    case Forward(ready) => s.poller.Some? && forall k :: 0 <= k < |ready| ==> ready[k] in s.poller.value
  }

  /** The lookup in the forwarding loop always succeeds. */
  lemma {:induction false} PolledIsMapped(s: State, id: nat)
    requires Valid(s) && s.poller.Some? && id in s.poller.value
    ensures id in s.sub2pub
  {
    hide Registered, Subsequence, Flows;
    RegisteredAre(s.pairs, id);
    var k :| 0 <= k < |s.pairs| && s.pairs[k].sub == Some(id);
  }

  function ForwardAll(s: State, ready: seq<nat>): (r: State)
    requires Valid(s) && s.poller.Some? && forall k :: 0 <= k < |ready| ==> ready[k] in s.poller.value
    ensures Valid(r) && r.pairs == s.pairs && r.sub2pub == s.sub2pub && r.poller == s.poller
        && r.published == s.published
  {
    if ready == [] then s
    else
      var t := ForwardAll(s, ready[..|ready| - 1]);
      PolledIsMapped(t, ready[|ready| - 1]);
      ForwardOneFlows(t, ready[|ready| - 1]);
      ForwardOne(t, ready[|ready| - 1])
  }

  /** The first fifty messages at most. */
  function Share(held: seq<Message>, reported: bool): nat {
    if !reported then 0 else if |held| <= 50 then |held| else 50
  }

  predicate Reported(pair: Pair, ready: seq<nat>) { pair.sub.Some? && pair.sub.value in ready }

  /** Endpoint i before and after a round in which these sockets were ready. */
  ghost predicate HandedOver(s: State, r: State, ready: seq<nat>, i: nat) {
    && i < |s.pairs| == |s.pending| == |r.pending| && s.pairs[i].pub in s.sent && s.pairs[i].pub in r.sent
    && var n := Share(s.pending[i], Reported(s.pairs[i], ready));
       && r.pending[i] == s.pending[i][n..]
       && r.sent[s.pairs[i].pub] == s.sent[s.pairs[i].pub] + s.pending[i][..n]
  }

  lemma {:induction false} OneHandedOver(s: State, id: nat, i: nat)
    requires Valid(s) && id in s.sub2pub && i < |s.pairs|
    ensures HandedOver(s, ForwardOne(s, id), [id], i)
  {
    hide Registered, Subsequence, Wired, Flows, ForwardOne;
    OwnerExists(s, id);
    PublisherKnown(s, i);
    FlowLengths(s);
    var o :| 0 <= o < |s.pairs| && s.pairs[o].sub == Some(id);
    ForwardOneIs(s, id, o);
    if o != i {
      PubsDiffer(s, i, o);
      if s.pairs[i].sub == Some(id) {
        ForwardOneIs(s, id, i);
      }
    }
  }

  lemma {:induction false} HandOversAdd(s: State, t: State, r: State, init: seq<nat>, id: nat, i: nat)
    requires HandedOver(s, t, init, i) && HandedOver(t, r, [id], i) && t.pairs == s.pairs && id !in init
    ensures HandedOver(s, r, init + [id], i)
  {
    assert Reported(s.pairs[i], init + [id]) <==> Reported(s.pairs[i], init) || s.pairs[i].sub == Some(id);
    if Reported(s.pairs[i], init) {
      assert s.pairs[i].sub != Some(id);
    }
    var held, sent := s.pending[i], s.sent[s.pairs[i].pub];
    assert held[0..] == held && sent + held[..0] == sent;
  }

  lemma {:induction false} NothingHandedOver(s: State, i: nat)
    requires Valid(s) && i < |s.pairs|
    ensures HandedOver(s, s, [], i)
  {
    PublisherKnown(s, i);
    hide Valid;
  }

  /** In one round every endpoint whose socket was ready hands over up to fifty messages, once, and no other does. */
  lemma {:induction false} RoundHandsOver(s: State, ready: seq<nat>, i: nat)
    requires Valid(s) && s.poller.Some? && forall k :: 0 <= k < |ready| ==> ready[k] in s.poller.value
    requires i < |s.pairs| && forall j, k :: 0 <= j < k < |ready| ==> ready[j] != ready[k]
    ensures HandedOver(s, ForwardAll(s, ready), ready, i)
  {
    hide Valid, ForwardOne, HandedOver;
    if ready == [] {
      NothingHandedOver(s, i);
    } else {
      var init, id := ready[..|ready| - 1], ready[|ready| - 1];
      RoundHandsOver(s, init, i);
      var t := ForwardAll(s, init);
      PolledIsMapped(t, id);
      OneHandedOver(t, id, i);
      HandOversAdd(s, t, ForwardOne(t, id), init, id, i);
      assert init + [id] == ready;
    }
  }

  function Next(s: State, a: Action): (r: State)
    requires Valid(s) && Enabled(s, a)
    ensures Valid(r)
  {
    match a
    case Accept(i, id) => AcceptWires(s, i, id); AcceptFlows(s, i, id); Accepted(s, i, id)
    case Disconnect(i) => DisconnectWires(s, i); DisconnectFlows(s, i); Disconnected(s, i)
    case Publish(i, m) => PublishFlows(s, i, m); Published(s, i, m)
    case Forward(ready) => ForwardAll(s, ready)
  }

  ghost predicate Possible(s: State, actions: seq<Action>)
    requires Valid(s)
    decreases |actions|
  {
    actions == [] || (Enabled(s, actions[0]) && Possible(Next(s, actions[0]), actions[1..]))
  }

  ghost function Run(s: State, actions: seq<Action>): (r: State)
    requires Valid(s) && Possible(s, actions)
    ensures Valid(r)
    decreases |actions|
  {
    if actions == [] then s else Run(Next(s, actions[0]), actions[1..])
  }

  /** What an endpoint has sent or still holds. */
  function Taken(s: State, i: nat): seq<Message>
    requires i < |s.pairs| == |s.pending| && s.pairs[i].pub in s.sent
  {
    s.sent[s.pairs[i].pub] + s.pending[i]
  }

  lemma {:induction false} ForwardOneTakes(s: State, id: nat, i: nat)
    requires Valid(s) && id in s.sub2pub && i < |s.pairs|
    ensures s.pairs[i].pub in s.sent && |s.pending| == |s.pairs| && |ForwardOne(s, id).pending| == |s.pairs|
    ensures ForwardOne(s, id).pairs == s.pairs && s.pairs[i].pub in ForwardOne(s, id).sent
    ensures Taken(ForwardOne(s, id), i) == Taken(s, i)
  {
    hide Registered, Subsequence, Wired, Flows, ForwardOne;
    OwnerExists(s, id);
    PublisherKnown(s, i);
    var o :| 0 <= o < |s.pairs| && s.pairs[o].sub == Some(id);
    ForwardOneIs(s, id, o);
    if o == i {
      Regroup(s.sent[s.pairs[o].pub], s.pending[o]);
    } else {
      PubsDiffer(s, i, o);
    }
  }

  lemma {:induction false} ForwardAllTakes(s: State, ready: seq<nat>, i: nat)
    requires Valid(s) && Enabled(s, Forward(ready)) && i < |s.pairs|
    ensures var r := ForwardAll(s, ready);
            && |s.pending| == |s.pairs| == |r.pending| && s.pairs[i].pub in s.sent && s.pairs[i].pub in r.sent
            && Taken(r, i) == Taken(s, i)
  {
    hide Registered, Subsequence, Wired, Flows, ForwardOne, Taken;
    PublisherKnown(s, i);
    if ready != [] {
      var init := ready[..|ready| - 1];
      ForwardAllTakes(s, init, i);
      var t := ForwardAll(s, init);
      PolledIsMapped(t, ready[|ready| - 1]);
      ForwardOneTakes(t, ready[|ready| - 1], i);
    }
  }

  lemma {:induction false} PublishTakes(s: State, k: nat, m: Message, i: nat)
    requires i < |s.pairs| == |s.pending| == |s.published| && k < |s.pairs|
    requires s.pairs[i].sub.Some? && s.pairs[i].pub in s.sent
    ensures var r := Published(s, k, m);
            && r.pairs == s.pairs && |r.pending| == |r.published| == |s.pairs| && r.sent == s.sent
            && s.published[i] <= r.published[i]
            && Taken(r, i) == Taken(s, i) + r.published[i][|s.published[i]|..]
  {
    if k == i { OneNew(s.sent[s.pairs[i].pub], s.pending[i], s.published[i], m); }
    NothingNew(Taken(s, i), s.published[i]);
  }

  lemma {:induction false} AcceptTakes(s: State, k: nat, id: nat, i: nat)
    requires i < |s.pairs| == |s.pending| == |s.published| && k < |s.pairs|
    requires s.pairs[i].sub.Some? && s.pairs[i].pub in s.sent && s.pairs[i].clients > 0
    ensures var r := Accepted(s, k, id);
            && |r.pairs| == |r.pending| == |s.pairs| && r.published == s.published && r.sent == s.sent
            && r.pairs[i].pub == s.pairs[i].pub && r.pairs[i].sub == s.pairs[i].sub
            && Taken(r, i) == Taken(s, i) + s.published[i][|s.published[i]|..]
  {
    hide Registered;
    NothingNew(Taken(s, i), s.published[i]);
  }

  lemma {:induction false} DisconnectTakes(s: State, k: nat, i: nat)
    requires i < |s.pairs| == |s.pending| == |s.published| && k < |s.pairs|
    requires s.pairs[i].sub.Some? && s.pairs[i].pub in s.sent && (k == i ==> s.pairs[i].clients > 1)
    ensures var r := Disconnected(s, k);
            && |r.pairs| == |r.pending| == |s.pairs| && r.published == s.published && r.sent == s.sent
            && r.pairs[i].pub == s.pairs[i].pub && r.pairs[i].sub == s.pairs[i].sub
            && Taken(r, i) == Taken(s, i) + s.published[i][|s.published[i]|..]
  {
    hide Registered;
    NothingNew(Taken(s, i), s.published[i]);
  }

  /** One step of an endpoint that has a subscriber and is not left by its last client. */
  lemma {:induction false} NextTakes(s: State, a: Action, i: nat)
    requires Valid(s) && Enabled(s, a) && i < |s.pairs| && s.pairs[i].sub.Some?
    requires a == Disconnect(i) ==> s.pairs[i].clients > 1
    ensures var r := Next(s, a);
            && |r.pairs| == |r.pending| == |r.published| == |s.pairs| == |s.pending| == |s.published|
            && r.pairs[i].pub == s.pairs[i].pub && r.pairs[i].sub == s.pairs[i].sub
            && s.pairs[i].pub in s.sent && s.pairs[i].pub in r.sent
            && s.published[i] <= r.published[i]
            && Taken(r, i) == Taken(s, i) + r.published[i][|s.published[i]|..]
  {
    hide Subsequence, Registered, ForwardOne, ForwardAll, Flows, Wired, Taken, Accepted, Disconnected, Published;
    FlowLengths(s);
    PublisherKnown(s, i);
    SubscriberIffClients(s, i);
    match a
    case Forward(ready) =>
      ForwardAllTakes(s, ready, i);
      NothingNew(Taken(s, i), s.published[i]);
    case Publish(k, m) => PublishTakes(s, k, m, i);
    case Accept(k, id) => AcceptTakes(s, k, id, i);
    case Disconnect(k) => DisconnectTakes(s, k, i);
  }

  lemma {:induction false} NothingNew(taken: seq<Message>, published: seq<Message>)
    ensures taken + published[|published|..] == taken
  {}

  lemma {:induction false} OneNew(got: seq<Message>, held: seq<Message>, published: seq<Message>, m: Message)
    ensures got + (held + [m]) == (got + held) + (published + [m])[|published|..]
  {}

  /** The endpoint has a client after every action, whoever else comes and goes. */
  ghost predicate KeepsClient(s: State, actions: seq<Action>, i: nat)
    requires Valid(s) && Possible(s, actions)
    decreases |actions|
  {
    i < |s.pairs| && s.pairs[i].clients > 0
    && (actions == [] || KeepsClient(Next(s, actions[0]), actions[1..], i))
  }

  lemma {:induction false} KeptStep(s: State, actions: seq<Action>, i: nat)
    requires Valid(s) && Possible(s, actions) && KeepsClient(s, actions, i)
    ensures i < |s.pairs| && s.pairs[i].sub.Some?
    ensures actions != [] ==>
              KeepsClient(Next(s, actions[0]), actions[1..], i)
              && (actions[0] == Disconnect(i) ==> s.pairs[i].clients > 1)
  {
    SubscriberIffClients(s, i);
    hide Valid, Registered;
    if actions != [] && actions[0] == Disconnect(i) {
      assert KeepsClient(Next(s, actions[0]), actions[1..], i);
    }
  }

  /** While an endpoint keeps a client, everything published on it is sent by its own publisher or still held, in
      order. */
  lemma {:induction false} SubscribedLosesNothing(s: State, actions: seq<Action>, i: nat)
    requires Valid(s) && Possible(s, actions) && KeepsClient(s, actions, i)
    ensures i < |s.pairs|
    ensures var r := Run(s, actions);
            && |r.pairs| == |r.pending| == |r.published| == |s.pairs| == |s.pending| == |s.published|
            && r.pairs[i].pub == s.pairs[i].pub
            && s.pairs[i].pub in s.sent && s.pairs[i].pub in r.sent
            && s.published[i] <= r.published[i]
            && Taken(r, i) == Taken(s, i) + r.published[i][|s.published[i]|..]
    decreases |actions|
  {
    hide Registered, Subsequence, Wired, Flows, Taken, Enabled, Next, KeepsClient;
    KeptStep(s, actions, i);
    PublisherKnown(s, i);
    if actions == [] {
      NothingNew(Taken(s, i), s.published[i]);
    } else {
      NextTakes(s, actions[0], i);
      var t := Next(s, actions[0]);
      SubscribedLosesNothing(t, actions[1..], i);
      var r := Run(t, actions[1..]);
      NewsJoin(Taken(s, i), s.published[i], t.published[i], r.published[i]);
    }
  }

  lemma {:induction false} NewsJoin(taken: seq<Message>, a: seq<Message>, b: seq<Message>, c: seq<Message>)
    requires a <= b <= c
    ensures (taken + b[|a|..]) + c[|b|..] == taken + c[|a|..]
  {
    assert c[..|b|] == b;
    assert b[|a|..] + c[|b|..] == c[|a|..];
  }

  // ---------- the bridge ----------

  /** The bridge and the world around it; the methods are its critical sections. */
  class Bridge {
    var pairs: seq<Pair>
    var sub2pub: map<nat, nat>
    var poller: Option<seq<nat>>
    var pending: seq<seq<Message>>
    ghost var published: seq<seq<Message>>
    var sent: map<nat, seq<Message>>

    ghost function Now(): State
      reads this
    {
      State(pairs, sub2pub, poller, pending, published, sent)
    }

    /** One publisher for each endpoint, and no clients yet. */
    constructor (endpoints: seq<string>)
      ensures Valid(Now())
      ensures |pairs| == |endpoints|
      ensures forall i :: 0 <= i < |pairs| ==> pairs[i].endpoint == endpoints[i] && pairs[i].clients == 0
    {
      pairs := seq(|endpoints|, i requires 0 <= i < |endpoints| => Pair(endpoints[i], i, None, 0));
      sub2pub, poller := map[], None;
      pending, published := seq(|endpoints|, i => []), seq(|endpoints|, i => []);
      sent := map[];
      new;
      for i := 0 to |endpoints|
        invariant forall k :: 0 <= k < i ==> k in sent && sent[k] == []
        modifies `sent
      {
        sent := sent[i := []];
      }
      hide Registered;
      NoneRegistered(pairs);
    }

    method RegisterSockets()
      modifies `poller
      ensures poller == Some(Registered(pairs))
    {
      var registered: seq<nat> := [];
      for k := 0 to |pairs|
        invariant registered == Registered(pairs[..k])
      {
        assert pairs[..k + 1][..k] == pairs[..k];
        if pairs[k].sub.Some? {
          registered := registered + [pairs[k].sub.value];
        }
      }
      assert pairs[..|pairs|] == pairs;
      poller := Some(registered);
    }

    /** A client connected to an endpoint; `id` is the subscriber that is made if it is the first one. */
    method ClientAccepted(i: nat, id: nat)
      requires Valid(Now()) && i < |pairs| && Unused(Now(), id)
      modifies this
      ensures Now() == Accepted(old(Now()), i, id) && Valid(Now())
    {
      hide Wired, Flows, Registered, Unused;
      FlowLengths(Now());
      AcceptWires(Now(), i, id);
      AcceptFlows(Now(), i, id);
      ghost var before := pairs;
      pairs := pairs[i := pairs[i].(clients := pairs[i].clients + 1)];
      if pairs[i].clients == 1 {
        pairs := pairs[i := pairs[i].(sub := Some(id))];
        assert pairs == before[i := Pair(before[i].endpoint, before[i].pub, Some(id), 1)];
        pending := pending[i := []];
        sub2pub := sub2pub[id := pairs[i].pub];
        RegisterSockets();
      }
    }

    /** A client left an endpoint. */
    method ClientDisconnected(i: nat)
      requires Valid(Now()) && i < |pairs|
      modifies this
      ensures |old(pending)| == |old(pairs)|
      ensures Now() == Disconnected(old(Now()), i) && Valid(Now())
    {
      hide Wired, Flows, Registered;
      FlowLengths(Now());
      DisconnectWires(Now(), i);
      DisconnectFlows(Now(), i);
      ghost var before := pairs;
      var p := pairs[i];
      if p.clients > 0 {
        pairs := pairs[i := p.(clients := p.clients - 1)];
      }
      if pairs[i].clients == 0 {
        if p.sub.Some? {
          sub2pub := sub2pub - {p.sub.value};
        }
        pairs := pairs[i := pairs[i].(sub := None)];
        assert pairs == before[i := Pair(p.endpoint, p.pub, None, 0)];
        pending := pending[i := []];
        RegisterSockets();
      }
    }

    /** One round of the main loop over the sockets a poll reported. */
    method ForwardRound(ready: seq<nat>)
      requires Valid(Now()) && Enabled(Now(), Forward(ready))
      modifies `pending, `sent
      ensures Now() == ForwardAll(old(Now()), ready) && Valid(Now())
    {
      hide Wired, Flows, Registered, ForwardOne;
      ghost var s := Now();
      assert ready[..0] == [];
      for k := 0 to |ready|
        invariant Now() == ForwardAll(s, ready[..k]) && Valid(Now())
      {
        assert ready[..k + 1][..k] == ready[..k];
        ForwardSocket(ready[k]);
      }
      assert ready[..|ready|] == ready;
    }

    /** Hands up to fifty messages of one subscriber to its publisher. */
    method ForwardSocket(id: nat)
      requires Valid(Now()) && poller.Some? && id in poller.value
      modifies `pending, `sent
      ensures Valid(old(Now())) && id in old(sub2pub) && Now() == ForwardOne(old(Now()), id) && Valid(Now())
    {
      hide Wired, Flows, Registered, ForwardOne, Subsequence, Moved;
      ghost var before := Now();
      PolledIsMapped(before, id);
      OwnerExists(before, id);
      ForwardOneFlows(before, id);
      var pub := sub2pub[id];
      var i := OwnerOf(pairs, id);
      ForwardOneIs(before, id, i);
      OneOwner(before, id, i);
      PublisherKnown(before, i);
      ghost var got, rest := sent[pub], pending[i];
      assert before.sent == before.sent[pub := got] && before.pending == before.pending[i := rest];
      MovedNone(before.sent[pub], before.pending[i]);
      for m := 0 to MAX_MESSAGES_PER_SOCKET
        invariant pending == before.pending[i := rest] && sent == before.sent[pub := got]
        invariant Moved(before.sent[pub], before.pending[i], m, got, rest)
      {
        MovedOne(before.sent[pub], before.pending[i], m, got, rest);
        if pending[i] == [] { break; }
        got, rest := got + [rest[0]], rest[1..];
        sent := sent[pub := sent[pub] + [pending[i][0]]];
        pending := pending[i := pending[i][1..]];
      }
      MovedAll(before.sent[pub], before.pending[i], got, rest);
    }
  }

  /** m messages, or all there are, have gone from held to sent. */
  predicate Moved(sent: seq<Message>, held: seq<Message>, m: nat, got: seq<Message>, rest: seq<Message>) {
    var n := if m < |held| then m else |held|;
    got == sent + held[..n] && rest == held[n..]
  }

  lemma {:induction false} MovedNone(sent: seq<Message>, held: seq<Message>)
    ensures Moved(sent, held, 0, sent, held)
  {}

  lemma {:induction false} MovedOne(sent: seq<Message>, held: seq<Message>, m: nat, got: seq<Message>,
      rest: seq<Message>)
    requires Moved(sent, held, m, got, rest)
    ensures rest != [] ==> Moved(sent, held, m + 1, got + [rest[0]], rest[1..])
    ensures rest == [] ==> forall k: nat :: k >= m ==> Moved(sent, held, k, got, rest)
  {
    if rest != [] {
      assert held[..m + 1] == held[..m] + [held[m]];
    }
  }

  lemma {:induction false} MovedAll(sent: seq<Message>, held: seq<Message>, got: seq<Message>, rest: seq<Message>)
    requires Moved(sent, held, MAX_MESSAGES_PER_SOCKET, got, rest)
    ensures got == sent + held[..Batch(held)] && rest == held[Batch(held)..]
  {}

  lemma {:induction false} NoneRegistered(pairs: seq<Pair>)
    requires forall i :: 0 <= i < |pairs| ==> pairs[i].sub == None
    ensures Registered(pairs) == []
  {
    if pairs != [] { NoneRegistered(pairs[..|pairs| - 1]); }
  }
}

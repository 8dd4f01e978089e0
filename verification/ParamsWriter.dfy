/** Parameters written in the background: one producer, a queue, and writer threads started on demand. */
module ParamsWriter {
  import opened Wrappers

  datatype Item = Item(key: string, value: string)

  /** Where a writer thread stands; Exiting is after its last, failed attempt to pop. */
  datatype Writer = Popping | Writing(item: Item) | Exiting | Finished

  /** Where the producer stands in its call: outside, about to look at the future, or about to start a thread. */
  datatype Producer = Idle | Checking | Launching

  /**
   * `future` is the writer whose completion the handle can wait for. `pushed`, `attempted` and `stored` are histories;
   * `late` says that the last look at the future found its writer past its last pop, with something in the queue.
   */
  datatype State = State(
    queue: seq<Item>, producer: Producer, writers: seq<Writer>, future: Option<nat>, store: map<string, string>,
    pushed: seq<Item>, attempted: seq<Item>, stored: seq<Item>, late: bool)

  function Start(store: map<string, string>): State { State([], Idle, [], None, store, [], [], [], false) }

  datatype Action = Push(item: Item) | Check | Launch | Pop(w: nat) | Put(w: nat, succeeds: bool) | Finish(w: nat)

  predicate Ready(s: State) {
    s.future.None? || (s.future.value < |s.writers| && s.writers[s.future.value] == Finished)
  }

  predicate Past(s: State) {
    s.future.Some? && s.future.value < |s.writers| && s.writers[s.future.value] == Exiting
  }

  predicate Enabled(s: State, a: Action) {
    match a
    case Push(_) => s.producer == Idle
    case Check => s.producer == Checking
    case Launch => s.producer == Launching
    case Pop(w) => w < |s.writers| && s.writers[w] == Popping
    case Put(w, _) => w < |s.writers| && s.writers[w].Writing?
    case Finish(w) => w < |s.writers| && s.writers[w] == Exiting
  }

  function Next(s: State, a: Action): State
    requires Enabled(s, a)
  {
    match a
    case Push(item) => s.(queue := s.queue + [item], pushed := s.pushed + [item], producer := Checking)
    case Check => s.(producer := if Ready(s) then Launching else Idle, late := Past(s) && s.queue != [])
    case Launch => s.(producer := Idle, writers := s.writers + [Popping], future := Some(|s.writers|))
    case Pop(w) =>
      if s.queue == [] then s.(writers := s.writers[w := Exiting])
      else s.(writers := s.writers[w := Writing(s.queue[0])], queue := s.queue[1..])
    case Put(w, succeeds) =>
      var item := s.writers[w].item;
      s.(writers := s.writers[w := Popping],
         attempted := s.attempted + [item],
         stored := if succeeds then s.stored + [item] else s.stored,
         store := if succeeds then s.store[item.key := item.value] else s.store)
    case Finish(w) => s.(writers := s.writers[w := Finished])
  }

  /** Every action is possible when its turn comes. */
  predicate Possible(s: State, actions: seq<Action>)
    decreases |actions|
  {
    actions == [] || (Enabled(s, actions[0]) && Possible(Next(s, actions[0]), actions[1..]))
  }

  function Run(s: State, actions: seq<Action>): State
    requires Possible(s, actions)
    decreases |actions|
  {
    if actions == [] then s else Run(Next(s, actions[0]), actions[1..])
  }

  // ---------- what every interleaving keeps ----------

  /** What the writer the handle waits for has taken out of the queue but not written yet. */
  function InFlight(s: State): seq<Item> {
    if s.future.Some? && s.future.value < |s.writers| && s.writers[s.future.value].Writing?
    then [s.writers[s.future.value].item] else []
  }

  predicate Live(w: Writer) { w != Finished }

  function Written(base: map<string, string>, items: seq<Item>): map<string, string> {
    if items == [] then base
    else
      var last := items[|items| - 1];
      Written(base, items[..|items| - 1])[last.key := last.value]
  }

  ghost predicate Good(s: State, base: map<string, string>) {
    && (s.future.None? ==> s.writers == [])
    && (s.future.Some? ==> s.future.value < |s.writers|)
    && (forall w :: 0 <= w < |s.writers| && Live(s.writers[w]) ==> s.future == Some(w))
    && (s.producer == Launching ==> Ready(s) && !s.late)
    && s.attempted + InFlight(s) + s.queue == s.pushed
    && s.store == Written(base, s.stored)
    && (s.late ==> s.queue != [] && s.future.Some? && !Working(s))
    && (s.producer == Idle && s.queue != [] && !s.late ==> Working(s))
  }

  /** A writer is at work that has not made its last pop yet. */
  predicate Working(s: State) {
    && s.future.Some? && s.future.value < |s.writers|
    && (s.writers[s.future.value] == Popping || s.writers[s.future.value].Writing?)
  }

  lemma {:induction false} StartIsGood(base: map<string, string>)
    ensures Good(Start(base), base)
  {}

  lemma {:induction false} WrittenStep(base: map<string, string>, items: seq<Item>, item: Item)
    ensures Written(base, items + [item]) == Written(base, items)[item.key := item.value]
  {
    assert (items + [item])[..|items|] == items;
  }

  lemma {:induction false} ProducerKeepsGood(s: State, base: map<string, string>, a: Action)
    requires Good(s, base) && Enabled(s, a) && (a.Push? || a.Check? || a.Launch?)
    ensures Good(Next(s, a), base)
  {
    hide Written;
    if a.Push? {
      assert s.attempted + InFlight(s) + (s.queue + [a.item]) == s.pushed + [a.item];
    } else if a.Launch? {
      assert InFlight(s) == [];
    }
  }

  lemma {:induction false} PopKeepsGood(s: State, base: map<string, string>, w: nat)
    requires Good(s, base) && Enabled(s, Pop(w))
    ensures Good(Next(s, Pop(w)), base)
  {
    hide Written;
    assert s.future == Some(w);
    if s.queue != [] {
      assert s.queue == [s.queue[0]] + s.queue[1..];
      assert s.attempted + [] + s.queue == s.attempted + [s.queue[0]] + s.queue[1..];
    }
  }

  lemma {:induction false} PutKeepsGood(s: State, base: map<string, string>, w: nat, succeeds: bool)
    requires Good(s, base) && Enabled(s, Put(w, succeeds))
    ensures Good(Next(s, Put(w, succeeds)), base)
  {
    hide Written;
    assert s.future == Some(w);
    var item := s.writers[w].item;
    WrittenStep(base, s.stored, item);
    assert s.attempted + [item] + s.queue == (s.attempted + [item]) + [] + s.queue;
  }

  lemma {:induction false} FinishKeepsGood(s: State, base: map<string, string>, w: nat)
    requires Good(s, base) && Enabled(s, Finish(w))
    ensures Good(Next(s, Finish(w)), base)
  {
    hide Written;
    assert s.future == Some(w);
  }

  lemma {:induction false} NextIsGood(s: State, base: map<string, string>, a: Action)
    requires Good(s, base) && Enabled(s, a)
    ensures Good(Next(s, a), base)
  {
    hide Good, Next, Enabled;
    match a
    case Pop(w) => PopKeepsGood(s, base, w);
    case Put(w, succeeds) => PutKeepsGood(s, base, w, succeeds);
    case Finish(w) => FinishKeepsGood(s, base, w);
    case _ => ProducerKeepsGood(s, base, a);
  }

  lemma {:induction false} RunIsGood(s: State, base: map<string, string>, actions: seq<Action>)
    requires Good(s, base) && Possible(s, actions)
    ensures Good(Run(s, actions), base)
    decreases |actions|
  {
    hide Good, Next;
    if actions != [] {
      NextIsGood(s, base, actions[0]);
      RunIsGood(Next(s, actions[0]), base, actions[1..]);
    }
  }

  /** At every interleaving at most one writer thread is live. */
  lemma {:induction false} AtMostOneWriter(base: map<string, string>, actions: seq<Action>, v: nat, w: nat)
    requires Possible(Start(base), actions)
    ensures var r := Run(Start(base), actions);
            v < |r.writers| && w < |r.writers| && Live(r.writers[v]) && Live(r.writers[w]) ==> v == w
  {
    StartIsGood(base);
    RunIsGood(Start(base), base, actions);
  }

  /** Nothing pushed is lost or reordered: attempted, in flight and queued together are what was pushed. */
  lemma {:induction false} PushesAreKept(base: map<string, string>, actions: seq<Action>)
    requires Possible(Start(base), actions)
    ensures var r := Run(Start(base), actions); r.attempted + InFlight(r) + r.queue == r.pushed
  {
    StartIsGood(base);
    RunIsGood(Start(base), base, actions);
  }

  // ---------- values ----------

  /** The last value pushed for a key. */
  function LastValue(items: seq<Item>, key: string): Option<string> {
    if items == [] then None
    else if items[|items| - 1].key == key then Some(items[|items| - 1].value)
    else LastValue(items[..|items| - 1], key)
  }

  lemma {:induction false} WrittenIsLast(base: map<string, string>, items: seq<Item>, key: string)
    ensures var m := Written(base, items);
            match LastValue(items, key)
            case Some(v) => key in m && m[key] == v
            case None => (key in m <==> key in base) && (key in base ==> m[key] == base[key])
  {
    if items != [] {
      WrittenIsLast(base, items[..|items| - 1], key);
    }
  }

  predicate AllSucceed(actions: seq<Action>) {
    forall k :: 0 <= k < |actions| && actions[k].Put? ==> actions[k].succeeds
  }

  lemma {:induction false} SuccessfulPutsStore(s: State, actions: seq<Action>)
    requires Possible(s, actions) && AllSucceed(actions) && s.stored == s.attempted
    ensures Run(s, actions).stored == Run(s, actions).attempted
    decreases |actions|
  {
    if actions != [] {
      assert AllSucceed(actions[1..]);
      assert actions[0].Put? ==> actions[0].succeeds;
      SuccessfulPutsStore(Next(s, actions[0]), actions[1..]);
    }
  }

  /** With successful puts, whenever queue and in-flight slot are empty every key holds the last value pushed for it. */
  lemma {:induction false} LastValueWins(base: map<string, string>, actions: seq<Action>, key: string)
    requires Possible(Start(base), actions) && AllSucceed(actions)
    ensures var r := Run(Start(base), actions);
            r.queue == [] && InFlight(r) == [] ==>
              match LastValue(r.pushed, key)
              case Some(v) => key in r.store && r.store[key] == v
              case None => (key in r.store <==> key in base) && (key in base ==> r.store[key] == base[key])
  {
    StartIsGood(base);
    RunIsGood(Start(base), base, actions);
    SuccessfulPutsStore(Start(base), actions);
    var r := Run(Start(base), actions);
    if r.queue == [] && InFlight(r) == [] {
      assert r.attempted + [] + [] == r.attempted;
      WrittenIsLast(base, r.pushed, key);
    }
  }

  // ---------- waiting for the writer ----------

  /** Lets the writer of the future run to its end while the producer does nothing; all puts succeed. */
  function Wait(s: State): State
    requires s.future.Some? ==> s.future.value < |s.writers|
    decreases |s.queue|, if s.future.None? then 0 else match s.writers[s.future.value]
               case Finished => 0 case Exiting => 1 case Popping => 2 case Writing(_) => 3
  {
    if s.future.None? then s
    else
      var w := s.future.value;
      match s.writers[w]
      case Finished => s
      case Exiting => Wait(Next(s, Finish(w)))
      case Popping => Wait(Next(s, Pop(w)))
      case Writing(_) => Wait(Next(s, Put(w, true)))
  }

  /**
   * What the destructor finds after it has waited: the queue is empty if and only if the producer's last look at the
   * future did not find a writer past its last pop while something was queued.
   */
  lemma {:induction false} WaitEmptiesQueue(s: State, base: map<string, string>)
    requires Good(s, base) && s.producer == Idle
    ensures var r := Wait(s);
            && (r.queue == [] <==> !s.late)
            && (!s.late ==> r.attempted == s.pushed && r.pushed == s.pushed)
            && (forall w :: 0 <= w < |r.writers| ==> r.writers[w] == Finished)
    decreases |s.queue|, if s.future.None? then 0 else match s.writers[s.future.value]
               case Finished => 0 case Exiting => 1 case Popping => 2 case Writing(_) => 3
  {
    if s.future.Some? && s.writers[s.future.value] != Finished {
      var w := s.future.value;
      var a := match s.writers[w] case Exiting => Finish(w) case Popping => Pop(w) case _ => Put(w, true);
      NextIsGood(s, base, a);
      WaitEmptiesQueue(Next(s, a), base);
    } else {
      assert InFlight(s) == [];
      assert !s.late ==> s.attempted + [] + [] == s.attempted;
    }
  }

  // ---------- the queue is not always drained ----------

  /** The second item arrives between the writer's failed pop and the moment its future becomes ready. */
  function StrandedRun(a: Item, b: Item): seq<Action> {
    [Push(a), Check, Launch, Pop(0), Put(0, true), Pop(0), Push(b), Check, Finish(0)]
  }

  /** One action in front of a run. */
  lemma {:induction false} RunFrom(s: State, end: State, a: Action, rest: seq<Action>)
    requires Enabled(s, a) && Possible(Next(s, a), rest) && Run(Next(s, a), rest) == end
    ensures Possible(s, [a] + rest) && Run(s, [a] + rest) == end
  {
    assert ([a] + rest)[1..] == rest;
  }

  function StrandedState(base: map<string, string>, a: Item, b: Item): State {
    State([b], Idle, [Finished], Some(0), base[a.key := a.value], [a, b], [a], [a], true)
  }

  /** The states while a first item is pushed, a writer launched for it, and the item written. */
  function Stage(base: map<string, string>, a: Item, k: nat): State {
    if k == 0 then Start(base)
    else if k == 1 then State([a], Checking, [], None, base, [a], [], [], false)
    else if k == 2 then State([a], Launching, [], None, base, [a], [], [], false)
    else if k == 3 then State([a], Idle, [Popping], Some(0), base, [a], [], [], false)
    else if k == 4 then State([], Idle, [Writing(a)], Some(0), base, [a], [], [], false)
    else State([], Idle, [if k == 5 then Popping else Exiting], Some(0), base[a.key := a.value], [a], [a], [a], false)
  }

  lemma {:induction false} FirstStages(base: map<string, string>, a: Item)
    ensures Enabled(Start(base), Push(a)) && Next(Start(base), Push(a)) == Stage(base, a, 1)
    ensures Enabled(Stage(base, a, 1), Check) && Next(Stage(base, a, 1), Check) == Stage(base, a, 2)
    ensures Enabled(Stage(base, a, 2), Launch) && Next(Stage(base, a, 2), Launch) == Stage(base, a, 3)
  {}

  lemma {:induction false} LaterStages(base: map<string, string>, a: Item)
    ensures Enabled(Stage(base, a, 3), Pop(0)) && Next(Stage(base, a, 3), Pop(0)) == Stage(base, a, 4)
    ensures Enabled(Stage(base, a, 4), Put(0, true)) && Next(Stage(base, a, 4), Put(0, true)) == Stage(base, a, 5)
    ensures Enabled(Stage(base, a, 5), Pop(0)) && Next(Stage(base, a, 5), Pop(0)) == Stage(base, a, 6)
    ensures Stage(base, a, 6) ==
            State([], Idle, [Exiting], Some(0), base[a.key := a.value], [a], [a], [a], false)
  {}

  /** The first half: the first item is written and the writer has made its last pop. */
  lemma {:induction false} FirstItemWritten(base: map<string, string>, a: Item)
    ensures var actions := [Push(a), Check, Launch, Pop(0), Put(0, true), Pop(0)];
            && Possible(Start(base), actions)
            && Run(Start(base), actions) ==
               State([], Idle, [Exiting], Some(0), base[a.key := a.value], [a], [a], [a], false)
  {
    var s1, s2, s3 := Stage(base, a, 1), Stage(base, a, 2), Stage(base, a, 3);
    var s4, s5, s6 := Stage(base, a, 4), Stage(base, a, 5), Stage(base, a, 6);
    FirstStages(base, a);
    LaterStages(base, a);
    hide Next, Stage;
    RunFrom(s5, s6, Pop(0), []);
    RunFrom(s4, s6, Put(0, true), [Pop(0)]);
    RunFrom(s3, s6, Pop(0), [Put(0, true), Pop(0)]);
    RunFrom(s2, s6, Launch, [Pop(0), Put(0, true), Pop(0)]);
    RunFrom(s1, s6, Check, [Launch, Pop(0), Put(0, true), Pop(0)]);
    RunFrom(Start(base), s6, Push(a), [Check, Launch, Pop(0), Put(0, true), Pop(0)]);
  }

  lemma {:induction false} SecondItemStranded(s: State, b: Item)
    requires s.queue == [] && s.producer == Idle && s.writers == [Exiting] && s.future == Some(0)
    ensures var actions := [Push(b), Check, Finish(0)];
            && Possible(s, actions)
            && Run(s, actions) == s.(queue := [b], pushed := s.pushed + [b], late := true, writers := [Finished])
  {
    var s1 := s.(queue := [b], pushed := s.pushed + [b], producer := Checking);
    var s2 := s.(queue := [b], pushed := s.pushed + [b], late := true);
    var s3 := s2.(writers := [Finished]);
    assert Next(s, Push(b)) == s1 && Next(s1, Check) == s2 && Next(s2, Finish(0)) == s3;
    hide Next;
    RunFrom(s2, s3, Finish(0), []);
    RunFrom(s1, s3, Check, [Finish(0)]);
    RunFrom(s, s3, Push(b), [Check, Finish(0)]);
  }

  lemma {:induction false} RunConcat(s: State, p: seq<Action>, q: seq<Action>)
    requires Possible(s, p) && Possible(Run(s, p), q)
    ensures Possible(s, p + q) && Run(s, p + q) == Run(Run(s, p), q)
    decreases |p|
  {
    hide Next, Enabled;
    if p == [] {
      assert p + q == q;
    } else {
      RunConcat(Next(s, p[0]), p[1..], q);
      assert (p + q)[1..] == p[1..] + q;
    }
  }

  /** Then nothing is running, there is nothing to wait for, and the second item is still queued. */
  lemma {:induction false} QueueCanBeStranded(base: map<string, string>, a: Item, b: Item)
    ensures Possible(Start(base), StrandedRun(a, b))
    ensures Run(Start(base), StrandedRun(a, b)) == StrandedState(base, a, b)
    ensures Wait(StrandedState(base, a, b)) == StrandedState(base, a, b)
  {
    FirstItemWritten(base, a);
    hide Next, Enabled, Possible, Run;
    var first, second := [Push(a), Check, Launch, Pop(0), Put(0, true), Pop(0)], [Push(b), Check, Finish(0)];
    var s := Run(Start(base), first);
    SecondItemStranded(s, b);
    RunConcat(Start(base), first, second);
    assert first + second == StrandedRun(a, b);
  }
}

/** One publisher and n consumers sharing a pool of reference-counted frames, as
    interleaved atomic steps: the pool scan's loads and its store, the copy byte by byte, the
    final count, each send and each release are separate steps. */
module Fanout {
  import opened Crc24
  import opened Frames
  import opened Sequences
  import opened ValueQueues

  /** n consumers with queues of the given depth share `slots` frames. */
  datatype Config = Config(n: nat, depth: nat, slots: nat)

  const RTKBASE := Config(3, 16, 56)

  /** The most references n consumers can have: a full queue and a frame in hand each. */
  function Capacity(n: nat, depth: nat): nat {
    n * (depth + 1)
  }

  ghost predicate EnoughSlots(k: Config) {
    k.slots > Capacity(k.n, k.depth)
  }

  lemma RtkbaseHasEnoughSlots()
    ensures EnoughSlots(RTKBASE) && Capacity(RTKBASE.n, RTKBASE.depth) == 51
  {}

  datatype Slot = Slot(data: seq<byte>, len: nat, refs: int)

  datatype Consumer = Consumer(queue: seq<nat>, held: Option<nat>, drops: nat)

  /** Where the publisher is inside publish_rtcm_frame. */
  datatype Publisher =
    | Idle
    | Scan(frame: Frame, i: nat)          // about to load the count of slot i
    | Store(frame: Frame, slot: nat)      // saw 0, about to store the tentative 1
    | Fill(frame: Frame, slot: nat, j: nat)  // j bytes copied; at the end, store the length
    | SetRefs(frame: Frame, slot: nat)
    | Send(frame: Frame, slot: nat, c: nat)
    | Drop(frame: Frame, slot: nat, c: nat)  // queue c was full, about to release its reference

  datatype State = State(slots: seq<Slot>, consumers: seq<Consumer>, pub: Publisher)

  datatype Action =
    | Publish(frame: Frame)
    | Step               // the publisher's next step
    | Receive(c: nat)
    | ReadByte(c: nat, i: nat)
    | ReadLength(c: nat)
    | Release(c: nat)

  datatype Outcome = Outcome(state: State, events: seq<Event>)

  function Init(k: Config): State {
    State(seq(k.slots, i => Slot(seq(MAX_RTCM_FRAME, j => 0), 0, 0)),
          seq(k.n, i => Consumer([], None, 0)), Idle)
  }

  predicate Holds(s: State, c: nat) {
    c < |s.consumers| && s.consumers[c].held.Some? && s.consumers[c].held.value < |s.slots|
  }

  predicate Enabled(s: State, a: Action) {
    match a
    case Publish(frame) => s.pub == Idle && |frame| <= MAX_RTCM_FRAME
    case Step =>
      match s.pub {
        case Idle => false
        case Scan(_, i) => i <= |s.slots|
        case Store(_, x) => x < |s.slots|
        case Fill(f, x, j) => x < |s.slots| && j <= |f| && (j < |f| ==> j < |s.slots[x].data|)
        case SetRefs(_, x) => x < |s.slots|
        case Send(_, x, c) => x < |s.slots| && c < |s.consumers|
        case Drop(_, x, c) => x < |s.slots| && c < |s.consumers|
      }
    case Receive(c) => c < |s.consumers| && s.consumers[c].held.None? && s.consumers[c].queue != []
    case ReadByte(c, i) =>
      Holds(s, c) && i < s.slots[s.consumers[c].held.value].len <= |s.slots[s.consumers[c].held.value].data|
    case ReadLength(c) => Holds(s, c)
    case Release(c) => Holds(s, c)
  }

  function SetSlot(s: State, x: nat, slot: Slot, pub: Publisher): State
    requires x < |s.slots|
  {
    s.(slots := s.slots[x := slot], pub := pub)
  }

  function SetConsumer(s: State, c: nat, x: Consumer): State
    requires c < |s.consumers|
  {
    s.(consumers := s.consumers[c := x])
  }

  /** Drop counters are 32-bit words. */
  function CountDrop(n: nat): nat {
    (n + 1) % UINT32
  }

  function AfterSend(k: Config, frame: Frame, x: nat, c: nat): Publisher {
    if c + 1 == k.n then Idle else Send(frame, x, c + 1)
  }

  function PublisherStep(k: Config, s: State): Outcome
    requires Enabled(s, Step)
  {
    match s.pub
    case Scan(f, i) =>
      if i == |s.slots| then Outcome(s.(pub := Idle), [PoolExhausted])
      else if s.slots[i].refs == 0 then Outcome(s.(pub := Store(f, i)), [])
      else Outcome(s.(pub := Scan(f, i + 1)), [])
    case Store(f, x) => Outcome(SetSlot(s, x, s.slots[x].(refs := 1), Fill(f, x, 0)), [])
    case Fill(f, x, j) =>
      if j < |f| then
        Outcome(SetSlot(s, x, s.slots[x].(data := s.slots[x].data[j := f[j]]), Fill(f, x, j + 1)), [])
      else Outcome(SetSlot(s, x, s.slots[x].(len := |f|), SetRefs(f, x)), [])
    case SetRefs(f, x) => Outcome(SetSlot(s, x, s.slots[x].(refs := k.n), Send(f, x, 0)), [])
    case Send(f, x, c) =>
      var q := s.consumers[c];
      if |q.queue| < k.depth then
        Outcome(SetConsumer(s, c, q.(queue := q.queue + [x])).(pub := AfterSend(k, f, x, c)),
                [Offered(c, f, true)])
      else
        Outcome(SetConsumer(s, c, q.(drops := CountDrop(q.drops))).(pub := Drop(f, x, c)),
                [Offered(c, f, false)])
    case Drop(f, x, c) =>
      Outcome(SetSlot(s, x, s.slots[x].(refs := s.slots[x].refs - 1), AfterSend(k, f, x, c)),
              if s.slots[x].refs <= 0 then [ReleasedFreeSlot] else [])
  }

  function Next(k: Config, s: State, a: Action): Outcome
    requires Enabled(s, a)
  {
    match a
    case Publish(frame) =>
      // with no consumer the frame is discarded
      Outcome(s.(pub := if k.n == 0 then Idle else Scan(frame, 0)), [Published(frame)])
    case Step => PublisherStep(k, s)
    case Receive(c) =>
      var q := s.consumers[c];
      Outcome(SetConsumer(s, c, q.(queue := q.queue[1..], held := Some(q.queue[0]))), [Received(c)])
    case ReadByte(c, i) => Outcome(s, [SawByte(c, i, s.slots[s.consumers[c].held.value].data[i])])
    case ReadLength(c) => Outcome(s, [SawLength(c, s.slots[s.consumers[c].held.value].len)])
    case Release(c) =>
      var x := s.consumers[c].held.value;
      Outcome(SetConsumer(SetSlot(s, x, s.slots[x].(refs := s.slots[x].refs - 1), s.pub), c,
                          s.consumers[c].(held := None)),
              if s.slots[x].refs <= 0 then [ReleasedFreeSlot] else [Released(c)])
  }

  /** Every action of the sequence is possible when its turn comes. */
  ghost predicate Runs(k: Config, s: State, actions: seq<Action>)
    decreases |actions|
  {
    actions == [] || (Enabled(s, actions[0]) && Runs(k, Next(k, s, actions[0]).state, actions[1..]))
  }

  function Run(k: Config, s: State, actions: seq<Action>): Outcome
    requires Runs(k, s, actions)
    decreases |actions|
  {
    if actions == [] then Outcome(s, [])
    else
      var x := Next(k, s, actions[0]);
      var y := Run(k, x.state, actions[1..]);
      Outcome(y.state, x.events + y.events)
  }

  // ---- References ----

  /** The references a consumer has: one per queue entry, one for the frame in hand. */
  function Bag(c: Consumer): multiset<nat> {
    multiset(c.queue) + if c.held.Some? then multiset{c.held.value} else multiset{}
  }

  function Bags(cs: seq<Consumer>): multiset<nat> {
    if cs == [] then multiset{} else Bags(cs[..|cs| - 1]) + Bag(cs[|cs| - 1])
  }

  /** References the publisher still has to hand out or release. */
  function Owed(k: Config, pub: Publisher, x: nat): int {
    match pub
    case Fill(_, y, _) => if x == y then 1 else 0
    case SetRefs(_, y) => if x == y then 1 else 0
    case Send(_, y, c) => if x == y then k.n - c else 0
    case Drop(_, y, c) => if x == y then k.n - c else 0
    case _ => 0
  }

  lemma BagsSnoc(cs: seq<Consumer>, c: Consumer)
    ensures Bags(cs + [c]) == Bags(cs) + Bag(c)
  {
    assert (cs + [c])[..|cs|] == cs;
  }

  lemma SwapParts(a: multiset<nat>, b: multiset<nat>, c: multiset<nat>, d: multiset<nat>, e: multiset<nat>)
    requires a + b == c + d
    ensures (a + e) + b == (c + e) + d
  {
    assert (a + e) + b == (a + b) + e;
    assert (c + e) + d == (c + d) + e;
  }

  lemma BagsUpdateLast(front: seq<Consumer>, last: Consumer, x: Consumer)
    ensures Bags(front + [x]) + Bag(last) == Bags(front + [last]) + Bag(x)
  {
    BagsSnoc(front, x);
    BagsSnoc(front, last);
    hide *;
    assert (Bags(front) + Bag(x)) + Bag(last) == (Bags(front) + Bag(last)) + Bag(x);
  }

  lemma BagsUpdateFront(front: seq<Consumer>, front': seq<Consumer>, last: Consumer, y: Consumer, x: Consumer)
    requires Bags(front') + Bag(y) == Bags(front) + Bag(x)
    ensures Bags(front' + [last]) + Bag(y) == Bags(front + [last]) + Bag(x)
  {
    BagsSnoc(front, last);
    BagsSnoc(front', last);
    hide *;
    SwapParts(Bags(front'), Bag(y), Bags(front), Bag(x), Bag(last));
  }

  lemma {:induction false} BagsUpdate(cs: seq<Consumer>, c: nat, x: Consumer)
    requires c < |cs|
    ensures Bags(cs[c := x]) + Bag(cs[c]) == Bags(cs) + Bag(x)
  {
    hide *;
    var n := |cs| - 1;
    var front, last := cs[..n], cs[n];
    assert cs == front + [last];
    if c == n {
      assert cs[c := x] == front + [x];
      BagsUpdateLast(front, last, x);
    } else {
      BagsUpdate(front, c, x);
      assert cs[c := x] == front[c := x] + [last] && front[c] == cs[c];
      BagsUpdateFront(front, front[c := x], last, cs[c], x);
    }
  }

  lemma {:induction false} BagInBags(cs: seq<Consumer>, c: nat)
    requires c < |cs|
    ensures Bag(cs[c]) <= Bags(cs)
  {
    var n := |cs| - 1;
    if c < n {
      BagInBags(cs[..n], c);
    }
  }

  lemma BagBounded(c: Consumer, depth: nat)
    requires |c.queue| <= depth
    ensures |Bag(c)| <= depth + 1
  {}

  lemma OneMore(n: nat, depth: nat)
    ensures Capacity(n, depth) + depth + 1 == Capacity(n + 1, depth)
  {}

  lemma CapacityOfNone(depth: nat)
    ensures Capacity(0, depth) == 0
  {}

  lemma {:induction false} BagsBounded(cs: seq<Consumer>, depth: nat)
    requires forall c :: 0 <= c < |cs| ==> |cs[c].queue| <= depth
    ensures |Bags(cs)| <= Capacity(|cs|, depth)
  {
    if cs == [] {
      CapacityOfNone(depth);
    } else {
      var n := |cs| - 1;
      BagsBounded(cs[..n], depth);
      BagBounded(cs[n], depth);
      OneMore(n, depth);
      hide Bag, Capacity;
    }
  }

  /** Pigeonhole. */
  lemma {:induction false} AllTaken(m: multiset<nat>, slots: nat)
    requires forall x :: 0 <= x < slots ==> m[x] > 0
    ensures |m| >= slots
  {
    if slots > 0 {
      var r := m - multiset{slots - 1};
      AllTaken(r, slots - 1);
      assert m == r + multiset{slots - 1};
    }
  }

  // ---- Simulation ----

  function Content(x: Slot): Frame {
    if x.len <= |x.data| then x.data[..x.len] else []
  }

  ghost predicate SlotOk(x: Slot) {
    |x.data| == MAX_RTCM_FRAME && x.len <= MAX_RTCM_FRAME
  }

  ghost predicate Pointers(c: Consumer, slots: nat) {
    && (forall i :: 0 <= i < |c.queue| ==> c.queue[i] < slots)
    && (c.held.Some? ==> c.held.value < slots)
  }

  /** The shared state looks to a consumer as its mailbox does. */
  ghost predicate Mirrors(slots: seq<Slot>, depth: nat, c: Consumer, box: Mailbox)
    requires Pointers(c, |slots|)
  {
    && c.drops == Missed(box.offers) % UINT32
    && |c.queue| == Waiting(box) <= depth
    && (forall i :: 0 <= i < |c.queue| ==> Content(slots[c.queue[i]]) == Accepted(box.offers)[box.received + i])
    && (c.held.Some? <==> box.holding)
    && (c.held.Some? ==> HasFrame(box) && Content(slots[c.held.value]) == InHand(box))
  }

  ghost predicate Shape(k: Config, s: State, m: Ideal) {
    && |s.slots| == k.slots
    && |s.consumers| == k.n == |m.boxes|
    && (forall x :: 0 <= x < |s.slots| ==> SlotOk(s.slots[x]))
    && (forall c :: 0 <= c < |s.consumers| ==> Pointers(s.consumers[c], |s.slots|))
  }

  ghost predicate AllMirrored(k: Config, s: State, m: Ideal)
    requires Shape(k, s, m)
  {
    forall c :: 0 <= c < k.n ==> Mirrors(s.slots, k.depth, s.consumers[c], m.boxes[c])
  }

  /** A slot's count is the number of queue entries and consumers' hands holding it, plus
      what the publisher still owes. */
  ghost predicate Counted(k: Config, s: State) {
    forall x :: 0 <= x < |s.slots| ==> s.slots[x].refs == Bags(s.consumers)[x] + Owed(k, s.pub, x)
  }

  ghost predicate SomeFree(s: State, i: nat) {
    exists x :: i <= x < |s.slots| && s.slots[x].refs == 0
  }

  ghost predicate PublisherOk(k: Config, s: State) {
    && (s.pub != Idle ==> k.n > 0 && |s.pub.frame| <= MAX_RTCM_FRAME)
    && match s.pub {
         case Idle => true
         case Scan(_, i) => SomeFree(s, i)
         case Store(_, x) => x < |s.slots| && s.slots[x].refs == 0
         case Fill(f, x, j) => x < |s.slots| && s.slots[x].refs == 1 && j <= |f| && f[..j] <= s.slots[x].data
         case SetRefs(f, x) => x < |s.slots| && s.slots[x].refs == 1 && Content(s.slots[x]) == f
         case Send(f, x, c) => x < |s.slots| && c < k.n && Content(s.slots[x]) == f
         case Drop(f, x, c) => x < |s.slots| && c < k.n && Content(s.slots[x]) == f
       }
  }

  /** How far the publication has got: the consumers before `Turn` have been offered every
      published frame, the others all but the last. */
  function Turn(k: Config, pub: Publisher): nat {
    match pub
    case Idle => k.n
    case Send(_, _, c) => c
    case Drop(_, _, c) => c + 1
    case _ => 0
  }

  ghost predicate InStep(k: Config, s: State, m: Ideal) {
    && (s.pub != Idle ==> m.published != [] && m.published[|m.published| - 1] == s.pub.frame)
    && forall c :: 0 <= c < |m.boxes| ==>
         |m.boxes[c].offers| == |m.published| - if c < Turn(k, s.pub) then 0 else 1
  }

  ghost predicate Sim(k: Config, s: State, m: Ideal) {
    && Shape(k, s, m)
    && Counted(k, s)
    && PublisherOk(k, s)
    && InStep(k, s, m)
    && AllMirrored(k, s, m)
  }

  lemma BagsAt(cs: seq<Consumer>, c: nat, x: Consumer, y: nat)
    requires c < |cs|
    ensures Bags(cs[c := x])[y] + Bag(cs[c])[y] == Bags(cs)[y] + Bag(x)[y]
  {
    BagsUpdate(cs, c, x);
    hide *;
    assert (Bags(cs[c := x]) + Bag(cs[c]))[y] == (Bags(cs) + Bag(x))[y];
  }

  lemma InBag(c: Consumer, x: nat)
    requires x in c.queue || c.held == Some(x)
    ensures Bag(c)[x] > 0
  {}

  lemma InBags(cs: seq<Consumer>, c: nat, x: nat)
    requires c < |cs| && (x in cs[c].queue || cs[c].held == Some(x))
    ensures Bags(cs)[x] > 0
  {
    InBag(cs[c], x);
    BagInBags(cs, c);
    hide *;
    assert Bags(cs)[x] >= Bag(cs[c])[x];
  }

  // ---- What the pool guarantees in every state the simulation reaches ----

  /** A slot somebody can still read is counted, so it is not free. */
  lemma ReadableIsBusy(k: Config, s: State, m: Ideal, c: nat, x: nat)
    requires Sim(k, s, m) && c < k.n && x < k.slots
    requires x in s.consumers[c].queue || s.consumers[c].held == Some(x)
    ensures s.slots[x].refs > 0
  {
    InBags(s.consumers, c, x);
    assert Counted(k, s);
    hide Bags, Sim;
  }

  /** With nothing owed, at most n * (depth + 1) slots are busy. */
  lemma BusyBound(k: Config, s: State, m: Ideal)
    requires Shape(k, s, m) && AllMirrored(k, s, m)
    ensures |Bags(s.consumers)| <= Capacity(k.n, k.depth)
  {
    hide Bags, Capacity, Mirrors, Pointers, SlotOk;
    forall c | 0 <= c < |s.consumers|
      ensures |s.consumers[c].queue| <= k.depth
    {
      QueueBounded(s.slots, k.depth, s.consumers[c], m.boxes[c]);
    }
    BagsBounded(s.consumers, k.depth);
  }

  lemma QueueBounded(slots: seq<Slot>, depth: nat, c: Consumer, box: Mailbox)
    requires Pointers(c, |slots|) && Mirrors(slots, depth, c, box)
    ensures |c.queue| <= depth
  {
    hide Content, Accepted, Missed;
  }

  lemma FreeSlotExists(k: Config, s: State, m: Ideal)
    requires EnoughSlots(k) && Shape(k, s, m) && AllMirrored(k, s, m) && Counted(k, s) && s.pub == Idle
    ensures SomeFree(s, 0)
  {
    hide Bags, AllMirrored, Capacity;
    BusyBound(k, s, m);
    if !SomeFree(s, 0) {
      forall x | 0 <= x < k.slots
        ensures Bags(s.consumers)[x] > 0
      {
        assert s.slots[x].refs == Bags(s.consumers)[x];
      }
      AllTaken(Bags(s.consumers), k.slots);
      assert false;
    }
  }

  // ---- Frames: what a step that touches one slot or one consumer keeps ----

  lemma MirrorsKeeps(slots: seq<Slot>, slots': seq<Slot>, depth: nat, c: Consumer, box: Mailbox)
    requires |slots| == |slots'| && Pointers(c, |slots|) && Mirrors(slots, depth, c, box)
    requires forall x :: 0 <= x < |slots| && (x in c.queue || c.held == Some(x)) ==>
               Content(slots[x]) == Content(slots'[x])
    ensures Mirrors(slots', depth, c, box)
  {
    forall i | 0 <= i < |c.queue|
      ensures Content(slots'[c.queue[i]]) == Accepted(box.offers)[box.received + i]
    {
      assert c.queue[i] in c.queue;
    }
    hide Content, Accepted, Missed;
  }

  lemma SlotUpdated(k: Config, s: State, m: Ideal, x: nat, slot: Slot, pub: Publisher)
    requires Shape(k, s, m) && AllMirrored(k, s, m) && x < |s.slots| && SlotOk(slot)
    requires Content(slot) == Content(s.slots[x]) || Bags(s.consumers)[x] == 0
    ensures var s' := SetSlot(s, x, slot, pub); Shape(k, s', m) && AllMirrored(k, s', m)
  {
    var s' := SetSlot(s, x, slot, pub);
    assert Shape(k, s', m);
    hide Bags, Mirrors, Pointers, SlotOk, Content;
    forall c | 0 <= c < k.n
      ensures Mirrors(s'.slots, k.depth, s'.consumers[c], m.boxes[c])
    {
      forall y | 0 <= y < |s.slots| && (y in s.consumers[c].queue || s.consumers[c].held == Some(y))
        ensures Content(s.slots[y]) == Content(s'.slots[y])
      {
        InBags(s.consumers, c, y);
      }
      MirrorsKeeps(s.slots, s'.slots, k.depth, s.consumers[c], m.boxes[c]);
    }
  }

  lemma ConsumerUpdated(k: Config, s: State, m: Ideal, c: nat, x: Consumer, box: Mailbox)
    requires Shape(k, s, m) && AllMirrored(k, s, m) && c < k.n
    requires Pointers(x, |s.slots|) && Mirrors(s.slots, k.depth, x, box)
    ensures var s', m' := SetConsumer(s, c, x), m.(boxes := m.boxes[c := box]);
            Shape(k, s', m') && AllMirrored(k, s', m')
  {
    hide Mirrors, Pointers;
  }

  // ---- One step ----

  /** The outcome of a step is a run of the ideal, and the new states match again. */
  ghost predicate Matches(k: Config, m: Ideal, x: Outcome) {
    Replays(k.depth, m, x.events) && Sim(k, x.state, ApplyAll(m, x.events))
  }

  lemma OneEvent(k: Config, m: Ideal, x: Outcome, e: Event)
    requires x.events == [e] && Allowed(k.depth, m, e) && Sim(k, x.state, Apply(m, e))
    ensures Matches(k, m, x)
  {
    OneEventRun(k.depth, m, e);
    hide Sim, Allowed, Apply, ApplyAll, Replays;
  }

  lemma NoEvent(k: Config, m: Ideal, x: Outcome)
    requires x.events == [] && Sim(k, x.state, m)
    ensures Matches(k, m, x)
  {
    hide Sim;
  }

  lemma PublishMatches(k: Config, s: State, m: Ideal, frame: Frame)
    requires EnoughSlots(k) && Sim(k, s, m) && Enabled(s, Publish(frame))
    ensures Matches(k, m, Next(k, s, Publish(frame)))
  {
    var x := Next(k, s, Publish(frame));
    FreeSlotExists(k, s, m);
    var m' := Apply(m, Published(frame));
    hide Bags, Mirrors, Pointers, SlotOk, Capacity;
    assert Shape(k, x.state, m') && Counted(k, x.state) && PublisherOk(k, x.state);
    assert InStep(k, x.state, m') && AllMirrored(k, x.state, m');
    OneEvent(k, m, x, Published(frame));
  }

  /** A step that only moves the publisher on. */
  lemma MoveOn(k: Config, s: State, m: Ideal, pub: Publisher)
    requires Sim(k, s, m) && PublisherOk(k, s.(pub := pub)) && Turn(k, pub) == Turn(k, s.pub)
    requires pub != Idle && s.pub != Idle && pub.frame == s.pub.frame
    requires forall y :: 0 <= y < |s.slots| ==> Owed(k, pub, y) == Owed(k, s.pub, y)
    ensures Sim(k, s.(pub := pub), m)
  {
    hide Bags, Mirrors, Pointers, SlotOk, PublisherOk, Owed, Turn;
  }

  lemma ScanFree(k: Config, s: State)
    requires PublisherOk(k, s) && s.pub.Scan?
    ensures s.pub.i < |s.slots| && k.n > 0
    ensures s.slots[s.pub.i].refs != 0 ==> PublisherOk(k, s.(pub := Scan(s.pub.frame, s.pub.i + 1)))
    ensures s.slots[s.pub.i].refs == 0 ==> PublisherOk(k, s.(pub := Store(s.pub.frame, s.pub.i)))
  {
    var x :| s.pub.i <= x < |s.slots| && s.slots[x].refs == 0;
    if s.slots[s.pub.i].refs != 0 {
      var s' := s.(pub := Scan(s.pub.frame, s.pub.i + 1));
      assert s.pub.i + 1 <= x < |s'.slots| && s'.slots[x].refs == 0;
      assert SomeFree(s', s.pub.i + 1);
    }
  }

  lemma ScanMatches(k: Config, s: State, m: Ideal)
    requires Sim(k, s, m) && s.pub.Scan?
    ensures Enabled(s, Step) && Matches(k, m, Next(k, s, Step))
  {
    ScanFree(k, s);
    var x := Next(k, s, Step);
    hide Sim, PublisherOk;
    MoveOn(k, s, m, x.state.pub);
    NoEvent(k, m, x);
  }

  /** The publisher's steps on its own slot: it is the only one that changes, and nobody can
      read it while its content does. */
  lemma OwnSlot(k: Config, s: State, m: Ideal, x: nat, slot: Slot, pub: Publisher)
    requires Sim(k, s, m) && x < |s.slots| && SlotOk(slot)
    requires Content(slot) == Content(s.slots[x]) || Bags(s.consumers)[x] == 0
    requires slot.refs - Owed(k, pub, x) == s.slots[x].refs - Owed(k, s.pub, x)
    requires forall y :: 0 <= y < |s.slots| && y != x ==> Owed(k, pub, y) == Owed(k, s.pub, y)
    requires pub != Idle && s.pub != Idle && pub.frame == s.pub.frame && Turn(k, pub) == Turn(k, s.pub)
    requires PublisherOk(k, SetSlot(s, x, slot, pub))
    ensures Sim(k, SetSlot(s, x, slot, pub), m)
  {
    hide *;
    SimParts(k, s, m);
    SlotUpdated(k, s, m, x, slot, pub);
    CountedSlot(k, s, x, slot, pub);
    InStepSlot(k, s, m, x, slot, pub);
    MakeSim(k, SetSlot(s, x, slot, pub), m);
  }

  lemma CountedSlot(k: Config, s: State, x: nat, slot: Slot, pub: Publisher)
    requires Counted(k, s) && x < |s.slots|
    requires slot.refs - Owed(k, pub, x) == s.slots[x].refs - Owed(k, s.pub, x)
    requires forall y :: 0 <= y < |s.slots| && y != x ==> Owed(k, pub, y) == Owed(k, s.pub, y)
    ensures Counted(k, SetSlot(s, x, slot, pub))
  {
    hide Bags, Owed;
  }

  lemma InStepSlot(k: Config, s: State, m: Ideal, x: nat, slot: Slot, pub: Publisher)
    requires InStep(k, s, m) && x < |s.slots|
    requires pub != Idle && s.pub != Idle && pub.frame == s.pub.frame && Turn(k, pub) == Turn(k, s.pub)
    ensures InStep(k, SetSlot(s, x, slot, pub), m)
  {
    hide Turn;
  }

  /** While the publisher writes a slot, no queue and no consumer has it. */
  lemma OwnSlotUnread(k: Config, s: State, m: Ideal, x: nat)
    requires Sim(k, s, m)
    requires (s.pub.Store? || s.pub.Fill? || s.pub.SetRefs?) && s.pub.slot == x
    ensures x < |s.slots| && Bags(s.consumers)[x] == 0 && SlotOk(s.slots[x])
    ensures s.slots[x].refs == Owed(k, s.pub, x) && PublisherOk(k, s) && k.n > 0
  {
    assert x < |s.slots|;
    assert s.slots[x].refs == Bags(s.consumers)[x] + Owed(k, s.pub, x);
    hide Bags, Mirrors, Pointers, AllMirrored;
  }

  lemma StoreMatches(k: Config, s: State, m: Ideal)
    requires Sim(k, s, m) && s.pub.Store?
    ensures Enabled(s, Step) && Matches(k, m, Next(k, s, Step))
  {
    var y := s.pub.slot;
    hide Sim, Bags;
    OwnSlotUnread(k, s, m, y);
    var x := Next(k, s, Step);
    OwnSlot(k, s, m, y, s.slots[y].(refs := 1), Fill(s.pub.frame, y, 0));
    NoEvent(k, m, x);
  }

  lemma CopyByte(k: Config, s: State, x: nat, slot: Slot)
    requires PublisherOk(k, s) && s.pub.Fill? && s.pub.slot == x && s.pub.j < |s.pub.frame|
    requires x < |s.slots| && SlotOk(s.slots[x])
    requires s.pub.j < |s.slots[x].data| ==>
               slot == s.slots[x].(data := s.slots[x].data[s.pub.j := s.pub.frame[s.pub.j]])
    ensures s.pub.j < |s.slots[x].data| && SlotOk(slot)
    ensures PublisherOk(k, SetSlot(s, x, slot, Fill(s.pub.frame, x, s.pub.j + 1)))
  {
    var f, j := s.pub.frame, s.pub.j;
    assert f[..j + 1] == f[..j] + [f[j]];
  }

  lemma SetLength(k: Config, s: State, x: nat, slot: Slot)
    requires PublisherOk(k, s) && s.pub.Fill? && s.pub.slot == x && s.pub.j == |s.pub.frame|
    requires x < |s.slots| && SlotOk(s.slots[x]) && slot == s.slots[x].(len := |s.pub.frame|)
    ensures SlotOk(slot) && PublisherOk(k, SetSlot(s, x, slot, SetRefs(s.pub.frame, x)))
  {
    assert s.pub.frame[..|s.pub.frame|] == s.pub.frame;
  }

  lemma FillMatches(k: Config, s: State, m: Ideal)
    requires Sim(k, s, m) && s.pub.Fill?
    ensures Enabled(s, Step) && Matches(k, m, Next(k, s, Step))
  {
    var f, y, j := s.pub.frame, s.pub.slot, s.pub.j;
    hide Sim, Bags;
    OwnSlotUnread(k, s, m, y);
    assert j <= |f|;
    hide PublisherOk, Content;
    if j < |f| {
      assert j < |s.slots[y].data|;
      var slot := s.slots[y].(data := s.slots[y].data[j := f[j]]);
      CopyByte(k, s, y, slot);
      OwnSlot(k, s, m, y, slot, Fill(f, y, j + 1));
    } else {
      var slot := s.slots[y].(len := |f|);
      SetLength(k, s, y, slot);
      OwnSlot(k, s, m, y, slot, SetRefs(f, y));
    }
    NoEvent(k, m, Next(k, s, Step));
  }

  lemma SetCount(k: Config, s: State, x: nat, slot: Slot)
    requires PublisherOk(k, s) && s.pub.SetRefs? && s.pub.slot == x < |s.slots| && k.n > 0
    requires slot == s.slots[x].(refs := k.n) && SlotOk(s.slots[x])
    ensures PublisherOk(k, SetSlot(s, x, slot, Send(s.pub.frame, x, 0)))
    ensures SlotOk(slot) && Content(slot) == Content(s.slots[x])
  {}

  lemma SetRefsMatches(k: Config, s: State, m: Ideal)
    requires Sim(k, s, m) && s.pub.SetRefs?
    ensures Enabled(s, Step) && Matches(k, m, Next(k, s, Step))
  {
    var y := s.pub.slot;
    hide Sim, Bags, PublisherOk, Content, SlotOk;
    OwnSlotUnread(k, s, m, y);
    var slot := s.slots[y].(refs := k.n);
    SetCount(k, s, y, slot);
    OwnSlot(k, s, m, y, slot, Send(s.pub.frame, y, 0));
    NoEvent(k, m, Next(k, s, Step));
  }

  lemma MakeSim(k: Config, s: State, m: Ideal)
    requires Shape(k, s, m) && Counted(k, s) && PublisherOk(k, s) && InStep(k, s, m) && AllMirrored(k, s, m)
    ensures Sim(k, s, m)
  {
    hide Shape, Counted, PublisherOk, InStep, AllMirrored;
  }

  lemma CountedMoves(k: Config, s: State, c: nat, x: Consumer, pub: Publisher)
    requires Counted(k, s) && c < |s.consumers|
    requires forall y :: 0 <= y < |s.slots| ==>
               Bag(x)[y] + Owed(k, pub, y) == Bag(s.consumers[c])[y] + Owed(k, s.pub, y)
    ensures Counted(k, SetConsumer(s, c, x).(pub := pub))
  {
    hide Bag, Bags, Owed;
    forall y | 0 <= y < |s.slots|
      ensures s.slots[y].refs == Bags(s.consumers[c := x])[y] + Owed(k, pub, y)
    {
      BagsAt(s.consumers, c, x, y);
    }
  }

  lemma PublisherAlone(k: Config, s: State, cs: seq<Consumer>)
    requires PublisherOk(k, s)
    ensures PublisherOk(k, s.(consumers := cs))
  {
    if s.pub.Scan? {
      assert SomeFree(s.(consumers := cs), s.pub.i);
    }
    hide Content;
  }

  lemma ConsumerSim(k: Config, s: State, m: Ideal, c: nat, x: Consumer, box: Mailbox, pub: Publisher)
    requires Sim(k, s, m) && c < k.n
    requires Pointers(x, |s.slots|) && Mirrors(s.slots, k.depth, x, box)
    requires forall y :: 0 <= y < |s.slots| ==>
               Bag(x)[y] + Owed(k, pub, y) == Bag(s.consumers[c])[y] + Owed(k, s.pub, y)
    requires PublisherOk(k, s.(pub := pub))
    requires InStep(k, s.(pub := pub), m.(boxes := m.boxes[c := box]))
    ensures Sim(k, SetConsumer(s, c, x).(pub := pub), m.(boxes := m.boxes[c := box]))
  {
    var m' := m.(boxes := m.boxes[c := box]);
    hide *;
    SimParts(k, s, m);
    CountedMoves(k, s, c, x, pub);
    PublisherAlone(k, s.(pub := pub), s.consumers[c := x]);
    ConsumerUpdated(k, s, m, c, x, box);
    PubIrrelevant(k, s, m', c, x, pub);
    MakeSim(k, SetConsumer(s, c, x).(pub := pub), m');
  }

  lemma PubIrrelevant(k: Config, s: State, m: Ideal, c: nat, x: Consumer, pub: Publisher)
    requires c < |s.consumers| && Shape(k, SetConsumer(s, c, x), m) && AllMirrored(k, SetConsumer(s, c, x), m)
    requires InStep(k, s.(pub := pub), m)
    ensures var s' := SetConsumer(s, c, x).(pub := pub);
            && Shape(k, s', m) && AllMirrored(k, s', m) && InStep(k, s', m)
            && s' == s.(pub := pub).(consumers := s.consumers[c := x])
  {
    hide Mirrors, Pointers, SlotOk;
  }

  /** What the simulation says of one consumer. */
  lemma ConsumerView(k: Config, s: State, m: Ideal, c: nat)
    requires Sim(k, s, m) && c < k.n
    ensures |s.slots| == k.slots && |s.consumers| == k.n == |m.boxes|
    ensures Pointers(s.consumers[c], |s.slots|) && Mirrors(s.slots, k.depth, s.consumers[c], m.boxes[c])
    ensures |m.boxes[c].offers| == |m.published| - if c < Turn(k, s.pub) then 0 else 1
    ensures PublisherOk(k, s) && InStep(k, s, m)
  {
    hide Mirrors, Pointers, SlotOk;
  }

  lemma QueueGrows(slots: seq<Slot>, depth: nat, q: Consumer, box: Mailbox, x: nat)
    requires Pointers(q, |slots|) && Mirrors(slots, depth, q, box) && x < |slots| && |q.queue| < depth
    ensures var q', box' := q.(queue := q.queue + [x]), box.(offers := box.offers + [Offer(Content(slots[x]), true)]);
            Pointers(q', |slots|) && Mirrors(slots, depth, q', box')
  {
    OneMoreOffer(box.offers, Offer(Content(slots[x]), true));
    hide Content, Accepted, Missed;
  }

  lemma OneMoreInBag(q: Consumer, x: nat)
    ensures Bag(q.(queue := q.queue + [x])) == Bag(q) + multiset{x}
  {}

  lemma QueueFull(slots: seq<Slot>, depth: nat, q: Consumer, box: Mailbox, f: Frame)
    requires Pointers(q, |slots|) && Mirrors(slots, depth, q, box)
    ensures var q', box' := q.(drops := CountDrop(q.drops)), box.(offers := box.offers + [Offer(f, false)]);
            Pointers(q', |slots|) && Mirrors(slots, depth, q', box')
  {
    OneMoreOffer(box.offers, Offer(f, false));
    WordCounts(Missed(box.offers));
    var box' := box.(offers := box.offers + [Offer(f, false)]);
    assert Accepted(box'.offers) == Accepted(box.offers);
    assert Waiting(box') == Waiting(box) && (HasFrame(box) ==> (HasFrame(box') && InHand(box') == InHand(box)));
    hide CountDrop, Content, Accepted, Missed, Waiting, HasFrame, InHand;
  }

  lemma OneMoreOffered(k: Config, s: State, m: Ideal, c: nat, o: Offer, pub: Publisher)
    requires InStep(k, s, m) && s.pub.Send? && s.pub.c == c < k.n == |m.boxes|
    requires pub == AfterSend(k, s.pub.frame, s.pub.slot, c) || pub == Drop(s.pub.frame, s.pub.slot, c)
    ensures InStep(k, s.(pub := pub), m.(boxes := m.boxes[c := m.boxes[c].(offers := m.boxes[c].offers + [o])]))
  {}

  /** The frame being sent stays intact, whichever queue is next. */
  lemma SendingKeeps(k: Config, s: State, c: nat, refs: int)
    requires PublisherOk(k, s) && ((s.pub.Send? || s.pub.Drop?) && s.pub.c == c)
    ensures var f, x := s.pub.frame, s.pub.slot;
            && c < k.n && x < |s.slots| && Content(s.slots[x]) == f
            && PublisherOk(k, s.(pub := AfterSend(k, f, x, c)))
            && PublisherOk(k, s.(pub := Drop(f, x, c)))
            && PublisherOk(k, SetSlot(s, x, s.slots[x].(refs := refs), AfterSend(k, f, x, c)))
  {}

  lemma OfferAllowed(k: Config, s: State, m: Ideal)
    requires Sim(k, s, m) && s.pub.Send?
    ensures s.pub.c < k.n == |s.consumers| == |m.boxes| && s.pub.slot < |s.slots|
    ensures Allowed(k.depth, m, Offered(s.pub.c, s.pub.frame, |s.consumers[s.pub.c].queue| < k.depth))
  {
    var c := s.pub.c;
    ConsumerView(k, s, m, c);
    assert |s.consumers[c].queue| == Waiting(m.boxes[c]);
    hide Mirrors, Pointers, Content;
  }

  lemma OneMoreCounted(k: Config, s: State, c: nat, q: Consumer, x: nat)
    requires s.pub.Send? && s.pub.c == c < k.n && s.pub.slot == x && c < |s.consumers|
    requires Bag(q) == Bag(s.consumers[c]) + multiset{x}
    ensures forall y :: 0 <= y < |s.slots| ==>
              Bag(q)[y] + Owed(k, AfterSend(k, s.pub.frame, x, c), y) == Bag(s.consumers[c])[y] + Owed(k, s.pub, y)
  {
    hide Bag;
  }

  lemma SendTaken(k: Config, s: State, m: Ideal, c: nat)
    requires Sim(k, s, m) && s.pub.Send? && s.pub.c == c < k.n == |s.consumers| == |m.boxes|
    requires s.pub.slot < |s.slots| && |s.consumers[c].queue| < k.depth
    ensures var q := s.consumers[c];
            Sim(k,
                SetConsumer(s, c, q.(queue := q.queue + [s.pub.slot]))
                  .(pub := AfterSend(k, s.pub.frame, s.pub.slot, c)),
                m.(boxes := m.boxes[c := m.boxes[c].(offers := m.boxes[c].offers + [Offer(s.pub.frame, true)])]))
  {
    var f, x := s.pub.frame, s.pub.slot;
    hide *;
    ConsumerView(k, s, m, c);
    SendingKeeps(k, s, c, 0);
    var q, pub := s.consumers[c], AfterSend(k, f, x, c);
    OneMoreOffered(k, s, m, c, Offer(f, true), pub);
    QueueGrows(s.slots, k.depth, q, m.boxes[c], x);
    var q' := q.(queue := q.queue + [x]);
    OneMoreInBag(q, x);
    OneMoreCounted(k, s, c, q', x);
    ConsumerSim(k, s, m, c, q', m.boxes[c].(offers := m.boxes[c].offers + [Offer(f, true)]), pub);
  }

  lemma SendRefused(k: Config, s: State, m: Ideal, c: nat)
    requires Sim(k, s, m) && s.pub.Send? && s.pub.c == c < k.n == |s.consumers| == |m.boxes|
    ensures var q := s.consumers[c];
            Sim(k, SetConsumer(s, c, q.(drops := CountDrop(q.drops))).(pub := Drop(s.pub.frame, s.pub.slot, c)),
                m.(boxes := m.boxes[c := m.boxes[c].(offers := m.boxes[c].offers + [Offer(s.pub.frame, false)])]))
  {
    var f, x := s.pub.frame, s.pub.slot;
    hide Sim, PublisherOk, Content, Mirrors, Pointers, InStep;
    ConsumerView(k, s, m, c);
    SendingKeeps(k, s, c, 0);
    var q, pub := s.consumers[c], Drop(f, x, c);
    OneMoreOffered(k, s, m, c, Offer(f, false), pub);
    QueueFull(s.slots, k.depth, q, m.boxes[c], f);
    var q' := q.(drops := CountDrop(q.drops));
    assert Bag(q') == Bag(q);
    hide Bag, CountDrop;
    ConsumerSim(k, s, m, c, q', m.boxes[c].(offers := m.boxes[c].offers + [Offer(f, false)]), pub);
  }

  lemma OfferEvent(k: Config, m: Ideal, x: Outcome, e: Event)
    requires x.events == [e] && Allowed(k.depth, m, e) && e.Offered? && e.c < |m.boxes|
    requires Sim(k, x.state,
                 m.(boxes := m.boxes[e.c := m.boxes[e.c].(offers := m.boxes[e.c].offers + [Offer(e.frame, e.taken)])]))
    ensures Matches(k, m, x)
  {
    hide Sim, Allowed, Matches;
    OneEvent(k, m, x, e);
  }

  lemma SendStep(k: Config, s: State, c: nat, x: nat)
    requires s.pub.Send? && c == s.pub.c < |s.consumers| && x == s.pub.slot < |s.slots|
    ensures Enabled(s, Step)
    ensures var q := s.consumers[c];
            Next(k, s, Step) ==
            if |q.queue| < k.depth then
              Outcome(SetConsumer(s, c, q.(queue := q.queue + [x])).(pub := AfterSend(k, s.pub.frame, x, c)),
                      [Offered(c, s.pub.frame, true)])
            else
              Outcome(SetConsumer(s, c, q.(drops := CountDrop(q.drops))).(pub := Drop(s.pub.frame, x, c)),
                      [Offered(c, s.pub.frame, false)])
  {}

  lemma SendMatches(k: Config, s: State, m: Ideal)
    requires Sim(k, s, m) && s.pub.Send?
    ensures Enabled(s, Step) && Matches(k, m, Next(k, s, Step))
  {
    var c := s.pub.c;
    hide *;
    OfferAllowed(k, s, m);
    SendStep(k, s, c, s.pub.slot);
    if |s.consumers[c].queue| < k.depth {
      SendTaken(k, s, m, c);
      OfferEvent(k, m, Next(k, s, Step), Offered(c, s.pub.frame, true));
    } else {
      SendRefused(k, s, m, c);
      OfferEvent(k, m, Next(k, s, Step), Offered(c, s.pub.frame, false));
    }
  }

  lemma DropCounted(k: Config, s: State, x: nat, c: nat)
    requires Counted(k, s) && s.pub.Drop? && x == s.pub.slot < |s.slots| && c == s.pub.c < k.n
    ensures s.slots[x].refs > 0
    ensures Counted(k, SetSlot(s, x, s.slots[x].(refs := s.slots[x].refs - 1), AfterSend(k, s.pub.frame, x, c)))
  {
    hide Bags;
  }

  lemma DropInStep(k: Config, s: State, m: Ideal, x: nat, slot: Slot, c: nat)
    requires InStep(k, s, m) && s.pub.Drop? && x < |s.slots| && c == s.pub.c < k.n == |m.boxes|
    ensures InStep(k, SetSlot(s, x, slot, AfterSend(k, s.pub.frame, x, c)), m)
  {}

  lemma DropStep(k: Config, s: State, x: nat, c: nat)
    requires s.pub.Drop? && x == s.pub.slot < |s.slots| && c == s.pub.c < |s.consumers| && s.slots[x].refs > 0
    ensures Enabled(s, Step)
    ensures Next(k, s, Step)
         == Outcome(SetSlot(s, x, s.slots[x].(refs := s.slots[x].refs - 1), AfterSend(k, s.pub.frame, x, c)), [])
  {}

  lemma SimParts(k: Config, s: State, m: Ideal)
    requires Sim(k, s, m)
    ensures Shape(k, s, m) && Counted(k, s) && PublisherOk(k, s) && InStep(k, s, m) && AllMirrored(k, s, m)
    ensures |s.slots| == k.slots && |s.consumers| == k.n == |m.boxes|
    ensures forall x :: 0 <= x < |s.slots| ==> SlotOk(s.slots[x])
  {
    hide Counted, PublisherOk, InStep, AllMirrored;
  }

  lemma FewerRefs(slot: Slot, refs: int)
    ensures Content(slot.(refs := refs)) == Content(slot) && (SlotOk(slot) ==> SlotOk(slot.(refs := refs)))
  {}

  lemma DropMatches(k: Config, s: State, m: Ideal)
    requires Sim(k, s, m) && s.pub.Drop?
    ensures Enabled(s, Step) && Matches(k, m, Next(k, s, Step))
  {
    var f, x, c := s.pub.frame, s.pub.slot, s.pub.c;
    hide *;
    SimParts(k, s, m);
    SendingKeeps(k, s, c, 0);
    var slot, pub := s.slots[x].(refs := s.slots[x].refs - 1), AfterSend(k, f, x, c);
    SendingKeeps(k, s, c, slot.refs);
    FewerRefs(s.slots[x], slot.refs);
    DropCounted(k, s, x, c);
    DropInStep(k, s, m, x, slot, c);
    SlotUpdated(k, s, m, x, slot, pub);
    MakeSim(k, SetSlot(s, x, slot, pub), m);
    DropStep(k, s, x, c);
    NoEvent(k, m, Next(k, s, Step));
  }

  lemma QueueHead(q: Consumer)
    requires q.queue != [] && q.held.None?
    ensures Bag(q.(queue := q.queue[1..], held := Some(q.queue[0]))) == Bag(q)
  {
    assert q.queue == [q.queue[0]] + q.queue[1..];
  }

  lemma HeadReceived(slots: seq<Slot>, depth: nat, q: Consumer, box: Mailbox)
    requires Pointers(q, |slots|) && Mirrors(slots, depth, q, box) && q.queue != []
    ensures var q', box' := q.(queue := q.queue[1..], held := Some(q.queue[0])),
                            box.(received := box.received + 1, holding := true);
            Pointers(q', |slots|) && Mirrors(slots, depth, q', box')
    ensures Waiting(box) > 0
  {
    hide Content, Accepted, Missed;
  }

  lemma SameOffers(k: Config, s: State, m: Ideal, c: nat, box: Mailbox)
    requires InStep(k, s, m) && c < |m.boxes| && box.offers == m.boxes[c].offers
    ensures InStep(k, s, m.(boxes := m.boxes[c := box])) && s.(pub := s.pub) == s
  {}

  lemma ReceiveStep(k: Config, s: State, m: Ideal, c: nat, q': Consumer, box: Mailbox)
    requires Enabled(s, Receive(c)) && c < |m.boxes|
    requires q' == s.consumers[c].(queue := s.consumers[c].queue[1..], held := Some(s.consumers[c].queue[0]))
    requires box == m.boxes[c].(received := m.boxes[c].received + 1, holding := true)
    ensures Next(k, s, Receive(c)) == Outcome(SetConsumer(s, c, q').(pub := s.pub), [Received(c)])
    ensures Apply(m, Received(c)) == m.(boxes := m.boxes[c := box])
    ensures !m.boxes[c].holding && Waiting(m.boxes[c]) > 0 ==> Allowed(k.depth, m, Received(c))
    ensures s.consumers[c].held.None? && s.(pub := s.pub) == s
  {}

  lemma BagKept(k: Config, s: State, c: nat, q: Consumer)
    requires c < |s.consumers| && Bag(q) == Bag(s.consumers[c])
    ensures forall y :: 0 <= y < |s.slots| ==>
              Bag(q)[y] + Owed(k, s.pub, y) == Bag(s.consumers[c])[y] + Owed(k, s.pub, y)
  {}

  lemma ReceiveSim(k: Config, s: State, m: Ideal, c: nat, q': Consumer, box: Mailbox)
    requires Sim(k, s, m) && c < k.n == |s.consumers| == |m.boxes|
    requires s.consumers[c].queue != [] && s.consumers[c].held.None?
    requires q' == s.consumers[c].(queue := s.consumers[c].queue[1..], held := Some(s.consumers[c].queue[0]))
    requires box == m.boxes[c].(received := m.boxes[c].received + 1, holding := true)
    ensures Sim(k, SetConsumer(s, c, q').(pub := s.pub), m.(boxes := m.boxes[c := box]))
    ensures Waiting(m.boxes[c]) > 0 && !m.boxes[c].holding
  {
    hide *;
    ConsumerView(k, s, m, c);
    HoldsAgree(s.slots, k.depth, s.consumers[c], m.boxes[c]);
    HeadReceived(s.slots, k.depth, s.consumers[c], m.boxes[c]);
    QueueHead(s.consumers[c]);
    BagKept(k, s, c, q');
    SameOffers(k, s, m, c, box);
    ConsumerSim(k, s, m, c, q', box, s.pub);
  }

  lemma CanReceive(s: State, c: nat)
    requires Enabled(s, Receive(c))
    ensures c < |s.consumers| && s.consumers[c].queue != [] && s.consumers[c].held.None?
  {}

  lemma ReceiveMatches(k: Config, s: State, m: Ideal, c: nat)
    requires Sim(k, s, m) && Enabled(s, Receive(c))
    ensures Matches(k, m, Next(k, s, Receive(c)))
  {
    hide *;
    CanReceive(s, c);
    SimParts(k, s, m);
    var q := s.consumers[c];
    var q', box := q.(queue := q.queue[1..], held := Some(q.queue[0])),
                   m.boxes[c].(received := m.boxes[c].received + 1, holding := true);
    ReceiveSim(k, s, m, c, q', box);
    ReceiveStep(k, s, m, c, q', box);
    OneEvent(k, m, Next(k, s, Receive(c)), Received(c));
  }

  lemma HoldsAgree(slots: seq<Slot>, depth: nat, q: Consumer, box: Mailbox)
    requires Pointers(q, |slots|) && Mirrors(slots, depth, q, box)
    ensures q.held.Some? <==> box.holding
    ensures q.held.Some? ==> HasFrame(box) && Content(slots[q.held.value]) == InHand(box)
  {}

  lemma ReadStep(k: Config, s: State, m: Ideal, c: nat, a: Action)
    requires Enabled(s, a) && (a == ReadLength(c) || (a.ReadByte? && a.c == c)) && c < |m.boxes|
    requires SlotOk(s.slots[s.consumers[c].held.value]) && HasFrame(m.boxes[c])
    requires InHand(m.boxes[c]) == Content(s.slots[s.consumers[c].held.value])
    ensures var x := Next(k, s, a);
            |x.events| == 1 && x.state == s && Allowed(k.depth, m, x.events[0]) && Apply(m, x.events[0]) == m
  {}

  lemma ReadMatches(k: Config, s: State, m: Ideal, c: nat, a: Action)
    requires Sim(k, s, m) && Enabled(s, a) && (a == ReadLength(c) || (a.ReadByte? && a.c == c))
    ensures Matches(k, m, Next(k, s, a))
  {
    assert Holds(s, c) && c < |s.consumers| && s.consumers[c].held.Some? && s.consumers[c].held.value < |s.slots|;
    hide *;
    SimParts(k, s, m);
    ConsumerView(k, s, m, c);
    HoldsAgree(s.slots, k.depth, s.consumers[c], m.boxes[c]);
    ReadStep(k, s, m, c, a);
    var x := Next(k, s, a);
    assert x.events == [x.events[0]];
    OneEvent(k, m, x, x.events[0]);
  }

  lemma HandEmptied(slots: seq<Slot>, depth: nat, q: Consumer, box: Mailbox, x: nat)
    requires Pointers(q, |slots|) && Mirrors(slots, depth, q, box) && q.held == Some(x)
    ensures Pointers(q.(held := None), |slots|) && Mirrors(slots, depth, q.(held := None), box.(holding := false))
  {
    hide Content, Accepted, Missed;
  }

  lemma OneLessInBag(q: Consumer, x: nat, y: nat)
    requires q.held == Some(x)
    ensures Bag(q)[y] == Bag(q.(held := None))[y] + if x == y then 1 else 0
  {}

  lemma OneLessInBags(cs: seq<Consumer>, c: nat, x: nat, y: nat)
    requires c < |cs| && cs[c].held == Some(x)
    ensures Bags(cs)[y] == Bags(cs[c := cs[c].(held := None)])[y] + if x == y then 1 else 0
  {
    hide *;
    BagsAt(cs, c, cs[c].(held := None), y);
    OneLessInBag(cs[c], x, y);
  }

  lemma ReleaseCounted(k: Config, s: State, c: nat, x: nat)
    requires Counted(k, s) && c < |s.consumers| && x < |s.slots| && s.consumers[c].held == Some(x)
    requires s.pub.Send? || s.pub.Drop? ==> s.pub.c < k.n
    ensures s.slots[x].refs > 0
    ensures Counted(k, SetConsumer(SetSlot(s, x, s.slots[x].(refs := s.slots[x].refs - 1), s.pub), c,
                                   s.consumers[c].(held := None)))
  {
    InBags(s.consumers, c, x);
    assert Owed(k, s.pub, x) >= 0;
    hide Bag, Bags, Owed;
    forall y | 0 <= y < |s.slots|
      ensures s.slots[y].refs - (if x == y then 1 else 0)
           == Bags(s.consumers[c := s.consumers[c].(held := None)])[y] + Owed(k, s.pub, y)
    {
      OneLessInBags(s.consumers, c, x, y);
    }
  }

  /** Giving back a count can only help the scan and leaves the publisher's own slot alone. */
  lemma ReleasePublisher(k: Config, s: State, x: nat, slot: Slot, cs: seq<Consumer>)
    requires PublisherOk(k, s) && x < |s.slots| && slot == s.slots[x].(refs := s.slots[x].refs - 1)
    requires s.slots[x].refs > 0
    requires (s.pub.Fill? || s.pub.SetRefs?) ==> s.pub.slot != x
    ensures PublisherOk(k, SetSlot(s, x, slot, s.pub).(consumers := cs))
  {
    var s' := SetSlot(s, x, slot, s.pub).(consumers := cs);
    if s.pub.Scan? {
      var y :| s.pub.i <= y < |s.slots| && s.slots[y].refs == 0;
      assert s'.slots[y].refs == 0;
      assert SomeFree(s', s.pub.i);
    }
    FewerRefs(s.slots[x], slot.refs);
    hide Content;
  }

  lemma ReleaseStep(k: Config, s: State, m: Ideal, c: nat, x: nat, q': Consumer, box: Mailbox)
    requires Enabled(s, Release(c)) && c < |m.boxes| && s.consumers[c].held == Some(x) && x < |s.slots|
    requires s.slots[x].refs > 0 && HasFrame(m.boxes[c])
    requires q' == s.consumers[c].(held := None) && box == m.boxes[c].(holding := false)
    ensures Next(k, s, Release(c))
         == Outcome(SetConsumer(SetSlot(s, x, s.slots[x].(refs := s.slots[x].refs - 1), s.pub), c, q'), [Released(c)])
    ensures Apply(m, Released(c)) == m.(boxes := m.boxes[c := box]) && Allowed(k.depth, m, Released(c))
  {}

  lemma SendTurnInRange(k: Config, s: State)
    requires PublisherOk(k, s)
    ensures s.pub.Send? || s.pub.Drop? ==> s.pub.c < k.n
  {}

  lemma InStepAfterRelease(k: Config, s: State, m: Ideal, slots: seq<Slot>, cs: seq<Consumer>, c: nat, box: Mailbox)
    requires InStep(k, s, m) && c < |m.boxes| && box.offers == m.boxes[c].offers
    ensures InStep(k, State(slots, cs, s.pub), m.(boxes := m.boxes[c := box]))
  {}

  lemma ReleaseMatches(k: Config, s: State, m: Ideal, c: nat)
    requires Sim(k, s, m) && Enabled(s, Release(c))
    ensures Matches(k, m, Next(k, s, Release(c)))
  {
    assert c < |s.consumers| && s.consumers[c].held.Some? && s.consumers[c].held.value < |s.slots|;
    hide *;
    SimParts(k, s, m);
    var q := s.consumers[c];
    var x := q.held.value;
    var slot := s.slots[x].(refs := s.slots[x].refs - 1);
    var q', box := q.(held := None), m.boxes[c].(holding := false);
    var s1 := State(s.slots[x := slot], s.consumers, s.pub);
    var s2, m2 := State(s1.slots, s.consumers[c := q'], s.pub), m.(boxes := m.boxes[c := box]);
    SetBoth(s, x, slot, c, q');
    SendTurnInRange(k, s);
    ReleaseCounted(k, s, c, x);
    FewerRefs(s.slots[x], slot.refs);
    InBags(s.consumers, c, x);
    if s.pub.Fill? || s.pub.SetRefs? { OwnSlotUnread(k, s, m, s.pub.slot); }
    ReleasePublisher(k, s, x, slot, s2.consumers);
    SlotUpdated(k, s, m, x, slot, s.pub);
    ConsumerView(k, s, m, c);
    HoldsAgree(s.slots, k.depth, q, m.boxes[c]);
    MirroredIn(k, s1, m, c);
    HandEmptied(s1.slots, k.depth, q, m.boxes[c], x);
    ConsumerUpdated(k, s1, m, c, q', box);
    SetBoth(s1, x, slot, c, q');
    InStepAfterRelease(k, s, m, s1.slots, s2.consumers, c, box);
    MakeSim(k, s2, m2);
    ReleaseStep(k, s, m, c, x, q', box);
    OneEvent(k, m, Next(k, s, Release(c)), Released(c));
  }

  lemma SetBoth(s: State, x: nat, slot: Slot, c: nat, q: Consumer)
    requires x < |s.slots| && c < |s.consumers|
    ensures SetSlot(s, x, slot, s.pub) == State(s.slots[x := slot], s.consumers, s.pub)
    ensures SetSlot(s, x, slot, s.pub).(consumers := s.consumers[c := q])
         == State(s.slots[x := slot], s.consumers[c := q], s.pub)
    ensures SetConsumer(SetSlot(s, x, slot, s.pub), c, q) == State(s.slots[x := slot], s.consumers[c := q], s.pub)
    ensures SetConsumer(s, c, q) == State(s.slots, s.consumers[c := q], s.pub)
  {}

  lemma MirroredIn(k: Config, s: State, m: Ideal, c: nat)
    requires Shape(k, s, m) && AllMirrored(k, s, m) && c < k.n
    ensures |s.consumers| == k.n == |m.boxes|
    ensures Pointers(s.consumers[c], |s.slots|) && Mirrors(s.slots, k.depth, s.consumers[c], m.boxes[c])
  {
    hide Mirrors, Pointers, SlotOk;
  }

  // ---- Every run ----

  lemma {:induction false} NoBags(cs: seq<Consumer>)
    requires forall c :: 0 <= c < |cs| ==> cs[c] == Consumer([], None, 0)
    ensures Bags(cs) == multiset{}
  {
    if cs != [] {
      NoBags(cs[..|cs| - 1]);
    }
  }

  lemma InitSim(k: Config)
    ensures Sim(k, Init(k), Nothing(k.n))
  {
    var s, m := Init(k), Nothing(k.n);
    NoBags(s.consumers);
    assert Shape(k, s, m);
    hide Bags;
    assert Counted(k, s) && PublisherOk(k, s) && InStep(k, s, m) && AllMirrored(k, s, m);
  }

  lemma StepMatches(k: Config, s: State, m: Ideal, a: Action)
    requires EnoughSlots(k) && Sim(k, s, m) && Enabled(s, a)
    ensures Matches(k, m, Next(k, s, a))
  {
    hide Sim, Matches, Next, EnoughSlots;
    match a
    case Publish(frame) => PublishMatches(k, s, m, frame);
    case Step =>
      match s.pub {
        case Scan(_, _) => ScanMatches(k, s, m);
        case Store(_, _) => StoreMatches(k, s, m);
        case Fill(_, _, _) => FillMatches(k, s, m);
        case SetRefs(_, _) => SetRefsMatches(k, s, m);
        case Send(_, _, _) => SendMatches(k, s, m);
        case Drop(_, _, _) => DropMatches(k, s, m);
      }
    case Receive(c) => ReceiveMatches(k, s, m, c);
    case ReadByte(c, i) => ReadMatches(k, s, m, c, a);
    case ReadLength(c) => ReadMatches(k, s, m, c, a);
    case Release(c) => ReleaseMatches(k, s, m, c);
  }

  lemma {:induction false} RunMatches(k: Config, s: State, m: Ideal, actions: seq<Action>)
    requires EnoughSlots(k) && Sim(k, s, m) && Runs(k, s, actions)
    ensures Matches(k, m, Run(k, s, actions))
    decreases |actions|
  {
    if actions == [] {
      hide Sim;
    } else {
      var x := Next(k, s, actions[0]);
      var y := Run(k, x.state, actions[1..]);
      assert Run(k, s, actions) == Outcome(y.state, x.events + y.events);
      StepMatches(k, s, m, actions[0]);
      RunMatches(k, x.state, ApplyAll(m, x.events), actions[1..]);
      hide Sim, Runs, Run, Next, EnoughSlots;
      ReplaysConcat(k.depth, m, x.events, y.events);
    }
  }

  /** The shared pool refines queues of values: whatever the interleaving, everything seen
      outside is a run of the ideal, in which no scan fails, no free slot is released and
      every byte read belongs to the frame the consumer took. In the state reached, each
      reference count is exact and each consumer's queue and hand hold its accepted frames. */
  lemma FanoutRefinesValueQueues(k: Config, actions: seq<Action>)
    requires EnoughSlots(k) && Runs(k, Init(k), actions)
    ensures var x := Run(k, Init(k), actions);
            Replays(k.depth, Nothing(k.n), x.events) && Sim(k, x.state, ApplyAll(Nothing(k.n), x.events))
  {
    InitSim(k);
    RunMatches(k, Init(k), Nothing(k.n), actions);
  }

  lemma {:induction false} NoFailures(depth: nat, m: Ideal, t: seq<Event>)
    requires Replays(depth, m, t)
    ensures PoolExhausted !in t && ReleasedFreeSlot !in t
    decreases |t|
  {
    if t != [] {
      NoFailures(depth, Apply(m, t[0]), t[1..]);
    }
  }

  /** No run exhausts the pool or releases a free slot. */
  lemma PoolNeverFails(k: Config, actions: seq<Action>)
    requires EnoughSlots(k) && Runs(k, Init(k), actions)
    ensures PoolExhausted !in Run(k, Init(k), actions).events
    ensures ReleasedFreeSlot !in Run(k, Init(k), actions).events
  {
    FanoutRefinesValueQueues(k, actions);
    NoFailures(k.depth, Nothing(k.n), Run(k, Init(k), actions).events);
  }

  /** A step that changes the bytes or the length of a slot changes one that is in no queue
      and in no consumer's hands, before and after. */
  lemma OnlyUnreadSlotsWritten(k: Config, s: State, m: Ideal, a: Action, x: nat, c: nat)
    requires Sim(k, s, m) && Enabled(s, a) && x < k.slots && c < k.n
    ensures var s' := Next(k, s, a).state;
            && |s.consumers| == k.n && |s'.slots| == k.slots == |s.slots|
            && (s'.slots[x].data != s.slots[x].data || s'.slots[x].len != s.slots[x].len ==>
                  (s'.consumers == s.consumers && x !in s.consumers[c].queue && s.consumers[c].held != Some(x)))
  {
    SameSlots(k, s, a);
    var s' := Next(k, s, a).state;
    hide *;
    SimParts(k, s, m);
    if s'.slots[x].data != s.slots[x].data || s'.slots[x].len != s.slots[x].len {
      WritesOwnSlot(k, s, a, x);
      OwnSlotUnread(k, s, m, x);
      if x in s.consumers[c].queue || s.consumers[c].held == Some(x) {
        InBags(s.consumers, c, x);
      }
    }
  }

  lemma SameSlots(k: Config, s: State, a: Action)
    requires Enabled(s, a)
    ensures |Next(k, s, a).state.slots| == |s.slots|
  {}

  lemma WritesOwnSlot(k: Config, s: State, a: Action, x: nat)
    requires Enabled(s, a) && x < |s.slots|
    requires var s' := Next(k, s, a).state;
             x < |s'.slots| && (s'.slots[x].data != s.slots[x].data || s'.slots[x].len != s.slots[x].len)
    ensures a.Step? && s.pub.Fill? && s.pub.slot == x && Next(k, s, a).state.consumers == s.consumers
  {}

  /** What a consumer has: it was offered the published frames in order, all of them when the
      publisher rests; its drop counter is the number of refusals; its queue points at the
      accepted frames it has not received, and its hand at the last one it has. */
  ghost predicate Account(k: Config, s: State, published: seq<Frame>, q: Consumer, box: Mailbox) {
    var accepted := Accepted(box.offers);
    && FramesOffered(box.offers) <= published
    && (s.pub == Idle ==> FramesOffered(box.offers) == published)
    && Subsequence(accepted, FramesOffered(box.offers))
    && q.drops == Missed(box.offers) % UINT32
    && Pointers(q, |s.slots|)
    && box.received + |q.queue| == |accepted| <= box.received + k.depth
    && (forall i :: 0 <= i < |q.queue| ==> Content(s.slots[q.queue[i]]) == accepted[box.received + i])
    && (q.held.Some? ==> (0 < box.received && Content(s.slots[q.held.value]) == accepted[box.received - 1]))
  }

  lemma MakeAccount(k: Config, s: State, published: seq<Frame>, q: Consumer, box: Mailbox)
    requires Pointers(q, |s.slots|) && Mirrors(s.slots, k.depth, q, box)
    requires BoxInOrder(k.depth, published, box) && (s.pub == Idle ==> |box.offers| == |published|)
    ensures Account(k, s, published, q, box)
  {
    AcceptedAmongOffers(box.offers);
    hide Content, Accepted, Missed, Subsequence;
  }

  lemma OfferedWhenIdle(k: Config, s: State, m: Ideal, c: nat)
    requires InStep(k, s, m) && c < |m.boxes| == k.n
    ensures s.pub == Idle ==> |m.boxes[c].offers| == |m.published|
  {}

  lemma NothingInOrder(depth: nat, n: nat)
    ensures InOrder(depth, Nothing(n))
  {}

  /** Every consumer's account is right after any run. */
  lemma EveryAccount(k: Config, actions: seq<Action>, c: nat)
    requires EnoughSlots(k) && Runs(k, Init(k), actions) && c < k.n
    ensures var x := Run(k, Init(k), actions);
            var m := ApplyAll(Nothing(k.n), x.events);
            && |x.state.consumers| == |m.boxes| == k.n
            && Account(k, x.state, m.published, x.state.consumers[c], m.boxes[c])
  {
    hide *;
    FanoutRefinesValueQueues(k, actions);
    var x := Run(k, Init(k), actions);
    var m := ApplyAll(Nothing(k.n), x.events);
    NothingInOrder(k.depth, k.n);
    RunKeepsOrder(k.depth, Nothing(k.n), x.events);
    SimParts(k, x.state, m);
    ConsumerView(k, x.state, m, c);
    BoxOf(k.depth, m, c);
    OfferedWhenIdle(k, x.state, m, c);
    MakeAccount(k, x.state, m.published, x.state.consumers[c], m.boxes[c]);
  }

  lemma BoxOf(depth: nat, m: Ideal, c: nat)
    requires InOrder(depth, m) && c < |m.boxes|
    ensures BoxInOrder(depth, m.published, m.boxes[c])
  {
    hide BoxInOrder;
  }

  lemma {:induction false} EmptyBags(cs: seq<Consumer>)
    requires forall c :: 0 <= c < |cs| ==> cs[c].queue == [] && cs[c].held.None?
    ensures Bags(cs) == multiset{}
  {
    if cs != [] {
      EmptyBags(cs[..|cs| - 1]);
    }
  }

  /** Nothing leaks: once the publisher rests and the consumers are done, every slot is free. */
  lemma AllSlotsReturn(k: Config, s: State, m: Ideal)
    requires Sim(k, s, m) && s.pub == Idle
    requires forall c :: 0 <= c < |s.consumers| ==> s.consumers[c].queue == [] && s.consumers[c].held.None?
    ensures forall x :: 0 <= x < |s.slots| ==> s.slots[x].refs == 0
  {
    SimParts(k, s, m);
    EmptyBags(s.consumers);
    hide Bags, Sim, Shape, InStep, AllMirrored;
  }
}

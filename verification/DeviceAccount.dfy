/** What must arrive: the frames found are exactly those a splitter finds between two UART
    overflows, every consumer is offered all of them, and where nothing is full and nothing
    fails every frame on the line reaches the wire. */
module DeviceAccount {
  import opened Crc24
  import opened Sequences
  import opened SplitterSpec
  import opened SplitterTheorems
  import opened Sockets
  import opened Device
  import V = ValueQueues
  import F = Fanout
  import R = RoverSpec
  import U = UplinkSpec
  import Y = RoverDelivery

  // ---- What is found ----

  /** The bytes read, cut where the UART driver lost some. */
  function Grow(stretches: seq<seq<byte>>, a: Action): (s: seq<seq<byte>>)
    requires stretches != []
    ensures s != []
  {
    var n := |stretches| - 1;
    match a
    case Read(b) => stretches[..n] + [stretches[n] + [b]]
    case Overflow => stretches + [[]]
    case _ => stretches
  }

  function GrowAll(stretches: seq<seq<byte>>, actions: seq<Action>): (s: seq<seq<byte>>)
    requires stretches != []
    ensures s != []
    decreases |actions|
  {
    if actions == [] then stretches else GrowAll(Grow(stretches, actions[0]), actions[1..])
  }

  function Stretches(actions: seq<Action>): (s: seq<seq<byte>>)
    ensures s != []
  {
    GrowAll([[]], actions)
  }

  /** What a fresh splitter finds in each stretch. */
  function FoundIn(stretches: seq<seq<byte>>): seq<Frame> {
    if stretches == [] then []
    else
      var n := |stretches| - 1;
      FoundIn(stretches[..n]) + PublishedFrames(FeedAll([], stretches[n]).trace)
  }

  ghost predicate HistoryOk(line: seq<byte>, pending: seq<byte>, found: seq<Frame>, stretches: seq<seq<byte>>) {
    && stretches != [] && line == Flatten(stretches) && found == FoundIn(stretches)
    && pending == FeedAll([], stretches[|stretches| - 1]).pending
  }

  /** One more byte for the splitter. */
  lemma OneByteOn(data: seq<byte>, b: byte)
    ensures var x := FeedAll([], data); var y := Feed(x.pending, b); var z := FeedAll([], data + [b]);
            z.pending == y.pending && PublishedFrames(z.trace) == PublishedFrames(x.trace) + PublishedFrames(y.trace)
  {
    var x := FeedAll([], data);
    ChunksCompose([], data, [b]);
    FeedOne(x.pending, b);
    PublishedConcat(x.trace, Feed(x.pending, b).trace);
    hide Feed, FeedAll, PublishedFrames;
  }

  lemma LastStretch(front: seq<seq<byte>>, last: seq<byte>)
    ensures FoundIn(front + [last]) == FoundIn(front) + PublishedFrames(FeedAll([], last).trace)
    ensures Flatten(front + [last]) == Flatten(front) + last
  {
    assert (front + [last])[..|front|] == front;
    FlattenSnoc(front, last);
    hide PublishedFrames, FeedAll;
  }

  lemma ReadOne(front: seq<seq<byte>>, last: seq<byte>, b: byte)
    ensures Live(FeedAll([], last).pending)
    ensures var y := Feed(FeedAll([], last).pending, b); var s := front + [last + [b]];
            && Flatten(front + [last]) + [b] == Flatten(s)
            && FoundIn(front + [last]) + PublishedFrames(y.trace) == FoundIn(s)
            && y.pending == FeedAll([], last + [b]).pending
  {
    hide *;
    LastStretch(front, last);
    LastStretch(front, last + [b]);
    OneByteOn(last, b);
    assert Flatten(front) + last + [b] == Flatten(front) + (last + [b]);
  }

  lemma ReadGrows(line: seq<byte>, pending: seq<byte>, found: seq<Frame>, stretches: seq<seq<byte>>, b: byte)
    requires HistoryOk(line, pending, found, stretches)
    ensures var y := Feed(pending, b);
            HistoryOk(line + [b], y.pending, found + PublishedFrames(y.trace), Grow(stretches, Read(b)))
  {
    hide Feed, FeedAll, PublishedFrames, Flatten, FoundIn;
    var front, last := stretches[..|stretches| - 1], stretches[|stretches| - 1];
    assert stretches == front + [last];
    ReadOne(front, last, b);
  }

  lemma OverflowGrows(line: seq<byte>, pending: seq<byte>, found: seq<Frame>, stretches: seq<seq<byte>>)
    requires HistoryOk(line, pending, found, stretches)
    ensures HistoryOk(line, [], found, Grow(stretches, Overflow))
  {
    LastStretch(stretches, []);
    assert PublishedFrames(FeedAll([], []).trace) == [] && FeedAll([], []).pending == [];
    hide Flatten, FoundIn, FeedAll, PublishedFrames;
  }

  /** Only the reader touches what was read and found. */
  lemma OthersKeepHistory(k: F.Config, d: State, a: Action)
    requires Enabled(d, a) && !a.Read? && !a.Overflow?
    ensures var d' := Next(k, d, a); d'.line == d.line && d'.pending == d.pending && d'.found == d.found
  {
    hide F.Next, F.Enabled, V.ApplyAll, Deliver, F.Content;
  }

  lemma StepGrows(k: F.Config, d: State, a: Action, stretches: seq<seq<byte>>)
    requires HistoryOk(d.line, d.pending, d.found, stretches) && Enabled(d, a)
    ensures var d' := Next(k, d, a); HistoryOk(d'.line, d'.pending, d'.found, Grow(stretches, a))
  {
    assert stretches != [];
    hide HistoryOk, Grow, Feed, PublishedFrames, F.Next, F.Enabled, FanStep;
    match a
    case Read(b) => ReadGrows(d.line, d.pending, d.found, stretches, b);
    case Overflow => OverflowGrows(d.line, d.pending, d.found, stretches);
    case _ =>
      OthersKeepHistory(k, d, a);
      OthersGrowNothing(stretches, a);
  }

  lemma OthersGrowNothing(stretches: seq<seq<byte>>, a: Action)
    requires stretches != [] && !a.Read? && !a.Overflow?
    ensures Grow(stretches, a) == stretches
  {}

  lemma {:induction false} RunGrows(k: F.Config, d: State, actions: seq<Action>, d': State, stretches: seq<seq<byte>>)
    requires Reaches(k, d, actions, d') && HistoryOk(d.line, d.pending, d.found, stretches)
    ensures stretches != [] && HistoryOk(d'.line, d'.pending, d'.found, GrowAll(stretches, actions))
    decreases |actions|
  {
    assert stretches != [];
    hide HistoryOk, Grow, Next, Enabled;
    if actions != [] {
      StepGrows(k, d, actions[0], stretches);
      RunGrows(k, Next(k, d, actions[0]), actions[1..], d', Grow(stretches, actions[0]));
    }
  }

  /** In every run the frames found are exactly what a fresh splitter finds in each stretch of
      the line between two overflows. */
  lemma FoundExactly(k: F.Config, kinds: seq<Kind>, actions: seq<Action>, d: State)
    requires |kinds| == k.n && Reaches(k, Init(k, kinds), actions, d)
    ensures d.line == Flatten(Stretches(actions)) && d.found == FoundIn(Stretches(actions))
  {
    var d0 := Init(k, kinds);
    StartHistory();
    hide HistoryOk, Init, GrowAll;
    RunGrows(k, d0, actions, d, [[]]);
    HistoryMeans(d.line, d.pending, d.found, Stretches(actions));
  }

  lemma StartHistory()
    ensures HistoryOk([], [], [], [[]])
  {
    LastStretch([], []);
    assert PublishedFrames(FeedAll([], []).trace) == [];
  }

  lemma HistoryMeans(line: seq<byte>, pending: seq<byte>, found: seq<Frame>, stretches: seq<seq<byte>>)
    requires HistoryOk(line, pending, found, stretches)
    ensures line == Flatten(stretches) && found == FoundIn(stretches)
  {}

  // ---- What each consumer is given ----

  function OnItsWay(q: F.Consumer, hand: Hand): nat {
    |q.queue| + if q.held.Some? && !hand.forwarded then 1 else 0
  }

  /** Every frame found was offered to the consumer; those its queue had room for are the
      ones it forwarded and, after them, the ones still on their way; the counter has the
      others. */
  ghost predicate Account(found: seq<Frame>, offers: seq<V.Offer>, q: F.Consumer, hand: Hand) {
    && V.FramesOffered(offers) == found
    && Subsequence(V.Accepted(offers), found)
    && hand.frames <= V.Accepted(offers)
    && |V.Accepted(offers)| == |hand.frames| + OnItsWay(q, hand)
    && |found| == |V.Accepted(offers)| + V.Missed(offers)
    && q.drops == V.Missed(offers) % UINT32
  }

  lemma MirrorCounts(slots: seq<F.Slot>, depth: nat, q: F.Consumer, box: V.Mailbox)
    requires F.Pointers(q, |slots|) && F.Mirrors(slots, depth, q, box)
    ensures |q.queue| == V.Waiting(box) && (q.held.Some? <==> box.holding)
    ensures q.drops == V.Missed(box.offers) % UINT32
  {
    hide F.Content, V.Accepted, V.Missed;
  }

  lemma MakeAccount(found: seq<Frame>, box: V.Mailbox, q: F.Consumer, hand: Hand)
    requires V.FramesOffered(box.offers) == found && HandOk(box, hand)
    requires |q.queue| == V.Waiting(box) && (q.held.Some? <==> box.holding)
    requires q.drops == V.Missed(box.offers) % UINT32
    ensures Account(found, box.offers, q, hand)
  {
    V.AcceptedAmongOffers(box.offers);
    hide V.Accepted, V.Missed, Subsequence;
  }

  lemma InvParts(k: F.Config, d: State)
    requires Inv(k, d)
    ensures F.Sim(k, d.fan, d.ideal) && V.InOrder(k.depth, d.ideal) && HandsOk(d.ideal, d.hands)
    ensures d.ideal.published + d.due == d.found
  {
    hide F.Sim, V.InOrder, HandsOk, SinksOk;
  }

  lemma AllOffered(k: F.Config, fan: F.State, m: V.Ideal, c: nat)
    requires F.Sim(k, fan, m) && V.InOrder(k.depth, m) && fan.pub == F.Idle && c < k.n
    ensures c < |m.boxes| && V.FramesOffered(m.boxes[c].offers) == m.published
  {
    hide *;
    F.SimParts(k, fan, m);
    F.BoxOf(k.depth, m, c);
    F.OfferedWhenIdle(k, fan, m, c);
    OffersReach(k.depth, m.published, m.boxes[c]);
  }

  lemma OffersReach(depth: nat, published: seq<Frame>, box: V.Mailbox)
    requires V.BoxInOrder(depth, published, box)
    ensures |box.offers| == |published| ==> V.FramesOffered(box.offers) == published
  {
    hide V.Accepted;
  }

  lemma HandAt(m: V.Ideal, hands: seq<Hand>, c: nat)
    requires HandsOk(m, hands) && c < |m.boxes|
    ensures c < |hands| && HandOk(m.boxes[c], hands[c])
  {
    hide HandOk;
  }

  /** When the reader has handed everything over, every consumer's account balances. */
  lemma LineAccount(k: F.Config, kinds: seq<Kind>, actions: seq<Action>, d: State, c: nat)
    requires F.EnoughSlots(k) && |kinds| == k.n && Reaches(k, Init(k, kinds), actions, d)
    requires d.due == [] && d.fan.pub == F.Idle && c < k.n
    ensures c < |d.ideal.boxes| && c < |d.hands| && c < |d.fan.consumers|
    ensures Account(FoundIn(Stretches(actions)), d.ideal.boxes[c].offers, d.fan.consumers[c], d.hands[c])
  {
    hide *;
    FoundExactly(k, kinds, actions, d);
    InitOk(k, kinds);
    RunKeeps(k, Init(k, kinds), actions, d);
    InvParts(k, d);
    assert d.ideal.published + [] == d.ideal.published;
    AllOffered(k, d.fan, d.ideal, c);
    F.SimParts(k, d.fan, d.ideal);
    F.ConsumerView(k, d.fan, d.ideal, c);
    MirrorCounts(d.fan.slots, k.depth, d.fan.consumers[c], d.ideal.boxes[c]);
    HandAt(d.ideal, d.hands, c);
    MakeAccount(d.found, d.ideal.boxes[c], d.fan.consumers[c], d.hands[c]);
  }

  // ---- Who refused ----

  lemma StepTrace(k: F.Config, d: State, a: Action) returns (t: seq<V.Event>)
    requires F.EnoughSlots(k) && Inv(k, d) && Enabled(d, a)
    ensures V.Replays(k.depth, d.ideal, t) && Next(k, d, a).ideal == V.ApplyAll(d.ideal, t)
  {
    InvParts(k, d);
    hide F.Sim, Inv, F.Next, F.Enabled, V.Replays, V.ApplyAll, F.EnoughSlots, F.Matches, Deliver, Feed, F.Content;
    if a.Step? || a.HandOver? {
      var x := if a.Step? then a.a else F.Publish(d.due[0]);
      F.StepMatches(k, d.fan, d.ideal, x);
      FanSim(k, d.ideal, F.Next(k, d.fan, x));
      t := F.Next(k, d.fan, x).events;
    } else {
      t := [];
      NoTrace(k.depth, d.ideal);
    }
  }

  lemma NoTrace(depth: nat, m: V.Ideal)
    ensures V.Replays(depth, m, []) && V.ApplyAll(m, []) == m
  {}

  lemma {:induction false} RunTrace(k: F.Config, d: State, actions: seq<Action>, d': State) returns (t: seq<V.Event>)
    requires F.EnoughSlots(k) && Inv(k, d) && Reaches(k, d, actions, d')
    ensures V.Replays(k.depth, d.ideal, t) && d'.ideal == V.ApplyAll(d.ideal, t)
    decreases |actions|
  {
    hide Inv, Enabled, Next, F.EnoughSlots, V.Replays, V.ApplyAll;
    if actions == [] {
      t := [];
      NoTrace(k.depth, d.ideal);
    } else {
      var x := Next(k, d, actions[0]);
      var u := StepTrace(k, d, actions[0]);
      NextKeeps(k, d, actions[0]);
      var v := RunTrace(k, x, actions[1..], d');
      t := u + v;
      V.ReplaysConcat(k.depth, d.ideal, u, v);
    }
  }

  lemma {:induction false} RefusedWhenFull(depth: nat, m: V.Ideal, t: seq<V.Event>, i: nat)
    requires V.Replays(depth, m, t) && i < |t| && t[i].Offered? && !t[i].taken
    ensures var x := V.ApplyAll(m, t[..i]); t[i].c < |x.boxes| && V.Waiting(x.boxes[t[i].c]) >= depth
    decreases i
  {
    hide V.Apply, V.Waiting;
    if i > 0 {
      assert t[..i][0] == t[0] && t[..i][1..] == t[1..][..i - 1] && t[1..][i - 1] == t[i];
      RefusedWhenFull(depth, V.Apply(m, t[0]), t[1..], i - 1);
    }
  }

  /** The mailboxes come from a run of the value queues in which an offer is refused only by
      a consumer's full queue. */
  lemma OnlyFullQueuesRefuse(k: F.Config, kinds: seq<Kind>, actions: seq<Action>, d: State) returns (t: seq<V.Event>)
    requires F.EnoughSlots(k) && |kinds| == k.n && Reaches(k, Init(k, kinds), actions, d)
    ensures V.Replays(k.depth, V.Nothing(k.n), t) && d.ideal == V.ApplyAll(V.Nothing(k.n), t)
    ensures forall i :: 0 <= i < |t| && t[i].Offered? && !t[i].taken ==>
              var x := V.ApplyAll(V.Nothing(k.n), t[..i]);
              t[i].c < |x.boxes| && V.Waiting(x.boxes[t[i].c]) >= k.depth
  {
    assert Init(k, kinds).ideal == V.Nothing(k.n);
    hide *;
    InitOk(k, kinds);
    t := RunTrace(k, Init(k, kinds), actions, d);
    forall i | 0 <= i < |t| && t[i].Offered? && !t[i].taken
      ensures var x := V.ApplyAll(V.Nothing(k.n), t[..i]);
              t[i].c < |x.boxes| && V.Waiting(x.boxes[t[i].c]) >= k.depth
    {
      RefusedWhenFull(k.depth, V.Nothing(k.n), t, i);
    }
  }

  // ---- Every frame arrives ----

  /** Nothing is left to hand over, nothing waits for consumer c, and its queue was never full. */
  ghost predicate AllDone(d: State, c: nat) {
    && d.due == [] && d.fan.pub == F.Idle
    && c < |d.fan.consumers| && c < |d.hands| && c < |d.ideal.boxes| && c < |d.sinks|
    && OnItsWay(d.fan.consumers[c], d.hands[c]) == 0
    && V.Missed(d.ideal.boxes[c].offers) == 0
  }

  lemma {:induction false} NothingMissed(offers: seq<V.Offer>)
    requires V.Missed(offers) == 0
    ensures V.Accepted(offers) == V.FramesOffered(offers)
  {
    if offers != [] {
      var n := |offers| - 1;
      NothingMissed(offers[..n]);
      assert V.FramesOffered(offers) == V.FramesOffered(offers[..n]) + [offers[n].frame];
    }
  }

  lemma AccountDone(found: seq<Frame>, offers: seq<V.Offer>, q: F.Consumer, hand: Hand)
    requires Account(found, offers, q, hand) && OnItsWay(q, hand) == 0 && V.Missed(offers) == 0
    ensures hand.frames == found
  {
    NothingMissed(offers);
    hide V.Accepted, V.Missed, V.FramesOffered, Subsequence, OnItsWay;
  }

  lemma {:induction false} OneStretch(actions: seq<Action>, data: seq<byte>)
    requires Overflow !in actions
    ensures exists s :: GrowAll([data], actions) == [s]
    decreases |actions|
  {
    if actions != [] {
      var next := Grow([data], actions[0]);
      assert |next| == 1 && next == [next[0]];
      OneStretch(actions[1..], next[0]);
    }
  }

  /** With no overflow the line is one stretch, and an encoded line gives its frames. */
  lemma EncodedFound(actions: seq<Action>, line: seq<byte>, items: seq<Item>)
    requires Overflow !in actions && line == Flatten(Stretches(actions)) && Encoded(items) && line == Line(items)
    ensures FoundIn(Stretches(actions)) == FramesOf(items)
  {
    assert Live([]);
    hide *;
    OneStretch(actions, []);
    var s :| GrowAll([[]], actions) == [s];
    IsStretches(actions);
    OneStretchFound(s);
    EncodedWellFormed(items);
    LineParses(items);
    ParsesFrames(FeedAll([], line), FramesOf(items));
  }

  lemma OneStretchFound(s: seq<byte>)
    ensures FoundIn([s]) == PublishedFrames(FeedAll([], s).trace) && Flatten([s]) == s
  {
    LastStretch([], s);
    NoStretch();
    assert [] + [s] == [s];
    hide *;
  }

  lemma IsStretches(actions: seq<Action>)
    ensures Stretches(actions) == GrowAll([[]], actions)
  {}

  lemma NoStretch()
    ensures FoundIn([]) == [] && Flatten<byte>([]) == []
  {}

  lemma ParsesFrames(x: Result, fs: seq<Frame>)
    requires Parses(x, fs)
    ensures PublishedFrames(x.trace) == fs
  {
    hide PublishedFrames;
  }

  /** If payloads of legal length are encoded on the line, with gaps free of sync bytes, and
      no UART overflow and no full queue gets in the way, then a consumer with nothing left
      to do has forwarded exactly the encoded frames. */
  lemma EveryFrameForwarded(k: F.Config, kinds: seq<Kind>, actions: seq<Action>, d: State, c: nat, items: seq<Item>)
    requires F.EnoughSlots(k) && |kinds| == k.n && Reaches(k, Init(k, kinds), actions, d) && c < k.n
    requires Overflow !in actions && Encoded(items) && d.line == Line(items) && AllDone(d, c)
    ensures d.hands[c].frames == FramesOf(items) && SinkOk(d.sinks[c], FramesOf(items))
  {
    DoneMeans(d, c);
    hide *;
    LineAccount(k, kinds, actions, d, c);
    FoundExactly(k, kinds, actions, d);
    EncodedFound(actions, d.line, items);
    AccountDone(FoundIn(Stretches(actions)), d.ideal.boxes[c].offers, d.fan.consumers[c], d.hands[c]);
    ReachedSink(k, kinds, actions, d, c);
  }

  lemma DoneMeans(d: State, c: nat)
    requires AllDone(d, c)
    ensures d.due == [] && d.fan.pub == F.Idle
    ensures c < |d.fan.consumers| && c < |d.hands| && c < |d.ideal.boxes| && c < |d.sinks|
    ensures OnItsWay(d.fan.consumers[c], d.hands[c]) == 0 && V.Missed(d.ideal.boxes[c].offers) == 0
  {
    hide OnItsWay, V.Missed;
  }

  /** Then a rover that was served from the start and whose socket keeps up has exactly the
      encoded frames on its wire. */
  lemma EveryFrameReachesTheRover(k: F.Config, kinds: seq<Kind>, actions: seq<Action>, d: State, c: nat, i: nat,
                                  items: seq<Item>, slot: R.Slot, script: Script)
    requires F.EnoughSlots(k) && |kinds| == k.n && Reaches(k, Init(k, kinds), actions, d) && c < k.n
    requires Overflow !in actions && Encoded(items) && d.line == Line(items) && AllDone(d, c)
    requires d.sinks[c].Rovers? && i < |d.sinks[c].table| && R.Unused(slot)
    requires Y.Stays(script, d.sinks[c].table[i]) && Keen(ROVER_STREAM_SEND_RETRIES, script)
    ensures var s := R.Run(slot, d.sinks[c].table[i]);
            && s.link == R.Link(R.Streaming, [], 0) && s.past == []
            && s.conn.accepted == FramesOf(items) && s.conn.wire == Flatten(FramesOf(items))
  {
    DoneMeans(d, c);
    hide *;
    EveryFrameForwarded(k, kinds, actions, d, c, items);
    SlotOf(d.sinks[c].table, FramesOf(items), i);
    Y.KeenRover(slot, script, d.sinks[c].table[i]);
  }

  /** And so has an uplink that connected at once to a peer that stays and keeps up. */
  lemma EveryFrameReachesThePeer(k: F.Config, kinds: seq<Kind>, actions: seq<Action>, d: State, c: nat,
                                 items: seq<Item>, script: Script)
    requires F.EnoughSlots(k) && |kinds| == k.n && Reaches(k, Init(k, kinds), actions, d) && c < k.n
    requires Overflow !in actions && Encoded(items) && d.line == Line(items) && AllDone(d, c)
    requires d.sinks[c].Uplink? && d.sinks[c].worlds != [] && d.sinks[c].worlds[0].connect == Some(script)
    requires forall j :: 0 <= j < |d.sinks[c].worlds| ==> !d.sinks[c].worlds[j].gone
    requires Keen(NTRIP_SEND_RETRY_LIMIT, script)
    ensures var s := U.Run(U.Init(NeverAsked), d.sinks[c].worlds);
            && s.connected && s.past == [] && s.received == FramesOf(items)
            && s.conn.frames == FramesOf(items) && s.conn.wire == Flatten(FramesOf(items))
  {
    DoneMeans(d, c);
    hide *;
    EveryFrameForwarded(k, kinds, actions, d, c, items);
    WorldsOf(d.sinks[c].worlds, FramesOf(items));
    NotConnected();
    U.KeenUplink(U.Init(NeverAsked), script, d.sinks[c].worlds);
    assert [] + U.FramesIn(d.sinks[c].worlds) == U.FramesIn(d.sinks[c].worlds);
  }

  lemma NotConnected()
    ensures var s := U.Init(NeverAsked); !s.connected && s.past == [] && s.received == []
  {}
}

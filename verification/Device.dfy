/** The device as a whole: the reader task with its splitter, the shared pool, and its
    consumers with what they send on, the caster's rovers and the uplinks' connections,
    their steps in any order. */
module Device {
  import opened Crc24
  import opened Frames
  import opened Sequences
  import opened SplitterSpec
  import opened SplitterTheorems
  import opened EndToEnd
  import opened Sockets
  import V = ValueQueues
  import F = Fanout
  import R = RoverSpec
  import U = UplinkSpec

  type Frame = seq<byte>

  /** What a consumer is: the caster, with its table of rovers, or an uplink. RTKBase has two
      uplinks and a caster. */
  datatype Kind = CasterTask | UplinkTask

  /** A consumer's far side: the events of each slot of the rover table, or an uplink's passes. */
  datatype Sink = Rovers(table: seq<seq<R.Event>>) | Uplink(worlds: seq<U.World>)

  /** A consumer's side of a frame: whether the one in its hands has been forwarded, and all
      it ever forwarded. */
  datatype Hand = Hand(forwarded: bool, frames: seq<Frame>)

  /** `line` is what the UART delivered, `due` the frames found but not yet handed to the
      pool, `found` all frames found. The sinks are what their events make of them. */
  datatype State = State(
    line: seq<byte>, pending: seq<byte>, due: seq<Frame>, found: seq<Frame>,
    fan: F.State, ideal: V.Ideal, hands: seq<Hand>, sinks: seq<Sink>)

  datatype Action =
    | Read(b: byte)
    | Overflow                       // the UART driver lost bytes: the splitter starts afresh
    | HandOver                       // publish_rtcm_frame with the next frame found
    | Step(a: F.Action)              // any step of the pool but that
    | Forward(c: nat)                // consumer c does with its frame what it is for
    | RoverEvent(c: nat, i: nat, e: R.Event)
    | UplinkPass(c: nat, connect: Option<Script>, gone: bool)

  function NewSink(kind: Kind): Sink {
    match kind
    case CasterTask => Rovers(seq(R.MAX_ROVERS, i => []))
    case UplinkTask => Uplink([])
  }

  function Init(k: F.Config, kinds: seq<Kind>): State
    requires |kinds| == k.n
  {
    State([], [], [], [], F.Init(k), V.Nothing(k.n), seq(k.n, i => Hand(true, [])),
          seq(k.n, i requires 0 <= i < k.n => NewSink(kinds[i])))
  }

  function UplinkAfter(worlds: seq<U.World>): U.State {
    U.Run(U.Init(NeverAsked), worlds)
  }

  predicate Holding(d: State, c: nat) {
    F.Holds(d.fan, c)
  }

  /** The caster is always ready for a frame, an uplink while connected. */
  predicate ReadyFor(sink: Sink) {
    sink.Uplink? ==> UplinkAfter(sink.worlds).connected
  }

  /** The order within each task: the reader publishes what it found before it reads on; a
      consumer forwards a frame once and then releases it; an uplink takes frames only while
      connected, and passes on only with nothing in hand. */
  predicate Enabled(d: State, a: Action) {
    match a
    case Read(_) => Live(d.pending) && d.due == [] && d.fan.pub == F.Idle
    case Overflow => d.due == [] && d.fan.pub == F.Idle
    case HandOver => d.due != [] && F.Enabled(d.fan, F.Publish(d.due[0]))
    case Step(x) =>
      && !x.Publish? && F.Enabled(d.fan, x)
      && (x.Release? ==> x.c < |d.hands| && d.hands[x.c].forwarded)
      && (x.Receive? && x.c < |d.sinks| ==> ReadyFor(d.sinks[x.c]))
    case Forward(c) =>
      Holding(d, c) && c < |d.hands| && !d.hands[c].forwarded && c < |d.sinks| && ReadyFor(d.sinks[c])
    case RoverEvent(c, i, e) => c < |d.sinks| && d.sinks[c].Rovers? && i < |d.sinks[c].table| && !e.Frame?
    case UplinkPass(c, _, _) => c < |d.sinks| && d.sinks[c].Uplink? && !Holding(d, c)
  }

  /** A frame goes to every slot of the rover table, or to the uplink's connection. */
  function Deliver(sink: Sink, frame: Frame): Sink {
    match sink
    case Rovers(table) => Rovers(seq(|table|, i requires 0 <= i < |table| => table[i] + [R.Frame(frame)]))
    case Uplink(worlds) => Uplink(worlds + [U.World(None, Some(frame), false)])
  }

  function FanStep(k: F.Config, d: State, x: F.Action): State
    requires F.Enabled(d.fan, x)
  {
    var o := F.Next(k, d.fan, x);
    d.(fan := o.state, ideal := V.ApplyAll(d.ideal, o.events))
  }

  /** A frame just received has not been forwarded yet. */
  function HandsAfter(hands: seq<Hand>, x: F.Action): seq<Hand> {
    if x.Receive? && x.c < |hands| then hands[x.c := hands[x.c].(forwarded := false)] else hands
  }

  function Next(k: F.Config, d: State, a: Action): State
    requires Enabled(d, a)
  {
    match a
    case Read(b) =>
      var y := Feed(d.pending, b);
      var frames := PublishedFrames(y.trace);
      d.(line := d.line + [b], pending := y.pending, due := frames, found := d.found + frames)
    case Overflow => d.(pending := [])
    case HandOver => FanStep(k, d, F.Publish(d.due[0])).(due := d.due[1..])
    case Step(x) =>
      FanStep(k, d, x).(hands := HandsAfter(d.hands, x))
    case Forward(c) =>
      var frame := F.Content(d.fan.slots[d.fan.consumers[c].held.value]);
      d.(hands := d.hands[c := Hand(true, d.hands[c].frames + [frame])],
         sinks := d.sinks[c := Deliver(d.sinks[c], frame)])
    case RoverEvent(c, i, e) =>
      var table := d.sinks[c].table;
      d.(sinks := d.sinks[c := Rovers(table[i := table[i] + [e]])])
    case UplinkPass(c, connect, gone) =>
      d.(sinks := d.sinks[c := Uplink(d.sinks[c].worlds + [U.World(connect, None, gone)])])
  }

  ghost predicate Reaches(k: F.Config, d: State, actions: seq<Action>, d': State)
    decreases |actions|
  {
    if actions == [] then d' == d
    else Enabled(d, actions[0]) && Reaches(k, Next(k, d, actions[0]), actions[1..], d')
  }

  // ---- What every state keeps ----

  /** How many frames of its mailbox a consumer has forwarded. */
  function Got(box: V.Mailbox, hand: Hand): int {
    box.received - if box.holding && !hand.forwarded then 1 else 0
  }

  /** A consumer forwarded its accepted frames, each once and in order, as far as it got. */
  ghost predicate HandOk(box: V.Mailbox, hand: Hand) {
    && 0 <= Got(box, hand) <= box.received <= |V.Accepted(box.offers)|
    && hand.frames == V.Accepted(box.offers)[..Got(box, hand)]
  }

  ghost predicate HandsOk(m: V.Ideal, hands: seq<Hand>) {
    |hands| == |m.boxes| && forall c :: 0 <= c < |hands| ==> HandOk(m.boxes[c], hands[c])
  }

  ghost predicate FanOk(k: F.Config, fan: F.State, ideal: V.Ideal) {
    F.Sim(k, fan, ideal) && V.InOrder(k.depth, ideal)
  }

  ghost predicate FoundOk(line: seq<byte>, pending: seq<byte>, due: seq<Frame>, found: seq<Frame>,
                          published: seq<Frame>)
  {
    && Live(pending) && AllAreFrames(found)
    && Subsequence(Flatten(found) + pending, line)
    && published + due == found
  }

  /** What reached a sink are the frames its consumer forwarded. */
  ghost predicate SinkOk(sink: Sink, frames: seq<Frame>) {
    match sink
    case Rovers(table) => forall i :: 0 <= i < |table| ==> R.FramesIn(table[i]) == frames
    case Uplink(worlds) => UplinkAfter(worlds).received == frames
  }

  ghost predicate SinksOk(hands: seq<Hand>, sinks: seq<Sink>) {
    |sinks| == |hands| && forall c :: 0 <= c < |hands| ==> SinkOk(sinks[c], hands[c].frames)
  }

  ghost predicate Inv(k: F.Config, d: State) {
    && FanOk(k, d.fan, d.ideal)
    && HandsOk(d.ideal, d.hands)
    && FoundOk(d.line, d.pending, d.due, d.found, d.ideal.published)
    && SinksOk(d.hands, d.sinks)
  }

  // ---- The reader ----

  lemma ReadFinds(line: seq<byte>, pending: seq<byte>, found: seq<Frame>, b: byte)
    requires Live(pending) && AllAreFrames(found) && Subsequence(Flatten(found) + pending, line)
    ensures var y := Feed(pending, b); var frames := PublishedFrames(y.trace);
            AllAreFrames(found + frames) && Subsequence(Flatten(found + frames) + y.pending, line + [b])
  {
    hide *;
    var y := Feed(pending, b);
    var frames := PublishedFrames(y.trace);
    FeedOne(pending, b);
    OnlyFramesPublished(pending, [b]);
    FramesOfTrace(y.trace);
    BothFrames(found, frames);
    FlattenConcat(found, frames);
    FramesInStreamOrder(pending, [b]);
    Lengthen(Flatten(found), Flatten(frames), y.pending, pending, b, line);
  }

  lemma Lengthen(found: seq<byte>, more: seq<byte>, rest: seq<byte>, pending: seq<byte>, b: byte, line: seq<byte>)
    requires Subsequence(found + pending, line) && Subsequence(more + rest, pending + [b])
    ensures Subsequence(found + more + rest, line + [b])
  {
    hide *;
    SubsequenceRefl(found);
    SubsequenceConcat(found, found, more + rest, pending + [b]);
    SubsequenceRefl([b]);
    SubsequenceConcat(found + pending, line, [b], [b]);
    assert found + (pending + [b]) == found + pending + [b];
    SubsequenceTrans(found + (more + rest), found + (pending + [b]), line + [b]);
    assert found + (more + rest) == found + more + rest;
  }

  lemma BothFrames(a: seq<Frame>, b: seq<Frame>)
    requires AllAreFrames(a) && AllAreFrames(b)
    ensures AllAreFrames(a + b)
  {
    hide IsFrame;
  }

  lemma Forgets(found: seq<byte>, pending: seq<byte>, line: seq<byte>)
    requires Subsequence(found + pending, line)
    ensures Subsequence(found + [], line)
  {
    hide Subsequence;
    assert found + [] == found;
    PieceIsSubsequence(found, found + pending, 0);
    SubsequenceTrans(found, found + pending, line);
  }

  // ---- The consumers ----

  lemma OfferKeepsHand(box: V.Mailbox, hand: Hand, o: V.Offer)
    requires HandOk(box, hand)
    ensures HandOk(box.(offers := box.offers + [o]), hand)
  {
    V.OneMoreOffer(box.offers, o);
    hide V.Accepted;
  }

  /** A consumer's hand over an event: a frame received is yet to be forwarded, one released
      has been. */
  lemma EventKeepsHands(depth: nat, m: V.Ideal, e: V.Event, hands: seq<Hand>, hands': seq<Hand>)
    requires HandsOk(m, hands) && V.Allowed(depth, m, e)
    requires e.Released? ==> e.c < |hands| && hands[e.c].forwarded
    requires hands' == if e.Received? && e.c < |hands| then hands[e.c := hands[e.c].(forwarded := false)] else hands
    ensures HandsOk(V.Apply(m, e), hands')
  {
    hide V.Accepted;
    match e
    case Offered(c, frame, taken) =>
      OfferKeepsHand(m.boxes[c], hands[c], V.Offer(frame, taken));
      hide HandOk;
    case _ =>
  }

  function PublishedBy(x: F.Action): seq<Frame> {
    if x.Publish? then [x.frame] else []
  }

  /** What a step of the pool shows. */
  lemma FanEvents(k: F.Config, s: F.State, x: F.Action)
    requires F.Enabled(s, x)
    ensures var t := F.Next(k, s, x).events;
            && |t| <= 1
            && (x.Receive? ==> t == [V.Received(x.c)])
            && (x.Publish? ==> t == [V.Published(x.frame)])
            && (t != [] && t[0].Received? ==> x.Receive?)
            && (t != [] && t[0].Published? ==> x.Publish?)
            && (t != [] && t[0].Released? ==> x == F.Release(t[0].c))
  {}

  lemma NothingShown(m: V.Ideal)
    ensures V.ApplyAll(m, []) == m
  {}

  lemma OneShown(depth: nat, m: V.Ideal, t: seq<V.Event>)
    requires V.Replays(depth, m, t) && |t| == 1
    ensures V.Allowed(depth, m, t[0]) && V.ApplyAll(m, t) == V.Apply(m, t[0])
  {
    assert t[1..] == [] && t == [t[0]];
    NothingShown(V.Apply(m, t[0]));
    hide V.Allowed, V.Apply;
  }

  lemma PublicationGrows(m: V.Ideal, e: V.Event)
    ensures V.Apply(m, e).published == m.published + if e.Published? then [e.frame] else []
  {}

  lemma FanSim(k: F.Config, m: V.Ideal, o: F.Outcome)
    requires F.Matches(k, m, o)
    ensures V.Replays(k.depth, m, o.events) && F.Sim(k, o.state, V.ApplyAll(m, o.events))
  {
    hide F.Sim, V.Replays, V.ApplyAll;
  }

  lemma FanKeeps(k: F.Config, d: State, x: F.Action, hands': seq<Hand>)
    requires F.EnoughSlots(k) && F.Sim(k, d.fan, d.ideal) && V.InOrder(k.depth, d.ideal) && HandsOk(d.ideal, d.hands)
    requires F.Enabled(d.fan, x)
    requires x.Release? ==> x.c < |d.hands| && d.hands[x.c].forwarded
    requires hands' == HandsAfter(d.hands, x)
    ensures var o := F.Next(k, d.fan, x); var m := V.ApplyAll(d.ideal, o.events);
            && F.Sim(k, o.state, m) && V.InOrder(k.depth, m) && HandsOk(m, hands')
            && m.published == d.ideal.published + PublishedBy(x)
  {
    hide F.Next, F.Sim, F.Enabled, F.EnoughSlots, F.Matches;
    hide V.InOrder, V.Replays, V.ApplyAll, V.Apply, V.Allowed, HandsOk;
    var o := F.Next(k, d.fan, x);
    F.StepMatches(k, d.fan, d.ideal, x);
    FanSim(k, d.ideal, o);
    FanEvents(k, d.fan, x);
    if o.events == [] {
      NothingShown(d.ideal);
      assert d.ideal.published + [] == d.ideal.published;
    } else {
      OneShown(k.depth, d.ideal, o.events);
      V.EventKeepsOrder(k.depth, d.ideal, o.events[0]);
      EventKeepsHands(k.depth, d.ideal, o.events[0], d.hands, hands');
      PublicationGrows(d.ideal, o.events[0]);
    }
  }

  /** A forwarded frame is the next of the consumer's accepted ones. */
  lemma ForwardKeeps(k: F.Config, d: State, c: nat)
    requires F.Sim(k, d.fan, d.ideal) && HandsOk(d.ideal, d.hands)
    requires Holding(d, c) && c < |d.hands| && !d.hands[c].forwarded
    ensures HandsOk(d.ideal, d.hands[c := Hand(true, d.hands[c].frames +
                                               [F.Content(d.fan.slots[d.fan.consumers[c].held.value])])])
  {
    assert c < |d.ideal.boxes| && HandOk(d.ideal.boxes[c], d.hands[c]);
    assert d.fan.consumers[c].held.Some?;
    var box, hand := d.ideal.boxes[c], d.hands[c];
    assert c < k.n by { F.SimParts(k, d.fan, d.ideal); }
    hide F.Sim, F.Content;
    F.ConsumerView(k, d.fan, d.ideal, c);
    F.HoldsAgree(d.fan.slots, k.depth, d.fan.consumers[c], box);
    hide F.Mirrors, F.Pointers, F.PublisherOk, F.InStep;
    ForwardHand(box, hand);
    hide HandOk;
  }

  lemma ForwardHand(box: V.Mailbox, hand: Hand)
    requires HandOk(box, hand) && V.HasFrame(box) && !hand.forwarded
    ensures HandOk(box, Hand(true, hand.frames + [V.InHand(box)]))
  {
    var accepted, n := V.Accepted(box.offers), box.received - 1;
    assert accepted[..n] + [accepted[n]] == accepted[..n + 1];
    hide V.Accepted;
  }

  // ---- The sinks ----

  lemma RoverFrame(events: seq<R.Event>, e: R.Event)
    ensures R.FramesIn(events + [e]) == R.FramesIn(events) + if e.Frame? then [e.frame] else []
  {
    assert (events + [e])[..|events|] == events;
  }

  lemma UplinkFrame(worlds: seq<U.World>, w: U.World)
    ensures var s, s' := UplinkAfter(worlds), UplinkAfter(worlds + [w]);
            && (w.frame.None? ==> s'.received == s.received)
            && (w.frame.Some? && s.connected && !w.gone ==> s'.received == s.received + [w.frame.value])
  {
    assert (worlds + [w])[..|worlds|] == worlds;
  }

  // ---- One step ----

  lemma FoundMore(line: seq<byte>, pending: seq<byte>, found: seq<Frame>, published: seq<Frame>, b: byte)
    requires FoundOk(line, pending, [], found, published)
    ensures var y := Feed(pending, b);
            FoundOk(line + [b], y.pending, PublishedFrames(y.trace), found + PublishedFrames(y.trace), published)
  {
    hide Subsequence, Flatten, Feed, PublishedFrames, AllAreFrames, Judge;
    ReadFinds(line, pending, found, b);
    assert published == found;
  }

  lemma ReadKeeps(k: F.Config, d: State, b: byte)
    requires Inv(k, d) && Enabled(d, Read(b))
    ensures Inv(k, Next(k, d, Read(b)))
  {
    hide FanOk, HandsOk, SinksOk, FoundOk, Feed, PublishedFrames;
    FoundMore(d.line, d.pending, d.found, d.ideal.published, b);
  }

  lemma FoundForgets(line: seq<byte>, pending: seq<byte>, due: seq<Frame>, found: seq<Frame>, published: seq<Frame>)
    requires FoundOk(line, pending, due, found, published)
    ensures FoundOk(line, [], due, found, published)
  {
    assert Live([]);
    hide Subsequence, Flatten, AllAreFrames, Judge;
    Forgets(Flatten(found), pending, line);
  }

  lemma OverflowKeeps(k: F.Config, d: State)
    requires Inv(k, d) && Enabled(d, Overflow)
    ensures Inv(k, Next(k, d, Overflow))
  {
    hide FanOk, HandsOk, SinksOk, FoundOk;
    FoundForgets(d.line, d.pending, d.due, d.found, d.ideal.published);
  }

  lemma FoundPublished(line: seq<byte>, pending: seq<byte>, due: seq<Frame>, found: seq<Frame>, published: seq<Frame>)
    requires FoundOk(line, pending, due, found, published)
    ensures due != [] ==> FoundOk(line, pending, due[1..], found, published + [due[0]])
    ensures FoundOk(line, pending, due, found, published + [])
  {
    hide Subsequence, Flatten, AllAreFrames, Live;
    assert due != [] ==> published + [due[0]] + due[1..] == published + due;
    assert published + [] == published;
  }

  lemma FanOkKeeps(k: F.Config, d: State, x: F.Action, hands': seq<Hand>)
    requires F.EnoughSlots(k) && FanOk(k, d.fan, d.ideal) && HandsOk(d.ideal, d.hands) && F.Enabled(d.fan, x)
    requires x.Release? ==> x.c < |d.hands| && d.hands[x.c].forwarded
    requires hands' == HandsAfter(d.hands, x)
    ensures var d' := FanStep(k, d, x);
            && d' == d.(fan := d'.fan, ideal := d'.ideal)
            && FanOk(k, d'.fan, d'.ideal) && HandsOk(d'.ideal, hands')
            && d'.ideal.published == d.ideal.published + PublishedBy(x)
  {
    hide F.Sim, V.InOrder, HandsOk, F.Next, V.ApplyAll, F.Enabled, PublishedBy, F.EnoughSlots;
    FanKeeps(k, d, x, hands');
  }

  lemma HandOverKeeps(k: F.Config, d: State)
    requires F.EnoughSlots(k) && Inv(k, d) && Enabled(d, HandOver)
    ensures Inv(k, Next(k, d, HandOver))
  {
    hide FanOk, HandsOk, SinksOk, FoundOk, FanStep, F.Enabled, F.EnoughSlots;
    FanOkKeeps(k, d, F.Publish(d.due[0]), d.hands);
    FoundPublished(d.line, d.pending, d.due, d.found, d.ideal.published);
  }

  lemma SinksForget(hands: seq<Hand>, sinks: seq<Sink>, c: nat)
    requires SinksOk(hands, sinks) && c < |hands|
    ensures SinksOk(hands[c := hands[c].(forwarded := false)], sinks)
  {
    hide SinkOk;
  }

  lemma StepKeeps(k: F.Config, d: State, x: F.Action)
    requires F.EnoughSlots(k) && Inv(k, d) && Enabled(d, Step(x))
    ensures Inv(k, Next(k, d, Step(x)))
  {
    hide FanOk, HandsOk, SinksOk, FoundOk, FanStep, F.Enabled, F.EnoughSlots, UplinkAfter;
    FanOkKeeps(k, d, x, HandsAfter(d.hands, x));
    FoundPublished(d.line, d.pending, d.due, d.found, d.ideal.published);
    if x.Receive? && x.c < |d.hands| {
      SinksForget(d.hands, d.sinks, x.c);
    }
  }

  lemma Delivered(sink: Sink, frames: seq<Frame>, frame: Frame)
    requires SinkOk(sink, frames) && ReadyFor(sink)
    ensures SinkOk(Deliver(sink, frame), frames + [frame])
  {
    hide R.FramesIn, UplinkAfter;
    match sink
    case Rovers(table) =>
      forall i | 0 <= i < |table|
        ensures R.FramesIn(table[i] + [R.Frame(frame)]) == frames + [frame]
      {
        RoverFrame(table[i], R.Frame(frame));
      }
    case Uplink(worlds) => UplinkFrame(worlds, U.World(None, Some(frame), false));
  }

  lemma SinksForward(hands: seq<Hand>, sinks: seq<Sink>, c: nat, frame: Frame)
    requires SinksOk(hands, sinks) && c < |hands| && ReadyFor(sinks[c])
    ensures SinksOk(hands[c := Hand(true, hands[c].frames + [frame])], sinks[c := Deliver(sinks[c], frame)])
  {
    hide SinkOk, Deliver, ReadyFor;
    Delivered(sinks[c], hands[c].frames, frame);
  }

  lemma SimNow(k: F.Config, fan: F.State, ideal: V.Ideal)
    requires FanOk(k, fan, ideal)
    ensures F.Sim(k, fan, ideal)
  {}

  lemma ForwardStepKeeps(k: F.Config, d: State, c: nat)
    requires Inv(k, d) && Enabled(d, Forward(c))
    ensures Inv(k, Next(k, d, Forward(c)))
  {
    hide FanOk, HandsOk, SinksOk, FoundOk, F.Content, F.Sim, ReadyFor, Deliver;
    SimNow(k, d.fan, d.ideal);
    ForwardKeeps(k, d, c);
    SinksForward(d.hands, d.sinks, c, F.Content(d.fan.slots[d.fan.consumers[c].held.value]));
  }

  lemma RoverHears(table: seq<seq<R.Event>>, frames: seq<Frame>, i: nat, e: R.Event)
    requires SinkOk(Rovers(table), frames) && i < |table| && !e.Frame?
    ensures SinkOk(Rovers(table[i := table[i] + [e]]), frames)
  {
    hide R.FramesIn;
    RoverFrame(table[i], e);
    assert R.FramesIn(table[i]) + [] == R.FramesIn(table[i]);
  }

  lemma UplinkHears(worlds: seq<U.World>, frames: seq<Frame>, w: U.World)
    requires SinkOk(Uplink(worlds), frames) && w.frame.None?
    ensures SinkOk(Uplink(worlds + [w]), frames)
  {
    hide UplinkAfter;
    UplinkFrame(worlds, w);
  }

  lemma SinksHear(hands: seq<Hand>, sinks: seq<Sink>, c: nat, sink: Sink)
    requires SinksOk(hands, sinks) && c < |hands| && SinkOk(sink, hands[c].frames)
    ensures SinksOk(hands, sinks[c := sink])
  {
    hide SinkOk;
  }

  lemma SinkAt(hands: seq<Hand>, sinks: seq<Sink>, c: nat)
    requires SinksOk(hands, sinks) && c < |sinks|
    ensures c < |hands| && SinkOk(sinks[c], hands[c].frames)
  {
    hide SinkOk;
  }

  lemma SinkKeeps(k: F.Config, d: State, a: Action)
    requires Inv(k, d) && Enabled(d, a) && (a.RoverEvent? || a.UplinkPass?)
    ensures Inv(k, Next(k, d, a))
  {
    hide FanOk, HandsOk, SinksOk, SinkOk, FoundOk, Holding;
    var sink := Next(k, d, a).sinks[a.c];
    SinkAt(d.hands, d.sinks, a.c);
    if a.RoverEvent? {
      RoverHears(d.sinks[a.c].table, d.hands[a.c].frames, a.i, a.e);
    } else {
      UplinkHears(d.sinks[a.c].worlds, d.hands[a.c].frames, U.World(a.connect, None, a.gone));
    }
    SinksHear(d.hands, d.sinks, a.c, sink);
  }

  lemma NextKeeps(k: F.Config, d: State, a: Action)
    requires F.EnoughSlots(k) && Inv(k, d) && Enabled(d, a)
    ensures Inv(k, Next(k, d, a))
  {
    hide Inv, Enabled, Next, F.EnoughSlots;
    match a
    case Read(b) => ReadKeeps(k, d, b);
    case Overflow => OverflowKeeps(k, d);
    case HandOver => HandOverKeeps(k, d);
    case Step(x) => StepKeeps(k, d, x);
    case Forward(c) => ForwardStepKeeps(k, d, c);
    case RoverEvent(_, _, _) => SinkKeeps(k, d, a);
    case UplinkPass(_, _, _) => SinkKeeps(k, d, a);
  }

  /** The splitter's frames always fit the pool's slots: handing one over is possible
      whenever the publisher is idle. */
  lemma FoundFits(k: F.Config, d: State)
    requires Inv(k, d) && d.due != [] && d.fan.pub == F.Idle
    ensures Enabled(d, HandOver)
  {
    assert d.due[0] == d.found[|d.ideal.published|];
    assert IsFrame(d.due[0]);
    hide FanOk, HandsOk, SinksOk, FoundOk, AllAreFrames;
  }

  // ---- Every run ----

  lemma NewSinkOk(kind: Kind)
    ensures SinkOk(NewSink(kind), [])
  {}

  lemma InitOk(k: F.Config, kinds: seq<Kind>)
    requires |kinds| == k.n
    ensures Inv(k, Init(k, kinds))
  {
    var d := Init(k, kinds);
    F.InitSim(k);
    F.NothingInOrder(k.depth, k.n);
    assert Flatten(d.found) + d.pending == d.line;
    SubsequenceRefl(d.line);
    assert FoundOk(d.line, d.pending, d.due, d.found, d.ideal.published);
    assert HandsOk(d.ideal, d.hands);
    forall c | 0 <= c < k.n
      ensures SinkOk(d.sinks[c], d.hands[c].frames)
    {
      NewSinkOk(kinds[c]);
    }
    assert SinksOk(d.hands, d.sinks) by { hide SinkOk; }
    hide F.Sim, V.InOrder, FoundOk, SinksOk, HandsOk;
    assert FanOk(k, d.fan, d.ideal);
  }

  lemma {:induction false} RunKeeps(k: F.Config, d: State, actions: seq<Action>, d': State)
    requires F.EnoughSlots(k) && Inv(k, d) && Reaches(k, d, actions, d')
    ensures Inv(k, d')
    decreases |actions|
  {
    hide Inv, Enabled, Next, F.EnoughSlots;
    if actions != [] {
      NextKeeps(k, d, actions[0]);
      RunKeeps(k, Next(k, d, actions[0]), actions[1..], d');
    }
  }

  lemma PrefixOffTheLine(a: seq<Frame>, b: seq<Frame>, line: seq<byte>)
    requires a <= b && OffTheLine(b, line)
    ensures OffTheLine(a, line)
  {
    hide *;
    PieceIsSubsequence(a, b, 0);
    StaysOffTheLine(a, b, line);
  }

  lemma FoundOffTheLine(line: seq<byte>, pending: seq<byte>, due: seq<Frame>, found: seq<Frame>, published: seq<Frame>)
    requires FoundOk(line, pending, due, found, published)
    ensures OffTheLine(found, line) && published <= found
  {
    hide AllAreFrames, Subsequence, Flatten, Live;
    PieceIsSubsequence(Flatten(found), Flatten(found) + pending, 0);
    SubsequenceTrans(Flatten(found), Flatten(found) + pending, line);
  }

  lemma HandOf(m: V.Ideal, hands: seq<Hand>, depth: nat, c: nat)
    requires HandsOk(m, hands) && V.InOrder(depth, m) && c < |hands|
    ensures c < |m.boxes| && hands[c].frames <= V.Accepted(m.boxes[c].offers)
    ensures V.FramesOffered(m.boxes[c].offers) <= m.published
  {
    F.BoxOf(depth, m, c);
    assert HandOk(m.boxes[c], hands[c]);
    hide V.Accepted, V.FramesOffered, V.InOrder;
  }

  /** Whatever a consumer forwarded is valid and in the order of the line. */
  lemma ForwardedOffTheLine(k: F.Config, d: State, c: nat)
    requires Inv(k, d) && c < |d.hands|
    ensures OffTheLine(d.hands[c].frames, d.line)
  {
    assert V.InOrder(k.depth, d.ideal) && HandsOk(d.ideal, d.hands);
    assert FoundOk(d.line, d.pending, d.due, d.found, d.ideal.published);
    hide *;
    FoundOffTheLine(d.line, d.pending, d.due, d.found, d.ideal.published);
    HandOf(d.ideal, d.hands, k.depth, c);
    var offers := d.ideal.boxes[c].offers;
    PrefixOffTheLine(d.ideal.published, d.found, d.line);
    PrefixOffTheLine(V.FramesOffered(offers), d.ideal.published, d.line);
    V.AcceptedAmongOffers(offers);
    StaysOffTheLine(V.Accepted(offers), V.FramesOffered(offers), d.line);
    PrefixOffTheLine(d.hands[c].frames, V.Accepted(offers), d.line);
  }

  /** Where a run of the device leads, seen from consumer c. */
  lemma ReachedSink(k: F.Config, kinds: seq<Kind>, actions: seq<Action>, d: State, c: nat)
    requires F.EnoughSlots(k) && |kinds| == k.n && Reaches(k, Init(k, kinds), actions, d) && c < |d.sinks|
    ensures c < |d.hands| && SinkOk(d.sinks[c], d.hands[c].frames) && OffTheLine(d.hands[c].frames, d.line)
  {
    hide *;
    InitOk(k, kinds);
    RunKeeps(k, Init(k, kinds), actions, d);
    SinksOf(k, d);
    SinkAt(d.hands, d.sinks, c);
    ForwardedOffTheLine(k, d, c);
  }

  lemma SinksOf(k: F.Config, d: State)
    requires Inv(k, d)
    ensures SinksOk(d.hands, d.sinks)
  {
    hide FanOk, HandsOk, FoundOk, SinksOk;
  }

  lemma SlotOf(table: seq<seq<R.Event>>, frames: seq<Frame>, i: nat)
    requires SinkOk(Rovers(table), frames) && i < |table|
    ensures R.FramesIn(table[i]) == frames
  {}

  /** From the serial line to the rovers: in any run of the device, with UART overflows, any
      interleaving and any socket answers, the current connection of each slot of the rover
      table carries with its deferred tail exactly the frames accepted for it, valid frames
      in the order of the line, which a splitter at the other end gets back; connections
      that ended did so up to one last, cut frame. */
  lemma FromTheLineToARover(k: F.Config, kinds: seq<Kind>, actions: seq<Action>, d: State, c: nat, i: nat, slot: R.Slot)
    requires F.EnoughSlots(k) && |kinds| == k.n && Reaches(k, Init(k, kinds), actions, d)
    requires c < |d.sinks| && d.sinks[c].Rovers? && i < |d.sinks[c].table| && R.Unused(slot)
    ensures var s := R.Run(slot, d.sinks[c].table[i]);
            s.link.phase == R.Streaming ==>
              (OffTheLine(s.conn.accepted, d.line) &&
               Resplits(s.conn.wire + R.Tail(s.link), s.conn.accepted, []))
    ensures var s := R.Run(slot, d.sinks[c].table[i]);
            forall j :: 0 <= j < |s.past| ==> OffTheLine(s.past[j].offered, d.line) && ReceivedWhole(s.past[j])
  {
    hide *;
    ReachedSink(k, kinds, actions, d, c);
    SlotOf(d.sinks[c].table, d.hands[c].frames, i);
    RoverOffTheLine(d.line, slot, d.sinks[c].table[i]);
  }

  lemma WorldsOf(worlds: seq<U.World>, frames: seq<Frame>)
    requires SinkOk(Uplink(worlds), frames)
    ensures U.Run(U.Init(NeverAsked), worlds).received == frames
  {}

  /** From the serial line to the uplinks: what each received is valid and in the order of
      the line; its current connection is read back as exactly the frames it was given, an
      earlier one up to its last. */
  lemma FromTheLineToAnUplink(k: F.Config, kinds: seq<Kind>, actions: seq<Action>, d: State, c: nat)
    requires F.EnoughSlots(k) && |kinds| == k.n && Reaches(k, Init(k, kinds), actions, d)
    requires c < |d.sinks| && d.sinks[c].Uplink?
    ensures var s := U.Run(U.Init(NeverAsked), d.sinks[c].worlds);
            && OffTheLine(s.received, d.line)
            && (s.connected ==> Resplits(s.conn.wire, s.conn.frames, []))
            && forall j :: 0 <= j < |s.past| ==> ReadsBack(s.past[j].wire, s.past[j].frames)
  {
    hide *;
    ReachedSink(k, kinds, actions, d, c);
    WorldsOf(d.sinks[c].worlds, d.hands[c].frames);
    FramesOffTheLine(d.hands[c].frames, d.line);
    UplinkReadsBack(NeverAsked, d.sinks[c].worlds);
  }
}

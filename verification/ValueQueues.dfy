/** The ideal fan-out: every consumer has its own bounded queue of frame values.

    A mailbox remembers all that was ever offered to its consumer; what it keeps is the
    queue, and the frame in the consumer's hands, read off that history. */
module ValueQueues {
  import opened Crc24
  import opened Sequences

  type Frame = seq<byte>

  datatype Offer = Offer(frame: Frame, taken: bool)

  datatype Mailbox = Mailbox(offers: seq<Offer>, received: nat, holding: bool)

  datatype Ideal = Ideal(published: seq<Frame>, boxes: seq<Mailbox>)

  /** What can be seen of a fan-out from outside. */
  datatype Event =
    | Published(frame: Frame)
    | Offered(c: nat, frame: Frame, taken: bool)
    | Received(c: nat)
    | SawByte(c: nat, i: nat, b: byte)
    | SawLength(c: nat, len: nat)
    | Released(c: nat)
    | PoolExhausted
    | ReleasedFreeSlot

  function Accepted(offers: seq<Offer>): (frames: seq<Frame>)
    ensures |frames| <= |offers|
  {
    if offers == [] then []
    else
      var last := offers[|offers| - 1];
      Accepted(offers[..|offers| - 1]) + if last.taken then [last.frame] else []
  }

  function Missed(offers: seq<Offer>): (n: nat)
    ensures n + |Accepted(offers)| == |offers|
  {
    if offers == [] then 0
    else Missed(offers[..|offers| - 1]) + if offers[|offers| - 1].taken then 0 else 1
  }

  lemma OneMoreOffer(offers: seq<Offer>, o: Offer)
    ensures Accepted(offers + [o]) == Accepted(offers) + if o.taken then [o.frame] else []
    ensures Missed(offers + [o]) == Missed(offers) + if o.taken then 0 else 1
  {
    assert (offers + [o])[..|offers|] == offers;
  }

  function Waiting(box: Mailbox): int {
    |Accepted(box.offers)| - box.received
  }

  ghost predicate HasFrame(box: Mailbox) {
    box.holding && 1 <= box.received <= |Accepted(box.offers)|
  }

  function InHand(box: Mailbox): Frame
    requires HasFrame(box)
  {
    Accepted(box.offers)[box.received - 1]
  }

  /** The rules of the ideal: frames are offered to each consumer in publication order, an
      offer is refused only by a full queue, and a consumer sees only the frame it took,
      oldest first. The two failures of the pool never happen. */
  ghost predicate Allowed(depth: nat, m: Ideal, e: Event) {
    match e
    case Published(_) => forall c :: 0 <= c < |m.boxes| ==> |m.boxes[c].offers| == |m.published|
    case Offered(c, frame, taken) =>
      && c < |m.boxes|
      && |m.boxes[c].offers| < |m.published|
      && m.published[|m.boxes[c].offers|] == frame
      && (taken <==> Waiting(m.boxes[c]) < depth)
    case Received(c) => c < |m.boxes| && !m.boxes[c].holding && Waiting(m.boxes[c]) > 0
    case SawByte(c, i, b) =>
      c < |m.boxes| && HasFrame(m.boxes[c]) && i < |InHand(m.boxes[c])| && InHand(m.boxes[c])[i] == b
    case SawLength(c, len) => c < |m.boxes| && HasFrame(m.boxes[c]) && |InHand(m.boxes[c])| == len
    case Released(c) => c < |m.boxes| && HasFrame(m.boxes[c])
    case PoolExhausted => false
    case ReleasedFreeSlot => false
  }

  function Apply(m: Ideal, e: Event): Ideal {
    match e
    case Published(frame) => m.(published := m.published + [frame])
    case Offered(c, frame, taken) =>
      if c < |m.boxes| then
        m.(boxes := m.boxes[c := m.boxes[c].(offers := m.boxes[c].offers + [Offer(frame, taken)])])
      else m
    case Received(c) =>
      if c < |m.boxes| then
        m.(boxes := m.boxes[c := m.boxes[c].(received := m.boxes[c].received + 1, holding := true)])
      else m
    case Released(c) =>
      if c < |m.boxes| then m.(boxes := m.boxes[c := m.boxes[c].(holding := false)]) else m
    case _ => m
  }

  /** The trace t is a run of the ideal from m. */
  ghost predicate Replays(depth: nat, m: Ideal, t: seq<Event>)
    decreases |t|
  {
    t == [] || (Allowed(depth, m, t[0]) && Replays(depth, Apply(m, t[0]), t[1..]))
  }

  function ApplyAll(m: Ideal, t: seq<Event>): Ideal
    decreases |t|
  {
    if t == [] then m else ApplyAll(Apply(m, t[0]), t[1..])
  }

  function Nothing(n: nat): Ideal {
    Ideal([], seq(n, i => Mailbox([], 0, false)))
  }

  lemma {:induction false} ReplaysConcat(depth: nat, m: Ideal, t: seq<Event>, u: seq<Event>)
    requires Replays(depth, m, t) && Replays(depth, ApplyAll(m, t), u)
    ensures Replays(depth, m, t + u) && ApplyAll(m, t + u) == ApplyAll(ApplyAll(m, t), u)
    decreases |t|
  {
    if t == [] {
      assert t + u == u;
    } else {
      assert (t + u)[1..] == t[1..] + u;
      ReplaysConcat(depth, Apply(m, t[0]), t[1..], u);
    }
  }

  lemma OneEventRun(depth: nat, m: Ideal, e: Event)
    requires Allowed(depth, m, e)
    ensures Replays(depth, m, [e]) && ApplyAll(m, [e]) == Apply(m, e)
  {
    var t := [e];
    assert t[1..] == [];
    assert ApplyAll(Apply(m, e), t[1..]) == Apply(m, e);
    hide Allowed, Apply;
  }

  /** A consumer has been offered the published frames in order, perhaps not yet the last
      ones, and holds back at most one queue of accepted frames. */
  ghost predicate BoxInOrder(depth: nat, published: seq<Frame>, box: Mailbox) {
    && FramesOffered(box.offers) <= published
    && 0 <= Waiting(box) <= depth
    && (box.holding ==> HasFrame(box))
  }

  ghost predicate InOrder(depth: nat, m: Ideal) {
    forall c :: 0 <= c < |m.boxes| ==> BoxInOrder(depth, m.published, m.boxes[c])
  }

  lemma OfferKeepsOrder(depth: nat, published: seq<Frame>, box: Mailbox, o: Offer)
    requires BoxInOrder(depth, published, box) && |box.offers| < |published|
    requires o.frame == published[|box.offers|] && (o.taken ==> Waiting(box) < depth)
    ensures BoxInOrder(depth, published, box.(offers := box.offers + [o]))
  {
    OneMoreOffer(box.offers, o);
    var fs := FramesOffered(box.offers + [o]);
    assert fs == FramesOffered(box.offers) + [o.frame];
    hide Accepted, FramesOffered;
    assert published[..|fs|] == published[..|box.offers|] + [o.frame];
  }

  lemma EventKeepsOrder(depth: nat, m: Ideal, e: Event)
    requires InOrder(depth, m) && Allowed(depth, m, e)
    ensures InOrder(depth, Apply(m, e))
  {
    match e
    case Offered(c, frame, taken) => OfferKeepsOrder(depth, m.published, m.boxes[c], Offer(frame, taken));
      hide FramesOffered, Accepted, BoxInOrder;
    case _ => hide Accepted, FramesOffered;
  }

  lemma {:induction false} RunKeepsOrder(depth: nat, m: Ideal, t: seq<Event>)
    requires InOrder(depth, m) && Replays(depth, m, t)
    ensures InOrder(depth, ApplyAll(m, t))
    decreases |t|
  {
    if t == [] {
    } else {
      EventKeepsOrder(depth, m, t[0]);
      RunKeepsOrder(depth, Apply(m, t[0]), t[1..]);
      hide InOrder;
    }
  }

  /** The accepted frames are the offered ones in order, less the refused. */
  lemma {:induction false} AcceptedAmongOffers(offers: seq<Offer>)
    ensures Subsequence(Accepted(offers), FramesOffered(offers))
  {
    if offers == [] {
      SubsequenceRefl(Accepted(offers));
      assert FramesOffered(offers) == [];
    } else {
      var front, last := offers[..|offers| - 1], offers[|offers| - 1];
      AcceptedAmongOffers(front);
      assert FramesOffered(offers) == FramesOffered(front) + [last.frame];
      SubsequenceSnoc(Accepted(front), FramesOffered(front), last.frame);
      assert Accepted(front) + [] == Accepted(front);
      hide Subsequence, FramesOffered;
    }
  }

  function FramesOffered(offers: seq<Offer>): (frames: seq<Frame>)
    ensures |frames| == |offers|
  {
    seq(|offers|, i requires 0 <= i < |offers| => offers[i].frame)
  }
}

/** What the frame splitter does, byte by byte, as functions on its live state.

    Between bytes the live state is the unfinished candidate `pending`: empty while hunting,
    one or two bytes while reading the header, three or more while reading the body. */
module SplitterSpec {
  import opened Crc24
  import opened Frames

  datatype Event =
    | Skipped(b: byte)       // not a sync byte, ignored while hunting
    | BadLength              // a sync byte given up because of the announced length
    | BadCrc                 // a sync byte given up because of the checksum
    | Published(frame: seq<byte>)

  /** `lost` counts replay bytes overwritten before they were read. */
  datatype Result = Result(pending: seq<byte>, trace: seq<Event>, lost: nat)

  function After(trace: seq<Event>, lost: nat, r: Result): Result {
    Result(r.pending, trace + r.trace, lost + r.lost)
  }

  predicate Live(p: seq<byte>) {
    p == [] || (p[0] == SYNC && Judge(p) == Partial)
  }

  /** One byte: `again` says the candidate in `buf` failed and all but its first byte must
      be replayed. */
  datatype Pushed = Pushed(buf: seq<byte>, events: seq<Event>, again: bool)

  function Push(p: seq<byte>, b: byte): (r: Pushed)
    requires Live(p)
    ensures !r.again ==> Live(r.buf) && |r.buf| <= |p| + 1
    ensures r.again ==> r.buf == p + [b] && |p| >= 2
  {
    if p == [] then
      if b == SYNC then Pushed([b], [], false) else Pushed([], [Skipped(b)], false)
    else
      var c := p + [b];
      match Judge(c)
      case Partial => Pushed(c, [], false)
      case Complete => Pushed([], [Published(c)], false)
      case RejectLength => Pushed(c, [BadLength], true)
      case RejectCrc => Pushed(c, [BadCrc], true)
  }

  /** Draining the replay buffer. A candidate that fails on the way overwrites the buffer
      with its own bytes, whatever was still unread. */
  function Replay(p: seq<byte>, r: seq<byte>): (res: Result)
    requires Live(p)
    ensures Live(res.pending)
    decreases |p| + |r|, |r|
  {
    if r == [] then Result(p, [], 0)
    else
      var x := Push(p, r[0]);
      if x.again then After(x.events, |r| - 1, Replay([], x.buf[1..]))
      else After(x.events, 0, Replay(x.buf, r[1..]))
  }

  /** One byte of a chunk, with every replay it triggers. */
  function Feed(p: seq<byte>, b: byte): (res: Result)
    requires Live(p)
    ensures Live(res.pending)
  {
    var x := Push(p, b);
    if x.again then After(x.events, 0, Replay([], x.buf[1..])) else Result(x.buf, x.events, 0)
  }

  /** A whole chunk: a plain fold of Feed. */
  function FeedAll(p: seq<byte>, data: seq<byte>): (res: Result)
    requires Live(p)
    ensures Live(res.pending)
    decreases |data|
  {
    if data == [] then Result(p, [], 0)
    else
      var x := Feed(p, data[0]);
      After(x.trace, x.lost, FeedAll(x.pending, data[1..]))
  }

  function Then(x: Result, data: seq<byte>): Result
    requires Live(x.pending)
  {
    After(x.trace, x.lost, FeedAll(x.pending, data))
  }

  /** Finish the replay first, then return to the chunk. */
  function Continue(p: seq<byte>, r: seq<byte>, data: seq<byte>): Result
    requires Live(p)
  {
    Then(Replay(p, r), data)
  }

  function PublishedFrames(trace: seq<Event>): seq<seq<byte>> {
    if trace == [] then []
    else
      var e := trace[|trace| - 1];
      PublishedFrames(trace[..|trace| - 1]) + if e.Published? then [e.frame] else []
  }

  function Count(trace: seq<Event>, e: Event): nat {
    if trace == [] then 0
    else Count(trace[..|trace| - 1], e) + if trace[|trace| - 1] == e then 1 else 0
  }

  lemma AfterAfter(t: seq<Event>, l: nat, t': seq<Event>, l': nat, r: Result)
    ensures After(t, l, After(t', l', r)) == After(t + t', l + l', r)
  {
    assert t + (t' + r.trace) == (t + t') + r.trace;
  }

  lemma ThenAfter(t: seq<Event>, l: nat, x: Result, d: seq<byte>)
    requires Live(x.pending)
    ensures Then(After(t, l, x), d) == After(t, l, Then(x, d))
  {
    AfterAfter(t, l, x.trace, x.lost, FeedAll(x.pending, d));
  }

  lemma NothingAfter(r: Result)
    ensures After([], 0, r) == r
  {
    assert [] + r.trace == r.trace;
  }

  lemma ContinueIsFeedAll(p: seq<byte>, d: seq<byte>)
    requires Live(p)
    ensures Continue(p, [], d) == FeedAll(p, d)
  {
    NothingAfter(FeedAll(p, d));
  }

  lemma AllRead(p: seq<byte>, t: seq<Event>, l: nat)
    requires Live(p)
    ensures After(t, l, Continue(p, [], [])) == Result(p, t, l)
  {
    assert t + ([] + []) == t;
  }

  /** Reading the next byte b, from the replay buffer or from the chunk, and acting on it is
      one step of the two-source loop; r and d stay unread in the two sources. */
  lemma ContinueSteps(p: seq<byte>, b: byte, fromReplay: bool, r: seq<byte>, d: seq<byte>)
    requires Live(p) && (!fromReplay ==> r == [])
    ensures
      var x := Push(p, b);
      (if fromReplay then Continue(p, [b] + r, d) else Continue(p, [], [b] + d))
      == if x.again then After(x.events, |r|, Continue([], x.buf[1..], d))
         else After(x.events, 0, Continue(x.buf, r, d))
  {
    var x := Push(p, b);
    var q := if x.again then Replay([], x.buf[1..]) else Replay(x.buf, r);
    if fromReplay {
      assert ([b] + r)[1..] == r;
      ThenAfter(x.events, if x.again then |r| else 0, q, d);
    } else {
      assert ([b] + d)[1..] == d;
      ContinueIsFeedAll(p, [b] + d);
      ThenAfter(x.events, 0, q, d);
      if !x.again {
        assert After(x.events, 0, q) == Feed(p, b) by { assert x.events + [] == x.events; }
      }
    }
  }
}

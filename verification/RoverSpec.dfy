/** One rover of the caster as values: what a forwarded frame does to the deferred tail and
    to the connection, and what a rover's byte stream looks like over whole runs. */
module RoverSpec {
  import opened Crc24
  import opened Sequences
  import opened Sockets

  const MAX_ROVERS: nat := 4

  datatype Phase = Empty | Handshake | Streaming

  /** `pending` is the filled part of the deferral buffer, sent up to `pos`. */
  datatype Link = Link(phase: Phase, pending: seq<byte>, pos: nat)

  const CLOSED := Link(Empty, [], 0)

  /** The outcome of one attempt: the link and the call counter after it, the bytes put on
      the wire, and whether the source's function returned true. */
  datatype Turn = Turn(link: Link, calls: nat, wire: seq<byte>, ok: bool)

  function Tail(link: Link): seq<byte> {
    if link.pos <= |link.pending| then link.pending[link.pos..] else []
  }

  function FlushPending(script: Script, t: nat, link: Link): Turn {
    if link.pos >= |link.pending| then Turn(Link(link.phase, [], 0), t, [], true)
    else
      var r := SendLoop(ROVER_STREAM_SEND_RETRIES, script, t, |link.pending|, link.pos, 0);
      var sent := link.pending[link.pos..r.offset];
      match r.status
      case Done => Turn(Link(link.phase, [], 0), r.calls, sent, true)
      case Blocked => Turn(link.(pos := r.offset), r.calls, sent, false)
      case Fatal => Turn(CLOSED, r.calls, sent, false)
  }

  /** The old tail first; if it is stuck the frame is dropped whole. A frame cut by a blocked
      socket is accepted and its rest deferred, one that could not start is dropped. */
  function SendFrame(script: Script, t: nat, link: Link, frame: seq<byte>): Turn {
    var a := FlushPending(script, t, link);
    if !a.ok then a
    else
      var r := SendLoop(ROVER_STREAM_SEND_RETRIES, script, a.calls, |frame|, 0, 0);
      var wire := a.wire + frame[..r.offset];
      match r.status
      case Done => Turn(a.link, r.calls, wire, true)
      case Fatal => Turn(CLOSED, r.calls, wire, false)
      case Blocked =>
        if a.link.phase != Streaming || r.offset == 0 then Turn(a.link, r.calls, wire, false)
        else Turn(Link(a.link.phase, frame[r.offset..], 0), r.calls, wire, true)
  }

  lemma FlushEmpties(script: Script, t: nat, link: Link)
    ensures var a := FlushPending(script, t, link);
            if a.ok then a.link == Link(link.phase, [], 0)
            else (a.link == CLOSED || (a.link.phase == link.phase && a.link.pending == link.pending))
  {
    hide SendLoop;
  }

  // ---- Runs ----

  /** A connection's history: its wire bytes since streaming began, the frames that reached
      it and those the caster accepted for it. */
  datatype Conn = Conn(wire: seq<byte>, offered: seq<seq<byte>>, accepted: seq<seq<byte>>)

  const FRESH := Conn([], [], [])

  datatype Slot = Slot(link: Link, script: Script, calls: nat, conn: Conn, past: seq<Conn>)

  datatype Event =
    | Connect(script: Script)
    | RequestServed          // the handshake succeeded
    | Frame(frame: seq<byte>)
    | Hangup                 // refused request, peer closed or receive error

  function Forward(slot: Slot, frame: seq<byte>): Slot {
    var x := SendFrame(slot.script, slot.calls, slot.link, frame);
    var conn := Conn(slot.conn.wire + x.wire, slot.conn.offered + [frame],
                     if x.ok then slot.conn.accepted + [frame] else slot.conn.accepted);
    Slot(x.link, slot.script, x.calls, conn, if x.link.phase == Empty then slot.past + [conn] else slot.past)
  }

  function Next(slot: Slot, e: Event): Slot {
    match e
    case Connect(script) =>
      if slot.link.phase == Empty then Slot(Link(Handshake, [], 0), script, 0, FRESH, slot.past) else slot
    case RequestServed =>
      if slot.link.phase == Handshake then slot.(link := slot.link.(phase := Streaming)) else slot
    case Frame(frame) => if slot.link.phase == Streaming then Forward(slot, frame) else slot
    case Hangup => if slot.link.phase == Empty then slot else slot.(link := CLOSED, past := slot.past + [slot.conn])
  }

  function Run(slot: Slot, events: seq<Event>): Slot {
    if events == [] then slot else Next(Run(slot, events[..|events| - 1]), events[|events| - 1])
  }

  /** A slot that has never been used. */
  predicate Unused(slot: Slot) {
    slot.link == CLOSED && slot.conn == FRESH && slot.past == []
  }

  /** A live stream: the wire and the deferred tail are the accepted frames, and the tail is
      a part of the last one only. */
  ghost predicate LiveStream(conn: Conn, tail: seq<byte>) {
    && conn.wire + tail == Flatten(conn.accepted)
    && Subsequence(conn.accepted, conn.offered)
    && (tail != [] ==> (conn.accepted != [] && |tail| < |conn.accepted[|conn.accepted| - 1]|))
  }

  /** A closed stream: whole frames among those offered, in order, only the last possibly
      cut. They are the accepted frames, and perhaps the frame on which the socket failed. */
  ghost predicate ClosedStream(conn: Conn) {
    exists fs: seq<seq<byte>>, k: nat ::
      && WholeThenCut(conn.wire, fs, k)
      && Subsequence(fs, conn.offered)
      && (fs == conn.accepted || (conn.offered != [] && fs == conn.accepted + [conn.offered[|conn.offered| - 1]]))
  }

  ghost predicate SlotOk(slot: Slot) {
    && slot.link.pos <= |slot.link.pending|
    && (slot.link.phase == Handshake ==> slot.conn == FRESH)
    && (slot.link.phase != Streaming ==> slot.link.pending == [])
    && (slot.link.phase == Streaming ==> LiveStream(slot.conn, Tail(slot.link)))
    && forall i :: 0 <= i < |slot.past| ==> ClosedStream(slot.past[i])
  }

  /** A stream cut while x bytes of its tail had gone out. */
  lemma CutTail(conn: Conn, tail: seq<byte>, x: nat)
    requires LiveStream(conn, tail) && x <= |tail|
    ensures ClosedStream(conn.(wire := conn.wire + tail[..x]))
  {
    CutSomewhere(conn.wire, tail, conn.accepted, x);
    var k: nat :| WholeThenCut(conn.wire + tail[..x], conn.accepted, k);
    hide Subsequence, Flatten, WholeThenCut;
  }

  lemma OfferMore(conn: Conn, frame: seq<byte>)
    requires Subsequence(conn.accepted, conn.offered)
    ensures Subsequence(conn.accepted, conn.offered + [frame])
    ensures Subsequence(conn.accepted + [frame], conn.offered + [frame])
  {
    SubsequenceSnoc(conn.accepted, conn.offered, frame);
  }

  /** A stream whose next frame failed after k bytes. */
  lemma CutFrame(conn: Conn, frame: seq<byte>, k: nat)
    requires LiveStream(conn, []) && k <= |frame|
    ensures ClosedStream(Conn(conn.wire + frame[..k], conn.offered + [frame], conn.accepted))
  {
    var fs := conn.accepted + [frame];
    OfferMore(conn, frame);
    assert conn.wire + [] == conn.wire && fs[..|fs| - 1] == conn.accepted;
    assert (conn.offered + [frame])[|conn.offered|] == frame;
    assert WholeThenCut(conn.wire + frame[..k], fs, k);
    hide Subsequence, Flatten;
  }

  /** A stream that took the first k bytes of a frame and deferred the rest. */
  lemma AcceptFrame(conn: Conn, frame: seq<byte>, k: nat)
    requires LiveStream(conn, []) && k <= |frame| && (k == 0 ==> frame == [])
    ensures LiveStream(Conn(conn.wire + frame[..k], conn.offered + [frame], conn.accepted + [frame]), frame[k..])
  {
    OfferMore(conn, frame);
    FlattenSnoc(conn.accepted, frame);
    assert conn.wire + [] == conn.wire;
    assert conn.wire + frame[..k] + frame[k..] == conn.wire + frame;
    hide Subsequence, Flatten;
  }

  lemma TailMoved(conn: Conn, tail: seq<byte>, x: nat)
    requires LiveStream(conn, tail) && x <= |tail|
    ensures LiveStream(conn.(wire := conn.wire + tail[..x]), tail[x..])
  {
    assert conn.wire + tail[..x] + tail[x..] == conn.wire + tail;
    hide Subsequence, Flatten;
  }

  lemma Ignored(conn: Conn, tail: seq<byte>, frame: seq<byte>)
    requires LiveStream(conn, tail)
    ensures LiveStream(conn.(offered := conn.offered + [frame]), tail)
  {
    OfferMore(conn, frame);
    hide Subsequence, Flatten;
  }

  ghost predicate FlushOutcome(a: Turn, conn: Conn) {
    && (a.ok ==> (a.link == Link(Streaming, [], 0) && LiveStream(conn, [])))
    && (!a.ok && a.link.phase == Streaming ==> (a.link.pos <= |a.link.pending| && LiveStream(conn, Tail(a.link))))
    && (a.link.phase != Streaming ==> (!a.ok && a.link == CLOSED && ClosedStream(conn)))
  }

  lemma FlushKeeps(script: Script, t: nat, link: Link, conn: Conn)
    requires link.phase == Streaming && link.pos <= |link.pending| && LiveStream(conn, Tail(link))
    ensures var a := FlushPending(script, t, link); FlushOutcome(a, conn.(wire := conn.wire + a.wire))
  {
    var a := FlushPending(script, t, link);
    var tail := Tail(link);
    if link.pos >= |link.pending| {
      assert conn.wire + [] == conn.wire && tail == [];
      hide LiveStream, ClosedStream;
    } else {
      var r := SendLoop(ROVER_STREAM_SEND_RETRIES, script, t, |link.pending|, link.pos, 0);
      var x := r.offset - link.pos;
      assert a.wire == tail[..x] && tail[x..] == link.pending[r.offset..];
      TailMoved(conn, tail, x);
      CutTail(conn, tail, x);
      hide LiveStream, ClosedStream, SendLoop;
    }
  }

  /** What a forwarded frame leaves: a live stream again, or a closed one. */
  ghost predicate FrameOutcome(x: Turn, conn: Conn) {
    && (x.link.phase == Streaming ==> (x.link.pos <= |x.link.pending| && LiveStream(conn, Tail(x.link))))
    && (x.link.phase != Streaming ==> (x.link == CLOSED && ClosedStream(conn)))
  }

  function After(conn: Conn, x: Turn, frame: seq<byte>): Conn {
    Conn(conn.wire + x.wire, conn.offered + [frame], if x.ok then conn.accepted + [frame] else conn.accepted)
  }

  /** What a link with nothing deferred does with a frame. */
  lemma SendFresh(script: Script, t: nat, frame: seq<byte>, r: Loop)
    requires r == SendLoop(ROVER_STREAM_SEND_RETRIES, script, t, |frame|, 0, 0)
    ensures SendFrame(script, t, Link(Streaming, [], 0), frame) ==
            Turn(if r.status == Fatal then CLOSED
                 else Link(Streaming, if r.status == Done || r.offset == 0 then [] else frame[r.offset..], 0),
                 r.calls, frame[..r.offset], r.status == Done || (r.status == Blocked && r.offset > 0))
  {
    var a := FlushPending(script, t, Link(Streaming, [], 0));
    assert a == Turn(Link(Streaming, [], 0), t, [], true) && [] + frame[..r.offset] == frame[..r.offset];
    hide SendLoop, FlushPending;
  }

  lemma TailAtStart(phase: Phase, pending: seq<byte>)
    ensures Tail(Link(phase, pending, 0)) == pending
  {}

  lemma FreshFrame(conn: Conn, frame: seq<byte>, script: Script, t: nat)
    requires LiveStream(conn, [])
    ensures var x := SendFrame(script, t, Link(Streaming, [], 0), frame); FrameOutcome(x, After(conn, x, frame))
  {
    var r := SendLoop(ROVER_STREAM_SEND_RETRIES, script, t, |frame|, 0, 0);
    var k := r.offset;
    hide SendLoop, SendFrame, LiveStream, ClosedStream, Tail;
    SendFresh(script, t, frame, r);
    TailAtStart(Streaming, []);
    TailAtStart(Streaming, frame[k..]);
    if r.status == Fatal {
      CutFrame(conn, frame, k);
    } else if r.status == Blocked && k == 0 {
      Ignored(conn, [], frame);
      assert conn.wire + frame[..k] == conn.wire;
    } else {
      AcceptFrame(conn, frame, k);
      assert r.status == Done ==> frame[k..] == [];
    }
  }

  /** A flushed link sends as a fresh one would. */
  lemma SendAfterFlush(script: Script, t: nat, link: Link, frame: seq<byte>)
    requires link.phase == Streaming
    ensures var a := FlushPending(script, t, link);
            a.ok ==>
              var x := SendFrame(script, a.calls, a.link, frame);
              SendFrame(script, t, link, frame) == x.(wire := a.wire + x.wire)
  {
    var a := FlushPending(script, t, link);
    if a.ok {
      var r := SendLoop(ROVER_STREAM_SEND_RETRIES, script, a.calls, |frame|, 0, 0);
      assert [] + frame[..r.offset] == frame[..r.offset];
    }
    hide SendLoop;
  }

  lemma SendFrameKeeps(script: Script, t: nat, link: Link, frame: seq<byte>, conn: Conn)
    requires link.phase == Streaming && link.pos <= |link.pending| && LiveStream(conn, Tail(link))
    ensures var x := SendFrame(script, t, link, frame); FrameOutcome(x, After(conn, x, frame))
  {
    var a := FlushPending(script, t, link);
    var x := SendFrame(script, t, link, frame);
    if a.ok {
      SendAfterFlush(script, t, link, frame);
      var y := SendFrame(script, a.calls, a.link, frame);
      hide *;
      FlushKeeps(script, t, link, conn);
      Flushed(a, conn.(wire := conn.wire + a.wire));
      FreshFrame(conn.(wire := conn.wire + a.wire), frame, script, a.calls);
      AfterTwo(conn, a, y, frame);
      SameLink(y, x, After(conn, x, frame));
    } else {
      assert x == a;
      var conn0 := conn.(offered := conn.offered + [frame]);
      assert After(conn, x, frame) == conn0.(wire := conn0.wire + a.wire);
      hide SendFrame, FlushPending, LiveStream, ClosedStream;
      Ignored(conn, Tail(link), frame);
      FlushKeeps(script, t, link, conn0);
    }
  }

  lemma Flushed(a: Turn, conn: Conn)
    requires a.ok && FlushOutcome(a, conn)
    ensures a.link == Link(Streaming, [], 0) && LiveStream(conn, [])
  {}

  lemma AfterTwo(conn: Conn, a: Turn, y: Turn, frame: seq<byte>)
    ensures After(conn.(wire := conn.wire + a.wire), y, frame) == After(conn, y.(wire := a.wire + y.wire), frame)
  {
    assert conn.wire + a.wire + y.wire == conn.wire + (a.wire + y.wire);
  }

  lemma SameLink(y: Turn, x: Turn, conn: Conn)
    requires FrameOutcome(y, conn) && x.link == y.link
    ensures FrameOutcome(x, conn)
  {}

  // ---- Every run ----

  lemma ForwardKeeps(slot: Slot, frame: seq<byte>)
    requires SlotOk(slot) && slot.link.phase == Streaming
    ensures SlotOk(Forward(slot, frame))
  {
    var x := SendFrame(slot.script, slot.calls, slot.link, frame);
    assert Forward(slot, frame).conn == After(slot.conn, x, frame);
    hide SendFrame, LiveStream, ClosedStream, Tail, After;
    SendFrameKeeps(slot.script, slot.calls, slot.link, frame, slot.conn);
  }

  lemma FreshIsLive()
    ensures LiveStream(FRESH, [])
  {
    SubsequenceRefl(FRESH.accepted);
    hide Subsequence;
  }

  lemma ServedKeeps(slot: Slot)
    requires SlotOk(slot) && slot.link.phase == Handshake
    ensures SlotOk(slot.(link := slot.link.(phase := Streaming)))
  {
    assert Tail(slot.link.(phase := Streaming)) == [];
    hide LiveStream, ClosedStream, Tail;
    FreshIsLive();
  }

  lemma HangupKeeps(slot: Slot)
    requires SlotOk(slot) && slot.link.phase != Empty
    ensures SlotOk(slot.(link := CLOSED, past := slot.past + [slot.conn]))
  {
    if slot.link.phase == Streaming {
      CutTail(slot.conn, Tail(slot.link), 0);
      assert slot.conn.wire + Tail(slot.link)[..0] == slot.conn.wire;
    } else {
      FreshIsClosed();
    }
    hide LiveStream, ClosedStream, Tail;
  }

  lemma NextKeeps(slot: Slot, e: Event)
    requires SlotOk(slot)
    ensures SlotOk(Next(slot, e))
  {
    hide LiveStream, ClosedStream, Tail, Forward;
    match e
    case Frame(frame) => if slot.link.phase == Streaming { ForwardKeeps(slot, frame); }
    case RequestServed => if slot.link.phase == Handshake { ServedKeeps(slot); }
    case Hangup => if slot.link.phase != Empty { HangupKeeps(slot); }
    case Connect(_) =>
  }

  lemma FreshIsClosed()
    ensures ClosedStream(FRESH)
  {
    SubsequenceRefl(FRESH.accepted);
    assert WholeThenCut(FRESH.wire, [], 0);
  }

  /** In every run, whatever the sockets answer: the connection being served is a live
      stream, and every connection that ended is whole frames with at most the last cut. */
  lemma {:induction false} EveryRoverStream(slot: Slot, events: seq<Event>)
    requires SlotOk(slot)
    ensures SlotOk(Run(slot, events))
  {
    if events != [] {
      EveryRoverStream(slot, events[..|events| - 1]);
      NextKeeps(Run(slot, events[..|events| - 1]), events[|events| - 1]);
      hide SlotOk, Next;
    }
  }

  /** All frames the caster forwarded. */
  function FramesIn(events: seq<Event>): seq<seq<byte>> {
    if events == [] then []
    else
      var last := events[|events| - 1];
      FramesIn(events[..|events| - 1]) + if last.Frame? then [last.frame] else []
  }

  predicate BlockAt(a: seq<seq<byte>>, all: seq<seq<byte>>, i: nat) {
    i + |a| <= |all| && a == all[i..i + |a|]
  }

  ghost predicate Block(a: seq<seq<byte>>, all: seq<seq<byte>>) {
    exists i: nat :: BlockAt(a, all, i)
  }

  /** Each connection was offered one uninterrupted stretch of the forwarded frames, the
      current one up to the latest. */
  ghost predicate Offered(slot: Slot, all: seq<seq<byte>>) {
    && (slot.link.phase == Handshake ==> slot.conn == FRESH)
    && (slot.link.phase == Streaming ==>
          (|slot.conn.offered| <= |all| && slot.conn.offered == all[|all| - |slot.conn.offered|..]))
    && forall i :: 0 <= i < |slot.past| ==> Block(slot.past[i].offered, all)
  }

  lemma BlockGrows(a: seq<seq<byte>>, all: seq<seq<byte>>, frame: seq<byte>)
    requires Block(a, all)
    ensures Block(a, all + [frame])
  {
    var i: nat :| BlockAt(a, all, i);
    assert a == (all + [frame])[i..i + |a|];
    assert BlockAt(a, all + [frame], i);
  }

  lemma SuffixIsBlock(a: seq<seq<byte>>, all: seq<seq<byte>>)
    requires |a| <= |all| && a == all[|all| - |a|..]
    ensures Block(a, all)
  {
    assert BlockAt(a, all, |all| - |a|);
  }

  lemma SuffixGrows(a: seq<seq<byte>>, all: seq<seq<byte>>, frame: seq<byte>)
    requires |a| <= |all| && a == all[|all| - |a|..]
    ensures a + [frame] == (all + [frame])[|all| - |a|..]
  {}

  lemma FrameOffered(slot: Slot, all: seq<seq<byte>>, frame: seq<byte>)
    requires Offered(slot, all)
    ensures Offered(Next(slot, Frame(frame)), all + [frame])
  {
    forall i | 0 <= i < |slot.past|
      ensures Block(slot.past[i].offered, all + [frame])
    {
      BlockGrows(slot.past[i].offered, all, frame);
    }
    if slot.link.phase == Streaming {
      SuffixGrows(slot.conn.offered, all, frame);
      SuffixIsBlock(slot.conn.offered + [frame], all + [frame]);
    }
    SendKeepsPhase(slot.script, slot.calls, slot.link, frame);
    hide Block, SendFrame;
  }

  lemma SendKeepsPhase(script: Script, t: nat, link: Link, frame: seq<byte>)
    ensures SendFrame(script, t, link, frame).link.phase in {link.phase, Empty}
  {
    hide SendLoop;
  }

  lemma {:induction false} EveryRoverOffered(slot: Slot, events: seq<Event>)
    requires Unused(slot)
    ensures Offered(Run(slot, events), FramesIn(events))
  {
    if events != [] {
      var before, e := events[..|events| - 1], events[|events| - 1];
      EveryRoverOffered(slot, before);
      var s, all := Run(slot, before), FramesIn(before);
      if e.Frame? {
        FrameOffered(s, all, e.frame);
      } else {
        if s.link.phase == Streaming { SuffixIsBlock(s.conn.offered, all); }
        if e.Hangup? { SuffixIsBlock([], all); }
        assert all + [] == all;
        hide Block, FramesIn;
        assert Offered(Next(s, e), all);
      }
    }
  }
}

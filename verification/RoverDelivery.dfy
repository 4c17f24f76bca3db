/** What a rover gets: every byte the socket takes, the deferred tail before anything else, and
    all of it as soon as the socket keeps up. */
module RoverDelivery {
  import opened Crc24
  import opened Sequences
  import opened Sockets
  import opened RoverSpec

  // ---- One frame ----

  /** n calls for the deferred tail: what they took is on the wire, the rest stays deferred,
      and the connection is closed exactly if the last of them failed. */
  ghost predicate TailSent(script: Script, t: nat, n: nat, link: Link, x: Turn) {
    var tail := Tail(link);
    var moved := Moved(script, t, n, |tail|);
    && Attempt(ROVER_STREAM_SEND_RETRIES, script, t, n, |tail|)
    && x.calls == t + n && x.wire == tail[..moved]
    && (x.ok <==> moved == |tail|)
    && (x.link == CLOSED <==> Failing(script, t, n))
    && (x.link != CLOSED ==> x.link.phase == link.phase && Tail(x.link) == tail[moved..])
  }

  lemma FlushSends(script: Script, t: nat, link: Link) returns (n: nat)
    requires link.phase == Streaming
    ensures TailSent(script, t, n, link, FlushPending(script, t, link))
    ensures FlushPending(script, t, link).ok ==> FlushPending(script, t, link).link == Link(Streaming, [], 0)
    ensures Tail(link) != [] ==> n > 0
  {
    if link.pos >= |link.pending| {
      n := 0;
      assert Moved(script, t, 0, 0) == 0;
      assert Attempt(ROVER_STREAM_SEND_RETRIES, script, t, 0, 0);
    } else {
      n := LoopIsAttempt(ROVER_STREAM_SEND_RETRIES, script, t, |link.pending|, link.pos);
      SomeCall(ROVER_STREAM_SEND_RETRIES, script, t, n, |link.pending| - link.pos);
      hide SendLoop, Attempt, Moved, Failing, Stuck;
      var r := SendLoop(ROVER_STREAM_SEND_RETRIES, script, t, |link.pending|, link.pos, 0);
      assert link.pending[link.pos..][..r.offset - link.pos] == link.pending[link.pos..r.offset];
      assert link.pending[link.pos..][r.offset - link.pos..] == link.pending[r.offset..];
    }
  }

  /** m calls for the tail and, if it all went, n calls for the frame. What they took is on
      the wire, in that order. A frame is accepted if any of it went, and its rest deferred;
      the connection is closed exactly if the last call failed. */
  ghost predicate FrameSent(script: Script, t: nat, m: nat, n: nat, link: Link, frame: seq<byte>, x: Turn) {
    var tail := Tail(link);
    var a, b := Moved(script, t, m, |tail|), Moved(script, t + m, n, |frame|);
    && Attempt(ROVER_STREAM_SEND_RETRIES, script, t, m, |tail|)
    && x.calls == t + m + n
    && (x.link != CLOSED ==> x.link.phase == Streaming)
    && (a < |tail| ==>
          (n == 0 && !x.ok && x.wire == tail[..a] && (x.link == CLOSED <==> Failing(script, t, m))
           && (x.link != CLOSED ==> Tail(x.link) == tail[a..])))
    && (a == |tail| ==>
          (Attempt(ROVER_STREAM_SEND_RETRIES, script, t + m, n, |frame|) && x.wire == tail + frame[..b]
           && (x.ok <==> !Failing(script, t + m, n) && (b > 0 || frame == []))
           && (x.link == CLOSED <==> Failing(script, t + m, n))
           && (x.link != CLOSED ==> Tail(x.link) == if x.ok then frame[b..] else [])))
  }

  lemma FreshSends(script: Script, t: nat, frame: seq<byte>) returns (n: nat)
    ensures FrameSent(script, t, 0, n, Link(Streaming, [], 0), frame,
                      SendFrame(script, t, Link(Streaming, [], 0), frame))
  {
    n := LoopIsAttempt(ROVER_STREAM_SEND_RETRIES, script, t, |frame|, 0);
    NothingToSend(script, t);
    var r := SendLoop(ROVER_STREAM_SEND_RETRIES, script, t, |frame|, 0, 0);
    hide SendLoop, Attempt, Moved, Failing, Stuck;
    assert [] + frame[..r.offset] == frame[..r.offset];
    assert frame[|frame|..] == [] && frame[0..] == frame;
  }

  lemma NothingToSend(script: Script, t: nat)
    ensures Moved(script, t, 0, 0) == 0 && Attempt(ROVER_STREAM_SEND_RETRIES, script, t, 0, 0)
  {}

  lemma AfterTail(script: Script, t: nat, m: nat, n: nat, link: Link, frame: seq<byte>, a: Turn, y: Turn, x: Turn)
    requires TailSent(script, t, m, link, a) && a.ok
    requires FrameSent(script, t + m, 0, n, Link(Streaming, [], 0), frame, y) && y.calls == t + m + n
    requires x == Turn(y.link, y.calls, a.wire + y.wire, y.ok)
    ensures FrameSent(script, t, m, n, link, frame, x)
  {
    NothingToSend(script, t + m);
    var b := Moved(script, t + m, n, |frame|);
    assert Tail(link)[..|Tail(link)|] == Tail(link) && [] + frame[..b] == frame[..b];
    hide Attempt, Moved, Failing;
  }

  lemma TailLeft(script: Script, t: nat, m: nat, link: Link, frame: seq<byte>, a: Turn)
    requires TailSent(script, t, m, link, a) && !a.ok && link.phase == Streaming
    ensures FrameSent(script, t, m, 0, link, frame, a)
  {
    hide Attempt, Moved, Failing;
  }

  /** What one forwarded frame does, in terms of the socket's answers alone. */
  lemma FrameSends(script: Script, t: nat, link: Link, frame: seq<byte>) returns (m: nat, n: nat)
    requires link.phase == Streaming
    ensures FrameSent(script, t, m, n, link, frame, SendFrame(script, t, link, frame))
    ensures Tail(link) != [] ==> m > 0
  {
    hide *;
    var a := FlushPending(script, t, link);
    m := FlushSends(script, t, link);
    TailCalls(script, t, m, link, a);
    SendAfterFlush(script, t, link, frame);
    TailFirst(script, t, link, frame);
    if a.ok {
      n := FreshSends(script, t + m, frame);
      var y := SendFrame(script, t + m, Link(Streaming, [], 0), frame);
      FrameCalls(script, t + m, 0, n, Link(Streaming, [], 0), frame, y);
      AfterTail(script, t, m, n, link, frame, a, y, SendFrame(script, t, link, frame));
    } else {
      n := 0;
      TailLeft(script, t, m, link, frame, a);
    }
  }

  lemma TailFirst(script: Script, t: nat, link: Link, frame: seq<byte>)
    ensures !FlushPending(script, t, link).ok ==> SendFrame(script, t, link, frame) == FlushPending(script, t, link)
  {
    hide SendLoop, FlushPending;
  }

  lemma TailCalls(script: Script, t: nat, n: nat, link: Link, x: Turn)
    requires TailSent(script, t, n, link, x)
    ensures x.calls == t + n
  {
    hide Attempt, Moved, Failing;
  }

  lemma FrameCalls(script: Script, t: nat, m: nat, n: nat, link: Link, frame: seq<byte>, x: Turn)
    requires FrameSent(script, t, m, n, link, frame, x)
    ensures x.calls == t + m + n
  {
    hide Attempt, Moved, Failing;
  }

  /** A frame refused by a connection that goes on met a socket that blocked for the whole
      retry limit. */
  lemma RefusedByBlocking(script: Script, t: nat, link: Link, frame: seq<byte>)
    requires link.phase == Streaming
    ensures var x := SendFrame(script, t, link, frame);
            !x.ok && x.link != CLOSED ==>
              x.calls > t + ROVER_STREAM_SEND_RETRIES
              && BlockedRun(script, x.calls - ROVER_STREAM_SEND_RETRIES - 1, x.calls)
  {
    var x := SendFrame(script, t, link, frame);
    var m, n := FrameSends(script, t, link, frame);
    hide *;
    if !x.ok && x.link != CLOSED {
      RefusedMeans(script, t, m, n, link, frame, x);
    }
  }

  lemma RefusedMeans(script: Script, t: nat, m: nat, n: nat, link: Link, frame: seq<byte>, x: Turn)
    requires FrameSent(script, t, m, n, link, frame, x) && !x.ok && x.link != CLOSED
    ensures x.calls > t + ROVER_STREAM_SEND_RETRIES
    ensures BlockedRun(script, x.calls - ROVER_STREAM_SEND_RETRIES - 1, x.calls)
  {
    if n > 0 {
      StoppedBlocked(script, t + m, n, |frame|);
    } else {
      StoppedBlocked(script, t, m, |Tail(link)|);
    }
    hide Moved, BlockedRun, Failing, Attempt;
  }

  lemma StoppedBlocked(script: Script, t: nat, n: nat, room: nat)
    requires Attempt(ROVER_STREAM_SEND_RETRIES, script, t, n, room)
    ensures Moved(script, t, n, room) == room || Failing(script, t, n)
         || (n > ROVER_STREAM_SEND_RETRIES && BlockedRun(script, t + n - ROVER_STREAM_SEND_RETRIES - 1, t + n))
    ensures n == 0 <==> room == 0
  {
    assert Moved(script, t, 0, room) == 0;
    assert room == 0 ==> Ends(ROVER_STREAM_SEND_RETRIES, script, t, 0, room);
    hide Moved, BlockedRun;
  }

  // ---- A rover that keeps up ----

  /** Whatever was deferred, a socket that keeps up takes the tail and the frame. */
  lemma KeenFrame(script: Script, t: nat, link: Link, frame: seq<byte>)
    requires link.phase == Streaming && KeenFrom(ROVER_STREAM_SEND_RETRIES, script, t)
    ensures var x := SendFrame(script, t, link, frame);
            && x.ok && x.link == Link(Streaming, [], 0) && x.wire == Tail(link) + frame
            && KeenFrom(ROVER_STREAM_SEND_RETRIES, script, x.calls)
  {
    hide *;
    var a := FlushPending(script, t, link);
    KeenTail(script, t, link);
    KeenFresh(script, a.calls, frame);
    SendAfterFlush(script, t, link, frame);
  }

  lemma KeenTail(script: Script, t: nat, link: Link)
    requires link.phase == Streaming && KeenFrom(ROVER_STREAM_SEND_RETRIES, script, t)
    ensures var a := FlushPending(script, t, link);
            && a.ok && a.link == Link(Streaming, [], 0) && a.wire == Tail(link)
            && KeenFrom(ROVER_STREAM_SEND_RETRIES, script, a.calls)
  {
    hide SendLoop, KeenFrom;
    if link.pos < |link.pending| {
      KeenSends(ROVER_STREAM_SEND_RETRIES, script, t, |link.pending|, link.pos);
      assert link.pending[link.pos..|link.pending|] == link.pending[link.pos..];
    }
  }

  lemma KeenFresh(script: Script, t: nat, frame: seq<byte>)
    requires KeenFrom(ROVER_STREAM_SEND_RETRIES, script, t)
    ensures var link := Link(Streaming, [], 0); var x := SendFrame(script, t, link, frame);
            && x.ok && x.link == link && x.wire == frame
            && KeenFrom(ROVER_STREAM_SEND_RETRIES, script, x.calls)
  {
    hide SendLoop, KeenFrom;
    KeenSends(ROVER_STREAM_SEND_RETRIES, script, t, |frame|, 0);
    assert [] + frame[..|frame|] == frame;
  }

  /** The wire and the deferred tail are the accepted frames, and the socket keeps up from now on. */
  ghost predicate KeepsUp(s: Slot) {
    && s.link.phase == Streaming && KeenFrom(ROVER_STREAM_SEND_RETRIES, s.script, s.calls)
    && s.conn.wire + Tail(s.link) == Flatten(s.conn.accepted)
  }

  /** Nothing is deferred either. */
  ghost predicate UpToDate(s: Slot) {
    KeepsUp(s) && s.link == Link(Streaming, [], 0) && s.conn.wire == Flatten(s.conn.accepted)
  }

  lemma KeenNext(s: Slot, e: Event)
    requires KeepsUp(s) && e != Hangup
    ensures var s' := Next(s, e);
            && KeepsUp(s') && s'.past == s.past && s'.script == s.script
            && s'.conn.accepted == s.conn.accepted + (if e.Frame? then [e.frame] else [])
            && (e.Frame? || UpToDate(s) ==> UpToDate(s'))
  {
    assert s.conn.accepted + [] == s.conn.accepted;
    hide SendFrame, Flatten, KeenFrom;
    if e.Frame? {
      KeenFrame(s.script, s.calls, s.link, e.frame);
      FlattenSnoc(s.conn.accepted, e.frame);
      TailThenFrame(s.conn.wire, Tail(s.link), e.frame);
    }
  }

  lemma TailThenFrame(wire: seq<byte>, tail: seq<byte>, frame: seq<byte>)
    ensures wire + (tail + frame) == wire + tail + frame && wire + (tail + frame) + [] == wire + tail + frame
  {}

  ghost predicate NoHangup(events: seq<Event>) {
    forall j :: 0 <= j < |events| ==> events[j] != Hangup
  }

  /** A streaming rover that was cut short, whatever its deferred tail, has every accepted
      frame whole on its wire from the next frame on, once its socket keeps up; and every
      frame is accepted. */
  lemma {:induction false} KeenAgain(s: Slot, events: seq<Event>)
    requires KeepsUp(s) && NoHangup(events)
    ensures var s' := Run(s, events);
            && KeepsUp(s') && s'.past == s.past && s'.script == s.script
            && s'.conn.accepted == s.conn.accepted + FramesIn(events)
            && (UpToDate(s) || FramesIn(events) != [] ==> UpToDate(s'))
  {
    hide KeepsUp, UpToDate, Next;
    if events == [] {
      assert s.conn.accepted + [] == s.conn.accepted;
    } else {
      var n := |events| - 1;
      KeenAgain(s, events[..n]);
      KeenNext(Run(s, events[..n]), events[n]);
    }
  }

  /** The same for any state that a run of the caster leads to. */
  lemma CutRoverRecovers(slot: Slot, before: seq<Event>, events: seq<Event>)
    requires Unused(slot) && NoHangup(events)
    requires var s := Run(slot, before);
             s.link.phase == Streaming && KeenFrom(ROVER_STREAM_SEND_RETRIES, s.script, s.calls)
    ensures var s := Run(slot, before); var s' := Run(s, events);
            && s'.conn.accepted == s.conn.accepted + FramesIn(events) && s'.past == s.past
            && (FramesIn(events) != [] ==>
                  s'.link == Link(Streaming, [], 0) && s'.conn.wire == Flatten(s'.conn.accepted))
  {
    var s := Run(slot, before);
    UnusedOk(slot);
    EveryRoverStream(slot, before);
    StreamKeepsUp(s);
    hide *;
    KeenAgain(s, events);
    if FramesIn(events) != [] { UpToDateMeans(Run(s, events)); }
  }

  lemma UnusedOk(slot: Slot)
    requires Unused(slot)
    ensures SlotOk(slot)
  {}

  lemma StreamKeepsUp(s: Slot)
    requires SlotOk(s) && s.link.phase == Streaming && KeenFrom(ROVER_STREAM_SEND_RETRIES, s.script, s.calls)
    ensures KeepsUp(s)
  {
    hide Flatten, Subsequence, KeenFrom, ClosedStream;
  }

  lemma UpToDateMeans(s: Slot)
    requires UpToDate(s)
    ensures s.link == Link(Streaming, [], 0) && s.conn.wire == Flatten(s.conn.accepted)
  {
    hide KeepsUp, Flatten;
  }

  /** A first connection, served, that never hangs up. */
  ghost predicate Stays(script: Script, events: seq<Event>) {
    |events| >= 2 && events[0] == Connect(script) && events[1] == RequestServed && NoHangup(events[2..])
  }

  /** A socket that keeps up from the start gets every frame, whole and in order. */
  lemma KeenRover(slot: Slot, script: Script, events: seq<Event>)
    requires Unused(slot) && Stays(script, events) && Keen(ROVER_STREAM_SEND_RETRIES, script)
    ensures var s := Run(slot, events);
            && s.script == script && s.past == [] && s.conn.accepted == FramesIn(events)
            && s.link == Link(Streaming, [], 0) && s.conn.wire == Flatten(FramesIn(events))
  {
    hide Keen, Next, KeepsUp, Run, FramesIn, UpToDate, Flatten;
    var front, rest := events[..2], events[2..];
    KeenBegins(slot, script, front);
    var s := Run(slot, front);
    UpToDateKeeps(s);
    KeenAgain(s, rest);
    assert events == front + rest;
    RunOn(slot, front, rest);
    UpToDateMeans(Run(s, rest));
    assert [] + FramesIn(rest) == FramesIn(rest);
  }

  lemma UpToDateKeeps(s: Slot)
    requires UpToDate(s)
    ensures KeepsUp(s)
  {}

  lemma {:induction false} RunOn(slot: Slot, a: seq<Event>, b: seq<Event>)
    ensures Run(slot, a + b) == Run(Run(slot, a), b) && FramesIn(a + b) == FramesIn(a) + FramesIn(b)
  {
    hide Next;
    if b == [] {
      assert a + b == a && FramesIn(a) + [] == FramesIn(a);
    } else {
      var n := |b| - 1;
      RunOn(slot, a, b[..n]);
      assert (a + b)[..|a + b| - 1] == a + b[..n] && (a + b)[|a + b| - 1] == b[n];
    }
  }

  lemma KeenBegins(slot: Slot, script: Script, events: seq<Event>)
    requires Unused(slot) && |events| == 2 && events[0] == Connect(script) && events[1] == RequestServed
    requires Keen(ROVER_STREAM_SEND_RETRIES, script)
    ensures var s := Run(slot, events);
            UpToDate(s) && s.script == script && s.past == [] && s.conn.accepted == []
    ensures FramesIn(events) == []
  {
    assert events[..1][..0] == [] && events[..1][0] == events[0];
    assert Run(slot, events[..1]) == Next(Run(slot, []), events[0]);
    assert FramesIn(events[..1]) == [] && FramesIn(events) == [];
  }
}

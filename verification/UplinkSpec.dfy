/** An NTRIP uplink as values: each pass of its task connects if it must, forwards at most one
    frame, and looks whether the peer is still there. */
module UplinkSpec {
  import opened Crc24
  import opened Sequences
  import opened Sockets

  const NTRIP_RECONNECT_MS_MIN: nat := 2000
  const NTRIP_RECONNECT_MS_MAX: nat := 60000

  /** A connection's history: its wire bytes after the handshake, and the frames it was
      given. */
  datatype Conn = Conn(wire: seq<byte>, frames: seq<seq<byte>>)

  const NEW := Conn([], [])

  /** `waits` are all waits after failed connects, `received` all frames taken from the queue,
      `released` how many references were given back. */
  datatype State = State(connected: bool, script: Script, calls: nat, delay: nat,
                         conn: Conn, past: seq<Conn>, waits: seq<nat>, received: seq<seq<byte>>, released: nat)

  /** The outside world in one pass: the outcome of a connect, a frame if one arrives in
      time, and whether the peer turns out to be gone. */
  datatype World = World(connect: Option<Script>, frame: Option<seq<byte>>, gone: bool)

  function Init(script: Script): State {
    State(false, script, 0, NTRIP_RECONNECT_MS_MIN, NEW, [], [], [], 0)
  }

  function Longer(delay: nat): nat {
    if delay * 2 < NTRIP_RECONNECT_MS_MAX then delay * 2 else NTRIP_RECONNECT_MS_MAX
  }

  function Close(s: State): State {
    s.(connected := false, past := s.past + [s.conn], conn := NEW)
  }

  function Forward(s: State, frame: seq<byte>): State {
    var r := SendLoop(NTRIP_SEND_RETRY_LIMIT, s.script, s.calls, |frame|, 0, 0);
    var s' := s.(calls := r.calls, conn := Conn(s.conn.wire + frame[..r.offset], s.conn.frames + [frame]),
                 received := s.received + [frame], released := s.released + 1);
    if r.status == Done then s' else Close(s')
  }

  /** The part of a pass with a connection. */
  function Serve(s: State, w: World): State {
    var s1 := if w.frame.Some? then Forward(s, w.frame.value) else s;
    if s1.connected && w.gone then Close(s1) else s1
  }

  function Pass(s: State, w: World): State {
    if s.connected then Serve(s, w)
    else
      match w.connect
      case None => s.(waits := s.waits + [s.delay], delay := Longer(s.delay))
      case Some(script) =>
        Serve(s.(connected := true, script := script, calls := 0, conn := NEW, delay := NTRIP_RECONNECT_MS_MIN), w)
  }

  function Run(s: State, worlds: seq<World>): State {
    if worlds == [] then s else Pass(Run(s, worlds[..|worlds| - 1]), worlds[|worlds| - 1])
  }

  // ---- Back-off ----

  /** The wait after the k-th failure in a row, counting from 0. */
  function Backoff(k: nat): nat {
    Min(NTRIP_RECONNECT_MS_MIN * Pow2(k), NTRIP_RECONNECT_MS_MAX)
  }

  lemma LongerIsBackoff(k: nat)
    ensures Longer(Backoff(k)) == Backoff(k + 1)
  {
    assert NTRIP_RECONNECT_MS_MIN * Pow2(k + 1) == 2 * (NTRIP_RECONNECT_MS_MIN * Pow2(k));
  }

  predicate Connected(script: Script, worlds: seq<World>) {
    Run(Init(script), worlds).connected
  }

  /** The failed connects since the last successful one. */
  function Failures(script: Script, worlds: seq<World>): nat {
    if worlds == [] then 0
    else
      var front, last := worlds[..|worlds| - 1], worlds[|worlds| - 1];
      if Connected(script, front) then Failures(script, front)
      else if last.connect.Some? then 0
      else Failures(script, front) + 1
  }

  /** The waits the back-off prescribes: one after each failed connect, by its number in a row. */
  function DueWaits(script: Script, worlds: seq<World>): seq<nat> {
    if worlds == [] then []
    else
      var front, last := worlds[..|worlds| - 1], worlds[|worlds| - 1];
      DueWaits(script, front)
      + if !Connected(script, front) && last.connect.None? then [Backoff(Failures(script, front))] else []
  }

  ghost predicate BackoffOk(s: State, failures: nat, due: seq<nat>) {
    s.delay == Backoff(failures) && s.waits == due && (s.connected ==> failures == 0)
  }

  lemma PassWaits(s: State, w: World, failures: nat, due: seq<nat>)
    requires BackoffOk(s, failures, due)
    ensures BackoffOk(Pass(s, w),
                      if s.connected then failures else if w.connect.Some? then 0 else failures + 1,
                      due + if !s.connected && w.connect.None? then [Backoff(failures)] else [])
  {
    assert Backoff(0) == NTRIP_RECONNECT_MS_MIN && due + [] == due;
    LongerIsBackoff(failures);
    hide Backoff, Longer, SendLoop;
  }

  // ---- Streams ----

  ghost predicate Cut(conn: Conn) {
    exists k: nat :: WholeThenCut(conn.wire, conn.frames, k)
  }

  function FramesOf(past: seq<Conn>): seq<seq<seq<byte>>> {
    seq(|past|, i requires 0 <= i < |past| => past[i].frames)
  }

  /** While connected the wire is whole frames; a connection that ended may have cut the
      last. The frames of all connections, in order, are those received, and each received
      frame was released once. */
  ghost predicate StreamsOk(s: State) {
    && (s.connected ==> s.conn.wire == Flatten(s.conn.frames))
    && (!s.connected ==> s.conn == NEW)
    && (forall i :: 0 <= i < |s.past| ==> Cut(s.past[i]))
    && s.received == Flatten(FramesOf(s.past)) + s.conn.frames
    && s.released == |s.received|
  }

  lemma OneMorePast(past: seq<Conn>, conn: Conn)
    ensures Flatten(FramesOf(past + [conn])) == Flatten(FramesOf(past)) + conn.frames
  {
    assert FramesOf(past + [conn]) == FramesOf(past) + [conn.frames];
    FlattenSnoc(FramesOf(past), conn.frames);
  }

  lemma WholeIsCut(conn: Conn)
    requires conn.wire == Flatten(conn.frames)
    ensures Cut(conn)
  {
    assert conn.wire + [] == conn.wire;
    CutSomewhere(conn.wire, [], conn.frames, 0);
  }

  lemma CutInLast(conn: Conn, frame: seq<byte>, k: nat)
    requires conn.wire == Flatten(conn.frames) && k <= |frame|
    ensures Cut(Conn(conn.wire + frame[..k], conn.frames + [frame]))
  {
    var fs := conn.frames + [frame];
    assert fs[..|fs| - 1] == conn.frames;
    assert WholeThenCut(conn.wire + frame[..k], fs, k);
    hide Flatten;
  }

  lemma CloseOk(s: State)
    requires s.received == Flatten(FramesOf(s.past)) + s.conn.frames && s.released == |s.received|
    requires (forall i :: 0 <= i < |s.past| ==> Cut(s.past[i])) && Cut(s.conn)
    ensures StreamsOk(Close(s))
  {
    OneMorePast(s.past, s.conn);
    assert s.received + [] == s.received;
    hide Flatten, FramesOf, Cut;
  }

  lemma ForwardOk(s: State, frame: seq<byte>)
    requires StreamsOk(s) && s.connected
    ensures StreamsOk(Forward(s, frame))
  {
    var r := SendLoop(NTRIP_SEND_RETRY_LIMIT, s.script, s.calls, |frame|, 0, 0);
    var conn := Conn(s.conn.wire + frame[..r.offset], s.conn.frames + [frame]);
    var s' := s.(calls := r.calls, conn := conn, received := s.received + [frame], released := s.released + 1);
    assert s'.received == Flatten(FramesOf(s.past)) + (s.conn.frames + [frame]);
    CutInLast(s.conn, frame, r.offset);
    CloseOk(s');
    FlattenSnoc(s.conn.frames, frame);
    assert r.offset == |frame| ==> frame[..r.offset] == frame;
    hide Flatten, FramesOf, Cut, SendLoop;
  }

  lemma PassOk(s: State, w: World)
    requires StreamsOk(s)
    ensures StreamsOk(Pass(s, w))
  {
    var s0 := if s.connected || w.connect.None? then s
      else s.(connected := true, script := w.connect.value, calls := 0, conn := NEW, delay := NTRIP_RECONNECT_MS_MIN);
    assert Flatten(NEW.frames) == [];
    assert StreamsOk(s0);
    if s0.connected {
      if w.frame.Some? { ForwardOk(s0, w.frame.value); }
      var s1 := if w.frame.Some? then Forward(s0, w.frame.value) else s0;
      if s1.connected {
        WholeIsCut(s1.conn);
        CloseOk(s1);
      }
    }
    hide Flatten, FramesOf, Cut, Longer, SendLoop;
  }

  /** Every run of an uplink: its streams, and every wait so far is the one due by the number
      of connects that failed in a row before it. */
  lemma {:induction false} EveryUplinkRun(script: Script, worlds: seq<World>)
    ensures var s := Run(Init(script), worlds);
            && StreamsOk(s) && s.waits == DueWaits(script, worlds) && s.delay == Backoff(Failures(script, worlds))
            && (s.connected ==> s.delay == NTRIP_RECONNECT_MS_MIN)
  {
    RunStreams(script, worlds);
    RunWaits(script, worlds);
    assert Backoff(0) == NTRIP_RECONNECT_MS_MIN;
    hide StreamsOk, Backoff, Run, DueWaits, Failures;
  }

  lemma {:induction false} RunStreams(script: Script, worlds: seq<World>)
    ensures StreamsOk(Run(Init(script), worlds))
  {
    if worlds == [] {
      assert FramesOf([]) == [];
    } else {
      RunStreams(script, worlds[..|worlds| - 1]);
      PassOk(Run(Init(script), worlds[..|worlds| - 1]), worlds[|worlds| - 1]);
      hide Pass, StreamsOk;
    }
  }

  lemma {:induction false} RunWaits(script: Script, worlds: seq<World>)
    ensures BackoffOk(Run(Init(script), worlds), Failures(script, worlds), DueWaits(script, worlds))
  {
    if worlds == [] {
      assert Backoff(0) == NTRIP_RECONNECT_MS_MIN;
    } else {
      var front, last := worlds[..|worlds| - 1], worlds[|worlds| - 1];
      RunWaits(script, front);
      PassWaits(Run(Init(script), front), last, Failures(script, front), DueWaits(script, front));
      hide Pass, BackoffOk, Backoff;
    }
  }

  // ---- One pass ----

  /** The connection a pass works with: the current one, or the one it has just made. */
  function Serving(s: State, w: World): State
    requires s.connected || w.connect.Some?
  {
    if s.connected then s else s.(script := w.connect.value, calls := 0, conn := NEW)
  }

  /** What a pass with a connection does, in terms of the socket's answers alone: n calls for
      the frame, what they took is on the wire, and the connection goes on exactly if all of
      the frame went and the peer is still there. */
  ghost predicate Passed(s: State, w: World, n: nat, s': State)
    requires s.connected || w.connect.Some?
  {
    var x := Serving(s, w);
    var frame := if w.frame.Some? then w.frame.value else [];
    var moved := Moved(x.script, x.calls, n, |frame|);
    var frames := if w.frame.Some? then [frame] else [];
    var conn := Conn(x.conn.wire + frame[..moved], x.conn.frames + frames);
    && Attempt(NTRIP_SEND_RETRY_LIMIT, x.script, x.calls, n, |frame|)
    && s'.received == s.received + frames && s'.released == s.released + |frames|
    && (s'.connected <==> moved == |frame| && !w.gone)
    && (s'.connected ==> s'.conn == conn && s'.past == s.past && s'.script == x.script && s'.calls == x.calls + n)
    && (!s'.connected ==> s'.conn == NEW && s'.past == s.past + [conn])
  }

  lemma PassSends(s: State, w: World) returns (n: nat)
    requires s.connected || w.connect.Some?
    ensures Passed(s, w, n, Pass(s, w)) && (w.frame.Some? && w.frame.value != [] ==> n > 0)
  {
    var x := Serving(s, w);
    var frame := if w.frame.Some? then w.frame.value else [];
    n := LoopIsAttempt(NTRIP_SEND_RETRY_LIMIT, x.script, x.calls, |frame|, 0);
    if frame != [] { SomeCall(NTRIP_SEND_RETRY_LIMIT, x.script, x.calls, n, |frame|); }
    NothingSent(x.script, x.calls, n);
    assert x.conn.wire + [] == x.conn.wire && x.conn.frames + [] == x.conn.frames && s.received + [] == s.received;
    hide SendLoop, Attempt, Moved, Failing, Stuck;
  }

  lemma NothingSent(script: Script, t: nat, n: nat)
    ensures SendLoop(NTRIP_SEND_RETRY_LIMIT, script, t, 0, 0, 0) == Loop(t, 0, Done)
  {}

  /** Without one nothing is taken from the queue. */
  lemma PassWithout(s: State, w: World)
    requires !s.connected && w.connect.None?
    ensures var s' := Pass(s, w);
            !s'.connected && s'.received == s.received && s'.released == s.released
            && s'.conn == s.conn && s'.past == s.past
  {}

  // ---- An uplink that keeps up ----

  function FramesIn(worlds: seq<World>): seq<seq<byte>> {
    if worlds == [] then []
    else
      var last := worlds[|worlds| - 1];
      FramesIn(worlds[..|worlds| - 1]) + if last.frame.Some? then [last.frame.value] else []
  }

  /** Every frame given to the connection went out, and its socket keeps up from now on. */
  ghost predicate UpToDate(s: State) {
    && s.connected && KeenFrom(NTRIP_SEND_RETRY_LIMIT, s.script, s.calls)
    && s.conn.wire == Flatten(s.conn.frames)
  }

  lemma KeenServe(s: State, w: World)
    requires UpToDate(s) && !w.gone
    ensures var s' := Serve(s, w);
            && UpToDate(s') && s'.past == s.past
            && s'.conn.frames == s.conn.frames + (if w.frame.Some? then [w.frame.value] else [])
            && s'.received == s.received + (if w.frame.Some? then [w.frame.value] else [])
  {
    hide SendLoop, KeenFrom, Flatten;
    if w.frame.Some? {
      var frame := w.frame.value;
      KeenSends(NTRIP_SEND_RETRY_LIMIT, s.script, s.calls, |frame|, 0);
      FlattenSnoc(s.conn.frames, frame);
      assert frame[..|frame|] == frame;
    }
    assert s.conn.frames + [] == s.conn.frames && s.received + [] == s.received;
  }

  /** A connection whose peer stays and keeps up has every frame on the wire. */
  lemma {:induction false} KeenOn(s: State, worlds: seq<World>)
    requires UpToDate(s) && forall j :: 0 <= j < |worlds| ==> !worlds[j].gone
    ensures var s' := Run(s, worlds);
            && UpToDate(s') && s'.past == s.past
            && s'.conn.frames == s.conn.frames + FramesIn(worlds) && s'.received == s.received + FramesIn(worlds)
  {
    hide UpToDate, Pass;
    if worlds == [] {
      assert s.conn.frames + [] == s.conn.frames && s.received + [] == s.received;
    } else {
      var n := |worlds| - 1;
      KeenOn(s, worlds[..n]);
      KeenPass(Run(s, worlds[..n]), worlds[n]);
    }
  }

  lemma KeenPass(s: State, w: World)
    requires UpToDate(s) && !w.gone
    ensures var s' := Pass(s, w);
            && UpToDate(s') && s'.past == s.past
            && s'.conn.frames == s.conn.frames + (if w.frame.Some? then [w.frame.value] else [])
            && s'.received == s.received + (if w.frame.Some? then [w.frame.value] else [])
  {
    hide UpToDate, Serve;
    UpToDateConnected(s);
    KeenServe(s, w);
  }

  lemma UpToDateConnected(s: State)
    requires UpToDate(s)
    ensures s.connected && s.conn.wire == Flatten(s.conn.frames)
  {
    hide KeenFrom, Flatten;
  }

  lemma KeenConnects(s: State, script: Script, w: World)
    requires !s.connected && w.connect == Some(script) && Keen(NTRIP_SEND_RETRY_LIMIT, script) && !w.gone
    ensures var s' := Pass(s, w);
            && UpToDate(s') && s'.past == s.past
            && s'.conn.frames == FramesIn([w]) && s'.received == s.received + FramesIn([w])
  {
    var x := s.(connected := true, script := script, calls := 0, conn := NEW, delay := NTRIP_RECONNECT_MS_MIN);
    assert UpToDate(x);
    hide KeenFrom, Serve, UpToDate;
    KeenServe(x, w);
    assert [w][..0] == [] && FramesIn([w]) == FramesIn([]) + if w.frame.Some? then [w.frame.value] else [];
  }

  /** An uplink that is down, connects, and has a peer that stays and keeps up: from the pass
      that connects on, every frame received is on the connection's wire. */
  lemma KeenUplink(s: State, script: Script, worlds: seq<World>)
    requires !s.connected && worlds != [] && worlds[0].connect == Some(script) && Keen(NTRIP_SEND_RETRY_LIMIT, script)
    requires forall j :: 0 <= j < |worlds| ==> !worlds[j].gone
    ensures var s' := Run(s, worlds);
            && s'.connected && s'.past == s.past && s'.received == s.received + FramesIn(worlds)
            && s'.conn.frames == FramesIn(worlds) && s'.conn.wire == Flatten(FramesIn(worlds))
  {
    hide Keen, Pass, UpToDate, Flatten;
    var w, rest := worlds[0], worlds[1..];
    KeenConnects(s, script, w);
    KeenOn(Pass(s, w), rest);
    RunFirst(s, w, rest);
    assert worlds == [w] + rest;
    UpToDateConnected(Run(Pass(s, w), rest));
    assert s.received + FramesIn([w]) + FramesIn(rest) == s.received + (FramesIn([w]) + FramesIn(rest));
  }

  lemma {:induction false} RunFirst(s: State, w: World, rest: seq<World>)
    ensures Run(s, [w] + rest) == Run(Pass(s, w), rest) && FramesIn([w] + rest) == FramesIn([w]) + FramesIn(rest)
  {
    hide Pass;
    var all := [w] + rest;
    if rest == [] {
      assert all == [w] && [w][..0] == [] && FramesIn([w]) + [] == FramesIn([w]);
      assert Run(s, [w]) == Pass(Run(s, []), w);
    } else {
      var n := |rest| - 1;
      RunFirst(s, w, rest[..n]);
      assert all[..|all| - 1] == [w] + rest[..n] && all[|all| - 1] == rest[n];
    }
  }
}

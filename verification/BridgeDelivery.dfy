/** What the bridge's client gets: what its socket takes of each chunk, and all of it while the
    socket keeps up. */
module BridgeDelivery {
  import opened Sequences
  import opened Sockets
  import opened BridgeSpec
  import C = BridgeCounter

  // ---- One send ----

  /** n calls for the unsent rest of a chunk taken for the client: what they took is on the
      wire; the client is gone exactly if the last call failed; the chunk stays pending, at
      the offset reached, exactly if the socket blocked for the whole retry limit. */
  ghost predicate ChunkSent(s: State, chunk: Chunk, offset: nat, taken: seq<Chunk>, n: nat, s': State)
    requires offset <= |chunk|
  {
    var rest := chunk[offset..];
    var moved := Moved(s.script, s.calls, n, |rest|);
    var conn := Conn(s.conn.wire + rest[..moved], taken);
    && Attempt(SOCKET_MAX_RETRIES, s.script, s.calls, n, |rest|)
    && (s'.client <==> !Failing(s.script, s.calls, n))
    && (s'.pending.Some? <==> Stuck(SOCKET_MAX_RETRIES, s.script, s.calls, n))
    && (s'.pending.Some? ==> s'.pending.value == Pending(chunk, offset + moved))
    && (s'.client ==> s'.conn == conn && s'.past == s.past && s'.script == s.script && s'.calls == s.calls + n)
    && (s'.client && s'.pending.None? ==> moved == |rest|)
    && (!s'.client ==> s'.conn == NOBODY && s'.past == s.past + [conn])
  }

  /** Nothing but the connection and what is pending for it changed. */
  ghost predicate OnlySent(s: State, s': State) {
    s' == s.(client := s'.client, calls := s'.calls, pending := s'.pending, conn := s'.conn, past := s'.past)
  }

  lemma TransmitSends(s: State) returns (n: nat)
    requires s.client && s.pending.Some? && s.pending.value.offset <= |s.pending.value.chunk|
    ensures ChunkSent(s, s.pending.value.chunk, s.pending.value.offset, s.conn.taken, n, Transmit(s))
    ensures OnlySent(s, Transmit(s)) && (s.pending.value.offset < |s.pending.value.chunk| ==> n > 0)
  {
    var p := s.pending.value;
    n := LoopIsAttempt(SOCKET_MAX_RETRIES, s.script, s.calls, |p.chunk|, p.offset);
    if p.offset < |p.chunk| { SomeCall(SOCKET_MAX_RETRIES, s.script, s.calls, n, |p.chunk| - p.offset); }
    AllSent(s.script, s.calls, |p.chunk|);
    var r := SendLoop(SOCKET_MAX_RETRIES, s.script, s.calls, |p.chunk|, p.offset, 0);
    assert p.chunk[p.offset..][..r.offset - p.offset] == p.chunk[p.offset..r.offset];
    assert s.conn.wire + [] == s.conn.wire;
    hide SendLoop, Attempt, Moved, Failing, Stuck;
  }

  lemma AllSent(script: Script, t: nat, len: nat)
    ensures SendLoop(SOCKET_MAX_RETRIES, script, t, len, len, 0) == Loop(t, len, Done)
  {}

  /** What was left of the last pending chunk goes first. */
  lemma RestIsSent(depth: nat, s: State, w: World) returns (n: nat)
    requires s.stage == SendPending && s.serverCount == Settled && s.client
    requires s.pending.Some? && s.pending.value.offset <= |s.pending.value.chunk|
    ensures var s' := Next(depth, s, ServerStep(w));
            && ChunkSent(s, s.pending.value.chunk, s.pending.value.offset, s.conn.taken, n, s')
            && OnlySent(s.(stage := Pump), s')
            && (s.pending.value.offset < |s.pending.value.chunk| ==> n > 0)
  {
    n := TransmitSends(s);
    hide Transmit, Attempt, Moved, Failing, Stuck;
  }

  /** Then the queue's chunks, oldest first. */
  lemma OldestIsSent(depth: nat, s: State, w: World) returns (n: nat)
    requires s.stage == Pump && s.serverCount == Settled && s.client && s.pending.None? && s.queue != []
    ensures var s' := Next(depth, s, ServerStep(w)); var chunk := s.queue[0];
            && ChunkSent(s, chunk, 0, s.conn.taken + [chunk], n, s')
            && OnlySent(s.(queue := s.queue[1..], removed := s.removed + [Removal(chunk, Sent)]), s')
            && (chunk != [] ==> n > 0)
  {
    n := TransmitSends(Take(s));
    hide Transmit, Attempt, Moved, Failing, Stuck;
  }

  // ---- A client that keeps up ----

  ghost predicate QuietWorld(w: World) {
    w.optionsOk && w.input == Quiet && (w.arrival.Some? ==> Keen(SOCKET_MAX_RETRIES, w.arrival.value))
  }

  /** No command, no request, nobody goes, and every client's socket keeps up. */
  ghost predicate Undisturbed(actions: seq<Action>) {
    forall i :: 0 <= i < |actions| ==>
      actions[i] != AskDisconnect && (actions[i].ServerStep? ==> QuietWorld(actions[i].world))
  }

  ghost predicate ClientOk(s: State) {
    && KeenFrom(SOCKET_MAX_RETRIES, s.script, s.calls) && s.conn.wire == Flatten(s.conn.taken)
  }

  ghost predicate Untouched(s: State) {
    s.poster == Ready && s.queue == [] && s.removed == [] && s.posted == [] && s.conn == NOBODY
  }

  ghost predicate NoneDiscarded(removed: seq<Removal>) {
    forall i :: 0 <= i < |removed| ==> removed[i].fate != Discarded
  }

  ghost predicate KeepsUp(s: State) {
    && s.past == [] && !s.askedOff && s.pending.None? && s.serverCount == Settled
    && s.stage !in {DrainAfterDisconnect, DrainAfterCommand} && (s.stage == SetOptions ==> s.client)
    && (if s.client then ClientOk(s) else Untouched(s))
    && NoneDiscarded(s.removed)
  }

  lemma TakenAndSent(s: State)
    requires s.client && ClientOk(s) && s.queue != [] && s.pending.None?
    ensures var c := s.queue[0]; var s' := Transmit(Take(s));
            && OnlySent(Take(s), s') && s'.client && s'.pending.None? && s'.past == s.past
            && ClientOk(s') && s'.conn.taken == s.conn.taken + [c] && s'.conn.wire == s.conn.wire + c
  {
    hide SendLoop, KeenFrom, Flatten;
    var c := s.queue[0];
    KeenSends(SOCKET_MAX_RETRIES, s.script, s.calls, |c|, 0);
    FlattenSnoc(s.conn.taken, c);
    assert c[0..|c|] == c && s.conn.wire + [] == s.conn.wire;
  }

  lemma ServerKeepsUp(s: State, w: World)
    requires KeepsUp(s) && QuietWorld(w)
    ensures KeepsUp(ServeStep(s, w))
  {
    assert Flatten(NOBODY.taken) == [];
    hide Flatten, KeenFrom, Transmit;
    if s.stage == Pump && s.client && s.queue != [] {
      TakenAndSent(s);
      assert NoneDiscarded(s.removed + [Removal(s.queue[0], Sent)]);
    }
  }

  lemma PosterKeepsUp(depth: nat, s: State)
    requires KeepsUp(s)
    ensures KeepsUp(PostStep(s, depth))
  {
    hide Flatten, KeenFrom;
  }

  lemma NextKeepsUp(depth: nat, s: State, a: Action)
    requires KeepsUp(s) && a != AskDisconnect && (a.ServerStep? ==> QuietWorld(a.world))
    ensures KeepsUp(Next(depth, s, a))
  {
    match a
    case Post(_) => hide Flatten, KeenFrom;
    case PosterStep => PosterKeepsUp(depth, s); hide KeepsUp;
    case ServerStep(w) => ServerKeepsUp(s, w); hide KeepsUp;
  }

  lemma {:induction false} RunKeepsUp(depth: nat, script: Script, actions: seq<Action>)
    requires Undisturbed(actions)
    ensures KeepsUp(Run(depth, Init(script), actions))
  {
    if actions != [] {
      var n := |actions| - 1;
      RunKeepsUp(depth, script, actions[..n]);
      NextKeepsUp(depth, Run(depth, Init(script), actions[..n]), actions[n]);
      hide KeepsUp, Next, QuietWorld;
    }
  }

  lemma {:induction false} AllWereSent(removed: seq<Removal>)
    requires NoneDiscarded(removed) && C.Drops(removed) == 0
    ensures SentChunks(removed) == Chunks(removed)
  {
    if removed != [] {
      AllWereSent(removed[..|removed| - 1]);
    }
  }

  /** While nothing disturbs it the bridge puts on the wire every chunk it took off the queue,
      whole and in order; and once the queue is empty, with no chunk dropped, lost or in the
      poster's hand, the wire is exactly the posted chunks. */
  lemma KeenBridge(depth: nat, script: Script, actions: seq<Action>)
    requires Undisturbed(actions)
    ensures var s := Run(depth, Init(script), actions);
            && s.past == [] && s.pending.None? && s.conn.wire == Flatten(SentChunks(s.removed))
            && (s.queue == [] && s.poster == Ready && C.Drops(s.removed) == 0 && s.lost == 0 ==>
                  s.conn.wire == Flatten(s.posted))
  {
    var s := Run(depth, Init(script), actions);
    hide *;
    RunKeepsUp(depth, script, actions);
    EveryRunKeeps(depth, script, actions);
    BridgeStreams(depth, script, actions);
    WireIsTaken(s);
    NoPast();
    assert Flatten(Takens(s.past)) + s.conn.taken == s.conn.taken;
    if s.queue == [] && s.poster == Ready && C.Drops(s.removed) == 0 && s.lost == 0 {
      AllWereSent(s.removed);
      OneChunkEach(s.removed);
      assert Chunks(s.removed) + [] == Chunks(s.removed);
      SubsequenceWhole(s.entered, s.posted);
    }
  }

  lemma NoPast()
    ensures Takens([]) == [] && Flatten<Chunk>([]) == []
  {}

  lemma WireIsTaken(s: State)
    requires KeepsUp(s)
    ensures s.past == [] && s.pending.None? && s.conn.wire == Flatten(s.conn.taken) && NoneDiscarded(s.removed)
  {
    assert Flatten(NOBODY.taken) == [];
    hide Flatten, KeenFrom, NoneDiscarded;
  }

  // ---- The server gets there ----

  /** The n oldest chunks have gone to the client. */
  ghost predicate GoneOut(s: State, s': State, n: nat) {
    && n <= |s.queue| && s'.stage == Pump && s'.client && KeepsUp(s') && s'.queue == s.queue[n..]
    && s'.conn.taken == s.conn.taken + s.queue[..n] && s'.conn.wire == s.conn.wire + Flatten(s.queue[..n])
  }

  lemma OldestGoesOut(depth: nat, x: State, w: World)
    requires KeepsUp(x) && x.client && x.stage == Pump && x.queue != [] && QuietWorld(w)
    ensures var x' := Next(depth, x, ServerStep(w));
            && KeepsUp(x') && x'.client && x'.stage == Pump && x'.queue == x.queue[1..]
            && x'.conn.taken == x.conn.taken + [x.queue[0]] && x'.conn.wire == x.conn.wire + x.queue[0]
  {
    hide Flatten, Transmit, KeenFrom, NoneDiscarded, QuietWorld;
    ServerKeepsUp(x, w);
    TakenAndSent(x);
  }

  lemma OneMoreOut(depth: nat, s: State, x: State, n: nat, w: World)
    requires GoneOut(s, x, n) && n < |s.queue| && QuietWorld(w)
    ensures GoneOut(s, Next(depth, x, ServerStep(w)), n + 1)
  {
    hide Flatten, KeepsUp, QuietWorld, Next;
    OldestGoesOut(depth, x, w);
    var c := s.queue[n];
    assert s.queue[..n + 1] == s.queue[..n] + [c];
    FlattenSnoc(s.queue[..n], c);
    assert s.conn.taken + s.queue[..n] + [c] == s.conn.taken + s.queue[..n + 1];
    assert s.conn.wire + Flatten(s.queue[..n]) + c == s.conn.wire + (Flatten(s.queue[..n]) + c);
  }

  function ServerSteps(w: World, n: nat): seq<Action> {
    if n == 0 then [] else ServerSteps(w, n - 1) + [ServerStep(w)]
  }

  lemma {:induction false} PumpsOut(depth: nat, s: State, w: World, n: nat)
    requires KeepsUp(s) && s.client && s.stage == Pump && QuietWorld(w) && n <= |s.queue|
    ensures GoneOut(s, Run(depth, s, ServerSteps(w, n)), n)
  {
    hide KeepsUp, GoneOut, Next, Flatten;
    if n == 0 {
      NothingOut(s);
    } else {
      PumpsOut(depth, s, w, n - 1);
      OneMoreOut(depth, s, Run(depth, s, ServerSteps(w, n - 1)), n - 1, w);
      C.RunOne(depth, s, ServerSteps(w, n - 1), ServerStep(w));
    }
  }

  lemma NothingOut(s: State)
    requires KeepsUp(s) && s.client && s.stage == Pump
    ensures GoneOut(s, s, 0)
  {
    assert Flatten(s.queue[..0]) == [];
    hide KeepsUp, Flatten;
  }

  /** With a client that keeps up, as many server steps as there are chunks, and one more,
      put the whole queue on the wire and end the pass. */
  lemma QueueGoesOut(depth: nat, s: State, w: World)
    requires KeepsUp(s) && s.client && s.stage == Pump && QuietWorld(w)
    ensures var s' := Run(depth, s, ServerSteps(w, |s.queue| + 1));
            s'.stage == Top && s'.queue == [] && s'.client && s'.conn.wire == s.conn.wire + Flatten(s.queue)
  {
    var n := |s.queue|;
    assert s.queue[n..] == [] && s.queue[..n] == s.queue;
    hide KeepsUp, Flatten, Transmit;
    PumpsOut(depth, s, w, n);
    C.RunOne(depth, s, ServerSteps(w, n), ServerStep(w));
    KeepsUpParts(Run(depth, s, ServerSteps(w, n)));
    hide Run;
  }

  lemma KeepsUpParts(s: State)
    requires KeepsUp(s)
    ensures s.pending.None? && s.serverCount == Settled
  {
    hide KeenFrom, Flatten;
  }
}

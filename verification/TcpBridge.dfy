/** The bridge's two tasks as the code runs them, each without the other in between: posting
    with drop-oldest, and one pass of the server loop. Everything the code does is a run of
    BridgeSpec, step by step. */
module TcpBridge {
  import opened Crc24
  import opened Sequences
  import opened Sockets
  import opened BridgeSpec

  const UART_READ_CHUNK: nat := 128

  /** Only steps of the given kind were taken between the two traces. */
  ghost predicate Ran(before: seq<Action>, after: seq<Action>, a: Action) {
    && |before| <= |after| && after[..|before|] == before
    && forall i :: |before| <= i < |after| ==> after[i] == a
  }

  lemma RanOn(x: seq<Action>, y: seq<Action>, z: seq<Action>, a: Action)
    requires Ran(x, y, a) && Ran(y, z, a)
    ensures Ran(x, z, a)
  {
    assert z[..|x|] == z[..|y|][..|x|];
  }

  lemma RanLength(x: seq<Action>, y: seq<Action>, a: Action)
    requires Ran(x, y, a)
    ensures |x| <= |y|
  {}

  lemma RanOne(x: seq<Action>, a: Action)
    ensures Ran(x, x, a) && Ran(x, x + [a], a)
  {}

  lemma RanThree(x: seq<Action>, a: Action)
    ensures Ran(x, x + [a] + [a] + [a], a)
  {}

  lemma RanFour(x: seq<Action>, a: Action)
    ensures Ran(x, x + [a] + [a] + [a] + [a], a)
  {}

  function After(x: State, a: Action): State {
    Next(TCP_QUEUE_DEPTH, x, a)
  }

  /** A chunk dropped by a task that nobody interrupts: taken off the queue, and counted. */
  function Counted(x: State): State
    requires x.queue != []
  {
    Remove(x, Dropped).(drops := (x.drops + 1) % UINT32)
  }

  lemma PosterDrops(x: State)
    requires x.poster.Try? && |x.queue| >= TCP_QUEUE_DEPTH && x.posterCount == Settled
    ensures var a := PosterStep;
            After(After(After(After(x, a), a), a), a) == Counted(x)
  {}

  lemma ServerDrops(x: State, w: World)
    requires x.stage in {DrainAfterDisconnect, DrainAfterCommand} && x.queue != [] && x.serverCount == Settled
    ensures var a := ServerStep(w);
            After(After(After(x, a), a), a) == Counted(x)
  {}

  lemma RunSnoc(s: State, actions: seq<Action>, a: Action)
    ensures Run(TCP_QUEUE_DEPTH, s, actions + [a]) == Next(TCP_QUEUE_DEPTH, Run(TCP_QUEUE_DEPTH, s, actions), a)
  {
    assert (actions + [a])[..|actions|] == actions;
    hide Next;
  }

  class Bridge {
    var queue: seq<Chunk>
    var client: Socket?
    var disconnectRequested: bool
    const pendingData: array<byte>
    var pendingLen: nat
    var pendingOffset: nat
    var pendingValid: bool
    var drops: nat

    ghost const script: Script
    ghost var s: State              // the state of the specification
    ghost var trace: seq<Action>    // the steps that led to it

    constructor (ghost script: Script)
      ensures Valid() && fresh(pendingData) && trace == []
    {
      queue, client, disconnectRequested := [], null, false;
      pendingValid, pendingOffset, pendingLen, drops := false, 0, 0, 0;
      pendingData := new byte[UART_READ_CHUNK](i => 0);
      this.script, s, trace := script, Init(script), [];
    }

    ghost function PendingChunk(): Option<Pending>
      reads this`pendingLen, this`pendingOffset, this`pendingValid, pendingData
      requires pendingLen <= pendingData.Length
    {
      if pendingValid then Some(Pending(pendingData[..pendingLen], pendingOffset)) else None
    }

    /** The steps taken lead to the state of the specification. */
    ghost predicate Led()
      reads this`s, this`trace
    {
      s == Run(TCP_QUEUE_DEPTH, Init(script), trace)
    }

    /** The fields are those of state x, and no drop is being counted. */
    ghost predicate MirrorOf(x: State)
      reads this`queue, this`client, this`disconnectRequested, this`pendingLen, this`pendingOffset, this`pendingValid,
            this`drops, pendingData, client
    {
      && pendingData.Length == UART_READ_CHUNK && pendingOffset <= pendingLen <= pendingData.Length
      && (forall i :: 0 <= i < |queue| ==> |queue[i]| <= UART_READ_CHUNK)
      && x.queue == queue && x.pending == PendingChunk() && x.askedOff == disconnectRequested
      && x.drops == drops < UINT32 && x.posterCount == Settled == x.serverCount
      && x.client == (client != null)
      && (client != null ==> (client.script == x.script && client.calls == x.calls && client.wire == x.conn.wire))
    }

    ghost predicate Valid()
      reads this, pendingData, client
    {
      Led() && MirrorOf(s)
    }

    /** One step of the specification. */
    ghost method Tick(a: Action)
      requires Led()
      modifies this`s, this`trace
      ensures Led() && s == After(old(s), a) && trace == old(trace) + [a]
    {
      hide Run, Next;
      RunSnoc(Init(script), trace, a);
      s, trace := Next(TCP_QUEUE_DEPTH, s, a), trace + [a];
    }

    lemma QueueFits()
      requires Valid()
      ensures |queue| <= TCP_QUEUE_DEPTH && TCP_QUEUE_DEPTH > 0
    {
      EveryRunKeeps(TCP_QUEUE_DEPTH, script, trace);
      hide PostOk, StreamOk, TakenOk, Chunks, Run;
    }

    ghost method PosterTicks()
      requires Led() && s.poster.Try? && |s.queue| >= TCP_QUEUE_DEPTH && s.posterCount == Settled
      modifies this`s, this`trace
      ensures TCP_QUEUE_DEPTH > 0
      ensures Led() && s == Counted(old(s)) && Ran(old(trace), trace, PosterStep)
    {
      assert TCP_QUEUE_DEPTH > 0;
      hide *;
      PosterDrops(s);
      RanFour(trace, PosterStep);
      Tick(PosterStep);
      Tick(PosterStep);
      Tick(PosterStep);
      Tick(PosterStep);
    }

    ghost method ServerTicks(w: World)
      requires Led() && s.stage in {DrainAfterDisconnect, DrainAfterCommand}
      requires s.queue != [] && s.serverCount == Settled
      modifies this`s, this`trace
      ensures Led() && s == Counted(old(s)) && Ran(old(trace), trace, ServerStep(w))
    {
      hide *;
      ServerDrops(s, w);
      RanThree(trace, ServerStep(w));
      Tick(ServerStep(w));
      Tick(ServerStep(w));
      Tick(ServerStep(w));
    }

    /** The oldest chunk makes room. */
    method DropOldest()
      requires Valid() && s.poster.Try? && |queue| >= TCP_QUEUE_DEPTH
      modifies this`queue, this`drops, this`s, this`trace
      ensures Valid() && s.poster == old(s.poster) && Ran(old(trace), trace, PosterStep)
      ensures queue == old(queue)[1..] && drops == (old(drops) + 1) % UINT32
    {
      hide Led, Ran;
      PosterTicks();
      queue := queue[1..];
      drops := (drops + 1) % UINT32;
    }

    method Enqueue(chunk: Chunk)
      requires Valid() && s.poster == Try(chunk) && |queue| < TCP_QUEUE_DEPTH && |chunk| <= UART_READ_CHUNK
      modifies this`queue, this`s, this`trace
      ensures Valid() && s.poster == Ready && Ran(old(trace), trace, PosterStep)
      ensures queue == old(queue) + [chunk]
    {
      hide Led, Ran;
      RanOne(trace, PosterStep);
      Tick(PosterStep);
      queue := queue + [chunk];
    }

    ghost method StartPost(chunk: Chunk)
      requires Valid() && s.poster == Ready
      modifies this`s, this`trace
      ensures Valid() && trace == old(trace) + [BridgeSpec.Post(chunk)]
      ensures s.poster == if client == null then Ready else Try(chunk)
    {
      hide Led;
      Tick(BridgeSpec.Post(chunk));
    }

    /** post_raw_gnss_data_tcp: the newest chunks stay. */
    method Post(chunk: Chunk)
      requires Valid() && |chunk| <= UART_READ_CHUNK && s.poster == Ready
      modifies this`queue, this`drops, this`s, this`trace
      ensures Valid() && s.poster == Ready
      ensures Ran(old(trace) + [BridgeSpec.Post(chunk)], trace, PosterStep)
      ensures client == null ==> (queue == old(queue) && drops == old(drops))
      ensures client != null ==> queue == Newest(old(queue) + [chunk], TCP_QUEUE_DEPTH)
      ensures client != null ==>
                drops == if |old(queue)| < TCP_QUEUE_DEPTH then old(drops) else (old(drops) + 1) % UINT32
    {
      hide *;
      QueueFits();
      StartPost(chunk);
      ghost var posted := trace;
      RanOne(trace, PosterStep);
      if client == null {
        return;
      }
      Send(chunk);
      RanOn(posted, posted, trace, PosterStep);
    }

    /** The loop of a post: only steps of the poster since trace t, and the queue is q but
        for its oldest chunk. */
    ghost predicate Posting(chunk: Chunk, t: seq<Action>, q: seq<Chunk>, n: nat)
      reads this, pendingData, client
    {
      && Valid() && s.poster == Try(chunk)
      && Ran(t, trace, PosterStep) && OldestGone(q, n, queue, drops)
    }

    /** A failed xQueueSend: the oldest chunk makes room. */
    method DropOne(chunk: Chunk, ghost t: seq<Action>, ghost q: seq<Chunk>, ghost n: nat)
      requires Posting(chunk, t, q, n) && |q| <= TCP_QUEUE_DEPTH <= |queue|
      modifies this`queue, this`drops, this`s, this`trace
      ensures Posting(chunk, t, q, n) && |queue| < |old(queue)|
    {
      hide *;
      PostingParts(chunk, t, q, n);
      ghost var before := trace;
      OneGone(q, n, queue, drops);
      DropOldest();
      RanOn(t, before, trace, PosterStep);
      PostingWhole(chunk, t, q, n);
    }

    lemma PostingParts(chunk: Chunk, t: seq<Action>, q: seq<Chunk>, n: nat)
      requires Posting(chunk, t, q, n)
      ensures Valid() && s.poster == Try(chunk) && TCP_QUEUE_DEPTH > 0
      ensures Ran(t, trace, PosterStep) && OldestGone(q, n, queue, drops)
    {
      hide Valid, Ran, OldestGone;
    }

    lemma PostingWhole(chunk: Chunk, t: seq<Action>, q: seq<Chunk>, n: nat)
      requires Valid() && s.poster == Try(chunk) && Ran(t, trace, PosterStep) && OldestGone(q, n, queue, drops)
      ensures Posting(chunk, t, q, n)
    {
      hide Valid, Ran, OldestGone;
    }

    method EnqueueLast(chunk: Chunk, ghost t: seq<Action>, ghost q: seq<Chunk>, ghost n: nat)
      requires Posting(chunk, t, q, n) && |queue| < TCP_QUEUE_DEPTH && |chunk| <= UART_READ_CHUNK
      modifies this`queue, this`s, this`trace
      ensures Valid() && s.poster == Ready && Ran(t, trace, PosterStep)
      ensures queue == Newest(q + [chunk], TCP_QUEUE_DEPTH)
      ensures drops == if |q| < TCP_QUEUE_DEPTH then n else (n + 1) % UINT32
    {
      assert Valid();
      hide Valid, Ran, OldestGone, Newest;
      ghost var before := trace;
      RoomMade(q, n, queue, drops, chunk);
      Enqueue(chunk);
      RanOn(t, before, trace, PosterStep);
    }

    lemma StartPosting(chunk: Chunk)
      requires Valid() && s.poster == Try(chunk)
      ensures Posting(chunk, trace, queue, drops)
    {
      NoneGone(queue, drops);
      RanOne(trace, PosterStep);
      hide Valid, Ran, OldestGone;
    }

    /** The loop around xQueueSend. */
    method Send(chunk: Chunk)
      requires Valid() && |chunk| <= UART_READ_CHUNK && s.poster == Try(chunk) && |queue| <= TCP_QUEUE_DEPTH
      modifies this`queue, this`drops, this`s, this`trace
      ensures Valid() && s.poster == Ready && Ran(old(trace), trace, PosterStep)
      ensures queue == Newest(old(queue) + [chunk], TCP_QUEUE_DEPTH)
      ensures drops == if |old(queue)| < TCP_QUEUE_DEPTH then old(drops) else (old(drops) + 1) % UINT32
    {
      hide *;
      ghost var t, q, n := trace, queue, drops;
      StartPosting(chunk);
      while |queue| >= TCP_QUEUE_DEPTH
        invariant Posting(chunk, t, q, n)
        decreases |queue|
      {
        DropOne(chunk, t, q, n);
      }
      EnqueueLast(chunk, t, q, n);
    }

    // ---- The server task ----

    /** One receive of a drain. */
    method DropHead(ghost w: World)
      requires Valid() && s.stage in {DrainAfterDisconnect, DrainAfterCommand} && queue != []
      modifies this`queue, this`drops, this`s, this`trace
      ensures Valid() && s.stage == old(s.stage) && s.poster == old(s.poster) && Ran(old(trace), trace, ServerStep(w))
      ensures queue == old(queue)[1..] && drops == (old(drops) + 1) % UINT32
    {
      hide Led, Ran;
      ServerTicks(w);
      queue := queue[1..];
      drops := (drops + 1) % UINT32;
    }

    /** tcp_server_drain_queue */
    method Drain(ghost w: World)
      requires Valid() && s.stage in {DrainAfterDisconnect, DrainAfterCommand} && drops < UINT32
      modifies this`queue, this`drops, this`s, this`trace
      ensures Valid() && s.stage == old(s.stage) && s.poster == old(s.poster) && Ran(old(trace), trace, ServerStep(w))
      ensures queue == [] && drops == (old(drops) + |old(queue)|) % UINT32
    {
      hide Valid, Ran;
      RanOne(trace, ServerStep(w));
      while queue != []
        invariant Valid() && s.stage == old(s.stage) && s.poster == old(s.poster)
        invariant Ran(old(trace), trace, ServerStep(w))
        invariant |queue| <= |old(queue)| && drops == (old(drops) + |old(queue)| - |queue|) % UINT32
        decreases |queue|
      {
        ghost var before := trace;
        DropHead(w);
        RanOn(old(trace), before, trace, ServerStep(w));
      }
    }

    /** socket_send on the pending chunk, then what its result asks for. */
    method SendPending(ghost x: State)
      requires MirrorOf(x) && client != null && pendingValid
      modifies this`client, this`pendingValid, this`pendingOffset, client
      ensures MirrorOf(Transmit(x)) && (client == null || client == old(client))
    {
      ghost var chunk, sock := x.pending.value.chunk, client;
      hide SendLoop;
      ghost var r := SendLoop(SOCKET_MAX_RETRIES, x.script, x.calls, pendingLen, pendingOffset, 0);
      if pendingOffset == pendingLen {
        LoopDone(SOCKET_MAX_RETRIES, x.script, x.calls, pendingLen, 0);
      }
      var offset, status := SendAll(SOCKET_MAX_RETRIES, client, pendingData, pendingLen, pendingOffset);
      assert chunk[pendingOffset..offset] == pendingData[pendingOffset..offset];
      pendingOffset := offset;
      if status == Fatal {
        client, pendingValid, pendingOffset := null, false, 0;
      } else if status == Done {
        pendingValid, pendingOffset := false, 0;
      }
    }

    /** The oldest chunk becomes the pending one. */
    method TakeHead(ghost x: State)
      requires MirrorOf(x) && x.pending.None? && queue != []
      modifies this`queue, this`pendingLen, this`pendingOffset, this`pendingValid, pendingData
      ensures MirrorOf(Take(x)) && pendingValid && queue == old(queue)[1..]
    {
      var chunk := queue[0];
      queue := queue[1..];
      forall i | 0 <= i < |chunk| {
        pendingData[i] := chunk[i];
      }
      pendingLen, pendingOffset, pendingValid := |chunk|, 0, true;
      assert pendingData[..pendingLen] == chunk;
    }

    /** One chunk from the queue: discarded without a client, else it becomes pending and is
        sent as far as the socket lets it. */
    method PumpOne(ghost w: World)
      requires Valid() && s.stage == BridgeSpec.Pump && !pendingValid && queue != []
      modifies this`queue, this`client, this`pendingLen, this`pendingOffset, this`pendingValid, this`s, this`trace,
               pendingData, client
      ensures Valid() && trace == old(trace) + [ServerStep(w)]
      ensures client == null || client == old(client)
      ensures Pumped(old(s), s, 1) && (client == null ==> !pendingValid)
    {
      ghost var x := s;
      PumpStep(x, w);
      hide Led, Transmit, Take, Next, ServeStep, Pumped;
      Tick(ServerStep(w));
      if client == null {
        queue := queue[1..];
        return;
      }
      TakeHead(x);
      SendPending(Take(x));
    }

    /** The loop at the end of a server pass. While the client lives nothing is lost: what it
        was given and what is still queued are what it had and what was queued. */
    method Pump(ghost w: World) returns (ghost n: nat)
      requires Valid() && s.stage == BridgeSpec.Pump
      modifies this`queue, this`client, this`pendingLen, this`pendingOffset, this`pendingValid, this`s, this`trace,
               pendingData, client
      ensures Valid() && s.stage == Top && Ran(old(trace), trace, ServerStep(w))
      ensures (pendingValid || queue == []) && (client == null || client == old(client))
      ensures Pumped(old(s), s.(stage := BridgeSpec.Pump), n)
    {
      ghost var t, x := trace, s;
      n := 0;
      hide Valid, Led, MirrorOf, Ran, Pumped, PendingChunk;
      NothingPumped(x);
      RanOne(t, ServerStep(w));
      while !pendingValid && queue != []
        invariant Valid() && (client == null || client == old(client))
        invariant Ran(t, trace, ServerStep(w)) && Pumped(x, s, n)
        decreases |queue|
      {
        ghost var before, y := trace, s;
        PumpedFacts(x, s, n);
        QueueNow();
        PumpOne(w);
        QueueNow();
        PumpedFacts(y, s, 1);
        PumpedOn(x, y, s, n);
        n := n + 1;
        RanOne(before, ServerStep(w));
        RanOn(t, before, trace, ServerStep(w));
      }
      PumpedFacts(x, s, n);
      QueueNow();
      ghost var before := trace;
      PumpEnds(w);
      RanOne(before, ServerStep(w));
      RanOn(t, before, trace, ServerStep(w));
    }

    ghost method PumpEnds(w: World)
      requires Valid() && s.stage == BridgeSpec.Pump && (pendingValid || queue == [])
      modifies this`s, this`trace
      ensures Valid() && s.stage == Top && s.(stage := BridgeSpec.Pump) == old(s)
      ensures trace == old(trace) + [ServerStep(w)]
    {
      hide Led;
      Tick(ServerStep(w));
    }

    lemma QueueNow()
      requires Valid()
      ensures s.queue == queue && s.client == (client != null) && s.pending.Some? == pendingValid
    {
      hide Led;
    }

    lemma NobodyConnected()
      requires Valid()
      ensures client == null ==> s.conn == NOBODY
      ensures drops < UINT32
    {
      EveryRunKeeps(TCP_QUEUE_DEPTH, script, trace);
      hide Live, Ended, PostOk, TakenOk, Run, Chunks;
    }

    /** The client goes, with what was queued and pending for it. */
    method DropClient(ghost w: World)
      requires Valid() && s.stage == Top && disconnectRequested && client != null
      modifies this`queue, this`client, this`disconnectRequested, this`pendingOffset, this`pendingValid, this`drops,
               this`s, this`trace
      ensures Valid() && s.stage == AcceptNext && Ran(old(trace), trace, ServerStep(w))
      ensures !disconnectRequested && client == null && queue == [] && !pendingValid
      ensures drops == (old(drops) + |old(queue)|) % UINT32 && |trace| > |old(trace)|
    {
      NobodyConnected();
      ghost var t := trace;
      RequestSeen(w);
      ghost var before := trace;
      hide Valid, Led, MirrorOf, Ran;
      Drain(w);
      RanOn(t, before, trace, ServerStep(w));
      before := trace;
      PendingForgotten(w);
      RanOn(t, before, trace, ServerStep(w));
    }

    method RequestSeen(ghost w: World)
      requires Valid() && s.stage == Top && disconnectRequested && client != null
      modifies this`client, this`disconnectRequested, this`s, this`trace
      ensures Valid() && s.stage == DrainAfterDisconnect && Ran(old(trace), trace, ServerStep(w))
      ensures !disconnectRequested && client == null && |trace| > |old(trace)|
    {
      hide Led, Ran;
      RanOne(trace, ServerStep(w));
      Tick(ServerStep(w));
      client, disconnectRequested := null, false;
    }

    method PendingForgotten(ghost w: World)
      requires Valid() && s.stage == DrainAfterDisconnect && queue == []
      modifies this`pendingOffset, this`pendingValid, this`s, this`trace
      ensures Valid() && s.stage == AcceptNext && Ran(old(trace), trace, ServerStep(w)) && !pendingValid
    {
      hide Led, Ran;
      RanOne(trace, ServerStep(w));
      Tick(ServerStep(w));
      pendingValid, pendingOffset := false, 0;
    }

    method NoRequest(ghost w: World)
      requires Valid() && s.stage == Top && (disconnectRequested ==> client == null)
      modifies this`disconnectRequested, this`s, this`trace
      ensures Valid() && s.stage == AcceptNext && Ran(old(trace), trace, ServerStep(w)) && !disconnectRequested
      ensures |trace| > |old(trace)|
    {
      hide Led, Ran;
      RanOne(trace, ServerStep(w));
      Tick(ServerStep(w));
      disconnectRequested := false;
    }

    /** A disconnect asked for by the web interface. */
    method Disconnect(ghost w: World)
      requires Valid() && s.stage == Top
      modifies this`queue, this`client, this`disconnectRequested, this`pendingOffset, this`pendingValid, this`drops,
               this`s, this`trace
      ensures Valid() && s.stage == AcceptNext && Ran(old(trace), trace, ServerStep(w))
      ensures !disconnectRequested && client == if old(disconnectRequested) then null else old(client)
      ensures old(disconnectRequested) && old(client) != null ==>
                (queue == [] && !pendingValid && drops == (old(drops) + |old(queue)|) % UINT32)
      ensures !old(disconnectRequested) ==> (queue == old(queue) && pendingValid == old(pendingValid))
      ensures |trace| > |old(trace)|
    {
      hide *;
      if disconnectRequested && client != null {
        DropClient(w);
      } else {
        NoRequest(w);
      }
    }

    /** tcp_server_disconnect_client */
    method RequestDisconnect() returns (ok: bool)
      requires Valid()
      modifies this`disconnectRequested, this`s, this`trace
      ensures Valid() && ok == (client != null)
      ensures ok ==> (disconnectRequested && trace == old(trace) + [AskDisconnect])
      ensures !ok ==> (disconnectRequested == old(disconnectRequested) && trace == old(trace))
    {
      if client == null {
        return false;
      }
      hide Led;
      Tick(AskDisconnect);
      disconnectRequested := true;
      return true;
    }

    /** A waiting connection is taken up if there is no client; `ok` says the socket options
        could be set, or that nothing had to be done. */
    method Accept(arrival: Socket?, optionsOk: bool, ghost w: World) returns (ok: bool)
      requires Valid() && s.stage == AcceptNext
      requires arrival != null ==> arrival.calls == 0 && arrival.wire == []
      requires w.arrival == (if arrival == null then None else Some(arrival.script)) && w.optionsOk == optionsOk
      modifies this`client, this`pendingValid, this`pendingOffset, this`s, this`trace
      ensures Valid() && s.stage == (if ok then BridgeSpec.Serve else Top) && Ran(old(trace), trace, ServerStep(w))
      ensures client == if old(client) != null then old(client) else if ok then arrival else null
      ensures ok == (old(client) != null || arrival == null || optionsOk)
    {
      NobodyConnected();
      ghost var t := trace;
      hide Led, Ran;
      RanOne(t, ServerStep(w));
      Tick(ServerStep(w));
      if client != null || arrival == null {
        return true;
      }
      client := arrival;
      RanOne(trace, ServerStep(w));
      RanOn(t, trace, trace + [ServerStep(w)], ServerStep(w));
      Tick(ServerStep(w));
      if !optionsOk {
        client, pendingValid, pendingOffset := null, false, 0;
      }
      return optionsOk;
    }

    /** Commands from the client, or its end. */
    method ServeClient(input: Input, ghost w: World)
      requires Valid() && s.stage == BridgeSpec.Serve && w.input == input
      modifies this`queue, this`client, this`pendingOffset, this`pendingValid, this`drops, this`s, this`trace
      ensures Valid() && s.stage == BridgeSpec.SendPending && Ran(old(trace), trace, ServerStep(w))
      ensures client == if input == Gone then null else old(client)
      ensures old(client) != null && input == Gone ==> (queue == old(queue) && !pendingValid)
      ensures old(client) != null && input == Command ==>
                (queue == [] && drops == (old(drops) + |old(queue)|) % UINT32)
      ensures old(client) == null || input == Quiet ==> (queue == old(queue) && drops == old(drops))
    {
      hide *;
      if client == null || input != Command {
        NothingRead(input, w);
      } else {
        CommandRead(w);
      }
    }

    method NothingRead(input: Input, ghost w: World)
      requires Valid() && s.stage == BridgeSpec.Serve && w.input == input && (client == null || input != Command)
      modifies this`client, this`pendingOffset, this`pendingValid, this`s, this`trace
      ensures Valid() && s.stage == BridgeSpec.SendPending && Ran(old(trace), trace, ServerStep(w))
      ensures client == if input == Gone then null else old(client)
      ensures old(client) != null && input == Gone ==> !pendingValid
    {
      NobodyConnected();
      hide Led, Ran;
      RanOne(trace, ServerStep(w));
      Tick(ServerStep(w));
      if client != null && input == Gone {
        client, pendingValid, pendingOffset := null, false, 0;
      }
    }

    method CommandRead(ghost w: World)
      requires Valid() && s.stage == BridgeSpec.Serve && w.input == Command && client != null
      modifies this`queue, this`drops, this`s, this`trace
      ensures Valid() && s.stage == BridgeSpec.SendPending && Ran(old(trace), trace, ServerStep(w))
      ensures queue == [] && drops == (old(drops) + |old(queue)|) % UINT32
    {
      hide *;
      NobodyConnected();
      ghost var t := trace;
      CommandSeen(w);
      ghost var before := trace;
      Drain(w);
      RanOn(t, before, trace, ServerStep(w));
      before := trace;
      Drained(w);
      RanOn(t, before, trace, ServerStep(w));
    }

    ghost method CommandSeen(w: World)
      requires Valid() && s.stage == BridgeSpec.Serve && w.input == Command && client != null
      modifies this`s, this`trace
      ensures Valid() && s.stage == DrainAfterCommand && Ran(old(trace), trace, ServerStep(w))
    {
      hide Led, Ran;
      RanOne(trace, ServerStep(w));
      Tick(ServerStep(w));
    }

    ghost method Drained(w: World)
      requires Valid() && s.stage == DrainAfterCommand && queue == []
      modifies this`s, this`trace
      ensures Valid() && s.stage == BridgeSpec.SendPending && Ran(old(trace), trace, ServerStep(w))
    {
      hide Led, Ran;
      RanOne(trace, ServerStep(w));
      Tick(ServerStep(w));
    }

    /** What was left of the last pending chunk goes first. */
    method SendRest(ghost w: World)
      requires Valid() && s.stage == BridgeSpec.SendPending
      modifies this`client, this`pendingOffset, this`pendingValid, this`s, this`trace, client
      ensures Valid() && s.stage == BridgeSpec.Pump && Ran(old(trace), trace, ServerStep(w))
      ensures client == null || client == old(client)
    {
      ghost var x := s;
      if x.client && x.pending.Some? { TransmitKeepsRest(x); }
      hide Led, Ran, Transmit;
      RanOne(trace, ServerStep(w));
      Tick(ServerStep(w));
      if client != null && pendingValid {
        SendPending(x);
        SameFields(Transmit(x), s);
      }
    }

    lemma SameFields(x: State, y: State)
      requires MirrorOf(x) && y == x.(stage := y.stage)
      ensures MirrorOf(y)
    {}

    /** A pass from the client's input on. */
    method Serve(input: Input, ghost w: World)
      requires Valid() && s.stage == BridgeSpec.Serve && w.input == input
      modifies this`queue, this`client, this`pendingLen, this`pendingOffset, this`pendingValid, this`drops, this`s,
               this`trace, pendingData, client
      ensures Valid() && s.stage == Top && Ran(old(trace), trace, ServerStep(w))
      ensures pendingValid || queue == []
    {
      hide *;
      ghost var t := trace;
      ServeClient(input, w);
      ghost var before := trace;
      SendRest(w);
      RanOn(t, before, trace, ServerStep(w));
      before := trace;
      ghost var _ := Pump(w);
      RanOn(t, before, trace, ServerStep(w));
    }

    /** One pass of the server loop; `ok` unless a new client was given up at once. */
    method Pass(arrival: Socket?, optionsOk: bool, input: Input) returns (ok: bool)
      requires Valid() && s.stage == Top
      requires arrival != null ==> arrival != client && arrival.calls == 0 && arrival.wire == []
      modifies this, pendingData, client, arrival
      ensures Valid() && s.stage == Top
      ensures Ran(old(trace), trace,
                  ServerStep(World(if arrival == null then None else Some(arrival.script), optionsOk, input)))
      ensures |trace| > |old(trace)| && !disconnectRequested
      ensures ok == ((old(client) != null && !old(disconnectRequested)) || arrival == null || optionsOk)
      ensures ok ==> (pendingValid || queue == [])
    {
      ghost var w := World(if arrival == null then None else Some(arrival.script), optionsOk, input);
      ghost var t := trace;
      hide *;
      Disconnect(w);
      ghost var first := trace;
      ok := Accept(arrival, optionsOk, w);
      RanOn(t, first, trace, ServerStep(w));
      RanLength(first, trace, ServerStep(w));
      if !ok {
        return;
      }
      ghost var before := trace;
      Serve(input, w);
      RanOn(t, before, trace, ServerStep(w));
      RanLength(before, trace, ServerStep(w));
    }
  }

  /** What a pump loop did in n rounds: n chunks left the queue; if the client lives they were
      taken for it, and if it went, those up to its last one were. */
  ghost predicate Pumped(x: State, y: State, n: nat) {
    && x.stage == BridgeSpec.Pump == y.stage && y.poster == x.poster && y.drops == x.drops
    && n <= |x.queue| && y.queue == x.queue[n..]
    && (!x.client ==> !y.client && y.past == x.past)
    && (x.client && y.client ==> y.past == x.past && y.conn.taken == x.conn.taken + x.queue[..n])
    && (x.client && !y.client ==>
          |y.past| == |x.past| + 1 && y.past[..|x.past|] == x.past
          && y.past[|x.past|].taken <= x.conn.taken + x.queue[..n])
  }

  lemma NothingPumped(x: State)
    requires x.stage == BridgeSpec.Pump
    ensures Pumped(x, x, 0)
  {}

  lemma PumpedFacts(x: State, y: State, n: nat)
    requires Pumped(x, y, n)
    ensures y.stage == BridgeSpec.Pump && n <= |x.queue| && |y.queue| == |x.queue| - n
  {}

  lemma PumpedOn(x: State, y: State, z: State, n: nat)
    requires Pumped(x, y, n) && Pumped(y, z, 1)
    ensures Pumped(x, z, n + 1)
  {
    assert x.queue[..n + 1] == x.queue[..n] + [x.queue[n]];
    assert y.queue[..1] == [x.queue[n]];
    assert x.conn.taken + x.queue[..n] + [x.queue[n]] == x.conn.taken + x.queue[..n + 1];
    if x.client && !y.client {
      assert z.past == y.past;
    }
  }

  lemma TransmitKeepsRest(y: State)
    requires y.pending.Some? && y.client
    ensures var z := Transmit(y);
            && z.stage == y.stage && z.poster == y.poster && z.drops == y.drops && z.queue == y.queue
            && (z.client ==> z.past == y.past && z.conn.taken == y.conn.taken)
            && (!z.client ==> |z.past| == |y.past| + 1 && z.past[..|y.past|] == y.past
                              && z.past[|y.past|].taken == y.conn.taken && z.pending.None?)
  {
    hide SendLoop;
  }

  lemma PumpStep(x: State, w: World)
    requires x.stage == BridgeSpec.Pump && x.pending.None? && x.queue != [] && x.serverCount == Settled
    ensures var z := Next(TCP_QUEUE_DEPTH, x, ServerStep(w));
            && z == (if x.client then Transmit(Take(x)) else Remove(x, Discarded))
            && Pumped(x, z, 1) && (!z.client ==> z.pending.None?)
  {
    if x.client { TransmitKeepsRest(Take(x)); }
    hide Transmit;
    assert x.queue[..1] == [x.queue[0]];
  }

  /** A queue from which at most its oldest chunk was dropped, when it was full. */
  ghost predicate OldestGone(before: seq<Chunk>, drops: nat, queue: seq<Chunk>, drops': nat) {
    || (queue == before && drops' == drops)
    || (|before| == TCP_QUEUE_DEPTH && queue == before[1..] && drops' == (drops + 1) % UINT32)
  }

  lemma NoneGone(queue: seq<Chunk>, drops: nat)
    ensures OldestGone(queue, drops, queue, drops)
  {}

  lemma OneGone(before: seq<Chunk>, drops: nat, queue: seq<Chunk>, drops': nat)
    requires OldestGone(before, drops, queue, drops') && |before| <= TCP_QUEUE_DEPTH <= |queue|
    ensures OldestGone(before, drops, queue[1..], (drops' + 1) % UINT32)
  {}

  lemma RoomMade(before: seq<Chunk>, drops: nat, queue: seq<Chunk>, drops': nat, chunk: Chunk)
    requires OldestGone(before, drops, queue, drops') && |queue| < TCP_QUEUE_DEPTH
    ensures queue + [chunk] == Newest(before + [chunk], TCP_QUEUE_DEPTH)
    ensures drops' == if |before| < TCP_QUEUE_DEPTH then drops else (drops + 1) % UINT32
  {}
}

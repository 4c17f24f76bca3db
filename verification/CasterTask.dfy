/** The caster task's forwarding loop: it receives frames from its queue, sends each to the
    rover table and releases it. Taking and giving back are the consumer's steps in Fanout. */
module CasterTask {
  import opened Crc24
  import opened Caster
  import opened FramePool
  import opened ConsumerRun
  import F = Fanout
  import R = RoverSpec

  // ---- The rovers ----

  function FrameEvents(frames: seq<seq<byte>>): seq<R.Event> {
    if frames == [] then [] else FrameEvents(frames[..|frames| - 1]) + [R.Frame(frames[|frames| - 1])]
  }

  /** A rover's slot after the frames, one after the other. */
  function Served(slot: R.Slot, frames: seq<seq<byte>>): R.Slot {
    R.Run(slot, FrameEvents(frames))
  }

  function ServedAll(slots: seq<R.Slot>, frames: seq<seq<byte>>): (s: seq<R.Slot>)
    ensures |s| == |slots| && forall i :: 0 <= i < |s| ==> s[i] == Served(slots[i], frames)
  {
    seq(|slots|, i requires 0 <= i < |slots| => Served(slots[i], frames))
  }

  lemma ServedNext(slot: R.Slot, frames: seq<seq<byte>>, n: nat)
    requires n < |frames|
    ensures Served(slot, frames[..n + 1]) == R.Next(Served(slot, frames[..n]), R.Frame(frames[n]))
  {
    assert frames[..n + 1][..n] == frames[..n];
    var events := FrameEvents(frames[..n]);
    assert (events + [R.Frame(frames[n])])[..|events|] == events;
    hide R.Next;
  }

  lemma ServedAllNext(slots: seq<R.Slot>, frames: seq<seq<byte>>, n: nat)
    requires n < |frames|
    ensures ServedAll(slots, frames[..n + 1]) == NextAll(ServedAll(slots, frames[..n]), R.Frame(frames[n]))
  {
    forall i | 0 <= i < |slots|
      ensures Served(slots[i], frames[..n + 1]) == R.Next(Served(slots[i], frames[..n]), R.Frame(frames[n]))
    {
      ServedNext(slots[i], frames, n);
    }
    hide Served, R.Next;
  }

  lemma ServedNothing(slots: seq<R.Slot>, frames: seq<seq<byte>>)
    ensures ServedAll(slots, frames[..0]) == slots
  {
    assert forall i :: 0 <= i < |slots| ==> Served(slots[i], frames[..0]) == slots[i];
  }

  // ---- The task ----

  class Task {
    const pool: Pool
    const server: Server
    var queue: seq<PoolFrame>

    constructor (pool: Pool, server: Server)
      requires pool.Valid() && server.Valid() && pool.arrays !! server.Buffers()
      ensures this.pool == pool && this.server == server && queue == [] && Valid()
    {
      this.pool, this.server, queue := pool, server, [];
    }

    ghost predicate Valid()
      reads pool.slots, server.rovers, server.Sockets()
    {
      pool.Valid() && server.Valid() && pool.arrays !! server.Buffers()
    }

    /** The frame received last is given back. */
    method GiveBack(f: PoolFrame, ghost x: F.State, ghost c: nat)
      requires Valid() && CanTurn(x, c) && pool.Shown(x.slots)
      requires f == pool.slots[x.consumers[c].queue[0]]
      requires Entries(pool.slots, queue, x.consumers[c].queue[1..])
      modifies f`refCount
      ensures Valid() && pool.Consumes(queue, Turned(x, c), c) && server.Sockets() == old(server.Sockets())
      ensures server.States() == old(server.States())
    {
      var wasFree := pool.Release(f);
    }

    lemma Parts()
      requires Valid()
      ensures pool.Valid() && server.Valid() && pool.arrays !! server.Buffers()
    {}

    lemma Whole()
      requires pool.Valid() && server.Valid() && pool.arrays !! server.Buffers()
      ensures Valid()
    {}

    /** One turn of the loop: receive, forward, release. */
    method ForwardOne(ghost x: F.State, ghost c: nat)
      requires Valid() && pool.Consumes(queue, x, c) && queue != []
      modifies this`queue, pool.slots, server.rovers, server.Sockets(), server.Buffers()
      ensures Valid() && server.Sockets() <= old(server.Sockets())
      ensures CanTurn(x, c) && pool.Consumes(queue, Turned(x, c), c) && queue == old(queue)[1..]
      ensures InPool(x, c) && |Waiting(x, c)| == |old(queue)|
      ensures server.States() == NextAll(old(server.States()), R.Frame(Waiting(x, c)[0]))
    {
      hide *;
      Parts();
      pool.HeadOf(queue, x, c);
      var f := queue[0];
      queue := queue[1..];
      server.Forward(f.data, f.len);
      Whole();
      GiveBack(f, x, c);
    }

    /** The loop, until the queue is empty: every rover is served the waiting frames in order,
        and the call is a run of the consumer in Fanout, frame by frame. */
    method ForwardAll(ghost k: F.Config, ghost x: F.State, ghost c: nat) returns (ghost y: F.State, ghost n: nat)
      requires Valid() && pool.Consumes(queue, x, c)
      modifies this`queue, pool.slots, server.rovers, server.Sockets(), server.Buffers()
      ensures Valid() && queue == [] && pool.Consumes(queue, y, c)
      ensures F.Runs(k, x, Turns(c, n)) && y == F.Run(k, x, Turns(c, n)).state
      ensures InPool(x, c) && n == |Waiting(x, c)| == |old(queue)|
      ensures server.States() == ServedAll(old(server.States()), Waiting(x, c))
    {
      hide *;
      Parts();
      pool.QueueShown(queue, x, c);
      ghost var frames := Waiting(x, c);
      y, n := x, 0;
      NoTurns(k, x, c);
      ghost var slots := server.States();
      ServedNothing(slots, frames);
      while queue != []
        invariant Valid() && server.Valid() && pool.Consumes(queue, y, c) && server.Sockets() <= old(server.Sockets())
        invariant n + |queue| == |frames|
        invariant InPool(y, c) && Waiting(y, c) == frames[n..]
        invariant F.Runs(k, x, Turns(c, n)) && y == F.Run(k, x, Turns(c, n)).state
        invariant server.States() == ServedAll(slots, frames[..n])
        decreases |queue|
      {
        ForwardOne(y, c);
        Parts();
        ServedAllNext(slots, frames, n);
        WaitingTurned(y, c);
        TurnRuns(k, x, c, n, y);
        y, n := Turned(y, c), n + 1;
      }
      assert frames[..n] == frames;
    }
  }
}

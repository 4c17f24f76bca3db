/** An uplink task's loop body as it updates its socket, its back-off delay and the frame it
    holds; one pass is one step of UplinkSpec, and what it takes from its queue and gives back
    are the consumer's steps in Fanout. */
module Uplink {
  import opened Crc24
  import opened Sequences
  import opened Sockets
  import opened ConsumerRun
  import opened FramePool
  import opened UplinkSpec
  import F = Fanout

  class UplinkTask {
    const pool: Pool
    var sock: Socket?
    var delay: nat
    var queue: seq<PoolFrame>

    ghost var script: Script
    ghost var calls: nat
    ghost var conn: Conn
    ghost var past: seq<Conn>
    ghost var waits: seq<nat>
    ghost var received: seq<seq<byte>>
    ghost var released: nat

    constructor (pool: Pool)
      ensures this.pool == pool && queue == [] && Valid() && State() == Init(script)
    {
      this.pool, sock, delay, queue := pool, null, NTRIP_RECONNECT_MS_MIN, [];
      script, calls, conn, past, waits, received, released := NeverAsked, 0, NEW, [], [], [], 0;
    }

    ghost predicate Valid()
      reads this`sock, this`script, this`calls, this`conn, sock
    {
      sock != null ==> (sock.script == script && sock.calls == calls && sock.wire == conn.wire)
    }

    ghost function State(): State
      reads this`sock, this`script, this`calls, this`delay, this`conn, this`past, this`waits, this`received,
            this`released
    {
      UplinkSpec.State(sock != null, script, calls, delay, conn, past, waits, received, released)
    }

    /** uplink_close_socket */
    method CloseSocket()
      requires Valid() && sock != null
      modifies this`sock, this`conn, this`past
      ensures Valid() && State() == Close(old(State()))
    {
      past, conn := past + [conn], NEW;
      sock := null;
    }

    /** The send loop over one frame: `closed` when it gave the connection up. */
    method SendFrame(f: PoolFrame) returns (closed: bool)
      requires sock != null && f.len <= f.data.Length
      modifies sock
      ensures var r := SendLoop(NTRIP_SEND_RETRY_LIMIT, sock.script, old(sock.calls), f.len, 0, 0);
              && sock.calls == r.calls && sock.wire == old(sock.wire) + f.Content()[..r.offset]
              && closed == (r.status != Done)
    {
      hide SendLoop;
      var ptr, remaining, retries := 0, f.len, 0;
      while remaining > 0
        invariant 0 <= ptr <= f.len == ptr + remaining && 0 <= retries <= NTRIP_SEND_RETRY_LIMIT
        invariant sock.wire == old(sock.wire) + f.data[..ptr]
        invariant SendLoop(NTRIP_SEND_RETRY_LIMIT, sock.script, old(sock.calls), f.len, 0, 0)
               == SendLoop(NTRIP_SEND_RETRY_LIMIT, sock.script, sock.calls, f.len, ptr, retries)
        decreases remaining, NTRIP_SEND_RETRY_LIMIT - retries
      {
        LoopStep(NTRIP_SEND_RETRY_LIMIT, sock.script, sock.calls, f.len, ptr, retries);
        var sent, again := sock.Send(f.data[ptr..f.len]);
        if sent > 0 {
          assert f.data[..ptr] + f.data[ptr..f.len][..sent] == f.data[..ptr + sent];
          ptr := ptr + sent;
          remaining := remaining - sent;
          retries := 0;
          continue;
        }
        assert f.Content()[..ptr] == f.data[..ptr];
        if sent == 0 {
          return true;
        } else if again {
          retries := retries + 1;
          if retries > NTRIP_SEND_RETRY_LIMIT {
            return true;
          }
          continue;
        } else {
          return true;
        }
      }
      LoopDone(NTRIP_SEND_RETRY_LIMIT, sock.script, sock.calls, f.len, retries);
      assert f.Content()[..ptr] == f.data[..ptr];
      return false;
    }

    /** The frame received last is given back. */
    method GiveBack(f: PoolFrame, ghost x: F.State, ghost c: nat)
      requires pool.Valid() && CanTurn(x, c) && pool.Shown(x.slots) && Valid()
      requires f == pool.slots[x.consumers[c].queue[0]]
      requires Entries(pool.slots, queue, x.consumers[c].queue[1..])
      modifies f`refCount
      ensures pool.Valid() && pool.Consumes(queue, Turned(x, c), c) && Valid()
      ensures f.refCount == old(f.refCount) - 1
    {
      var wasFree := pool.Release(f);
    }

    /** The frame goes out as far as it gets. */
    method SendOn(f: PoolFrame)
      requires Valid() && sock != null && f.len <= f.data.Length
      modifies this`sock, this`calls, this`conn, this`past, this`received, this`released, sock
      ensures Valid() && (sock == null || sock == old(sock))
      ensures State() == UplinkSpec.Forward(old(State()), f.Content())
    {
      ghost var frame := f.Content();
      hide SendLoop;
      var closed := SendFrame(f);
      calls, conn := sock.calls, Conn(sock.wire, conn.frames + [frame]);
      received, released := received + [frame], released + 1;
      if closed {
        CloseSocket();
      }
    }

    /** Receives, forwards and releases one frame. */
    method Forward(ghost x: F.State, ghost c: nat)
      requires Valid() && sock != null && queue != []
      requires pool.Valid() && pool.Consumes(queue, x, c)
      modifies this`sock, this`queue, this`calls, this`conn, this`past, this`received, this`released, sock, queue[0]
      ensures Valid() && (sock == null || sock == old(sock)) && queue == old(queue)[1..]
      ensures old(queue)[0].refCount == old(queue[0].refCount) - 1
      ensures CanTurn(x, c) && pool.Valid() && pool.Consumes(queue, Turned(x, c), c)
      ensures InPool(x, c) && |Waiting(x, c)| == |old(queue)|
      ensures State() == UplinkSpec.Forward(old(State()), Waiting(x, c)[0])
    {
      hide *;
      pool.HeadOf(queue, x, c);
      var f := queue[0];
      queue := queue[1..];
      SendOn(f);
      GiveBack(f, x, c);
    }

    /** One iteration of the task: `arrival` is the socket a connect attempt would give. */
    method Pass(arrival: Socket?, gone: bool, ghost x: F.State, ghost c: nat)
      requires Valid() && (arrival != null ==> arrival.calls == 0 && arrival.wire == [] && arrival != sock)
      requires pool.Valid() && pool.Consumes(queue, x, c)
      modifies this, sock, arrival, if queue == [] then {} else {queue[0]}
      ensures Valid() && pool.Valid() && (gone ==> sock == null)
      ensures var served := old(queue) != [] && (old(sock) != null || arrival != null);
              && queue == (if served then old(queue)[1..] else old(queue))
              && (served ==> CanTurn(x, c) && InPool(x, c) && |Waiting(x, c)| == |old(queue)|)
              && pool.Consumes(queue, if served then Turned(x, c) else x, c)
              && State() == UplinkSpec.Pass(old(State()),
                   World(if arrival == null then None else Some(arrival.script),
                         if served then Some(Waiting(x, c)[0]) else None, gone))
    {
      hide UplinkSpec.Forward, Turned, CanTurn, Waiting, InPool, pool.Consumes, pool.Valid;
      if sock == null {
        sock := arrival;
        if sock == null {
          waits := waits + [delay];
          delay := if delay * 2 < NTRIP_RECONNECT_MS_MAX then delay * 2 else NTRIP_RECONNECT_MS_MAX;
          return;
        }
        delay := NTRIP_RECONNECT_MS_MIN;
        script, calls, conn := arrival.script, 0, NEW;
      }
      if queue != [] {
        Forward(x, c);
      }
      if sock != null && gone {
        CloseSocket();
      }
    }
  }
}

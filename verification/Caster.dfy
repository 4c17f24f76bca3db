/** The caster's rovers as the server task updates them in place: the deferral buffer, the
    retry loop's offset, and the forwarding loop over the rover table. Every method is one
    step of RoverSpec. */
module Caster {
  import opened Crc24
  import opened Frames
  import opened Sockets
  import opened RoverSpec

  class Rover {
    var sock: Socket?
    var phase: Phase
    const txPending: array<byte>
    var txLen: nat
    var txPos: nat

    // what the adversary may answer on the latest connection, and the connections' history
    ghost var script: Script
    ghost var calls: nat
    ghost var conn: Conn
    ghost var past: seq<Conn>

    constructor ()
      ensures Valid() && fresh(txPending) && sock == null && Unused(State())
    {
      sock, phase := null, Empty;
      txPending := new byte[MAX_RTCM_FRAME](i => 0);
      txLen, txPos := 0, 0;
      script, calls, conn, past := NeverAsked, 0, FRESH, [];
    }

    ghost predicate Valid()
      reads this, sock
    {
      && txPending.Length == MAX_RTCM_FRAME && txPos <= txLen <= txPending.Length
      && (sock == null <==> phase == Empty) && (phase != Streaming ==> txLen == 0)
      && (sock != null ==> (sock.script == script && sock.calls == calls && sock.wire == conn.wire))
    }

    ghost function Value(): Link
      reads this, txPending
      requires txLen <= txPending.Length
    {
      Link(phase, txPending[..txLen], txPos)
    }

    ghost function State(): Slot
      reads this, txPending
      requires txLen <= txPending.Length
    {
      Slot(Value(), script, calls, conn, past)
    }

    /** close_rover, on whatever ends a connection. */
    method Close()
      requires Valid()
      modifies this
      ensures Valid() && State() == Next(old(State()), Hangup) && sock == null && phase == Empty && txLen == 0
      ensures past == if old(phase) == Empty then old(past) else old(past) + [old(conn)]
    {
      if phase != Empty {
        past := past + [conn];
      }
      sock, phase, txLen, txPos := null, Empty, 0, 0;
    }

    /** A new connection takes the slot if it is empty. */
    method Accept(s: Socket) returns (taken: bool)
      requires Valid() && s.calls == 0 && s.wire == []
      modifies this
      ensures Valid() && State() == Next(old(State()), Connect(s.script)) && taken == old(phase == Empty)
      ensures if taken then sock == s && phase == Handshake && txLen == 0 && conn == FRESH else sock == old(sock)
    {
      taken := phase == Empty;
      if taken {
        sock, phase, txLen, txPos := s, Handshake, 0, 0;
        script, calls, conn := s.script, 0, FRESH;
      }
    }

    /** The handshake ended. */
    method Served(ok: bool)
      requires Valid() && phase == Handshake
      modifies this
      ensures Valid() && State() == Next(old(State()), if ok then RequestServed else Hangup)
      ensures phase == (if ok then Streaming else Empty) && (sock == null <==> !ok)
    {
      if ok {
        phase := Streaming;
      } else {
        Close();
      }
    }

    /** send_bytes_to_rover: sends from `start` on; a fatal answer clears the link. The bytes
        are on the wire in every case; the history is completed by the caller. */
    method SendBytes(data: array<byte>, len: nat, start: nat) returns (offset: nat, status: Status)
      requires sock != null && start <= len <= data.Length
      modifies this`sock, this`phase, this`txLen, this`txPos, sock
      ensures var r := SendLoop(ROVER_STREAM_SEND_RETRIES, old(sock).script, old(sock.calls), len, start, 0);
              offset == r.offset && status == r.status && old(sock).calls == r.calls
      ensures start <= offset <= len && old(sock).wire == old(sock.wire) + data[start..offset]
      ensures status == Fatal ==> (sock == null && phase == Empty && txLen == 0 && txPos == 0)
      ensures status != Fatal ==> unchanged(this)
    {
      offset, status := SendAll(ROVER_STREAM_SEND_RETRIES, sock, data, len, start);
      if status == Fatal {
        sock, phase, txLen, txPos := null, Empty, 0, 0;
      }
    }

    /** flush_rover_pending */
    method Flush() returns (ok: bool)
      requires sock != null && txPos <= txLen <= txPending.Length
      modifies this`sock, this`phase, this`txLen, this`txPos, sock
      ensures txPos <= txLen <= txPending.Length && (sock == null || sock == old(sock))
      ensures var x := FlushPending(old(sock).script, old(sock.calls), old(Value()));
              && ok == x.ok && Value() == x.link && old(sock).calls == x.calls
              && old(sock).wire == old(sock.wire) + x.wire
              && (sock == null <==> !ok && x.link == CLOSED)
    {
      if txPos >= txLen {
        txLen, txPos := 0, 0;
        return true;
      }
      ghost var pending := txPending[..txLen];
      var offset, status := SendBytes(txPending, txLen, txPos);
      assert pending[old(txPos)..offset] == txPending[old(txPos)..offset];
      match status {
        case Fatal => return false;
        case Blocked =>
          txPos := offset;
          return false;
        case Done =>
          txLen, txPos := 0, 0;
          return true;
      }
    }

    /** Keeps the unsent rest of a frame for the next attempt. */
    method Defer(data: array<byte>, offset: nat, len: nat)
      requires data != txPending && offset <= len <= data.Length && len - offset <= MAX_RTCM_FRAME == txPending.Length
      modifies this`txLen, this`txPos, txPending
      ensures txLen <= txPending.Length && Value() == Link(phase, data[offset..len], 0)
    {
      var remaining := len - offset;
      for i := 0 to remaining
        invariant txPending[..i] == data[offset..offset + i]
        invariant unchanged(this) && unchanged(data)
      {
        txPending[i] := data[offset + i];
        assert txPending[..i + 1] == txPending[..i] + [data[offset + i]];
      }
      txLen, txPos := remaining, 0;
    }

    /** send_frame_to_rover; `ok` says the frame was accepted. */
    method SendOne(data: array<byte>, len: nat) returns (ok: bool)
      requires Valid() && phase == Streaming && data != txPending && len <= data.Length && len <= MAX_RTCM_FRAME
      modifies this`sock, this`phase, this`txLen, this`txPos, sock, txPending
      ensures txPos <= txLen <= txPending.Length && (sock == null || sock == old(sock))
      ensures (sock == null <==> phase == Empty) && phase in {Empty, Streaming} && (phase == Empty ==> txLen == 0)
      ensures var x := SendFrame(old(sock).script, old(sock.calls), old(Value()), data[..len]);
              && ok == x.ok && Value() == x.link && old(sock).calls == x.calls
              && old(sock).wire == old(sock.wire) + x.wire
    {
      hide SendLoop, FlushPending;
      FlushEmpties(sock.script, sock.calls, Value());
      ok := Flush();
      if !ok {
        return;
      }
      assert txPending[..txLen] == [];
      ghost var frame := data[..len];
      var offset, status := SendBytes(data, len, 0);
      assert data[0..offset] == frame[..offset];
      ok := status == Done;
      if ok || status == Fatal || phase != Streaming || offset == 0 {
        return;
      }
      Defer(data, offset, len);
      assert data[offset..len] == frame[offset..];
      ok := true;
    }

    /** One forwarded frame, with the history brought up to date. */
    method Send(data: array<byte>, len: nat)
      requires Valid() && phase == Streaming && data != txPending && len <= data.Length && len <= MAX_RTCM_FRAME
      modifies this, sock, txPending
      ensures Valid() && State() == Next(old(State()), Frame(data[..len]))
      ensures sock == null || sock == old(sock)
    {
      hide SendFrame;
      ghost var s, frame := sock, data[..len];
      var ok := SendOne(data, len);
      calls := s.calls;
      conn := Conn(s.wire, conn.offered + [frame], if ok then conn.accepted + [frame] else conn.accepted);
      if phase == Empty {
        past := past + [conn];
      }
    }
  }

  /** Rovers share nothing: neither deferral buffers nor sockets. */
  ghost predicate Apart(a: Rover, b: Rover)
    reads a, b
  {
    a != b && a.txPending != b.txPending && (a.sock != null ==> a.sock != b.sock)
  }

  class Server {
    const rovers: seq<Rover>

    constructor (rovers: seq<Rover>)
      requires |rovers| == MAX_ROVERS
      ensures this.rovers == rovers
    {
      this.rovers := rovers;
    }

    ghost function Sockets(): set<Socket>
      reads rovers
    {
      set i | 0 <= i < |rovers| && rovers[i].sock != null :: rovers[i].sock
    }

    ghost function Buffers(): set<array<byte>> {
      set i | 0 <= i < |rovers| :: rovers[i].txPending
    }

    ghost predicate Valid()
      reads rovers, Sockets()
    {
      && (forall i :: 0 <= i < |rovers| ==> rovers[i].Valid())
      && (forall i, j :: 0 <= i < j < |rovers| ==> Apart(rovers[i], rovers[j]))
    }

    /** The slots of the rover table. */
    ghost function States(): (s: seq<Slot>)
      requires Valid()
      reads rovers, Sockets(), Buffers()
      ensures |s| == |rovers| && forall i :: 0 <= i < |rovers| ==> rovers[i].Valid() && s[i] == rovers[i].State()
    {
      seq(|rovers|, i requires 0 <= i < |rovers| && Valid() reads rovers, Sockets(), Buffers() => rovers[i].State())
    }

    method ForwardTo(i: nat, data: array<byte>, len: nat)
      requires Valid() && i < |rovers| && len <= data.Length && len <= MAX_RTCM_FRAME && data !in Buffers()
      modifies rovers[i], Sockets(), rovers[i].txPending
      ensures Valid() && Sockets() <= old(Sockets())
      ensures rovers[i].State() == Next(old(rovers[i].State()), Frame(data[..len]))
      ensures forall j :: 0 <= j < |rovers| && j != i ==> rovers[j].State() == old(rovers[j].State())
    {
      hide Next;
      var r := rovers[i];
      assert r.Valid();
      assert forall j :: 0 <= j < i ==> Apart(rovers[j], r);
      assert forall j :: i < j < |rovers| ==> Apart(r, rovers[j]);
      if r.phase == Streaming {
        r.Send(data, len);
        assert forall j :: 0 <= j < |rovers| && j != i ==> rovers[j].Valid();
        assert r.Valid();
      } else {
        NotStreaming(r.State(), data[..len]);
      }
    }

    /** One received frame goes to every rover, each as if it were alone. */
    method Forward(data: array<byte>, len: nat)
      requires Valid() && len <= data.Length && len <= MAX_RTCM_FRAME && data !in Buffers()
      modifies rovers, Sockets(), Buffers()
      ensures Valid() && Sockets() <= old(Sockets())
      ensures States() == NextAll(old(States()), Frame(old(data[..len])))
    {
      hide Next, Apart;
      ghost var before := States();
      for i := 0 to |rovers|
        invariant Valid() && data[..len] == old(data[..len]) && Sockets() <= old(Sockets())
        invariant forall j :: 0 <= j < i ==> rovers[j].State() == Next(old(rovers[j].State()), Frame(data[..len]))
        invariant forall j :: i <= j < |rovers| ==> rovers[j].State() == old(rovers[j].State())
      {
        ForwardTo(i, data, len);
      }
    }
  }

  /** Every rover sees the event. */
  function NextAll(slots: seq<Slot>, e: Event): (s: seq<Slot>)
    ensures |s| == |slots| && forall i :: 0 <= i < |s| ==> s[i] == Next(slots[i], e)
  {
    seq(|slots|, i requires 0 <= i < |slots| => Next(slots[i], e))
  }

  lemma NotStreaming(slot: Slot, frame: seq<byte>)
    requires slot.link.phase != Streaming
    ensures Next(slot, Frame(frame)) == slot
  {}
}

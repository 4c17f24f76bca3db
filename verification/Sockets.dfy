/** Non-blocking sockets as an adversary, and the bounded-retry send loop that the caster,
    the TCP bridge and the uplinks share. */
module Sockets {
  import opened Crc24
  import opened Sequences

  /** What one call of send does: take some bytes (0: the call returned 0), report that it
      would block, or fail. */
  datatype Answer = Took(n: nat) | WouldBlock | Failed

  /** The answers to all calls ever made, chosen by the adversary. */
  type Script = nat -> Answer

  const ROVER_STREAM_SEND_RETRIES: nat := 5
  const SOCKET_MAX_RETRIES: nat := 40
  const NTRIP_SEND_RETRY_LIMIT: nat := 20

  datatype Status = Done | Blocked | Fatal

  datatype Loop = Loop(calls: nat, offset: nat, status: Status)

  /** From call number t on, `retries` blocked calls after the last progress. */
  function SendLoop(limit: nat, script: Script, t: nat, len: nat, offset: nat, retries: nat): (r: Loop)
    requires offset <= len && retries <= limit
    ensures offset <= r.offset <= len && t <= r.calls
    ensures r.status == Done <==> r.offset == len
    decreases len - offset, limit - retries
  {
    if offset == len then Loop(t, offset, Done)
    else
      match script(t)
      case Took(n) =>
        if n == 0 then Loop(t + 1, offset, Fatal)
        else SendLoop(limit, script, t + 1, len, offset + Min(n, len - offset), 0)
      case WouldBlock =>
        if retries + 1 > limit then Loop(t + 1, offset, Blocked)
        else SendLoop(limit, script, t + 1, len, offset, retries + 1)
      case Failed => Loop(t + 1, offset, Fatal)
  }

  /** A socket on which nothing works. */
  function NeverAsked(i: nat): Answer {
    Failed
  }

  /** The loop's next call. */
  lemma LoopStep(limit: nat, script: Script, t: nat, len: nat, offset: nat, retries: nat)
    requires offset < len && retries <= limit
    ensures SendLoop(limit, script, t, len, offset, retries) ==
            if script(t).Took? && script(t).n > 0 then
              SendLoop(limit, script, t + 1, len, offset + Min(script(t).n, len - offset), 0)
            else if script(t).WouldBlock? && retries < limit then
              SendLoop(limit, script, t + 1, len, offset, retries + 1)
            else Loop(t + 1, offset, if script(t).WouldBlock? then Blocked else Fatal)
  {}

  lemma LoopDone(limit: nat, script: Script, t: nat, len: nat, retries: nat)
    requires retries <= limit
    ensures SendLoop(limit, script, t, len, len, retries) == Loop(t, len, Done)
  {}

  /** Bytes moved by the calls t .. t + n, each offered what the earlier ones left. */
  function Moved(script: Script, t: nat, n: nat, room: nat): (m: nat)
    ensures m <= room
  {
    if n == 0 then 0
    else
      var before := Moved(script, t, n - 1, room);
      var a := script(t + n - 1);
      if a.Took? then before + Min(a.n, room - before) else before
  }

  ghost predicate BlockedRun(script: Script, from: nat, upTo: nat) {
    forall i :: from <= i < upTo ==> script(i) == WouldBlock
  }

  lemma {:induction false} MovedFirst(script: Script, t: nat, n: nat, room: nat)
    requires n > 0
    ensures var first := if script(t).Took? then Min(script(t).n, room) else 0;
            Moved(script, t, n, room) == first + Moved(script, t + 1, n - 1, room - first)
  {
    if n > 1 {
      MovedFirst(script, t, n - 1, room);
    }
  }

  /** The offset moves by exactly what the socket took. */
  lemma {:induction false} OffsetIsMoved(limit: nat, script: Script, t: nat, len: nat, offset: nat, retries: nat)
    requires offset <= len && retries <= limit
    ensures var r := SendLoop(limit, script, t, len, offset, retries);
            r.offset - offset == Moved(script, t, r.calls - t, len - offset)
    decreases len - offset, limit - retries
  {
    hide *;
    var r := SendLoop(limit, script, t, len, offset, retries);
    NoneMoved(script, t, len - offset);
    if offset == len {
      LoopDone(limit, script, t, len, retries);
    } else {
      LoopStep(limit, script, t, len, offset, retries);
      var n := FirstCall(script, t, len - offset);
      if script(t).Took? && script(t).n > 0 {
        OffsetIsMoved(limit, script, t + 1, len, offset + n, 0);
      } else if script(t).WouldBlock? && retries < limit {
        OffsetIsMoved(limit, script, t + 1, len, offset, retries + 1);
      } else {
        NoneMoved(script, t + 1, len - offset);
      }
      MovedFirst(script, t, r.calls - t, len - offset);
    }
  }

  lemma NoneMoved(script: Script, t: nat, room: nat)
    ensures Moved(script, t, 0, room) == 0
  {}

  lemma FirstCall(script: Script, t: nat, room: nat) returns (n: nat)
    ensures n <= room && n == if script(t).Took? then Min(script(t).n, room) else 0
    ensures script(t).Took? && room > 0 ==> (n > 0 <==> script(t).n > 0)
  {
    n := if script(t).Took? then Min(script(t).n, room) else 0;
  }

  /** Why the loop stops before the end: limit + 1 calls in a row would have blocked, or the
      last call failed or returned 0. */
  lemma {:induction false} WhyItStops(limit: nat, script: Script, t: nat, len: nat, offset: nat, retries: nat)
    requires offset <= len && retries <= limit && retries <= t && BlockedRun(script, t - retries, t)
    ensures var r := SendLoop(limit, script, t, len, offset, retries);
            && (r.status == Blocked ==> (r.calls > limit && BlockedRun(script, r.calls - limit - 1, r.calls)))
            && (r.status == Fatal ==> (r.calls > t && script(r.calls - 1) in {Failed, Took(0)}))
    decreases len - offset, limit - retries
  {
    if offset < len {
      if script(t).Took? && script(t).n > 0 {
        WhyItStops(limit, script, t + 1, len, offset + Min(script(t).n, len - offset), 0);
      } else if script(t).WouldBlock? && retries < limit {
        WhyItStops(limit, script, t + 1, len, offset, retries + 1);
      }
    }
  }

  // ---- When the loop ends ----

  /** The last of n calls from t on failed, or returned 0. */
  ghost predicate Failing(script: Script, t: nat, n: nat) {
    n > 0 && script(t + n - 1) in {Failed, Took(0)}
  }

  /** The last limit + 1 of n calls from t on would have blocked. */
  ghost predicate Stuck(limit: nat, script: Script, t: nat, n: nat) {
    n > limit && BlockedRun(script, t + n - limit - 1, t + n)
  }

  ghost predicate Ends(limit: nat, script: Script, t: nat, n: nat, room: nat) {
    Moved(script, t, n, room) == room || Failing(script, t, n) || Stuck(limit, script, t, n)
  }

  /** An attempt to send `room` bytes makes n calls: the first number after which all is sent,
      the socket failed, or it blocked limit + 1 times in a row. */
  ghost predicate Attempt(limit: nat, script: Script, t: nat, n: nat, room: nat) {
    Ends(limit, script, t, n, room) && forall m: nat :: m < n ==> !Ends(limit, script, t, m, room)
  }

  /** Something to send is offered to the socket at least once. */
  lemma SomeCall(limit: nat, script: Script, t: nat, n: nat, room: nat)
    requires Attempt(limit, script, t, n, room) && room > 0
    ensures n > 0
  {
    assert Moved(script, t, 0, room) == 0;
    hide Moved, BlockedRun;
  }

  /** The loop's result in terms of the calls alone. */
  ghost predicate IsAttempt(limit: nat, script: Script, t: nat, n: nat, len: nat, offset: nat, r: Loop)
    requires offset <= len
  {
    && Attempt(limit, script, t, n, len - offset)
    && r.calls == t + n && r.offset == offset + Moved(script, t, n, len - offset)
    && (r.status == Fatal <==> Failing(script, t, n))
    && (r.status == Blocked <==> Stuck(limit, script, t, n))
  }

  /** Where the loop is after m calls, `retries` of them blocked ones since the last progress. */
  ghost predicate GoingOn(limit: nat, script: Script, t: nat, m: nat, room: nat, retries: nat) {
    && retries <= m && retries <= limit && BlockedRun(script, t + m - retries, t + m)
    && (m > retries ==> script(t + m - retries - 1) != WouldBlock)
    && !Failing(script, t, m)
    && forall j: nat :: j < m ==> !Ends(limit, script, t, j, room)
  }

  lemma NotStuck(limit: nat, script: Script, t: nat, m: nat, room: nat, retries: nat)
    requires GoingOn(limit, script, t, m, room, retries)
    ensures !Stuck(limit, script, t, m)
  {
    hide Ends, Failing;
  }

  lemma GoesOn(limit: nat, script: Script, t: nat, m: nat, room: nat, retries: nat)
    requires GoingOn(limit, script, t, m, room, retries) && Moved(script, t, m, room) < room
    ensures var a := script(t + m);
            && (a.Took? && a.n > 0 ==> GoingOn(limit, script, t, m + 1, room, 0))
            && (a.WouldBlock? && retries < limit ==> GoingOn(limit, script, t, m + 1, room, retries + 1))
            && (a in {Failed, Took(0)} ==> Failing(script, t, m + 1) && !Stuck(limit, script, t, m + 1))
            && (a.WouldBlock? && retries == limit ==>
                  Stuck(limit, script, t, m + 1) && !Failing(script, t, m + 1))
    ensures forall j: nat :: j < m + 1 ==> !Ends(limit, script, t, j, room)
  {
    NotStuck(limit, script, t, m, room, retries);
    assert !Ends(limit, script, t, m, room);
    hide Ends, Moved;
  }

  lemma MovedNext(script: Script, t: nat, m: nat, room: nat)
    ensures var before := Moved(script, t, m, room);
            Moved(script, t, m + 1, room)
            == if script(t + m).Took? then before + Min(script(t + m).n, room - before) else before
  {}

  lemma EndsNow(limit: nat, script: Script, t: nat, m: nat, room: nat)
    requires Failing(script, t, m) || Stuck(limit, script, t, m) || Moved(script, t, m, room) == room
    requires forall j: nat :: j < m ==> !Ends(limit, script, t, j, room)
    ensures Attempt(limit, script, t, m, room)
  {
    hide Failing, Stuck, Moved;
  }

  lemma {:induction false} LoopGoesOn(limit: nat, script: Script, t: nat, m: nat, len: nat, start: nat, offset: nat,
                                      retries: nat)
    returns (n: nat)
    requires start <= offset <= len && offset == start + Moved(script, t, m, len - start)
    requires retries <= limit && GoingOn(limit, script, t, m, len - start, retries)
    ensures IsAttempt(limit, script, t, n, len, start, SendLoop(limit, script, t + m, len, offset, retries))
    decreases len - offset, limit - retries
  {
    hide *;
    var room := len - start;
    NotStuck(limit, script, t, m, room, retries);
    if offset == len {
      n := m;
      LoopDone(limit, script, t + m, len, retries);
      LoopEnds(limit, script, t, m, len, start, retries);
    } else {
      LoopStep(limit, script, t + m, len, offset, retries);
      GoesOn(limit, script, t, m, room, retries);
      MovedNext(script, t, m, room);
      var k := FirstCall(script, t + m, len - offset);
      if script(t + m).Took? && script(t + m).n > 0 {
        n := LoopGoesOn(limit, script, t, m + 1, len, start, offset + k, 0);
      } else if script(t + m).WouldBlock? && retries < limit {
        n := LoopGoesOn(limit, script, t, m + 1, len, start, offset, retries + 1);
      } else {
        n := m + 1;
        EndsNow(limit, script, t, m + 1, room);
        AttemptMade(limit, script, t, m + 1, len, start, SendLoop(limit, script, t + m, len, offset, retries));
      }
    }
  }

  lemma AttemptMade(limit: nat, script: Script, t: nat, n: nat, len: nat, start: nat, r: Loop)
    requires start <= len && Attempt(limit, script, t, n, len - start)
    requires r.calls == t + n && r.offset == start + Moved(script, t, n, len - start)
    requires r.status == Fatal <==> Failing(script, t, n)
    requires r.status == Blocked <==> Stuck(limit, script, t, n)
    ensures IsAttempt(limit, script, t, n, len, start, r)
  {
    hide Attempt, Failing, Stuck, Moved;
  }

  lemma LoopEnds(limit: nat, script: Script, t: nat, m: nat, len: nat, start: nat, retries: nat)
    requires start <= len && Moved(script, t, m, len - start) == len - start
    requires GoingOn(limit, script, t, m, len - start, retries)
    ensures IsAttempt(limit, script, t, m, len, start, Loop(t + m, len, Done))
  {
    NotStuck(limit, script, t, m, len - start, retries);
    EndsNow(limit, script, t, m, len - start);
    hide Moved, Stuck, Ends;
  }

  /** The loop is exactly one attempt. */
  lemma LoopIsAttempt(limit: nat, script: Script, t: nat, len: nat, offset: nat) returns (n: nat)
    requires offset <= len
    ensures IsAttempt(limit, script, t, n, len, offset, SendLoop(limit, script, t, len, offset, 0))
  {
    assert GoingOn(limit, script, t, 0, len - offset, 0);
    assert Moved(script, t, 0, len - offset) == 0;
    hide *;
    n := LoopGoesOn(limit, script, t, 0, len, offset, offset, 0);
  }

  // ---- A socket that keeps up ----

  /** Call i does not fail, and no run of more than `limit` blocked calls begins there. */
  ghost predicate KeenCall(limit: nat, script: Script, i: nat) {
    script(i) !in {Failed, Took(0)} && !BlockedRun(script, i, i + limit + 1)
  }

  /** From call t on the socket never fails and never blocks more than `limit` calls in a row. */
  ghost predicate KeenFrom(limit: nat, script: Script, t: nat) {
    forall i: nat :: i >= t ==> KeenCall(limit, script, i)
  }

  ghost predicate Keen(limit: nat, script: Script) {
    KeenFrom(limit, script, 0)
  }

  lemma KeenAt(limit: nat, script: Script, t: nat, i: nat)
    requires KeenFrom(limit, script, t) && i >= t
    ensures script(i) !in {Failed, Took(0)} && !BlockedRun(script, i, i + limit + 1)
    ensures KeenFrom(limit, script, i)
  {
    assert KeenCall(limit, script, i);
    hide BlockedRun;
  }

  lemma KeenNotFailing(limit: nat, script: Script, t: nat, n: nat)
    requires KeenFrom(limit, script, t)
    ensures !Failing(script, t, n)
  {
    if n > 0 { KeenAt(limit, script, t, t + n - 1); }
    hide BlockedRun, KeenFrom;
  }

  lemma KeenNotStuck(limit: nat, script: Script, t: nat, n: nat)
    requires KeenFrom(limit, script, t)
    ensures !Stuck(limit, script, t, n)
  {
    hide BlockedRun, KeenFrom;
    if n > limit {
      KeenAt(limit, script, t, t + n - limit - 1);
      assert t + n - limit - 1 + limit + 1 == t + n;
    }
  }

  lemma AttemptStatus(limit: nat, script: Script, t: nat, n: nat, len: nat, offset: nat, r: Loop)
    requires offset <= len && IsAttempt(limit, script, t, n, len, offset, r)
    ensures r.calls == t + n && (r.status == Fatal ==> Failing(script, t, n))
    ensures r.status == Blocked ==> Stuck(limit, script, t, n)
  {
    hide Attempt, Failing, Stuck, Moved;
  }

  /** On such a socket everything goes out. */
  lemma KeenSends(limit: nat, script: Script, t: nat, len: nat, offset: nat)
    requires KeenFrom(limit, script, t) && offset <= len
    ensures SendLoop(limit, script, t, len, offset, 0).status == Done
    ensures KeenFrom(limit, script, SendLoop(limit, script, t, len, offset, 0).calls)
  {
    hide *;
    var n := LoopIsAttempt(limit, script, t, len, offset);
    AttemptStatus(limit, script, t, n, len, offset, SendLoop(limit, script, t, len, offset, 0));
    KeenNotFailing(limit, script, t, n);
    KeenNotStuck(limit, script, t, n);
    KeenAt(limit, script, t, t + n);
  }

  class Socket {
    const script: Script
    var calls: nat
    ghost var wire: seq<byte>

    constructor (script: Script, calls: nat)
      ensures this.script == script && this.calls == calls && wire == []
    {
      this.script, this.calls, this.wire := script, calls, [];
    }

    /** send: the number of bytes taken, or -1 with `again` when it would block. */
    method Send(data: seq<byte>) returns (sent: int, again: bool)
      requires data != []
      modifies this
      ensures calls == old(calls) + 1
      ensures match script(old(calls))
              case Took(n) => sent == Min(n, |data|) && wire == old(wire) + data[..sent]
              case WouldBlock => sent == -1 && again && wire == old(wire)
              case Failed => sent == -1 && !again && wire == old(wire)
    {
      var a := script(calls);
      calls := calls + 1;
      again := a.WouldBlock?;
      if a.Took? {
        sent := Min(a.n, |data|);
        wire := wire + data[..sent];
      } else {
        sent := -1;
      }
    }
  }

  lemma SentOn(bytes: seq<byte>, start: nat, offset: nat, len: nat, n: nat)
    requires start <= offset <= offset + n <= len <= |bytes|
    ensures bytes[start..offset] + bytes[offset..len][..n] == bytes[start..offset + n]
  {}

  /** The loop itself; `offset` is advanced over what was sent. */
  method SendAll(limit: nat, sock: Socket, data: array<byte>, len: nat, start: nat)
    returns (offset: nat, status: Status)
    requires start <= len <= data.Length
    modifies sock
    ensures var r := SendLoop(limit, sock.script, old(sock.calls), len, start, 0);
            offset == r.offset && status == r.status && sock.calls == r.calls
    ensures start <= offset <= len && sock.wire == old(sock.wire) + data[start..offset]
  {
    hide SendLoop;
    offset := start;
    var retries := 0;
    ghost var bytes, wire := data[..], sock.wire;
    while offset < len
      invariant start <= offset <= len && retries <= limit && data[..] == bytes
      invariant sock.wire == wire + bytes[start..offset]
      invariant SendLoop(limit, sock.script, old(sock.calls), len, start, 0)
             == SendLoop(limit, sock.script, sock.calls, len, offset, retries)
      decreases len - offset, limit - retries
    {
      LoopStep(limit, sock.script, sock.calls, len, offset, retries);
      var rest := data[offset..len];
      assert rest == bytes[offset..len];
      var sent, again := sock.Send(rest);
      if sent > 0 {
        SentOn(bytes, start, offset, len, sent);
        offset := offset + sent;
        retries := 0;
        continue;
      }
      if sent < 0 && again {
        retries := retries + 1;
        if retries > limit {
          return offset, Blocked;
        }
        continue;
      }
      return offset, Fatal;
    }
    LoopDone(limit, sock.script, sock.calls, len, retries);
    return offset, Done;
  }
}

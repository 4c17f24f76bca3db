/** The frame splitter: its in-place buffer, the shared replay buffer, and the loop that
    alternates between a chunk and replayed bytes. */
module Splitter {
  import opened Crc24
  import opened Frames
  import opened SplitterSpec

  datatype Source = Chunk | ReplayBuf

  /** The four locals of the two-source loop: the source being read, its length, the index
      in it, and the chunk index to return to. */
  datatype Cursor = Cursor(src: Source, srcLen: nat, i: nat, resumeAt: nat)

  datatype State = Hunt | Header | Body

  /** memcpy between distinct buffers. */
  method MemCopy(dst: array<byte>, src: array<byte>, start: nat, n: nat)
    requires dst != src && start + n <= src.Length && n <= dst.Length
    modifies dst
    ensures dst[..n] == src[start..start + n]
  {
    forall k | 0 <= k < n {
      dst[k] := src[start + k];
    }
  }

  /** The counters shared by the whole driver, and the frames handed on for publication. */
  class Stats {
    var badLenCount: nat
    var crcFailCount: nat
    var frameCount: nat
    var published: seq<seq<byte>>
    ghost var trace: seq<Event>        // every byte's fate so far
    ghost var lost: nat                // replay bytes overwritten unread

    /** The counters wrap at 32 bits. */
    ghost predicate Valid()
      reads this
    {
      && published == PublishedFrames(trace)
      && frameCount == |published| % UINT32
      && badLenCount == Count(trace, BadLength) % UINT32
      && crcFailCount == Count(trace, BadCrc) % UINT32
    }

    constructor ()
      ensures Valid() && trace == [] && lost == 0
    {
      badLenCount, crcFailCount, frameCount := 0, 0, 0;
      published, trace, lost := [], [], 0;
    }

    /** log_rtcm_bad_len */
    method LogBadLength()
      requires Valid()
      modifies this
      ensures Valid() && trace == old(trace) + [BadLength] && lost == old(lost)
    {
      badLenCount := (badLenCount + 1) % UINT32;
      trace := trace + [BadLength];
      assert trace[..|trace| - 1] == old(trace);
    }

    /** log_rtcm_crc_fail */
    method LogCrcFail()
      requires Valid()
      modifies this
      ensures Valid() && trace == old(trace) + [BadCrc] && lost == old(lost)
    {
      crcFailCount := (crcFailCount + 1) % UINT32;
      trace := trace + [BadCrc];
      assert trace[..|trace| - 1] == old(trace);
    }

    /** publish_rtcm_frame, as far as the splitter sees it. */
    method Publish(frame: seq<byte>)
      requires Valid()
      modifies this
      ensures Valid() && trace == old(trace) + [Published(frame)] && lost == old(lost)
    {
      frameCount := (frameCount + 1) % UINT32;
      published := published + [frame];
      trace := trace + [Published(frame)];
      assert trace[..|trace| - 1] == old(trace);
    }

    /** A byte outside any candidate. */
    ghost method Skip(b: byte)
      requires Valid()
      modifies this
      ensures Valid() && trace == old(trace) + [Skipped(b)] && lost == old(lost)
    {
      trace := trace + [Skipped(b)];
      assert trace[..|trace| - 1] == old(trace);
    }

    ghost method Lose(n: nat)
      requires Valid()
      modifies this`lost
      ensures Valid() && lost == old(lost) + n
    {
      lost := lost + n;
    }
  }

  class FrameSplitter {
    const stats: Stats
    const buf: array<byte>
    const replayBuf: array<byte>
    var state: State
    var bufPos: nat
    var payloadLen: nat
    var totalLen: nat

    /** A candidate is stored in the buffer, with the bookkeeping its state promises. */
    ghost predicate Valid()
      reads this, buf
    {
      && buf.Length == MAX_RTCM_FRAME && replayBuf.Length == MAX_RTCM_FRAME && buf != replayBuf
      && match state
         case Hunt => bufPos == 0
         case Header => 1 <= bufPos <= 2 && buf[0] == SYNC
         case Body =>
           && 3 <= bufPos < totalLen <= MAX_RTCM_FRAME
           && buf[0] == SYNC
           && payloadLen == PayloadLength(buf[1], buf[2]) > 0
           && totalLen == 3 + payloadLen + 3
    }

    /** The live state. */
    ghost function Pending(): (p: seq<byte>)
      reads this, buf
      requires Valid()
      ensures Live(p)
    {
      buf[..bufPos]
    }

    constructor (stats: Stats)
      ensures Valid() && fresh(buf) && fresh(replayBuf) && this.stats == stats
      ensures Pending() == []
    {
      this.stats := stats;
      buf := new byte[MAX_RTCM_FRAME];
      replayBuf := new byte[MAX_RTCM_FRAME];
      state, bufPos, payloadLen, totalLen := Hunt, 0, 0, 0;
    }

    /** splitter_init: also called when the UART driver reports lost bytes. */
    method Init()
      requires buf.Length == MAX_RTCM_FRAME && replayBuf.Length == MAX_RTCM_FRAME && buf != replayBuf
      modifies this`state, this`bufPos
      ensures Valid() && Pending() == []
    {
      state := Hunt;
      bufPos := 0;
    }

    /** splitter_push_byte: -1, or the index from which the buffer must be replayed. */
    method PushByte(b: byte) returns (replayStart: int)
      requires Valid() && stats.Valid()
      modifies this, buf, stats
      ensures stats.Valid() && stats.lost == old(stats.lost) && bufPos <= MAX_RTCM_FRAME
      ensures var x := Push(old(Pending()), b);
        && stats.trace == old(stats.trace) + x.events
        && replayStart == (if x.again then 1 else -1)
        && buf[..bufPos] == x.buf
        && (!x.again ==> Valid())
    {
      match state {
        case Hunt =>
          if b == 0xD3 {
            buf[0] := b;
            bufPos := 1;
            state := Header;
          } else {
            stats.Skip(b);
          }
          replayStart := -1;
        case Header =>
          replayStart := PushHeaderByte(b);
        case Body =>
          replayStart := PushBodyByte(b);
      }
    }

    /** The STATE_RTCM_HDR case of splitter_push_byte. */
    method PushHeaderByte(b: byte) returns (replayStart: int)
      requires Valid() && stats.Valid() && state == Header
      modifies this, buf, stats
      ensures stats.Valid() && stats.lost == old(stats.lost) && bufPos <= MAX_RTCM_FRAME
      ensures var x := Push(old(Pending()), b);
        && stats.trace == old(stats.trace) + x.events
        && replayStart == (if x.again then 1 else -1)
        && buf[..bufPos] == x.buf
        && (!x.again ==> Valid())
    {
      ghost var c := Pending() + [b];
      buf[bufPos] := b;
      bufPos := bufPos + 1;
      assert buf[..bufPos] == c;
      if bufPos == 3 {
        var len := PayloadLength(buf[1], buf[2]);
        if len == 0 || len > 1023 {
          stats.LogBadLength();
          return 1;
        }
        payloadLen := len;
        totalLen := 3 + len + 3;
        state := Body;
      }
      return -1;
    }

    /** The STATE_RTCM_BODY case of splitter_push_byte. */
    method PushBodyByte(b: byte) returns (replayStart: int)
      requires Valid() && stats.Valid() && state == Body
      modifies this, buf, stats
      ensures stats.Valid() && stats.lost == old(stats.lost) && bufPos <= MAX_RTCM_FRAME
      ensures var x := Push(old(Pending()), b);
        && stats.trace == old(stats.trace) + x.events
        && replayStart == (if x.again then 1 else -1)
        && buf[..bufPos] == x.buf
        && (!x.again ==> Valid())
    {
      ghost var p, c := Pending(), Pending() + [b];
      BodyPush(p, b);
      if bufPos >= MAX_RTCM_FRAME {
        assert false;   // the defensive overflow branch is unreachable
      }
      buf[bufPos] := b;
      bufPos := bufPos + 1;
      assert buf[..bufPos] == c;
      assert TotalLength(c) == totalLen && (bufPos < totalLen ==> Valid());
      assert buf.Length == replayBuf.Length == MAX_RTCM_FRAME && buf != replayBuf;
      hide *;
      if bufPos == totalLen {
        var accepted := JudgeBody(c);
        replayStart := if accepted then -1 else 1;
      } else {
        replayStart := -1;
      }
    }

    /** A complete body: compare the checksums, then publish or count the failure. */
    method JudgeBody(ghost c: seq<byte>) returns (accepted: bool)
      requires buf.Length == replayBuf.Length == MAX_RTCM_FRAME && buf != replayBuf && stats.Valid()
      requires 3 <= totalLen == bufPos <= MAX_RTCM_FRAME && buf[..bufPos] == c
      modifies this`state, this`bufPos, stats
      ensures stats.Valid() && stats.lost == old(stats.lost)
      ensures accepted == (Crc(c[..|c| - 3]) == Received(c))
      ensures stats.trace == old(stats.trace) + [if accepted then Published(c) else BadCrc]
      ensures if accepted then Valid() && bufPos == 0 else bufPos == old(bufPos)
    {
      hide *;
      var computed := Crc24q(buf[..totalLen - 3]);
      var received := buf[totalLen - 3] as nat * 0x10000
                    + buf[totalLen - 2] as nat * 0x100
                    + buf[totalLen - 1] as nat;
      ReceivedIs(c);
      assert buf[..totalLen - 3] == c[..|c| - 3];
      accepted := computed == received;
      if accepted {
        stats.Publish(buf[..totalLen]);
        Init();
        PendingNow();
      } else {
        stats.LogCrcFail();
      }
    }

    static lemma ReceivedIs(c: seq<byte>)
      requires |c| >= 3
      ensures Received(c) == c[|c| - 3] as nat * 0x10000 + c[|c| - 2] as nat * 0x100 + c[|c| - 1] as nat
    {}

    /** One more byte of a body: the candidate grows, or is complete and judged. */
    static lemma BodyPush(p: seq<byte>, b: byte)
      requires Live(p) && |p| >= 3
      ensures var c := p + [b];
              && |c| <= TotalLength(c) == TotalLength(p)
              && (|c| < TotalLength(c) ==> Push(p, b) == Pushed(c, [], false))
              && (|c| == TotalLength(c) ==>
                    Push(p, b) == if Crc(c[..|c| - 3]) == Received(c) then Pushed([], [Published(c)], false)
                                  else Pushed(c, [BadCrc], true))
    {
      var c := p + [b];
      if |c| == TotalLength(c) {
        WholeCandidate(c);
      }
      hide Crc, Received, CrcMatches;
    }

    static lemma WholeCandidate(c: seq<byte>)
      requires |c| >= 3 && |c| == TotalLength(c) && PayloadLength(c[1], c[2]) > 0
      ensures Judge(c) == if Crc(c[..|c| - 3]) == Received(c) then Complete else RejectCrc
    {
      assert c[..TotalLength(c)] == c;
    }

    /** The failed candidate, from `replayStart` on, becomes the replay buffer. */
    method Rewind(replayStart: nat) returns (replayLen: nat)
      requires buf.Length == MAX_RTCM_FRAME && replayBuf.Length == MAX_RTCM_FRAME && buf != replayBuf
      requires bufPos <= MAX_RTCM_FRAME
      modifies this`state, this`bufPos, replayBuf
      ensures Valid() && Pending() == []
      ensures replayLen == if old(bufPos) > replayStart then old(bufPos) - replayStart else 0
      ensures replayLen > 0 ==> replayBuf[..replayLen] == old(buf[..bufPos])[replayStart..]
    {
      replayLen := if bufPos > replayStart then bufPos - replayStart else 0;
      ghost var c := buf[..bufPos];
      Init();
      if replayLen > 0 {
        MemCopy(replayBuf, buf, replayStart, replayLen);
        assert c[replayStart..] == buf[replayStart..replayStart + replayLen];
      }
    }

    /** The cursor is inside its source, and a replay inside its buffer. */
    ghost predicate InRange(c: Cursor, data: seq<byte>) {
      && c.i <= c.srcLen
      && c.resumeAt <= |data|
      && match c.src
         case Chunk => c.srcLen == |data|
         case ReplayBuf => c.srcLen <= replayBuf.Length
    }

    ghost function UnreadReplay(c: Cursor, data: seq<byte>): seq<byte>
      reads replayBuf
      requires InRange(c, data)
    {
      if c.src == ReplayBuf then replayBuf[..c.srcLen][c.i..] else []
    }

    ghost function UnreadChunk(c: Cursor, data: seq<byte>): seq<byte>
      requires InRange(c, data)
    {
      if c.src == ReplayBuf then data[c.resumeAt..] else data[c.i..]
    }

    /** All bytes still in the buffer or unread. */
    ghost function Backlog(c: Cursor, data: seq<byte>): nat
      reads this
      requires InRange(c, data)
    {
      bufPos + (c.srcLen - c.i) + if c.src == ReplayBuf then |data| - c.resumeAt else 0
    }

    /** The final state, foretold from the current state and the unread bytes. */
    ghost function Outcome(c: Cursor, data: seq<byte>): Result
      reads this, buf, replayBuf, stats
      requires Valid() && InRange(c, data)
    {
      After(stats.trace, stats.lost, Continue(Pending(), UnreadReplay(c, data), UnreadChunk(c, data)))
    }

    lemma OutcomeUnfolds(c: Cursor, data: seq<byte>)
      requires Valid() && InRange(c, data)
      ensures Outcome(c, data)
           == After(stats.trace, stats.lost, Continue(Pending(), UnreadReplay(c, data), UnreadChunk(c, data)))
      ensures Pending() == buf[..bufPos] && |Pending()| == bufPos
    {}

    /** At the last byte of a replay the loop returns to the chunk; at the last byte of the
        chunk it is done. */
    lemma SourceExhausted(c: Cursor, data: seq<byte>)
      requires Valid() && InRange(c, data) && c.i == c.srcLen
      ensures c.src == ReplayBuf ==> Outcome(c, data) == Outcome(Cursor(Chunk, |data|, c.resumeAt, c.resumeAt), data)
      ensures c.src == Chunk ==> Outcome(c, data) == Result(Pending(), stats.trace, stats.lost)
    {
      if c.src == ReplayBuf {
        assert replayBuf[..c.srcLen][c.i..] == [];
      } else {
        assert data[c.i..] == [];
        AllRead(Pending(), stats.trace, stats.lost);
      }
    }

    /** Push b and, if its candidate failed, rewind. `r` and `d` are the replay and chunk
        bytes still unread after b. */
    method PushOrRewind(b: byte, ghost fromReplay: bool, ghost r: seq<byte>, ghost d: seq<byte>, ghost goal: Result)
      returns (again: bool, replayLen: nat)
      requires Valid() && stats.Valid() && (!fromReplay ==> r == [])
      requires goal == After(stats.trace, stats.lost, if fromReplay then Continue(Pending(), [b] + r, d)
                                                      else Continue(Pending(), [], [b] + d))
      modifies this, buf, replayBuf, stats
      ensures Valid() && stats.Valid() && replayLen <= MAX_RTCM_FRAME
      ensures again ==> goal == After(stats.trace, stats.lost, Continue(Pending(), replayBuf[..replayLen], d))
      ensures again ==> bufPos == 0 && 0 < replayLen == old(bufPos)
      ensures !again ==> goal == After(stats.trace, stats.lost, Continue(Pending(), r, d))
      ensures !again ==> bufPos <= old(bufPos) + 1 && unchanged(replayBuf)
    {
      ghost var p := Pending();
      PendingNow();
      BuffersNow();
      hide *;
      GoalAfterPush(p, b, fromReplay, r, d, stats.trace, stats.lost, goal);
      var replayStart := PushByte(b);
      if replayStart < 0 {
        PendingNow();
        return false, 0;
      }
      assert bufPos == |p| + 1;
      replayLen := Rewind(replayStart);
      stats.Lose(|r|);
      again := true;
      PendingNow();
    }

    /** What is left to do once b has been pushed. */
    static lemma GoalAfterPush(p: seq<byte>, b: byte, fromReplay: bool, r: seq<byte>, d: seq<byte>,
                               t: seq<Event>, l: nat, goal: Result)
      requires Live(p) && (!fromReplay ==> r == [])
      requires goal == After(t, l, if fromReplay then Continue(p, [b] + r, d) else Continue(p, [], [b] + d))
      ensures Live([])
      ensures var x := Push(p, b);
              goal == if x.again then After(t + x.events, l + |r|, Continue([], x.buf[1..], d))
                      else After(t + x.events, l, Continue(x.buf, r, d))
    {
      assert Live([]);
      hide *;
      var x := Push(p, b);
      ContinueSteps(p, b, fromReplay, r, d);
      if x.again {
        AfterAfter(t, l, x.events, |r|, Continue([], x.buf[1..], d));
      } else {
        AfterAfter(t, l, x.events, 0, Continue(x.buf, r, d));
      }
    }

    lemma BuffersNow()
      requires Valid()
      ensures buf.Length == replayBuf.Length == MAX_RTCM_FRAME && buf != replayBuf
    {}

    lemma PendingNow()
      requires Valid()
      ensures Pending() == buf[..bufPos] && |Pending()| == bufPos
    {}

    /** The body of the inner loop: push the next byte and, if its candidate failed, rewind. */
    method Turn(data: seq<byte>, c: Cursor, ghost goal: Result) returns (c': Cursor)
      requires Valid() && stats.Valid() && InRange(c, data) && c.i < c.srcLen
      requires goal == Outcome(c, data)
      modifies this, buf, replayBuf, stats
      ensures Valid() && stats.Valid() && InRange(c', data)
      ensures goal == Outcome(c', data)
      ensures Backlog(c', data) <= old(Backlog(c, data))
      ensures (c'.src == c.src && c'.srcLen - c'.i < c.srcLen - c.i)
           || (c'.src == ReplayBuf && Backlog(c', data) < old(Backlog(c, data)))
    {
      var b := if c.src == Chunk then data[c.i] else replayBuf[c.i];
      ghost var next := c.(i := c.i + 1);
      ghost var r, d := UnreadReplay(next, data), UnreadChunk(next, data);
      NextUnread(data, c, b);
      OutcomeUnfolds(c, data);
      assert InRange(next, data) && replayBuf.Length == MAX_RTCM_FRAME;
      hide *;
      var again, replayLen := PushOrRewind(b, c.src == ReplayBuf, r, d, goal);
      c' := c.(i := c.i + 1);
      if again {
        if c'.src != ReplayBuf {
          c' := c'.(resumeAt := c'.i);
        }
        c' := c'.(src := ReplayBuf, srcLen := replayLen, i := 0);
        Switched(data, next, c');
      }
      Shrinks(data, c, c', old(bufPos), old(Backlog(c, data)), again);
      OutcomeUnfolds(c', data);
    }

    /** The cursor at the start of a new replay. */
    lemma Switched(data: seq<byte>, next: Cursor, c': Cursor)
      requires InRange(next, data) && c'.srcLen <= replayBuf.Length
      requires c' == Cursor(ReplayBuf, c'.srcLen, 0, if next.src != ReplayBuf then next.i else next.resumeAt)
      ensures InRange(c', data)
      ensures UnreadReplay(c', data) == replayBuf[..c'.srcLen] && UnreadChunk(c', data) == UnreadChunk(next, data)
    {}

    lemma Shrinks(data: seq<byte>, c: Cursor, c': Cursor, bufBefore: nat, before: nat, again: bool)
      requires InRange(c, data) && InRange(c', data) && c.i < c.srcLen
      requires before == bufBefore + (c.srcLen - c.i) + if c.src == ReplayBuf then |data| - c.resumeAt else 0
      requires !again ==> c' == c.(i := c.i + 1) && bufPos <= bufBefore + 1
      requires again ==> bufPos == 0 && c'.srcLen == bufBefore
                         && c' == Cursor(ReplayBuf, c'.srcLen, 0, if c.src != ReplayBuf then c.i + 1 else c.resumeAt)
      ensures Backlog(c', data) <= before
      ensures (c'.src == c.src && c'.srcLen - c'.i < c.srcLen - c.i)
           || (c'.src == ReplayBuf && Backlog(c', data) < before)
    {}

    lemma NextUnread(data: seq<byte>, c: Cursor, b: byte)
      requires InRange(c, data) && c.i < c.srcLen
      requires b == if c.src == Chunk then data[c.i] else replayBuf[c.i]
      ensures var next := c.(i := c.i + 1);
        if c.src == ReplayBuf then
          UnreadReplay(c, data) == [b] + UnreadReplay(next, data) && UnreadChunk(c, data) == UnreadChunk(next, data)
        else
          UnreadChunk(c, data) == [b] + UnreadChunk(next, data)
          && UnreadReplay(c, data) == UnreadReplay(next, data) == []
    {}

    /** splitter_process_bytes: the loop over two sources computes the byte-by-byte fold. */
    method ProcessBytes(data: seq<byte>)
      requires Valid() && stats.Valid()
      modifies this, buf, replayBuf, stats
      ensures Valid() && stats.Valid()
      ensures var r := FeedAll(old(Pending()), data);
        && Pending() == r.pending
        && stats.trace == old(stats.trace) + r.trace
        && stats.lost == old(stats.lost) + r.lost
    {
      var c := Cursor(Chunk, |data|, 0, 0);
      ghost var goal := Outcome(c, data);
      ContinueIsFeedAll(Pending(), data);
      assert data[0..] == data;
      ghost var expected := FeedAll(Pending(), data);
      assert goal == Result(expected.pending, stats.trace + expected.trace, stats.lost + expected.lost);
      hide FeedAll, Continue, Outcome, Valid, Stats.Valid;
      while true
        invariant Valid() && stats.Valid() && InRange(c, data)
        invariant c.src == Chunk && goal == Outcome(c, data)
        decreases Backlog(c, data)
      {
        ghost var size := Backlog(c, data);
        while c.i < c.srcLen
          invariant Valid() && stats.Valid() && InRange(c, data)
          invariant goal == Outcome(c, data)
          invariant Backlog(c, data) + (if c.src == ReplayBuf then 1 else 0) <= size
          decreases Backlog(c, data), c.srcLen - c.i
        {
          c := Turn(data, c, goal);
        }
        SourceExhausted(c, data);
        if c.src == Chunk {
          break;
        }
        c := Cursor(Chunk, |data|, c.resumeAt, c.resumeAt);
      }
    }
  }
}

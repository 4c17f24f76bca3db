/** A stream on which the splitter differs from the reference scanner: a second candidate
    fails while replay bytes are unread, they are overwritten, and a valid frame is missed. */
module ReplayLoss {
  import opened Gf2
  import opened Crc24
  import opened Frames
  import opened SplitterSpec
  import opened Scanner
  import opened SplitterTheorems

  /** A false candidate announcing one payload byte, up to the last byte of its checksum;
      read from its fourth byte on, it is another candidate, of length 0. */
  const FALSE_START: seq<byte> := [SYNC, 4, 1, SYNC, 0, 0]

  lemma OddHalf(c: nat, n: nat)
    ensures Odd(Bits(c, n + 1)) == (Odd(Bits(c / 2, n)) != (c % 2 == 1))
  {
    OddSnoc(Bits(c / 2, n), c % 2 == 1);
  }

  lemma OddNone()
    ensures !Odd(Bits(0, 0))
  {}

  lemma {:induction false} OddLow(c: nat, n: nat)
    requires c <= 1
    ensures Odd(Bits(c, n + 1)) == (c == 1)
    decreases n
  {
    hide Odd, Bits;
    OddHalf(c, n);
    if n == 0 { OddNone(); } else { OddLow(0, n - 1); }
  }

  lemma ByteParities()
    ensures Odd(Bits(SYNC, 8)) && Odd(Bits(4, 8)) && Odd(Bits(1, 8)) && !Odd(Bits(0, 8))
  {
    hide Odd, Bits;
    OddLow(0, 7);
    OddLow(1, 7);
    OddHalf(4, 7);
    OddHalf(2, 6);
    OddLow(1, 5);
    OddHalf(0xD3, 7);
    OddHalf(105, 6);
    OddHalf(52, 5);
    OddHalf(26, 4);
    OddHalf(13, 3);
    OddHalf(6, 2);
    OddHalf(3, 1);
    OddLow(1, 0);
  }

  lemma OddByte(m: seq<byte>, b: byte)
    ensures Odd(Message(m + [b])) == (Odd(Message(m)) != Odd(Bits(b, 8)))
  {
    MessageSnoc(m, b);
    OddConcat(Message(m), Bits(b, 8));
  }

  /** The false candidate has 17 one bits, so its checksum cannot match. */
  lemma FalseCandidateFails()
    ensures !CrcMatches(FALSE_START + [SYNC])
  {
    var m0: seq<byte> := [];
    var m1, m2, m3, m4, m5, m6, m7 := [SYNC], [SYNC, 4], [SYNC, 4, 1], [SYNC, 4, 1, SYNC],
      [SYNC, 4, 1, SYNC, 0], FALSE_START, FALSE_START + [SYNC];
    assert m1 == m0 + [SYNC] && m2 == m1 + [4] && m3 == m2 + [1];
    assert m4 == m3 + [SYNC] && m5 == m4 + [0] && m6 == m5 + [0];
    assert !Odd(Message(m0));
    hide *;
    ByteParities();
    OddByte(m0, SYNC);
    OddByte(m1, 4);
    OddByte(m2, 1);
    OddByte(m3, SYNC);
    OddByte(m4, 0);
    OddByte(m5, 0);
    OddByte(m6, SYNC);
    assert |m7| == 7;
    if CrcMatches(m7) {
      MatchIsEven(m7);
    }
  }

  lemma VerdictOf(c: seq<byte>)
    requires |c| >= 3 && PayloadLength(c[1], c[2]) == |c| - 6 > 0
    ensures Judge(c) == if CrcMatches(c) then Complete else RejectCrc
  {
    assert c[..TotalLength(c)] == c;
  }

  lemma OnePayloadByte()
    ensures PayloadLength(4, 1) == 1
  {
    hide PayloadLength;
  }

  lemma FalseVerdict()
    ensures Judge(FALSE_START + [SYNC]) == RejectCrc
  {
    assert FALSE_START == [SYNC, 4, 1, SYNC, 0, 0];
    hide *;
    OnePayloadByte();
    FalseCandidateFails();
    VerdictOf(FALSE_START + [SYNC]);
  }

  lemma FalseCandidate()
    ensures Live(FALSE_START)
    ensures Push(FALSE_START, SYNC) == Pushed(FALSE_START + [SYNC], [BadCrc], true)
  {
    assert Judge(FALSE_START) == Partial;
    FalseVerdict();
    hide Judge;
  }

  lemma FailFeed(p: seq<byte>, b: byte, c: seq<byte>, e: Event)
    requires Live(p) && FeedAll([], p) == Result(p, [], 0) && Push(p, b) == Pushed(c, [e], true)
    ensures FeedAll([], p + [b]) == After([e], 0, Replay([], c[1..]))
  {
    var y := FeedAll(p, [b]);
    assert Then(Result(p, [], 0), [b]) == After([], 0, y);
    assert Feed(p, b) == After([e], 0, Replay([], c[1..]));
    assert Live([]);
    hide *;
    ChunksCompose([], p, [b]);
    NothingAfter(y);
    FeedOne(p, b);
  }

  /** Feeding the false candidate loses its last byte and leaves nothing in the buffer. */
  lemma FalseStartLoses()
    ensures FeedAll([], FALSE_START + [SYNC])
         == Result([], [BadCrc, Skipped(4), Skipped(1), BadLength, Skipped(0), Skipped(0)], 1)
  {
    var c: seq<byte> := FALSE_START + [SYNC];
    assert c[1..] == [4, 1, SYNC, 0, 0, SYNC];
    var t := [Skipped(4), Skipped(1), BadLength, Skipped(0), Skipped(0)];
    assert After([BadCrc], 0, Result([], t, 1)) == Result([], [BadCrc] + t, 1);
    hide *;
    FalseCandidate();
    CandidateBuffered(FALSE_START);
    FailFeed(FALSE_START, SYNC, c, BadCrc);
    InnerReplay(c[1..]);
  }

  lemma SkipReplay(b: byte, r: seq<byte>, y: Result)
    requires b != SYNC && Replay([], r) == y
    ensures Replay([], [b] + r) == After([Skipped(b)], 0, y)
  {
    assert ([b] + r)[1..] == r;
  }

  lemma KeepReplay(p: seq<byte>, b: byte, r: seq<byte>, q: seq<byte>)
    requires Live(p) && Push(p, b) == Pushed(q, [], false)
    ensures Replay(p, [b] + r) == After([], 0, Replay(q, r))
  {
    assert ([b] + r)[1..] == r;
  }

  lemma FailReplay(p: seq<byte>, b: byte, r: seq<byte>, c: seq<byte>, e: Event)
    requires Live(p) && Push(p, b) == Pushed(c, [e], true)
    ensures Replay(p, [b] + r) == After([e], |r|, Replay([], c[1..]))
  {
    assert ([b] + r)[1..] == r;
  }

  lemma NoReplayLeft()
    ensures Replay([], []) == Result([], [], 0)
  {}

  lemma InnerVerdicts()
    ensures Judge([SYNC]) == Partial && Judge([SYNC, 0]) == Partial && Judge([SYNC, 0, 0]) == RejectLength
  {
    hide CrcMatches, PayloadLength, TotalLength;
  }

  lemma InnerPushes()
    ensures Live([]) && Live([SYNC]) && Live([SYNC, 0])
    ensures Push([], SYNC) == Pushed([SYNC], [], false)
    ensures Push([SYNC], 0) == Pushed([SYNC, 0], [], false)
    ensures Push([SYNC, 0], 0) == Pushed([SYNC, 0, 0], [BadLength], true)
  {
    InnerVerdicts();
    hide Judge, CrcMatches;
    assert [SYNC] + [0] == [SYNC, 0] && [SYNC, 0] + [0] == [SYNC, 0, 0];
  }

  lemma InnerTrace()
    ensures After([Skipped(4)], 0, After([Skipped(1)], 0, After([], 0, After([], 0, After([BadLength], 1,
      After([Skipped(0)], 0, After([Skipped(0)], 0, Result([], [], 0))))))))
      == Result([], [Skipped(4), Skipped(1), BadLength, Skipped(0), Skipped(0)], 1)
  {
    assert [Skipped(4)] + ([Skipped(1)] + ([] + ([] + ([BadLength] + ([Skipped(0)] + ([Skipped(0)] + []))))))
        == [Skipped(4), Skipped(1), BadLength, Skipped(0), Skipped(0)];
  }

  lemma InnerReplay(r: seq<byte>)
    requires r == [4, 1, SYNC, 0, 0, SYNC]
    ensures Replay([], r) == Result([], [Skipped(4), Skipped(1), BadLength, Skipped(0), Skipped(0)], 1)
  {
    InnerPushes();
    var none: seq<byte> := [];
    var zero, last: seq<byte> := [0] + none, [SYNC] + none;
    assert [SYNC, 0, 0][1..] == [0] + zero;
    hide *;
    NoReplayLeft();
    SkipReplay(0, none, Result([], [], 0));
    SkipReplay(0, zero, Replay([], zero));
    var r4, r3 := [0] + last, [0] + ([0] + last);
    FailReplay([SYNC, 0], 0, last, [SYNC, 0, 0], BadLength);
    KeepReplay([SYNC], 0, r4, [SYNC, 0]);
    KeepReplay([], SYNC, r3, [SYNC]);
    SkipReplay(1, [SYNC] + r3, Replay([], [SYNC] + r3));
    SkipReplay(4, [1] + ([SYNC] + r3), Replay([], [1] + ([SYNC] + r3)));
    assert r == [4] + ([1] + ([SYNC] + r3));
    InnerTrace();
  }

  lemma {:induction false} FramesNeedBytes(t: seq<Event>)
    requires AllFrames(t) && PublishedFrames(t) != []
    ensures |TraceBytes(t)| >= 7
  {
    var v, e := t[..|t| - 1], t[|t| - 1];
    if !e.Published? {
      FramesNeedBytes(v);
    }
  }

  lemma ShortStreamPublishesNothing(data: seq<byte>)
    requires |data| < 7
    ensures PublishedFrames(FeedAll([], data).trace) == []
  {
    var y := FeedAll([], data);
    StreamAccounts([], data);
    OnlyFramesPublished([], data);
    if PublishedFrames(y.trace) != [] {
      FramesNeedBytes(y.trace);
      assert false;
    }
  }

  /** The scanner finds any shortest frame behind the false start; the splitter finds none.
      Such frames exist. */
  lemma FrameMissed(f: seq<byte>)
    ensures IsFrame(f) && |f| == 7 ==>
              (PublishedFrames(Scan(FALSE_START + f).trace) == [f]
               && PublishedFrames(FeedAll([], FALSE_START + f).trace) == []
               && FeedAll([], FALSE_START + f).lost > 0)
    ensures IsFrame(Encode([0])) && |Encode([0])| == 7
  {
    EncodeIsFrame([0]);
    if IsFrame(f) && |f| == 7 {
      assert f == [SYNC] + f[1..];
      hide *;
      SplitterMisses(f, f[1..]);
      ScannerFinds(f);
    }
  }

  /** Whatever follows a stream that published nothing and ends hunting is read afresh; fewer
      than 7 bytes are no frame. */
  lemma NothingFollows(a: seq<byte>, t: seq<Event>, l: nat, rest: seq<byte>)
    requires FeedAll([], a) == Result([], t, l) && PublishedFrames(t) == [] && |rest| < 7
    ensures PublishedFrames(FeedAll([], a + rest).trace) == [] && FeedAll([], a + rest).lost >= l
  {
    var y := FeedAll([], rest);
    assert Live([]) && Then(Result([], t, l), rest) == After(t, l, y);
    hide *;
    ShortStreamPublishesNothing(rest);
    ChunksCompose([], a, rest);
    AfterIs(t, l, y, []);
    PublishedConcat(t, y.trace);
  }

  lemma SplitterMisses(f: seq<byte>, rest: seq<byte>)
    requires f == [SYNC] + rest && |f| == 7
    ensures PublishedFrames(FeedAll([], FALSE_START + f).trace) == []
    ensures FeedAll([], FALSE_START + f).lost > 0
  {
    var t := [BadCrc, Skipped(4), Skipped(1), BadLength, Skipped(0), Skipped(0)];
    assert FALSE_START + f == (FALSE_START + [SYNC]) + rest;
    NoneAmong(t);
    hide *;
    FalseStartLoses();
    NothingFollows(FALSE_START + [SYNC], t, 1, rest);
  }

  lemma {:induction false} NoneAmong(t: seq<Event>)
    requires forall i :: 0 <= i < |t| ==> !t[i].Published?
    ensures PublishedFrames(t) == []
  {
    if t != [] {
      NoneAmong(t[..|t| - 1]);
    }
  }

  lemma ScanSkips(b: byte, d: seq<byte>)
    requires b != SYNC
    ensures Scan([b] + d) == Cons(Skipped(b), Scan(d))
  {
    assert ([b] + d)[1..] == d;
  }

  lemma ScanRejects(s: seq<byte>, d: seq<byte>)
    requires s == [SYNC] + d && (Judge(s) == RejectLength || Judge(s) == RejectCrc)
    ensures Scan(s) == Cons(if Judge(s) == RejectLength then BadLength else BadCrc, Scan(d))
  {
    assert s[1..] == d;
  }

  lemma ScanFinds(f: seq<byte>)
    requires IsFrame(f)
    ensures Scan(f) == Scanned([Published(f)], [])
  {
    FrameCompletes(f, []);
    assert f + [] == f && f[|f|..] == [] && f[..|f|] == f;
  }

  lemma EmptyVerdict()
    ensures Judge([SYNC, 0, 0]) == RejectLength
  {
    hide PayloadLength, CrcMatches, TotalLength;
  }

  lemma FrameStarts(f: seq<byte>)
    requires IsFrame(f)
    ensures f == [SYNC] + f[1..] && SYNC == 0xD3
  {
    hide PayloadLength, CrcMatches;
  }

  lemma ScannerFinds(f: seq<byte>)
    requires IsFrame(f) && |f| == 7
    ensures PublishedFrames(Scan(FALSE_START + f).trace) == [f]
  {
    assert FALSE_START == [SYNC, 4, 1, SYNC, 0, 0];
    hide *;
    FrameStarts(f);
    var s5 := [0] + f;
    var s4 := [0] + s5;
    var s3 := [SYNC] + s4;
    var s2 := [1] + s3;
    var s1 := [4] + s2;
    assert s3 == [SYNC, 0, 0] + f;
    assert FALSE_START + f == [SYNC] + s1;
    assert FALSE_START + f == (FALSE_START + [SYNC]) + f[1..];
    ScanFinds(f);
    ScanSkips(0, f);
    ScanSkips(0, s5);
    EmptyVerdict();
    JudgePrefix([SYNC, 0, 0], f);
    ScanRejects(s3, s4);
    ScanSkips(1, s3);
    ScanSkips(4, s2);
    FalseVerdict();
    JudgePrefix(FALSE_START + [SYNC], f[1..]);
    ScanRejects(FALSE_START + f, s1);
    SixThenFrame(f);
  }

  lemma SixThenFrame(f: seq<byte>)
    ensures PublishedFrames(Cons(BadCrc, Cons(Skipped(4), Cons(Skipped(1), Cons(BadLength,
      Cons(Skipped(0), Cons(Skipped(0), Scanned([Published(f)], []))))))).trace) == [f]
  {
    var t := [BadCrc, Skipped(4), Skipped(1), BadLength, Skipped(0), Skipped(0)];
    NoneAmong(t);
    PublishedSnoc(t, Published(f));
    assert [BadCrc] + ([Skipped(4)] + ([Skipped(1)] + ([BadLength] + ([Skipped(0)] + ([Skipped(0)] + [Published(f)])))))
        == t + [Published(f)];
  }
}

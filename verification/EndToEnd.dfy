/** From the serial line to a rover: the splitter, the shared pool and the caster together. */
module EndToEnd {
  import opened Crc24
  import opened Frames
  import opened Sequences
  import opened SplitterSpec
  import opened SplitterTheorems
  import R = RoverSpec
  import S = Sockets
  import U = UplinkSpec

  ghost predicate AllAreFrames(fs: seq<seq<byte>>) {
    forall i :: 0 <= i < |fs| ==> IsFrame(fs[i])
  }

  /** A splitter reading `wire` afresh publishes exactly the frames fs, counts no error, and
      is left with `rest`. */
  ghost predicate Resplits(wire: seq<byte>, fs: seq<seq<byte>>, rest: seq<byte>) {
    var y := FeedAll([], wire);
    y.pending == rest && Parses(y.(pending := []), fs)
  }

  lemma WholeResplit(fs: seq<seq<byte>>)
    requires AllAreFrames(fs)
    ensures Resplits(Flatten(fs), fs, [])
  {
    var items := seq(|fs|, i requires 0 <= i < |fs| => Whole(fs[i]));
    AllWhole(fs, items);
    LineParses(items);
    hide Line, FramesOf, FeedAll;
  }

  lemma AmongFrames(a: seq<seq<byte>>, b: seq<seq<byte>>)
    requires Subsequence(a, b) && AllAreFrames(b)
    ensures AllAreFrames(a)
  {
    var at :| SitsAt(a, b, at);
    forall i | 0 <= i < |a|
      ensures IsFrame(a[i])
    {
      assert b[at[i]] == a[i];
    }
    hide IsFrame;
  }

  /** A splitter at the other end gets every frame of fs, or all but the last, of which a
      proper prefix is left waiting. */
  ghost predicate CutShort(wire: seq<byte>, fs: seq<seq<byte>>, k: nat) {
    fs != [] && k < |fs[|fs| - 1]| && Resplits(wire, fs[..|fs| - 1], fs[|fs| - 1][..k])
  }

  ghost predicate ReadsBack(wire: seq<byte>, fs: seq<seq<byte>>) {
    Resplits(wire, fs, []) || exists k: nat :: CutShort(wire, fs, k)
  }

  lemma CutReadsBack(wire: seq<byte>, fs: seq<seq<byte>>, k: nat)
    requires WholeThenCut(wire, fs, k) && AllAreFrames(fs)
    ensures ReadsBack(wire, fs)
  {
    if fs == [] {
      WholeResplit([]);
    } else {
      var front, last := fs[..|fs| - 1], fs[|fs| - 1];
      if k < |last| {
        assert AllAreFrames(front);
        WholeFramesResplit(front, last, k);
        assert CutShort(wire, fs, k);
      } else {
        assert last[..k] == last;
        WholeResplit(fs);
      }
    }
    hide FeedAll, Parses, IsFrame;
  }

  /** A live connection: what is on the wire and what is deferred are the accepted frames. */
  lemma LiveResplits(conn: R.Conn, tail: seq<byte>)
    requires R.LiveStream(conn, tail) && AllAreFrames(conn.offered)
    ensures Resplits(conn.wire + tail, conn.accepted, []) && AllAreFrames(conn.accepted)
  {
    AmongFrames(conn.accepted, conn.offered);
    WholeResplit(conn.accepted);
    hide Resplits, AllAreFrames, Subsequence;
  }

  /** A receiver of a connection that ended reads back the accepted frames and perhaps one
      more that it was being sent, the last of them possibly cut. */
  ghost predicate ReceivedWhole(conn: R.Conn) {
    exists fs: seq<seq<byte>> ::
      && ReadsBack(conn.wire, fs)
      && Subsequence(fs, conn.offered)
      && conn.accepted <= fs && |fs| <= |conn.accepted| + 1
  }

  lemma ClosedReadsBack(conn: R.Conn)
    requires R.ClosedStream(conn) && AllAreFrames(conn.offered)
    ensures ReceivedWhole(conn)
  {
    var fs: seq<seq<byte>>, k: nat :|
      && WholeThenCut(conn.wire, fs, k)
      && Subsequence(fs, conn.offered)
      && (fs == conn.accepted || (conn.offered != [] && fs == conn.accepted + [conn.offered[|conn.offered| - 1]]));
    AmongFrames(fs, conn.offered);
    CutReadsBack(conn.wire, fs, k);
    hide ReadsBack, AllAreFrames, Subsequence;
    assert conn.accepted <= fs;
  }

  // ---- Order and identity of the bytes ----

  lemma SubsequenceLast<T(!new)>(a: seq<T>, b: seq<T>)
    requires Subsequence(a, b) && b != []
    ensures Subsequence(a, b[..|b| - 1]) ||
            (a != [] && a[|a| - 1] == b[|b| - 1] && Subsequence(a[..|a| - 1], b[..|b| - 1]))
  {
    var at :| SitsAt(a, b, at);
    if a == [] || at[|a| - 1] < |b| - 1 {
      assert SitsAt(a, b[..|b| - 1], at);
    } else {
      assert SitsAt(a[..|a| - 1], b[..|b| - 1], at[..|a| - 1]);
    }
  }

  lemma NothingInNothing<T(!new)>(a: seq<T>, b: seq<T>)
    requires Subsequence(a, b)
    ensures a != [] ==> b != []
  {
    var at :| SitsAt(a, b, at);
    if a != [] {
      assert b[at[0]] == a[0];
    }
  }

  lemma {:induction false} FlattenKeepsOrder<T(!new)>(a: seq<seq<T>>, b: seq<seq<T>>)
    requires Subsequence(a, b)
    ensures Subsequence(Flatten(a), Flatten(b))
    decreases |b|
  {
    if b == [] {
      NothingInNothing(a, b);
      SubsequenceRefl(Flatten(a));
    } else {
      SubsequenceLast(a, b);
      var front, last := b[..|b| - 1], b[|b| - 1];
      if Subsequence(a, front) {
        FlattenKeepsOrder(a, front);
        SubsequenceEmpty(last);
        SubsequenceConcat(Flatten(a), Flatten(front), [], last);
        assert Flatten(a) + [] == Flatten(a);
      } else {
        FlattenKeepsOrder(a[..|a| - 1], front);
        SubsequenceRefl(last);
        SubsequenceConcat(Flatten(a[..|a| - 1]), Flatten(front), last, last);
      }
      hide Subsequence;
    }
  }

  lemma PieceIsSubsequence<T(!new)>(a: seq<T>, b: seq<T>, from: nat)
    requires from + |a| <= |b| && a == b[from..from + |a|]
    ensures Subsequence(a, b)
  {
    assert SitsAt(a, b, seq(|a|, i requires 0 <= i < |a| => from + i));
  }

  /** Frames that came off the line: valid, and their bytes in the order of the line. */
  ghost predicate OffTheLine(fs: seq<seq<byte>>, line: seq<byte>) {
    AllAreFrames(fs) && Subsequence(Flatten(fs), line)
  }

  lemma {:induction false} FramesOfTrace(t: seq<Event>)
    requires AllFrames(t)
    ensures AllAreFrames(PublishedFrames(t))
  {
    if t != [] {
      FramesOfTrace(t[..|t| - 1]);
      hide IsFrame;
    }
  }

  lemma StaysOffTheLine(a: seq<seq<byte>>, b: seq<seq<byte>>, line: seq<byte>)
    requires Subsequence(a, b) && OffTheLine(b, line)
    ensures OffTheLine(a, line)
  {
    AmongFrames(a, b);
    FlattenKeepsOrder(a, b);
    SubsequenceTrans(Flatten(a), Flatten(b), line);
    hide Subsequence, AllAreFrames, Flatten;
  }

  // ---- The composition ----

  lemma OfferedOffTheLine(offered: seq<seq<byte>>, all: seq<seq<byte>>, line: seq<byte>)
    requires R.Block(offered, all) && OffTheLine(all, line)
    ensures OffTheLine(offered, line)
  {
    var i: nat :| R.BlockAt(offered, all, i);
    PieceIsSubsequence(offered, all, i);
    StaysOffTheLine(offered, all, line);
    hide OffTheLine, Subsequence;
  }

  lemma AcceptedOffTheLine(accepted: seq<seq<byte>>, offered: seq<seq<byte>>, line: seq<byte>)
    requires Subsequence(accepted, offered) && OffTheLine(offered, line)
    ensures OffTheLine(accepted, line)
  {
    StaysOffTheLine(accepted, offered, line);
    hide OffTheLine, Subsequence;
  }

  /** What the caster forwards came off the line: then the rover's current connection
      carries, with its deferred tail, exactly the frames accepted for it, valid and in line
      order, and a splitter at the other end gets them back; connections that ended did so up
      to one last, cut frame. */
  lemma RoverOffTheLine(line: seq<byte>, slot: R.Slot, events: seq<R.Event>)
    requires OffTheLine(R.FramesIn(events), line) && R.Unused(slot)
    ensures var s := R.Run(slot, events);
            s.link.phase == R.Streaming ==>
              (OffTheLine(s.conn.accepted, line) &&
               Resplits(s.conn.wire + R.Tail(s.link), s.conn.accepted, []))
    ensures var s := R.Run(slot, events);
            forall i :: 0 <= i < |s.past| ==> OffTheLine(s.past[i].offered, line) && ReceivedWhole(s.past[i])
  {
    var s, all := R.Run(slot, events), R.FramesIn(events);
    assert R.SlotOk(slot);
    hide *;
    R.EveryRoverStream(slot, events);
    R.EveryRoverOffered(slot, events);
    forall i | 0 <= i < |s.past|
      ensures OffTheLine(s.past[i].offered, line) && ReceivedWhole(s.past[i])
    {
      PastOk(s, all, i);
      OfferedOffTheLine(s.past[i].offered, all, line);
      FramesOffTheLine(s.past[i].offered, line);
      ClosedReadsBack(s.past[i]);
    }
    if s.link.phase == R.Streaming {
      LiveOk(s, all);
      OfferedOffTheLine(s.conn.offered, all, line);
      AcceptedOffTheLine(s.conn.accepted, s.conn.offered, line);
      FramesOffTheLine(s.conn.offered, line);
      LiveResplits(s.conn, R.Tail(s.link));
    }
  }

  lemma FramesOffTheLine(fs: seq<seq<byte>>, line: seq<byte>)
    requires OffTheLine(fs, line)
    ensures AllAreFrames(fs)
  {
    hide AllAreFrames, Subsequence;
  }

  lemma PastOk(s: R.Slot, all: seq<seq<byte>>, i: nat)
    requires R.SlotOk(s) && R.Offered(s, all) && i < |s.past|
    ensures R.ClosedStream(s.past[i]) && R.Block(s.past[i].offered, all)
  {
    hide R.ClosedStream, R.Block, R.LiveStream;
  }

  lemma LiveOk(s: R.Slot, all: seq<seq<byte>>)
    requires R.SlotOk(s) && R.Offered(s, all) && s.link.phase == R.Streaming
    ensures R.LiveStream(s.conn, R.Tail(s.link)) && R.Block(s.conn.offered, all)
    ensures Subsequence(s.conn.accepted, s.conn.offered)
  {
    R.SuffixIsBlock(s.conn.offered, all);
    hide Subsequence, R.Block, Flatten, R.ClosedStream;
  }

  /** An uplink's connections, for frames that are valid: the current one is read back as
      exactly the frames it was given, an earlier one up to its last. */
  lemma UplinkReadsBack(script: S.Script, worlds: seq<U.World>)
    requires AllAreFrames(U.Run(U.Init(script), worlds).received)
    ensures var s := U.Run(U.Init(script), worlds);
            && (s.connected ==> Resplits(s.conn.wire, s.conn.frames, []))
            && forall i :: 0 <= i < |s.past| ==> ReadsBack(s.past[i].wire, s.past[i].frames)
  {
    var s := U.Run(U.Init(script), worlds);
    U.EveryUplinkRun(script, worlds);
    hide Resplits, ReadsBack, IsFrame, U.Run, Flatten;
    if s.connected {
      assert s.conn.frames == s.received[|s.received| - |s.conn.frames|..];
      WholeResplit(s.conn.frames);
    }
    forall i | 0 <= i < |s.past|
      ensures ReadsBack(s.past[i].wire, s.past[i].frames)
    {
      PastFrames(s.past, i);
      var k: nat :| WholeThenCut(s.past[i].wire, s.past[i].frames, k);
      var j: nat :| R.BlockAt(s.past[i].frames, Flatten(U.FramesOf(s.past)), j);
      forall n | 0 <= n < |s.past[i].frames|
        ensures IsFrame(s.past[i].frames[n])
      {
        assert s.past[i].frames[n] == s.received[j + n];
      }
      CutReadsBack(s.past[i].wire, s.past[i].frames, k);
    }
  }

  lemma {:induction false} PastFrames(past: seq<U.Conn>, i: nat)
    requires i < |past|
    ensures exists j: nat :: R.BlockAt(past[i].frames, Flatten(U.FramesOf(past)), j)
  {
    var n := |past| - 1;
    assert past == past[..n] + [past[n]];
    U.OneMorePast(past[..n], past[n]);
    var b := Flatten(U.FramesOf(past[..n]));
    if i == n {
      assert R.BlockAt(past[i].frames, b + past[n].frames, |b|);
    } else {
      PastFrames(past[..n], i);
      var j: nat :| R.BlockAt(past[i].frames, b, j);
      assert R.BlockAt(past[i].frames, b + past[n].frames, j);
    }
  }
}

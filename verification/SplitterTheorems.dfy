/** What the splitter promises about whole streams. */
module SplitterTheorems {
  import opened Crc24
  import opened Frames
  import opened Sequences
  import opened SplitterSpec
  import opened Scanner

  // ----- Chunk independence -----

  /** Cutting a stream into chunks, at any place, changes nothing: not the frames, not the
      counters, not the live state, not even inside a replay triggered at the boundary. */
  lemma {:induction false} ChunksCompose(p: seq<byte>, a: seq<byte>, b: seq<byte>)
    requires Live(p)
    ensures FeedAll(p, a + b) == Then(FeedAll(p, a), b)
    decreases |a|
  {
    if a == [] {
      assert a + b == b;
      NothingAfter(FeedAll(p, b));
    } else {
      var x := Feed(p, a[0]);
      var y := FeedAll(x.pending, a[1..]);
      assert (a + b)[1..] == a[1..] + b && (a + b)[0] == a[0];
      assert FeedAll(p, a) == After(x.trace, x.lost, y);
      assert FeedAll(p, a + b) == After(x.trace, x.lost, FeedAll(x.pending, a[1..] + b));
      hide FeedAll, Feed, Then, After;
      ChunksCompose(x.pending, a[1..], b);
      ThenAfter(x.trace, x.lost, y, b);
    }
  }

  /** Feeding a list of chunks one after the other. */
  function FeedChunks(p: seq<byte>, chunks: seq<seq<byte>>): (r: Result)
    requires Live(p)
    ensures Live(r.pending)
  {
    if chunks == [] then Result(p, [], 0)
    else Then(FeedChunks(p, chunks[..|chunks| - 1]), chunks[|chunks| - 1])
  }

  lemma {:induction false} AnyChunking(p: seq<byte>, chunks: seq<seq<byte>>)
    requires Live(p)
    ensures FeedChunks(p, chunks) == FeedAll(p, Flatten(chunks))
  {
    if chunks != [] {
      var n := |chunks| - 1;
      AnyChunking(p, chunks[..n]);
      ChunksCompose(p, Flatten(chunks[..n]), chunks[n]);
    }
  }

  // ----- Soundness of what is published -----

  ghost predicate AllFrames(t: seq<Event>) {
    forall i :: 0 <= i < |t| && t[i].Published? ==> IsFrame(t[i].frame)
  }

  lemma PushPublishesFrames(p: seq<byte>, b: byte)
    requires Live(p)
    ensures AllFrames(Push(p, b).events)
  {
    var c := p + [b];
    if p != [] && Judge(c) == Complete {
      JudgeOfNext(p, b, c);
      assert c[..TotalLength(c)] == c;
    }
  }

  lemma {:induction false} ReplayPublishesFrames(p: seq<byte>, r: seq<byte>)
    requires Live(p)
    ensures AllFrames(Replay(p, r).trace)
    decreases |p| + |r|, |r|
  {
    if r != [] {
      PushPublishesFrames(p, r[0]);
      var q, u, l := ReplayStep(p, r);
      ReplayPublishesFrames(q, u);
      hide *;
      AllFramesAfter(Push(p, r[0]).events, l, Replay(q, u));
    }
  }

  lemma AllFramesAfter(t: seq<Event>, l: nat, r: Result)
    requires AllFrames(t) && AllFrames(r.trace)
    ensures AllFrames(After(t, l, r).trace)
  {}

  /** Every published frame has the sync byte, a length matching its header and a correct
      checksum, whatever the stream and whatever was lost. */
  lemma {:induction false} OnlyFramesPublished(p: seq<byte>, data: seq<byte>)
    requires Live(p)
    ensures AllFrames(FeedAll(p, data).trace)
    decreases |data|
  {
    if data != [] {
      var x := Feed(p, data[0]);
      var y := Push(p, data[0]);
      PushPublishesFrames(p, data[0]);
      if y.again {
        ReplayPublishesFrames([], y.buf[1..]);
        AllFramesAfter(y.events, 0, Replay([], y.buf[1..]));
      }
      OnlyFramesPublished(x.pending, data[1..]);
      AllFramesAfter(x.trace, x.lost, FeedAll(x.pending, data[1..]));
    }
  }

  lemma PublishedSnoc(t: seq<Event>, e: Event)
    ensures PublishedFrames(t + [e]) == PublishedFrames(t) + if e.Published? then [e.frame] else []
    ensures forall x :: Count(t + [e], x) == Count(t, x) + if e == x then 1 else 0
  {
    assert (t + [e])[..|t|] == t;
  }

  lemma {:induction false} PublishedConcat(t: seq<Event>, u: seq<Event>)
    ensures PublishedFrames(t + u) == PublishedFrames(t) + PublishedFrames(u)
    ensures forall x :: Count(t + u, x) == Count(t, x) + Count(u, x)
  {
    if u == [] {
      assert t + u == t;
    } else {
      var v, e := u[..|u| - 1], u[|u| - 1];
      PublishedConcat(t, v);
      PublishedSnoc(t + v, e);
      LastSplits(t, u);
    }
  }

  lemma {:induction false} FramesAmongBytes(t: seq<Event>)
    ensures Subsequence(Flatten(PublishedFrames(t)), TraceBytes(t))
  {
    if t == [] {
      SubsequenceRefl<byte>([]);
    } else {
      var v, e := t[..|t| - 1], t[|t| - 1];
      FramesAmongBytes(v);
      var f := PublishedFrames(v);
      if e.Published? {
        FlattenSnoc(f, e.frame);
        SubsequenceRefl(e.frame);
        SubsequenceConcat(Flatten(f), TraceBytes(v), e.frame, e.frame);
      } else {
        SubsequenceExtend(Flatten(f), TraceBytes(v), EventBytes(e), []);
        assert [] + Flatten(f) == Flatten(f) && [] + TraceBytes(v) == TraceBytes(v);
        assert f + [] == f;
      }
    }
  }

  /** The bytes of all published frames, one frame after the other, and then the bytes still
      buffered, sit at strictly increasing positions of the stream, lost bytes or not. */
  lemma FramesInStreamOrder(p: seq<byte>, data: seq<byte>)
    requires Live(p)
    ensures var y := FeedAll(p, data);
      Subsequence(Flatten(PublishedFrames(y.trace)) + y.pending, p + data)
  {
    var y := FeedAll(p, data);
    assert Accounted(y) == TraceBytes(y.trace) + y.pending;
    hide *;
    StreamAccounts(p, data);
    FramesAmongBytes(y.trace);
    SubsequenceRefl(y.pending);
    SubsequenceConcat(Flatten(PublishedFrames(y.trace)), TraceBytes(y.trace), y.pending, y.pending);
    SubsequenceTrans(Flatten(PublishedFrames(y.trace)) + y.pending, Accounted(y), p + data);
  }

  // ----- Printing and parsing -----

  /** A stream made of frames and of gaps between them. */
  datatype Item = Gap(bytes: seq<byte>) | Whole(frame: seq<byte>)

  ghost predicate ItemWellFormed(x: Item) {
    match x
    case Gap(b) => SYNC !in b
    case Whole(f) => IsFrame(f)
  }

  ghost predicate WellFormed(items: seq<Item>) {
    forall i :: 0 <= i < |items| ==> ItemWellFormed(items[i])
  }

  function Line(items: seq<Item>): seq<byte> {
    if items == [] then []
    else
      var x := items[|items| - 1];
      Line(items[..|items| - 1]) + if x.Gap? then x.bytes else x.frame
  }

  function FramesOf(items: seq<Item>): seq<seq<byte>> {
    if items == [] then []
    else
      var x := items[|items| - 1];
      FramesOf(items[..|items| - 1]) + if x.Gap? then [] else [x.frame]
  }

  /** A stream fully split into these frames, with no error counted. */
  ghost predicate Parses(y: Result, fs: seq<seq<byte>>) {
    && y.pending == [] && y.lost == 0 && PublishedFrames(y.trace) == fs
    && Count(y.trace, BadLength) == 0 && Count(y.trace, BadCrc) == 0
  }

  lemma ParsesOne(e: Event)
    requires e.Skipped? || e.Published?
    ensures Parses(Result([], [e], 0), if e.Published? then [e.frame] else [])
  {
    PublishedSnoc([], e);
    assert [] + [e] == [e];
  }

  lemma ParsesAfter(y: Result, fs: seq<seq<byte>>, z: Result, gs: seq<seq<byte>>)
    requires Parses(y, fs) && Parses(z, gs)
    ensures Parses(After(y.trace, y.lost, z), fs + gs)
  {
    PublishedConcat(y.trace, z.trace);
  }

  lemma {:induction false} GapSkipped(g: seq<byte>)
    requires SYNC !in g
    ensures Parses(FeedAll([], g), [])
  {
    if g != [] {
      GapSkipped(g[1..]);
      var x, y := Feed([], g[0]), FeedAll([], g[1..]);
      assert x == Result([], [Skipped(g[0])], 0);
      assert FeedAll([], g) == After(x.trace, x.lost, y);
      hide *;
      ParsesOne(Skipped(g[0]));
      ParsesAfter(x, [], y, []);
    }
  }

  lemma FramePrefixPartial(f: seq<byte>, k: nat)
    requires IsFrame(f) && k < |f|
    ensures Live(f[..k])
  {
    if k >= 3 {
      assert f[..k][1] == f[1] && f[..k][2] == f[2];
    }
  }

  lemma LivePrefix(c: seq<byte>, k: nat)
    requires Live(c) && k <= |c|
    ensures Live(c[..k])
  {
    if k >= 3 {
      assert c[..k][1] == c[1] && c[..k][2] == c[2];
    }
  }

  /** The bytes of an undecided candidate just wait in the buffer. */
  lemma {:induction false} CandidateBuffered(c: seq<byte>)
    requires Live(c)
    ensures FeedAll([], c) == Result(c, [], 0)
  {
    if c != [] {
      var k := |c| - 1;
      var p, b := c[..k], c[k];
      LivePrefix(c, k);
      CandidateBuffered(p);
      assert c == p + [b];
      assert Feed(p, b) == Result(c, [], 0);
      hide *;
      FeedOne(p, b);
      BufferedThen(p, b, c);
    }
  }

  lemma BufferedThen(p: seq<byte>, b: byte, c: seq<byte>)
    requires Live(p) && FeedAll([], p) == Result(p, [], 0) && FeedAll(p, [b]) == Result(c, [], 0)
    ensures FeedAll([], p + [b]) == Result(c, [], 0)
  {
    ChunksCompose([], p, [b]);
    NothingAfter(Result(c, [], 0));
    assert Then(Result(p, [], 0), [b]) == After([], 0, FeedAll(p, [b]));
    hide *;
  }

  lemma FeedOne(p: seq<byte>, b: byte)
    requires Live(p)
    ensures FeedAll(p, [b]) == Feed(p, b)
  {
    var x := Feed(p, b);
    assert [b][1..] == [];
    assert FeedAll(p, [b]) == After(x.trace, x.lost, FeedAll(x.pending, []));
    assert x.trace + [] == x.trace;
  }

  lemma LastByteCompletes(f: seq<byte>, p: seq<byte>, b: byte)
    requires IsFrame(f) && f == p + [b] && Live(p)
    ensures Push(p, b) == Pushed([], [Published(f)], false)
  {
    FrameCompletes(f, []);
    assert f + [] == f;
  }

  lemma FramePublished(f: seq<byte>)
    requires IsFrame(f)
    ensures FeedAll([], f) == Result([], [Published(f)], 0)
  {
    var k := |f| - 1;
    var p, b := f[..k], f[k];
    FramePrefixPartial(f, k);
    CandidateBuffered(p);
    assert f == p + [b];
    LastByteCompletes(f, p, b);
    assert Feed(p, b) == Result([], [Published(f)], 0);
    FeedOne(p, b);
    ChunksCompose([], p, [b]);
    NothingAfter(Result([], [Published(f)], 0));
    hide Feed, FeedAll, Live, IsFrame, Judge, Push;
  }

  /** Round trip: frames separated by any gaps free of the sync byte come out as exactly
      those frames, in order, with no error counted and nothing left in the buffer. */
  lemma {:induction false} LineParses(items: seq<Item>)
    requires WellFormed(items)
    ensures Parses(FeedAll([], Line(items)), FramesOf(items))
  {
    if items != [] {
      var n := |items| - 1;
      var x, init := items[n], items[..n];
      var part := if x.Gap? then x.bytes else x.frame;
      assert Line(items) == Line(init) + part;
      assert FramesOf(items) == FramesOf(init) + if x.Gap? then [] else [x.frame];
      LineParses(init);
      if x.Gap? { GapSkipped(part); } else { FramePublished(part); ParsesOne(Published(part)); }
      var y, z := FeedAll([], Line(init)), FeedAll([], part);
      ChunksCompose([], Line(init), part);
      assert y.pending == [];
      assert Then(y, part) == After(y.trace, y.lost, z);
      hide *;
      ParsesAfter(y, FramesOf(init), z, if x.Gap? then [] else [x.frame]);
    }
  }

  ghost predicate ItemEncoded(x: Item) {
    match x
    case Gap(b) => SYNC !in b
    case Whole(f) => exists m: seq<byte> :: 1 <= |m| <= MAX_PAYLOAD && f == Encode(m)
  }

  /** Every item is a gap or the encoding of a payload of legal length. */
  ghost predicate Encoded(items: seq<Item>) {
    forall i :: 0 <= i < |items| ==> ItemEncoded(items[i])
  }

  lemma EncodedItem(x: Item)
    requires ItemEncoded(x)
    ensures ItemWellFormed(x)
  {
    if x.Whole? {
      var m: seq<byte> :| 1 <= |m| <= MAX_PAYLOAD && x.frame == Encode(m);
      EncodeIsFrame(m);
    }
  }

  lemma EncodedWellFormed(items: seq<Item>)
    requires Encoded(items)
    ensures WellFormed(items)
  {
    forall i | 0 <= i < |items|
      ensures ItemWellFormed(items[i])
    {
      EncodedItem(items[i]);
    }
    hide ItemEncoded, ItemWellFormed;
  }

  /** Printer and parser: encode any payloads, put any gaps around them, cut the line into
      any chunks; the splitter publishes exactly those frames. */
  lemma LineParsesInChunks(items: seq<Item>, chunks: seq<seq<byte>>)
    requires Encoded(items) && Flatten(chunks) == Line(items)
    ensures Parses(FeedChunks([], chunks), FramesOf(items))
  {
    assert Live([]);
    hide *;
    EncodedWellFormed(items);
    LineParses(items);
    AnyChunking([], chunks);
  }

  /** A receiver that splits whole frames followed by a cut one gets the whole ones and waits
      for the rest of the other. */
  lemma {:induction false} WholeFramesResplit(fs: seq<seq<byte>>, f: seq<byte>, k: nat)
    requires (forall i :: 0 <= i < |fs| ==> IsFrame(fs[i])) && IsFrame(f) && k < |f|
    ensures var y := FeedAll([], Flatten(fs) + f[..k]);
      y.pending == f[..k] && Parses(y.(pending := []), fs)
  {
    var items := seq(|fs|, i requires 0 <= i < |fs| => Whole(fs[i]));
    AllWhole(fs, items);
    LineParses(items);
    FramePrefixPartial(f, k);
    CandidateBuffered(f[..k]);
    var y := FeedAll([], Flatten(fs));
    ChunksCompose([], Flatten(fs), f[..k]);
    assert y.trace + [] == y.trace;
  }

  lemma {:induction false} AllWhole(fs: seq<seq<byte>>, items: seq<Item>)
    requires |items| == |fs| && forall i :: 0 <= i < |fs| ==> items[i] == Whole(fs[i])
    ensures Line(items) == Flatten(fs) && FramesOf(items) == fs
  {
    if fs != [] {
      var n := |fs| - 1;
      AllWhole(fs[..n], items[..n]);
      assert fs == fs[..n] + [fs[n]];
    }
  }
}

/** The splitter against a reference scanner that sees the whole stream and, after every
    failed candidate, restarts one byte further on. */
module Scanner {
  import opened Crc24
  import opened Frames
  import opened Sequences
  import opened SplitterSpec

  datatype Scanned = Scanned(trace: seq<Event>, pending: seq<byte>)

  function Cons(e: Event, x: Scanned): Scanned {
    Scanned([e] + x.trace, x.pending)
  }

  function Scan(s: seq<byte>): Scanned
    decreases |s|
  {
    if s == [] then Scanned([], [])
    else if s[0] != SYNC then Cons(Skipped(s[0]), Scan(s[1..]))
    else match Judge(s)
      case Partial => Scanned([], s)
      case RejectLength => Cons(BadLength, Scan(s[1..]))
      case RejectCrc => Cons(BadCrc, Scan(s[1..]))
      case Complete => Cons(Published(s[..TotalLength(s)]), Scan(s[TotalLength(s)..]))
  }

  /** How many bytes of s decide a candidate that fails at its start. */
  function RejectWidth(s: seq<byte>): (n: nat)
    requires Judge(s) == RejectLength || Judge(s) == RejectCrc
    ensures 3 <= n <= |s|
  {
    if Judge(s) == RejectLength then 3 else TotalLength(s)
  }

  /** The scanner, told that the first `read` bytes of s were read before, never rejects a
      candidate that ends strictly inside them: every rejection needs the newest byte. */
  predicate RejectsOnlyAtFront(s: seq<byte>, read: nat)
    decreases |s|
  {
    if s == [] then true
    else if s[0] != SYNC then RejectsOnlyAtFront(s[1..], if read > 0 then read - 1 else 0)
    else match Judge(s)
      case Partial => true
      case Complete =>
        RejectsOnlyAtFront(s[TotalLength(s)..], if read > TotalLength(s) then read - TotalLength(s) else 0)
      case _ => RejectWidth(s) >= read && RejectsOnlyAtFront(s[1..], RejectWidth(s) - 1)
  }

  // ----- Bytes are neither invented nor reordered -----

  function EventBytes(e: Event): (b: seq<byte>)
    ensures !e.Published? ==> |b| == 1
  {
    match e
    case Skipped(b) => [b]
    case Published(f) => f
    case _ => [SYNC]
  }

  function TraceBytes(t: seq<Event>): seq<byte> {
    if t == [] then [] else TraceBytes(t[..|t| - 1]) + EventBytes(t[|t| - 1])
  }

  lemma TraceUnfolds(t: seq<Event>)
    ensures t == [] ==> TraceBytes(t) == []
    ensures t != [] ==> TraceBytes(t) == TraceBytes(t[..|t| - 1]) + EventBytes(t[|t| - 1])
  {}

  lemma {:induction false} TraceBytesConcat(t: seq<Event>, u: seq<Event>)
    ensures TraceBytes(t + u) == TraceBytes(t) + TraceBytes(u)
  {
    hide *;
    TraceUnfolds(u);
    if u == [] {
      assert t + u == t;
    } else {
      var v, e := u[..|u| - 1], u[|u| - 1];
      TraceBytesConcat(t, v);
      TraceBytesSnoc(t + v, e);
      LastSplits(t, u);
    }
  }

  lemma LastSplits<T>(t: seq<T>, u: seq<T>)
    requires u != []
    ensures t + u == t + u[..|u| - 1] + [u[|u| - 1]]
  {}

  lemma TraceBytesSnoc(t: seq<Event>, e: Event)
    ensures TraceBytes(t + [e]) == TraceBytes(t) + EventBytes(e)
  {
    assert (t + [e])[..|t|] == t;
  }

  /** Everything a result accounts for, in stream order. */
  function Accounted(r: Result): seq<byte> {
    TraceBytes(r.trace) + r.pending
  }

  lemma AccountedAfter(t: seq<Event>, l: nat, r: Result)
    ensures Accounted(After(t, l, r)) == TraceBytes(t) + Accounted(r)
  {
    TraceBytesConcat(t, r.trace);
  }

  /** Pushing a byte accounts for it: in the buffer, or by an event and what is replayed. */
  lemma PushAccounts(p: seq<byte>, b: byte)
    requires Live(p)
    ensures var x := Push(p, b);
      p + [b] == TraceBytes(x.events) + if x.again then x.buf[1..] else x.buf
  {
    var x := Push(p, b);
    if x.events != [] {
      TraceBytesSnoc([], x.events[0]);
      hide TraceBytes, Judge;
      assert x.events == [] + [x.events[0]];
    }
  }

  lemma SubsequenceExtend(a: seq<byte>, b: seq<byte>, c: seq<byte>, prefix: seq<byte>)
    requires Subsequence(a, b)
    ensures Subsequence(prefix + a, prefix + b + c)
  {
    SubsequenceRefl(prefix);
    SubsequenceConcat(prefix, prefix, a, b);
    SubsequenceEmpty(c);
    SubsequenceConcat(prefix + a, prefix + b, [], c);
    assert prefix + a + [] == prefix + a;
  }

  lemma ReplayUnfolds(p: seq<byte>, r: seq<byte>)
    requires Live(p)
    ensures Live([])
    ensures r == [] ==> Replay(p, r) == Result(p, [], 0) && Accounted(Replay(p, r)) == p == p + r
    ensures r != [] ==>
              var x := Push(p, r[0]);
              Replay(p, r) == if x.again then After(x.events, |r| - 1, Replay([], x.buf[1..]))
                              else After(x.events, 0, Replay(x.buf, r[1..]))
  {
    hide Push, Judge;
  }

  lemma {:induction false} ReplayAccounts(p: seq<byte>, r: seq<byte>)
    requires Live(p)
    ensures Subsequence(Accounted(Replay(p, r)), p + r)
    ensures |Accounted(Replay(p, r))| + Replay(p, r).lost == |p| + |r|
    decreases |p| + |r|, |r|
  {
    hide *;
    ReplayUnfolds(p, r);
    if r == [] {
      SubsequenceRefl(p);
    } else {
      var x := Push(p, r[0]);
      PushAccounts(p, r[0]);
      var rest, r' := if x.again then x.buf[1..] else x.buf, r[1..];
      Regroup(p, r, TraceBytes(x.events), rest);
      if x.again {
        var y := Replay([], rest);
        ReplayAccounts([], rest);
        AccountedAfterAlso(x.events, |r'|, y);
        NilLeft(rest);
        SubsequenceExtend(Accounted(y), rest, r', TraceBytes(x.events));
      } else {
        var y := Replay(rest, r');
        ReplayAccounts(rest, r');
        AccountedAfterAlso(x.events, 0, y);
        SubsequenceExtend(Accounted(y), rest + r', [], TraceBytes(x.events));
      }
    }
  }

  lemma AccountedAfterAlso(t: seq<Event>, l: nat, r: Result)
    ensures Accounted(After(t, l, r)) == TraceBytes(t) + Accounted(r) && After(t, l, r).lost == l + r.lost
  {
    AccountedAfter(t, l, r);
    hide Accounted, TraceBytes;
  }

  lemma NilLeft<T>(a: seq<T>)
    ensures [] + a == a
  {}

  lemma Regroup(p: seq<byte>, r: seq<byte>, t: seq<byte>, rest: seq<byte>)
    requires r != [] && p + [r[0]] == t + rest
    ensures p + r == t + rest + r[1..] == t + (rest + r[1..]) + []
  {
    assert p + r == p + [r[0]] + r[1..];
  }

  lemma FeedAccounts(p: seq<byte>, b: byte)
    requires Live(p)
    ensures Subsequence(Accounted(Feed(p, b)), p + [b])
    ensures |Accounted(Feed(p, b))| + Feed(p, b).lost == |p| + 1
  {
    var x := Push(p, b);
    PushAccounts(p, b);
    if x.again {
      var rest := x.buf[1..];
      var y := Replay([], rest);
      assert Feed(p, b) == After(x.events, 0, y);
      ReplayAccounts([], rest);
      hide *;
      NilLeft(rest);
      AccountedAfter(x.events, 0, y);
      SubsequenceExtend(Accounted(y), rest, [], TraceBytes(x.events));
      assert TraceBytes(x.events) + rest + [] == p + [b];
    } else {
      SubsequenceRefl(p + [b]);
    }
  }

  /** Unconditionally, even when replay bytes are lost: every byte published, given up,
      skipped or still pending sits at its own stream position, in stream order, and the
      bytes that are missing are exactly the lost ones. */
  lemma {:induction false} StreamAccounts(p: seq<byte>, data: seq<byte>)
    requires Live(p)
    ensures Subsequence(Accounted(FeedAll(p, data)), p + data)
    ensures |Accounted(FeedAll(p, data))| + FeedAll(p, data).lost == |p| + |data|
    decreases |data|
  {
    if data == [] {
      assert Accounted(FeedAll(p, data)) == p == p + data;
      SubsequenceRefl(p);
    } else {
      var b, rest := data[0], data[1..];
      var x := Feed(p, b);
      var y := FeedAll(x.pending, rest);
      assert FeedAll(p, data) == After(x.trace, x.lost, y);
      FeedAccounts(p, b);
      StreamAccounts(x.pending, rest);
      AccountedAfter(x.trace, x.lost, y);
      assert Accounted(x) == TraceBytes(x.trace) + x.pending;
      hide *;
      SubsequenceReplace(TraceBytes(x.trace), x.pending, Accounted(y), p, data);
    }
  }

  lemma SubsequenceReplace(t: seq<byte>, q: seq<byte>, a: seq<byte>, p: seq<byte>, data: seq<byte>)
    requires data != [] && Subsequence(t + q, p + [data[0]]) && Subsequence(a, q + data[1..])
    ensures Subsequence(t + a, p + data)
  {
    hide *;
    var rest := data[1..];
    SubsequenceExtend(a, q + rest, [], t);
    SubsequenceRefl(rest);
    SubsequenceConcat(t + q, p + [data[0]], rest, rest);
    assert t + (q + rest) + [] == t + q + rest;
    assert p + data == p + [data[0]] + rest;
    SubsequenceTrans(t + a, t + q + rest, p + data);
  }

  // ----- Simulation of the scanner -----

  /** The bytes still to be decided: the candidate, the unread replay, the unread chunk. */
  function Stream(p: seq<byte>, r: seq<byte>, d: seq<byte>): seq<byte> {
    p + r + d
  }

  function Prepend(t: seq<Event>, x: Scanned): Scanned {
    Scanned(t + x.trace, x.pending)
  }

  lemma PrependPrepend(t: seq<Event>, u: seq<Event>, x: Scanned)
    ensures Prepend(t, Prepend(u, x)) == Prepend(t + u, x)
  {
    assert t + (u + x.trace) == (t + u) + x.trace;
  }

  /** The candidate as a push leaves it, its first byte dropped if it failed. */
  function Rest(x: Pushed): seq<byte>
    requires x.again ==> x.buf != []
  {
    if x.again then x.buf[1..] else x.buf
  }

  /** One step of the scanner on a stream whose head is decided. */
  lemma ScanStep(s: seq<byte>, n: nat)
    requires s != [] && (s[0] != SYNC || Judge(s) != Partial)
    requires n == if s[0] == SYNC && Judge(s) == Complete then TotalLength(s) else 1
    ensures n <= |s|
    ensures Scan(s) == Cons(
      if s[0] != SYNC then Skipped(s[0])
      else if Judge(s) == Complete then Published(s[..n])
      else if Judge(s) == RejectLength then BadLength else BadCrc,
      Scan(s[n..]))
  {}

  lemma FrontStep(s: seq<byte>, n: nat, h: nat)
    requires s != [] && (s[0] != SYNC || Judge(s) != Partial)
    requires n == if s[0] == SYNC && Judge(s) == Complete then TotalLength(s) else 1
    ensures n <= |s|
    ensures RejectsOnlyAtFront(s, h)
      == if s[0] != SYNC || Judge(s) == Complete then RejectsOnlyAtFront(s[n..], if h > n then h - n else 0)
         else RejectWidth(s) >= h && RejectsOnlyAtFront(s[1..], RejectWidth(s) - 1)
  {}

  lemma JudgeOfNext(p: seq<byte>, b: byte, s: seq<byte>)
    requires Live(p) && p != [] && p + [b] <= s
    requires Judge(p + [b]) != Partial
    ensures s[0] == SYNC && Judge(s) == Judge(p + [b])
    ensures Judge(s) == Complete ==> TotalLength(s) == |p| + 1
    ensures Judge(s) != Complete ==> RejectWidth(s) == |p| + 1
  {
    JudgePrefix(p + [b], s[|p| + 1..]);
    assert s == p + [b] + s[|p| + 1..];
    if |p| >= 3 {
      assert (p + [b])[1] == p[1] && (p + [b])[2] == p[2];
    }
  }

  /** A push that decides nothing only moves a byte into the buffer. */
  lemma PushKeeps(p: seq<byte>, r: seq<byte>, d: seq<byte>)
    requires Live(p) && r != [] && Push(p, r[0]).events == []
    ensures var x := Push(p, r[0]);
      !x.again && |x.buf| == |p| + 1 && Stream(Rest(x), r[1..], d) == Stream(p, r, d)
  {}

  /** A push that fails the candidate: the scanner rejects it at the same byte. */
  lemma PushFails(p: seq<byte>, r: seq<byte>, d: seq<byte>)
    requires Live(p) && r != [] && Push(p, r[0]).again
    ensures var x, s := Push(p, r[0]), Stream(p, r, d);
      && s != [] && s[0] == SYNC && (Judge(s) == RejectLength || Judge(s) == RejectCrc)
      && RejectWidth(s) == |p| + 1
      && x.events == [if Judge(s) == RejectLength then BadLength else BadCrc]
      && Stream(Rest(x), r[1..], d) == s[1..]
  {
    StreamStarts(p, r, d);
    JudgeOfNext(p, r[0], Stream(p, r, d));
    hide Judge, Live;
  }

  /** A push that ends the candidate, or finds none. */
  lemma PushEnds(p: seq<byte>, r: seq<byte>, d: seq<byte>)
    requires Live(p) && r != [] && !Push(p, r[0]).again && Push(p, r[0]).events != []
    ensures var x, s := Push(p, r[0]), Stream(p, r, d);
      && x.buf == [] && |s| >= |p| + 1 && Stream(Rest(x), r[1..], d) == s[|p| + 1..]
      && (s[0] == SYNC ==>
            Judge(s) == Complete && TotalLength(s) == |p| + 1 && x.events == [Published(s[..|p| + 1])])
      && (s[0] != SYNC ==> p == [] && x.events == [Skipped(s[0])])
  {
    StreamStarts(p, r, d);
    if p != [] {
      JudgeOfNext(p, r[0], Stream(p, r, d));
    }
    hide Judge, Live;
  }

  lemma StreamStarts(p: seq<byte>, r: seq<byte>, d: seq<byte>)
    requires r != []
    ensures var c, s := p + [r[0]], Stream(p, r, d);
      && c <= s && s[..|p| + 1] == c
      && s[|p| + 1..] == r[1..] + d == Stream([], r[1..], d)
      && s[1..] == Stream(c[1..], r[1..], d)
  {
    assert Stream(p, r, d) == p + [r[0]] + (r[1..] + d);
  }

  /** The scanner decides a candidate exactly when the splitter does. */
  lemma PushScans(p: seq<byte>, r: seq<byte>, d: seq<byte>)
    requires Live(p) && r != []
    ensures var x := Push(p, r[0]);
      Scan(Stream(p, r, d)) == Prepend(x.events, Scan(Stream(Rest(x), r[1..], d)))
  {
    hide Scan, Judge, Stream, Prepend;
    var x, s := Push(p, r[0]), Stream(p, r, d);
    if x.again {
      PushFails(p, r, d);
      ScanStep(s, 1);
      hide *;
      ConsIsPrepend(x.events[0], Scan(s[1..]));
    } else if x.events != [] {
      PushEnds(p, r, d);
      ScanStep(s, |p| + 1);
      hide *;
      ConsIsPrepend(x.events[0], Scan(s[|p| + 1..]));
    } else {
      PushKeeps(p, r, d);
      hide *;
      NothingToPrepend(Scan(s));
    }
  }

  lemma ConsIsPrepend(e: Event, x: Scanned)
    ensures Cons(e, x) == Prepend([e], x)
  {}

  lemma NothingToPrepend(x: Scanned)
    ensures Prepend([], x) == x
  {}

  /** The same for the rejection condition; h counts the bytes of the stream already read,
      k those that are left of them after the push. */
  lemma PushFront(p: seq<byte>, r: seq<byte>, d: seq<byte>, h: nat, k: nat)
    requires Live(p) && r != [] && h >= |p| + 1
    requires var x := Push(p, r[0]); k == if x.again then |p| else h - (|p| + 1 - |x.buf|)
    ensures var x := Push(p, r[0]);
      RejectsOnlyAtFront(Stream(p, r, d), h)
      <==> (x.again ==> h == |p| + 1) && RejectsOnlyAtFront(Stream(Rest(x), r[1..], d), k)
  {
    var x, s := Push(p, r[0]), Stream(p, r, d);
    if x.again {
      PushFails(p, r, d);
      FrontStep(s, 1, h);
    } else if x.events != [] {
      PushEnds(p, r, d);
      FrontStep(s, |p| + 1, h);
    } else {
      PushKeeps(p, r, d);
    }
    hide *;
  }

  /** Reading the byte that follows a live candidate changes nothing for the condition. */
  lemma FrontAdvances(p: seq<byte>, r: seq<byte>, d: seq<byte>)
    requires Live(p) && r != []
    ensures RejectsOnlyAtFront(Stream(p, r, d), |p|) <==> RejectsOnlyAtFront(Stream(p, r, d), |p| + 1)
  {
    var s := Stream(p, r, d);
    if |p| >= 3 {
      assert s[1] == p[1] && s[2] == p[2];
    }
  }

  lemma MoveToReplay(u: seq<byte>, r: seq<byte>, d: seq<byte>)
    ensures r == [] ==> Stream(u, r, d) == Stream([], u, d)
    ensures Stream(u, [], d) == u + d
  {}

  /** How one read during a replay continues: with candidate q and unread bytes u, having
      lost l bytes. */
  lemma ReplayStep(p: seq<byte>, r: seq<byte>) returns (q: seq<byte>, u: seq<byte>, l: nat)
    requires Live(p) && r != []
    ensures var x := Push(p, r[0]);
      && Live(q) && (|q| + |u| < |p| + |r| || (|q| + |u| == |p| + |r| && |u| < |r|))
      && Replay(p, r) == After(x.events, l, Replay(q, u))
      && (if x.again then q == [] && u == Rest(x) && |u| == |p| && l == |r| - 1
          else q == Rest(x) == x.buf && u == r[1..] && l == 0)
  {
    var x := Push(p, r[0]);
    q, u, l := if x.again then [] else x.buf, if x.again then x.buf[1..] else r[1..], if x.again then |r| - 1 else 0;
  }

  /** Nothing was lost, and the condition holds for what is still pending. */
  ghost predicate Clean(y: Result, d: seq<byte>) {
    y.lost == 0 && RejectsOnlyAtFront(Stream(y.pending, [], d), |y.pending|)
  }

  lemma AfterIs(t: seq<Event>, l: nat, r: Result, d: seq<byte>)
    ensures After(t, l, r) == Result(r.pending, t + r.trace, l + r.lost)
    ensures Clean(After(t, l, r), d) <==> l == 0 && Clean(r, d)
  {}

  lemma NoReplay(p: seq<byte>, d: seq<byte>)
    requires Live(p)
    ensures Replay(p, []) == Result(p, [], 0)
    ensures Clean(Replay(p, []), d) <==> RejectsOnlyAtFront(Stream(p, [], d), |p|)
  {
    assert Replay(p, []) == Result(p, [], 0);
    hide RejectsOnlyAtFront, Stream, Live, Replay;
  }

  lemma {:induction false} ReplayFront(p: seq<byte>, r: seq<byte>, d: seq<byte>, h: nat)
    requires Live(p) && h == |p| + |r|
    ensures RejectsOnlyAtFront(Stream(p, r, d), h) <==> Clean(Replay(p, r), d)
    decreases |p| + |r|, |r|
  {
    if r == [] {
      NoReplay(p, d);
      hide *;
    } else {
      var q, u, l := ReplayStep(p, r);
      var x := Push(p, r[0]);
      hide *;
      var k := |q| + |u|;
      PushFront(p, r, d, h, k);
      ReplayFront(q, u, d, k);
      AfterIs(x.events, l, Replay(q, u), d);
      if x.again && r[1..] == [] {
        MoveToReplay(u, r[1..], d);
      }
    }
  }

  lemma {:induction false} ReplayScans(p: seq<byte>, r: seq<byte>, d: seq<byte>)
    requires Live(p) && Replay(p, r).lost == 0
    ensures var y := Replay(p, r); Scan(Stream(p, r, d)) == Prepend(y.trace, Scan(Stream(y.pending, [], d)))
    decreases |p| + |r|, |r|
  {
    if r == [] {
      NoReplay(p, d);
      hide *;
      NothingToPrepend(Scan(Stream(p, [], d)));
    } else {
      var q, u, l := ReplayStep(p, r);
      var x, y := Push(p, r[0]), Replay(q, u);
      hide *;
      AfterIs(x.events, l, y, d);
      PushScans(p, r, d);
      ReplayScans(q, u, d);
      MoveToReplay(u, r[1..], d);
      PrependPrepend(x.events, y.trace, Scan(Stream(y.pending, [], d)));
    }
  }

  lemma FeedScans(p: seq<byte>, b: byte, d: seq<byte>)
    requires Live(p)
    ensures RejectsOnlyAtFront(Stream(p, [b], d), |p|) <==> Clean(Feed(p, b), d)
    ensures var y := Feed(p, b);
      y.lost == 0 ==> Scan(Stream(p, [b], d)) == Prepend(y.trace, Scan(Stream(y.pending, [], d)))
  {
    var x := Push(p, b);
    assert [b][1..] == [];
    FrontAdvances(p, [b], d);
    PushFront(p, [b], d, |p| + 1, if x.again then |p| else |x.buf|);
    PushScans(p, [b], d);
    if x.again {
      var u := Rest(x);
      var z := Replay([], u);
      assert Feed(p, b) == After(x.events, 0, z) && |u| == |p|;
      ReplayedFeed(u, d, x.events, Feed(p, b));
    }
    hide *;
  }

  lemma ReplayedFeed(u: seq<byte>, d: seq<byte>, t: seq<Event>, y: Result)
    requires y == After(t, 0, Replay([], u))
    ensures RejectsOnlyAtFront(Stream(u, [], d), |u|) <==> Clean(y, d)
    ensures y.lost == 0 ==>
      Prepend(t, Scan(Stream(u, [], d))) == Prepend(y.trace, Scan(Stream(y.pending, [], d)))
  {
    var z := Replay([], u);
    assert Live([]);
    hide *;
    AfterIs(t, 0, z, d);
    MoveToReplay(u, [], d);
    ReplayFront([], u, d, |u|);
    if z.lost == 0 {
      ReplayScans([], u, d);
      PrependPrepend(t, z.trace, Scan(Stream(z.pending, [], d)));
    }
  }

  /** Every byte fed is scanned too, as long as none is lost; and none is lost exactly when
      the scanner's rejections are all at the front. */
  lemma {:induction false} FeedAllScans(p: seq<byte>, data: seq<byte>)
    requires Live(p)
    ensures RejectsOnlyAtFront(Stream(p, [], data), |p|) <==> FeedAll(p, data).lost == 0
    ensures var y := FeedAll(p, data);
      y.lost == 0 ==> Scan(Stream(p, [], data)) == Scanned(y.trace, y.pending)
    decreases |data|
  {
    if data == [] {
      assert Stream(p, [], data) == p;
    } else {
      var b, d := data[0], data[1..];
      var x := Feed(p, b);
      var y := FeedAll(x.pending, d);
      assert FeedAll(p, data) == After(x.trace, x.lost, y);
      assert Clean(x, d) <==> x.lost == 0 && RejectsOnlyAtFront(Stream(x.pending, [], d), |x.pending|);
      FeedScans(p, b, d);
      FeedAllScans(x.pending, d);
      hide *;
      TakeFirst(p, data);
      AfterIs(x.trace, x.lost, y, d);
      PrependIs(x.trace, y);
    }
  }

  lemma PrependIs(t: seq<Event>, y: Result)
    ensures Prepend(t, Scanned(y.trace, y.pending)) == Scanned(t + y.trace, y.pending)
  {}

  lemma TakeFirst(p: seq<byte>, data: seq<byte>)
    requires data != []
    ensures Stream(p, [], data) == Stream(p, [data[0]], data[1..])
  {}

  lemma {:induction false} ScanAccounts(s: seq<byte>)
    ensures TraceBytes(Scan(s).trace) + Scan(s).pending == s
    decreases |s|
  {
    if s != [] && (s[0] != SYNC || Judge(s) != Partial) {
      var n := if s[0] == SYNC && Judge(s) == Complete then TotalLength(s) else 1;
      var e := Scan(s).trace[0];
      ScanStep(s, n);
      assert EventBytes(e) == s[..n] && Scan(s) == Cons(e, Scan(s[n..]));
      hide *;
      ScanAccounts(s[n..]);
      ConsBytes(e, Scan(s[n..]));
      Cut(s, n);
    }
  }

  lemma Cut<T>(s: seq<T>, n: nat)
    requires n <= |s|
    ensures s == s[..n] + s[n..]
  {}

  lemma ConsBytes(e: Event, x: Scanned)
    ensures TraceBytes(Cons(e, x).trace) + Cons(e, x).pending
         == EventBytes(e) + (TraceBytes(x.trace) + x.pending)
  {
    TraceBytesSnoc([], e);
    TraceBytesConcat([e], x.trace);
    assert [] + [e] == [e] && TraceBytes([]) + EventBytes(e) == EventBytes(e);
    hide TraceBytes, EventBytes;
    Reassociate(EventBytes(e), TraceBytes(x.trace), x.pending);
  }

  lemma Reassociate<T>(a: seq<T>, b: seq<T>, c: seq<T>)
    ensures a + b + c == a + (b + c)
  {}

  /** The splitter does, event for event, what the reference scanner does, and leaves the
      same bytes buffered, exactly when the scanner never rejects a candidate that ends
      inside bytes already read; that is exactly when no replay byte is overwritten. */
  lemma SplitterMatchesScanner(p: seq<byte>, data: seq<byte>)
    requires Live(p)
    ensures var y := FeedAll(p, data);
      && (Scanned(y.trace, y.pending) == Scan(p + data) <==> RejectsOnlyAtFront(p + data, |p|))
      && (y.lost == 0 <==> RejectsOnlyAtFront(p + data, |p|))
  {
    var y := FeedAll(p, data);
    assert Accounted(y) == TraceBytes(y.trace) + y.pending;
    hide *;
    FeedAllScans(p, data);
    MoveToReplay(p, [], data);
    StreamAccounts(p, data);
    ScanAccounts(p + data);
  }
}

/** The console's double buffer under concurrency: a consumer swaps the buffers under the
    lock and then copies the old one byte by byte, while writers go on appending and others
    clear. Consumers follow one another. */
module ConsoleSpec {
  import opened Sequences
  import opened RingBuffer

  /** An epoch is what was written between two swaps or clears. */
  datatype Epoch = Consumed(text: string, room: nat) | Cleared(text: string)

  datatype Reader = Idle | Copying(buffer: nat, start: nat, count: nat, got: string)

  /** `epoch` is the text since the last swap or clear, `epochs` those before, `results` what
      the consumers got, `history` all that was ever written. */
  datatype State = State(buffers: seq<string>, active: nat, head: nat, used: nat, reader: Reader,
                         epoch: string, epochs: seq<Epoch>, results: seq<string>, history: string)

  /** Put is one byte of an append: the lock makes a whole append atomic, so runs of single
      bytes allow more interleavings than there are. */
  datatype Action = Put(c: char) | Clear | StartConsume(destSize: nat) | CopyByte | FinishConsume

  function Init(n: nat): State
    requires n > 0
  {
    State([seq(n, i => '\0'), seq(n, i => '\0')], 0, 0, 0, Idle, "", [], [], "")
  }

  ghost predicate Shape(n: nat, s: State) {
    && |s.buffers| == 2 && |s.buffers[0]| == n == |s.buffers[1]| && s.active < 2
    && s.head < n && s.used <= n
    && (s.reader.Copying? ==>
          (s.reader.buffer < 2 && s.reader.start < n && s.reader.count <= n && |s.reader.got| <= s.reader.count))
  }

  ghost predicate Enabled(s: State, a: Action) {
    match a
    case StartConsume(destSize) => s.reader.Idle? && destSize > 0
    case CopyByte => s.reader.Copying? && |s.reader.got| < s.reader.count
    case FinishConsume => s.reader.Copying? && |s.reader.got| == s.reader.count
    case _ => true
  }

  ghost function Next(n: nat, s: State, a: Action): State
    requires Shape(n, s) && Enabled(s, a)
  {
    match a
    case Put(c) =>
      s.(buffers := s.buffers[s.active := s.buffers[s.active][s.head := c]], head := Around(s.head + 1, n),
         used := if s.used < n then s.used + 1 else s.used, epoch := s.epoch + [c], history := s.history + [c])
    case Clear => s.(head := 0, used := 0, epoch := "", epochs := s.epochs + [Cleared(s.epoch)])
    case StartConsume(destSize) =>
      var count := if s.used < destSize - 1 then s.used else destSize - 1;
      s.(reader := Copying(s.active, Start(n, s.head, s.used, count), count, ""),
         active := 1 - s.active, head := 0, used := 0,
         epoch := "", epochs := s.epochs + [Consumed(s.epoch, destSize - 1)])
    case CopyByte =>
      var r := s.reader;
      s.(reader := r.(got := r.got + [s.buffers[r.buffer][Around(r.start + |r.got|, n)]]))
    case FinishConsume => s.(reader := Idle, results := s.results + [s.reader.got])
  }

  /** What the consumers ought to get: of each consumed epoch the newest text that fits the
      ring and the destination. */
  function Delivered(n: nat, epochs: seq<Epoch>): seq<string> {
    if epochs == [] then []
    else
      var last := epochs[|epochs| - 1];
      Delivered(n, epochs[..|epochs| - 1]) +
      if last.Consumed? then [Newest(last.text, Min(n, last.room))] else []
  }

  function Texts(epochs: seq<Epoch>): seq<string> {
    seq(|epochs|, i requires 0 <= i < |epochs| => epochs[i].text)
  }

  /** The reader's buffer still holds what it is to copy, and it has copied a part of it. */
  ghost predicate ReaderOk(n: nat, s: State, want: string)
    requires Shape(n, s) && s.reader.Copying?
  {
    var r := s.reader;
    && r.buffer != s.active && |want| == r.count && r.got <= want
    && forall i :: 0 <= i < r.count ==> s.buffers[r.buffer][Around(r.start + i, n)] == want[i]
  }

  /** The results so far are the first of those due; a consumer at work is about to deliver
      the next. */
  ghost predicate ResultsOk(n: nat, s: State)
    requires Shape(n, s)
  {
    var due := Delivered(n, s.epochs);
    if s.reader.Idle? then s.results == due
    else |due| == |s.results| + 1 && s.results == due[..|s.results|] && ReaderOk(n, s, due[|s.results|])
  }

  ghost predicate HistoryOk(n: nat, s: State)
    requires Shape(n, s)
  {
    && Window(s.buffers[s.active], s.head, s.used) == Newest(s.epoch, n)
    && Flatten(Texts(s.epochs)) + s.epoch == s.history
  }

  ghost predicate Inv(n: nat, s: State) {
    Shape(n, s) && HistoryOk(n, s) && ResultsOk(n, s)
  }

  // ---- One step ----

  lemma PutWindow(buffer: string, head: nat, used: nat, epoch: string, c: char)
    requires head < |buffer| && used <= |buffer| && Window(buffer, head, used) == Newest(epoch, |buffer|)
    ensures var n := |buffer|;
            Window(buffer[head := c], Around(head + 1, n), if used < n then used + 1 else used)
            == Newest(epoch + [c], n)
  {
    PushExtends(buffer, head, used, c);
    NewestOfNewest(epoch, [c], |buffer|);
    hide Window, Newest, Around;
  }

  lemma PutShape(n: nat, s: State, c: char)
    requires Shape(n, s)
    ensures Shape(n, Next(n, s, Put(c)))
  {
    hide Around;
  }

  lemma PutHistory(n: nat, s: State, c: char)
    requires Shape(n, s) && HistoryOk(n, s) && Shape(n, Next(n, s, Put(c)))
    ensures HistoryOk(n, Next(n, s, Put(c)))
  {
    hide Window, Newest, Around, Flatten, Texts;
    PutWindow(s.buffers[s.active], s.head, s.used, s.epoch, c);
    OneMoreChar(Flatten(Texts(s.epochs)), s.epoch, c);
  }

  lemma OneMoreChar(a: string, b: string, c: char)
    ensures a + (b + [c]) == a + b + [c]
  {}

  lemma PutResults(n: nat, s: State, c: char)
    requires Shape(n, s) && ResultsOk(n, s) && Shape(n, Next(n, s, Put(c)))
    ensures ResultsOk(n, Next(n, s, Put(c)))
  {
    hide Around, Delivered;
  }

  lemma PutKeeps(n: nat, s: State, c: char)
    requires Inv(n, s)
    ensures Inv(n, Next(n, s, Put(c)))
  {
    hide Shape, HistoryOk, ResultsOk;
    PutShape(n, s, c);
    PutHistory(n, s, c);
    PutResults(n, s, c);
  }

  lemma EpochEnds(n: nat, epochs: seq<Epoch>, e: Epoch)
    ensures Flatten(Texts(epochs + [e])) == Flatten(Texts(epochs)) + e.text
    ensures Delivered(n, epochs + [e])
         == Delivered(n, epochs) + if e.Consumed? then [Newest(e.text, Min(n, e.room))] else []
  {
    assert Texts(epochs + [e]) == Texts(epochs) + [e.text];
    FlattenSnoc(Texts(epochs), e.text);
    assert (epochs + [e])[..|epochs|] == epochs;
    hide Newest;
  }

  lemma EmptyWindow(buffer: string, n: nat)
    requires |buffer| > 0
    ensures Window(buffer, 0, 0) == Newest("", n)
  {}

  lemma ClearKeeps(n: nat, s: State)
    requires Inv(n, s)
    ensures Inv(n, Next(n, s, Clear))
  {
    EpochEnds(n, s.epochs, Cleared(s.epoch));
    EmptyWindow(s.buffers[s.active], n);
    var due := Delivered(n, s.epochs);
    assert due + [] == due;
    assert Flatten(Texts(s.epochs)) + s.epoch + "" == s.history;
    hide Window, Newest, Around, Flatten, Texts, Delivered;
  }

  /** The old buffer holds what the swap promised. */
  lemma SwapPromises(buffer: string, head: nat, used: nat, epoch: string, destSize: nat, count: nat)
    requires head < |buffer| && used <= |buffer| && Window(buffer, head, used) == Newest(epoch, |buffer|)
    requires destSize > 0 && count == if used < destSize - 1 then used else destSize - 1
    ensures var n := |buffer|;
            var want := Newest(epoch, Min(n, destSize - 1));
            |want| == count && forall i :: 0 <= i < count ==>
              buffer[Around(Start(n, head, used, count) + i, n)] == want[i]
  {
    hide *;
    var n, w := |buffer|, Window(buffer, head, used);
    NewestTwice(epoch, n, destSize - 1);
    NewestThatFit(w, used, destSize, count);
    forall i | 0 <= i < count
      ensures buffer[Around(Start(n, head, used, count) + i, n)] == Newest(w, count)[i]
    {
      NewestAt(buffer, head, used, count, i);
    }
  }

  lemma NewestThatFit(w: string, used: nat, destSize: nat, count: nat)
    requires |w| == used && destSize > 0 && count == if used < destSize - 1 then used else destSize - 1
    ensures Newest(w, count) == Newest(w, destSize - 1) && |Newest(w, count)| == count
  {}

  lemma StartShape(n: nat, s: State, destSize: nat)
    requires Shape(n, s) && s.reader.Idle? && destSize > 0
    ensures Shape(n, Next(n, s, StartConsume(destSize)))
  {
    hide Around, Start;
  }

  lemma StartHistory(n: nat, s: State, destSize: nat)
    requires Shape(n, s) && HistoryOk(n, s) && s.reader.Idle? && destSize > 0
    requires Shape(n, Next(n, s, StartConsume(destSize)))
    ensures HistoryOk(n, Next(n, s, StartConsume(destSize)))
  {
    EpochEnds(n, s.epochs, Consumed(s.epoch, destSize - 1));
    EmptyWindow(s.buffers[1 - s.active], n);
    assert Flatten(Texts(s.epochs)) + s.epoch + "" == s.history;
    hide Window, Newest, Around, Flatten, Texts, Delivered, Start;
  }

  lemma StartReader(n: nat, s: State, destSize: nat)
    requires Shape(n, s) && HistoryOk(n, s) && s.reader.Idle? && destSize > 0
    requires Shape(n, Next(n, s, StartConsume(destSize)))
    ensures ReaderOk(n, Next(n, s, StartConsume(destSize)), Newest(s.epoch, Min(n, destSize - 1)))
  {
    var count := if s.used < destSize - 1 then s.used else destSize - 1;
    SwapPromises(s.buffers[s.active], s.head, s.used, s.epoch, destSize, count);
    hide Window, Newest, Around, Start;
  }

  lemma StartKeeps(n: nat, s: State, destSize: nat)
    requires Inv(n, s) && s.reader.Idle? && destSize > 0
    ensures Inv(n, Next(n, s, StartConsume(destSize)))
  {
    StartShape(n, s, destSize);
    StartHistory(n, s, destSize);
    StartReader(n, s, destSize);
    EpochEnds(n, s.epochs, Consumed(s.epoch, destSize - 1));
    hide Window, Newest, Around, Flatten, Texts, Delivered, Start, HistoryOk, ReaderOk, Shape;
  }

  lemma CopyKeeps(n: nat, s: State)
    requires Inv(n, s) && Enabled(s, CopyByte)
    ensures Inv(n, Next(n, s, CopyByte))
  {
    var s' := Next(n, s, CopyByte);
    hide Window, Newest, Around, Flatten, Texts, Delivered;
    assert HistoryOk(n, s');
    var want := Delivered(n, s.epochs)[|s.results|];
    var got := s.reader.got;
    assert want[..|got| + 1] == want[..|got|] + [want[|got|]];
    assert ReaderOk(n, s', want);
  }

  lemma FinishKeeps(n: nat, s: State)
    requires Inv(n, s) && Enabled(s, FinishConsume)
    ensures Inv(n, Next(n, s, FinishConsume))
  {
    var due := Delivered(n, s.epochs);
    assert s.reader.got == due[|s.results|];
    assert s.results + [due[|s.results|]] == due;
    hide Window, Newest, Around, Flatten, Texts, Delivered;
  }

  lemma NextKeeps(n: nat, s: State, a: Action)
    requires Inv(n, s) && Enabled(s, a)
    ensures Inv(n, Next(n, s, a))
  {
    hide Inv, Next, Shape;
    match a
    case Put(c) => PutKeeps(n, s, c);
    case Clear => ClearKeeps(n, s);
    case StartConsume(destSize) => StartKeeps(n, s, destSize);
    case CopyByte => CopyKeeps(n, s);
    case FinishConsume => FinishKeeps(n, s);
  }

  // ---- Every run ----

  ghost predicate Reaches(n: nat, s: State, actions: seq<Action>, s': State)
    decreases |actions|
  {
    if actions == [] then s' == s
    else Shape(n, s) && Enabled(s, actions[0]) && Reaches(n, Next(n, s, actions[0]), actions[1..], s')
  }

  lemma InitOk(n: nat)
    requires n > 0
    ensures Inv(n, Init(n))
  {
    EmptyWindow(Init(n).buffers[0], n);
    assert Texts([]) == [] && Flatten(Texts([])) == [];
    hide Window, Newest;
  }

  lemma {:induction false} RunKeeps(n: nat, s: State, actions: seq<Action>, s': State)
    requires Inv(n, s) && Reaches(n, s, actions, s')
    ensures Inv(n, s')
    decreases |actions|
  {
    if actions == [] {
      hide Inv;
    } else {
      NextKeeps(n, s, actions[0]);
      RunKeeps(n, Next(n, s, actions[0]), actions[1..], s');
      hide Inv, Next;
    }
  }

  lemma {:induction false} ReachesSnoc(n: nat, s: State, actions: seq<Action>, s': State, a: Action)
    requires Reaches(n, s, actions, s') && Shape(n, s') && Enabled(s', a)
    ensures Reaches(n, s, actions + [a], Next(n, s', a))
    decreases |actions|
  {
    if actions == [] {
      assert ([] + [a])[1..] == [];
    } else {
      ReachesSnoc(n, Next(n, s, actions[0]), actions[1..], s', a);
      assert (actions + [a])[1..] == actions[1..] + [a];
    }
    hide Next, Shape, Enabled;
  }

  /** Exactly once: at any moment when no consumer is at work, all that was ever written is
      the ended epochs followed by the current one; the consumers got, in order, the newest
      text of each consumed epoch that fitted ring and destination, and the ring holds the
      newest text of the current epoch. With a destination of capacity + 1 bytes or more a
      consumed epoch misses only what the ring evicted as oldest. */
  lemma ExactlyOnce(n: nat, actions: seq<Action>, s: State)
    requires n > 0 && Reaches(n, Init(n), actions, s) && s.reader.Idle?
    ensures Shape(n, s) && s.results == Delivered(n, s.epochs)
    ensures Flatten(Texts(s.epochs)) + s.epoch == s.history
    ensures Window(s.buffers[s.active], s.head, s.used) == Newest(s.epoch, n)
  {
    InitOk(n);
    RunKeeps(n, Init(n), actions, s);
    hide Window, Newest, Flatten, Texts, Delivered;
  }
}

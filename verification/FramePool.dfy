/** The frame pool and the publishing call as the publisher's own code runs them: a scan over
    a fixed array of frames, a copy, and one send per queue. Each call is proved to be a run of
    the publisher's steps in Fanout, where they interleave with the consumers'. */
module FramePool {
  import opened Crc24
  import opened Frames
  import opened ConsumerRun
  import opened PublisherRun
  import F = Fanout
  import V = ValueQueues

  class PoolFrame {
    const data: array<byte>
    var len: nat
    var refCount: int

    constructor ()
      ensures fresh(data) && data.Length == MAX_RTCM_FRAME && len == 0
    {
      data := new byte[MAX_RTCM_FRAME](i => 0);
      len := 0;
      refCount := *;
    }

    ghost function Content(): seq<byte>
      reads this`len, data
      requires len <= data.Length
    {
      data[..len]
    }
  }

  class Pool {
    const slots: seq<PoolFrame>
    ghost const arrays: set<array<byte>>

    constructor (slots: seq<PoolFrame>)
      ensures this.slots == slots && arrays == set f | f in slots :: f.data
    {
      this.slots := slots;
      this.arrays := set f | f in slots :: f.data;
    }

    ghost predicate Valid()
      reads slots
    {
      && (forall i :: 0 <= i < |slots| ==> slots[i].data.Length == MAX_RTCM_FRAME && slots[i].len <= MAX_RTCM_FRAME)
      && (forall i :: 0 <= i < |slots| ==> slots[i].data in arrays)
      && (forall i, j :: 0 <= i < j < |slots| ==> slots[i] != slots[j] && slots[i].data != slots[j].data)
    }

    ghost function Counts(): (c: seq<int>)
      reads slots
      ensures |c| == |slots|
    {
      seq(|slots|, i requires 0 <= i < |slots| reads slots => slots[i].refCount)
    }

    ghost predicate Exhausted()
      reads slots
    {
      0 !in Counts()
    }

    /** The frames as the slots of Fanout. */
    ghost predicate Shown(shown: seq<F.Slot>)
      reads slots, arrays
    {
      && |shown| == |slots|
      && forall i :: 0 <= i < |slots| ==>
           slots[i].data in arrays && shown[i] == F.Slot(slots[i].data[..], slots[i].len, slots[i].refCount)
    }

    /** The queue is that of consumer c, which has nothing in its hands. */
    ghost predicate Consumes(queue: seq<PoolFrame>, x: F.State, c: nat)
      reads slots, arrays
    {
      && Shown(x.slots) && c < |x.consumers| && x.consumers[c].held.None?
      && Entries(slots, queue, x.consumers[c].queue)
    }

    lemma QueueShown(queue: seq<PoolFrame>, x: F.State, c: nat)
      requires Consumes(queue, x, c)
      ensures InPool(x, c) && |Waiting(x, c)| == |queue|
    {}

    lemma HeadOf(queue: seq<PoolFrame>, x: F.State, c: nat)
      requires Valid() && Consumes(queue, x, c) && queue != []
      ensures CanTurn(x, c) && InPool(x, c) && |Waiting(x, c)| == |queue| && Shown(x.slots)
      ensures var at := x.consumers[c].queue[0]; at < |slots| && queue[0] == slots[at]
      ensures queue[0] in slots && queue[0].data in arrays
      ensures queue[0].data.Length == MAX_RTCM_FRAME && queue[0].len <= MAX_RTCM_FRAME
      ensures Waiting(x, c)[0] == queue[0].data[..queue[0].len] == queue[0].Content()
      ensures Entries(slots, queue[1..], x.consumers[c].queue[1..])
    {}

    method Init()
      modifies slots
      ensures forall i :: 0 <= i < |slots| ==> slots[i].refCount == 0 && slots[i].len == old(slots[i].len)
    {
      for i := 0 to |slots|
        invariant forall j :: 0 <= j < i ==> slots[j].refCount == 0
        invariant forall j :: 0 <= j < |slots| ==> slots[j].len == old(slots[j].len)
      {
        slots[i].refCount := 0;
      }
    }

    /** The first free frame, marked with the tentative count 1; null when every frame is
        busy. */
    method Alloc() returns (f: PoolFrame?, ghost at: nat)
      requires Valid()
      modifies slots
      ensures Valid() && forall i :: 0 <= i < |slots| ==> slots[i].len == old(slots[i].len)
      ensures f == null <==> old(Exhausted())
      ensures f == null ==> Counts() == old(Counts())
      ensures f != null ==> (at < |slots| && f == slots[at] && old(f.refCount) == 0)
      ensures f != null ==> (old(Counts())[at] == 0 && 0 !in old(Counts())[..at] && f.refCount == 1)
      ensures forall i :: 0 <= i < |slots| && slots[i] != f ==> unchanged(slots[i])
    {
      at := 0;
      for i := 0 to |slots|
        invariant 0 !in Counts()[..i]
        invariant forall j :: 0 <= j < |slots| ==> unchanged(slots[j])
      {
        if slots[i].refCount == 0 {
          slots[i].refCount := 1;
          at := i;
          assert old(Counts())[i] == 0;
          return slots[i], at;
        }
        assert Counts()[..i + 1] == Counts()[..i] + [Counts()[i]];
      }
      assert Counts()[..|slots|] == Counts();
      f := null;
    }

    /** The copy of a frame's bytes into its slot. */
    method Fill(f: PoolFrame, frame: array<byte>, len: nat)
      requires Valid() && f in slots && f.data != frame && len <= frame.Length && len <= MAX_RTCM_FRAME
      modifies f`len, f.data
      ensures Valid() && f.len == len && f.Content() == frame[..len]
      ensures f.data[..] == frame[..len] + old(f.data[..])[len..]
    {
      for j := 0 to len
        invariant f.data[..j] == frame[..j] && f.data[j..] == old(f.data[..])[j..] && unchanged(f)
      {
        f.data[j] := frame[j];
        assert f.data[..j + 1] == f.data[..j] + [frame[j]];
      }
      f.len := len;
    }

    method SetRefs(f: PoolFrame, n: int)
      modifies f`refCount
      ensures f.refCount == n
    {
      f.refCount := n;
    }

    /** One reference less; `wasFree` is the double release the source logs. */
    method Release(f: PoolFrame) returns (wasFree: bool)
      modifies f`refCount
      ensures f.refCount == old(f.refCount) - 1 && wasFree == (old(f.refCount) <= 0)
    {
      var prev := f.refCount;
      f.refCount := f.refCount - 1;
      wasFree := prev <= 0;
    }
  }

  /** How many of the first n queues have room. */
  function Takers(queues: seq<seq<PoolFrame>>, depth: nat, n: nat): (t: nat)
    requires n <= |queues|
    ensures t <= n
  {
    if n == 0 then 0 else Takers(queues, depth, n - 1) + if |queues[n - 1]| < depth then 1 else 0
  }

  /** A queue after an offer. */
  function Offered(queue: seq<PoolFrame>, depth: nat, f: PoolFrame): seq<PoolFrame> {
    if |queue| < depth then queue + [f] else queue
  }

  /** A drop counter, a 32-bit word, after an offer to its queue. */
  function Dropped(drops: nat, queue: seq<PoolFrame>, depth: nat): nat {
    if |queue| < depth then drops else (drops + 1) % UINT32
  }

  /** A queue of pointers and the slot numbers of Fanout that stand for it. */
  ghost predicate Entries(slots: seq<PoolFrame>, queue: seq<PoolFrame>, entries: seq<nat>) {
    && |entries| == |queue|
    && forall i :: 0 <= i < |queue| ==> entries[i] < |slots| && queue[i] == slots[entries[i]]
  }

  /** Every queue was offered the frame f. */
  ghost predicate OfferedToAll(f: PoolFrame, depth: nat, before: seq<seq<PoolFrame>>, after: seq<seq<PoolFrame>>,
                               drops: seq<nat>, drops': seq<nat>)
  {
    && |after| == |before| == |drops| == |drops'|
    && forall c :: 0 <= c < |before| ==>
         after[c] == Offered(before[c], depth, f) && drops'[c] == Dropped(drops[c], before[c], depth)
  }

  ghost predicate CountsOf(slots: seq<F.Slot>, counts: seq<int>) {
    |slots| == |counts| && forall j :: 0 <= j < |slots| ==> slots[j].refs == counts[j]
  }

  lemma ScanEnds(k: F.Config, x: F.State, frame: V.Frame, counts: seq<int>)
    requires CountsOf(x.slots, counts) && 0 !in counts && x.pub == F.Scan(frame, 0)
    ensures Leads(k, x, x.(pub := F.Idle), |x.slots| + 1)
  {
    ScanFails(k, x, frame);
  }

  lemma ScanFinds(k: F.Config, x: F.State, frame: V.Frame, counts: seq<int>, at: nat)
    requires CountsOf(x.slots, counts) && at < |counts| && counts[at] == 0 && 0 !in counts[..at]
    requires x.pub == F.Scan(frame, 0)
    ensures Leads(k, x, Taken(x, frame, at), at + 2)
  {
    assert forall j :: 0 <= j < at ==> counts[..at][j] == counts[j];
    ScanTakes(k, x, frame, at);
  }

  /** The publishing side: the queues of the active services and their drop counters. */
  class Publisher {
    const pool: Pool
    const depth: nat
    var queues: seq<seq<PoolFrame>>
    var drops: seq<nat>

    constructor (pool: Pool, n: nat, depth: nat)
      requires pool.Valid()
      ensures Valid() && this.pool == pool && this.depth == depth
      ensures queues == seq(n, i => []) && drops == seq(n, i => 0)
    {
      this.pool, this.depth := pool, depth;
      queues, drops := seq(n, i => []), seq(n, i => 0);
    }

    ghost predicate Valid()
      reads this`queues, this`drops, pool.slots
    {
      pool.Valid() && |drops| == |queues|
    }

    /** The queues and counters as the consumers of Fanout, whatever these have in hand. */
    ghost predicate QueuesShown(consumers: seq<F.Consumer>)
      reads this`queues, this`drops
    {
      && |consumers| == |queues| == |drops|
      && forall c :: 0 <= c < |queues| ==>
           Entries(pool.slots, queues[c], consumers[c].queue) && consumers[c].drops == drops[c]
    }

    ghost predicate Shows(x: F.State)
      reads this`queues, this`drops, pool.slots, pool.arrays
    {
      pool.Shown(x.slots) && QueuesShown(x.consumers)
    }

    ghost function Config(): F.Config
      reads this`queues
    {
      F.Config(|queues|, depth, |pool.slots|)
    }

    lemma Parts(x: F.State)
      requires Valid() && Shows(x)
      ensures pool.Valid() && |drops| == |queues| && Config() == F.Config(|queues|, depth, |pool.slots|)
      ensures pool.Shown(x.slots) && QueuesShown(x.consumers)
    {}

    lemma Whole(x: F.State)
      requires pool.Valid() && |drops| == |queues| && pool.Shown(x.slots) && QueuesShown(x.consumers)
      ensures Valid() && Shows(x)
    {}

    lemma InPool(at: nat)
      requires pool.Valid() && at < |pool.slots|
      ensures pool.slots[at].data.Length == MAX_RTCM_FRAME && pool.slots[at].data in pool.arrays
    {}

    /** The frame to every queue with room; a full queue's reference is released. */
    method Send(slot: PoolFrame, ghost k: F.Config, ghost x: F.State, ghost frame: V.Frame, ghost at: nat)
      returns (ghost y: F.State, ghost n: nat)
      requires Valid() && at < |pool.slots| && slot == pool.slots[at] && slot.refCount == |queues| > 0
      requires Shows(x) && x.pub == F.Send(frame, at, 0) && k == Config()
      modifies this`queues, this`drops, slot`refCount
      ensures Valid() && slot.refCount == Takers(old(queues), depth, |old(queues)|)
      ensures |queues| == |old(queues)|
      ensures OfferedToAll(slot, depth, old(queues), queues, old(drops), drops)
      ensures Leads(k, x, y, n) && Shows(y) && y.pub == F.Idle
    {
      hide Offered, Dropped, Leads, Shows;
      y, n := x, 0;
      NoSteps(k, x);
      for i := 0 to |queues|
        invariant |queues| == k.n && |drops| == k.n && pool.Valid()
        invariant forall k :: 0 <= k < i ==> queues[k] == Offered(old(queues)[k], depth, slot)
        invariant forall k :: 0 <= k < i ==> drops[k] == Dropped(old(drops)[k], old(queues)[k], depth)
        invariant forall k :: i <= k < |queues| ==> queues[k] == old(queues)[k] && drops[k] == old(drops)[k]
        invariant slot.refCount == Takers(old(queues), depth, i) + (k.n - i)
        invariant Leads(k, x, y, n) && Shows(y)
        invariant y.pub == if i == k.n then F.Idle else F.Send(frame, at, i)
      {
        ghost var z, m := SendTo(i, slot, k, y, frame, at);
        LeadsOn(k, x, y, n, z, m);
        y, n := z, n + m;
      }
    }

    /** One send; a full queue counts a drop and its reference is released. */
    method SendTo(i: nat, slot: PoolFrame, ghost k: F.Config, ghost x: F.State, ghost frame: V.Frame, ghost at: nat)
      returns (ghost y: F.State, ghost n: nat)
      requires i < |queues| == |drops| && pool.Valid()
      requires slot.refCount > 0 && at < |pool.slots| && slot == pool.slots[at]
      requires Shows(x) && x.pub == F.Send(frame, at, i) && k == Config()
      modifies this`queues, this`drops, slot`refCount
      ensures queues == old(queues)[i := Offered(old(queues)[i], depth, slot)]
      ensures drops == old(drops)[i := Dropped(old(drops)[i], old(queues)[i], depth)]
      ensures slot.refCount == old(slot.refCount) - if |old(queues)[i]| < depth then 0 else 1
      ensures Leads(k, x, y, n) && Shows(y) && y.pub == F.AfterSend(k, frame, at, i)
    {
      hide Leads;
      assert Entries(pool.slots, queues[i], x.consumers[i].queue);
      if |queues[i]| < depth {
        queues := queues[i := queues[i] + [slot]];
        y, n := Queued(k, x, frame, at, i), 1;
        SendFits(k, x, frame, at, i);
      } else {
        drops := drops[i := (drops[i] + 1) % UINT32];
        var wasFree := pool.Release(slot);
        assert !wasFree;
        y, n := Refused(k, x, frame, at, i), 2;
        SendDrops(k, x, frame, at, i);
      }
    }

    /** The first free frame, if there is one. */
    method Take(ghost k: F.Config, ghost x: F.State, ghost sent: V.Frame)
      returns (f: PoolFrame?, ghost at: nat, ghost y: F.State, ghost n: nat)
      requires pool.Valid() && pool.Shown(x.slots) && x.pub == F.Scan(sent, 0)
      modifies pool.slots
      ensures pool.Valid() && pool.Shown(y.slots)
      ensures f == null <==> old(pool.Exhausted())
      ensures forall i :: 0 <= i < |pool.slots| && pool.slots[i] != f ==> unchanged(pool.slots[i])
      ensures f == null ==> y == x.(pub := F.Idle)
      ensures f != null ==> (at < |pool.slots| && f == pool.slots[at] && old(f.refCount) == 0)
      ensures f != null ==> (y.consumers == x.consumers && y.pub == F.Fill(sent, at, 0))
      ensures Leads(k, x, y, n)
    {
      ghost var counts := pool.Counts();
      assert CountsOf(x.slots, counts) && (pool.Exhausted() <==> 0 !in counts);
      hide Leads, pool.Counts, pool.Exhausted, CountsOf;
      f, at := pool.Alloc();
      if f == null {
        ScanEnds(k, x, sent, counts);
        y, n := x.(pub := F.Idle), |x.slots| + 1;
      } else {
        ScanFinds(k, x, sent, counts, at);
        y, n := Taken(x, sent, at), at + 2;
      }
    }

    /** The frame is in slot f, with a reference per queue. */
    method Fill(f: PoolFrame, frame: array<byte>, len: nat, refs: nat,
                ghost k: F.Config, ghost x: F.State, ghost sent: V.Frame, ghost at: nat)
      returns (ghost y: F.State, ghost n: nat)
      requires pool.Valid() && at < |pool.slots| && f == pool.slots[at] && f.data != frame
      requires len <= frame.Length && len <= MAX_RTCM_FRAME && refs == k.n
      requires pool.Shown(x.slots) && x.pub == F.Fill(sent, at, 0) && sent == frame[..len]
      modifies f, f.data
      ensures pool.Valid() && pool.Shown(y.slots) && f.refCount == refs
      ensures f.len == len && f.Content() == sent
      ensures Leads(k, x, y, n) && y.consumers == x.consumers && y.pub == F.Send(sent, at, 0)
    {
      hide Leads;
      pool.Fill(f, frame, len);
      pool.SetRefs(f, refs);
      y, n := Filled(k, x, sent, at), len + 2;
      CopyEnds(k, x, sent, at);
    }

    /** The frame, in slot f, to every queue with room. */
    method Deliver(f: PoolFrame, frame: array<byte>, len: nat, refs: nat,
                   ghost k: F.Config, ghost x: F.State, ghost sent: V.Frame, ghost at: nat)
      returns (ghost y: F.State, ghost n: nat)
      requires Valid() && at < |pool.slots| && f == pool.slots[at] && f.data != frame
      requires len <= frame.Length && len <= MAX_RTCM_FRAME && refs == |queues| > 0
      requires Shows(x) && x.pub == F.Fill(sent, at, 0) && sent == frame[..len] && k == Config()
      modifies this`queues, this`drops, f, f.data
      ensures Valid() && |queues| == |old(queues)|
      ensures f.len <= f.data.Length && f.Content() == sent
      ensures f.refCount == Takers(old(queues), depth, |old(queues)|)
      ensures OfferedToAll(f, depth, old(queues), queues, old(drops), drops)
      ensures Leads(k, x, y, n) && Shows(y) && y.pub == F.Idle
    {
      hide *;
      Parts(x);
      InPool(at);
      y, n := Fill(f, frame, len, refs, k, x, sent, at);
      Whole(y);
      ghost var z, m := y, n;
      y, n := Send(f, k, z, sent, at);
      LeadsOn(k, x, z, m, y, n);
      n := m + n;
    }

    /** A frame goes to every queue with room, in one pool slot whose count is the number of
        those queues; the others count a drop. With no queue, or no free slot, nothing
        changes. The call is an uninterrupted run of the publisher in Fanout. */
    method Publish(frame: array<byte>, len: nat, ghost x: F.State)
      returns (f: PoolFrame?, ghost at: nat, ghost y: F.State, ghost n: nat)
      requires Valid() && len <= frame.Length && len <= MAX_RTCM_FRAME
      requires frame !in pool.arrays
      requires Shows(x) && x.pub == F.Idle
      modifies this, pool.slots, pool.arrays
      ensures Valid()
      ensures f == null <==> |old(queues)| == 0 || old(pool.Exhausted())
      ensures f == null ==> (queues == old(queues) && drops == old(drops))
      ensures forall i :: 0 <= i < |pool.slots| && pool.slots[i] != f ==>
                unchanged(pool.slots[i]) && unchanged(pool.slots[i].data)
      ensures f != null ==> (at < |pool.slots| && f == pool.slots[at] && old(f.refCount) == 0)
      ensures f != null ==> (f.len <= f.data.Length && f.Content() == old(frame[..len]))
      ensures f != null ==> f.refCount == Takers(old(queues), depth, |old(queues)|)
      ensures |queues| == |old(queues)|
      ensures f != null ==> OfferedToAll(f, depth, old(queues), queues, old(drops), drops)
      ensures F.Runs(Config(), x, Publication(old(frame[..len]), n))
      ensures y == F.Run(Config(), x, Publication(old(frame[..len]), n)).state
      ensures Shows(y) && y.pub == F.Idle
    {
      hide *;
      ghost var k, sent := Config(), frame[..len];
      Parts(x);
      var refs := |queues|;
      if refs == 0 {
        y, n := x, 0;
        Discards(k, x, sent);
        return null, 0, y, n;
      }
      ghost var start := Begins(k, x, sent);
      f, at, y, n := Take(k, start, sent);
      Whole(y);
      if f != null {
        InPool(at);
        ghost var taken, m := y, n;
        y, n := Deliver(f, frame, len, refs, k, taken, sent, at);
        LeadsOn(k, start, taken, m, y, n);
        n := m + n;
      }
      Parts(y);
      PublicationRuns(k, x, sent, y, n);
    }
  }
}

/** The publisher of Fanout running without interruption: where its steps lead. */
module PublisherRun {
  import opened Crc24
  import opened Fanout
  import opened Frames
  import V = ValueQueues

  /** n steps of the publisher, one after the other, lead from x to y. */
  ghost predicate Leads(k: Config, x: State, y: State, n: nat)
    decreases n
  {
    if n == 0 then x == y
    else exists z :: Leads(k, x, z, n - 1) && Enabled(z, Step) && y == Next(k, z, Step).state
  }

  lemma NoSteps(k: Config, x: State)
    ensures Leads(k, x, x, 0)
  {}

  lemma OneStepMore(k: Config, x: State, y: State, n: nat, z: State)
    requires Leads(k, x, y, n) && Enabled(y, Step) && z == Next(k, y, Step).state
    ensures Leads(k, x, z, n + 1)
  {
    hide Next, Enabled;
  }

  lemma LastStep(k: Config, x: State, y: State, n: nat) returns (z: State)
    requires Leads(k, x, y, n) && n > 0
    ensures Leads(k, x, z, n - 1) && Enabled(z, Step) && y == Next(k, z, Step).state
  {
    hide Next, Enabled;
    z :| Leads(k, x, z, n - 1) && Enabled(z, Step) && y == Next(k, z, Step).state;
  }

  lemma {:induction false} LeadsOn(k: Config, x: State, y: State, n: nat, z: State, m: nat)
    requires Leads(k, x, y, n) && Leads(k, y, z, m)
    ensures Leads(k, x, z, n + m)
    decreases m
  {
    hide Next, Enabled;
    if m > 0 {
      var u := LastStep(k, y, z, m);
      LeadsOn(k, x, y, n, u, m - 1);
      OneStepMore(k, x, u, n + m - 1, z);
    }
  }

  lemma {:induction false} RunSnoc(k: Config, x: State, actions: seq<Action>, a: Action)
    requires Runs(k, x, actions) && Enabled(Run(k, x, actions).state, a)
    ensures Runs(k, x, actions + [a])
    ensures Run(k, x, actions + [a]).state == Next(k, Run(k, x, actions).state, a).state
    decreases |actions|
  {
    hide Next, Enabled;
    if actions == [] {
      assert ([] + [a])[1..] == [] && ([] + [a])[0] == a;
      assert Runs(k, Next(k, x, a).state, []);
    } else {
      assert (actions + [a])[1..] == actions[1..] + [a] && (actions + [a])[0] == actions[0];
      RunSnoc(k, Next(k, x, actions[0]).state, actions[1..], a);
    }
  }

  function Steps(n: nat): (s: seq<Action>)
    ensures |s| == n && forall i :: 0 <= i < n ==> s[i] == Step
  {
    seq(n, i => Step)
  }

  /** Such steps are a run of the machine in which nobody else moves. */
  lemma {:induction false} LeadsIsRun(k: Config, x: State, y: State, n: nat)
    requires Leads(k, x, y, n)
    ensures Runs(k, x, Steps(n)) && Run(k, x, Steps(n)).state == y
    decreases n
  {
    hide Next, Enabled;
    if n == 0 {
      assert Steps(0) == [];
    } else {
      var z := LastStep(k, x, y, n);
      LeadsIsRun(k, x, z, n - 1);
      RunSnoc(k, x, Steps(n - 1), Step);
      assert Steps(n) == Steps(n - 1) + [Step];
    }
  }

  /** A publication and the steps it leads to. */
  function Publication(f: V.Frame, n: nat): seq<Action> {
    [Publish(f)] + Steps(n)
  }

  lemma PublicationRuns(k: Config, x: State, f: V.Frame, y: State, n: nat)
    requires Enabled(x, Publish(f)) && Leads(k, Next(k, x, Publish(f)).state, y, n)
    ensures Runs(k, x, Publication(f, n)) && Run(k, x, Publication(f, n)).state == y
  {
    hide Next, Enabled, Leads;
    LeadsIsRun(k, Next(k, x, Publish(f)).state, y, n);
    assert Publication(f, n)[0] == Publish(f) && Publication(f, n)[1..] == Steps(n);
  }

  // ---- The scan ----

  lemma ScanPasses(k: Config, x: State, f: V.Frame, i: nat)
    requires x.pub == Scan(f, i) && i < |x.slots| && x.slots[i].refs != 0
    ensures Enabled(x, Step) && Next(k, x, Step).state == x.(pub := Scan(f, i + 1))
  {}

  lemma {:induction false} ScanTo(k: Config, x: State, f: V.Frame, i: nat)
    requires x.pub == Scan(f, 0) && i <= |x.slots|
    requires forall j :: 0 <= j < i ==> x.slots[j].refs != 0
    ensures Leads(k, x, x.(pub := Scan(f, i)), i)
  {
    hide Next, Enabled, Leads;
    if i == 0 {
      NoSteps(k, x);
      assert x.(pub := Scan(f, 0)) == x;
    } else {
      var y := x.(pub := Scan(f, i - 1));
      ScanTo(k, x, f, i - 1);
      ScanPasses(k, y, f, i - 1);
      OneStepMore(k, x, y, i - 1, x.(pub := Scan(f, i)));
    }
  }

  /** No slot is free: the frame is given up. */
  lemma ScanFails(k: Config, x: State, f: V.Frame)
    requires x.pub == Scan(f, 0) && forall j :: 0 <= j < |x.slots| ==> x.slots[j].refs != 0
    ensures Leads(k, x, x.(pub := Idle), |x.slots| + 1)
  {
    var y := x.(pub := Scan(f, |x.slots|));
    ScanTo(k, x, f, |x.slots|);
    assert Enabled(y, Step) && Next(k, y, Step).state == x.(pub := Idle);
    OneStepMore(k, x, y, |x.slots|, x.(pub := Idle));
  }

  function Taken(x: State, f: V.Frame, i: nat): State
    requires i < |x.slots|
  {
    State(x.slots[i := x.slots[i].(refs := 1)], x.consumers, Fill(f, i, 0))
  }

  /** The first free slot is taken. */
  lemma ScanTakes(k: Config, x: State, f: V.Frame, i: nat)
    requires x.pub == Scan(f, 0) && i < |x.slots| && x.slots[i].refs == 0
    requires forall j :: 0 <= j < i ==> x.slots[j].refs != 0
    ensures Leads(k, x, Taken(x, f, i), i + 2)
  {
    hide Leads;
    var y, z := x.(pub := Scan(f, i)), x.(pub := Store(f, i));
    ScanTo(k, x, f, i);
    assert Enabled(y, Step) && Next(k, y, Step).state == z;
    OneStepMore(k, x, y, i, z);
    assert Enabled(z, Step) && Next(k, z, Step).state == Taken(x, f, i);
    OneStepMore(k, x, z, i + 1, Taken(x, f, i));
  }

  // ---- The copy ----

  /** The slot's bytes after j bytes of the copy. */
  function Overlaid(data: seq<byte>, f: V.Frame, j: nat): seq<byte>
    requires j <= |f| <= |data|
  {
    f[..j] + data[j..]
  }

  lemma OneByteMore(data: seq<byte>, f: V.Frame, j: nat)
    requires j < |f| <= |data|
    ensures |Overlaid(data, f, j)| == |data|
    ensures Overlaid(data, f, j)[j := f[j]] == Overlaid(data, f, j + 1)
  {}

  function Copied(x: State, f: V.Frame, i: nat, j: nat): State
    requires i < |x.slots| && j <= |f| <= |x.slots[i].data|
  {
    State(x.slots[i := x.slots[i].(data := Overlaid(x.slots[i].data, f, j))], x.consumers, Fill(f, i, j))
  }

  lemma FillCopies(k: Config, x: State, f: V.Frame, i: nat, j: nat)
    requires x.pub == Fill(f, i, j) && i < |x.slots| && j < |f| && j < |x.slots[i].data|
    ensures Enabled(x, Step)
    ensures Next(k, x, Step).state
         == State(x.slots[i := x.slots[i].(data := x.slots[i].data[j := f[j]])], x.consumers, Fill(f, i, j + 1))
  {}

  lemma CopiedOneMore(k: Config, x: State, f: V.Frame, i: nat, j: nat)
    requires i < |x.slots| && j < |f| <= |x.slots[i].data|
    ensures var y := Copied(x, f, i, j);
            Enabled(y, Step) && Next(k, y, Step).state == Copied(x, f, i, j + 1)
  {
    hide Overlaid, Next, Enabled;
    OneByteMore(x.slots[i].data, f, j);
    var y, data := Copied(x, f, i, j), Overlaid(x.slots[i].data, f, j);
    FillCopies(k, y, f, i, j);
    assert y.slots[i := y.slots[i].(data := data[j := f[j]])]
        == x.slots[i := x.slots[i].(data := data[j := f[j]])];
  }

  lemma {:induction false} CopyTo(k: Config, x: State, f: V.Frame, i: nat, j: nat)
    requires i < |x.slots| && j <= |f| <= |x.slots[i].data| && x.pub == Fill(f, i, 0)
    ensures Leads(k, x, Copied(x, f, i, j), j)
  {
    hide Leads, Next, Enabled;
    if j == 0 {
      NoSteps(k, x);
      assert x.slots[i].data[0..] == x.slots[i].data && f[..0] + x.slots[i].data == x.slots[i].data;
      assert Copied(x, f, i, 0) == x;
    } else {
      CopyTo(k, x, f, i, j - 1);
      CopiedOneMore(k, x, f, i, j - 1);
      OneStepMore(k, x, Copied(x, f, i, j - 1), j - 1, Copied(x, f, i, j));
    }
  }

  function Filled(k: Config, x: State, f: V.Frame, i: nat): State
    requires i < |x.slots| && |f| <= |x.slots[i].data|
  {
    State(x.slots[i := Slot(Overlaid(x.slots[i].data, f, |f|), |f|, k.n)], x.consumers, Send(f, i, 0))
  }

  /** The bytes, the length and the count are in the slot. */
  lemma CopyEnds(k: Config, x: State, f: V.Frame, i: nat)
    requires i < |x.slots| && |f| <= |x.slots[i].data| && x.pub == Fill(f, i, 0)
    ensures Leads(k, x, Filled(k, x, f, i), |f| + 2)
  {
    hide Leads, Overlaid;
    var y := Copied(x, f, i, |f|);
    var z := State(y.slots[i := y.slots[i].(len := |f|)], x.consumers, SetRefs(f, i));
    CopyTo(k, x, f, i, |f|);
    assert Enabled(y, Step) && Next(k, y, Step).state == z;
    OneStepMore(k, x, y, |f|, z);
    assert Filled(k, x, f, i).slots == z.slots[i := z.slots[i].(refs := k.n)];
    assert Enabled(z, Step) && Next(k, z, Step).state == Filled(k, x, f, i);
    OneStepMore(k, x, z, |f| + 1, Filled(k, x, f, i));
  }

  // ---- The sends ----

  /** The frame in slot i was offered to queue c, which had room. */
  function Queued(k: Config, x: State, f: V.Frame, i: nat, c: nat): State
    requires c < |x.consumers|
  {
    var q := x.consumers[c];
    State(x.slots, x.consumers[c := q.(queue := q.queue + [i])], AfterSend(k, f, i, c))
  }

  lemma SendFits(k: Config, x: State, f: V.Frame, i: nat, c: nat)
    requires x.pub == Send(f, i, c) && i < |x.slots| && c < |x.consumers| && |x.consumers[c].queue| < k.depth
    ensures Leads(k, x, Queued(k, x, f, i, c), 1)
  {
    NoSteps(k, x);
    hide Leads, AfterSend;
    assert Enabled(x, Step) && Next(k, x, Step).state == Queued(k, x, f, i, c);
    OneStepMore(k, x, x, 0, Queued(k, x, f, i, c));
  }

  /** It was full. */
  function Refused(k: Config, x: State, f: V.Frame, i: nat, c: nat): State
    requires i < |x.slots| && c < |x.consumers|
  {
    var q := x.consumers[c];
    State(x.slots[i := x.slots[i].(refs := x.slots[i].refs - 1)],
          x.consumers[c := q.(drops := CountDrop(q.drops))], AfterSend(k, f, i, c))
  }

  lemma SendDrops(k: Config, x: State, f: V.Frame, i: nat, c: nat)
    requires x.pub == Send(f, i, c) && i < |x.slots| && c < |x.consumers| && |x.consumers[c].queue| >= k.depth
    ensures Leads(k, x, Refused(k, x, f, i, c), 2)
  {
    NoSteps(k, x);
    hide Leads, AfterSend, CountDrop;
    var q := x.consumers[c];
    var y := State(x.slots, x.consumers[c := q.(drops := CountDrop(q.drops))], Drop(f, i, c));
    assert Enabled(x, Step) && Next(k, x, Step).state == y;
    OneStepMore(k, x, x, 0, y);
    assert Enabled(y, Step) && Next(k, y, Step).state == Refused(k, x, f, i, c);
    OneStepMore(k, x, y, 1, Refused(k, x, f, i, c));
  }

  // ---- The publication ----

  /** With no consumer the frame is discarded. */
  lemma Discards(k: Config, x: State, f: V.Frame)
    requires x.pub == Idle && |f| <= MAX_RTCM_FRAME && k.n == 0
    ensures Runs(k, x, Publication(f, 0)) && Run(k, x, Publication(f, 0)).state == x
  {
    NoSteps(k, x);
    PublicationRuns(k, x, f, x, 0);
  }

  lemma Begins(k: Config, x: State, f: V.Frame) returns (y: State)
    requires x.pub == Idle && |f| <= MAX_RTCM_FRAME && k.n > 0
    ensures Enabled(x, Publish(f)) && y == Next(k, x, Publish(f)).state
    ensures y == State(x.slots, x.consumers, Scan(f, 0))
  {
    y := Next(k, x, Publish(f)).state;
  }
}

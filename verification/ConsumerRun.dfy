/** A consumer of Fanout running without interruption: it takes the frame at the head of its
    queue, does with it what it is for, and gives it back. */
module ConsumerRun {
  import opened Crc24
  import F = Fanout
  import P = PublisherRun

  /** What consumer c does with n frames in a row. */
  function Turns(c: nat, n: nat): seq<F.Action> {
    if n == 0 then [] else Turns(c, n - 1) + [F.Receive(c)] + [F.Release(c)]
  }

  ghost predicate CanTurn(x: F.State, c: nat) {
    && c < |x.consumers| && x.consumers[c].held.None?
    && x.consumers[c].queue != [] && x.consumers[c].queue[0] < |x.slots|
  }

  /** The machine after consumer c took the frame at the head of its queue and gave it back. */
  function Turned(x: F.State, c: nat): F.State
    requires CanTurn(x, c)
  {
    var q, at := x.consumers[c], x.consumers[c].queue[0];
    F.State(x.slots[at := x.slots[at].(refs := x.slots[at].refs - 1)],
            x.consumers[c := q.(queue := q.queue[1..])], x.pub)
  }

  lemma TurnSteps(k: F.Config, x: F.State, c: nat)
    requires CanTurn(x, c)
    ensures F.Enabled(x, F.Receive(c))
    ensures var y := F.Next(k, x, F.Receive(c)).state;
            F.Enabled(y, F.Release(c)) && F.Next(k, y, F.Release(c)).state == Turned(x, c)
  {}

  lemma TurnRuns(k: F.Config, x: F.State, c: nat, n: nat, y: F.State)
    requires F.Runs(k, x, Turns(c, n)) && F.Run(k, x, Turns(c, n)).state == y && CanTurn(y, c)
    ensures F.Runs(k, x, Turns(c, n + 1)) && F.Run(k, x, Turns(c, n + 1)).state == Turned(y, c)
  {
    hide F.Next, F.Enabled, Turned, CanTurn, F.Runs, F.Run;
    TurnSteps(k, y, c);
    P.RunSnoc(k, x, Turns(c, n), F.Receive(c));
    P.RunSnoc(k, x, Turns(c, n) + [F.Receive(c)], F.Release(c));
  }

  lemma NoTurns(k: F.Config, x: F.State, c: nat)
    ensures F.Runs(k, x, Turns(c, 0)) && F.Run(k, x, Turns(c, 0)).state == x
  {}

  // ---- The frames in the queue ----

  ghost predicate InPool(x: F.State, c: nat) {
    c < |x.consumers| && forall i :: 0 <= i < |x.consumers[c].queue| ==> x.consumers[c].queue[i] < |x.slots|
  }

  function Waiting(x: F.State, c: nat): (frames: seq<seq<byte>>)
    requires InPool(x, c)
    ensures |frames| == |x.consumers[c].queue|
  {
    var q := x.consumers[c].queue;
    seq(|q|, i requires 0 <= i < |q| => F.Content(x.slots[q[i]]))
  }

  lemma WaitingTurned(x: F.State, c: nat)
    requires InPool(x, c) && CanTurn(x, c)
    ensures InPool(Turned(x, c), c) && Waiting(Turned(x, c), c) == Waiting(x, c)[1..]
  {
    var y := Turned(x, c);
    assert forall i :: 0 <= i < |x.slots| ==> F.Content(y.slots[i]) == F.Content(x.slots[i]);
    hide F.Content;
  }
}

/** The bridge's counter of dropped chunks, which both tasks increment without a lock: when it
    is exact, and a run in which it is not. */
module BridgeCounter {
  import opened Crc24
  import opened Sequences
  import opened Sockets
  import opened BridgeSpec

  function Drops(removed: seq<Removal>): nat {
    if removed == [] then 0
    else Drops(removed[..|removed| - 1]) + if removed[|removed| - 1].fate == Dropped then 1 else 0
  }

  function InFlight(count: Count): nat {
    if count == Settled then 0 else 1
  }

  /** What an observer of the run sees: has the other task stored since this one's load, and
      did a task ever store after that had happened. */
  datatype Watch = Watch(poster: bool, server: bool, overtaken: bool)

  function WatchStep(s: State, w: Watch, a: Action): Watch {
    if a == PosterStep && s.posterCount == Load then w.(poster := false)
    else if a == PosterStep && s.posterCount.Store? then Watch(w.poster, true, w.overtaken || w.poster)
    else if a.ServerStep? && s.serverCount == Load then w.(server := false)
    else if a.ServerStep? && s.serverCount.Store? then Watch(true, w.server, w.overtaken || w.server)
    else w
  }

  function Watched(depth: nat, script: Script, actions: seq<Action>): Watch {
    if actions == [] then Watch(false, false, false)
    else
      var front := actions[..|actions| - 1];
      WatchStep(Run(depth, Init(script), front), Watched(depth, script, front), actions[|actions| - 1])
  }

  /** Some task's store fell between the other's load and store. */
  predicate Overtaken(depth: nat, script: Script, actions: seq<Action>) {
    Watched(depth, script, actions).overtaken
  }

  /** The counter and the tasks' registers without wrap-around, and the increments stored. */
  datatype Tally = Tally(value: nat, poster: nat, server: nat, stores: nat)

  function TallyStep(s: State, t: Tally, a: Action): Tally {
    if a == PosterStep && s.posterCount == Load then t.(poster := t.value)
    else if a == PosterStep && s.posterCount.Store? then t.(value := t.poster + 1, stores := t.stores + 1)
    else if a.ServerStep? && s.serverCount == Load then t.(server := t.value)
    else if a.ServerStep? && s.serverCount.Store? then t.(value := t.server + 1, stores := t.stores + 1)
    else t
  }

  function Tallied(depth: nat, script: Script, actions: seq<Action>): Tally {
    if actions == [] then Tally(0, 0, 0, 0)
    else
      var front := actions[..|actions| - 1];
      TallyStep(Run(depth, Init(script), front), Tallied(depth, script, front), actions[|actions| - 1])
  }

  ghost predicate WordsOk(drops: nat, poster: Count, server: Count, t: Tally) {
    && drops == t.value % UINT32
    && (poster.Store? ==> poster.n == t.poster % UINT32)
    && (server.Store? ==> server.n == t.server % UINT32)
  }

  /** A register that nobody overtook holds the counter, one that was overtaken is behind. */
  ghost predicate RegisterOk(count: Count, loaded: nat, overtaken: bool, t: Tally) {
    count.Store? ==> (loaded <= t.stores && if overtaken then loaded < t.stores else loaded == t.value)
  }

  ghost predicate TallyOk(poster: Count, server: Count, t: Tally, w: Watch) {
    && t.value <= t.stores && (t.value == t.stores <==> !w.overtaken)
    && RegisterOk(poster, t.poster, w.poster, t)
    && RegisterOk(server, t.server, w.server, t)
  }

  ghost predicate AllCounted(s: State, t: Tally) {
    t.stores + InFlight(s.posterCount) + InFlight(s.serverCount) == Drops(s.removed)
  }

  lemma OneMoreDrop(removed: seq<Removal>, r: Removal)
    ensures Drops(removed + [r]) == Drops(removed) + if r.fate == Dropped then 1 else 0
  {
    assert (removed + [r])[..|removed|] == removed;
  }

  /** A step of a task that is not counting: it may take a chunk off the queue, and then has
      it to count if it dropped it. */
  ghost predicate TakesOff(removed: seq<Removal>, count: Count, removed': seq<Removal>, count': Count) {
    || (removed' == removed && count' == count)
    || (removed' != [] && removed'[..|removed'| - 1] == removed
        && count' == if removed'[|removed'| - 1].fate == Dropped then Load else count)
  }

  lemma NothingOff(removed: seq<Removal>, count: Count)
    ensures TakesOff(removed, count, removed, count)
  {}

  lemma OneOff(removed: seq<Removal>, count: Count, r: Removal)
    ensures TakesOff(removed, count, removed + [r], if r.fate == Dropped then Load else count)
  {}

  lemma PosterEffect(depth: nat, s: State)
    requires s.posterCount == Settled
    ensures var s' := PostStep(s, depth);
            s'.drops == s.drops && s'.serverCount == s.serverCount
            && TakesOff(s.removed, s.posterCount, s'.removed, s'.posterCount)
  {
    NothingOff(s.removed, s.posterCount);
    if s.queue != [] { OneOff(s.removed, s.posterCount, Removal(s.queue[0], Dropped)); }
    hide TakesOff;
  }

  lemma TransmitCounts(s: State)
    requires s.pending.Some?
    ensures var s' := Transmit(s);
            s'.drops == s.drops && s'.posterCount == s.posterCount && s'.serverCount == s.serverCount
            && s'.removed == s.removed
  {
    hide SendLoop;
  }

  ghost predicate ServerTakesOff(s: State, s': State) {
    && s'.drops == s.drops && s'.posterCount == s.posterCount
    && TakesOff(s.removed, s.serverCount, s'.removed, s'.serverCount)
  }

  lemma RemoveEffect(s: State, fate: Fate)
    requires s.queue != [] && fate != Dropped
    ensures ServerTakesOff(s, Remove(s, fate))
  {
    OneOff(s.removed, s.serverCount, Removal(s.queue[0], fate));
    hide TakesOff;
  }

  lemma DropEffect(s: State)
    requires s.queue != []
    ensures ServerTakesOff(s, ServerDrop(s))
  {
    OneOff(s.removed, s.serverCount, Removal(s.queue[0], Dropped));
    hide TakesOff;
  }

  /** Sending and closing touch neither counter nor queue. */
  lemma SameCounts(s: State, x: State, s': State)
    requires ServerTakesOff(s, x)
    requires x.drops == s'.drops && x.posterCount == s'.posterCount && x.serverCount == s'.serverCount
    requires x.removed == s'.removed
    ensures ServerTakesOff(s, s')
  {
    hide TakesOff;
  }

  lemma NoEffect(s: State, s': State)
    requires s.drops == s'.drops && s.posterCount == s'.posterCount && s.serverCount == s'.serverCount
    requires s.removed == s'.removed
    ensures ServerTakesOff(s, s')
  {}

  lemma PumpEffect(s: State, w: World)
    requires s.serverCount == Settled && s.stage == Pump
    ensures ServerTakesOff(s, ServeStep(s, w))
  {
    if s.pending.Some? || s.queue == [] {
      NoEffect(s, s.(stage := Top));
    } else if !s.client {
      RemoveEffect(s, Discarded);
    } else {
      RemoveEffect(s, Sent);
      SameCounts(s, Remove(s, Sent), Take(s));
      TransmitCounts(Take(s));
      SameCounts(s, Take(s), Transmit(Take(s)));
    }
    hide ServerTakesOff, Transmit, Take, Remove;
  }

  lemma ServerEffect(s: State, w: World)
    requires s.serverCount == Settled
    ensures ServerTakesOff(s, ServeStep(s, w))
  {
    var s' := ServeStep(s, w);
    if s.stage == Pump {
      PumpEffect(s, w);
      hide *;
    } else if s.stage in {DrainAfterDisconnect, DrainAfterCommand} && s.queue != [] {
      DropEffect(s);
      hide ServerTakesOff, ServerDrop;
    } else {
      if s.stage == SendPending && s.pending.Some? { TransmitCounts(s); }
      hide Transmit, ServerTakesOff, Take, Remove;
      NoEffect(s, s');
    }
  }

  lemma OffIsCounted(removed: seq<Removal>, count: Count, removed': seq<Removal>, count': Count)
    requires TakesOff(removed, count, removed', count') && count == Settled
    ensures Drops(removed') - InFlight(count') == Drops(removed) - InFlight(count)
    ensures !count'.Store?
  {
    if removed' != removed {
      var r := removed'[|removed'| - 1];
      assert removed' == removed + [r];
      OneMoreDrop(removed, r);
    }
    hide Drops;
  }

  // ---- One step ----

  ghost predicate CounterOk(s: State, t: Tally, w: Watch) {
    && WordsOk(s.drops, s.posterCount, s.serverCount, t)
    && TallyOk(s.posterCount, s.serverCount, t, w)
    && AllCounted(s, t)
  }

  lemma PosterCountKeeps(s: State, t: Tally, w: Watch)
    requires CounterOk(s, t, w) && s.posterCount != Settled
    ensures CounterOk(PosterCounts(s), TallyStep(s, t, PosterStep), WatchStep(s, w, PosterStep))
  {
    if s.posterCount.Store? { WordCounts(t.poster); }
    hide Drops;
  }

  lemma ServerCountKeeps(s: State, t: Tally, w: Watch, world: World)
    requires CounterOk(s, t, w) && s.serverCount != Settled
    ensures CounterOk(ServerCounts(s), TallyStep(s, t, ServerStep(world)), WatchStep(s, w, ServerStep(world)))
  {
    if s.serverCount.Store? { WordCounts(t.server); }
    hide Drops;
  }

  lemma PosterKeeps(depth: nat, s: State, t: Tally, w: Watch)
    requires CounterOk(s, t, w) && s.posterCount == Settled
    ensures CounterOk(PostStep(s, depth), t, w)
  {
    PosterEffect(depth, s);
    var s' := PostStep(s, depth);
    OffIsCounted(s.removed, s.posterCount, s'.removed, s'.posterCount);
    hide PostStep, TakesOff, Drops;
  }

  lemma ServerKeeps(s: State, t: Tally, w: Watch, world: World)
    requires CounterOk(s, t, w) && s.serverCount == Settled
    ensures CounterOk(ServeStep(s, world), t, w)
  {
    ServerEffect(s, world);
    var s' := ServeStep(s, world);
    OffIsCounted(s.removed, s.serverCount, s'.removed, s'.serverCount);
    hide ServeStep, TakesOff, Drops;
  }

  lemma NextKeeps(depth: nat, s: State, t: Tally, w: Watch, a: Action)
    requires CounterOk(s, t, w)
    ensures CounterOk(Next(depth, s, a), TallyStep(s, t, a), WatchStep(s, w, a))
  {
    match a
    case Post(_) => hide Drops;
    case AskDisconnect => hide Drops;
    case PosterStep =>
      if s.posterCount == Settled { PosterKeeps(depth, s, t, w); } else { PosterCountKeeps(s, t, w); }
      hide CounterOk;
    case ServerStep(world) =>
      if s.serverCount == Settled { ServerKeeps(s, t, w, world); } else { ServerCountKeeps(s, t, w, world); }
      hide CounterOk;
  }

  lemma {:induction false} EveryRunCounts(depth: nat, script: Script, actions: seq<Action>)
    ensures CounterOk(Run(depth, Init(script), actions), Tallied(depth, script, actions),
                      Watched(depth, script, actions))
  {
    hide CounterOk, Next, TallyStep, WatchStep;
    if actions == [] {
      StartCounts(script);
    } else {
      var front, a := actions[..|actions| - 1], actions[|actions| - 1];
      EveryRunCounts(depth, script, front);
      NextKeeps(depth, Run(depth, Init(script), front), Tallied(depth, script, front),
                Watched(depth, script, front), a);
    }
  }

  lemma StartCounts(script: Script)
    ensures CounterOk(Init(script), Tally(0, 0, 0, 0), Watch(false, false, false))
  {}

  lemma CounterBehind(s: State, t: Tally, w: Watch) returns (behind: nat)
    requires CounterOk(s, t, w)
    ensures t.stores == Drops(s.removed) - InFlight(s.posterCount) - InFlight(s.serverCount)
    ensures behind <= t.stores && s.drops == (t.stores - behind) % UINT32 && (behind > 0 <==> w.overtaken)
  {
    behind := t.stores - t.value;
    hide Drops;
  }

  lemma WhenBehind(drops: nat, n: nat, behind: nat)
    requires behind <= n && drops == (n - behind) % UINT32
    ensures n < UINT32 ==> (drops == n <==> behind == 0)
  {}

  lemma OvertakenMeans(depth: nat, script: Script, actions: seq<Action>)
    ensures Overtaken(depth, script, actions) == Watched(depth, script, actions).overtaken
  {}

  /** The exact condition. The increments stored are the chunks dropped, but for those still
      being counted. The counter is their number, modulo 2^32, as long as no task stored
      after the other had stored since its load; and after such a store it is behind, which
      shows unless it is behind by a multiple of 2^32. */
  lemma DropCounterExactly(depth: nat, script: Script, actions: seq<Action>) returns (behind: nat)
    ensures var s := Run(depth, Init(script), actions);
            var n := Drops(s.removed) - InFlight(s.posterCount) - InFlight(s.serverCount);
            && behind <= n && s.drops == (n - behind) % UINT32
            && (behind > 0 <==> Overtaken(depth, script, actions))
            && (n < UINT32 ==> (s.drops == n <==> !Overtaken(depth, script, actions)))
  {
    hide *;
    EveryRunCounts(depth, script, actions);
    var s, t := Run(depth, Init(script), actions), Tallied(depth, script, actions);
    behind := CounterBehind(s, t, Watched(depth, script, actions));
    WhenBehind(s.drops, t.stores, behind);
    OvertakenMeans(depth, script, actions);
  }

  // ---- An update that is lost ----

  lemma {:induction false} RunOn(depth: nat, s: State, a: seq<Action>, b: seq<Action>)
    ensures Run(depth, s, a + b) == Run(depth, Run(depth, s, a), b)
  {
    if b == [] {
      assert a + b == a;
    } else {
      var n := |b| - 1;
      RunOn(depth, s, a, b[..n]);
      assert (a + b)[..|a + b| - 1] == a + b[..n] && (a + b)[|a + b| - 1] == b[n];
    }
    hide Next;
  }

  lemma RunOne(depth: nat, s: State, a: seq<Action>, x: Action)
    ensures Run(depth, s, a + [x]) == Next(depth, Run(depth, s, a), x)
  {
    assert (a + [x])[..|a|] == a;
    hide Next;
  }

  /** With a client, nobody counting, and the server about to read from its client. */
  ghost predicate Serving(s: State, queued: nat) {
    && s.client && s.stage == Serve && s.posterCount == Settled == s.serverCount && s.poster == Ready
    && |s.queue| == queued && Drops(s.removed) == 0 && s.drops == 0
  }

  const HELLO: World := World(Some(NeverAsked), true, Quiet)

  lemma Connects(depth: nat, script: Script) returns (actions: seq<Action>)
    ensures Serving(Run(depth, Init(script), actions), 0)
  {
    var s, x := Init(script), ServerStep(HELLO);
    actions := [x] + [x] + [x];
    RunOne(depth, s, [], x);
    RunOne(depth, s, [x], x);
    RunOne(depth, s, [x] + [x], x);
    assert [] + [x] == [x] && Run(depth, s, []) == s;
  }

  lemma PostsOne(depth: nat, s: State, n: nat)
    requires Serving(s, n) && n < depth
    ensures Serving(Next(depth, Next(depth, s, Post([])), PosterStep), n + 1)
  {
    hide Drops;
  }

  lemma {:induction false} Fills(depth: nat, script: Script, n: nat) returns (actions: seq<Action>)
    requires n <= depth
    ensures Serving(Run(depth, Init(script), actions), n)
  {
    if n == 0 {
      actions := Connects(depth, script);
    } else {
      var front := Fills(depth, script, n - 1);
      actions := front + [Post([])] + [PosterStep];
      RunOne(depth, Init(script), front, Post([]));
      RunOne(depth, Init(script), front + [Post([])], PosterStep);
      PostsOne(depth, Run(depth, Init(script), front), n - 1);
    }
    hide Serving, Next, Run;
  }

  const COMMAND: World := World(None, true, Command)

  /** Both tasks drop a chunk from the full queue. The poster loads the counter; the server
      loads and stores it; the poster stores what it loaded, plus one. */
  const RACE: seq<Action> := [
    Post([]), PosterStep,                                                  // the queue is full
    ServerStep(COMMAND),                                                   // and the server drains it
    PosterStep, PosterStep,                                                // a chunk is dropped, 0 loaded
    ServerStep(COMMAND), ServerStep(COMMAND), ServerStep(COMMAND),         // a chunk is dropped, 1 stored
    PosterStep                                                             // 1 stored again
  ]

  lemma RunFrom(depth: nat, s: State, actions: seq<Action>, i: nat)
    requires i < |actions|
    ensures Run(depth, s, actions[i..]) == Run(depth, Next(depth, s, actions[i]), actions[i + 1..])
  {
    hide Next;
    assert actions[i..] == [actions[i]] + actions[i + 1..];
    RunOn(depth, s, [actions[i]], actions[i + 1..]);
    RunOne(depth, s, [], actions[i]);
    assert [] + [actions[i]] == [actions[i]] && Run(depth, s, []) == s;
  }

  /** The first half: the poster has loaded the counter, the server is about to drain. */
  ghost predicate HalfWay(s: State) {
    && s.stage == DrainAfterCommand && s.serverCount == Settled && s.posterCount == Store(0)
    && s.queue != [] && s.drops == 0 && Drops(s.removed) == 1
  }

  lemma RaceStarts(depth: nat, s: State)
    requires Serving(s, depth) && depth >= 2
    ensures var x := Next(depth, Next(depth, Next(depth, s, Post([])), PosterStep), ServerStep(COMMAND));
            HalfWay(Next(depth, Next(depth, x, PosterStep), PosterStep))
  {
    OneMoreDrop(s.removed, Removal(s.queue[0], Dropped));
    hide Drops;
  }

  lemma RaceEnds(depth: nat, s: State)
    requires HalfWay(s)
    ensures var x := ServerStep(COMMAND);
            var s' := Next(depth, Next(depth, Next(depth, Next(depth, s, x), x), x), PosterStep);
            Drops(s'.removed) == 2 && s'.posterCount == Settled == s'.serverCount && s'.drops == 1
  {
    OneMoreDrop(s.removed, Removal(s.queue[0], Dropped));
    hide Drops;
  }

  lemma RaceRuns(depth: nat, s: State)
    ensures var x := Next(depth, Next(depth, Next(depth, s, Post([])), PosterStep), ServerStep(COMMAND));
            var y := Next(depth, Next(depth, x, PosterStep), PosterStep);
            var a := ServerStep(COMMAND);
            Run(depth, s, RACE) == Next(depth, Next(depth, Next(depth, Next(depth, y, a), a), a), PosterStep)
  {
    hide Next, Run;
    var s1 := Next(depth, s, RACE[0]);
    var s2 := Next(depth, s1, RACE[1]);
    var s3 := Next(depth, s2, RACE[2]);
    var s4 := Next(depth, s3, RACE[3]);
    var s5 := Next(depth, s4, RACE[4]);
    var s6 := Next(depth, s5, RACE[5]);
    var s7 := Next(depth, s6, RACE[6]);
    var s8 := Next(depth, s7, RACE[7]);
    RunFrom(depth, s, RACE, 0);
    RunFrom(depth, s1, RACE, 1);
    RunFrom(depth, s2, RACE, 2);
    RunFrom(depth, s3, RACE, 3);
    RunFrom(depth, s4, RACE, 4);
    RunFrom(depth, s5, RACE, 5);
    RunFrom(depth, s6, RACE, 6);
    RunFrom(depth, s7, RACE, 7);
    RunFrom(depth, s8, RACE, 8);
    assert RACE[0..] == RACE && RACE[9..] == [];
    NoRun(depth, Next(depth, s8, RACE[8]));
  }

  lemma NoRun(depth: nat, s: State)
    ensures Run(depth, s, []) == s
  {}

  /** Whatever the depth of the queue, from two on: some run drops two chunks and counts one. */
  lemma UpdateLost(depth: nat, script: Script) returns (actions: seq<Action>)
    requires depth >= 2
    ensures var s := Run(depth, Init(script), actions);
            Drops(s.removed) == 2 && s.posterCount == Settled == s.serverCount && s.drops == 1
    ensures Overtaken(depth, script, actions)
  {
    hide *;
    var front := Fills(depth, script, depth);
    var s := Run(depth, Init(script), front);
    actions := front + RACE;
    RunOn(depth, Init(script), front, RACE);
    RaceRuns(depth, s);
    RaceStarts(depth, s);
    var x := Next(depth, Next(depth, Next(depth, s, Post([])), PosterStep), ServerStep(COMMAND));
    RaceEnds(depth, Next(depth, Next(depth, x, PosterStep), PosterStep));
    var behind := DropCounterExactly(depth, script, actions);
    NoneInFlight();
  }

  lemma NoneInFlight()
    ensures InFlight(Settled) == 0 && 2 < UINT32
  {}
}

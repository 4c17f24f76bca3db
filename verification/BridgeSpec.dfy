/** The TCP bridge as two tasks in atomic steps: the UART task posts raw chunks, dropping the
    oldest when the queue is full, while the server task accepts, drains and sends. */
module BridgeSpec {
  import opened Crc24
  import opened Sequences
  import opened Sockets

  type Chunk = seq<byte>

  const TCP_QUEUE_DEPTH: nat := 64

  datatype Fate = Sent | Dropped | Discarded

  datatype Removal = Removal(chunk: Chunk, fate: Fate)

  datatype Pending = Pending(chunk: Chunk, offset: nat)

  /** A connection's history: its wire bytes and the chunks taken from the queue for it. */
  datatype Conn = Conn(wire: seq<byte>, taken: seq<Chunk>)

  const NOBODY := Conn([], [])

  datatype Poster = Ready | Try(chunk: Chunk) | MakeRoom(chunk: Chunk)

  /** The counter of dropped chunks is a plain 32-bit word that both tasks increment. A task
      that took a chunk off the queue to drop it loads the word, then stores it plus one. */
  datatype Count = Settled | Load | Store(n: nat)

  datatype Stage = Top | DrainAfterDisconnect | AcceptNext | SetOptions | Serve | DrainAfterCommand | SendPending | Pump

  /** Ghost history: `posted` are the chunks posted while a client was there, `entered` those
      that got into the queue, `removed` those that left it; `lost` counts chunks given up
      because the full queue was found empty a moment later. */
  datatype State = State(
    queue: seq<Chunk>, client: bool, script: Script, calls: nat, pending: Option<Pending>, askedOff: bool,
    drops: nat, posterCount: Count, serverCount: Count, stage: Stage, poster: Poster,
    conn: Conn, past: seq<Conn>, posted: seq<Chunk>, entered: seq<Chunk>, removed: seq<Removal>, lost: nat)

  datatype Input = Quiet | Command | Gone

  /** The outside world's part of a server step. */
  datatype World = World(arrival: Option<Script>, optionsOk: bool, input: Input)

  datatype Action = Post(chunk: Chunk) | PosterStep | AskDisconnect | ServerStep(world: World)

  function Init(script: Script): State {
    State([], false, script, 0, None, false, 0, Settled, Settled, Top, Ready, NOBODY, [], [], [], [], 0)
  }

  function Remove(s: State, fate: Fate): State
    requires s.queue != []
  {
    s.(queue := s.queue[1..], removed := s.removed + [Removal(s.queue[0], fate)])
  }

  /** A step of tcp_diag_log_drop: the word and the task's register after it. */
  function CountStep(drops: nat, count: Count): (nat, Count) {
    match count
    case Settled => (drops, Settled)
    case Load => (drops, Store(drops))
    case Store(n) => ((n + 1) % UINT32, Settled)
  }

  function CloseConn(s: State): State {
    s.(client := false, past := s.past + [s.conn], conn := NOBODY, pending := None)
  }

  /** socket_send on the pending chunk. */
  function Transmit(s: State): State
    requires s.pending.Some?
  {
    var p := s.pending.value;
    if p.offset >= |p.chunk| then s.(pending := None)
    else
      var r := SendLoop(SOCKET_MAX_RETRIES, s.script, s.calls, |p.chunk|, p.offset, 0);
      var s' := s.(calls := r.calls, conn := s.conn.(wire := s.conn.wire + p.chunk[p.offset..r.offset]));
      match r.status
      case Done => s'.(pending := None)
      case Blocked => s'.(pending := Some(p.(offset := r.offset)))
      case Fatal => CloseConn(s')
  }

  function Take(s: State): State
    requires s.queue != []
  {
    Remove(s, Sent).(pending := Some(Pending(s.queue[0], 0)), conn := s.conn.(taken := s.conn.taken + [s.queue[0]]))
  }

  function PosterCounts(s: State): State {
    var x := CountStep(s.drops, s.posterCount);
    s.(drops := x.0, posterCount := x.1)
  }

  function ServerCounts(s: State): State {
    var x := CountStep(s.drops, s.serverCount);
    s.(drops := x.0, serverCount := x.1)
  }

  function ServerDrop(s: State): State
    requires s.queue != []
  {
    Remove(s, Dropped).(serverCount := Load)
  }

  function PostStep(s: State, depth: nat): State {
    if s.posterCount != Settled then PosterCounts(s) else
    match s.poster
    case Ready => s
    case Try(c) =>
      if |s.queue| < depth then s.(queue := s.queue + [c], entered := s.entered + [c], poster := Ready)
      else s.(poster := MakeRoom(c))
    case MakeRoom(c) =>
      if s.queue == [] then s.(poster := Ready, lost := s.lost + 1)
      else Remove(s, Dropped).(poster := Try(c), posterCount := Load)
  }

  function ServeStep(s: State, w: World): State {
    if s.serverCount != Settled then ServerCounts(s) else
    match s.stage
    case Top =>
      if s.askedOff && s.client then
        s.(client := false, past := s.past + [s.conn], conn := NOBODY, askedOff := false, stage := DrainAfterDisconnect)
      else s.(askedOff := false, stage := AcceptNext)
    case DrainAfterDisconnect =>
      if s.queue == [] then s.(pending := None, stage := AcceptNext) else ServerDrop(s)
    case AcceptNext =>
      if s.client || w.arrival.None? then s.(stage := Serve)
      else s.(client := true, script := w.arrival.value, calls := 0, stage := SetOptions)
    case SetOptions => if w.optionsOk then s.(stage := Serve) else CloseConn(s).(stage := Top)
    case Serve =>
      if !s.client || w.input == Quiet then s.(stage := SendPending)
      else if w.input == Gone then CloseConn(s).(stage := SendPending)
      else s.(stage := DrainAfterCommand)
    case DrainAfterCommand => if s.queue == [] then s.(stage := SendPending) else ServerDrop(s)
    case SendPending => (if s.client && s.pending.Some? then Transmit(s) else s).(stage := Pump)
    case Pump =>
      if s.pending.Some? || s.queue == [] then s.(stage := Top)
      else if !s.client then Remove(s, Discarded)
      else Transmit(Take(s))
  }

  function Next(depth: nat, s: State, a: Action): State {
    match a
    case Post(c) =>
      // without a client the chunk is discarded
      if s.poster == Ready && s.client then s.(poster := Try(c), posted := s.posted + [c]) else s
    case PosterStep => PostStep(s, depth)
    case AskDisconnect => s.(askedOff := true)  // the asking task's own check for a client may be stale
    case ServerStep(w) => ServeStep(s, w)
  }

  function Run(depth: nat, s: State, actions: seq<Action>): State {
    if actions == [] then s else Next(depth, Run(depth, s, actions[..|actions| - 1]), actions[|actions| - 1])
  }

  // ---- What every state keeps ----

  function Chunks(removed: seq<Removal>): seq<Chunk> {
    if removed == [] then [] else Chunks(removed[..|removed| - 1]) + [removed[|removed| - 1].chunk]
  }

  function SentChunks(removed: seq<Removal>): seq<Chunk> {
    if removed == [] then []
    else
      var last := removed[|removed| - 1];
      SentChunks(removed[..|removed| - 1]) + if last.fate == Sent then [last.chunk] else []
  }

  function Takens(past: seq<Conn>): seq<seq<Chunk>> {
    seq(|past|, i requires 0 <= i < |past| => past[i].taken)
  }

  /** First in, first out. */
  ghost predicate QueueOk(depth: nat, queue: seq<Chunk>, entered: seq<Chunk>, removed: seq<Removal>) {
    |queue| <= depth && Chunks(removed) + queue == entered
  }

  /** Chunks enter in posting order; each posted chunk entered, was lost, or is in hand. */
  ghost predicate PostOk(poster: Poster, posted: seq<Chunk>, entered: seq<Chunk>, lost: nat) {
    if poster == Ready then Subsequence(entered, posted) && |posted| == |entered| + lost
    else
      && posted != [] && posted[|posted| - 1] == poster.chunk
      && Subsequence(entered, posted[..|posted| - 1]) && |posted| == |entered| + lost + 1
  }

  function Rest(pending: Option<Pending>): seq<byte> {
    if pending.Some? && pending.value.offset <= |pending.value.chunk| then
      pending.value.chunk[pending.value.offset..]
    else []
  }

  /** The wire and the unsent rest of the pending chunk are the chunks taken. */
  ghost predicate Live(conn: Conn, pending: Option<Pending>) {
    && conn.wire + Rest(pending) == Flatten(conn.taken)
    && (pending.Some? ==>
          (conn.taken != [] && conn.taken[|conn.taken| - 1] == pending.value.chunk
           && pending.value.offset <= |pending.value.chunk|))
  }

  ghost predicate Ended(conn: Conn) {
    exists k: nat :: WholeThenCut(conn.wire, conn.taken, k)
  }

  ghost predicate StreamOk(client: bool, conn: Conn, pending: Option<Pending>, stage: Stage, past: seq<Conn>) {
    && (client ==> Live(conn, pending) && stage != DrainAfterDisconnect)
    && (!client ==> (conn == NOBODY && (pending.Some? ==> stage == DrainAfterDisconnect) && stage != SetOptions))
    && forall i :: 0 <= i < |past| ==> Ended(past[i])
  }

  /** Every chunk sent was taken for one connection, in queue order. */
  ghost predicate TakenOk(removed: seq<Removal>, past: seq<Conn>, conn: Conn) {
    SentChunks(removed) == Flatten(Takens(past)) + conn.taken
  }

  ghost predicate Inv(depth: nat, s: State) {
    && QueueOk(depth, s.queue, s.entered, s.removed)
    && PostOk(s.poster, s.posted, s.entered, s.lost)
    && StreamOk(s.client, s.conn, s.pending, s.stage, s.past)
    && TakenOk(s.removed, s.past, s.conn)
  }

  lemma OneMoreRemoved(removed: seq<Removal>, r: Removal)
    ensures Chunks(removed + [r]) == Chunks(removed) + [r.chunk]
    ensures SentChunks(removed + [r]) == SentChunks(removed) + if r.fate == Sent then [r.chunk] else []
  {
    assert (removed + [r])[..|removed|] == removed;
  }

  lemma HeadMoves(a: seq<Chunk>, queue: seq<Chunk>, all: seq<Chunk>)
    requires queue != [] && a + queue == all
    ensures a + [queue[0]] + queue[1..] == all
  {}

  lemma RemoveKeeps(depth: nat, s: State, fate: Fate)
    requires QueueOk(depth, s.queue, s.entered, s.removed) && s.queue != []
    ensures QueueOk(depth, s.queue[1..], s.entered, s.removed + [Removal(s.queue[0], fate)])
  {
    OneMoreRemoved(s.removed, Removal(s.queue[0], fate));
    HeadMoves(Chunks(s.removed), s.queue, s.entered);
    hide Chunks;
  }

  lemma RemoveUnsent(s: State, fate: Fate)
    requires TakenOk(s.removed, s.past, s.conn) && s.queue != [] && fate != Sent
    ensures TakenOk(s.removed + [Removal(s.queue[0], fate)], s.past, s.conn)
  {
    OneMoreRemoved(s.removed, Removal(s.queue[0], fate));
    assert SentChunks(s.removed) + [] == SentChunks(s.removed);
    hide SentChunks, Takens, Flatten;
  }

  lemma RemoveSent(s: State)
    requires TakenOk(s.removed, s.past, s.conn) && s.queue != []
    ensures TakenOk(s.removed + [Removal(s.queue[0], Sent)], s.past,
                    s.conn.(taken := s.conn.taken + [s.queue[0]]))
  {
    OneMoreRemoved(s.removed, Removal(s.queue[0], Sent));
    var before, c := Flatten(Takens(s.past)), s.queue[0];
    assert before + s.conn.taken + [c] == before + (s.conn.taken + [c]);
    hide SentChunks, Takens, Flatten;
  }

  lemma CloseTaken(removed: seq<Removal>, past: seq<Conn>, conn: Conn)
    requires TakenOk(removed, past, conn)
    ensures TakenOk(removed, past + [conn], NOBODY)
  {
    assert Takens(past + [conn]) == Takens(past) + [conn.taken];
    FlattenSnoc(Takens(past), conn.taken);
    assert SentChunks(removed) == Flatten(Takens(past + [conn])) + [];
    hide SentChunks, Takens, Flatten;
  }

  lemma EndLive(conn: Conn, pending: Option<Pending>)
    requires Live(conn, pending)
    ensures Ended(conn)
  {
    CutSomewhere(conn.wire, Rest(pending), conn.taken, 0);
    assert Rest(pending)[..0] == [] && conn.wire + [] == conn.wire;
    hide Flatten, WholeThenCut;
  }

  lemma CloseStream(s: State, stage: Stage)
    requires StreamOk(s.client, s.conn, s.pending, s.stage, s.past) && s.client
    requires stage != SetOptions
    ensures StreamOk(false, NOBODY, None, stage, s.past + [s.conn])
    ensures StreamOk(false, NOBODY, s.pending, DrainAfterDisconnect, s.past + [s.conn])
  {
    EndLive(s.conn, s.pending);
    hide Live, Ended;
  }

  lemma CloseKeeps(depth: nat, s: State, stage: Stage)
    requires Inv(depth, s) && s.client && stage != SetOptions
    ensures Inv(depth, CloseConn(s).(stage := stage))
  {
    CloseStream(s, stage);
    CloseTaken(s.removed, s.past, s.conn);
    hide QueueOk, PostOk, StreamOk, TakenOk;
  }

  lemma MoveBytes(wire: seq<byte>, chunk: Chunk, from: nat, to: nat, all: seq<byte>)
    requires from <= to <= |chunk| && wire + chunk[from..] == all
    ensures wire + chunk[from..to] + chunk[to..] == all
    ensures to == |chunk| ==> wire + chunk[from..to] + [] == all
  {
    assert chunk[from..] == chunk[from..to] + chunk[to..];
  }

  lemma SentSome(conn: Conn, p: Pending, to: nat)
    requires Live(conn, Some(p)) && p.offset <= to <= |p.chunk|
    ensures var conn' := conn.(wire := conn.wire + p.chunk[p.offset..to]);
            Live(conn', Some(p.(offset := to))) && (to == |p.chunk| ==> Live(conn', None))
  {
    hide Flatten;
    MoveBytes(conn.wire, p.chunk, p.offset, to, Flatten(conn.taken));
  }

  lemma TransmitKeeps(depth: nat, s: State)
    requires Inv(depth, s) && s.client && s.pending.Some? && s.stage != SetOptions
    ensures Inv(depth, Transmit(s)) && Transmit(s).stage == s.stage
  {
    var p := s.pending.value;
    assert Live(s.conn, s.pending) && p.offset <= |p.chunk|;
    var r := SendLoop(SOCKET_MAX_RETRIES, s.script, s.calls, |p.chunk|, p.offset, 0);
    hide QueueOk, PostOk, TakenOk, SendLoop, Ended;
    SentSome(s.conn, p, r.offset);
    assert p.chunk[|p.chunk|..] == [] && s.conn.wire + [] == s.conn.wire;
    var s1 := s.(calls := r.calls, conn := s.conn.(wire := s.conn.wire + p.chunk[p.offset..r.offset]),
                 pending := Some(p.(offset := r.offset)));
    hide Live;
    WireIrrelevant(s, s1.conn);
    assert Inv(depth, s1);
    hide StreamOk;
    CloseKeeps(depth, s1, s.stage);
    assert CloseConn(s1).(stage := s.stage) == CloseConn(s1);
    assert CloseConn(s1) == CloseConn(s1.(pending := s.pending));
  }

  lemma WireIrrelevant(s: State, conn: Conn)
    requires TakenOk(s.removed, s.past, s.conn) && conn.taken == s.conn.taken
    ensures TakenOk(s.removed, s.past, conn)
  {}

  // ---- One step ----

  lemma RemovedKeeps(depth: nat, s: State, fate: Fate)
    requires Inv(depth, s) && s.queue != [] && fate != Sent
    ensures Inv(depth, Remove(s, fate))
  {
    RemoveKeeps(depth, s, fate);
    RemoveUnsent(s, fate);
    hide QueueOk, PostOk, StreamOk, TakenOk;
  }

  lemma CountKeeps(depth: nat, s: State, drops: nat, poster: Count, server: Count)
    requires Inv(depth, s)
    ensures Inv(depth, s.(drops := drops, posterCount := poster, serverCount := server))
  {
    hide QueueOk, PostOk, StreamOk, TakenOk;
  }

  lemma ServerDropKeeps(depth: nat, s: State)
    requires Inv(depth, s) && s.queue != []
    ensures Inv(depth, ServerDrop(s))
  {
    hide Inv;
    var x := Remove(s, Dropped);
    RemovedKeeps(depth, s, Dropped);
    CountKeeps(depth, x, x.drops, x.posterCount, Load);
  }

  lemma StartChunk(conn: Conn, c: Chunk)
    requires Live(conn, None)
    ensures Live(conn.(taken := conn.taken + [c]), Some(Pending(c, 0)))
  {
    FlattenSnoc(conn.taken, c);
    assert conn.wire + [] == conn.wire && c[0..] == c;
    hide Flatten;
  }

  lemma TakeStream(conn: Conn, stage: Stage, past: seq<Conn>, c: Chunk)
    requires StreamOk(true, conn, None, stage, past)
    ensures StreamOk(true, conn.(taken := conn.taken + [c]), Some(Pending(c, 0)), stage, past)
  {
    StartChunk(conn, c);
    hide Live, Ended;
  }

  lemma TakeKeeps(depth: nat, s: State)
    requires Inv(depth, s) && s.queue != [] && s.client && s.pending.None?
    ensures Inv(depth, Take(s))
  {
    hide QueueOk, PostOk, TakenOk, StreamOk;
    RemoveKeeps(depth, s, Sent);
    RemoveSent(s);
    TakeStream(s.conn, s.stage, s.past, s.queue[0]);
  }

  lemma EnterKeeps(depth: nat, s: State)
    requires QueueOk(depth, s.queue, s.entered, s.removed) && |s.queue| < depth && s.poster.Try?
    requires PostOk(s.poster, s.posted, s.entered, s.lost)
    ensures QueueOk(depth, s.queue + [s.poster.chunk], s.entered + [s.poster.chunk], s.removed)
    ensures PostOk(Ready, s.posted, s.entered + [s.poster.chunk], s.lost)
  {
    var c, n := s.poster.chunk, |s.posted| - 1;
    assert Chunks(s.removed) + (s.queue + [c]) == Chunks(s.removed) + s.queue + [c];
    assert s.posted == s.posted[..n] + [c];
    SubsequenceSnoc(s.entered, s.posted[..n], c);
    hide Chunks, Subsequence;
  }

  lemma LoseKeeps(poster: Poster, posted: seq<Chunk>, entered: seq<Chunk>, lost: nat)
    requires PostOk(poster, posted, entered, lost) && poster != Ready
    ensures PostOk(Ready, posted, entered, lost + 1)
  {
    var n := |posted| - 1;
    assert posted == posted[..n] + [posted[n]];
    SubsequenceSnoc(entered, posted[..n], posted[n]);
    hide Subsequence;
  }

  lemma PostKeeps(poster: Poster, posted: seq<Chunk>, entered: seq<Chunk>, lost: nat, c: Chunk)
    requires PostOk(poster, posted, entered, lost) && poster == Ready
    ensures PostOk(Try(c), posted + [c], entered, lost)
  {
    assert (posted + [c])[..|posted|] == posted;
    hide Subsequence;
  }

  lemma PosterKeeps(depth: nat, s: State)
    requires Inv(depth, s)
    ensures Inv(depth, PostStep(s, depth))
  {
    if s.posterCount != Settled {
      CountKeeps(depth, s, PosterCounts(s).drops, PosterCounts(s).posterCount, s.serverCount);
      hide Inv;
      return;
    }
    match s.poster
    case Ready =>
    case Try(c) =>
      if |s.queue| < depth { EnterKeeps(depth, s); }
      hide QueueOk, StreamOk, TakenOk, Subsequence;
    case MakeRoom(c) =>
      if s.queue == [] {
        LoseKeeps(s.poster, s.posted, s.entered, s.lost);
        hide QueueOk, StreamOk, TakenOk, PostOk;
      } else {
        RemovedKeeps(depth, s, Dropped);
        hide QueueOk, StreamOk, TakenOk, Subsequence;
      }
  }

  lemma DisconnectKeeps(depth: nat, s: State)
    requires Inv(depth, s) && s.client
    ensures Inv(depth, s.(client := false, past := s.past + [s.conn], conn := NOBODY, askedOff := false,
                          stage := DrainAfterDisconnect))
  {
    CloseStream(s, Top);
    CloseTaken(s.removed, s.past, s.conn);
    hide QueueOk, PostOk, StreamOk, TakenOk;
  }

  lemma MoveKeeps(depth: nat, s: State, stage: Stage)
    requires Inv(depth, s) && s.stage != DrainAfterDisconnect && stage != DrainAfterDisconnect && stage != SetOptions
    ensures Inv(depth, s.(stage := stage)) && Inv(depth, s.(askedOff := false, stage := stage))
  {
    hide QueueOk, PostOk, TakenOk, Live, Ended;
  }

  lemma DrainedKeeps(depth: nat, s: State)
    requires Inv(depth, s) && s.stage == DrainAfterDisconnect
    ensures Inv(depth, s.(pending := None, stage := AcceptNext))
  {
    hide QueueOk, PostOk, TakenOk, Live, Ended;
  }

  lemma AcceptKeeps(depth: nat, s: State, script: Script)
    requires Inv(depth, s) && !s.client && s.stage == AcceptNext
    ensures Inv(depth, s.(client := true, script := script, calls := 0, stage := SetOptions))
  {
    assert Live(NOBODY, None);
    hide QueueOk, PostOk, TakenOk, Live, Ended;
  }

  lemma ServeKeeps(depth: nat, s: State, w: World)
    requires Inv(depth, s)
    ensures Inv(depth, ServeStep(s, w))
  {
    assert s.stage == DrainAfterDisconnect || s.stage == SetOptions || s.client || s.pending.None?;
    assert s.stage == DrainAfterDisconnect ==> !s.client;
    assert s.stage == SetOptions ==> s.client;
    hide Inv, Transmit, CloseConn, Remove;
    if s.serverCount != Settled {
      CountKeeps(depth, s, ServerCounts(s).drops, s.posterCount, ServerCounts(s).serverCount);
      return;
    }
    match s.stage
    case Top => if s.askedOff && s.client { DisconnectKeeps(depth, s); } else { MoveKeeps(depth, s, AcceptNext); }
    case DrainAfterDisconnect => if s.queue == [] { DrainedKeeps(depth, s); } else { ServerDropKeeps(depth, s); }
    case AcceptNext =>
      if s.client || w.arrival.None? { MoveKeeps(depth, s, Serve); } else { AcceptKeeps(depth, s, w.arrival.value); }
    case SetOptions => if w.optionsOk { MoveKeeps(depth, s, Serve); } else { CloseKeeps(depth, s, Top); }
    case Serve =>
      if !s.client || w.input == Quiet { MoveKeeps(depth, s, SendPending); }
      else if w.input == Gone { CloseKeeps(depth, s, SendPending); }
      else { MoveKeeps(depth, s, DrainAfterCommand); }
    case DrainAfterCommand => if s.queue == [] { MoveKeeps(depth, s, SendPending); } else { ServerDropKeeps(depth, s); }
    case SendPending =>
      if s.client && s.pending.Some? {
        TransmitKeeps(depth, s);
        MoveKeeps(depth, Transmit(s), Pump);
      } else {
        MoveKeeps(depth, s, Pump);
      }
    case Pump =>
      if s.pending.Some? || s.queue == [] { MoveKeeps(depth, s, Top); }
      else if !s.client { RemovedKeeps(depth, s, Discarded); }
      else {
        TakeKeeps(depth, s);
        TransmitKeeps(depth, Take(s));
      }
  }

  lemma NextKeeps(depth: nat, s: State, a: Action)
    requires Inv(depth, s)
    ensures Inv(depth, Next(depth, s, a))
  {
    match a
    case Post(c) =>
      if s.poster == Ready { PostKeeps(s.poster, s.posted, s.entered, s.lost, c); }
      hide QueueOk, PostOk, StreamOk, TakenOk;
    case PosterStep => PosterKeeps(depth, s); hide Inv, PostStep;
    case AskDisconnect => hide QueueOk, PostOk, StreamOk, TakenOk;
    case ServerStep(w) => ServeKeeps(depth, s, w); hide Inv, ServeStep;
  }

  lemma InitOk(depth: nat, script: Script)
    ensures Inv(depth, Init(script))
  {
    SubsequenceRefl(Init(script).posted);
    hide Subsequence;
  }

  /** Every run of the bridge, whatever the interleaving and the socket's answers. */
  lemma {:induction false} EveryRunKeeps(depth: nat, script: Script, actions: seq<Action>)
    ensures Inv(depth, Run(depth, Init(script), actions))
  {
    if actions == [] {
      InitOk(depth, script);
    } else {
      EveryRunKeeps(depth, script, actions[..|actions| - 1]);
      NextKeeps(depth, Run(depth, Init(script), actions[..|actions| - 1]), actions[|actions| - 1]);
      hide Inv, Next;
    }
  }

  // ---- What it means ----

  lemma {:induction false} SentAmongRemoved(removed: seq<Removal>)
    ensures Subsequence(SentChunks(removed), Chunks(removed))
  {
    if removed == [] {
      SubsequenceRefl(SentChunks(removed));
    } else {
      var front, last := removed[..|removed| - 1], removed[|removed| - 1];
      SentAmongRemoved(front);
      SubsequenceSnoc(SentChunks(front), Chunks(front), last.chunk);
      assert SentChunks(front) + [] == SentChunks(front);
      hide Subsequence;
    }
  }

  lemma PrefixAmong(a: seq<Chunk>, b: seq<Chunk>, c: seq<Chunk>)
    requires Subsequence(a + b, c)
    ensures Subsequence(a, c)
  {
    SubsequenceRefl(a);
    SubsequenceEmpty(b);
    SubsequenceConcat(a, a, [], b);
    assert a + [] == a;
    SubsequenceTrans(a, a + b, c);
    hide Subsequence;
  }

  lemma EnteredAmongPosted(poster: Poster, posted: seq<Chunk>, entered: seq<Chunk>, lost: nat)
    requires PostOk(poster, posted, entered, lost)
    ensures Subsequence(entered, posted) && |posted| == |entered| + lost + if poster == Ready then 0 else 1
    ensures poster != Ready ==> posted != [] && posted[|posted| - 1] == poster.chunk
  {
    if poster != Ready {
      assert posted == posted[..|posted| - 1] + [poster.chunk];
      SubsequenceSnoc(entered, posted[..|posted| - 1], poster.chunk);
    }
    hide Subsequence;
  }

  lemma {:induction false} OneChunkEach(removed: seq<Removal>)
    ensures |Chunks(removed)| == |removed|
  {
    if removed != [] {
      OneChunkEach(removed[..|removed| - 1]);
    }
  }

  /** After any run: the current client's bytes and the unsent rest of its pending chunk are
      whole chunks; every earlier connection is whole chunks with at most the last cut; the
      chunks of all connections, in order, are among the posted ones, in posting order. And
      each posted chunk is accounted for once: those that entered the queue are, in posting
      order, the ones removed from it, with their fates, and then the ones still in it; the
      others were lost, but for one the poster may have in hand. */
  lemma BridgeStreams(depth: nat, script: Script, actions: seq<Action>)
    ensures var s := Run(depth, Init(script), actions);
            && (s.client ==> s.conn.wire + Rest(s.pending) == Flatten(s.conn.taken))
            && (forall i :: 0 <= i < |s.past| ==> Ended(s.past[i]))
            && Subsequence(Flatten(Takens(s.past)) + s.conn.taken, s.posted)
            && Chunks(s.removed) + s.queue == s.entered
            && SentChunks(s.removed) == Flatten(Takens(s.past)) + s.conn.taken
            && Subsequence(s.entered, s.posted)
            && (s.poster != Ready ==> s.posted != [] && s.posted[|s.posted| - 1] == s.poster.chunk)
            && |s.posted| == |s.removed| + |s.queue| + s.lost + (if s.poster == Ready then 0 else 1)
  {
    var s := Run(depth, Init(script), actions);
    hide Run, PostOk, Ended, Flatten, Takens, Chunks, SentChunks, Subsequence;
    EveryRunKeeps(depth, script, actions);
    EnteredAmongPosted(s.poster, s.posted, s.entered, s.lost);
    OneChunkEach(s.removed);
    SentAmongRemoved(s.removed);
    PrefixAmong(Chunks(s.removed), s.queue, s.posted);
    SubsequenceTrans(SentChunks(s.removed), Chunks(s.removed), s.posted);
  }
}

/** The console ring as the UART task and the web handler update it: one append loop over the
    active buffer, and a consumer that swaps the two buffers before it copies. Everything it
    does is a run of ConsoleSpec. */
module Console {
  import opened Sequences
  import opened RingBuffer
  import S = ConsoleSpec

  const GNSS_CONSOLE_BUFFER_SIZE: nat := 8192

  class Console {
    const buffers: array<array<char>>
    var active: nat
    var head: nat
    var used: nat

    ghost var s: S.State             // the state of the specification
    ghost var trace: seq<S.Action>   // the steps that led to it

    constructor ()
      ensures Valid() && Contents() == "" && trace == []
      ensures fresh(buffers) && fresh(buffers[0]) && fresh(buffers[1])
    {
      var a := new char[GNSS_CONSOLE_BUFFER_SIZE](i => '\0');
      var b := new char[GNSS_CONSOLE_BUFFER_SIZE](i => '\0');
      buffers := new array<char>[2](i => if i == 0 then a else b);
      active, head, used := 0, 0, 0;
      s, trace := S.Init(GNSS_CONSOLE_BUFFER_SIZE), [];
      new;
      assert buffers[0] == a && buffers[1] == b;
      assert a[..] == s.buffers[0] && b[..] == s.buffers[1];
    }

    /** The steps taken lead to the state of the specification. */
    ghost predicate Led()
      reads this`s, this`trace
    {
      S.Reaches(GNSS_CONSOLE_BUFFER_SIZE, S.Init(GNSS_CONSOLE_BUFFER_SIZE), trace, s)
    }

    /** The fields are those of that state, and no consumer is at work. */
    ghost predicate Mirror()
      reads this`active, this`head, this`used, this`s, buffers, buffers[..]
    {
      && buffers.Length == 2 && buffers[0] != buffers[1] && active < 2
      && buffers[0].Length == GNSS_CONSOLE_BUFFER_SIZE == buffers[1].Length
      && head < GNSS_CONSOLE_BUFFER_SIZE && used <= GNSS_CONSOLE_BUFFER_SIZE
      && s.buffers == [buffers[0][..], buffers[1][..]] && s.active == active && s.head == head && s.used == used
      && s.reader.Idle?
    }

    ghost predicate Valid()
      reads this, buffers, buffers[..]
    {
      Led() && Mirror()
    }

    ghost function Contents(): string
      reads this, buffers, buffers[..]
      requires Valid()
    {
      Window(buffers[active][..], head, used)
    }

    lemma InvNow()
      requires Led()
      ensures S.Inv(GNSS_CONSOLE_BUFFER_SIZE, s)
    {
      S.InitOk(GNSS_CONSOLE_BUFFER_SIZE);
      hide S.Inv, S.Reaches, S.Init;
      S.RunKeeps(GNSS_CONSOLE_BUFFER_SIZE, S.Init(GNSS_CONSOLE_BUFFER_SIZE), trace, s);
    }

    lemma ShapeNow()
      requires Led()
      ensures S.Shape(GNSS_CONSOLE_BUFFER_SIZE, s)
    {
      InvNow();
      hide Led, S.Shape, S.HistoryOk, S.ResultsOk;
    }

    /** One step of the specification. */
    ghost method Tick(a: S.Action)
      requires Led() && S.Enabled(s, a)
      modifies this`s, this`trace
      ensures S.Shape(GNSS_CONSOLE_BUFFER_SIZE, old(s))
      ensures Led() && s == S.Next(GNSS_CONSOLE_BUFFER_SIZE, old(s), a) && trace == old(trace) + [a]
    {
      ShapeNow();
      hide S.Reaches, S.Next, S.Shape, S.Enabled, S.Init;
      S.ReachesSnoc(GNSS_CONSOLE_BUFFER_SIZE, S.Init(GNSS_CONSOLE_BUFFER_SIZE), trace, s, a);
      s, trace := S.Next(GNSS_CONSOLE_BUFFER_SIZE, s, a), trace + [a];
    }

    /** The active ring of the specification. */
    ghost function ActiveRing(): Ring<char>
      reads this`s
      requires s.active < |s.buffers|
    {
      Ring(s.buffers[s.active], s.head, s.used)
    }

    ghost method TickPut(c: char)
      requires Led()
      modifies this`s, this`trace
      ensures Led() && S.Shape(GNSS_CONSOLE_BUFFER_SIZE, old(s)) && trace == old(trace) + [S.Put(c)]
      ensures S.Shape(GNSS_CONSOLE_BUFFER_SIZE, s) && ActiveRing() == Push(old(ActiveRing()), c)
      ensures s == old(s).(buffers := old(s).buffers[old(s).active := ActiveRing().cells],
                           head := s.head, used := s.used,
                           epoch := old(s).epoch + [c], history := old(s).history + [c])
    {
      ShapeNow();
      hide Led, Around;
      Tick(S.Put(c));
      ShapeNow();
    }

    /** The bytes of a piece, one by one. */
    ghost method TickPuts(data: string)
      requires Led()
      modifies this`s, this`trace
      ensures Led() && S.Shape(GNSS_CONSOLE_BUFFER_SIZE, old(s)) && S.Shape(GNSS_CONSOLE_BUFFER_SIZE, s)
      ensures ActiveRing() == PushAll(old(ActiveRing()), data)
      ensures s == old(s).(buffers := old(s).buffers[old(s).active := ActiveRing().cells],
                           head := s.head, used := s.used,
                           epoch := old(s).epoch + data, history := old(s).history + data)
    {
      ShapeNow();
      ghost var x, r := s, ActiveRing();
      assert PushAll(r, data[..0]) == r && x.epoch + data[..0] == x.epoch && x.history + data[..0] == x.history;
      hide Led, Push, PushAll;
      for i := 0 to |data|
        invariant Led() && S.Shape(GNSS_CONSOLE_BUFFER_SIZE, s) && RingOk(r) && s.active == x.active
        invariant ActiveRing() == PushAll(r, data[..i])
        invariant s == x.(buffers := x.buffers[x.active := ActiveRing().cells], head := s.head, used := s.used,
                          epoch := x.epoch + data[..i], history := x.history + data[..i])
      {
        PushAllSnoc(r, data, i);
        TickPut(data[i]);
        assert x.epoch + data[..i] + [data[i]] == x.epoch + data[..i + 1];
        assert x.history + data[..i] + [data[i]] == x.history + data[..i + 1];
      }
      assert data[..|data|] == data;
    }

    /** console_append_locked */
    method Append(data: string)
      requires Valid()
      modifies this`head, this`used, this`s, this`trace, buffers[active]
      ensures Valid() && s.history == old(s.history) + Kept(data, GNSS_CONSOLE_BUFFER_SIZE)
      ensures s.epochs == old(s.epochs) && s.results == old(s.results)
      ensures Contents() == Newest(old(Contents()) + Kept(data, GNSS_CONSOLE_BUFFER_SIZE), GNSS_CONSOLE_BUFFER_SIZE)
      ensures |data| < GNSS_CONSOLE_BUFFER_SIZE ==>
                Contents() == Newest(old(Contents()) + data, GNSS_CONSOLE_BUFFER_SIZE)
    {
      hide Led, Window, Newest, Around, PushAll, Kept;
      TickPuts(Kept(data, GNSS_CONSOLE_BUFFER_SIZE));
      head, used := RingBuffer.Append(buffers[active], head, used, data);
    }

    /** gnss_uart_console_clear */
    method Clear()
      requires Valid()
      modifies this`head, this`used, this`s, this`trace
      ensures Valid() && Contents() == "" && active == old(active) && trace == old(trace) + [S.Clear]
    {
      hide Led;
      Tick(S.Clear);
      head, used := 0, 0;
    }

    /** gnss_uart_console_snapshot: reads, and leaves the console as it was. */
    method Snapshot(dest: array?<char>, destSize: nat) returns (n: nat)
      requires Valid() && dest != buffers[0] && dest != buffers[1] && (dest != null ==> destSize <= dest.Length)
      modifies dest
      ensures Valid() && Contents() == old(Contents())
      ensures dest == null || destSize == 0 ==> n == 0
      ensures dest != null && destSize > 0 ==>
                (n == Min(|Contents()|, destSize - 1)
                 && dest[..n] == Newest(Contents(), destSize - 1) && dest[n] == '\0')
    {
      hide Led;
      if dest == null || destSize == 0 {
        return 0;
      }
      hide Window, Newest;
      n := CopyNewest(buffers[active], head, used, dest, destSize);
    }

    ghost method TickCopy()
      requires Led() && S.Enabled(s, S.CopyByte)
      modifies this`s, this`trace
      ensures Led() && s == old(s).(reader := s.reader) && trace == old(trace) + [S.CopyByte]
      ensures s.reader.Copying? && s.reader.(got := old(s).reader.got) == old(s).reader
      ensures |s.reader.got| == |old(s).reader.got| + 1
    {
      hide Led, Around;
      Tick(S.CopyByte);
    }

    /** The steps of a consumer that nobody interrupts. */
    ghost method TickConsume(destSize: nat)
      requires Led() && s.reader.Idle? && destSize > 0
      modifies this`s, this`trace
      ensures Led() && S.Shape(GNSS_CONSOLE_BUFFER_SIZE, old(s))
      ensures s == old(s).(active := 1 - old(s).active, head := 0, used := 0, epoch := "", epochs := s.epochs,
                           results := s.results)
      ensures |trace| >= |old(trace)| + 2 && trace[..|old(trace)| + 1] == old(trace) + [S.StartConsume(destSize)]
      ensures trace[|trace| - 1] == S.FinishConsume
      ensures forall i :: |old(trace)| < i < |trace| - 1 ==> trace[i] == S.CopyByte
    {
      ghost var x, t := s, trace;
      ShapeNow();
      hide Led, Around, Start;
      Tick(S.StartConsume(destSize));
      while |s.reader.got| < s.reader.count
        invariant Led() && s.reader.Copying? && |s.reader.got| <= s.reader.count
        invariant s == x.(active := 1 - x.active, head := 0, used := 0, epoch := "", epochs := s.epochs,
                          reader := s.reader)
        invariant |trace| > |t| && trace[..|t| + 1] == t + [S.StartConsume(destSize)]
        invariant forall i :: |t| < i < |trace| ==> trace[i] == S.CopyByte
        decreases s.reader.count - |s.reader.got|
      {
        TickCopy();
      }
      Tick(S.FinishConsume);
    }

    /** gnss_uart_console_consume: the swap empties the console and the copy delivers what it
        held, as much of the newest as fits. */
    method Consume(dest: array?<char>, destSize: nat) returns (n: nat)
      requires Valid() && dest != buffers[0] && dest != buffers[1] && (dest != null ==> destSize <= dest.Length)
      modifies this`active, this`head, this`used, this`s, this`trace, dest
      ensures Valid()
      ensures dest == null || destSize == 0 ==> (n == 0 && Contents() == old(Contents()) && trace == old(trace))
      ensures dest != null && destSize > 0 ==>
                (Contents() == "" && active == 1 - old(active)
                 && n == Min(|old(Contents())|, destSize - 1)
                 && dest[..n] == Newest(old(Contents()), destSize - 1) && dest[n] == '\0')
      ensures dest != null && destSize > 0 ==>
                (|trace| >= |old(trace)| + 2 && trace[..|old(trace)| + 1] == old(trace) + [S.StartConsume(destSize)]
                 && trace[|trace| - 1] == S.FinishConsume
                 && forall i :: |old(trace)| < i < |trace| - 1 ==> trace[i] == S.CopyByte)
    {
      hide Led;
      if dest == null || destSize == 0 {
        return 0;
      }
      TickConsume(destSize);
      var buffer, oldHead, oldUsed := buffers[active], head, used;
      active := 1 - active;
      head, used := 0, 0;
      assert Contents() == "";
      hide Window, Newest;
      n := CopyNewest(buffer, oldHead, oldUsed, dest, destSize);
    }

    /** What the consumers got is what the specification delivers. */
    lemma Delivered()
      requires Valid()
      ensures s.results == S.Delivered(GNSS_CONSOLE_BUFFER_SIZE, s.epochs)
      ensures Flatten(S.Texts(s.epochs)) + s.epoch == s.history
      ensures Contents() == Newest(s.epoch, GNSS_CONSOLE_BUFFER_SIZE)
    {
      InvNow();
      hide Led, Window, Newest, Flatten;
    }
  }
}

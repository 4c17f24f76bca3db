/** The web log: a ring of log text and its snapshot. */
module WebLog {
  import opened Sequences
  import opened RingBuffer

  const WEB_LOG_BUFFER_SIZE: nat := 16384

  class Log {
    const buffer: array<char>
    var head: nat
    var used: nat

    /** Everything appended so far. */
    ghost var pieces: seq<string>

    constructor ()
      ensures Valid() && pieces == [] && fresh(buffer)
    {
      buffer := new char[WEB_LOG_BUFFER_SIZE](i => '\0');
      head, used, pieces := 0, 0, [];
    }

    ghost predicate Valid()
      reads this, buffer
    {
      && buffer.Length == WEB_LOG_BUFFER_SIZE && head < buffer.Length && used <= buffer.Length
      && Contents() == AppendAll([], pieces, WEB_LOG_BUFFER_SIZE)
    }

    ghost function Contents(): string
      reads this, buffer
      requires head < buffer.Length && used <= buffer.Length
    {
      Window(buffer[..], head, used)
    }

    method Append(data: string)
      requires Valid()
      modifies this, buffer
      ensures Valid() && pieces == old(pieces) + [data]
      ensures Contents() == Newest(old(Contents()) + Kept(data, WEB_LOG_BUFFER_SIZE), WEB_LOG_BUFFER_SIZE)
    {
      hide Window, Newest, Kept, Around;
      head, used := RingBuffer.Append(buffer, head, used, data);
      pieces := pieces + [data];
      assert pieces[..|pieces| - 1] == old(pieces);
    }

    /** log_snapshot: as much of the newest text as fits, terminated; nothing without a
        destination. */
    method Snapshot(dest: array?<char>, destSize: nat) returns (n: nat)
      requires Valid() && dest != buffer && (dest != null ==> destSize <= dest.Length)
      modifies dest
      ensures Valid()
      ensures dest == null || destSize == 0 ==> n == 0
      ensures dest != null && destSize > 0 ==>
                (n == Min(|Contents()|, destSize - 1)
                 && dest[..n] == Newest(Contents(), destSize - 1) && dest[n] == '\0')
    {
      if dest == null || destSize == 0 {
        return 0;
      }
      hide Window, Newest;
      n := CopyNewest(buffer, head, used, dest, destSize);
    }
  }

  /** With every piece shorter than the ring, a snapshot is the newest text of the whole
      history that fits both the ring and the destination. */
  lemma SnapshotOfHistory(pieces: seq<string>, destSize: nat)
    requires destSize > 0 && forall i :: 0 <= i < |pieces| ==> |pieces[i]| < WEB_LOG_BUFFER_SIZE
    ensures Newest(AppendAll([], pieces, WEB_LOG_BUFFER_SIZE), destSize - 1)
         == Newest(Flatten(pieces), Min(WEB_LOG_BUFFER_SIZE, destSize - 1))
  {
    AppendsKeepNewest([], pieces, WEB_LOG_BUFFER_SIZE);
    assert [] + Flatten(pieces) == Flatten(pieces);
    NewestTwice(Flatten(pieces), WEB_LOG_BUFFER_SIZE, destSize - 1);
    hide AppendAll, Newest;
  }
}

/** The byte ring that the web log and the console share: a buffer written at a wrapping head,
    of which the last `used` bytes count. */
module RingBuffer {
  import opened Sequences

  /** Position k of a buffer of n cells, wrapped around. */
  function Around(k: nat, n: nat): (p: nat)
    requires n > 0
    ensures p < n
  {
    k % n
  }

  lemma Wrap(k: nat, n: nat)
    requires 0 < n && k < 2 * n
    ensures Around(k, n) == if k < n then k else k - n
  {}

  /** The cell of the i-th oldest element. */
  function Cell(n: nat, head: nat, used: nat, i: nat): (p: nat)
    requires head < n && i < used <= n
    ensures p < n
  {
    Around(head + n - used + i, n)
  }

  lemma CellIs(n: nat, head: nat, used: nat, i: nat)
    requires head < n && i < used <= n
    ensures Cell(n, head, used, i) == if head + i < used then head + n - used + i else head + i - used
  {
    Wrap(head + n - used + i, n);
  }

  /** The bytes a ring holds, oldest first. */
  function Window<T>(buffer: seq<T>, head: nat, used: nat): (w: seq<T>)
    requires head < |buffer| && used <= |buffer|
    ensures |w| == used
  {
    seq(used, i requires 0 <= i < used => buffer[Cell(|buffer|, head, used, i)])
  }

  lemma PushCell(n: nat, head: nat, used: nat, i: nat)
    requires head < n && used <= n && i < (if used < n then used + 1 else n)
    ensures var used' := if used < n then used + 1 else n;
            var head' := Around(head + 1, n);
            if i == used' - 1 then Cell(n, head', used', i) == head
            else Cell(n, head', used', i) == Cell(n, head, used, if used < n then i else i + 1) != head
  {
    var used' := if used < n then used + 1 else n;
    Wrap(head + 1, n);
    CellIs(n, Around(head + 1, n), used', i);
    if i != used' - 1 {
      CellIs(n, head, used, if used < n then i else i + 1);
    }
    hide Cell, Around;
  }

  /** Writing one element at the head appends it to the window and evicts the oldest once the
      ring is full. */
  lemma PushExtends<T>(buffer: seq<T>, head: nat, used: nat, x: T)
    requires head < |buffer| && used <= |buffer|
    ensures var n := |buffer|;
            Window(buffer[head := x], Around(head + 1, n), if used < n then used + 1 else n)
            == Newest(Window(buffer, head, used) + [x], n)
  {
    var n := |buffer|;
    var used' := if used < n then used + 1 else n;
    var a, b := Window(buffer[head := x], Around(head + 1, n), used'), Newest(Window(buffer, head, used) + [x], n);
    hide Cell, Around;
    forall i | 0 <= i < used'
      ensures a[i] == b[i]
    {
      PushCell(n, head, used, i);
    }
  }

  /** What an append keeps of a piece that does not fit: one byte less than the capacity. */
  function Kept<T>(data: seq<T>, n: nat): (k: seq<T>)
    requires n > 0
    ensures |k| < n && (|data| < n ==> k == data)
  {
    if |data| >= n then data[|data| - n + 1..] else data
  }

  /** When an append leaves the newest bytes of all that was written: for every piece shorter
      than the ring, and for a longer one only if the byte it should have ended with comes
      by chance from before. */
  lemma OversizeAppend<T>(w: seq<T>, data: seq<T>, n: nat)
    requires n > 0 && |w| <= n
    ensures Newest(w + Kept(data, n), n) == Newest(w + data, n)
       <==> |data| < n || (w != [] && w[|w| - 1] == data[|data| - n])
  {
    if |data| >= n {
      var a, b := Newest(w + Kept(data, n), n), Newest(w + data, n);
      assert b == data[|data| - n..];
      if w == [] {
        assert |a| < |b|;
      } else {
        assert a == [w[|w| - 1]] + Kept(data, n);
        assert b == [data[|data| - n]] + Kept(data, n);
        assert a[0] == w[|w| - 1] && b[0] == data[|data| - n];
      }
    }
  }

  /** In a ring of any size, an oversized piece after a different last byte leaves that byte
      in place of the one the piece should have begun with. */
  lemma StaleByteSurvives<T>(w: seq<T>, data: seq<T>, n: nat)
    requires 0 < n <= |data| && 0 < |w| <= n && w[|w| - 1] != data[|data| - n]
    ensures Newest(w + Kept(data, n), n) == [w[|w| - 1]] + data[|data| - n + 1..]
    ensures Newest(w + Kept(data, n), n) != Newest(w + data, n)
  {
    var k, last := data[|data| - n + 1..], w[|w| - 1];
    assert Kept(data, n) == k && w + k == w[..|w| - 1] + ([last] + k);
    hide *;
    OversizeAppend(w, data, n);
    NewestOfLast(w[..|w| - 1], [last] + k, n);
  }

  lemma NewestOfLast<T>(a: seq<T>, b: seq<T>, n: nat)
    requires |b| == n
    ensures Newest(a + b, n) == b
  {}

  /** The window after a sequence of appends. */
  function AppendAll<T>(w: seq<T>, pieces: seq<seq<T>>, n: nat): seq<T>
    requires n > 0
  {
    if pieces == [] then w
    else Newest(AppendAll(w, pieces[..|pieces| - 1], n) + Kept(pieces[|pieces| - 1], n), n)
  }

  /** Any appends, each shorter than the ring, leave the newest bytes of the history. */
  lemma {:induction false} AppendsKeepNewest<T>(w: seq<T>, pieces: seq<seq<T>>, n: nat)
    requires n > 0 && |w| <= n && forall i :: 0 <= i < |pieces| ==> |pieces[i]| < n
    ensures AppendAll(w, pieces, n) == Newest(w + Flatten(pieces), n)
  {
    if pieces == [] {
      assert w + [] == w;
    } else {
      var front, last := pieces[..|pieces| - 1], pieces[|pieces| - 1];
      AppendsKeepNewest(w, front, n);
      NewestOfNewest(w + Flatten(front), last, n);
      assert w + Flatten(front) + last == w + (Flatten(front) + last);
      hide Newest;
    }
  }

  /** A ring as a value: its cells, the next one to be written, and how many count. */
  datatype Ring<T> = Ring(cells: seq<T>, head: nat, used: nat)

  predicate RingOk<T>(r: Ring<T>) {
    r.head < |r.cells| && r.used <= |r.cells|
  }

  function Push<T>(r: Ring<T>, x: T): (r': Ring<T>)
    requires RingOk(r)
    ensures RingOk(r') && |r'.cells| == |r.cells|
  {
    var n := |r.cells|;
    Ring(r.cells[r.head := x], Around(r.head + 1, n), if r.used < n then r.used + 1 else r.used)
  }

  function PushAll<T>(r: Ring<T>, data: seq<T>): (r': Ring<T>)
    requires RingOk(r)
    ensures RingOk(r') && |r'.cells| == |r.cells|
  {
    if data == [] then r else Push(PushAll(r, data[..|data| - 1]), data[|data| - 1])
  }

  lemma PushAllSnoc<T>(r: Ring<T>, data: seq<T>, i: nat)
    requires RingOk(r) && i < |data|
    ensures PushAll(r, data[..i + 1]) == Push(PushAll(r, data[..i]), data[i])
  {
    assert data[..i + 1][..i] == data[..i];
    hide Push;
  }

  /** Pushing a piece leaves the newest of what was there and the piece. */
  lemma {:induction false} PushAllWindow<T>(r: Ring<T>, data: seq<T>)
    requires RingOk(r)
    ensures var r', n := PushAll(r, data), |r.cells|;
            Window(r'.cells, r'.head, r'.used) == Newest(Window(r.cells, r.head, r.used) + data, n)
  {
    if data == [] {
      WindowAlone(Window(r.cells, r.head, r.used), |r.cells|);
    } else {
      var front, x := data[..|data| - 1], data[|data| - 1];
      assert data == front + [x];
      assert PushAll(r, data) == Push(PushAll(r, front), x);
      PushAllWindow(r, front);
      PushWindow(PushAll(r, front), x);
      hide *;
      NewestOfNewest(Window(r.cells, r.head, r.used) + front, [x], |r.cells|);
      assert Window(r.cells, r.head, r.used) + front + [x] == Window(r.cells, r.head, r.used) + (front + [x]);
    }
  }

  lemma WindowAlone<T>(w: seq<T>, n: nat)
    requires |w| <= n
    ensures Newest(w + [], n) == w
  {
    assert w + [] == w;
  }

  lemma PushWindow<T>(r: Ring<T>, x: T)
    requires RingOk(r)
    ensures var r' := Push(r, x);
            Window(r'.cells, r'.head, r'.used) == Newest(Window(r.cells, r.head, r.used) + [x], |r.cells|)
  {
    PushExtends(r.cells, r.head, r.used, x);
    hide Window, Newest, Around;
  }

  /** The append loop over a buffer. */
  method Append<T>(buffer: array<T>, head: nat, used: nat, data: seq<T>) returns (head': nat, used': nat)
    requires head < buffer.Length && used <= buffer.Length
    modifies buffer
    ensures Ring(buffer[..], head', used')
         == PushAll(Ring(old(buffer[..]), head, used), Kept(data, buffer.Length))
    ensures head' < buffer.Length && used' <= buffer.Length
    ensures Window(buffer[..], head', used')
         == Newest(Window(old(buffer[..]), head, used) + Kept(data, buffer.Length), buffer.Length)
  {
    var n := buffer.Length;
    ghost var kept := Kept(data, n);
    var from, len := 0, |data|;
    if len >= n {
      from := len - n + 1;
      len := n - 1;
    }
    assert len == |kept| && forall i :: 0 <= i < len ==> kept[i] == data[from + i];
    ghost var r := Ring(buffer[..], head, used);
    assert RingOk(r) && PushAll(r, kept[..0]) == r;
    hide Kept, PushAll, Around, Window, Newest;
    head', used' := head, used;
    for i := 0 to len
      invariant head' < n && used' <= n
      invariant Ring(buffer[..], head', used') == PushAll(r, kept[..i])
    {
      PushAllSnoc(r, kept, i);
      ghost var before := buffer[..];
      buffer[head'] := data[from + i];
      assert buffer[..] == before[head' := kept[i]];
      head' := Around(head' + 1, n);
      if used' < n {
        used' := used' + 1;
      }
    }
    assert kept[..len] == kept;
    PushAllWindow(r, kept);
  }

  /** Where the newest `count` bytes of a window start. */
  function Start(n: nat, head: nat, used: nat, count: nat): (s: nat)
    requires head < n && count <= used <= n
    ensures s < n
  {
    Around(Around(head + n - used, n) + (used - count), n)
  }

  lemma StartCell(n: nat, head: nat, used: nat, count: nat, i: nat)
    requires head < n && i < count <= used <= n
    ensures Around(Start(n, head, used, count) + i, n) == Cell(n, head, used, used - count + i)
  {
    Wrap(head + n - used, n);
    Wrap(Around(head + n - used, n) + (used - count), n);
    Wrap(Start(n, head, used, count) + i, n);
    CellIs(n, head, used, used - count + i);
    hide Around, Cell;
  }

  lemma NewestAt<T>(buffer: seq<T>, head: nat, used: nat, count: nat, i: nat)
    requires head < |buffer| && count <= used <= |buffer| && i < count
    ensures buffer[Around(Start(|buffer|, head, used, count) + i, |buffer|)]
         == Newest(Window(buffer, head, used), count)[i]
  {
    StartCell(|buffer|, head, used, count, i);
    hide Around, Cell, Start;
  }

  /** The copy loop of a snapshot: the newest bytes that fit, and a terminator. */
  method CopyNewest(buffer: array<char>, head: nat, used: nat, dest: array<char>, destSize: nat) returns (count: nat)
    requires head < buffer.Length && used <= buffer.Length && buffer != dest && 1 <= destSize <= dest.Length
    modifies dest
    ensures count == Min(used, destSize - 1)
    ensures dest[..count] == Newest(Window(buffer[..], head, used), destSize - 1) && dest[count] == '\0'
    ensures forall j :: count < j < dest.Length ==> dest[j] == old(dest[j])
  {
    var n := buffer.Length;
    count := if used < destSize - 1 then used else destSize - 1;
    var start := Start(n, head, used, count);
    ghost var want := Newest(Window(buffer[..], head, used), count);
    assert count == Min(used, destSize - 1) && want == Newest(Window(buffer[..], head, used), destSize - 1);
    hide *;
    ghost var b := buffer[..];
    forall i | 0 <= i < count
      ensures b[Around(start + i, n)] == want[i]
    {
      NewestAt(b, head, used, count, i);
    }
    for i := 0 to count
      invariant forall j :: 0 <= j < i ==> dest[j] == want[j]
      invariant forall j :: count < j < dest.Length ==> dest[j] == old(dest[j])
      invariant buffer[..] == b
    {
      assert b[Around(start + i, n)] == want[i];
      dest[i] := buffer[Around(start + i, n)];
    }
    dest[count] := '\0';
    assert dest[..count] == want;
  }
}

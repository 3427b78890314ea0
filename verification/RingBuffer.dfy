/** The byte ring under every connection: fixed storage, a head, a tail and a size. */
module RingBuffer {

  const READ_BUFFER_INITIAL_SIZE := 16384
  const READ_BUFFER_MAX_SIZE := 2 * 1024 * 1024

  /** Advancing a position at most once round the storage: the remainder, without division. */
  function Wrap(x: nat, n: nat): (r: nat)
    requires x < 2 * n
    ensures r < n
  {
    if x < n then x else x - n
  }

  /** The sizes a read buffer can have: the maximum, halved any number of times. */
  predicate IsCapacity(n: nat)
    decreases READ_BUFFER_MAX_SIZE - n
  {
    n == READ_BUFFER_MAX_SIZE || (0 < n && 2 * n <= READ_BUFFER_MAX_SIZE && IsCapacity(2 * n))
  }

  datatype Errno = EAGAIN | EINTR | OtherErrno

  /** What a receive call of the kernel does: some of the bytes that are waiting, the peer's end, or an error. */
  datatype Recv = Bytes(limit: nat) | PeerClosed | Failed(errno: Errno)

  /** The `size` bytes stored from `head` on, going round at the end of the storage. */
  ghost function Unrolled(b: seq<char>, head: nat, size: nat): (r: seq<char>)
    requires head < |b| && size <= |b|
    ensures |r| == size
    ensures forall i :: 0 <= i < size ==> r[i] == b[Wrap(head + i, |b|)]
  {
    if head + size <= |b| then b[head..head + size] else b[head..] + b[..head + size - |b|]
  }

  lemma PeekUnrolled(b: seq<char>, head: nat, size: nat, count: nat, first: nat)
    requires head < |b| && count <= size <= |b|
    requires first == if |b| - head > count then count else |b| - head
    ensures b[head..head + first] + b[..count - first] == Unrolled(b, head, size)[..count]
  {
    var front, all := b[head..head + first] + b[..count - first], Unrolled(b, head, size);
    forall i | 0 <= i < count ensures front[i] == all[i] {
      assert all[i] == b[Wrap(head + i, |b|)];
    }
    assert |front| == count && front == all[..count];
  }

  /** `after` is `before` with `data` written from position `at` on, going round at the end. */
  ghost predicate Written(before: seq<char>, after: seq<char>, at: nat, data: seq<char>) {
    && at < |before| == |after| && |data| <= |before|
    && (forall i :: 0 <= i < |data| ==> after[Wrap(at + i, |before|)] == data[i])
    && (forall j :: 0 <= j < |before| && !(at <= j < at + |data|) && !(at <= j + |before| < at + |data|) ==> after[j] == before[j])
  }

  lemma TwoCopies(before: seq<char>, middle: seq<char>, after: seq<char>, at: nat, data: seq<char>, first: nat)
    requires at < |before| == |middle| == |after| && |data| <= |before|
    requires first == if |before| - at > |data| then |data| else |before| - at
    requires forall i :: 0 <= i < first ==> middle[at + i] == data[..first][i]
    requires forall j :: 0 <= j < |before| && !(at <= j < at + first) ==> middle[j] == before[j]
    requires forall i :: 0 <= i < |data| - first ==> after[0 + i] == data[first..][i]
    requires forall j :: 0 <= j < |before| && !(0 <= j < |data| - first) ==> after[j] == middle[j]
    ensures Written(before, after, at, data)
  {
    forall i | 0 <= i < |data| ensures after[Wrap(at + i, |before|)] == data[i] {
      if i < first { assert middle[at + i] == data[..first][i]; }
      else { assert after[0 + (i - first)] == data[first..][i - first]; }
    }
  }

  lemma AppendUnrolled(before: seq<char>, after: seq<char>, head: nat, size: nat, data: seq<char>)
    requires head < |before| && size + |data| <= |before|
    requires Written(before, after, Wrap(head + size, |before|), data)
    ensures Unrolled(after, head, size + |data|) == Unrolled(before, head, size) + data
  {
    var longer, old0, n := Unrolled(after, head, size + |data|), Unrolled(before, head, size), |before|;
    forall i | 0 <= i < size + |data| ensures longer[i] == (old0 + data)[i] {
      AppendAt(before, after, head, size, data, i);
      assert longer[i] == after[Wrap(head + i, n)];
      if i < size { assert old0[i] == before[Wrap(head + i, n)]; }
    }
    assert longer == old0 + data;
  }

  lemma AppendAt(before: seq<char>, after: seq<char>, head: nat, size: nat, data: seq<char>, i: nat)
    requires head < |before| && size + |data| <= |before| && i < size + |data|
    requires Written(before, after, Wrap(head + size, |before|), data)
    ensures after[Wrap(head + i, |before|)] == if i < size then before[Wrap(head + i, |before|)] else data[i - size]
  {
    var n := |before|;
    var at := Wrap(head + size, n);
    if i >= size {
      var k := i - size;
      assert Wrap(head + i, n) == Wrap(at + k, n) && after[Wrap(at + k, n)] == data[k];
    }
  }

  lemma SkipUnrolled(b: seq<char>, head: nat, size: nat, k: nat)
    requires head < |b| && k <= size <= |b| && head + k <= |b|
    ensures Unrolled(b, head, size) == b[head..head + k] + Unrolled(b, Wrap(head + k, |b|), size - k)
  {
    var rest := b[head..head + k] + Unrolled(b, Wrap(head + k, |b|), size - k);
    forall i | 0 <= i < size ensures Unrolled(b, head, size)[i] == rest[i] {}
  }

  /** Taking bytes from the front, with the restart at zero when none are left. */
  lemma TakeUnrolled(b: seq<char>, head: nat, size: nat, n: nat, bytes: seq<char>, next: nat)
    requires head < |b| && n <= size <= |b| && head + n <= |b| && bytes == b[head..head + n]
    requires next == if size == n then 0 else Wrap(head + n, |b|)
    ensures Unrolled(b, head, size) == bytes + Unrolled(b, next, size - n)
  {
    SkipUnrolled(b, head, size, n);
    if size == n { assert Unrolled(b, 0, 0) == Unrolled(b, Wrap(head + n, |b|), 0) == []; }
  }

  class Ring {
    var buffer: array<char>
    var head: nat
    var tail: nat
    var size: nat

    ghost predicate Valid()
      reads this
    {
      && head < buffer.Length && size <= buffer.Length
      && tail == Wrap(head + size, buffer.Length)
    }

    /** The queued bytes, oldest first. */
    ghost function Contents(): seq<char>
      requires Valid()
      reads this, buffer
    {
      Unrolled(buffer[..], head, size)
    }

    constructor (capacity: nat)
      requires capacity > 0
      ensures Valid() && fresh(buffer) && Contents() == [] && buffer.Length == capacity
    {
      buffer := new char[capacity];
      head, tail, size := 0, 0, 0;
    }

    method Reset()
      requires buffer.Length > 0
      modifies this
      ensures Valid() && buffer == old(buffer) && Contents() == []
    {
      head, tail, size := 0, 0, 0;
    }

    /** memcpy of `data` to position `at`. */
    method CopyIn(at: nat, data: seq<char>)
      requires at + |data| <= buffer.Length
      modifies buffer
      ensures forall i :: 0 <= i < |data| ==> buffer[at + i] == data[i]
      ensures forall j :: 0 <= j < buffer.Length && !(at <= j < at + |data|) ==> buffer[j] == old(buffer[j])
    {
      forall i | 0 <= i < |data| {
        buffer[at + i] := data[i];
      }
    }

    /** All or nothing: either the whole of `data` joins the queue or nothing changes. */
    method Append(data: seq<char>) returns (r: int)
      requires Valid()
      modifies this, buffer
      ensures Valid() && buffer == old(buffer)
      ensures if |data| > buffer.Length - old(size) then r == -1 && Contents() == old(Contents())
              else r == |data| && Contents() == old(Contents()) + data
    {
      r := -1;
      if |data| <= buffer.Length - size {
        Enqueue(data);
        r := |data|;
      }
    }

    /** The copy in one or two pieces, going round at the end of the storage. */
    method CopyAround(data: seq<char>)
      requires tail < buffer.Length && |data| <= buffer.Length
      modifies buffer
      ensures Written(old(buffer[..]), buffer[..], tail, data)
    {
      var first := buffer.Length - tail;
      if first > |data| { first := |data|; }
      ghost var before := buffer[..];
      CopyIn(tail, data[..first]);
      ghost var middle := buffer[..];
      CopyIn(0, data[first..]);
      TwoCopies(before, middle, buffer[..], tail, data, first);
    }

    method Enqueue(data: seq<char>)
      requires Valid() && |data| <= buffer.Length - size
      modifies this, buffer
      ensures Valid() && buffer == old(buffer) && size == old(size) + |data|
      ensures Contents() == old(Contents()) + data
    {
      ghost var before := buffer[..];
      CopyAround(data);
      AppendUnrolled(before, buffer[..], head, size, data);
      tail := Wrap(tail + |data|, buffer.Length);
      size := size + |data|;
    }

    /**
     One receive call: the kernel hands over some prefix of the bytes that are waiting, limited by the
     contiguous free space behind the tail.  A full ring is not asked: it reports an error and leaves `errno`
     as it was.
     */
    method Receive(waiting: seq<char>, answer: Recv, stale: Errno) returns (n: int, errno: Errno)
      requires Valid() && (answer.Bytes? ==> waiting != [] && answer.limit > 0)
      modifies this, buffer
      ensures Valid() && buffer == old(buffer)
      ensures n <= 0 ==> Contents() == old(Contents())
      ensures old(size) == buffer.Length ==> n == -1 && errno == stale
      ensures old(size) < buffer.Length ==>
                match answer
                case Bytes(limit) => 0 < n <= |waiting| && n <= limit && Contents() == old(Contents()) + waiting[..n]
                case PeerClosed => n == 0
                case Failed(e) => n == -1 && errno == e
    {
      n, errno := -1, stale;
      if size == buffer.Length { return; }
      match answer
      case PeerClosed => n := 0;
      case Failed(e) => errno := e;
      case Bytes(limit) =>
        var first := buffer.Length - tail;
        if first > buffer.Length - size { first := buffer.Length - size; }
        n := first;
        if n > limit { n := limit; }
        if n > |waiting| { n := |waiting|; }
        Enqueue(waiting[..n]);
    }

    method Peek(len: nat) returns (bytes: seq<char>)
      requires Valid()
      ensures bytes == Contents()[..if len > size then size else len]
    {
      var count := if len > size then size else len;
      var first := buffer.Length - head;
      if first > count { first := count; }
      bytes := buffer[head..head + first] + buffer[..count - first];
      PeekUnrolled(buffer[..], head, size, count, first);
      assert buffer[head..head + first] == buffer[..][head..head + first] && buffer[..count - first] == buffer[..][..count - first];
    }

    /** One send call: the kernel accepts some prefix of the contiguous bytes behind the head. */
    method Send(kernelLimit: nat) returns (sent: seq<char>)
      requires Valid()
      modifies this
      ensures Valid() && buffer == old(buffer)
      ensures old(Contents()) == sent + Contents() && |sent| <= kernelLimit
      ensures kernelLimit > 0 && old(size) > 0 ==> sent != []
      ensures size == 0 && sent != [] ==> head == 0
    {
      sent := [];
      var first := buffer.Length - head;
      if first > size { first := size; }
      var n := if first > kernelLimit then kernelLimit else first;
      if n > 0 {
        sent := TakeFront(n);
      } else {
        assert [] + Contents() == Contents();
      }
    }

    method TakeFront(n: nat) returns (bytes: seq<char>)
      requires Valid() && 0 < n <= size && head + n <= buffer.Length
      modifies this
      ensures Valid() && buffer == old(buffer) && size == old(size) - n && (size == 0 ==> head == 0)
      ensures |bytes| == n && old(Contents()) == bytes + Contents()
    {
      var b := buffer[..];
      bytes := b[head..head + n];
      ghost var from, count := head, size;
      Advance(n);
      assert Contents() == Unrolled(b, head, size);
      TakeUnrolled(b, from, count, n, bytes, head);
    }

    /** Moves the head past n bytes, and back to zero when none are left. */
    method Advance(n: nat)
      requires Valid() && n <= size && head + n <= buffer.Length
      modifies this
      ensures Valid() && buffer == old(buffer) && size == old(size) - n
      ensures head == if size == 0 then 0 else Wrap(old(head) + n, buffer.Length)
    {
      head := Wrap(head + n, buffer.Length);
      size := size - n;
      if size == 0 {
        head, tail := 0, 0;
      }
    }

    /** Doubles the storage until it holds `required` bytes; refuses beyond the maximum. */
    method EnsureCapacity(required: int) returns (ok: bool)
      requires Valid() && buffer.Length <= READ_BUFFER_MAX_SIZE
      modifies this
      ensures Valid() && Contents() == old(Contents())
      ensures ok <==> required <= READ_BUFFER_MAX_SIZE
      ensures ok ==> required <= buffer.Length && buffer.Length >= old(buffer.Length)
      ensures buffer.Length <= READ_BUFFER_MAX_SIZE && (old(IsCapacity(buffer.Length)) ==> IsCapacity(buffer.Length))
      ensures if ok then buffer == old(buffer) || fresh(buffer) else buffer == old(buffer)
    {
      var needed := if required <= 0 then READ_BUFFER_INITIAL_SIZE else required;
      if needed > READ_BUFFER_MAX_SIZE { return false; }
      if buffer.Length >= needed { return true; }
      var capacity := buffer.Length;
      while capacity < needed
        invariant buffer.Length <= capacity <= READ_BUFFER_MAX_SIZE && (IsCapacity(buffer.Length) ==> IsCapacity(capacity))
        decreases READ_BUFFER_MAX_SIZE - capacity
      {
        capacity := capacity * 2;
        if capacity > READ_BUFFER_MAX_SIZE { capacity := READ_BUFFER_MAX_SIZE; }
      }
      var kept := Peek(size);
      var bigger := new char[capacity](_ => '\0');
      forall i | 0 <= i < |kept| { bigger[i] := kept[i]; }
      buffer := bigger;
      head, tail := 0, size;
      assert Contents() == kept;
      return true;
    }
  }
}

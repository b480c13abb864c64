/** The byte ring between a sink's write() and its audio callback: src/pcm_ring.cpp.

    `PcmRingBuffer` is the class as one thread sees it, refined to a FIFO queue.
    `RingThreads` (RingThreads.dfy) takes the same operations apart into the
    atomic steps two threads interleave.
 */
module PcmRing {
  import opened Arith
  import opened Machine

  /** (p + n) % cap, which for the ranges the ring uses wraps at most once. */
  function Wrap(p: nat, n: nat, cap: nat): (q: nat)
    requires p < cap && n <= cap
    ensures q == if p + n < cap then p + n else p + n - cap
    ensures q < cap
  {
    if p + n < cap then SmallMod(p + n, cap); (p + n) % cap
    else ModStep(p + n, cap); SmallMod(p + n - cap, cap); (p + n) % cap
  }

  /** (w - r + cap) % cap: how many bytes lie between the read and the write position. */
  function Used(w: nat, r: nat, cap: nat): (d: nat)
    requires w < cap && r < cap
    ensures d == if w >= r then w - r else w - r + cap
    ensures d < cap
    ensures Wrap(r, d, cap) == w
  {
    if w >= r then ModStep(w - r, cap); SmallMod(w - r, cap); (w - r + cap) % cap
    else SmallMod(w - r + cap, cap); (w - r + cap) % cap
  }

  /** drop() sets both positions to 0. A read it falls under has `n` bytes from `readPos` still to
      account for, and stores its position last: the ring then reads as holding bytes nobody wrote
      exactly if that position is not 0. */
  lemma DropUnderRead(readPos: nat, n: nat, capacity: nat)
    requires readPos < capacity && n < capacity
    ensures Used(0, Wrap(readPos, n, capacity), capacity) == 0 <==> readPos + n == 0 || readPos + n == capacity
  {
  }

  class PcmRingBuffer {
    var buffer: array<byte>
    var capacity: nat
    var writePos: nat
    var readPos: nat
    var clearRequested: bool

    ghost predicate Valid()
      reads this
    {
      && buffer.Length == capacity
      && (capacity == 0 ==> writePos == 0 && readPos == 0)
      && (capacity > 0 ==> writePos < capacity && readPos < capacity)
    }

    ghost function Length(): (n: nat)
      reads this
      requires Valid()
      ensures capacity > 0 ==> n < capacity
    {
      if capacity == 0 then 0 else Used(writePos, readPos, capacity)
    }

    /** The buffered bytes, oldest first. */
    ghost function Contents(): (s: seq<byte>)
      reads this, buffer
      requires Valid()
      ensures |s| == Length()
    {
      var n := Length();
      seq(n, i requires 0 <= i < n && Valid() && n == Length() reads this, buffer => buffer[Wrap(readPos, i, capacity)])
    }

    constructor ()
      ensures Valid() && capacity == 0 && !clearRequested
    {
      buffer := new byte[0];
      capacity, writePos, readPos, clearRequested := 0, 0, 0, false;
    }

    method Available() returns (n: nat)
      requires Valid()
      ensures n == |Contents()|
    {
      if capacity == 0 {
        return 0;
      }
      n := Used(writePos, readPos, capacity);
    }

    method FreeSpace() returns (n: nat)
      requires Valid()
      ensures capacity == 0 ==> n == 0
      ensures capacity > 0 ==> n + |Contents()| == capacity - 1
    {
      if capacity == 0 {
        return 0;
      }
      var used := Available();
      n := capacity - 1 - used;
    }

    /** memcpy into the ring from position `at`, which does not wrap. */
    method CopyIn(at: nat, data: seq<byte>)
      requires at + |data| <= buffer.Length
      modifies buffer
      ensures forall k :: 0 <= k < buffer.Length ==>
                buffer[k] == if at <= k < at + |data| then data[k - at] else old(buffer[k])
    {
      var i := 0;
      while i < |data|
        invariant 0 <= i <= |data|
        invariant forall k :: 0 <= k < buffer.Length ==>
                    buffer[k] == if at <= k < at + i then data[k - at] else old(buffer[k])
      {
        buffer[at + i] := data[i];
        i := i + 1;
      }
    }

    /** write(): appends as much as fits, in at most two copies around the seam. */
    method Write(data: seq<byte>) returns (n: nat)
      requires Valid()
      modifies this`writePos, buffer
      ensures Valid() && buffer == old(buffer)
      ensures n == if capacity == 0 then 0 else Min(|data|, capacity - 1 - old(|Contents()|))
      ensures Contents() == old(Contents()) + data[..n]
    {
      n := 0;
      if capacity == 0 {
        return;
      }
      var used := Used(writePos, readPos, capacity);
      n := Min(|data|, capacity - 1 - used);
      if n == 0 {
        return;
      }
      var first := Min(n, capacity - writePos);
      ghost var was := Contents();
      CopyIn(writePos, data[..first]);
      if n > first {
        CopyIn(0, data[first..n]);
      }
      writePos := Wrap(writePos, n, capacity);
      assert Length() == used + n;
      forall i | 0 <= i < used + n
        ensures Contents()[i] == (was + data[..n])[i]
      {
        if i < used {
          assert was[i] == old(buffer[Wrap(readPos, i, capacity)]);
        }
      }
    }

    /** read(): takes what there is and zero-fills the shortfall; a requested
        clear is carried out here, on the consumer's side, instead. */
    method Read(dest: array<byte>) returns (n: nat)
      requires Valid() && dest != buffer
      modifies this`readPos, this`clearRequested, dest
      ensures Valid() && buffer == old(buffer) && n <= dest.Length && n <= old(|Contents()|)
      ensures dest[..] == old(Contents())[..n] + Zeros(dest.Length - n)
      ensures capacity > 0 ==> !clearRequested
      ensures capacity == 0 ==> n == 0 && clearRequested == old(clearRequested)
      ensures capacity > 0 && old(clearRequested) ==> n == 0 && Contents() == []
      ensures capacity > 0 && !old(clearRequested) ==>
                n == Min(dest.Length, old(|Contents()|)) && Contents() == old(Contents())[n..]
    {
      n := 0;
      if capacity == 0 {
        Fill(dest, []);
        return;
      }
      if clearRequested {
        clearRequested := false;
        readPos := writePos;
        Fill(dest, []);
        return;
      }
      var available := Used(writePos, readPos, capacity);
      n := Min(dest.Length, available);
      var first := Min(n, capacity - readPos);
      var taken := buffer[readPos..readPos + first] + buffer[..n - first];
      FrontIsTwoRuns(n);
      Take(n);
      Fill(dest, taken);
    }

    /** The store of the read position that ends a read. */
    method Take(n: nat)
      requires Valid() && capacity > 0 && n <= Length()
      modifies this`readPos
      ensures Valid() && Contents() == old(Contents())[n..]
    {
      readPos := Wrap(readPos, n, capacity);
    }

    /** The first `n` bytes run up to the end of the buffer and on from its start. */
    lemma FrontIsTwoRuns(n: nat)
      requires Valid() && capacity > 0 && n <= Length()
      ensures var first := Min(n, capacity - readPos);
              first <= n && Contents()[..n] == buffer[readPos..readPos + first] + buffer[..n - first]
    {
    }

    /** The copy out and the memset of whatever it left short. */
    method Fill(dest: array<byte>, taken: seq<byte>)
      requires |taken| <= dest.Length
      modifies dest
      ensures dest[..] == taken + Zeros(dest.Length - |taken|)
    {
      var i := 0;
      while i < dest.Length
        invariant 0 <= i <= dest.Length
        invariant forall k :: 0 <= k < i ==> dest[k] == if k < |taken| then taken[k] else 0
      {
        dest[i] := if i < |taken| then taken[i] else 0;
        i := i + 1;
      }
    }

    /** request_clear(): only asks; nothing moves until the next read. */
    method RequestClear()
      requires Valid()
      modifies this`clearRequested
      ensures Valid() && clearRequested && Contents() == old(Contents())
    {
      clearRequested := true;
    }

    /** drop(): empties the ring and forgets a pending clear. */
    method Drop()
      requires Valid()
      modifies this`clearRequested, this`readPos, this`writePos
      ensures Valid() && Contents() == [] && !clearRequested && buffer == old(buffer) && capacity == old(capacity)
    {
      clearRequested, readPos, writePos := false, 0, 0;
    }

    method Reset(newCapacity: nat)
      requires Valid()
      modifies this
      ensures Valid() && fresh(buffer) && capacity == newCapacity && Contents() == [] && !clearRequested
    {
      buffer := new byte[newCapacity](_ => 0);
      capacity := newCapacity;
      clearRequested, readPos, writePos := false, 0, 0;
    }
  }
}

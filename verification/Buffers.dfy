/** A growable byte buffer that shows when it had to move.

    Buffers holding secrets are allocated once at their cap, because growing would
    leave the old allocation behind unwiped. `moves` counts every reallocation. */
module Buffers {
  import opened Basics

  class Buffer {
    var data: array<Byte>
    var len: nat
    var moves: nat

    ghost predicate Valid()
      reads this
    {
      len <= data.Length
    }

    ghost function Contents(): Bytes
      requires Valid()
      reads this, data
    {
      data[..len]
    }

    constructor (capacity: nat)
      ensures Valid() && Contents() == [] && fresh(data)
      ensures data.Length == capacity && moves == 0
    {
      data := new Byte[capacity](_ => 0);
      len, moves := 0, 0;
    }

    /** Append, moving to a larger allocation only when the bytes do not fit. */
    method Extend(chunk: Bytes)
      requires Valid()
      modifies this, data
      ensures Valid() && Contents() == old(Contents()) + chunk
      ensures old(len) + |chunk| <= old(data.Length) ==> data == old(data) && moves == old(moves)
      ensures data == old(data) || fresh(data)
    {
      ghost var before := Contents();
      if len + |chunk| > data.Length {
        var larger := new Byte[len + |chunk|](_ => 0);
        forall i | 0 <= i < len {
          larger[i] := data[i];
        }
        data, moves := larger, moves + 1;
      }
      assert data[..len] == before;
      forall i | 0 <= i < |chunk| {
        data[len + i] := chunk[i];
      }
      len := len + |chunk|;
      assert data[..len] == before + chunk;
    }

    /** Bring `data[from..end]` to the front, within the same allocation. */
    method CopyToFront(from: nat, end: nat)
      requires Valid() && from <= end <= len
      modifies data
      ensures Valid() && len == old(len)
      ensures Contents() == old(Contents()[from..end] + Contents()[end - from..])
    {
      ghost var before := data[..];
      var n := end - from;
      for i := 0 to n
        invariant forall k | 0 <= k < i :: data[k] == before[from + k]
        invariant forall k | i <= k < data.Length :: data[k] == before[k]
      {
        data[i] := data[from + i];
      }
      assert data[..n] == before[from..end] && data[n..len] == before[n..len];
      assert data[..len] == data[..n] + data[n..len];
    }

    /** Forget everything past the first `n` bytes; the allocation stays. */
    method Truncate(n: nat)
      requires Valid() && n <= len
      modifies `len
      ensures Valid() && Contents() == old(Contents())[..n]
    {
      len := n;
    }
  }
}

/** `Stream_buffer::Buffer` (include/stream-buffer/stream-buffer.h, src/buffer.cpp):
    a byte store of fixed capacity with a fill level. The `std::vector`'s
    storage is an array whose length is the capacity; the bytes in use are
    the first `level` of it. */
module StreamBuffer {
  import opened Native

  class Buffer {
    var storage: array<byte>
    var level: nat

    /** The object invariant: the fill level never exceeds the capacity. */
    ghost predicate Valid()
      reads this
    {
      level <= storage.Length
    }

    /** The buffered bytes, oldest first. */
    ghost function Contents(): seq<byte>
      reads this, storage
      requires Valid()
    {
      storage[..level]
    }

    /** `buffer.capacity()`, modelled as exactly the size last requested. */
    function Capacity(): nat
      reads this
    {
      storage.Length
    }

    /** `Buffer(sz)`: `reserve(sz)` then `resize(capacity())`, so storage of
        `sz` value-initialised bytes and an empty fill. */
    constructor (sz: nat)
      ensures Valid() && fresh(storage)
      ensures Capacity() == sz && level == 0 && Contents() == []
      ensures storage[..] == seq(sz, _ => 0)
    {
      storage := new byte[sz](_ => 0);
      level := 0;
    }

    /** `left()`: the room still free. */
    function Left(): (n: nat)
      reads this, storage
      requires Valid()
      ensures n + |Contents()| == Capacity()
    {
      storage.Length - level
    }

    /** `size()`: the number of buffered bytes. */
    function Size(): (n: nat)
      reads this, storage
      requires Valid()
      ensures n == |Contents()| && n <= Capacity()
    {
      level
    }

    /** `full()`: no room is left. */
    function Full(): (b: bool)
      reads this, storage
      requires Valid()
      ensures b <==> |Contents()| == Capacity()
      ensures b <==> Left() == 0
    {
      level == storage.Length
    }

    /** `head()`: the offset in `storage` where the next read writes, just
        past the buffered bytes. */
    function Head(): (h: nat)
      reads this, storage
      requires Valid()
      ensures h == |Contents()| && h + Left() == Capacity()
    {
      level
    }

    /** `grow(n)`: `level += n`, with nothing checked. The invariant survives
        exactly when `n` is within `left()`; then the `n` bytes just written at
        `head()` become the newest buffered bytes. */
    method Grow(n: nat)
      requires Valid()
      modifies this`level
      ensures level == old(level) + n
      ensures Valid() <==> n <= old(Left())
      ensures Valid() ==> Contents() == old(Contents()) + storage[old(level)..level]
    {
      level := level + n;
    }

    /** `drain()`: moves the storage out, cut to the buffered bytes, and leaves
        a fresh zero-filled storage of the same capacity behind, empty. */
    method Drain() returns (x: seq<byte>)
      requires Valid()
      modifies this
      ensures x == old(Contents())
      ensures Valid() && level == 0 && Contents() == []
      ensures fresh(storage) && Capacity() == old(Capacity())
      ensures storage[..] == seq(Capacity(), _ => 0)
    {
      x := storage[..level];
      storage := new byte[storage.Length](_ => 0);
      level := 0;
    }

    /** `resize(n)`: replaces the storage by `n` zero bytes and returns the old
        capacity. It does not touch `level`, so the invariant holds afterwards
        only if the old level fits in `n`; the engine drains first. */
    method Resize(n: nat) returns (oldCapacity: nat)
      modifies this
      ensures oldCapacity == old(Capacity())
      ensures fresh(storage) && Capacity() == n
      ensures storage[..] == seq(n, _ => 0)
      ensures level == old(level)
      ensures Valid() <==> old(level) <= n
    {
      oldCapacity := storage.Length;
      storage := new byte[n](_ => 0);
    }
  }

  /** Draining twice: the second drain finds nothing, and the capacity is
      never changed. */
  method DrainTwice(b: Buffer) returns (first: seq<byte>, second: seq<byte>)
    requires b.Valid()
    modifies b
    ensures first == old(b.Contents()) && second == []
    ensures b.Valid() && b.Contents() == [] && b.Capacity() == old(b.Capacity())
  {
    first := b.Drain();
    second := b.Drain();
  }

  /** Writing bytes at `head()` and growing by their number, then draining,
      gives back the earlier contents followed by exactly those bytes. */
  method FillThenDrain(b: Buffer, data: seq<byte>) returns (drained: seq<byte>)
    requires b.Valid() && |data| <= b.Left()
    modifies b, b.storage
    ensures drained == old(b.Contents()) + data
    ensures b.Valid() && b.Contents() == [] && b.Capacity() == old(b.Capacity())
  {
    var h := b.Head();
    forall i | 0 <= i < |data| {
      b.storage[h + i] := data[i];
    }
    assert b.storage[h..h + |data|] == data;
    b.Grow(|data|);
    drained := b.Drain();
  }
}

/**
 The growable byte buffer of src/nugu_buffer.c.

 Contents() is the abstract value: the first `index` bytes of the storage. Every method states what
 it does to that sequence. Sizes is the bookkeeping of the storage alone, and what is proved about it
 (GrowthOverRuns) bounds the capacity and the cost of all reallocations on every run.
 */
module ByteBuffer {
  import opened Bytes

  const DEFAULT_BUFFER_SIZE: nat := 1024

  function Max(a: nat, b: nat): nat {
    if a < b then b else a
  }

  /** The capacity after _buffer_resize. */
  function Grown(alloc: nat, needed: nat): nat {
    if alloc < needed then alloc + needed * 2 else alloc + alloc
  }

  /** `peak` is the largest index so far and `copied` the number of bytes that reallocations moved so far. */
  datatype Sizes = Sizes(initial: nat, alloc: nat, index: nat, peak: nat, copied: nat) {
    ghost predicate Ok() {
      && index <= alloc && index <= peak
      && 0 < initial && copied + initial <= alloc
      && alloc <= Max(initial, 3 * peak)
    }

    function Add(n: nat): (s: Sizes)
      requires index <= alloc
    {
      if alloc - index < n then
        Sizes(initial, Grown(alloc, n), index + n, Max(peak, index + n), copied + alloc)
      else
        this.(index := index + n, peak := Max(peak, index + n))
    }

    function Shrink(n: nat): Sizes {
      if n <= index then this.(index := n) else this
    }
  }

  function Fresh(defaultSize: nat): (s: Sizes)
    ensures s.Ok()
    ensures s.alloc == if defaultSize == 0 then 1024 else defaultSize
  {
    var size := if defaultSize == 0 then DEFAULT_BUFFER_SIZE else defaultSize;
    Sizes(size, size, 0, 0, 0)
  }

  datatype SizeOp = AddOp(n: nat) | ShrinkOp(n: nat)

  function RunSizes(s: Sizes, ops: seq<SizeOp>): Sizes
    requires s.Ok()
    decreases |ops|
  {
    if ops == [] then s
    else
      AddKeepsOk(s, ops[0].n);
      RunSizes(if ops[0].AddOp? then s.Add(ops[0].n) else s.Shrink(ops[0].n), ops[1..])
  }

  /** One reallocation always makes room. */
  lemma AddKeepsOk(s: Sizes, n: nat)
    requires s.Ok()
    ensures s.Add(n).Ok()
    ensures s.index + n <= s.Add(n).alloc
    ensures s.Shrink(n).Ok()
  {
  }

  /**
   A buffer that had to grow has at least doubled; and if the addition was larger than the buffer had been, there is
   room behind it for another one of that size.
   */
  lemma RoomBehind(s: Sizes, n: nat)
    requires s.Ok() && s.alloc - s.index < n
    ensures var t := s.Add(n);
            && t.alloc >= 2 * s.alloc && t.index == s.index + n
            && (s.alloc >= n ==> t.alloc == 2 * s.alloc)
            && (s.alloc < n ==> t.alloc - t.index >= n)
  {
  }

  lemma {:induction false} RunSizesOk(s: Sizes, ops: seq<SizeOp>)
    requires s.Ok()
    ensures RunSizes(s, ops).Ok() && RunSizes(s, ops).initial == s.initial
    ensures RunSizes(s, ops).alloc >= s.alloc
    decreases |ops|
  {
    if ops != [] {
      AddKeepsOk(s, ops[0].n);
      RunSizesOk(if ops[0].AddOp? then s.Add(ops[0].n) else s.Shrink(ops[0].n), ops[1..]);
    }
  }

  /**
   On every run of additions and removals the capacity is at most the larger of the initial capacity and
   three times the peak length, and all bytes ever moved by reallocations number less than the final capacity.
   */
  lemma GrowthOverRuns(defaultSize: nat, ops: seq<SizeOp>)
    ensures var end := RunSizes(Fresh(defaultSize), ops);
            && end.index <= end.alloc <= Max(Fresh(defaultSize).initial, 3 * end.peak)
            && end.copied < end.alloc
  {
    RunSizesOk(Fresh(defaultSize), ops);
  }

  class Buffer {
    var data: array<byte>
    var index: nat
    ghost var sizes: Sizes
    ghost var moved: nat

    ghost predicate Valid()
      reads this, data
    {
      && index <= data.Length && sizes.Ok() && sizes.alloc == data.Length && sizes.index == index
      && sizes.copied == moved
    }

    ghost function Contents(): seq<byte>
      reads this, data
      requires Valid()
    {
      data[..index]
    }

    constructor (defaultSize: nat)
      ensures Valid() && fresh(data)
      ensures Contents() == [] && sizes == Fresh(defaultSize)
    {
      var size := if defaultSize == 0 then DEFAULT_BUFFER_SIZE else defaultSize;
      data := new byte[size](_ => NUL);
      index := 0;
      sizes, moved := Fresh(defaultSize), 0;
    }

    /** realloc: the bytes move, each counted in `moved`; the added room is not initialised. */
    method Resize(needed: nat)
      requires Valid()
      modifies this`data, this`moved
      ensures fresh(data) && data.Length == Grown(old(data.Length), needed)
      ensures moved == old(moved) + old(data.Length)
      ensures data[..old(data.Length)] == old(data[..])
    {
      var newSize := data.Length;
      if data.Length < needed {
        newSize := newSize + needed * 2;
      } else {
        newSize := newSize + data.Length;
      }
      var tmp := new byte[newSize];
      forall i | 0 <= i < data.Length {
        tmp[i] := data[i];
      }
      assert tmp[..data.Length] == data[..];
      moved := moved + data.Length;
      data := tmp;
    }

    /** memcpy behind the contents. */
    method CopyIn(bytes: seq<byte>)
      requires index + |bytes| <= data.Length
      modifies data
      ensures data[..index + |bytes|] == old(data[..index]) + bytes
    {
      forall i | 0 <= i < |bytes| {
        data[index + i] := bytes[i];
      }
    }

    method Add(bytes: seq<byte>) returns (ret: int)
      requires Valid()
      modifies this, data
      ensures Valid() && (data == old(data) || fresh(data))
      ensures ret == if bytes == [] then -1 else |bytes|
      ensures Contents() == old(Contents()) + bytes
      ensures sizes == if bytes == [] then old(sizes) else old(sizes).Add(|bytes|)
    {
      if |bytes| == 0 {
        return -1;
      }
      AddKeepsOk(sizes, |bytes|);
      ghost var before := Contents();
      if data.Length - index < |bytes| {
        Resize(|bytes|);
      }
      CopyIn(bytes);
      sizes := sizes.Add(|bytes|);
      index := index + |bytes|;
      return |bytes|;
    }

    method Peek() returns (bytes: seq<byte>)
      requires Valid()
      ensures bytes == Contents()
    {
      bytes := data[..index];
    }

    method FindByte(want: byte) returns (pos: Option<nat>)
      requires Valid()
      ensures pos.Some? ==> pos.value < index && data[pos.value] == want && want !in data[..pos.value]
      ensures pos.None? ==> want !in Contents()
    {
      var at := 0;
      while at != index
        invariant at <= index
        invariant want !in data[..at]
      {
        if data[at] == want {
          return Some(at);
        }
        at := at + 1;
      }
      return None;
    }

    /** memset of everything from `from` on. */
    method Zero(from: nat)
      requires from <= data.Length
      modifies data
      ensures data[..from] == old(data[..from])
      ensures forall i :: from <= i < data.Length ==> data[i] == NUL
    {
      forall i | from <= i < data.Length {
        data[i] := NUL;
      }
    }

    method Clear()
      requires Valid()
      modifies this, data
      ensures Valid() && data == old(data)
      ensures Contents() == [] && sizes == old(sizes).Shrink(0)
      ensures forall i :: 0 <= i < data.Length ==> data[i] == NUL
    {
      Zero(0);
      index := 0;
      sizes := sizes.Shrink(0);
    }

    method ClearFrom(pos: nat) returns (ret: int)
      requires Valid()
      modifies this, data
      ensures Valid() && data == old(data)
      ensures ret == if pos <= old(index) then 0 else -1
      ensures Contents() == if pos <= old(index) then old(Contents())[..pos] else old(Contents())
      ensures sizes == old(sizes).Shrink(pos)
      ensures ret == 0 ==> forall i :: pos <= i < data.Length ==> data[i] == NUL
    {
      if pos > index {
        return -1;
      }
      Zero(pos);
      index := index - (index - pos);
      sizes := sizes.Shrink(pos);
      assert Contents() == old(Contents())[..pos];
      return 0;
    }

    /** The first pointer loop of shift_left. */
    method MoveLeft(size: nat)
      requires size <= index <= data.Length
      modifies data
      ensures data[..index - size] == old(data[size..index])
    {
      ghost var before := data[..];
      var dst, src := 0, size;
      while src != index
        invariant size <= src <= index && dst == src - size
        invariant forall i :: 0 <= i < dst ==> data[i] == before[i + size]
        invariant forall i :: dst <= i < data.Length ==> data[i] == before[i]
      {
        data[dst] := data[src];
        src := src + 1;
        dst := dst + 1;
      }
    }

    /** The second pointer loop of shift_left. */
    method ZeroBetween(from: nat, to: nat)
      requires from <= to <= data.Length
      modifies data
      ensures data[..from] == old(data[..from])
      ensures forall i :: from <= i < to ==> data[i] == NUL
    {
      var dst := from;
      while dst != to
        invariant from <= dst <= to
        invariant data[..from] == old(data[..from])
        invariant forall i :: from <= i < dst ==> data[i] == NUL
      {
        data[dst] := NUL;
        dst := dst + 1;
      }
    }

    method ShiftLeft(size: nat)
      requires Valid()
      modifies this, data
      ensures Valid() && data == old(data)
      ensures Contents() == if size >= old(index) then [] else old(Contents())[size..]
      ensures forall i :: index <= i < old(index) ==> data[i] == NUL
      ensures sizes == old(sizes).Shrink(index)
    {
      if size >= index {
        Clear();
        return;
      }
      MoveLeft(size);
      ZeroBetween(index - size, index);
      index := index - size;
      sizes := sizes.Shrink(index);
      assert Contents() == old(Contents())[size..];
    }

    /** The first `size` bytes, all when size is 0 or too large; the C string it returns ends in one more NUL. */
    method Pop(size: nat) returns (taken: seq<byte>)
      requires Valid()
      modifies this, data
      ensures Valid() && data == old(data)
      ensures taken + Contents() == old(Contents())
      ensures |taken| == if size == 0 || size > old(index) then old(index) else size
      ensures sizes == old(sizes).Shrink(index)
    {
      var n := if size == 0 || size > index then index else size;
      taken := data[..n];
      ShiftLeft(n);
      assert taken + Contents() == old(Contents());
    }
  }
}

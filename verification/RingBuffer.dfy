/**
 The item-granular ring buffer of src/nugu_ringbuffer.c: bytes are pushed in any
 amount, items of a fixed size are read back.

 Ring is the value of the C struct and carries one function for each operation; the
 class RingBuffer updates its fields in place and is proved against those functions.
 What the operations mean, over whole runs, is stated in RingBufferRuns.
 */
module RingBuffer {
  import opened Bytes

  /** The two memcpy calls of a push: data goes in at `at`, wrapping round the end of the storage once. */
  function Overwrite(storage: seq<byte>, at: nat, data: seq<byte>): seq<byte>
    requires at <= |storage| && |data| <= |storage|
  {
    if at + |data| > |storage| then
      var diff := |storage| - at;
      data[diff..] + storage[|data| - diff..at] + data[..diff]
    else
      storage[..at] + data + storage[at + |data|..]
  }

  datatype Ring = Ring(
    buf: seq<byte>,
    itemSize: int,
    maxItems: int,
    readIndex: int,
    count: int,
    woffset: int)
  {
    ghost predicate Shape() {
      itemSize > 0 && maxItems > 0 && |buf| == itemSize * maxItems
    }

    /** What push needs of the offsets to stay inside the storage. */
    ghost predicate WriteSafe() {
      Shape() && 0 <= woffset <= |buf|
    }

    /** The read index denotes an item of the storage as well. */
    ghost predicate InBounds() {
      WriteSafe() && 0 <= readIndex < maxItems && 0 <= count
    }

    /** What read alone needs: the read index denotes an item of the storage if there is one to read. */
    ghost predicate ReadSafe() {
      Shape() && (count > 0 ==> 0 <= readIndex < maxItems)
    }

    /** The number of items that a push of `size` bytes touches, as push_data computes it. */
    function WriteItems(size: nat): int
      requires itemSize > 0
    {
      var temp := woffset - woffset / itemSize * itemSize;
      var temp2 := size % itemSize;
      var temp3 := (temp + temp2) % itemSize;
      size / itemSize + (temp + temp2) / itemSize + (if temp3 != 0 then 1 else 0)
    }

    /** _calculate_count. */
    function NewCount(writeItems: int, size: nat): int
      requires itemSize > 0
    {
      var writeIndex := woffset / itemSize;
      var newWriteIndex := (woffset + size) / itemSize;
      if writeItems + count > maxItems then maxItems
      else if readIndex > writeIndex then maxItems - (readIndex - newWriteIndex)
      else newWriteIndex - readIndex
    }

    function NewReadIndex(writeItems: int): int {
      if writeItems + count > maxItems then
        if readIndex + writeItems >= maxItems then readIndex + writeItems - maxItems else readIndex + writeItems
      else readIndex
    }

    predicate Accepts(size: nat) {
      0 < size <= |buf|
    }

    function Written(data: seq<byte>): seq<byte>
      requires 0 <= woffset <= |buf| && |data| <= |buf|
    {
      Overwrite(buf, woffset, data)
    }

    function NewOffset(size: nat): int {
      if woffset + size > |buf| then size - (|buf| - woffset) else woffset + size
    }

    /** nugu_ring_buffer_push_data: the buffer afterwards and the code returned. */
    function Push(data: seq<byte>): (Ring, int)
      requires WriteSafe()
    {
      if !Accepts(|data|) then (this, -1)
      else
        var writeItems := WriteItems(|data|);
        (Ring(Written(data), itemSize, maxItems, NewReadIndex(writeItems), NewCount(writeItems, |data|),
              NewOffset(|data|)),
         0)
    }

    /** nugu_ring_buffer_read_item: the buffer afterwards and the bytes copied out (none when it is empty). */
    function Read(): (Ring, seq<byte>)
      requires ReadSafe()
    {
      if count <= 0 then (this, [])
      else
        ItemFits(itemSize, maxItems, readIndex);
        (this.(readIndex := if readIndex + 1 == maxItems then 0 else readIndex + 1, count := count - 1),
         buf[readIndex * itemSize..readIndex * itemSize + itemSize])
    }

    function Cleared(): Ring {
      this.(readIndex := 0, woffset := 0, count := 0)
    }
  }

  function Empty(itemSize: int, maxItems: int): (r: Ring)
    requires itemSize > 0 && maxItems > 0
    ensures r.InBounds()
  {
    assert itemSize * maxItems >= 0;
    Ring(seq(itemSize * maxItems, _ => 0), itemSize, maxItems, 0, 0, 0)
  }

  lemma ItemFits(itemSize: int, maxItems: int, index: int)
    requires itemSize > 0 && 0 <= index < maxItems
    ensures 0 <= index * itemSize
    ensures index * itemSize + itemSize <= itemSize * maxItems
  {
    assert (index + 1) * itemSize <= maxItems * itemSize;
  }

  class RingBuffer {
    var buf: array<byte>
    var itemSize: int
    var maxItems: int
    var readIndex: int
    var count: int
    var woffset: int

    ghost predicate Valid()
      reads this, buf
    {
      View().WriteSafe()
    }

    ghost function View(): Ring
      reads this, buf
    {
      Ring(buf[..], itemSize, maxItems, readIndex, count, woffset)
    }

    constructor (itemSize: int, maxItems: int)
      requires itemSize > 0 && maxItems > 0
      ensures Valid() && fresh(buf)
      ensures View() == Empty(itemSize, maxItems)
    {
      assert itemSize * maxItems >= 0;
      buf := new byte[itemSize * maxItems](_ => 0);
      this.itemSize, this.maxItems := itemSize, maxItems;
      readIndex, woffset, count := 0, 0, 0;
      new;
      assert buf[..] == seq(itemSize * maxItems, _ => 0);
    }

    method Resize(itemSize: int, maxItems: int) returns (ret: int)
      requires Valid()
      modifies this
      ensures Valid() && (buf == old(buf) || fresh(buf))
      ensures ret == if itemSize > 0 && maxItems > 0 then 0 else -1
      ensures ret == -1 || (itemSize == old(this.itemSize) && maxItems == old(this.maxItems)) ==> View() == old(View())
      ensures ret == 0 && !(itemSize == old(this.itemSize) && maxItems == old(this.maxItems)) ==>
                View() == Empty(itemSize, maxItems)
    {
      if itemSize <= 0 || maxItems <= 0 {
        return -1;
      }
      if itemSize == this.itemSize && maxItems == this.maxItems {
        return 0;
      }
      assert itemSize * maxItems >= 0;
      buf := new byte[itemSize * maxItems](_ => 0);
      this.itemSize, this.maxItems := itemSize, maxItems;
      readIndex, woffset, count := 0, 0, 0;
      assert buf[..] == seq(itemSize * maxItems, _ => 0);
      return 0;
    }

    method CalculateCount(writeItem: int, size: nat)
      requires Valid()
      modifies this`count
      ensures count == old(View()).NewCount(writeItem, size)
    {
      var writeIndex := woffset / itemSize;
      var newWriteIndex := (woffset + size) / itemSize;
      if writeItem + count > maxItems {
        count := maxItems;
      } else if readIndex > writeIndex {
        count := maxItems - (readIndex - newWriteIndex);
      } else {
        count := newWriteIndex - readIndex;
      }
    }

    /** memcpy into the storage. */
    method CopyIn(at: nat, data: seq<byte>)
      requires at + |data| <= buf.Length
      modifies buf
      ensures buf[..] == old(buf[..at]) + data + old(buf[at + |data|..])
    {
      forall i | 0 <= i < |data| {
        buf[at + i] := data[i];
      }
    }

    method CopyWrapped(at: nat, data: seq<byte>)
      requires at <= buf.Length && |data| <= buf.Length
      modifies buf
      ensures buf[..] == Overwrite(old(buf[..]), at, data)
    {
      if at + |data| > buf.Length {
        var diff := buf.Length - at;
        CopyIn(at, data[..diff]);
        assert buf[..] == old(buf[..at]) + data[..diff];
        CopyIn(0, data[diff..]);
      } else {
        CopyIn(at, data);
      }
    }

    /** The copying half of push_data. */
    method Store(data: seq<byte>)
      requires Valid() && |data| <= buf.Length
      modifies this`woffset, buf
      ensures buf[..] == old(View()).Written(data)
      ensures woffset == old(View()).NewOffset(|data|)
      ensures 0 <= woffset <= buf.Length
    {
      CopyWrapped(woffset, data);
      if woffset + |data| > buf.Length {
        woffset := |data| - (buf.Length - woffset);
      } else {
        woffset := woffset + |data|;
      }
    }

    /** The counting half of push_data: make room by moving the read index when the data does not fit. */
    method Reserve(size: nat)
      requires Valid()
      modifies this`count, this`readIndex
      ensures count == old(View()).NewCount(old(View()).WriteItems(size), size)
      ensures readIndex == old(View()).NewReadIndex(old(View()).WriteItems(size))
    {
      var temp := woffset - woffset / itemSize * itemSize;
      var temp2 := size % itemSize;
      var temp3 := (temp + temp2) % itemSize;
      var writeItem := size / itemSize + (temp + temp2) / itemSize;
      if temp3 != 0 {
        writeItem := writeItem + 1;
      }
      var previous := count;
      CalculateCount(writeItem, size);
      if writeItem + previous > maxItems {
        readIndex := readIndex + writeItem;
        if readIndex >= maxItems {
          readIndex := readIndex - maxItems;
        }
      }
    }

    method PushData(data: seq<byte>) returns (ret: int)
      requires Valid()
      modifies this, buf
      ensures Valid() && buf == old(buf)
      ensures (View(), ret) == old(View()).Push(data)
    {
      if |data| == 0 || buf.Length < |data| {
        return -1;
      }
      Reserve(|data|);
      Store(data);
      return 0;
    }

    method ReadItem() returns (item: seq<byte>)
      requires Valid() && View().ReadSafe()
      modifies this
      ensures Valid() && buf == old(buf)
      ensures (View(), item) == old(View()).Read()
    {
      if count <= 0 {
        return [];
      }
      ItemFits(itemSize, maxItems, readIndex);
      item := buf[readIndex * itemSize..readIndex * itemSize + itemSize];
      assert item == buf[..][readIndex * itemSize..readIndex * itemSize + itemSize];
      readIndex := readIndex + 1;
      count := count - 1;
      if readIndex == maxItems {
        readIndex := 0;
      }
    }

    method ClearItems()
      requires Valid()
      modifies this
      ensures Valid() && buf == old(buf)
      ensures View() == old(View()).Cleared()
    {
      readIndex, woffset, count := 0, 0, 0;
    }
  }
}

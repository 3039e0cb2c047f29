/**
 What the ring buffer means: a queue of pending bytes that is read an item at a time.

 Holds(rb, pending) relates the storage to the bytes not yet read. PushStep gives the exact
 condition under which a push keeps that relation, Fifo states the queue law over whole runs,
 and IndexStep the exact condition under which the read index stays inside the storage.
 */
module RingBufferRuns {
  import opened Bytes
  import opened RingBuffer

  /** Reduces an offset below twice the storage size into the storage. */
  function Wrap(x: int, size: int): int {
    if x < size then x else x - size
  }

  ghost predicate Aligned(rb: Ring, pending: seq<byte>) {
    var cap := |rb.buf|;
    var end := rb.readIndex * rb.itemSize + |pending|;
    end == rb.woffset || end == rb.woffset + cap || end == rb.woffset - cap
  }

  ghost predicate Stores(rb: Ring, pending: seq<byte>)
    requires rb.InBounds() && |pending| <= |rb.buf|
  {
    forall k :: 0 <= k < |pending| ==> ByteAt(rb, k) == pending[k]
  }

  /** The k-th byte from the read position on. */
  function ByteAt(rb: Ring, k: int): byte
    requires rb.InBounds() && 0 <= k < |rb.buf|
  {
    ItemFits(rb.itemSize, rb.maxItems, rb.readIndex);
    rb.buf[Wrap(rb.readIndex * rb.itemSize + k, |rb.buf|)]
  }

  /** The storage holds exactly `pending`, starting at the read index, and counts its whole items. */
  ghost predicate Holds(rb: Ring, pending: seq<byte>) {
    && rb.InBounds()
    && |pending| <= |rb.buf|
    && rb.count == |pending| / rb.itemSize
    && Aligned(rb, pending)
    && Stores(rb, pending)
  }

  /** The specification of a push: everything when it fits, else as few whole old items dropped as make room. */
  function KeepNewest(pending: seq<byte>, data: seq<byte>, itemSize: int, capacity: int): seq<byte>
    requires itemSize > 0 && 0 <= capacity && |data| <= capacity
  {
    var all := pending + data;
    if |all| <= capacity then all
    else
      var drop := (|all| - capacity + itemSize - 1) / itemSize * itemSize;
      if drop <= |all| then all[drop..] else []
  }

  predicate Overflows(rb: Ring, size: nat)
    requires rb.itemSize > 0
  {
    rb.WriteItems(size) + rb.count > rb.maxItems
  }

  /**
   The pushes that behave: a fitting one unless the buffer is empty with the write offset resting
   at the very end of the storage, an overflowing one only when the buffer is full and whole items come in.
   */
  predicate GoodPush(rb: Ring, size: nat)
    requires rb.itemSize > 0
  {
    if Overflows(rb, size) then rb.count == rb.maxItems && size % rb.itemSize == 0
    else !(rb.woffset == |rb.buf| && rb.readIndex == 0 && rb.count == 0)
  }

  // Arithmetic.

  lemma DivUnique(x: int, d: int, q: int, r: int)
    requires d > 0 && 0 <= r < d && x == q * d + r
    ensures x / d == q && x % d == r
  {
    MulLe(x / d, q, d);
    assert (x / d - q) * d == x / d * d - q * d;
    MulLe(x / d - q, 0, d);
    MulLe(x / d - q, 1, d);
    MulLe(-1, x / d - q, d);
  }

  lemma MulLe(a: int, b: int, d: int)
    requires d > 0
    ensures a <= b <==> a * d <= b * d
    ensures a == b <==> a * d == b * d
  {
    if a < b {
      assert (b - a) * d >= 1;
    } else if b < a {
      assert (a - b) * d >= 1;
    }
  }

  lemma CeilingNumbers(w: int, size: int, d: int)
    requires d > 0 && 0 <= w && 0 < size
    ensures var t, t2 := w - w / d * d, size % d;
            var f := (t + size) / d;
            && t == w % d && 0 <= t < d
            && size / d + (t + t2) / d == f && (t + t2) % d == (t + size) % d
            && (w + size) / d == w / d + f
  {
    var t, t2 := w - w / d * d, size % d;
    var g, rest := (t + t2) / d, (t + t2) % d;
    assert (size / d + g) * d == size / d * d + g * d;
    DivUnique(t + size, d, size / d + g, rest);
    var f := (t + size) / d;
    assert (w / d + f) * d == w / d * d + f * d;
    DivUnique(w + size, d, w / d + f, rest);
  }

  lemma CeilingCovers(x: int, d: int, f: int)
    requires d > 0 && x > 0 && f == x / d
    ensures f * d <= x < (f + 1) * d
    ensures var c := if x % d == 0 then f else f + 1; x <= c * d && 1 <= c
  {
    assert (f + 1) * d == f * d + d;
    MulLe(f + 1, 0, d);
    MulLe(f, 0, d);
  }

  /** WriteItems is the ceiling of (partial item + size) / item size; one push advances the offset by so many items. */
  lemma WriteItemsCeiling(rb: Ring, size: nat) returns (t: int, f: int)
    requires rb.itemSize > 0 && 0 <= rb.woffset && 0 < size
    ensures t == rb.woffset % rb.itemSize && f == (t + size) / rb.itemSize
    ensures rb.woffset == rb.woffset / rb.itemSize * rb.itemSize + t && 0 <= t < rb.itemSize
    ensures f * rb.itemSize <= t + size < (f + 1) * rb.itemSize
    ensures rb.WriteItems(size) == if (t + size) % rb.itemSize == 0 then f else f + 1
    ensures (rb.woffset + size) / rb.itemSize == rb.woffset / rb.itemSize + f
    ensures 1 <= rb.WriteItems(size)
    ensures t + size <= rb.WriteItems(size) * rb.itemSize
  {
    t := rb.woffset - rb.woffset / rb.itemSize * rb.itemSize;
    f := (t + size) / rb.itemSize;
    CeilingNumbers(rb.woffset, size, rb.itemSize);
    CeilingCovers(t + size, rb.itemSize, f);
  }

  /** Where the bytes of a push land. */
  lemma WrittenAt(rb: Ring, data: seq<byte>, x: int)
    requires 0 <= rb.woffset <= |rb.buf| && |data| <= |rb.buf| && 0 <= x < |rb.buf|
    ensures |rb.Written(data)| == |rb.buf|
    ensures rb.Written(data)[x] ==
            if rb.woffset <= x < rb.woffset + |data| then data[x - rb.woffset]
            else if x + |rb.buf| < rb.woffset + |data| then data[x + |rb.buf| - rb.woffset]
            else rb.buf[x]
  {
  }

  /** A length that is a difference of two offsets, one of them on an item boundary. */
  lemma LengthShape(len: int, d: int, q: int, base: int, r: int, t: int)
    requires d > 0 && 0 <= t < d && r * d + len == q * d + t + base * d
    ensures len == len / d * d + t && len % d == t
  {
    assert (q + base - r) * d == q * d + base * d - r * d;
    DivUnique(len, d, q + base - r, t);
  }

  /** Where the pending bytes end, in items from the write index. */
  lemma PendingBase(rb: Ring, pending: seq<byte>) returns (base: int)
    requires Holds(rb, pending)
    ensures rb.readIndex * rb.itemSize + |pending| == rb.woffset + base * rb.itemSize
  {
    var end := rb.readIndex * rb.itemSize + |pending|;
    base := if end == rb.woffset then 0 else if end == rb.woffset + |rb.buf| then rb.maxItems else -rb.maxItems;
  }

  /** The pending bytes fill `count` whole items and the partial item at the write offset. */
  lemma PendingShape(rb: Ring, pending: seq<byte>)
    requires Holds(rb, pending)
    ensures |pending| == rb.count * rb.itemSize + rb.woffset % rb.itemSize
    ensures rb.count <= rb.maxItems
    ensures rb.count == rb.maxItems ==> |pending| == |rb.buf| && rb.woffset % rb.itemSize == 0
  {
    var d := rb.itemSize;
    var base := PendingBase(rb, pending);
    LengthShape(|pending|, d, rb.woffset / d, base, rb.readIndex, rb.woffset % d);
    MulLe(rb.count, rb.maxItems, d);
  }

  // One push.

  lemma FittingSize(rb: Ring, pending: seq<byte>, data: seq<byte>)
    requires Holds(rb, pending) && rb.Accepts(|data|) && !Overflows(rb, |data|)
    ensures |pending| + |data| <= |rb.buf|
    ensures rb.count < rb.maxItems
  {
    PendingShape(rb, pending);
    var t, f := WriteItemsCeiling(rb, |data|);
    SumLe(rb.count, rb.WriteItems(|data|), rb.maxItems, rb.itemSize);
  }

  lemma SumLe(a: int, b: int, m: int, d: int)
    requires d > 0 && a + b <= m
    ensures a * d + b * d <= d * m
  {
    MulLe(a + b, m, d);
    assert (a + b) * d == a * d + b * d;
  }

  /** Where the offsets of a holding buffer stand, in items: end of the pending items against the write index. */
  lemma ItemPositions(rb: Ring, pending: seq<byte>)
    requires Holds(rb, pending)
    ensures var w, end := rb.woffset / rb.itemSize, rb.readIndex + rb.count;
            && (end == w || end == w + rb.maxItems || end == w - rb.maxItems)
            && 0 <= w <= rb.maxItems
            && (w == rb.maxItems ==> rb.woffset == |rb.buf|)
            && (end == w - rb.maxItems <==> rb.readIndex * rb.itemSize + |pending| == rb.woffset - |rb.buf|)
  {
    PendingShape(rb, pending);
    var d, t := rb.itemSize, rb.woffset % rb.itemSize;
    ItemUnits(d, rb.maxItems, rb.readIndex, rb.count, rb.woffset / d, t);
    WriteIndexBounds(rb.woffset, d, rb.maxItems);
  }

  lemma WriteIndexBounds(w: int, d: int, m: int)
    requires d > 0 && 0 <= w <= d * m
    ensures 0 <= w / d <= m
    ensures w / d == m ==> w == d * m
    ensures w == w / d * d + w % d
  {
    MulLe(m + 1, w / d, d);
    MulLe(0, w / d + 1, d);
    assert (m + 1) * d == d * m + d;
    assert (w / d + 1) * d == w / d * d + d;
  }

  lemma ItemUnits(d: int, m: int, r: int, c: int, w: int, t: int)
    requires d > 0
    ensures r * d + (c * d + t) == w * d + t <==> r + c == w
    ensures r * d + (c * d + t) == w * d + t + d * m <==> r + c == w + m
    ensures r * d + (c * d + t) == w * d + t - d * m <==> r + c == w - m
  {
    assert (r + c) * d == r * d + c * d;
    assert (w + m) * d == w * d + d * m;
    assert (w - m) * d == w * d - d * m;
    MulLe(r + c, w, d);
    MulLe(r + c, w + m, d);
    MulLe(r + c, w - m, d);
  }

  lemma FittingCount(rb: Ring, pending: seq<byte>, data: seq<byte>)
    requires Holds(rb, pending) && rb.Accepts(|data|) && !Overflows(rb, |data|)
    ensures rb.NewCount(rb.WriteItems(|data|), |data|)
         == (|pending| + |data|) / rb.itemSize + (if GoodPush(rb, |data|) then 0 else rb.maxItems)
    ensures !GoodPush(rb, |data|) <==> rb.readIndex * rb.itemSize + |pending| == rb.woffset - |rb.buf|
  {
    FittingSize(rb, pending, data);
    PendingShape(rb, pending);
    ItemPositions(rb, pending);
    var t, f := WriteItemsCeiling(rb, |data|);
    AddItems(rb.itemSize, rb.count, t, |data|, f);
    assert 0 == 0 * rb.itemSize;
  }

  lemma AddItems(d: int, c: int, t: int, size: int, f: int)
    requires d > 0 && f * d <= t + size < (f + 1) * d
    ensures (c * d + t + size) / d == c + f
  {
    assert (c + f) * d == c * d + f * d;
    assert (f + 1) * d == f * d + d;
    DivUnique(c * d + t + size, d, c + f, t + size - f * d);
  }

  /** The buffer after a push that fits, when its count comes out right. */
  function Appended(rb: Ring, total: nat, data: seq<byte>): Ring
    requires rb.WriteSafe() && |data| <= |rb.buf|
  {
    Ring(rb.Written(data), rb.itemSize, rb.maxItems, rb.readIndex, total / rb.itemSize, rb.NewOffset(|data|))
  }

  lemma AppendedBytes(rb: Ring, pending: seq<byte>, data: seq<byte>)
    requires Holds(rb, pending) && rb.Accepts(|data|) && |pending| + |data| <= |rb.buf|
    requires rb.readIndex * rb.itemSize + |pending| != rb.woffset - |rb.buf|
    ensures Appended(rb, |pending| + |data|, data).InBounds()
    ensures Stores(Appended(rb, |pending| + |data|, data), pending + data)
  {
    var rb' := Appended(rb, |pending| + |data|, data);
    ItemFits(rb.itemSize, rb.maxItems, rb.readIndex);
    WrittenAt(rb, data, 0);
    QuotientNonNegative(|pending| + |data|, rb.itemSize);
    forall k | 0 <= k < |pending + data|
      ensures ByteAt(rb', k) == (pending + data)[k]
    {
      WrittenAt(rb, data, Wrap(rb.readIndex * rb.itemSize + k, |rb.buf|));
      if k < |pending| {
        assert ByteAt(rb, k) == pending[k];
      }
    }
  }

  lemma AppendedHolds(rb: Ring, pending: seq<byte>, data: seq<byte>)
    requires Holds(rb, pending) && rb.Accepts(|data|) && |pending| + |data| <= |rb.buf|
    requires rb.readIndex * rb.itemSize + |pending| != rb.woffset - |rb.buf|
    ensures Holds(Appended(rb, |pending| + |data|, data), pending + data)
  {
    AppendedBytes(rb, pending, data);
    ItemFits(rb.itemSize, rb.maxItems, rb.readIndex);
  }

  lemma FittingPush(rb: Ring, pending: seq<byte>, data: seq<byte>)
    requires Holds(rb, pending) && rb.Accepts(|data|) && !Overflows(rb, |data|) && GoodPush(rb, |data|)
    ensures rb.Push(data).0 == Appended(rb, |pending| + |data|, data)
    ensures Holds(rb.Push(data).0, pending + data)
  {
    FittingSize(rb, pending, data);
    FittingCount(rb, pending, data);
    AppendedHolds(rb, pending, data);
  }

  lemma QuotientNonNegative(x: nat, d: int)
    requires d > 0
    ensures x / d >= 0
  {
  }

  /** Dropping a whole number of items from a full queue. */
  lemma KeepNewestFull(pending: seq<byte>, data: seq<byte>, d: int)
    requires d > 0 && |data| <= |pending| && |data| % d == 0
    ensures KeepNewest(pending, data, d, |pending|) == pending[|data|..] + data
  {
    DivUnique(|data| + d - 1, d, |data| / d, d - 1);
    assert (pending + data)[|data|..] == pending[|data|..] + data;
  }

  lemma WrapItems(d: int, m: int, r: int, n: int)
    requires d > 0
    ensures Wrap(r + n, m) * d == Wrap(r * d + n * d, d * m)
    ensures r + n < m <==> r * d + n * d < d * m
  {
    assert (r + n) * d == r * d + n * d;
    assert (r + n - m) * d == r * d + n * d - d * m;
    MulLe(m, r + n, d);
  }

  lemma OverflowingIndex(rb: Ring, pending: seq<byte>, size: nat)
    requires Holds(rb, pending) && rb.Accepts(size) && Overflows(rb, size) && GoodPush(rb, size)
    ensures var r := rb.NewReadIndex(rb.WriteItems(size));
            && 0 <= r < rb.maxItems
            && r * rb.itemSize == Wrap(rb.readIndex * rb.itemSize + size, |rb.buf|)
    ensures rb.NewCount(rb.WriteItems(size), size) == rb.maxItems == |rb.buf| / rb.itemSize
  {
    var d, m := rb.itemSize, rb.maxItems;
    PendingShape(rb, pending);
    var t, f := WriteItemsCeiling(rb, size);
    assert t == 0 && rb.WriteItems(size) == f && size == f * d;
    MulLe(f, m, d);
    WrapItems(d, m, rb.readIndex, f);
    DivUnique(|rb.buf|, d, m, 0);
  }

  /** The buffer after a push of whole items into a full buffer. */
  function Replaced(rb: Ring, data: seq<byte>, readIndex: int): Ring
    requires rb.WriteSafe() && |data| <= |rb.buf|
  {
    Ring(rb.Written(data), rb.itemSize, rb.maxItems, readIndex, rb.maxItems, rb.NewOffset(|data|))
  }

  /** The place of the k-th byte from the new read position, for a byte that stays. */
  lemma KeptPlace(start: int, w: int, n: int, cap: int, k: int)
    requires 0 <= start < cap && w <= cap && (w == start || w == start + cap) && 0 <= k && 0 <= n && n + k < cap
    ensures var x := Wrap(Wrap(start + n, cap) + k, cap);
            && 0 <= x < cap && x == Wrap(start + (n + k), cap)
            && !(w <= x < w + n) && !(x + cap < w + n)
  {
  }

  /** And for one that the push wrote. */
  lemma NewPlace(start: int, w: int, n: int, cap: int, k: int)
    requires 0 <= start < cap && w <= cap && (w == start || w == start + cap)
    requires 0 <= k < cap && n <= cap && cap <= n + k
    ensures var x := Wrap(Wrap(start + n, cap) + k, cap);
            && 0 <= x < cap
            && (w <= x < w + n ==> x - w == n + k - cap)
            && (!(w <= x < w + n) ==> x + cap < w + n && x + cap - w == n + k - cap)
  {
  }

  lemma FullOffset(rb: Ring, pending: seq<byte>)
    requires Holds(rb, pending) && |pending| == |rb.buf|
    ensures var start := rb.readIndex * rb.itemSize;
            0 <= start < |rb.buf| && (rb.woffset == start || rb.woffset == start + |rb.buf|)
  {
    ItemFits(rb.itemSize, rb.maxItems, rb.readIndex);
  }

  lemma ByteAtIs(rb: Ring, start: int, k: int)
    requires rb.InBounds() && 0 <= k < |rb.buf| && start == rb.readIndex * rb.itemSize
    ensures 0 <= Wrap(start + k, |rb.buf|) < |rb.buf|
    ensures ByteAt(rb, k) == rb.buf[Wrap(start + k, |rb.buf|)]
  {
    ItemFits(rb.itemSize, rb.maxItems, rb.readIndex);
  }

  ghost predicate Placed(buf: seq<byte>, pending: seq<byte>, start: int, k: nat)
    requires k < |pending|
  {
    var x := Wrap(start + k, |buf|);
    0 <= x < |buf| && buf[x] == pending[k]
  }

  /** The pending bytes lie in the storage from this offset on. */
  ghost predicate StoredFrom(buf: seq<byte>, pending: seq<byte>, start: int) {
    forall k :: 0 <= k < |pending| ==> Placed(buf, pending, start, k)
  }

  lemma HoldsFrom(rb: Ring, pending: seq<byte>)
    requires Holds(rb, pending)
    ensures StoredFrom(rb.buf, pending, rb.readIndex * rb.itemSize)
  {
    forall k | 0 <= k < |pending|
      ensures Placed(rb.buf, pending, rb.readIndex * rb.itemSize, k)
    {
      ByteAtIs(rb, rb.readIndex * rb.itemSize, k);
      assert ByteAt(rb, k) == pending[k];
    }
  }

  lemma StoresFrom(rb: Ring, pending: seq<byte>, start: int)
    requires rb.InBounds() && |pending| <= |rb.buf| && start == rb.readIndex * rb.itemSize
    requires StoredFrom(rb.buf, pending, start)
    ensures Stores(rb, pending)
  {
    forall k | 0 <= k < |pending|
      ensures ByteAt(rb, k) == pending[k]
    {
      assert Placed(rb.buf, pending, start, k);
      ByteAtIs(rb, start, k);
    }
  }

  /** What a push makes of one place of the storage, and of all. */
  ghost predicate WrittenTo(buf: seq<byte>, w: int, data: seq<byte>, written: seq<byte>, x: nat)
    requires x < |buf| == |written|
  {
    written[x] ==
    if w <= x < w + |data| then data[x - w]
    else if 0 <= x + |buf| - w < |data| then data[x + |buf| - w]
    else buf[x]
  }

  ghost predicate Overwritten(buf: seq<byte>, w: int, data: seq<byte>, written: seq<byte>) {
    |written| == |buf| && forall x :: 0 <= x < |buf| ==> WrittenTo(buf, w, data, written, x)
  }

  lemma WrittenOver(rb: Ring, data: seq<byte>)
    requires 0 <= rb.woffset <= |rb.buf| && |data| <= |rb.buf| && |rb.buf| > 0
    ensures Overwritten(rb.buf, rb.woffset, data, rb.Written(data))
  {
    WrittenAt(rb, data, 0);
    forall x | 0 <= x < |rb.buf|
      ensures WrittenTo(rb.buf, rb.woffset, data, rb.Written(data), x)
    {
      WrittenAt(rb, data, x);
    }
  }

  /** A push of as many bytes as are dropped into the full storage. */
  lemma WrittenFrom(buf: seq<byte>, w: int, written: seq<byte>, pending: seq<byte>, data: seq<byte>, start: int)
    requires Overwritten(buf, w, data, written) && 0 < |data| <= |buf| == |pending|
    requires 0 <= start < |buf| && w <= |buf| && (w == start || w == start + |buf|)
    requires StoredFrom(buf, pending, start)
    ensures StoredFrom(written, pending[|data|..] + data, Wrap(start + |data|, |buf|))
  {
    var after, from := pending[|data|..] + data, Wrap(start + |data|, |buf|);
    forall k | 0 <= k < |after|
      ensures Placed(written, after, from, k)
    {
      if |data| + k < |buf| {
        KeptByte(buf, w, written, pending, data, start, k);
      } else {
        NewByte(buf, w, written, data, start, k);
      }
    }
  }

  lemma KeptByte(buf: seq<byte>, w: int, written: seq<byte>, pending: seq<byte>, data: seq<byte>, start: int, k: nat)
    requires Overwritten(buf, w, data, written) && |data| + k < |buf| == |pending|
    requires 0 <= start < |buf| && w <= |buf| && (w == start || w == start + |buf|)
    requires StoredFrom(buf, pending, start)
    ensures var x := Wrap(Wrap(start + |data|, |buf|) + k, |buf|);
            0 <= x < |written| && written[x] == pending[|data| + k]
  {
    KeptPlace(start, w, |data|, |buf|, k);
    assert WrittenTo(buf, w, data, written, Wrap(Wrap(start + |data|, |buf|) + k, |buf|));
    assert Placed(buf, pending, start, |data| + k);
  }

  lemma NewByte(buf: seq<byte>, w: int, written: seq<byte>, data: seq<byte>, start: int, k: nat)
    requires Overwritten(buf, w, data, written) && |data| <= |buf| && k < |buf| <= |data| + k
    requires 0 <= start < |buf| && w <= |buf| && (w == start || w == start + |buf|)
    ensures var x := Wrap(Wrap(start + |data|, |buf|) + k, |buf|);
            0 <= x < |written| && written[x] == data[|data| + k - |buf|]
  {
    NewPlace(start, w, |data|, |buf|, k);
    assert WrittenTo(buf, w, data, written, Wrap(Wrap(start + |data|, |buf|) + k, |buf|));
  }

  lemma ReplacedBytes(rb: Ring, pending: seq<byte>, data: seq<byte>, readIndex: int)
    requires Holds(rb, pending) && rb.Accepts(|data|) && |pending| == |rb.buf|
    requires 0 <= readIndex < rb.maxItems
    requires readIndex * rb.itemSize == Wrap(rb.readIndex * rb.itemSize + |data|, |rb.buf|)
    ensures Replaced(rb, data, readIndex).InBounds()
    ensures Stores(Replaced(rb, data, readIndex), pending[|data|..] + data)
  {
    FullOffset(rb, pending);
    HoldsFrom(rb, pending);
    ReplacedInBounds(rb, data, readIndex);
    WrittenOver(rb, data);
    WrittenFrom(rb.buf, rb.woffset, rb.Written(data), pending, data, rb.readIndex * rb.itemSize);
    StoresFrom(Replaced(rb, data, readIndex), pending[|data|..] + data, readIndex * rb.itemSize);
  }

  lemma ReplacedInBounds(rb: Ring, data: seq<byte>, readIndex: int)
    requires rb.InBounds() && rb.WriteSafe() && |data| <= |rb.buf| && 0 <= readIndex < rb.maxItems
    ensures Replaced(rb, data, readIndex).InBounds()
    ensures |rb.Written(data)| == |rb.buf|
  {
    ItemFits(rb.itemSize, rb.maxItems, rb.readIndex);
    WrittenAt(rb, data, 0);
  }

  lemma OverflowingPush(rb: Ring, pending: seq<byte>, data: seq<byte>)
    requires Holds(rb, pending) && rb.Accepts(|data|) && Overflows(rb, |data|) && GoodPush(rb, |data|)
    ensures Holds(rb.Push(data).0, KeepNewest(pending, data, rb.itemSize, |rb.buf|))
  {
    PendingShape(rb, pending);
    KeepNewestFull(pending, data, rb.itemSize);
    OverflowingIndex(rb, pending, |data|);
    WrittenAt(rb, data, 0);
    ReplacedBytes(rb, pending, data, rb.NewReadIndex(rb.WriteItems(|data|)));
    ReplacedAligned(rb, pending, data, rb.NewReadIndex(rb.WriteItems(|data|)));
  }

  lemma ReplacedAligned(rb: Ring, pending: seq<byte>, data: seq<byte>, readIndex: int)
    requires Holds(rb, pending) && rb.Accepts(|data|) && |pending| == |rb.buf|
    requires readIndex * rb.itemSize == Wrap(rb.readIndex * rb.itemSize + |data|, |rb.buf|)
    ensures |rb.Written(data)| == |rb.buf|
    ensures Aligned(Replaced(rb, data, readIndex), pending[|data|..] + data)
  {
    ItemFits(rb.itemSize, rb.maxItems, rb.readIndex);
  }

  lemma SumMultiple(x: int, d: int, a: int, b: int)
    requires d > 0 && x == a * d + b * d
    ensures x % d == 0 && x / d == a + b
  {
    assert (a + b) * d == a * d + b * d;
    DivUnique(x, d, a + b, 0);
  }

  lemma KeptLength(total: int, cap: int, d: int)
    requires d > 0 && cap > 0
    requires total == cap || (total > cap && total - (total - cap + d - 1) / d * d == cap)
    ensures exists drop :: total == cap + drop * d
  {
    assert total == cap ==> total == cap + 0 * d;
    assert total > cap ==> total == cap + (total - cap + d - 1) / d * d;
  }

  /** If the storage is full of kept items after an overflow, the push ended on an item boundary. */
  lemma FullMeansBoundary(rb: Ring, pending: seq<byte>, data: seq<byte>)
    requires Holds(rb, pending) && rb.Accepts(|data|)
    requires |KeepNewest(pending, data, rb.itemSize, |rb.buf|)| == |rb.buf|
    ensures (rb.woffset % rb.itemSize + |data|) % rb.itemSize == 0
  {
    PendingShape(rb, pending);
    KeptLength(|pending| + |data|, |rb.buf|, rb.itemSize);
    var drop :| |pending| + |data| == |rb.buf| + drop * rb.itemSize;
    BoundaryNumbers(rb.itemSize, rb.maxItems, rb.count, drop, rb.woffset % rb.itemSize + |data|);
  }

  lemma BoundaryNumbers(d: int, m: int, c: int, drop: int, end: int)
    requires d > 0 && c * d + end == d * m + drop * d
    ensures end % d == 0
  {
    assert (drop - c) * d == drop * d - c * d;
    SumMultiple(end, d, m, drop - c);
  }

  /** Both ends of a full buffer coincide, so both indices moved alike: the count was a multiple of the maximum. */
  lemma FullMeansAligned(d: int, m: int, r: int, c: int, w: int, n: int, r': int, w': int)
    requires d > 0 && m > 0 && 0 <= c <= m
    requires r' == r + n || r' == r + n - m
    requires w' == w + n * d || w' == w + n * d - d * m
    requires r * d + c * d == w || r * d + c * d == w + d * m || r * d + c * d == w - d * m
    requires r' * d + d * m == w' || r' * d == w' || r' * d + d * m == w' - d * m
    ensures c == 0 || c == m
  {
    assert (r + n) * d == r * d + n * d;
    assert (r + n - m) * d == r * d + n * d - d * m;
    MulLe(c, 0, d);
    MulLe(c, m, d);
  }

  lemma OverflowIsFull(rb: Ring, pending: seq<byte>, data: seq<byte>)
    requires Holds(rb, pending) && rb.Accepts(|data|) && Overflows(rb, |data|)
    requires Holds(rb.Push(data).0, KeepNewest(pending, data, rb.itemSize, |rb.buf|))
    ensures |KeepNewest(pending, data, rb.itemSize, |rb.buf|)| == |rb.buf|
    ensures rb.Push(data).0.itemSize == rb.itemSize && |rb.Push(data).0.buf| == |rb.buf|
  {
    PendingShape(rb.Push(data).0, KeepNewest(pending, data, rb.itemSize, |rb.buf|));
    WrittenAt(rb, data, 0);
  }

  lemma FullNumbers(d: int, m: int, c: int, t: int, size: int, f: int)
    requires d > 0 && 0 <= t < d && size <= d * m && t + size == f * d
    requires f + c > m && (c == 0 || c == m) && (c == m ==> t == 0)
    ensures c == m && size % d == 0
  {
    assert (m + 1) * d == d * m + d;
    MulLe(m + 1, f, d);
    DivUnique(t + size, d, f, 0);
  }

  /** An overflowing push that holds the newest items afterwards ended on an item boundary of a full buffer. */
  lemma OverflowNeedsFull(rb: Ring, pending: seq<byte>, data: seq<byte>)
    requires Holds(rb, pending) && rb.Accepts(|data|) && Overflows(rb, |data|)
    requires Holds(rb.Push(data).0, KeepNewest(pending, data, rb.itemSize, |rb.buf|))
    ensures GoodPush(rb, |data|)
  {
    OverflowIsFull(rb, pending, data);
    FullMeansBoundary(rb, pending, data);
    OverflowCount(rb, pending, data, KeepNewest(pending, data, rb.itemSize, |rb.buf|));
  }

  lemma OverflowCount(rb: Ring, pending: seq<byte>, data: seq<byte>, kept: seq<byte>)
    requires Holds(rb, pending) && rb.Accepts(|data|) && Overflows(rb, |data|)
    requires (rb.woffset % rb.itemSize + |data|) % rb.itemSize == 0
    requires Holds(rb.Push(data).0, kept) && |kept| == |rb.buf| == |rb.Push(data).0.buf|
    ensures GoodPush(rb, |data|)
  {
    var d, m := rb.itemSize, rb.maxItems;
    var rb' := rb.Push(data).0;
    PendingShape(rb, pending);
    var t, f := WriteItemsCeiling(rb, |data|);
    assert t + |data| == f * d;
    FullMeansAligned(d, m, rb.readIndex, rb.count, rb.woffset - t, f, rb'.readIndex, rb'.woffset);
    FullNumbers(d, m, rb.count, t, |data|, f);
  }

  /** A push keeps the newest items, in order and correctly counted, exactly when it is a good one. */
  lemma PushStep(rb: Ring, pending: seq<byte>, data: seq<byte>)
    requires Holds(rb, pending) && rb.Accepts(|data|)
    ensures Holds(rb.Push(data).0, KeepNewest(pending, data, rb.itemSize, |rb.buf|)) <==> GoodPush(rb, |data|)
  {
    if GoodPush(rb, |data|) {
      if Overflows(rb, |data|) {
        OverflowingPush(rb, pending, data);
      } else {
        FittingPush(rb, pending, data);
      }
    } else {
      if Overflows(rb, |data|) {
        BadOverflow(rb, pending, data);
      } else {
        BadFittingPush(rb, pending, data);
      }
    }
  }

  lemma BadOverflow(rb: Ring, pending: seq<byte>, data: seq<byte>)
    requires Holds(rb, pending) && rb.Accepts(|data|) && Overflows(rb, |data|) && !GoodPush(rb, |data|)
    ensures !Holds(rb.Push(data).0, KeepNewest(pending, data, rb.itemSize, |rb.buf|))
  {
    if Holds(rb.Push(data).0, KeepNewest(pending, data, rb.itemSize, |rb.buf|)) {
      OverflowNeedsFull(rb, pending, data);
    }
  }

  lemma BadFittingPush(rb: Ring, pending: seq<byte>, data: seq<byte>)
    requires Holds(rb, pending) && rb.Accepts(|data|) && !Overflows(rb, |data|) && !GoodPush(rb, |data|)
    ensures !Holds(rb.Push(data).0, KeepNewest(pending, data, rb.itemSize, |rb.buf|))
  {
    FittingSize(rb, pending, data);
    FittingCount(rb, pending, data);
  }

  // Whole runs against the queue.

  datatype Op = Push(data: seq<byte>) | Read | Clear | Resize(itemSize: int, maxItems: int)

  /** The specification: a queue of bytes cut into items of a fixed size. */
  datatype Queue = Queue(pending: seq<byte>, itemSize: int, maxItems: int) {
    ghost predicate Valid() {
      itemSize > 0 && maxItems > 0 && itemSize * maxItems > 0
    }

    function Step(op: Op): (Queue, seq<byte>)
      requires Valid()
    {
      match op
      case Push(data) =>
        if 0 < |data| <= itemSize * maxItems then
          (this.(pending := KeepNewest(pending, data, itemSize, itemSize * maxItems)), [])
        else (this, [])
      case Read =>
        if |pending| < itemSize then (this, []) else (this.(pending := pending[itemSize..]), pending[..itemSize])
      case Clear => (this.(pending := []), [])
      case Resize(i, m) =>
        if i <= 0 || m <= 0 || (i == itemSize && m == maxItems) then (this, []) else (Queue([], i, m), [])
    }
  }

  function StepRing(rb: Ring, op: Op): (Ring, seq<byte>)
    requires rb.InBounds()
  {
    match op
    case Push(data) => (rb.Push(data).0, [])
    case Read => rb.Read()
    case Clear => (rb.Cleared(), [])
    case Resize(i, m) =>
      if i <= 0 || m <= 0 || (i == rb.itemSize && m == rb.maxItems) then (rb, []) else (Empty(i, m), [])
  }

  ghost predicate Represents(rb: Ring, q: Queue) {
    Holds(rb, q.pending) && q.itemSize == rb.itemSize && q.maxItems == rb.maxItems && q.Valid()
  }

  /** At every point of the run the buffer represents the queue and hands out what the queue hands out. */
  ghost predicate Simulates(rb: Ring, q: Queue, ops: seq<Op>)
    decreases |ops|
  {
    && Represents(rb, q)
    && (ops != [] ==>
          && StepRing(rb, ops[0]).1 == q.Step(ops[0]).1
          && Simulates(StepRing(rb, ops[0]).0, q.Step(ops[0]).0, ops[1..]))
  }

  predicate GoodOp(rb: Ring, op: Op)
    requires rb.itemSize > 0
  {
    op.Push? && rb.Accepts(|op.data|) ==> GoodPush(rb, |op.data|)
  }

  ghost predicate AllGood(rb: Ring, ops: seq<Op>)
    decreases |ops|
  {
    ops != [] ==> rb.InBounds() && GoodOp(rb, ops[0]) && AllGood(StepRing(rb, ops[0]).0, ops[1..])
  }

  lemma ReadBytes(rb: Ring, pending: seq<byte>)
    requires Holds(rb, pending) && |pending| >= rb.itemSize && rb.count > 0
    ensures rb.Read().1 == pending[..rb.itemSize]
  {
    ItemFits(rb.itemSize, rb.maxItems, rb.readIndex);
    forall k | 0 <= k < rb.itemSize
      ensures rb.Read().1[k] == pending[k]
    {
      assert ByteAt(rb, k) == pending[k];
    }
  }

  lemma ReadRest(rb: Ring, pending: seq<byte>)
    requires Holds(rb, pending) && |pending| >= rb.itemSize && rb.count > 0
    ensures rb.Read().0.InBounds() && Stores(rb.Read().0, pending[rb.itemSize..])
    ensures Aligned(rb.Read().0, pending[rb.itemSize..])
  {
    var d := rb.itemSize;
    var rb' := rb.Read().0;
    ItemFits(d, rb.maxItems, rb.readIndex);
    WrapItems(d, rb.maxItems, rb.readIndex, 1);
    forall k | 0 <= k < |pending| - d
      ensures ByteAt(rb', k) == pending[d + k]
    {
      assert ByteAt(rb, d + k) == pending[d + k];
    }
  }

  lemma ReadStep(rb: Ring, pending: seq<byte>)
    requires Holds(rb, pending)
    ensures rb.count <= 0 <==> |pending| < rb.itemSize
    ensures rb.count > 0 ==> rb.Read().1 == pending[..rb.itemSize] && Holds(rb.Read().0, pending[rb.itemSize..])
  {
    WholeItems(|pending|, rb.itemSize);
    if rb.count > 0 {
      ReadBytes(rb, pending);
      ReadRest(rb, pending);
      SubtractItem(|pending|, rb.itemSize);
    }
  }

  lemma WholeItems(x: nat, d: int)
    requires d > 0
    ensures x / d <= 0 <==> x < d
  {
    MulLe(1, x / d, d);
  }

  lemma SubtractItem(x: int, d: int)
    requires d > 0
    ensures (x - d) / d == x / d - 1
  {
    assert (x / d - 1) * d == x / d * d - d;
    DivUnique(x - d, d, x / d - 1, x % d);
  }

  lemma EmptyHolds(itemSize: int, maxItems: int)
    requires itemSize > 0 && maxItems > 0
    ensures Represents(Empty(itemSize, maxItems), Queue([], itemSize, maxItems))
  {
    MulLe(1, maxItems, itemSize);
  }

  lemma PushOpStep(rb: Ring, q: Queue, data: seq<byte>)
    requires Represents(rb, q)
    ensures Represents(StepRing(rb, Push(data)).0, q.Step(Push(data)).0) <==> GoodOp(rb, Push(data))
  {
    if rb.Accepts(|data|) {
      PushStep(rb, q.pending, data);
    }
  }

  lemma ReadOpStep(rb: Ring, q: Queue)
    requires Represents(rb, q)
    ensures StepRing(rb, Read).1 == q.Step(Read).1
    ensures Represents(StepRing(rb, Read).0, q.Step(Read).0)
  {
    ReadStep(rb, q.pending);
  }

  lemma OpStep(rb: Ring, q: Queue, op: Op)
    requires Represents(rb, q)
    ensures StepRing(rb, op).1 == q.Step(op).1
    ensures Represents(StepRing(rb, op).0, q.Step(op).0) <==> GoodOp(rb, op)
  {
    match op
    case Push(data) => PushOpStep(rb, q, data);
    case Read => ReadOpStep(rb, q);
    case Clear => QuotientNonNegative(0, rb.itemSize);
    case Resize(i, m) =>
      if i > 0 && m > 0 {
        EmptyHolds(i, m);
      }
  }

  /** On every run the ring buffer is the item queue, at every step, exactly when every push is a good one. */
  lemma {:induction false} RunRefinesQueue(rb: Ring, q: Queue, ops: seq<Op>)
    requires Represents(rb, q)
    ensures Simulates(rb, q, ops) <==> AllGood(rb, ops)
    decreases |ops|
  {
    if ops != [] {
      OpStep(rb, q, ops[0]);
      if GoodOp(rb, ops[0]) {
        RunRefinesQueue(StepRing(rb, ops[0]).0, q.Step(ops[0]).0, ops[1..]);
      }
    }
  }

  // The stream view of a run of pushes and reads.

  /** The final buffer and the items read, in order, on a run during which every operation is a good one. */
  function Run(rb: Ring, ops: seq<Op>): (Ring, seq<seq<byte>>)
    requires AllGood(rb, ops)
    decreases |ops|
  {
    if ops == [] then (rb, [])
    else
      var (next, out) := StepRing(rb, ops[0]);
      var (end, outs) := Run(next, ops[1..]);
      (end, (if out == [] then [] else [out]) + outs)
  }

  /** The data that the operation adds to the stream. */
  function Accepted(capacity: int, op: Op): seq<byte> {
    if op.Push? && |op.data| <= capacity then op.data else []
  }

  /** The concatenation of the data that pushes of the run accepted. */
  function Pushed(capacity: int, ops: seq<Op>): seq<byte> {
    if ops == [] then [] else Accepted(capacity, ops[0]) + Pushed(capacity, ops[1..])
  }

  predicate OnlyPushesAndReads(ops: seq<Op>) {
    forall i :: 0 <= i < |ops| ==> ops[i].Push? || ops[i].Read?
  }

  ghost predicate NoOverflow(rb: Ring, ops: seq<Op>)
    requires AllGood(rb, ops)
    decreases |ops|
  {
    ops != [] ==>
      && (ops[0].Push? && rb.Accepts(|ops[0].data|) ==> !Overflows(rb, |ops[0].data|))
      && NoOverflow(StepRing(rb, ops[0]).0, ops[1..])
  }

  lemma FifoStep(rb: Ring, q: Queue, op: Op)
    requires Represents(rb, q) && GoodOp(rb, op) && (op.Push? || op.Read?)
    requires op.Push? && rb.Accepts(|op.data|) ==> !Overflows(rb, |op.data|)
    ensures var (next, out) := StepRing(rb, op);
            && Represents(next, q.Step(op).0)
            && |next.buf| == |rb.buf| && next.itemSize == rb.itemSize
            && out + q.Step(op).0.pending == q.pending + Accepted(|rb.buf|, op)
            && (out == [] || |out| == rb.itemSize)
  {
    OpStep(rb, q, op);
    if op.Push? && rb.Accepts(|op.data|) {
      FittingSize(rb, q.pending, op.data);
    }
  }

  /** FIFO: the items read, followed by what is still pending, are the pushed stream. */
  lemma {:induction false} FifoStream(rb: Ring, q: Queue, ops: seq<Op>) returns (rest: seq<byte>)
    requires Represents(rb, q) && OnlyPushesAndReads(ops)
    requires AllGood(rb, ops) && NoOverflow(rb, ops)
    ensures var (end, outs) := Run(rb, ops);
            && Holds(end, rest) && end.itemSize == rb.itemSize && |end.buf| == |rb.buf|
            && Flatten(outs) + rest == q.pending + Pushed(|rb.buf|, ops)
            && forall i :: 0 <= i < |outs| ==> |outs[i]| == rb.itemSize
    decreases |ops|
  {
    if ops == [] {
      rest := q.pending;
    } else {
      FifoStep(rb, q, ops[0]);
      var (next, out) := StepRing(rb, ops[0]);
      rest := FifoStream(next, q.Step(ops[0]).0, ops[1..]);
      var outs := Run(next, ops[1..]).1;
      FlattenPrepend(out, outs);
      Reassociate(out, Flatten(outs), rest, q.Step(ops[0]).0.pending, q.pending, Accepted(|rb.buf|, ops[0]),
                  Pushed(|rb.buf|, ops[1..]));
    }
  }

  lemma FlattenPrepend(out: seq<byte>, outs: seq<seq<byte>>)
    ensures Flatten((if out == [] then [] else [out]) + outs) == out + Flatten(outs)
  {
    if out == [] {
      assert [] + outs == outs;
    } else {
      assert ([out] + outs)[1..] == outs;
    }
  }

  lemma Reassociate(out: seq<byte>, outs: seq<byte>, rest: seq<byte>, mid: seq<byte>, before: seq<byte>, add: seq<byte>,
                    more: seq<byte>)
    requires out + mid == before + add && outs + rest == mid + more
    ensures (out + outs) + rest == before + (add + more)
  {
    assert (out + outs) + rest == out + (outs + rest) == (out + mid) + more;
  }

  /** The i-th item of a stream, nothing when it is not complete. */
  function ItemAt(stream: seq<byte>, i: nat, itemSize: int): seq<byte> {
    if 0 <= i * itemSize <= (i + 1) * itemSize <= |stream| then stream[i * itemSize..(i + 1) * itemSize] else []
  }

  lemma {:induction false} FlattenLength(outs: seq<seq<byte>>, d: int)
    requires d > 0 && forall j :: 0 <= j < |outs| ==> |outs[j]| == d
    ensures |Flatten(outs)| == |outs| * d
  {
    if outs != [] {
      FlattenLength(outs[1..], d);
      assert (|outs| - 1) * d == |outs| * d - d;
    }
  }

  lemma SliceShift(first: seq<byte>, tail: seq<byte>, lo: int, hi: int)
    requires |first| <= lo <= hi <= |first| + |tail|
    ensures (first + tail)[lo..hi] == tail[lo - |first|..hi - |first|]
  {
  }

  lemma NextItem(first: seq<byte>, tail: seq<byte>, i: nat, d: int)
    requires d > 0 && |first| == d
    ensures ItemAt(first + tail, i + 1, d) == ItemAt(tail, i, d)
    ensures ItemAt(first + tail, 0, d) == first
  {
    assert (i + 1) * d == i * d + d && (i + 2) * d == i * d + d + d && 0 <= i * d;
    if i * d + d <= |tail| {
      SliceShift(first, tail, i * d + d, i * d + d + d);
    }
  }

  lemma {:induction false} FlattenItem(outs: seq<seq<byte>>, rest: seq<byte>, d: int, i: nat)
    requires d > 0 && forall j :: 0 <= j < |outs| ==> |outs[j]| == d
    requires i < |outs|
    ensures ItemAt(Flatten(outs) + rest, i, d) == outs[i]
  {
    var tail := Flatten(outs[1..]) + rest;
    Assoc(outs[0], Flatten(outs[1..]), rest);
    if i == 0 {
      NextItem(outs[0], tail, 0, d);
    } else {
      FlattenItem(outs[1..], rest, d, i - 1);
      NextItem(outs[0], tail, i - 1, d);
    }
  }

  lemma AddWholeItems(rest: nat, n: nat, d: int)
    requires d > 0
    ensures (n * d + rest) / d == n + rest / d
  {
    assert (rest / d + n) * d == rest / d * d + n * d;
    DivUnique(n * d + rest, d, rest / d + n, rest % d);
  }

  /**
   The FIFO law from a fresh buffer: on every run of pushes and reads whose pushes fit, and none of which
   starts with the offset resting at the storage end of an empty buffer, the count is the number of whole
   items pushed less the number read, and the i-th item read is the i-th item of the pushed stream.
   */
  lemma Fifo(itemSize: int, maxItems: int, ops: seq<Op>)
    requires itemSize > 0 && maxItems > 0 && OnlyPushesAndReads(ops)
    requires AllGood(Empty(itemSize, maxItems), ops) && NoOverflow(Empty(itemSize, maxItems), ops)
    ensures var (end, outs) := Run(Empty(itemSize, maxItems), ops);
            var stream := Pushed(itemSize * maxItems, ops);
            && end.count == |stream| / itemSize - |outs|
            && forall i :: 0 <= i < |outs| ==> outs[i] == ItemAt(stream, i, itemSize)
  {
    var rb := Empty(itemSize, maxItems);
    EmptyHolds(itemSize, maxItems);
    var rest := FifoStream(rb, Queue([], itemSize, maxItems), ops);
    var (end, outs) := Run(rb, ops);
    var stream := Pushed(itemSize * maxItems, ops);
    assert stream == Flatten(outs) + rest by {
      assert [] + stream == stream;
    }
    FlattenLength(outs, itemSize);
    AddWholeItems(|rest|, |outs|, itemSize);
    forall i | 0 <= i < |outs|
      ensures outs[i] == ItemAt(stream, i, itemSize)
    {
      FlattenItem(outs, rest, itemSize, i);
    }
  }

  /** What a run of good pushes leaves: the whole stream while it fits, and from then on its last bytes. */
  function Newest(stream: seq<byte>, capacity: nat): seq<byte> {
    if |stream| <= capacity then stream else stream[|stream| - capacity..]
  }

  lemma PushKeepsNewest(rb: Ring, q: Queue, op: Op)
    requires Represents(rb, q) && GoodOp(rb, op) && op.Push?
    ensures var next := StepRing(rb, op).0;
            && Represents(next, q.Step(op).0) && |next.buf| == |rb.buf|
            && q.Step(op).0.pending == Newest(q.pending + Accepted(|rb.buf|, op), |rb.buf|)
  {
    OpStep(rb, q, op);
    if rb.Accepts(|op.data|) {
      KeptIsNewest(rb, q.pending, op.data);
    } else {
      assert q.pending + [] == q.pending;
    }
  }

  lemma KeptIsNewest(rb: Ring, pending: seq<byte>, data: seq<byte>)
    requires Holds(rb, pending) && rb.Accepts(|data|) && GoodPush(rb, |data|)
    ensures KeepNewest(pending, data, rb.itemSize, |rb.buf|) == Newest(pending + data, |rb.buf|)
  {
    if Overflows(rb, |data|) {
      FullIsPending(rb, pending);
      KeepNewestFull(pending, data, rb.itemSize);
      NewestOfFull(pending, data);
    } else {
      FittingSize(rb, pending, data);
    }
  }

  lemma FullIsPending(rb: Ring, pending: seq<byte>)
    requires Holds(rb, pending) && rb.count == rb.maxItems
    ensures |pending| == |rb.buf|
  {
    PendingShape(rb, pending);
  }

  lemma NewestOfFull(pending: seq<byte>, data: seq<byte>)
    requires 0 < |data| <= |pending|
    ensures Newest(pending + data, |pending|) == pending[|data|..] + data
  {
  }

  /** A run of good pushes leaves exactly the newest bytes that the storage has room for. */
  lemma {:induction false} PushesKeepNewest(rb: Ring, q: Queue, ops: seq<Op>)
    requires Represents(rb, q) && AllGood(rb, ops)
    requires forall i :: 0 <= i < |ops| ==> ops[i].Push?
    ensures Holds(Run(rb, ops).0, Newest(q.pending + Pushed(|rb.buf|, ops), |rb.buf|))
    decreases |ops|
  {
    if ops == [] {
      assert q.pending + [] == q.pending;
    } else {
      PushKeepsNewest(rb, q, ops[0]);
      PushesKeepNewest(StepRing(rb, ops[0]).0, q.Step(ops[0]).0, ops[1..]);
      NewestTwice(q.pending, Accepted(|rb.buf|, ops[0]), Pushed(|rb.buf|, ops[1..]), |rb.buf|);
    }
  }

  lemma NewestTwice(a: seq<byte>, b: seq<byte>, c: seq<byte>, capacity: nat)
    ensures Newest(Newest(a + b, capacity) + c, capacity) == Newest(a + (b + c), capacity)
  {
    Assoc(a, b, c);
    var ab := a + b;
    if |ab| > capacity {
      var cut := |ab| - capacity;
      assert ab == ab[..cut] + ab[cut..];
      Assoc(ab[..cut], ab[cut..], c);
      DropPrefix(ab[..cut], ab[cut..] + c, |c|);
    }
  }

  lemma DropPrefix(a: seq<byte>, b: seq<byte>, n: nat)
    requires n <= |b|
    ensures (a + b)[|a| + n..] == b[n..]
  {
  }

  // The read index.

  /** The push that carries the read index past the storage: it reaches one item further than the storage has. */
  predicate Overruns(rb: Ring, size: nat)
    requires rb.itemSize > 0
  {
    rb.Accepts(size) && rb.woffset % rb.itemSize + size > |rb.buf| && rb.readIndex == rb.maxItems - 1
  }

  lemma ReachOf(rb: Ring, size: nat)
    requires rb.InBounds() && rb.Accepts(size)
    ensures 1 <= rb.WriteItems(size) <= rb.maxItems + 1
    ensures rb.WriteItems(size) == rb.maxItems + 1 <==> rb.woffset % rb.itemSize + size > |rb.buf|
    ensures rb.NewCount(rb.WriteItems(size), size) >= 0
  {
    var d := rb.itemSize;
    var t, f := WriteItemsCeiling(rb, size);
    CeilingBound(d, rb.maxItems, t + size, rb.WriteItems(size), f);
    QuotientsNonNegative(rb.woffset, t, d, f, size);
  }

  lemma QuotientsNonNegative(w: int, t: int, d: int, f: int, size: nat)
    requires d > 0 && 0 <= w && 0 <= t && t + size < (f + 1) * d
    ensures 0 <= w / d && 0 <= f
  {
    MulLe(f + 1, 0, d);
  }

  /** After any accepted push the indices are inside the storage again, unless that push overruns. */
  lemma IndexStep(rb: Ring, data: seq<byte>)
    requires rb.InBounds()
    ensures rb.Push(data).0.WriteSafe()
    ensures rb.Push(data).0.InBounds() <==> !Overruns(rb, |data|)
  {
    if rb.Accepts(|data|) {
      WrittenAt(rb, data, 0);
      ReachOf(rb, |data|);
    }
  }

  lemma CeilingBound(d: int, m: int, x: int, ceiling: int, f: int)
    requires d > 0 && f * d <= x < (f + 1) * d && x < d * m + d
    requires ceiling == if x % d == 0 then f else f + 1
    ensures ceiling <= m + 1
    ensures ceiling == m + 1 <==> x > d * m
  {
    assert (m + 1) * d == d * m + d;
    assert (f + 1) * d == f * d + d;
    DivUnique(x, d, f, x - f * d);
    MulLe(f, m, d);
    MulLe(f + 1, m + 1, d);
    MulLe(f, m + 1, d);
  }

  ghost predicate StaysInBounds(rb: Ring, ops: seq<Op>)
    decreases |ops|
  {
    rb.InBounds() && (ops != [] ==> StaysInBounds(StepRing(rb, ops[0]).0, ops[1..]))
  }

  ghost predicate NeverOverruns(rb: Ring, ops: seq<Op>)
    requires rb.InBounds()
    decreases |ops|
  {
    ops != [] ==>
      && !(ops[0].Push? && Overruns(rb, |ops[0].data|))
      && (StepRing(rb, ops[0]).0.InBounds() ==> NeverOverruns(StepRing(rb, ops[0]).0, ops[1..]))
  }

  /** On every run, whether pushes fit or not, the indices stay inside the storage exactly when no push overruns. */
  lemma {:induction false} RunInBounds(rb: Ring, ops: seq<Op>)
    requires rb.InBounds()
    ensures StaysInBounds(rb, ops) <==> NeverOverruns(rb, ops)
    decreases |ops|
  {
    if ops != [] {
      var next := StepRing(rb, ops[0]).0;
      if ops[0].Push? {
        IndexStep(rb, ops[0].data);
      }
      if next.InBounds() {
        RunInBounds(next, ops[1..]);
      }
    }
  }

  // Runs on which the code and the queue part.

  /** Fill the storage, empty it, push again: the count is too large by the capacity. */
  lemma CountTooLarge()
    ensures var full := Empty(1, 2).Push([7, 8]).0;
            var drained := full.Read().0.Read().0;
            && drained.count == 0 && drained.woffset == 2
            && drained.Push([9]).0.count == 3
            && !GoodPush(drained, 1)
  {
    var full := Empty(1, 2).Push([7, 8]).0;
    assert full.InBounds() && full.count == 2;
    var one := full.Read().0;
    assert one.InBounds() && one.count == 1 && one.readIndex == 1;
  }

  /** Overflowing a buffer that is not full loses an item that still had room. */
  lemma LosesMoreThanNeeded()
    ensures var two := Empty(1, 3).Push([1, 2]).0;
            var rb := two.Push([3, 4]).0;
            && rb.InBounds() && rb.count == 3 && rb.Read().1 == [3]
            && KeepNewest([1, 2], [3, 4], 1, 3) == [2, 3, 4]
  {
    var two := Empty(1, 3).Push([1, 2]).0;
    assert two.count == 2 && two.buf == [1, 2, 0];
    var rb := two.Push([3, 4]).0;
    assert rb.buf == [4, 2, 3] && rb.readIndex == 2;
    var all: seq<byte> := [1, 2] + [3, 4];
    assert all[1..] == [2, 3, 4];
  }

  /** An odd push, then one as large as the storage: the read index rests behind the last item, where a read starts. */
  lemma ReadsBehindStorage()
    ensures var odd := Empty(2, 2).Push([1, 2, 3, 4]).0.Read().0.Push([5]).0;
            var rb := odd.Push([6, 7, 8, 9]).0;
            && odd.InBounds() && Overruns(odd, 4)
            && rb.count == 2 && rb.readIndex == 2 && rb.maxItems == 2 && |rb.buf| == 4
            && rb.readIndex * rb.itemSize == |rb.buf| && !rb.ReadSafe()
  {
    var full := Empty(2, 2).Push([1, 2, 3, 4]).0;
    assert full.InBounds() && full.count == 2 && full.woffset == 4 && full.readIndex == 0;
    var one := full.Read().0;
    assert one.InBounds() && one.count == 1 && one.readIndex == 1;
    var odd := one.Push([5]).0;
    OddPush(one, odd);
    LastPush(odd);
  }

  lemma OddPush(one: Ring, odd: Ring)
    requires one.InBounds() && one.itemSize == 2 && one.maxItems == 2
    requires one.count == 1 && one.readIndex == 1 && one.woffset == 4 && odd == one.Push([5]).0
    ensures odd.InBounds() && odd.itemSize == 2 && odd.maxItems == 2
    ensures odd.woffset == 1 && odd.readIndex == 1 && odd.count == 1
  {
  }

  lemma LastPush(odd: Ring)
    requires odd.InBounds() && odd.itemSize == 2 && odd.maxItems == 2
    requires odd.woffset == 1 && odd.readIndex == 1 && odd.count == 1
    ensures Overruns(odd, 4)
    ensures var rb := odd.Push([6, 7, 8, 9]).0;
            rb.count == 2 && rb.readIndex == 2 && rb.maxItems == 2 && |rb.buf| == 4 && rb.itemSize == 2
  {
    assert odd.WriteItems(4) == 3;
  }
}

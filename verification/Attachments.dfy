/**
 From bytes on the wire to attachments: the header splitter against its printer, the header state against
 the whole history of headers, and both together with the multipart parser.
 */
module Attachments {
  import opened Bytes
  import opened MultipartParser
  import opened MultipartChunks
  import opened MultipartRoundTrip
  import opened V1Directives

  // The splitter inverts the printer.

  predicate GoodPair(p: Pair) {
    && COLON !in p.key && CR !in p.key
    && CR !in p.value && LF !in p.value
    && (p.value != [] ==> p.value[0] != SPACE)
  }

  /** What the splitter needs of a pair: its own separators in their places only, and no space in front. */
  predicate Splittable(p: Pair) {
    COLON !in p.key && LF !in p.value && (p.value != [] ==> p.value[0] != SPACE)
  }

  predicate GoodPairs(pairs: seq<Pair>) {
    forall i :: 0 <= i < |pairs| ==> GoodPair(pairs[i])
  }

  function Line(p: Pair): seq<byte> {
    p.key + ([COLON, SPACE] + p.value)
  }

  function Lines(pairs: seq<Pair>): (lines: seq<seq<byte>>)
    ensures |lines| == |pairs|
  {
    if pairs == [] then [] else [Line(pairs[0])] + Lines(pairs[1..])
  }

  lemma {:induction false} SplitKey(token: seq<byte>, key: seq<byte>, value: seq<byte>, bytes: seq<byte>,
                                    rest: seq<byte>)
    requires COLON !in bytes
    ensures Split(KEY, token, key, value, bytes + rest) == Split(KEY, token + bytes, key, value, rest)
    decreases |bytes|
  {
    if bytes == [] {
      assert bytes + rest == rest && token + bytes == token;
    } else {
      assert (bytes + rest)[1..] == bytes[1..] + rest;
      SplitKey(token + [bytes[0]], key, value, bytes[1..], rest);
      assert token + [bytes[0]] + bytes[1..] == token + bytes;
    }
  }

  /** Within a value up to the end of the line; each CR on the way is taken for its end, until the next one. */
  lemma {:induction false} SplitValue(token: seq<byte>, key: seq<byte>, value: seq<byte>, bytes: seq<byte>,
                                      rest: seq<byte>)
    returns (last: seq<byte>)
    requires LF !in bytes
    ensures Split(VALUE, token, key, value, bytes + rest) == Split(VALUE, token + bytes, key, last, rest)
    ensures CR !in bytes ==> last == value
    decreases |bytes|
  {
    if bytes == [] {
      assert bytes + rest == rest && token + bytes == token;
      last := value;
    } else {
      assert (bytes + rest)[1..] == bytes[1..] + rest;
      last := SplitValue(token + [bytes[0]], key, if bytes[0] == CR then token else value, bytes[1..], rest);
      assert token + [bytes[0]] + bytes[1..] == token + bytes;
    }
  }

  /** After the colon: a space, the value, CR LF. */
  lemma SplitRest(key: seq<byte>, value: seq<byte>, rest: seq<byte>)
    requires LF !in value && (value != [] ==> value[0] != SPACE)
    ensures Split(VALUE_WAIT, [], key, [], [SPACE] + (value + ([CR, LF] + rest))) ==
            [Pair(key, value)] + Split(KEY, [], [], [], rest)
  {
    var tail := [CR, LF] + rest;
    assert ([SPACE] + (value + tail))[1..] == value + tail;
    assert tail[1..] == [LF] + rest && ([LF] + rest)[1..] == rest;
    if value == [] {
      assert value + tail == tail;
      assert Split(VALUE_WAIT, [], key, [], tail) == Split(VALUE, [CR], key, [], [LF] + rest);
    } else {
      assert (value + tail)[1..] == value[1..] + tail;
      var last := SplitValue([value[0]], key, [], value[1..], tail);
      assert [value[0]] + value[1..] == value;
      assert Split(VALUE, value, key, last, tail) == Split(VALUE, value + [CR], key, value, [LF] + rest);
    }
  }

  lemma SplitLine(p: Pair, rest: seq<byte>)
    requires Splittable(p)
    ensures Split(KEY, [], [], [], (Line(p) + [CR, LF]) + rest) == [p] + Split(KEY, [], [], [], rest)
  {
    var tail := [SPACE] + (p.value + ([CR, LF] + rest));
    assert (Line(p) + [CR, LF]) + rest == p.key + ([COLON] + tail);
    SplitKey([], [], [], p.key, [COLON] + tail);
    assert [] + p.key == p.key;
    assert ([COLON] + tail)[1..] == tail;
    SplitRest(p.key, p.value, rest);
  }

  lemma BareRest(key: seq<byte>, value: seq<byte>, rest: seq<byte>)
    requires CR !in value && LF !in value && value != [] && value[0] != SPACE
    ensures Split(VALUE_WAIT, [], key, [], [SPACE] + (value + ([LF] + rest))) ==
            [Pair(key, [])] + Split(KEY, [], [], [], rest)
  {
    var tail := [LF] + rest;
    assert ([SPACE] + (value + tail))[1..] == value + tail;
    assert (value + tail)[1..] == value[1..] + tail && tail[1..] == rest;
    var last := SplitValue([value[0]], key, [], value[1..], tail);
    assert [value[0]] + value[1..] == value && last == [];
  }

  /** A line that ends in LF alone gives its key and no value. */
  lemma BareLineFeed(key: seq<byte>, value: seq<byte>, rest: seq<byte>)
    requires COLON !in key && CR !in value && LF !in value && value != [] && value[0] != SPACE
    ensures Split(KEY, [], [], [], key + ([COLON] + ([SPACE] + (value + ([LF] + rest))))) ==
            [Pair(key, [])] + Split(KEY, [], [], [], rest)
  {
    var tail := [SPACE] + (value + ([LF] + rest));
    SplitKey([], [], [], key, [COLON] + tail);
    assert [] + key == key && ([COLON] + tail)[1..] == tail;
    BareRest(key, value, rest);
  }

  /** Every list of printed pairs is recovered, in order. */
  lemma {:induction false} SplitInvertsPrint(pairs: seq<Pair>)
    requires forall i :: 0 <= i < |pairs| ==> Splittable(pairs[i])
    ensures SplitHeader(HeaderText(Lines(pairs))) == pairs
    decreases |pairs|
  {
    if pairs != [] {
      SplitLine(pairs[0], HeaderText(Lines(pairs[1..])));
      assert Lines(pairs)[1..] == Lines(pairs[1..]);
      SplitInvertsPrint(pairs[1..]);
    }
  }

  // The state is that of the latest headers.

  /** The value of the last pair with this key. */
  function Latest(pairs: seq<Pair>, key: seq<byte>): Option<seq<byte>> {
    if pairs == [] then None
    else if pairs[|pairs| - 1].key == key then Some(pairs[|pairs| - 1].value)
    else Latest(pairs[..|pairs| - 1], key)
  }

  lemma {:induction false} ApplyAllLast(d: Dispatch, pairs: seq<Pair>)
    requires pairs != []
    ensures ApplyAll(d, pairs) == Apply(ApplyAll(d, pairs[..|pairs| - 1]), pairs[|pairs| - 1])
    decreases |pairs|
  {
    if |pairs| > 1 {
      ApplyAllLast(Apply(d, pairs[0]), pairs[1..]);
      assert pairs[1..][..|pairs| - 2] == pairs[..|pairs| - 1][1..];
    } else {
      assert pairs[1..] == [] && pairs[..0] == [];
    }
  }

  /** Type, parent id and end flag are each set by the last header that names them, whatever came in between. */
  lemma {:induction false} LatestHeaderWins(d: Dispatch, pairs: seq<Pair>)
    ensures var end := ApplyAll(d, pairs);
            && end.ctype == (match Latest(pairs, CONTENT_TYPE) case Some(v) => TypeOf(v) case None => d.ctype)
            && end.parent ==
               (match Latest(pairs, PARENT_MESSAGE_ID) case Some(v) => Some(CString(v)) case None => d.parent)
            && end.isEnd == (match Latest(pairs, FILENAME) case Some(v) => Mentions(v, END_MARK) case None => d.isEnd)
    decreases |pairs|
  {
    if pairs != [] {
      ApplyAllLast(d, pairs);
      LatestHeaderWins(d, pairs[..|pairs| - 1]);
      assert |CONTENT_TYPE| == 12 && |PARENT_MESSAGE_ID| == 17 && |FILENAME| == 8;
    }
  }

  // Whole messages.

  datatype Item = Item(pairs: seq<Pair>, body: seq<byte>) {
    function ToPart(): Part {
      Part([], [], Lines(pairs), body)
    }
  }

  function Parts(items: seq<Item>): (parts: seq<Part>)
    ensures |parts| == |items|
    ensures forall i :: 0 <= i < |items| ==> parts[i] == items[i].ToPart()
  {
    seq(|items|, i requires 0 <= i < |items| => items[i].ToPart())
  }

  /** All pairs of the items, in order. */
  function History(items: seq<Item>): seq<Pair> {
    if items == [] then [] else History(items[..|items| - 1]) + items[|items| - 1].pairs
  }

  /** The specification: each body goes where the latest headers up to it say. */
  function Deliveries(d: Dispatch, items: seq<Item>): seq<Delivery> {
    if items == [] then []
    else Deliveries(d, items[..|items| - 1]) + Deliver(ApplyAll(d, History(items)), items[|items| - 1].body)
  }

  predicate GoodItems(items: seq<Item>) {
    forall i :: 0 <= i < |items| ==> GoodPairs(items[i].pairs) && Delimited(items[i].body)
  }

  lemma {:induction false} ApplyAllAppend(d: Dispatch, a: seq<Pair>, b: seq<Pair>)
    ensures ApplyAll(d, a + b) == ApplyAll(ApplyAll(d, a), b)
    decreases |a|
  {
    if a == [] {
      assert a + b == b;
    } else {
      assert (a + b)[1..] == a[1..] + b;
      ApplyAllAppend(Apply(d, a[0]), a[1..], b);
    }
  }

  lemma DeliveriesSnoc(d: Dispatch, items: seq<Item>, item: Item)
    ensures var end := ApplyAll(ApplyAll(d, History(items)), item.pairs);
            && ApplyAll(d, History(items + [item])) == end
            && Deliveries(d, items + [item]) == Deliveries(d, items) + Deliver(end, item.body)
  {
    assert (items + [item])[..|items|] == items;
    ApplyAllAppend(d, History(items), item.pairs);
  }

  /** What follows some items is delivered from the headers up to them. */
  lemma {:induction false} DeliveriesAppend(d: Dispatch, a: seq<Item>, b: seq<Item>)
    ensures var mid := ApplyAll(d, History(a));
            && Deliveries(d, a + b) == Deliveries(d, a) + Deliveries(mid, b)
            && ApplyAll(d, History(a + b)) == ApplyAll(mid, History(b))
    decreases |b|
  {
    var mid := ApplyAll(d, History(a));
    if b == [] {
      assert a + b == a && Deliveries(d, a) + [] == Deliveries(d, a);
    } else {
      var front, last := b[..|b| - 1], b[|b| - 1];
      assert b == front + [last];
      Assoc(a, front, [last]);
      DeliveriesAppend(d, a, front);
      DeliveriesSnoc(d, a + front, last);
      DeliveriesSnoc(mid, front, last);
      Assoc(Deliveries(d, a), Deliveries(mid, front), Deliver(ApplyAll(mid, History(b)), last.body));
    }
  }

  lemma {:induction false} AllEventsLast(parts: seq<Part>)
    requires parts != []
    ensures AllEvents(parts) == AllEvents(parts[..|parts| - 1]) + parts[|parts| - 1].Events()
    decreases |parts|
  {
    if |parts| > 1 {
      AllEventsLast(parts[1..]);
      assert parts[1..][..|parts| - 2] == parts[..|parts| - 1][1..];
      Assoc(parts[0].Events(), AllEvents(parts[1..][..|parts| - 2]), parts[|parts| - 1].Events());
    } else {
      assert parts[1..] == [] && parts[..0] == [];
    }
  }

  lemma HandleItem(d: Dispatch, item: Item)
    requires GoodPairs(item.pairs)
    ensures Handle(d, item.ToPart().Events()) == (ApplyAll(d, item.pairs), Deliver(ApplyAll(d, item.pairs), item.body))
  {
    SplitInvertsPrint(item.pairs);
    var events := item.ToPart().Events();
    assert events[1..] == [FoundBody(item.body)];
    assert [FoundBody(item.body)][1..] == [];
    var d' := ApplyAll(d, item.pairs);
    assert Handle(d', [FoundBody(item.body)]) == (d', Deliver(d', item.body) + Handle(d', []).1);
    assert Deliver(d', item.body) + [] == Deliver(d', item.body);
  }

  lemma {:induction false} HandleItems(d: Dispatch, items: seq<Item>)
    requires forall i :: 0 <= i < |items| ==> GoodPairs(items[i].pairs)
    ensures Handle(d, AllEvents(Parts(items))) == (ApplyAll(d, History(items)), Deliveries(d, items))
    decreases |items|
  {
    if items != [] {
      var n := |items| - 1;
      HandleItems(d, items[..n]);
      AllEventsLast(Parts(items));
      assert Parts(items)[..n] == Parts(items[..n]);
      ApplyAllAppend(d, History(items[..n]), items[n].pairs);
      HandleAppend(d, AllEvents(Parts(items[..n])), items[n].ToPart().Events());
      HandleItem(ApplyAll(d, History(items[..n])), items[n]);
    }
  }

  lemma {:induction false} LinesAreGood(pairs: seq<Pair>)
    requires GoodPairs(pairs)
    ensures forall i :: 0 <= i < |pairs| ==> GoodLine(Lines(pairs)[i])
    decreases |pairs|
  {
    if pairs != [] {
      LinesAreGood(pairs[1..]);
    }
  }

  /**
   End to end: a printed message, received in chunks that cut through no boundary, is delivered item by item;
   each body by the type, parent id and end flag of the latest headers printed up to it.
   */
  lemma MessageDelivered(boundary: seq<byte>, d: Dispatch, items: seq<Item>, tail: seq<byte>, chunks: seq<seq<byte>>)
    requires |boundary| > 0 && GoodItems(items)
    requires Flatten(chunks) == Print(boundary, Parts(items)) + tail && SafeCuts(boundary, INITIAL, chunks)
    ensures var end := ParseAll(boundary, INITIAL, chunks);
            && end.step == Finish
            && Handle(d, end.events) == (ApplyAll(d, History(items)), Deliveries(d, items))
  {
    forall i | 0 <= i < |items|
      ensures Parts(items)[i].Printable() && Delimited(Parts(items)[i].body)
    {
      LinesAreGood(items[i].pairs);
    }
    RoundTripInChunks(boundary, Parts(items), tail, chunks);
    HandleItems(d, items);
  }

  // Attachments.

  datatype Chunk = Chunk(parent: seq<byte>, name: seq<byte>, data: seq<byte>) {
    predicate Good() {
      && GoodPair(Pair(PARENT_MESSAGE_ID, parent)) && NUL !in parent
      && GoodPair(Pair(FILENAME, name))
      && Delimited(data)
    }

    function ToItem(): Item {
      Item([Pair(CONTENT_TYPE, OPUS_TYPE), Pair(PARENT_MESSAGE_ID, parent), Pair(FILENAME, name)], data)
    }

    function ToDelivery(): Delivery {
      Attachment(Some(parent), Mentions(name, END_MARK), data)
    }
  }

  function Items(chunks: seq<Chunk>): (items: seq<Item>)
    ensures |items| == |chunks|
    ensures forall i :: 0 <= i < |chunks| ==> items[i] == chunks[i].ToItem()
  {
    seq(|chunks|, i requires 0 <= i < |chunks| => chunks[i].ToItem())
  }

  lemma {:induction false} CStringWhole(value: seq<byte>)
    requires NUL !in value
    ensures CString(value) == value
  {
    if value != [] {
      CStringWhole(value[1..]);
    }
  }

  /** A C string ends at its first NUL. */
  lemma {:induction false} CStringStops(front: seq<byte>, rest: seq<byte>)
    requires NUL !in front
    ensures CString(front + ([NUL] + rest)) == front
  {
    if front != [] {
      assert (front + ([NUL] + rest))[1..] == front[1..] + ([NUL] + rest);
      CStringStops(front[1..], rest);
    }
  }

  lemma ApplyChunk(d: Dispatch, c: Chunk)
    requires c.Good()
    ensures ApplyAll(d, c.ToItem().pairs) == Dispatch(OPUS, Some(c.parent), Mentions(c.name, END_MARK))
  {
    var pairs := c.ToItem().pairs;
    assert |CONTENT_TYPE| == 12 && |PARENT_MESSAGE_ID| == 17 && |FILENAME| == 8;
    assert OPUS_TYPE[1] == 117 && JSON_TYPE[1] == 112;
    CStringWhole(c.parent);
    assert pairs[1..] == [pairs[1], pairs[2]] && pairs[1..][1..] == [pairs[2]] && pairs[1..][1..][1..] == [];
    var d1 := Apply(d, pairs[0]);
    var d2 := Apply(d1, pairs[1]);
    assert ApplyAll(d2, [pairs[2]]) == ApplyAll(Apply(d2, pairs[2]), []);
    assert ApplyAll(d1, pairs[1..]) == ApplyAll(d2, [pairs[2]]);
  }

  lemma {:induction false} ChunkDeliveries(d: Dispatch, chunks: seq<Chunk>)
    requires forall i :: 0 <= i < |chunks| ==> chunks[i].Good()
    ensures |Deliveries(d, Items(chunks))| == |chunks|
    ensures forall i :: 0 <= i < |chunks| ==> Deliveries(d, Items(chunks))[i] == chunks[i].ToDelivery()
    decreases |chunks|
  {
    if chunks != [] {
      var n := |chunks| - 1;
      var items := Items(chunks);
      assert items[..n] == Items(chunks[..n]);
      ChunkDeliveries(d, chunks[..n]);
      ApplyAllAppend(d, History(items[..n]), items[n].pairs);
      ApplyChunk(ApplyAll(d, History(items[..n])), chunks[n]);
      LastDelivery(d, items, chunks[n]);
    }
  }

  lemma LastDelivery(d: Dispatch, items: seq<Item>, c: Chunk)
    requires items != [] && items[|items| - 1] == c.ToItem()
    requires ApplyAll(d, History(items)) == Dispatch(OPUS, Some(c.parent), Mentions(c.name, END_MARK))
    ensures Deliveries(d, items) == Deliveries(d, items[..|items| - 1]) + [c.ToDelivery()]
  {
  }

  lemma ChunkItemGood(c: Chunk)
    requires c.Good()
    ensures GoodPairs(c.ToItem().pairs)
  {
    assert GoodPair(Pair(CONTENT_TYPE, OPUS_TYPE)) by {
      assert forall b :: b in CONTENT_TYPE ==> b != COLON && b != CR;
      assert forall b :: b in OPUS_TYPE ==> b != CR && b != LF && b != SPACE;
    }
  }

  /** Attachments printed with their parent id and file name arrive with exactly those, in order, whole. */
  lemma AttachmentsArrive(boundary: seq<byte>, d: Dispatch, sent: seq<Chunk>, tail: seq<byte>, chunks: seq<seq<byte>>)
    requires |boundary| > 0 && forall i :: 0 <= i < |sent| ==> sent[i].Good()
    requires Flatten(chunks) == Print(boundary, Parts(Items(sent))) + tail && SafeCuts(boundary, INITIAL, chunks)
    ensures var got := Handle(d, ParseAll(boundary, INITIAL, chunks).events).1;
            |got| == |sent| && forall i :: 0 <= i < |sent| ==> got[i] == sent[i].ToDelivery()
  {
    forall i | 0 <= i < |sent|
      ensures GoodPairs(Items(sent)[i].pairs) && Delimited(Items(sent)[i].body)
    {
      ChunkItemGood(sent[i]);
    }
    MessageDelivered(boundary, d, Items(sent), tail, chunks);
    ChunkDeliveries(d, sent);
  }
}

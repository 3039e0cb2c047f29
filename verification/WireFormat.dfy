/**
 What is sent, byte by byte, and what arrives: documents, audio and parts of other types, in any mixture. The wire
 is written out in octets here, so that nothing of the parser or of the dispatch goes into the statement.
 */
module WireFormat {
  import opened Bytes
  import A = Attachments
  import C = MultipartChunks
  import B = MultipartBody
  import M = MultipartParser
  import P = MultipartRoundTrip
  import V = V1Directives

  /** "Content-Type", "Parent-Message-Id" and "Filename". */
  const TYPE_KEY: seq<byte> := [67, 111, 110, 116, 101, 110, 116, 45, 84, 121, 112, 101]
  const PARENT_KEY: seq<byte> := [80, 97, 114, 101, 110, 116, 45, 77, 101, 115, 115, 97, 103, 101, 45, 73, 100]
  const NAME_KEY: seq<byte> := [70, 105, 108, 101, 110, 97, 109, 101]

  /** "application/json" and "audio/opus". */
  const JSON_TEXT: seq<byte> := [97, 112, 112, 108, 105, 99, 97, 116, 105, 111, 110, 47, 106, 115, 111, 110]
  const AUDIO_TEXT: seq<byte> := [97, 117, 100, 105, 111, 47, 111, 112, 117, 115]

  /** A part as the server means it; `more` is what follows the type, such as a parameter. */
  datatype Sent =
    | SentDocument(more: seq<byte>, body: seq<byte>)
    | SentAudio(more: seq<byte>, parent: seq<byte>, name: seq<byte>, body: seq<byte>)
    | SentOther(ctype: seq<byte>, body: seq<byte>)
  {
    /** The values of the header lines stay on their line, and the body can be told from its terminator. */
    predicate Good() {
      && P.Delimited(body)
      && match this
         case SentDocument(more, _) => OneLine(more)
         case SentAudio(more, parent, name, _) =>
           && OneLine(more) && OneLine(parent) && 0 !in parent && OneLine(name)
           && (parent != [] ==> parent[0] != 32) && (name != [] ==> name[0] != 32)
         case SentOther(ctype, _) =>
           && OneLine(ctype) && (ctype != [] ==> ctype[0] != 32)
           && !(JSON_TEXT <= ctype) && !(AUDIO_TEXT <= ctype)
    }

    /** The header lines. */
    function Head(): seq<byte> {
      match this
      case SentDocument(more, _) => HeadLine(TYPE_KEY, JSON_TEXT + more)
      case SentAudio(more, parent, name, _) =>
        HeadLine(TYPE_KEY, AUDIO_TEXT + more) + (HeadLine(PARENT_KEY, parent) + HeadLine(NAME_KEY, name))
      case SentOther(ctype, _) => HeadLine(TYPE_KEY, ctype)
    }

    function ToItem(): A.Item {
      match this
      case SentDocument(more, body) => A.Item([V.Pair(V.CONTENT_TYPE, V.JSON_TYPE + more)], body)
      case SentAudio(more, parent, name, body) =>
        A.Item([V.Pair(V.CONTENT_TYPE, V.OPUS_TYPE + more), V.Pair(V.PARENT_MESSAGE_ID, parent),
                V.Pair(V.FILENAME, name)], body)
      case SentOther(ctype, body) => A.Item([V.Pair(V.CONTENT_TYPE, ctype)], body)
    }
  }

  predicate OneLine(value: seq<byte>) {
    13 !in value && 10 !in value
  }

  function HeadLine(key: seq<byte>, value: seq<byte>): seq<byte> {
    (key + ([58, 32] + value)) + [13, 10]
  }

  /** "--", the boundary and a line break; the header lines and an empty line; the body and two line breaks. */
  function PartBytes(boundary: seq<byte>, s: Sent): seq<byte> {
    ([45, 45] + boundary + [13, 10]) + (s.Head() + [13, 10]) + (s.body + [13, 10, 13, 10])
  }

  /** All parts, and the closing delimiter. */
  function WireBytes(boundary: seq<byte>, sent: seq<Sent>): seq<byte> {
    if sent == [] then [45, 45] + boundary + [45, 45, 13, 10]
    else PartBytes(boundary, sent[0]) + WireBytes(boundary, sent[1..])
  }

  /** The file name has "end" in it. */
  predicate NamesEnd(name: seq<byte>) {
    exists i :: 0 <= i && i + 3 <= |name| && name[i] == 101 && name[i + 1] == 110 && name[i + 2] == 100
  }

  /** What arrives of a part. */
  function Arriving(s: Sent): seq<V.Delivery> {
    match s
    case SentDocument(_, body) => [V.Document(body)]
    case SentAudio(_, parent, name, body) => [V.Attachment(Some(parent), NamesEnd(name), body)]
    case SentOther(_, _) => []
  }

  function AllArriving(sent: seq<Sent>): seq<V.Delivery> {
    if sent == [] then [] else AllArriving(sent[..|sent| - 1]) + Arriving(sent[|sent| - 1])
  }

  function ToItems(sent: seq<Sent>): (items: seq<A.Item>)
    ensures |items| == |sent|
    ensures forall i :: 0 <= i < |sent| ==> items[i] == sent[i].ToItem()
  {
    seq(|sent|, i requires 0 <= i < |sent| => sent[i].ToItem())
  }

  // The words of the wire.

  lemma Keys()
    ensures V.CONTENT_TYPE == TYPE_KEY && V.PARENT_MESSAGE_ID == PARENT_KEY && V.FILENAME == NAME_KEY
  {
  }

  lemma Types()
    ensures V.JSON_TYPE == JSON_TEXT && V.OPUS_TYPE == AUDIO_TEXT && V.END_MARK == [101, 110, 100]
  {
  }

  /** The type is told by how the value begins, documents and audio apart. */
  lemma TypesTold(value: seq<byte>)
    ensures V.TypeOf(value) == V.JSON <==> JSON_TEXT <= value
    ensures V.TypeOf(value) == V.OPUS <==> AUDIO_TEXT <= value
  {
    Types();
    assert JSON_TEXT <= value ==> value[1] == JSON_TEXT[1] == 112;
    assert AUDIO_TEXT <= value ==> value[1] == AUDIO_TEXT[1] == 117;
  }

  lemma EndTold(name: seq<byte>)
    ensures V.Mentions(name, V.END_MARK) <==> NamesEnd(name)
  {
    Types();
    if i :| 0 <= i <= |name| && V.END_MARK <= name[i..] {
      assert name[i..][0] == 101 && name[i..][1] == 110 && name[i..][2] == 100;
      assert name[i] == 101 && name[i + 1] == 110 && name[i + 2] == 100;
    }
    if i :| 0 <= i && i + 3 <= |name| && name[i] == 101 && name[i + 1] == 110 && name[i + 2] == 100 {
      assert name[i..][..3] == [101, 110, 100];
      assert V.END_MARK <= name[i..];
    }
  }

  // Dispatch of one part.

  lemma OnePair(d: V.Dispatch, p: V.Pair)
    ensures V.ApplyAll(d, [p]) == V.Apply(d, p)
  {
    assert V.ApplyAll(V.Apply(d, p), [p][1..]) == V.Apply(d, p);
  }

  lemma ThreePairs(d: V.Dispatch, p: V.Pair, q: V.Pair, r: V.Pair)
    ensures V.ApplyAll(d, [p, q, r]) == V.Apply(V.Apply(V.Apply(d, p), q), r)
  {
    assert [p, q, r][1..] == [q, r] && [q, r][1..] == [r];
    OnePair(V.Apply(V.Apply(d, p), q), r);
    assert V.ApplyAll(V.Apply(d, p), [q, r]) == V.ApplyAll(V.Apply(V.Apply(d, p), q), [r]);
  }

  lemma KeysDiffer()
    ensures V.CONTENT_TYPE != V.PARENT_MESSAGE_ID && V.CONTENT_TYPE != V.FILENAME
    ensures V.PARENT_MESSAGE_ID != V.FILENAME
  {
    assert |V.CONTENT_TYPE| == 12 && |V.PARENT_MESSAGE_ID| == 17 && |V.FILENAME| == 8;
  }

  lemma PartDispatched(d: V.Dispatch, s: Sent)
    requires s.Good()
    ensures V.Deliver(V.ApplyAll(d, s.ToItem().pairs), s.body) == Arriving(s)
  {
    Types();
    KeysDiffer();
    match s
    case SentDocument(more, body) =>
      OnePair(d, V.Pair(V.CONTENT_TYPE, V.JSON_TYPE + more));
      TypesTold(JSON_TEXT + more);
    case SentOther(ctype, body) =>
      OnePair(d, V.Pair(V.CONTENT_TYPE, ctype));
      TypesTold(ctype);
    case SentAudio(more, parent, name, body) =>
      ThreePairs(d, V.Pair(V.CONTENT_TYPE, V.OPUS_TYPE + more), V.Pair(V.PARENT_MESSAGE_ID, parent),
                 V.Pair(V.FILENAME, name));
      TypesTold(AUDIO_TEXT + more);
      A.CStringWhole(parent);
      EndTold(name);
  }

  lemma {:induction false} PartsDispatched(d: V.Dispatch, sent: seq<Sent>)
    requires forall i :: 0 <= i < |sent| ==> sent[i].Good()
    ensures A.Deliveries(d, ToItems(sent)) == AllArriving(sent)
    decreases |sent|
  {
    if sent != [] {
      var front, last := sent[..|sent| - 1], sent[|sent| - 1];
      assert ToItems(sent) == ToItems(front) + [last.ToItem()];
      PartsDispatched(d, front);
      A.DeliveriesSnoc(d, ToItems(front), last.ToItem());
      PartDispatched(V.ApplyAll(d, A.History(ToItems(front))), last);
    }
  }

  // The octets of a message are those of its printed items.

  lemma ItemGood(s: Sent)
    requires s.Good()
    ensures A.GoodPairs(s.ToItem().pairs)
  {
    Keys();
    Types();
    PlainKeys();
    PlainTexts();
  }

  lemma PlainKeys()
    ensures COLON !in TYPE_KEY && COLON !in PARENT_KEY && COLON !in NAME_KEY
    ensures CR !in TYPE_KEY && CR !in PARENT_KEY && CR !in NAME_KEY
  {
  }

  lemma PlainTexts()
    ensures OneLine(JSON_TEXT) && OneLine(AUDIO_TEXT)
  {
  }

  lemma LineBytes(key: seq<byte>, value: seq<byte>)
    ensures A.Line(V.Pair(key, value)) + [CR, LF] == HeadLine(key, value)
  {
  }

  lemma HeadBytes(s: Sent)
    ensures P.HeaderText(A.Lines(s.ToItem().pairs)) == s.Head()
  {
    Keys();
    Types();
    match s
    case SentDocument(more, _) => OneLineText(V.Pair(TYPE_KEY, JSON_TEXT + more));
    case SentOther(ctype, _) => OneLineText(V.Pair(TYPE_KEY, ctype));
    case SentAudio(more, parent, name, _) =>
      var p, q, r := V.Pair(TYPE_KEY, AUDIO_TEXT + more), V.Pair(PARENT_KEY, parent), V.Pair(NAME_KEY, name);
      assert [p, q, r][1..] == [q, r] && [q, r][1..] == [r];
      FirstLineText(p, [q, r]);
      FirstLineText(q, [r]);
      OneLineText(r);
  }

  lemma FirstLineText(p: V.Pair, rest: seq<V.Pair>)
    ensures P.HeaderText(A.Lines([p] + rest)) == HeadLine(p.key, p.value) + P.HeaderText(A.Lines(rest))
  {
    LineBytes(p.key, p.value);
    assert ([p] + rest)[1..] == rest;
    assert A.Lines([p] + rest)[1..] == A.Lines(rest);
  }

  lemma OneLineText(p: V.Pair)
    ensures P.HeaderText(A.Lines([p])) == HeadLine(p.key, p.value)
  {
    FirstLineText(p, []);
    assert [p] + [] == [p] && HeadLine(p.key, p.value) + [] == HeadLine(p.key, p.value);
  }

  lemma PartPrinted(boundary: seq<byte>, s: Sent)
    ensures P.PrintPart(boundary, s.ToItem().ToPart()) == PartBytes(boundary, s)
  {
    HeadBytes(s);
    var head := s.Head() + [CR, LF];
    assert P.PrintHead(boundary, s.ToItem().ToPart()) == ([HYPHEN, HYPHEN] + boundary + [CR, LF]) + head;
  }

  lemma {:induction false} MessagePrinted(boundary: seq<byte>, sent: seq<Sent>)
    ensures P.Print(boundary, A.Parts(ToItems(sent))) == WireBytes(boundary, sent)
    decreases |sent|
  {
    var parts := A.Parts(ToItems(sent));
    if sent != [] {
      PartPrinted(boundary, sent[0]);
      assert ToItems(sent)[1..] == ToItems(sent[1..]);
      assert parts[1..] == A.Parts(ToItems(sent[1..]));
      MessagePrinted(boundary, sent[1..]);
    } else {
      assert P.Closing(boundary) == [45, 45] + boundary + [45, 45, 13, 10];
    }
  }

  /**
   Documents arrive as documents, audio as attachments with the parent id and end flag of its own headers, anything
   else not at all; in order, whole, whatever the chunks, as long as none is cut through a boundary.
   */
  lemma SentArrive(boundary: seq<byte>, d: V.Dispatch, sent: seq<Sent>, tail: seq<byte>, chunks: seq<seq<byte>>)
    requires |boundary| > 0 && forall i :: 0 <= i < |sent| ==> sent[i].Good()
    requires Flatten(chunks) == WireBytes(boundary, sent) + tail && C.SafeCuts(boundary, M.INITIAL, chunks)
    ensures V.Handle(d, C.ParseAll(boundary, M.INITIAL, chunks).events).1 == AllArriving(sent)
  {
    forall i | 0 <= i < |sent|
      ensures A.GoodPairs(ToItems(sent)[i].pairs) && P.Delimited(ToItems(sent)[i].body)
    {
      ItemGood(sent[i]);
    }
    MessagePrinted(boundary, sent);
    A.MessageDelivered(boundary, d, ToItems(sent), tail, chunks);
    PartsDispatched(d, sent);
  }
}

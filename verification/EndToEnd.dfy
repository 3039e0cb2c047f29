/**
 The whole way down: documents and attachments printed into a multipart stream, cut into chunks by the network,
 parsed, split and dispatched on the network thread, handed over through the queue and collected by the agent of
 a directive.
 */
module EndToEnd {
  import opened Bytes
  import opened DirectiveQueue
  import opened AttachmentDelivery
  import A = Attachments
  import M = MultipartParser
  import C = MultipartChunks
  import P = MultipartRoundTrip
  import V = V1Directives
  import W = WireFormat
  import Wakeup

  /** _body_opus: the attachment as it is queued. */
  function ToPending(d: V.Delivery): Pending
    requires d.Attachment? && d.parent.Some?
  {
    NewAttachment(d.parent.value, "audio/opus", d.isEnd, d.data)
  }

  /** The queued attachments for an id, in order. */
  function AttachmentsFor(items: seq<Pending>, msgId: seq<byte>): seq<Pending> {
    if items == [] then []
    else
      var last := items[|items| - 1];
      AttachmentsFor(items[..|items| - 1], msgId) + (if last.NewAttachment? && last.parent == msgId then [last] else [])
  }

  /** The attachments for an id that the parser's callbacks deliver, in order. */
  function AttachmentsIn(got: seq<V.Delivery>, msgId: seq<byte>): seq<Pending> {
    if got == [] then []
    else
      var last := got[|got| - 1];
      AttachmentsIn(got[..|got| - 1], msgId) +
      (if last.Attachment? && last.parent == Some(msgId) then [ToPending(last)] else [])
  }

  // What was sent, by the printed headers alone.

  /** The latest type announced up to the last of these items is audio, and the latest parent id is this one. */
  predicate AddressedTo(d: V.Dispatch, items: seq<A.Item>, msgId: seq<byte>) {
    var pairs := A.History(items);
    var ctype := match A.Latest(pairs, V.CONTENT_TYPE) case Some(v) => V.TypeOf(v) case None => d.ctype;
    var parent := match A.Latest(pairs, V.PARENT_MESSAGE_ID) case Some(v) => Some(V.CString(v)) case None => d.parent;
    ctype == V.OPUS && parent == Some(msgId)
  }

  predicate MarkedEnd(d: V.Dispatch, items: seq<A.Item>) {
    match A.Latest(A.History(items), V.FILENAME)
    case Some(v) => V.Mentions(v, V.END_MARK)
    case None => d.isEnd
  }

  /** The bodies sent to an id, in order. */
  function SentTo(d: V.Dispatch, items: seq<A.Item>, msgId: seq<byte>): seq<byte> {
    if items == [] then []
    else
      var n := |items| - 1;
      SentTo(d, items[..n], msgId) + (if AddressedTo(d, items, msgId) then items[n].body else [])
  }

  predicate EndSentTo(d: V.Dispatch, items: seq<A.Item>, msgId: seq<byte>) {
    items != [] &&
    (EndSentTo(d, items[..|items| - 1], msgId) || (AddressedTo(d, items, msgId) && MarkedEnd(d, items)))
  }

  // The lemmas.

  lemma ForSnoc(items: seq<Pending>, item: Pending, msgId: seq<byte>)
    ensures AttachmentsFor(items + [item], msgId) ==
            AttachmentsFor(items, msgId) + (if item.NewAttachment? && item.parent == msgId then [item] else [])
  {
    assert (items + [item])[..|items|] == items;
  }

  lemma {:induction false} ForHistory(items: seq<Pending>, msgId: seq<byte>)
    ensures BytesFor(AttachmentsFor(items, msgId), msgId) == BytesFor(items, msgId)
    ensures EndFor(AttachmentsFor(items, msgId), msgId) == EndFor(items, msgId)
  {
    if items != [] {
      var front, last := items[..|items| - 1], items[|items| - 1];
      var kept := AttachmentsFor(front, msgId);
      assert items == front + [last];
      ForHistory(front, msgId);
      HistorySnoc(front, last, msgId);
      ForSnoc(front, last, msgId);
      HistorySnoc(kept, last, msgId);
      assert kept + [] == kept;
    }
  }

  lemma {:induction false} ForAppend(a: seq<Pending>, b: seq<Pending>, msgId: seq<byte>)
    ensures AttachmentsFor(a + b, msgId) == AttachmentsFor(a, msgId) + AttachmentsFor(b, msgId)
    decreases |b|
  {
    if b == [] {
      assert a + b == a;
    } else {
      var n := |b| - 1;
      assert (a + b)[..|a| + n] == a + b[..n];
      ForAppend(a, b[..n], msgId);
    }
  }

  /** The attachments that a delivery is for the id: one or none. */
  function OneIn(last: V.Delivery, msgId: seq<byte>): seq<Pending> {
    if last.Attachment? && last.parent == Some(msgId) then [ToPending(last)] else []
  }

  lemma InSnoc(before: seq<V.Delivery>, last: V.Delivery, msgId: seq<byte>)
    ensures AttachmentsIn(before + [last], msgId) == AttachmentsIn(before, msgId) + OneIn(last, msgId)
  {
    assert (before + [last])[..|before|] == before;
  }

  /** One more delivery, by its type, parent id and end flag. */
  lemma InDeliver(before: seq<V.Delivery>, end: V.Dispatch, body: seq<byte>, msgId: seq<byte>)
    ensures var sent := end.ctype == V.OPUS && end.parent == Some(msgId);
            var all := AttachmentsIn(before + V.Deliver(end, body), msgId);
            && BytesFor(all, msgId) == BytesFor(AttachmentsIn(before, msgId), msgId) + (if sent then body else [])
            && (EndFor(all, msgId) <==> EndFor(AttachmentsIn(before, msgId), msgId) || (sent && end.isEnd))
  {
    var got := AttachmentsIn(before, msgId);
    match end.ctype
    case UNKNOWN => assert before + [] == before;
    case JSON =>
      InSnoc(before, V.Document(body), msgId);
      assert got + [] == got;
    case OPUS =>
      InSnoc(before, V.Attachment(end.parent, end.isEnd, body), msgId);
      assert got + [] == got;
      if end.parent == Some(msgId) {
        HistorySnoc(got, NewAttachment(msgId, "audio/opus", end.isEnd, body), msgId);
      }
  }

  lemma {:induction false} InDelivered(d: V.Dispatch, items: seq<A.Item>, msgId: seq<byte>)
    ensures BytesFor(AttachmentsIn(A.Deliveries(d, items), msgId), msgId) == SentTo(d, items, msgId)
    ensures EndFor(AttachmentsIn(A.Deliveries(d, items), msgId), msgId) == EndSentTo(d, items, msgId)
    decreases |items|
  {
    if items != [] {
      var n := |items| - 1;
      InDelivered(d, items[..n], msgId);
      A.LatestHeaderWins(d, A.History(items));
      InDeliver(A.Deliveries(d, items[..n]), V.ApplyAll(d, A.History(items)), items[n].body, msgId);
    }
  }

  /** What comes behind the document of item k. */
  lemma BehindDocument(d: V.Dispatch, items: seq<A.Item>, k: nat, doc: seq<byte>,
                       before: seq<V.Delivery>, after: seq<V.Delivery>)
    requires k < |items| && V.ApplyAll(d, A.History(items[..k + 1])).ctype == V.JSON
    requires A.Deliveries(d, items) == before + ([V.Document(doc)] + after)
    requires |before| == |A.Deliveries(d, items[..k])|
    ensures after == A.Deliveries(V.ApplyAll(d, A.History(items[..k + 1])), items[k + 1..])
  {
    DocumentIsOne(d, items, k);
    DeliveriesAt(d, items, k + 1);
    SameRest(before, V.Document(doc), after, A.Deliveries(d, items[..k + 1]),
             A.Deliveries(V.ApplyAll(d, A.History(items[..k + 1])), items[k + 1..]));
  }

  lemma DeliveriesAt(d: V.Dispatch, items: seq<A.Item>, n: nat)
    requires n <= |items|
    ensures A.Deliveries(d, items) ==
            A.Deliveries(d, items[..n]) + A.Deliveries(V.ApplyAll(d, A.History(items[..n])), items[n..])
  {
    assert items == items[..n] + items[n..];
    A.DeliveriesAppend(d, items[..n], items[n..]);
  }

  lemma DocumentIsOne(d: V.Dispatch, items: seq<A.Item>, k: nat)
    requires k < |items| && V.ApplyAll(d, A.History(items[..k + 1])).ctype == V.JSON
    ensures |A.Deliveries(d, items[..k + 1])| == |A.Deliveries(d, items[..k])| + 1
  {
    assert items[..k + 1] == items[..k] + [items[k]];
    A.DeliveriesSnoc(d, items[..k], items[k]);
  }

  lemma SameRest<T>(before: seq<T>, x: T, after: seq<T>, front: seq<T>, rest: seq<T>)
    requires before + ([x] + after) == front + rest && |front| == |before| + 1
    ensures after == rest
  {
    assert after == (before + ([x] + after))[|front|..] && rest == (front + rest)[|front|..];
  }

  /**
   A message of documents and attachments, in whatever chunks, as long as none is cut through a boundary, and
   whatever the interleaving of threads and agents. The directive comes from the document of item k, and the
   attachments queued for its id since it came on the list are those delivered behind that document, whatever else
   is queued. Once all have come to rest, the bytes that its agent has taken, and those still waiting for it, are
   the bodies sent to its id behind the document, exactly when none of them was processed while an older directive
   of that id stood.
   */
  lemma FromWireToAgent(boundary: seq<byte>, d: V.Dispatch, items: seq<A.Item>, tail: seq<byte>,
                        chunks: seq<seq<byte>>, k: nat, before: seq<V.Delivery>, doc: seq<byte>,
                        after: seq<V.Delivery>, steps: seq<Step>, i: nat)
    requires |boundary| > 0 && A.GoodItems(items)
    requires Flatten(chunks) == P.Print(boundary, A.Parts(items)) + tail
    requires C.SafeCuts(boundary, M.INITIAL, chunks)
    // the document among what the parser's callbacks deliver
    requires k < |items| && V.ApplyAll(d, A.History(items[..k + 1])).ctype == V.JSON
    requires V.Handle(d, C.ParseAll(boundary, M.INITIAL, chunks).events).1 == before + ([V.Document(doc)] + after)
    requires |before| == |A.Deliveries(d, items[..k])|
    // the directive, and what is queued for it
    requires IsRun(INITIAL, steps) && Wakeup.Quiet(After(INITIAL, steps).link)
    requires i < |After(INITIAL, steps).main.dirs|
    requires var dir, pushed := After(INITIAL, steps).main.dirs[i], After(INITIAL, steps).link.pushed;
             && dir.msgId != [] && dir.since <= |pushed|
             && AttachmentsFor(pushed[dir.since..], dir.msgId) == AttachmentsIn(after, dir.msgId)
    ensures var m := After(INITIAL, steps).main;
            var dir := m.dirs[i];
            var start := V.ApplyAll(d, A.History(items[..k + 1]));
            && dir.since <= Heard(m, i) <= |m.processed|
            && (dir.taken + dir.buffered == SentTo(start, items[k + 1..], dir.msgId) <==>
                  BytesFor(Missed(m, i), dir.msgId) == [])
            && (First(m.dirs, i) && Heard(m, i) == dir.since ==>
                  && dir.taken + dir.buffered == SentTo(start, items[k + 1..], dir.msgId)
                  && dir.ended == EndSentTo(start, items[k + 1..], dir.msgId))
  {
    var m := After(INITIAL, steps).main;
    var dir, pushed := m.dirs[i], After(INITIAL, steps).link.pushed;
    var start := V.ApplyAll(d, A.History(items[..k + 1]));
    A.MessageDelivered(boundary, d, items, tail, chunks);
    BehindDocument(d, items, k, doc, before, after);
    InDelivered(start, items[k + 1..], dir.msgId);
    ForHistory(pushed[dir.since..], dir.msgId);
    NothingLeftBehind(steps, i);
  }

  // When the queue holds just that.

  /** What one network thread queues for its deliveries; `read` is what the JSON reader makes of a document. */
  function Queue(got: seq<V.Delivery>, read: seq<byte> -> seq<Pending>): seq<Pending> {
    if got == [] then []
    else
      var last := got[|got| - 1];
      Queue(got[..|got| - 1], read) +
      (match last
       case Document(data) => read(data)
       case Attachment(parent, _, _) => if parent.Some? then [ToPending(last)] else [])
  }

  predicate OnlyDirectives(items: seq<Pending>) {
    forall j :: 0 <= j < |items| ==> items[j].NewDirective?
  }

  lemma {:induction false} DirectivesHaveNoData(items: seq<Pending>, msgId: seq<byte>)
    requires OnlyDirectives(items)
    ensures AttachmentsFor(items, msgId) == []
  {
    if items != [] {
      DirectivesHaveNoData(items[..|items| - 1], msgId);
    }
  }

  lemma {:induction false} QueueAttachments(got: seq<V.Delivery>, read: seq<byte> -> seq<Pending>, msgId: seq<byte>)
    requires forall data :: OnlyDirectives(read(data))
    ensures AttachmentsFor(Queue(got, read), msgId) == AttachmentsIn(got, msgId)
  {
    if got != [] {
      var n := |got| - 1;
      QueueAttachments(got[..n], read, msgId);
      assert Queue(got[..n], read) + [] == Queue(got[..n], read);
      match got[n]
      case Document(data) =>
        DirectivesHaveNoData(read(data), msgId);
        ForAppend(Queue(got[..n], read), read(data), msgId);
      case Attachment(parent, _, _) =>
        if parent.Some? {
          ForSnoc(Queue(got[..n], read), ToPending(got[n]), msgId);
        }
    }
  }

  /**
   One network thread alone: behind the directive it queues the other directives of the same document, and then
   what it makes of the deliveries that follow, later documents included. That is what FromWireToAgent asks for.
   */
  lemma OneProducer(siblings: seq<Pending>, after: seq<V.Delivery>, read: seq<byte> -> seq<Pending>, msgId: seq<byte>)
    requires OnlyDirectives(siblings) && forall data :: OnlyDirectives(read(data))
    ensures AttachmentsFor(siblings + Queue(after, read), msgId) == AttachmentsIn(after, msgId)
  {
    ForAppend(siblings, Queue(after, read), msgId);
    DirectivesHaveNoData(siblings, msgId);
    QueueAttachments(after, read, msgId);
  }

  // A document followed by its attachments.

  /** The data sent under an id, in order. */
  function Payload(sent: seq<A.Chunk>, msgId: seq<byte>): seq<byte> {
    if sent == [] then []
    else
      var last := sent[|sent| - 1];
      Payload(sent[..|sent| - 1], msgId) + (if last.parent == msgId then last.data else [])
  }

  /** For attachments that each name their parent, what was sent to an id is their data under that id. */
  lemma {:induction false} SentChunks(d: V.Dispatch, sent: seq<A.Chunk>, msgId: seq<byte>)
    requires forall j :: 0 <= j < |sent| ==> sent[j].Good()
    ensures SentTo(d, A.Items(sent), msgId) == Payload(sent, msgId)
  {
    if sent != [] {
      var n := |sent| - 1;
      var items := A.Items(sent);
      assert items[..n] == A.Items(sent[..n]);
      SentChunks(d, sent[..n], msgId);
      A.LatestHeaderWins(d, A.History(items));
      A.ApplyAllAppend(d, A.History(items[..n]), items[n].pairs);
      A.ApplyChunk(V.ApplyAll(d, A.History(items[..n])), sent[n]);
    }
  }

  // From what is sent.

  /** The audio sent to an id, in order. */
  function AudioFor(sent: seq<W.Sent>, msgId: seq<byte>): seq<byte> {
    if sent == [] then []
    else
      var last := sent[|sent| - 1];
      AudioFor(sent[..|sent| - 1], msgId) + (if last.SentAudio? && last.parent == msgId then last.body else [])
  }

  predicate NamesEndFor(s: W.Sent, msgId: seq<byte>) {
    s.SentAudio? && s.parent == msgId && W.NamesEnd(s.name)
  }

  /** Some audio sent to the id has "end" in its file name. */
  predicate AudioEnds(sent: seq<W.Sent>, msgId: seq<byte>) {
    sent != [] && (AudioEnds(sent[..|sent| - 1], msgId) || NamesEndFor(sent[|sent| - 1], msgId))
  }

  /** One more part. */
  lemma ArrivingStep(got: seq<V.Delivery>, s: W.Sent, msgId: seq<byte>)
    ensures var all := AttachmentsIn(got + W.Arriving(s), msgId);
            && BytesFor(all, msgId) == BytesFor(AttachmentsIn(got, msgId), msgId) +
                                       (if s.SentAudio? && s.parent == msgId then s.body else [])
            && (EndFor(all, msgId) <==> EndFor(AttachmentsIn(got, msgId), msgId) || NamesEndFor(s, msgId))
  {
    match s
    case SentOther(_, _) => assert got + [] == got;
    case SentDocument(_, body) =>
      InSnoc(got, V.Document(body), msgId);
      assert AttachmentsIn(got, msgId) + [] == AttachmentsIn(got, msgId);
    case SentAudio(_, parent, name, body) => AudioStep(got, parent, W.NamesEnd(name), body, msgId);
  }

  lemma AudioStep(got: seq<V.Delivery>, parent: seq<byte>, isEnd: bool, body: seq<byte>, msgId: seq<byte>)
    ensures var all := AttachmentsIn(got + [V.Attachment(Some(parent), isEnd, body)], msgId);
            && BytesFor(all, msgId) ==
               BytesFor(AttachmentsIn(got, msgId), msgId) + (if parent == msgId then body else [])
            && (EndFor(all, msgId) <==> EndFor(AttachmentsIn(got, msgId), msgId) || (parent == msgId && isEnd))
  {
    InSnoc(got, V.Attachment(Some(parent), isEnd, body), msgId);
    if parent == msgId {
      HistorySnoc(AttachmentsIn(got, msgId), NewAttachment(msgId, "audio/opus", isEnd, body), msgId);
    } else {
      assert AttachmentsIn(got, msgId) + [] == AttachmentsIn(got, msgId);
    }
  }

  lemma {:induction false} AudioArriving(sent: seq<W.Sent>, msgId: seq<byte>)
    ensures BytesFor(AttachmentsIn(W.AllArriving(sent), msgId), msgId) == AudioFor(sent, msgId)
    ensures EndFor(AttachmentsIn(W.AllArriving(sent), msgId), msgId) <==> AudioEnds(sent, msgId)
  {
    if sent != [] {
      var front, last := sent[..|sent| - 1], sent[|sent| - 1];
      AudioArriving(front, msgId);
      ArrivingStep(W.AllArriving(front), last, msgId);
      assert W.AllArriving(sent) == W.AllArriving(front) + W.Arriving(last);
    }
  }

  /** What the agent of a directive has, of the attachments queued for its id since it came on the list. */
  lemma AgentGets(steps: seq<Step>, i: nat, queued: seq<Pending>)
    requires IsRun(INITIAL, steps) && Wakeup.Quiet(After(INITIAL, steps).link)
    requires i < |After(INITIAL, steps).main.dirs|
    requires var dir, pushed := After(INITIAL, steps).main.dirs[i], After(INITIAL, steps).link.pushed;
             && dir.msgId != [] && dir.since <= |pushed|
             && AttachmentsFor(pushed[dir.since..], dir.msgId) == queued
    ensures var m := After(INITIAL, steps).main;
            var dir := m.dirs[i];
            && dir.since <= Heard(m, i) <= |m.processed|
            && (dir.taken + dir.buffered == BytesFor(queued, dir.msgId) <==> BytesFor(Missed(m, i), dir.msgId) == [])
            && (First(m.dirs, i) && Heard(m, i) == dir.since ==>
                  && dir.taken + dir.buffered == BytesFor(queued, dir.msgId)
                  && dir.ended == EndFor(queued, dir.msgId))
  {
    var dir, pushed := After(INITIAL, steps).main.dirs[i], After(INITIAL, steps).link.pushed;
    ForHistory(pushed[dir.since..], dir.msgId);
    NothingLeftBehind(steps, i);
  }

  lemma {:induction false} ArrivingAppend(a: seq<W.Sent>, b: seq<W.Sent>)
    ensures W.AllArriving(a + b) == W.AllArriving(a) + W.AllArriving(b)
    decreases |b|
  {
    if b == [] {
      assert a + b == a && W.AllArriving(a) + [] == W.AllArriving(a);
    } else {
      var front, last := b[..|b| - 1], b[|b| - 1];
      assert (a + b)[..|a + b| - 1] == a + front && (a + b)[|a + b| - 1] == last;
      ArrivingAppend(a, front);
      Assoc(W.AllArriving(a), W.AllArriving(front), W.Arriving(last));
    }
  }

  /** What comes behind document k. */
  lemma BehindSent(sent: seq<W.Sent>, k: nat, before: seq<V.Delivery>, after: seq<V.Delivery>)
    requires k < |sent| && sent[k].SentDocument? && |before| == |W.AllArriving(sent[..k])|
    requires W.AllArriving(sent) == before + ([V.Document(sent[k].body)] + after)
    ensures after == W.AllArriving(sent[k + 1..])
  {
    var upto := sent[..k + 1];
    assert upto[..k] == sent[..k] && sent == upto + sent[k + 1..];
    ArrivingAppend(upto, sent[k + 1..]);
    SameRest(before, V.Document(sent[k].body), after, W.AllArriving(upto), W.AllArriving(sent[k + 1..]));
  }

  /**
   The same from what is sent: the agent of a directive from document k gets the audio sent to its id behind that
   document, whatever else is sent, exactly when none of it came while an older directive of that id stood.
   */
  lemma FromSentToAgent(boundary: seq<byte>, d: V.Dispatch, sent: seq<W.Sent>, tail: seq<byte>,
                        chunks: seq<seq<byte>>, k: nat, before: seq<V.Delivery>, after: seq<V.Delivery>,
                        steps: seq<Step>, i: nat)
    requires |boundary| > 0 && forall j :: 0 <= j < |sent| ==> sent[j].Good()
    requires Flatten(chunks) == W.WireBytes(boundary, sent) + tail && C.SafeCuts(boundary, M.INITIAL, chunks)
    // the document among what the parser's callbacks deliver
    requires k < |sent| && sent[k].SentDocument? && |before| == |W.AllArriving(sent[..k])|
    requires V.Handle(d, C.ParseAll(boundary, M.INITIAL, chunks).events).1 ==
             before + ([V.Document(sent[k].body)] + after)
    // the directive, and what is queued for it
    requires IsRun(INITIAL, steps) && Wakeup.Quiet(After(INITIAL, steps).link)
    requires i < |After(INITIAL, steps).main.dirs|
    requires var dir, pushed := After(INITIAL, steps).main.dirs[i], After(INITIAL, steps).link.pushed;
             && dir.msgId != [] && dir.since <= |pushed|
             && AttachmentsFor(pushed[dir.since..], dir.msgId) == AttachmentsIn(after, dir.msgId)
    ensures var m := After(INITIAL, steps).main;
            var dir := m.dirs[i];
            && dir.since <= Heard(m, i) <= |m.processed|
            && (dir.taken + dir.buffered == AudioFor(sent[k + 1..], dir.msgId) <==>
                  BytesFor(Missed(m, i), dir.msgId) == [])
            && (First(m.dirs, i) && Heard(m, i) == dir.since ==>
                  && dir.taken + dir.buffered == AudioFor(sent[k + 1..], dir.msgId)
                  && dir.ended == AudioEnds(sent[k + 1..], dir.msgId))
  {
    var msgId := After(INITIAL, steps).main.dirs[i].msgId;
    W.SentArrive(boundary, d, sent, tail, chunks);
    BehindSent(sent, k, before, after);
    AudioArriving(sent[k + 1..], msgId);
    AgentGets(steps, i, AttachmentsIn(after, msgId));
  }
}

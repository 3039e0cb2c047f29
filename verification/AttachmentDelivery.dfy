/**
 In-order attachment delivery, end to end: any number of network threads push directives and attachments, the
 main loop drains them one at a time, and between the drains agents take data, set callbacks and complete
 directives in any order.
 */
module AttachmentDelivery {
  import opened Bytes
  import opened DirectiveQueue
  import Wakeup

  /** The payloads of the attachments for an id, in order. */
  function BytesFor(items: seq<Pending>, msgId: seq<byte>): seq<byte> {
    if items == [] then []
    else
      var last := items[|items| - 1];
      BytesFor(items[..|items| - 1], msgId) + (if last.NewAttachment? && last.parent == msgId then last.data else [])
  }

  predicate EndFor(items: seq<Pending>, msgId: seq<byte>) {
    exists i :: 0 <= i < |items| && items[i].NewAttachment? && items[i].parent == msgId && items[i].isEnd
  }

  /** The directive has received the payloads and the end mark that these items hold for its id, and nothing else. */
  ghost predicate Has(d: Dir, items: seq<Pending>) {
    d.taken + d.buffered == BytesFor(items, d.msgId) && d.ended == EndFor(items, d.msgId)
  }

  /** What reaches a directive: everything for its id since it became the first of that id, and nothing before. */
  function Reaching(m: Main, i: nat): seq<Pending>
    requires i < |m.dirs|
  {
    if m.dirs[i].msgId != [] && First(m.dirs, i) && Heard(m, i) <= |m.processed| then m.processed[Heard(m, i)..] else []
  }

  ghost predicate Right(m: Main, i: nat)
    requires i < |m.dirs|
  {
    m.dirs[i].since <= |m.processed| && Has(m.dirs[i], Reaching(m, i))
  }

  ghost predicate AllRight(m: Main) {
    && (forall i :: 0 <= i < |m.dirs| ==> Right(m, i))
    && (forall id :: id in m.left ==> m.left[id] <= |m.processed|)
  }

  ghost predicate SeenRight(o: Observation, processed: seq<Pending>) {
    && o.dir.msgId != [] && o.dir.since <= o.heard <= o.upto <= |processed|
    && Has(o.dir, processed[o.heard..o.upto])
  }

  ghost predicate AllSeenRight(seen: seq<Observation>, processed: seq<Pending>) {
    forall i :: 0 <= i < |seen| ==> SeenRight(seen[i], processed)
  }

  ghost predicate Delivered(m: Main) {
    AllRight(m) && AllSeenRight(m.seen, m.processed)
  }

  lemma HistorySnoc(items: seq<Pending>, item: Pending, msgId: seq<byte>)
    ensures BytesFor(items + [item], msgId) ==
            BytesFor(items, msgId) + (if item.NewAttachment? && item.parent == msgId then item.data else [])
    ensures EndFor(items + [item], msgId) <==>
            EndFor(items, msgId) || (item.NewAttachment? && item.parent == msgId && item.isEnd)
  {
    var all := items + [item];
    assert all[..|items|] == items;
    assert all[|items|] == item;
    if EndFor(items, msgId) {
      var i :| 0 <= i < |items| && items[i].NewAttachment? && items[i].parent == msgId && items[i].isEnd;
      assert all[i] == items[i];
    }
  }

  lemma SeenSnoc(seen: seq<Observation>, processed: seq<Pending>, item: Pending)
    requires AllSeenRight(seen, processed)
    ensures AllSeenRight(seen, processed + [item])
  {
    forall i | 0 <= i < |seen|
      ensures SeenRight(seen[i], processed + [item])
    {
      var o := seen[i];
      assert (processed + [item])[o.heard..o.upto] == processed[o.heard..o.upto];
    }
  }

  /** One more processed item reaches exactly the first directive of its id. */
  lemma ReachingSnoc(m: Main, item: Pending, i: nat)
    requires AllRight(m) && i < |m.dirs|
    ensures var t := m.(processed := m.processed + [item]);
            Reaching(t, i) == Reaching(m, i) + (if m.dirs[i].msgId != [] && First(m.dirs, i) then [item] else [])
  {
    var t := m.(processed := m.processed + [item]);
    assert Right(m, i);
    assert Heard(t, i) == Heard(m, i) <= |m.processed|;
    assert t.processed[Heard(m, i)..] == m.processed[Heard(m, i)..] + [item];
  }

  /** An item that is for nobody on the list. */
  lemma NothingRouted(m: Main, item: Pending)
    requires Delivered(m) && (item.NewAttachment? ==> Find(m.dirs, item.parent) == None)
    ensures Delivered(m.(processed := m.processed + [item]))
  {
    var t := m.(processed := m.processed + [item]);
    SeenSnoc(m.seen, m.processed, item);
    forall i | 0 <= i < |t.dirs|
      ensures Right(t, i)
    {
      NotForHim(m, item, i);
    }
  }

  lemma NotForHim(m: Main, item: Pending, i: nat)
    requires AllRight(m) && i < |m.dirs|
    requires m.dirs[i].msgId != [] && First(m.dirs, i) ==> !(item.NewAttachment? && item.parent == m.dirs[i].msgId)
    ensures Right(m.(processed := m.processed + [item]), i)
  {
    var d := m.dirs[i];
    assert Right(m, i);
    ReachingSnoc(m, item, i);
    if d.msgId != [] && First(m.dirs, i) {
      HistorySnoc(Reaching(m, i), item, d.msgId);
      assert BytesFor(Reaching(m, i), d.msgId) + [] == BytesFor(Reaching(m, i), d.msgId);
    } else {
      assert Reaching(m, i) + [] == Reaching(m, i);
    }
  }

  lemma ReceiveHas(d: Dir, items: seq<Pending>, item: Pending)
    requires Has(d, items) && item.NewAttachment? && item.parent == d.msgId
    ensures Has(d.Receive(item.mediaType, item.isEnd, item.data), items + [item])
  {
    HistorySnoc(items, item, d.msgId);
    Assoc(d.taken, d.buffered, item.data);
  }

  /** A list in which one directive changed, but not its id and arrival. */
  lemma SamePlaces(m: Main, at: nat, d: Dir, i: nat)
    requires at < |m.dirs| && d.msgId == m.dirs[at].msgId && d.since == m.dirs[at].since && i < |m.dirs|
    ensures var t := m.(dirs := m.dirs[at := d]);
            First(t.dirs, i) == First(m.dirs, i) && Heard(t, i) == Heard(m, i) && Reaching(t, i) == Reaching(m, i)
  {
    SameFirst(m.dirs, m.dirs[at := d], i);
  }

  lemma SameFirst(dirs: seq<Dir>, dirs': seq<Dir>, i: nat)
    requires i < |dirs| <= |dirs'| && forall j :: 0 <= j <= i ==> dirs'[j].msgId == dirs[j].msgId
    ensures First(dirs', i) == First(dirs, i)
  {
    if First(dirs', i) {
      forall j | 0 <= j < i
        ensures dirs[j].msgId != dirs[i].msgId
      {
        assert dirs'[j].msgId == dirs[j].msgId;
      }
    }
  }

  /** The attachment reaches the directive found, and no other. */
  lemma AttachmentRouted(m: Main, item: Pending, at: nat)
    requires Delivered(m) && item.NewAttachment? && Find(m.dirs, item.parent) == Some(at)
    ensures var d := m.dirs[at].Receive(item.mediaType, item.isEnd, item.data);
            Delivered(m.(processed := m.processed + [item], dirs := m.dirs[at := d]))
  {
    var d := m.dirs[at].Receive(item.mediaType, item.isEnd, item.data);
    var taken := m.(processed := m.processed + [item]);
    var t := taken.(dirs := m.dirs[at := d]);
    SeenSnoc(m.seen, m.processed, item);
    forall i | 0 <= i < |m.dirs|
      ensures Right(t, i)
    {
      SamePlaces(taken, at, d, i);
      if i == at {
        assert Right(m, at);
        ReachingSnoc(m, item, at);
        ReceiveHas(m.dirs[at], Reaching(m, at), item);
      } else {
        NotForHim(m, item, i);
      }
    }
  }

  /** A directive whose received data stays the same, taken or not. */
  lemma Updated(m: Main, at: nat, d: Dir)
    requires Delivered(m) && at < |m.dirs|
    requires d.msgId == m.dirs[at].msgId && d.since == m.dirs[at].since && d.ended == m.dirs[at].ended
    requires d.taken + d.buffered == m.dirs[at].taken + m.dirs[at].buffered
    ensures Delivered(m.(dirs := m.dirs[at := d]))
  {
    var t := m.(dirs := m.dirs[at := d]);
    forall i | 0 <= i < |t.dirs|
      ensures Right(t, i)
    {
      assert Right(m, i);
      SamePlaces(m, at, d, i);
    }
  }

  lemma Listed(m: Main, d: Dir)
    requires Delivered(m) && d.since == |m.processed|
    requires d.taken == [] && d.buffered == [] && !d.ended
    ensures Delivered(m.(dirs := m.dirs + [d]))
  {
    var t := m.(dirs := m.dirs + [d]);
    forall i | 0 <= i < |t.dirs|
      ensures Right(t, i)
    {
      if i < |m.dirs| {
        assert Right(m, i);
        SameFirst(m.dirs, t.dirs, i);
        assert Reaching(t, i) == Reaching(m, i);
      } else {
        assert t.dirs[i] == d && Heard(t, i) == |m.processed|;
        assert Reaching(t, i) == [];
      }
    }
  }

  /** The list after a removal: whoever was next of the id of the directive gone is the first now. */
  lemma AfterRemoval(dirs: seq<Dir>, at: nat, i: nat)
    requires at < |dirs| && i < |dirs| - 1
    ensures var rest := RemoveAt(dirs, at);
            var k := if i < at then i else i + 1;
            && rest[i] == dirs[k]
            && (First(dirs, k) ==> First(rest, i))
            && (First(rest, i) && !First(dirs, k) ==> First(dirs, at) && dirs[at].msgId == dirs[k].msgId)
            && (First(dirs, at) && dirs[at].msgId == dirs[k].msgId ==> !First(dirs, k))
  {
    var rest := RemoveAt(dirs, at);
    var k := if i < at then i else i + 1;
    forall j | 0 <= j < i
      ensures rest[j] == dirs[if j < at then j else j + 1]
    {
      RemovedIndex(dirs, at, j);
    }
    RemovedIndex(dirs, at, i);
    forall j | 0 <= j < k && j != at
      ensures rest[if j < at then j else j - 1] == dirs[j]
    {
      RemovedIndex(dirs, at, if j < at then j else j - 1);
    }
    if First(rest, i) && !First(dirs, k) {
      var j :| 0 <= j < k && dirs[j].msgId == dirs[k].msgId;
      assert j == at;
      forall n | 0 <= n < at
        ensures dirs[n].msgId != dirs[at].msgId
      {
        assert rest[n] == dirs[n];
      }
    }
  }

  lemma Left(m: Main, at: nat)
    requires Delivered(m) && at < |m.dirs|
    ensures Delivered(Leave(m, at))
  {
    var t := Leave(m, at);
    forall i | 0 <= i < |t.dirs|
      ensures Right(t, i)
    {
      var k := if i < at then i else i + 1;
      assert Right(m, k);
      AfterRemoval(m.dirs, at, i);
      if First(m.dirs, at) && m.dirs[at].msgId == m.dirs[k].msgId {
        assert Heard(t, i) == |m.processed|;
        assert Reaching(m, k) == [] && Reaching(t, i) == [];
      } else {
        assert Heard(t, i) == Heard(m, k);
        assert Reaching(t, i) == Reaching(m, k);
      }
    }
  }

  /** Heard means what it says: a removal that makes a directive the first of its id sets it, and no other moves it. */
  lemma HeardWhenFirst(m: Main, at: nat, i: nat)
    requires Delivered(m) && at < |m.dirs| && i < |m.dirs| - 1
    ensures var t := Leave(m, at);
            var k := if i < at then i else i + 1;
            First(t.dirs, i) ==> Heard(t, i) == if First(m.dirs, k) then Heard(m, k) else |m.processed|
  {
    AfterRemoval(m.dirs, at, i);
    assert Right(m, if i < at then i else i + 1);
  }

  /** The data callback sees exactly what reached its directive. */
  lemma ObservedRight(m: Main, at: nat, takes: bool)
    requires Delivered(m) && at < |m.dirs| && m.dirs[at].msgId != [] && First(m.dirs, at)
    ensures Delivered(Observed(m, at, m.dirs[at], takes))
  {
    var d := m.dirs[at];
    assert Right(m, at);
    assert m.processed[Heard(m, at)..|m.processed|] == m.processed[Heard(m, at)..];
    var seen := m.(seen := m.seen + [Observation(d, Heard(m, at), |m.processed|)]);
    assert SeenRight(Observation(d, Heard(m, at), |m.processed|), m.processed);
    SameReaching(m, seen);
    TakeKeeps(d);
    Updated(seen, at, if takes then d.Take() else d);
  }

  lemma SameReaching(m: Main, t: Main)
    requires AllRight(m) && t.dirs == m.dirs && t.processed == m.processed && t.left == m.left
    ensures AllRight(t)
  {
    forall i | 0 <= i < |t.dirs|
      ensures Right(t, i)
    {
      assert Right(m, i) && Reaching(t, i) == Reaching(m, i);
    }
  }

  lemma TakeKeeps(d: Dir)
    ensures d.Take().taken + d.Take().buffered == d.taken + d.buffered
  {
  }

  lemma FoundStep(m: Main, item: Pending, at: nat, a: Answer)
    requires Delivered(m) && item.NewAttachment? && Find(m.dirs, item.parent) == Some(at)
    ensures Delivered(Found(m.(processed := m.processed + [item]), at, item.mediaType, item.isEnd, item.data, a))
  {
    var taken := m.(processed := m.processed + [item]);
    var d := m.dirs[at].Receive(item.mediaType, item.isEnd, item.data);
    var got := taken.(dirs := m.dirs[at := d]);
    AttachmentRouted(m, item, at);
    SamePlaces(taken, at, d, at);
    ObservedRight(got, at, a.takes);
    ObservedAlike(taken, at, d, a.takes);
    Left(Observed(taken, at, d, a.takes), at);
  }

  lemma ObservedAlike(m: Main, at: nat, d: Dir, takes: bool)
    requires at < |m.dirs| && d.msgId == m.dirs[at].msgId && d.since == m.dirs[at].since
    ensures Observed(m.(dirs := m.dirs[at := d]), at, d, takes) == Observed(m, at, d, takes)
  {
    SamePlaces(m, at, d, at);
  }

  /** Processing any item, whatever the callbacks do, keeps delivery in order and complete. */
  lemma ProcessStep(m: Main, item: Pending, a: Answer)
    requires Delivered(m)
    ensures Delivered(Process(m, item, a))
    ensures Process(m, item, a).processed == m.processed + [item]
  {
    match item
    case NewDirective(id, msgId) =>
      NothingRouted(m, item);
      var taken := m.(processed := m.processed + [item]);
      Listed(taken, Started(taken, id, msgId, a));
      Left(taken.(dirs := m.dirs + [Started(taken, id, msgId, a)]), |m.dirs|);
    case NewAttachment(parent, _, _, _) =>
      match Find(m.dirs, parent) {
        case None => NothingRouted(m, item);
        case Some(at) => FoundStep(m, item, at, a);
      }
  }

  /** What agents do to a directive outside its callback. */
  datatype Action = TakeData | SetCallback(on: bool) | SetActive(active: bool) | CompleteDirective

  function Act(m: Main, at: nat, action: Action): Main
    requires at < |m.dirs|
  {
    match action
    case TakeData => m.(dirs := m.dirs[at := m.dirs[at].Take()])
    case SetCallback(on) => m.(dirs := m.dirs[at := m.dirs[at].(hasCallback := on)])
    case SetActive(active) => m.(dirs := m.dirs[at := m.dirs[at].(active := active)])
    case CompleteDirective => Leave(m, at)
  }

  lemma ActStep(m: Main, at: nat, action: Action)
    requires Delivered(m) && at < |m.dirs|
    ensures Delivered(Act(m, at, action))
  {
    var d := m.dirs[at];
    match action
    case TakeData =>
      TakeKeeps(d);
      Updated(m, at, d.Take());
    case CompleteDirective => Left(m, at);
    case SetCallback(on) => Updated(m, at, d.(hasCallback := on));
    case SetActive(active) => Updated(m, at, d.(active := active));
  }

  // The whole system.

  /** The hand-over and the main loop. */
  datatype System = System(link: Wakeup.State<Pending>, main: Main)

  const INITIAL := System(Wakeup.Initial(), EMPTY)

  /** A step of the hand-over, with the answers of the callbacks when it takes an item out, or an action of an agent. */
  datatype Step = Link(step: Wakeup.Step<Pending>, answer: Answer) | Agent(at: nat, action: Action)

  predicate Enabled(s: System, step: Step) {
    match step
    case Link(w, _) => Wakeup.Enabled(s.link, w)
    case Agent(at, _) => at < |s.main.dirs|
  }

  function Next(s: System, step: Step): System
    requires Enabled(s, step)
  {
    match step
    case Link(w, a) =>
      System(Wakeup.Next(s.link, w), if w.Pop? then Process(s.main, s.link.queue[0], a) else s.main)
    case Agent(at, action) => s.(main := Act(s.main, at, action))
  }

  predicate IsRun(s: System, steps: seq<Step>)
    decreases |steps|
  {
    steps != [] ==> Enabled(s, steps[0]) && IsRun(Next(s, steps[0]), steps[1..])
  }

  function After(s: System, steps: seq<Step>): System
    requires IsRun(s, steps)
    decreases |steps|
  {
    if steps == [] then s else After(Next(s, steps[0]), steps[1..])
  }

  ghost predicate Good(s: System) {
    && Wakeup.Heard(s.link) && Wakeup.InOrder(s.link)
    && Delivered(s.main) && s.main.processed == s.link.popped
  }

  lemma SystemStep(s: System, step: Step)
    requires Good(s) && Enabled(s, step)
    ensures Good(Next(s, step))
  {
    match step
    case Link(w, a) =>
      Wakeup.StepKeeps(s.link, w);
      if w.Pop? {
        ProcessStep(s.main, s.link.queue[0], a);
      }
    case Agent(at, action) => ActStep(s.main, at, action);
  }

  lemma {:induction false} SystemRun(s: System, steps: seq<Step>)
    requires Good(s) && IsRun(s, steps)
    ensures Good(After(s, steps))
    decreases |steps|
  {
    if steps != [] {
      SystemStep(s, steps[0]);
      SystemRun(Next(s, steps[0]), steps[1..]);
    }
  }

  /**
   In every reachable state, for every directive on the list: if it is the first of its id, the bytes taken and the
   bytes still buffered are the payloads for its id among the items processed since it became that, in the order in
   which they were pushed, and its end flag says whether the end is among them; if it is not, it has received
   nothing. And every data callback saw all bytes up to and including the item it was called for, and the end flag
   exactly when the end was among them.
   */
  lemma AttachmentsDeliveredInOrder(steps: seq<Step>)
    requires IsRun(INITIAL, steps)
    ensures var s := After(INITIAL, steps);
            && s.main.processed == s.link.popped <= s.link.pushed
            && (forall i :: 0 <= i < |s.main.dirs| && s.main.dirs[i].msgId != [] ==>
                  var d, heard := s.main.dirs[i], Heard(s.main, i);
                  && d.since <= heard <= |s.link.popped|
                  && (First(s.main.dirs, i) ==>
                        && d.taken + d.buffered == BytesFor(s.link.popped[heard..], d.msgId)
                        && d.ended == EndFor(s.link.popped[heard..], d.msgId))
                  && (!First(s.main.dirs, i) ==> d.taken == [] && d.buffered == [] && !d.ended))
            && (forall i :: 0 <= i < |s.main.seen| ==>
                  var d, heard, upto := s.main.seen[i].dir, s.main.seen[i].heard, s.main.seen[i].upto;
                  && d.since <= heard <= upto <= |s.link.popped|
                  && d.taken + d.buffered == BytesFor(s.link.popped[heard..upto], d.msgId)
                  && d.ended == EndFor(s.link.popped[heard..upto], d.msgId))
  {
    SystemRun(INITIAL, steps);
    var s := After(INITIAL, steps);
    forall i | 0 <= i < |s.main.dirs| && s.main.dirs[i].msgId != []
      ensures Right(s.main, i)
      ensures !First(s.main.dirs, i) ==> s.main.dirs[i].taken == [] && s.main.dirs[i].buffered == []
    {
      assert Right(s.main, i);
      assert !First(s.main.dirs, i) ==> |s.main.dirs[i].taken + s.main.dirs[i].buffered| == 0;
    }
    forall i | 0 <= i < |s.main.seen|
      ensures SeenRight(s.main.seen[i], s.link.popped)
    {
    }
  }

  /** What was processed since the directive came on the list and while an older one of its id stood. */
  function Missed(m: Main, i: nat): seq<Pending>
    requires i < |m.dirs| && m.dirs[i].since <= Heard(m, i) <= |m.processed|
  {
    m.processed[m.dirs[i].since..if First(m.dirs, i) then Heard(m, i) else |m.processed|]
  }

  lemma {:induction false} HistoryAppend(a: seq<Pending>, b: seq<Pending>, msgId: seq<byte>)
    ensures BytesFor(a + b, msgId) == BytesFor(a, msgId) + BytesFor(b, msgId)
    ensures EndFor(a + b, msgId) <==> EndFor(a, msgId) || EndFor(b, msgId)
    decreases |b|
  {
    if b == [] {
      assert a + b == a;
    } else {
      var n := |b| - 1;
      assert a + b == (a + b[..n]) + [b[n]] && b == b[..n] + [b[n]];
      HistoryAppend(a, b[..n], msgId);
      HistorySnoc(a + b[..n], b[n], msgId);
      HistorySnoc(b[..n], b[n], msgId);
    }
  }

  /**
   When a directive has everything sent to its id since it came on the list: exactly when no bytes for the id were
   processed while an older directive of that id stood. Likewise for the end mark.
   */
  lemma WholeUnlessMissed(steps: seq<Step>, i: nat)
    requires IsRun(INITIAL, steps)
    requires i < |After(INITIAL, steps).main.dirs| && After(INITIAL, steps).main.dirs[i].msgId != []
    ensures var m := After(INITIAL, steps).main;
            var d := m.dirs[i];
            && d.since <= Heard(m, i) <= |m.processed|
            && (d.taken + d.buffered == BytesFor(m.processed[d.since..], d.msgId) <==>
                  BytesFor(Missed(m, i), d.msgId) == [])
            && (d.ended == EndFor(m.processed[d.since..], d.msgId) <==>
                  (EndFor(Missed(m, i), d.msgId) ==> First(m.dirs, i) && EndFor(m.processed[Heard(m, i)..], d.msgId)))
  {
    AttachmentsDeliveredInOrder(steps);
    var m := After(INITIAL, steps).main;
    var d := m.dirs[i];
    var got := m.processed[if First(m.dirs, i) then Heard(m, i) else |m.processed|..];
    assert m.processed[d.since..] == Missed(m, i) + got;
    HistoryAppend(Missed(m, i), got, d.msgId);
    assert d.taken + d.buffered == BytesFor(got, d.msgId) && d.ended == EndFor(got, d.msgId);
  }

  /** Once every thread has come to rest, what was processed is everything that was ever pushed. */
  lemma NothingLeftBehind(steps: seq<Step>, i: nat)
    requires IsRun(INITIAL, steps) && Wakeup.Quiet(After(INITIAL, steps).link)
    requires i < |After(INITIAL, steps).main.dirs| && After(INITIAL, steps).main.dirs[i].msgId != []
    ensures var s := After(INITIAL, steps);
            var d, heard := s.main.dirs[i], Heard(s.main, i);
            && d.since <= heard <= |s.link.pushed| && s.main.processed == s.link.pushed
            && (First(s.main.dirs, i) ==>
                  && d.taken + d.buffered == BytesFor(s.link.pushed[heard..], d.msgId)
                  && d.ended == EndFor(s.link.pushed[heard..], d.msgId))
            && (d.taken + d.buffered == BytesFor(s.link.pushed[d.since..], d.msgId) <==>
                  BytesFor(Missed(s.main, i), d.msgId) == [])
  {
    AttachmentsDeliveredInOrder(steps);
    WholeUnlessMissed(steps, i);
    SystemRun(INITIAL, steps);
    var s := After(INITIAL, steps);
    assert s.link.popped + [] == s.link.popped;
  }

  /** The main loop's own steps for a whole drain. */
  function Pops(answers: seq<Answer>): (steps: seq<Step>)
    ensures |steps| == |answers|
  {
    seq(|answers|, i requires 0 <= i < |answers| => Link(Wakeup.Pop, answers[i]))
  }

  /** A drain as on_event runs it, with nothing pushed meanwhile, is that many pops in a row. */
  lemma {:induction false} DrainIsPops(s: System, answers: seq<Answer>)
    requires s.link.draining && |answers| == |s.link.queue|
    ensures IsRun(s, Pops(answers))
    ensures After(s, Pops(answers)).main == ProcessAll(s.main, s.link.queue, answers)
    ensures After(s, Pops(answers)).link.queue == []
    decreases |answers|
  {
    if answers != [] {
      var step := Link(Wakeup.Pop, answers[0]);
      assert Pops(answers)[0] == step && Pops(answers)[1..] == Pops(answers[1..]);
      DrainIsPops(Next(s, step), answers[1..]);
    }
  }

  const ID: seq<byte> := [120]

  /**
   Two directives with one id: the older one gets the data, the younger one nothing; when the older one completes,
   the younger one is heard only from then on.
   */
  lemma SecondOfItsIdStarves()
    ensures var keep := Answer(true, false, false, false);
            var m2 := Process(Process(EMPTY, NewDirective(1, ID), keep), NewDirective(2, ID), keep);
            var m := Process(m2, NewAttachment(ID, "audio/opus", true, [7]), keep);
            && |m.dirs| == 2 && m.dirs[0].buffered == [7] && m.dirs[1].buffered == [] && !First(m.dirs, 1)
            && BytesFor(m.processed[m.dirs[1].since..], ID) == [7]
            && Leave(m, 0).dirs == [m.dirs[1]] && Heard(Leave(m, 0), 0) == |m.processed|
  {
    var keep := Answer(true, false, false, false);
    var m1 := Process(EMPTY, NewDirective(1, ID), keep);
    var m2 := Process(m1, NewDirective(2, ID), keep);
    assert m1.dirs[0].msgId == ID;
    var item := NewAttachment(ID, "audio/opus", true, [7]);
    assert m2.dirs[0].msgId == ID;
    assert Find(m2.dirs, ID) == Some(0);
    var m := Process(m2, item, keep);
    assert m.processed[2..] == [] + [item];
    HistorySnoc([], item, ID);
    assert First(m.dirs, 0);
  }
}

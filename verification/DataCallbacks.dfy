/**
 Which data callbacks are made and what they leave behind, read off the list, the items processed and what the
 callbacks saw: one for each attachment whose directive is active and has one, and none else.
 */
module DataCallbacks {
  import opened Bytes
  import opened DirectiveQueue
  import opened AttachmentDelivery
  import Wakeup

  /** The attachment is for the directive at this place: the first on the list with the id it names. */
  predicate IsFor(m: Main, at: int, parent: seq<byte>) {
    && 0 <= at < |m.dirs| && parent != [] && m.dirs[at].msgId == parent
    && forall i :: 0 <= i < at ==> m.dirs[i].msgId != parent
  }

  predicate CallbackDue(d: Dir) {
    d.active && d.hasCallback
  }

  /** Only the directive at this place may have changed. */
  ghost predicate OthersSame(dirs: seq<Dir>, dirs': seq<Dir>, at: nat) {
    |dirs'| == |dirs| && forall i :: 0 <= i < |dirs| && i != at ==> dirs'[i] == dirs[i]
  }

  /** The directive with the attachment noted, whatever became of its data. */
  predicate Noted(d: Dir, d': Dir, item: Pending)
    requires item.NewAttachment?
  {
    && d'.id == d.id && d'.msgId == d.msgId && d'.active == d.active && d'.hasCallback == d.hasCallback
    && d'.since == d.since
    && d'.ended == (d.ended || item.isEnd) && d'.mediaType == item.mediaType
  }

  /**
   The directive gets the media type, the end flag and the data. If it is active and has a callback, that is called
   once, and sees all of it; then the data is gone if the callback takes it, and the directive is off the list if the
   callback completes it. If not, nobody is called and the data waits.
   */
  lemma AttachmentOutcome(m: Main, item: Pending, a: Answer, at: nat)
    requires item.NewAttachment? && IsFor(m, at, item.parent)
    ensures var t := Process(m, item, a);
            var d := m.dirs[at];
            && t.processed == m.processed + [item]
            && (CallbackDue(d) ==>
                  && |t.seen| == |m.seen| + 1 && t.seen[..|m.seen|] == m.seen
                  && Noted(d, t.seen[|m.seen|].dir, item)
                  && t.seen[|m.seen|].dir.buffered == d.buffered + item.data
                  && t.seen[|m.seen|].dir.taken == d.taken && t.seen[|m.seen|].upto == |m.processed| + 1)
            && (!CallbackDue(d) ==> t.seen == m.seen)
            && (CallbackDue(d) && a.completes ==> t.dirs == m.dirs[..at] + m.dirs[at + 1..])
            && (!(CallbackDue(d) && a.completes) ==>
                  && OthersSame(m.dirs, t.dirs, at) && Noted(d, t.dirs[at], item)
                  && (CallbackDue(d) && a.takes ==>
                        t.dirs[at].buffered == [] && t.dirs[at].taken == d.taken + (d.buffered + item.data))
                  && (!(CallbackDue(d) && a.takes) ==>
                        t.dirs[at].buffered == d.buffered + item.data && t.dirs[at].taken == d.taken))
  {
    FindIs(m.dirs, item.parent, Some(at));
  }

  /** An attachment for nobody on the list changes nothing there. */
  lemma NobodyOutcome(m: Main, item: Pending, a: Answer)
    requires item.NewAttachment? && forall at :: !IsFor(m, at, item.parent)
    ensures var t := Process(m, item, a);
            t.dirs == m.dirs && t.seen == m.seen && t.processed == m.processed + [item]
  {
    if Find(m.dirs, item.parent).Some? {
      assert IsFor(m, Find(m.dirs, item.parent).value, item.parent);
    }
  }

  /** A directive comes to the end of the list, active and with nothing received, unless an agent has it removed. */
  lemma DirectiveOutcome(m: Main, id: nat, msgId: seq<byte>, a: Answer)
    ensures var t := Process(m, NewDirective(id, msgId), a);
            && t.seen == m.seen && t.processed == m.processed + [NewDirective(id, msgId)]
            && (!a.stays ==> t.dirs == m.dirs)
            && (a.stays ==>
                  && |t.dirs| == |m.dirs| + 1 && t.dirs[..|m.dirs|] == m.dirs
                  && var d := t.dirs[|m.dirs|];
                     && d.id == id && d.msgId == msgId && d.active && !d.ended
                     && d.buffered == [] && d.taken == [] && d.hasCallback == a.setsCallback
                     && d.since == |m.processed| + 1)
  {
  }

  /** What an agent does outside a callback: taking data takes all there is, completing takes the directive off. */
  lemma AgentOutcome(m: Main, at: nat, action: Action)
    requires at < |m.dirs|
    ensures var t := Act(m, at, action);
            && t.seen == m.seen && t.processed == m.processed
            && (action == CompleteDirective ==> t.dirs == m.dirs[..at] + m.dirs[at + 1..])
            && (action != CompleteDirective ==> OthersSame(m.dirs, t.dirs, at))
            && (action == TakeData ==>
                  && t.dirs[at].buffered == [] && t.dirs[at].taken == m.dirs[at].taken + m.dirs[at].buffered
                  && CallbackDue(t.dirs[at]) == CallbackDue(m.dirs[at]))
            && (action.SetActive? ==> t.dirs[at].active == action.active)
            && (action.SetCallback? ==> t.dirs[at].hasCallback == action.on)
  {
  }

  // Over runs.

  /** A callback that has to be made: for which directive, and how many items have been processed then. */
  datatype Due = Due(id: nat, upto: nat, buffered: seq<byte>, ended: bool)

  /** The callback that an item calls for, if any. */
  ghost function DueFor(m: Main, item: Pending): seq<Due> {
    if item.NewAttachment? && exists at :: IsFor(m, at, item.parent) && CallbackDue(m.dirs[at]) then
      var at :| IsFor(m, at, item.parent) && CallbackDue(m.dirs[at]);
      [Due(m.dirs[at].id, |m.processed| + 1, m.dirs[at].buffered + item.data, m.dirs[at].ended || item.isEnd)]
    else []
  }

  /** All callbacks that the items taken out along a run call for, in order. */
  ghost function AllDue(s: System, steps: seq<Step>): seq<Due>
    requires IsRun(s, steps)
    decreases |steps|
  {
    if steps == [] then []
    else
      (if steps[0].Link? && steps[0].step.Pop? then DueFor(s.main, s.link.queue[0]) else [])
      + AllDue(Next(s, steps[0]), steps[1..])
  }

  predicate Made(o: Observation, due: Due) {
    o.dir.id == due.id && o.upto == due.upto && o.dir.buffered == due.buffered && o.dir.ended == due.ended
  }

  /** The callbacks made are, one for one and in order, those due. */
  ghost predicate AllMade(seen: seq<Observation>, dues: seq<Due>) {
    |seen| == |dues| && forall i :: 0 <= i < |seen| ==> Made(seen[i], dues[i])
  }

  lemma DueIs(m: Main, item: Pending, at: int)
    requires item.NewAttachment? && IsFor(m, at, item.parent)
    ensures var d := m.dirs[at];
            DueFor(m, item) ==
            if CallbackDue(d) then [Due(d.id, |m.processed| + 1, d.buffered + item.data, d.ended || item.isEnd)] else []
  {
    forall i | IsFor(m, i, item.parent)
      ensures i == at
    {
    }
  }

  lemma ItemMakes(m: Main, item: Pending, a: Answer)
    ensures var t := Process(m, item, a);
            m.seen <= t.seen && AllMade(t.seen[|m.seen|..], DueFor(m, item))
  {
    match item
    case NewDirective(id, msgId) => DirectiveOutcome(m, id, msgId, a);
    case NewAttachment(parent, _, _, _) =>
      if at :| IsFor(m, at, parent) {
        AttachmentOutcome(m, item, a, at);
        DueIs(m, item, at);
      } else {
        NobodyOutcome(m, item, a);
        assert DueFor(m, item) == [];
      }
  }

  lemma MadeAppend(a: seq<Observation>, b: seq<Observation>, c: seq<Observation>, x: seq<Due>, y: seq<Due>)
    requires a <= b <= c && AllMade(b[|a|..], x) && AllMade(c[|b|..], y)
    ensures AllMade(c[|a|..], x + y)
  {
    assert c[|a|..] == b[|a|..] + c[|b|..];
  }

  /** Along any run, whatever the interleaving and the answers, exactly the callbacks due are made, in order. */
  lemma {:induction false} CallbacksMade(s: System, steps: seq<Step>)
    requires IsRun(s, steps)
    ensures var t := After(s, steps);
            s.main.seen <= t.main.seen && AllMade(t.main.seen[|s.main.seen|..], AllDue(s, steps))
    decreases |steps|
  {
    if steps != [] {
      var next := Next(s, steps[0]);
      var now := if steps[0].Link? && steps[0].step.Pop? then DueFor(s.main, s.link.queue[0]) else [];
      if steps[0].Link? && steps[0].step.Pop? {
        ItemMakes(s.main, s.link.queue[0], steps[0].answer);
      } else if steps[0].Agent? {
        AgentOutcome(s.main, steps[0].at, steps[0].action);
      }
      CallbacksMade(next, steps[1..]);
      MadeAppend(s.main.seen, next.main.seen, After(s, steps).main.seen, now, AllDue(next, steps[1..]));
    }
  }
}

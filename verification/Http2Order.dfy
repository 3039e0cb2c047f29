/**
 The order of the request queue, and what it gives callers: an add queued in front of the removal of the same request
 is processed in front of it, so that the removal finds the request in flight unless curl refused it or it has left
 since. And how often callbacks run: once for each completion, and never after shutdown.
 */
module Http2Order {
  import opened Http2Requests
  import R = Http2References

  /** What a caller's step puts into the queue. */
  function Queued(step: Step): seq<Item> {
    match step
    case AddPush(r) => [AddItem(r)]
    case RemovePush(r) => [RemoveItem(r)]
    case _ => []
  }

  function AllQueued(steps: seq<Step>): seq<Item> {
    if steps == [] then [] else Queued(steps[0]) + AllQueued(steps[1..])
  }

  predicate IsTake(step: Step) {
    step.TakeAdd? || step.TakeRemove?
  }

  /** The items that the network thread has processed along a run. */
  function Processed(s: State, steps: seq<Step>): seq<Item>
    requires IsRun(s, steps)
    decreases |steps|
  {
    if steps == [] then []
    else (if IsTake(steps[0]) then [s.queue[0]] else []) + Processed(Next(s, steps[0]), steps[1..])
  }

  lemma StepOrder(s: State, step: Step)
    requires Enabled(s, step)
    ensures s.queue + Queued(step) == (if IsTake(step) then [s.queue[0]] else []) + Next(s, step).queue
  {
    if IsTake(step) {
      TakenOne(s, step);
      assert Queued(step) == [];
    } else {
      PushedOnly(s, step);
      assert [] + Next(s, step).queue == Next(s, step).queue;
    }
  }

  lemma PushedOnly(s: State, step: Step)
    requires Enabled(s, step) && !IsTake(step)
    ensures Next(s, step).queue == s.queue + Queued(step)
  {
    assert s.queue + [] == s.queue;
    match step
    case Shutdown => R.UnrefAllShape(s, s.inFlight);
    case _ =>
  }

  /** First in, first out: what was processed, and behind it what is still queued, is what was queued, in order. */
  lemma {:induction false} QueueOrder(s: State, steps: seq<Step>)
    requires IsRun(s, steps)
    ensures s.queue + AllQueued(steps) == Processed(s, steps) + After(s, steps).queue
    decreases |steps|
  {
    if steps == [] {
      assert s.queue + [] == [] + s.queue;
    } else {
      var next := Next(s, steps[0]);
      var taken := if IsTake(steps[0]) then [s.queue[0]] else [];
      StepOrder(s, steps[0]);
      QueueOrder(next, steps[1..]);
      Regroup(s.queue, Queued(steps[0]), AllQueued(steps[1..]), taken, next.queue, Processed(next, steps[1..]),
              After(s, steps).queue);
    }
  }

  lemma Regroup<T>(queue: seq<T>, now: seq<T>, later: seq<T>, taken: seq<T>, next: seq<T>, done: seq<T>, end: seq<T>)
    requires queue + now == taken + next && next + later == done + end
    ensures queue + (now + later) == (taken + done) + end
  {
    assert queue + (now + later) == (queue + now) + later;
    assert (taken + next) + later == taken + (next + later);
    assert taken + (done + end) == (taken + done) + end;
  }

  // In flight.

  /** The step takes the request out of flight. */
  predicate Lands(s: State, step: Step, r: nat) {
    || step == Complete(r) || step.Shutdown?
    || (step.TakeRemove? && s.queue != [] && s.queue[0] == RemoveItem(r))
  }

  predicate EverLands(s: State, steps: seq<Step>, r: nat)
    requires IsRun(s, steps)
    decreases |steps|
  {
    steps != [] && (Lands(s, steps[0], r) || EverLands(Next(s, steps[0]), steps[1..], r))
  }

  lemma StepKeepsFlying(s: State, step: Step, r: nat)
    requires Enabled(s, step) && r in s.inFlight && !Lands(s, step, r)
    ensures r in Next(s, step).inFlight
  {
    match step
    case Complete(q) => WithoutKeeps(s.inFlight, q);
    case TakeRemove(_) => WithoutKeeps(s.inFlight, s.queue[0].req);
    case _ =>
  }

  lemma {:induction false} StaysInFlight(s: State, steps: seq<Step>, r: nat)
    requires IsRun(s, steps) && r in s.inFlight && !EverLands(s, steps, r)
    ensures r in After(s, steps).inFlight
    decreases |steps|
  {
    if steps != [] {
      StepKeepsFlying(s, steps[0], r);
      StaysInFlight(Next(s, steps[0]), steps[1..], r);
    }
  }

  /** The i-th item processed, an add of the request, was refused by curl, or the request has left flight since. */
  predicate RefusedOrLanded(s: State, steps: seq<Step>, i: nat, r: nat)
    requires IsRun(s, steps)
    decreases |steps|
  {
    steps != [] &&
    var rest := Next(s, steps[0]);
    if !IsTake(steps[0]) then RefusedOrLanded(rest, steps[1..], i, r)
    else if i > 0 then RefusedOrLanded(rest, steps[1..], i - 1, r)
    else steps[0] == TakeAdd(false) || EverLands(rest, steps[1..], r)
  }

  lemma {:induction false} AddProcessed(s: State, steps: seq<Step>, i: nat, r: nat)
    requires IsRun(s, steps) && i < |Processed(s, steps)| && Processed(s, steps)[i] == AddItem(r)
    ensures r in After(s, steps).inFlight || RefusedOrLanded(s, steps, i, r)
    decreases |steps|
  {
    var next := Next(s, steps[0]);
    if !IsTake(steps[0]) {
      AddProcessed(next, steps[1..], i, r);
    } else if i > 0 {
      AddProcessed(next, steps[1..], i - 1, r);
    } else if steps[0] == TakeAdd(true) && !EverLands(next, steps[1..], r) {
      StaysInFlight(next, steps[1..], r);
    }
  }

  /**
   In any interleaving: when the network thread comes to the removal of a request that was queued behind an add of it,
   that add has been processed, and the request is in flight unless curl refused it or it has left flight since.
   */
  lemma AddBeforeRemoval(steps: seq<Step>, waiting: bool, i: nat, j: nat, r: nat)
    requires IsRun(INITIAL, steps) && Enabled(After(INITIAL, steps), TakeRemove(waiting))
    requires i < j < |AllQueued(steps)| && j == |Processed(INITIAL, steps)|
    requires AllQueued(steps)[i] == AddItem(r) && AllQueued(steps)[j] == RemoveItem(r)
    ensures var s := After(INITIAL, steps);
            && s.queue[0] == RemoveItem(r)
            && Processed(INITIAL, steps)[i] == AddItem(r)
            && (r in s.inFlight || RefusedOrLanded(INITIAL, steps, i, r))
  {
    QueueOrder(INITIAL, steps);
    var s := After(INITIAL, steps);
    assert INITIAL.queue + AllQueued(steps) == AllQueued(steps);
    assert (Processed(INITIAL, steps) + s.queue)[i] == Processed(INITIAL, steps)[i];
    assert (Processed(INITIAL, steps) + s.queue)[j] == s.queue[0];
    AddProcessed(INITIAL, steps, i, r);
  }

  // Callbacks.

  function Count(steps: seq<Step>, step: Step): nat {
    if steps == [] then 0 else (if steps[0] == step then 1 else 0) + Count(steps[1..], step)
  }

  function FinishesOf(s: State, r: nat): nat {
    if r in s.reqs then s.reqs[r].finishes else 0
  }

  function AddsOf(s: State, r: nat): nat {
    if r in s.reqs then s.reqs[r].adds else 0
  }

  lemma StepCounts(s: State, step: Step, r: nat)
    requires R.Known(s) && Enabled(s, step)
    ensures FinishesOf(Next(s, step), r) == FinishesOf(s, r) + (if step == Complete(r) then 1 else 0)
    ensures AddsOf(Next(s, step), r) == AddsOf(s, r) + (if step == AddRef(r) then 1 else 0)
  {
    R.StepKnown(s, step);
    if r in s.reqs {
      match step
      case TakeAdd(accepted) => R.TakeAddCounts(s, accepted, r);
      case TakeRemove(waiting) => R.TakeRemoveCounts(s, waiting, r);
      case Complete(q) => R.CompleteCounts(s, q, r);
      case Shutdown => R.ShutdownCounts(s, r);
      case AddPush(_) => R.QueueingCounts(s, step, r);
      case RemovePush(_) => R.QueueingCounts(s, step, r);
      case Create(_) =>
      case AddRef(_) =>
      case DropHold(_) =>
      case RemoverUnref(_) =>
    } else {
      assert !R.Named(s, r);
    }
  }

  /** The finish callback of a request runs exactly once for each of its completions. */
  lemma {:induction false} FinishedPerCompletion(s: State, steps: seq<Step>, r: nat)
    requires R.Known(s) && IsRun(s, steps)
    ensures FinishesOf(After(s, steps), r) == FinishesOf(s, r) + Count(steps, Complete(r))
    ensures AddsOf(After(s, steps), r) == AddsOf(s, r) + Count(steps, AddRef(r))
    decreases |steps|
  {
    if steps != [] {
      StepCounts(s, steps[0], r);
      R.StepKnown(s, steps[0]);
      FinishedPerCompletion(Next(s, steps[0]), steps[1..], r);
    }
  }

  predicate Stopped(s: State) {
    !s.running && s.inFlight == []
  }

  lemma StoppedStep(s: State, step: Step, r: nat)
    requires Stopped(s) && Enabled(s, step)
    ensures Stopped(Next(s, step)) && !IsTake(step)
    ensures step != Complete(r) && step != AddRef(r) && step != RemovePush(r)
  {
  }

  lemma {:induction false} StoppedForGood(s: State, steps: seq<Step>, r: nat)
    requires Stopped(s) && IsRun(s, steps)
    ensures Stopped(After(s, steps)) && Processed(s, steps) == []
    ensures Count(steps, Complete(r)) == 0 && Count(steps, AddRef(r)) == 0 && Count(steps, RemovePush(r)) == 0
    decreases |steps|
  {
    if steps != [] {
      StoppedStep(s, steps[0], r);
      StoppedForGood(Next(s, steps[0]), steps[1..], r);
    }
  }

  /** After shutdown nothing is in flight, nothing is added or processed any more and no finish callback runs. */
  lemma NothingAfterShutdown(s: State, steps: seq<Step>, r: nat)
    requires Enabled(s, Shutdown) && IsRun(Next(s, Shutdown), steps)
    ensures var t := After(Next(s, Shutdown), steps);
            && !t.running && t.inFlight == [] && Processed(Next(s, Shutdown), steps) == []
            && Count(steps, Complete(r)) == 0 && Count(steps, AddRef(r)) == 0 && Count(steps, RemovePush(r)) == 0
  {
    StoppedForGood(Next(s, Shutdown), steps, r);
  }
}

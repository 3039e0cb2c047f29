/**
 What the reference counts guarantee, over every interleaving. In any run at all the count of a request is what
 somebody relies on, and one more for each refused add and each abandoned removal from flight, and one fewer for
 each removal that came too late (Accounting). From that follows exactly which removals are safe: with these, and
 only these, the counts stay covered and no step touches a destroyed request. While they are covered no request is
 destroyed that somebody relies on, and the finish callback runs at most once for each add.
 */
module Http2References {
  import opened Http2Requests

  /** The count of the request, and its finishes. */
  ghost predicate Entry(s: State, r: nat)
    requires r in s.reqs
  {
    var q := s.reqs[r];
    q.refs == s.Holds(r) + q.refused + q.abandoned - q.late && q.finishes + s.Pending(r) <= q.adds
  }

  predicate Named(s: State, r: nat) {
    r in s.transit || AddItem(r) in s.queue || RemoveItem(r) in s.queue || r in s.inFlight || r in s.removers
  }

  /** Only requests that exist are named anywhere. */
  ghost predicate Known(s: State) {
    forall r :: Named(s, r) ==> r in s.reqs
  }

  ghost predicate Accounted(s: State) {
    Known(s) && forall r :: r in s.reqs ==> Entry(s, r)
  }

  /** No more references were dropped by late removals than refused adds and abandoned removals left behind. */
  ghost predicate Backed(q: Request) {
    q.late <= q.refused + q.abandoned && q.Marked()
  }

  /** Every count covers everybody who relies on the request; destroyed are those whose count is used up. */
  ghost predicate Sound(s: State) {
    Accounted(s) && forall r :: r in s.reqs ==> Backed(s.reqs[r])
  }

  /** A request that somebody relies on is alive, and its count covers them. */
  lemma HeldIsAlive(s: State, r: nat)
    requires Sound(s) && r in s.reqs
    ensures s.reqs[r].refs >= s.Holds(r)
    ensures s.Holds(r) > 0 ==> !s.reqs[r].freed
  {
    assert Entry(s, r) && Backed(s.reqs[r]);
  }

  // Counting.

  lemma {:induction false} WithoutCounts(list: seq<nat>, r: nat)
    ensures multiset(Without(list, r)) == multiset(list) - multiset{r}
    ensures forall x :: x in Without(list, r) ==> x in list
  {
    if list != [] {
      HeadCounts(list);
      if list[0] != r {
        WithoutCounts(list[1..], r);
        HeadCounts(Without(list, r));
      }
    }
  }

  lemma HeadCounts<T>(list: seq<T>)
    requires list != []
    ensures multiset(list) == multiset(list[1..]) + multiset{list[0]}
  {
    assert list == [list[0]] + list[1..];
  }

  /** How often the request is added in the queue, without its head. */
  lemma QueueCount(queue: seq<Item>, r: nat)
    requires queue != []
    ensures multiset(queue[1..])[AddItem(r)] == multiset(queue)[AddItem(r)] - (if queue[0] == AddItem(r) then 1 else 0)
  {
    HeadCounts(queue);
  }

  lemma WithoutCount(list: seq<nat>, q: nat, r: nat)
    ensures multiset(Without(list, q))[r] == multiset(list)[r] - (if r == q && r in list then 1 else 0)
  {
    WithoutCounts(list, q);
  }

  lemma AppendCount(list: seq<nat>, q: nat, r: nat)
    ensures multiset(list + [q])[r] == multiset(list)[r] + (if r == q then 1 else 0)
  {
  }

  lemma TailMembers<T>(list: seq<T>)
    requires list != []
    ensures list[0] in list && forall x :: x in list[1..] ==> x in list
  {
  }

  lemma {:induction false} UnrefAllShape(s: State, list: seq<nat>)
    ensures var t := UnrefAll(s, list);
            t == s.(reqs := t.reqs) && t.reqs.Keys == s.reqs.Keys
    decreases |list|
  {
    if list != [] {
      UnrefAllShape(s.Unref(list[0]), list[1..]);
    }
  }

  lemma UnrefOne(s: State, x: nat, r: nat)
    requires r in s.reqs
    ensures var t := s.Unref(x);
            && r in t.reqs && t.reqs[r].refs == s.reqs[r].refs - (if x == r then 1 else 0)
            && t.reqs[r] == s.reqs[r].(refs := t.reqs[r].refs, freed := t.reqs[r].freed)
            && (s.reqs[r].Marked() ==> t.reqs[r].Marked())
  {
  }

  lemma {:induction false} UnrefAllCounts(s: State, list: seq<nat>, r: nat)
    requires r in s.reqs
    ensures var t := UnrefAll(s, list);
            && r in t.reqs && t.reqs[r].refs == s.reqs[r].refs - multiset(list)[r]
            && t.reqs[r] == s.reqs[r].(refs := t.reqs[r].refs, freed := t.reqs[r].freed)
            && (s.reqs[r].Marked() ==> t.reqs[r].Marked())
    decreases |list|
  {
    if list != [] {
      HeadCounts(list);
      UnrefOne(s, list[0], r);
      UnrefAllCounts(s.Unref(list[0]), list[1..], r);
    }
  }

  // Every step, in every run, keeps the account.

  lemma AppendItemCount(queue: seq<Item>, item: Item, r: nat)
    ensures multiset(queue + [item])[AddItem(r)] == multiset(queue)[AddItem(r)] + (if item == AddItem(r) then 1 else 0)
  {
  }

  lemma StepKeys(s: State, step: Step)
    requires Enabled(s, step)
    ensures forall r :: r in Next(s, step).reqs <==> r in s.reqs || step == Create(r)
  {
    if step.Shutdown? {
      UnrefAllShape(s, s.inFlight);
    }
  }

  lemma WithoutMembers(list: seq<nat>, r: nat)
    ensures forall x :: x in Without(list, r) ==> x in list
  {
    WithoutCounts(list, r);
  }

  lemma AddedNames(s: State, accepted: bool, r: nat)
    requires Enabled(s, TakeAdd(accepted)) && Named(Next(s, TakeAdd(accepted)), r)
    ensures Named(s, r)
  {
    var t := Next(s, TakeAdd(accepted));
    TailMembers(s.queue);
    assert r in t.inFlight ==> r in s.inFlight || s.queue[0] == AddItem(r);
  }

  lemma RemovedNames(s: State, waiting: bool, r: nat)
    requires Enabled(s, TakeRemove(waiting)) && Named(Next(s, TakeRemove(waiting)), r)
    ensures Named(s, r)
  {
    var t := Next(s, TakeRemove(waiting));
    TailMembers(s.queue);
    WithoutMembers(s.inFlight, s.queue[0].req);
    assert t.queue == s.queue[1..] && t.transit == s.transit && t.inFlight == Without(s.inFlight, s.queue[0].req);
    assert r in t.removers ==> r in s.removers || s.queue[0] == RemoveItem(r);
  }

  lemma StepNames(s: State, step: Step, r: nat)
    requires Enabled(s, step) && Named(Next(s, step), r)
    ensures Named(s, r) || step == AddRef(r) || step == RemovePush(r)
  {
    match step
    case TakeAdd(accepted) => AddedNames(s, accepted, r);
    case TakeRemove(waiting) => RemovedNames(s, waiting, r);
    case Complete(q) => WithoutCounts(s.inFlight, q);
    case Shutdown => UnrefAllShape(s, s.inFlight);
    case _ =>
  }

  /** Nothing is named in the next state that is not known there. */
  lemma StepKnown(s: State, step: Step)
    requires Known(s) && Enabled(s, step)
    ensures Known(Next(s, step))
    ensures forall r :: r in Next(s, step).reqs <==> r in s.reqs || step == Create(r)
  {
    StepKeys(s, step);
    forall r | Named(Next(s, step), r)
      ensures r in Next(s, step).reqs
    {
      StepNames(s, step, r);
    }
  }

  /** What a step of a caller does to the counts of a request. */
  lemma CallerCounts(s: State, step: Step, r: nat)
    requires Known(s) && Enabled(s, step) && r in s.reqs
    requires step.Create? || step.AddRef? || step.DropHold? || step.RemoverUnref?
    ensures var t := Next(s, step);
            var mine := if step.req == r then 1 else 0;
            && r in t.reqs
            && t.reqs[r].refs - t.Holds(r) == s.reqs[r].refs - s.Holds(r)
            && t.reqs[r].adds - t.Pending(r) == s.reqs[r].adds - s.Pending(r)
            && t.reqs[r] == s.reqs[r].(refs := t.reqs[r].refs, held := t.reqs[r].held, freed := t.reqs[r].freed,
                                       adds := t.reqs[r].adds)
            && (s.reqs[r].Marked() && !(step == AddRef(r) && s.reqs[r].freed) ==> t.reqs[r].Marked())
  {
  }

  lemma QueueingCounts(s: State, step: Step, r: nat)
    requires Enabled(s, step) && (step.AddPush? || step.RemovePush?)
    ensures var t := Next(s, step);
            && t.reqs == s.reqs
            && (r in s.reqs ==> t.Holds(r) == s.Holds(r) && t.Pending(r) == s.Pending(r))
  {
    AppendItemCount(s.queue, if step.AddPush? then AddItem(step.req) else RemoveItem(step.req), r);
  }

  lemma TakeAddCounts(s: State, accepted: bool, r: nat)
    requires Enabled(s, TakeAdd(accepted)) && r in s.reqs
    ensures var t := Next(s, TakeAdd(accepted));
            var gone := if r == s.queue[0].req && !accepted then 1 else 0;
            && r in t.reqs && t.reqs[r] == s.reqs[r].(refused := s.reqs[r].refused + gone)
            && t.Holds(r) == s.Holds(r) - gone && t.Pending(r) == s.Pending(r) - gone
  {
    QueueCount(s.queue, r);
    AppendCount(s.inFlight, s.queue[0].req, r);
  }

  /** What a processed removal does to the counts of its request, in flight or not, its caller waiting or not. */
  lemma TakeRemoveCounts(s: State, waiting: bool, r: nat)
    requires Enabled(s, TakeRemove(waiting)) && r in s.reqs
    ensures var t := Next(s, TakeRemove(waiting));
            var mine, flying := r == s.queue[0].req, r in s.inFlight;
            && r in t.reqs
            && t.reqs[r] == s.reqs[r].(abandoned := s.reqs[r].abandoned + (if mine && flying && !waiting then 1 else 0),
                                       late := s.reqs[r].late + (if mine && !flying && waiting then 1 else 0))
            && t.Holds(r) == s.Holds(r) + (if mine && waiting then 1 else 0) - (if mine && flying then 1 else 0)
            && t.Pending(r) <= s.Pending(r)
  {
    var t := Next(s, TakeRemove(waiting));
    TakeRemoveNotes(s, waiting, r);
    QueueCount(s.queue, r);
    WithoutCount(s.inFlight, s.queue[0].req, r);
    assert t.queue == s.queue[1..] && t.transit == s.transit && t.inFlight == Without(s.inFlight, s.queue[0].req);
  }

  lemma TakeRemoveNotes(s: State, waiting: bool, r: nat)
    requires Enabled(s, TakeRemove(waiting)) && r in s.reqs
    ensures var t := Next(s, TakeRemove(waiting));
            var mine, flying := r == s.queue[0].req, r in s.inFlight;
            && r in t.reqs
            && t.removers == (if waiting then s.removers + multiset{s.queue[0].req} else s.removers)
            && t.reqs[r] == s.reqs[r].(abandoned := s.reqs[r].abandoned + (if mine && flying && !waiting then 1 else 0),
                                       late := s.reqs[r].late + (if mine && !flying && waiting then 1 else 0))
  {
  }

  lemma CompleteCounts(s: State, req: nat, r: nat)
    requires Enabled(s, Complete(req)) && r in s.reqs
    ensures var t := Next(s, Complete(req));
            var mine := if r == req then 1 else 0;
            && r in t.reqs && t.reqs[r].refs == s.reqs[r].refs - mine
            && t.reqs[r] == s.reqs[r].(refs := t.reqs[r].refs, freed := t.reqs[r].freed,
                                       finishes := s.reqs[r].finishes + mine)
            && t.Holds(r) == s.Holds(r) - mine && t.Pending(r) == s.Pending(r) - mine
            && (s.reqs[r].Marked() ==> t.reqs[r].Marked())
  {
    WithoutCount(s.inFlight, req, r);
  }

  lemma ShutdownCounts(s: State, r: nat)
    requires Enabled(s, Shutdown) && r in s.reqs
    ensures var t := Next(s, Shutdown);
            && r in t.reqs && t.reqs[r].refs == s.reqs[r].refs - multiset(s.inFlight)[r]
            && t.reqs[r] == s.reqs[r].(refs := t.reqs[r].refs, freed := t.reqs[r].freed)
            && t.Holds(r) == s.Holds(r) - multiset(s.inFlight)[r]
            && t.Pending(r) <= s.Pending(r)
            && (s.reqs[r].Marked() ==> t.reqs[r].Marked())
  {
    UnrefAllShape(s, s.inFlight);
    UnrefAllCounts(s, s.inFlight, r);
  }

  lemma NewEntry(s: State, req: nat)
    requires Known(s) && Enabled(s, Create(req))
    ensures Entry(Next(s, Create(req)), req) && Backed(Next(s, Create(req)).reqs[req])
  {
    assert !Named(s, req);
  }

  lemma StepEntry(s: State, step: Step, r: nat)
    requires Known(s) && Enabled(s, step) && r in s.reqs && Entry(s, r)
    ensures r in Next(s, step).reqs && Entry(Next(s, step), r)
  {
    match step
    case TakeAdd(accepted) => TakeAddCounts(s, accepted, r);
    case TakeRemove(waiting) => TakeRemoveCounts(s, waiting, r);
    case Complete(q) => CompleteCounts(s, q, r);
    case Shutdown => ShutdownCounts(s, r);
    case AddPush(_) => QueueingCounts(s, step, r);
    case RemovePush(_) => QueueingCounts(s, step, r);
    case _ => CallerCounts(s, step, r);
  }

  /** Any step, in any state. */
  lemma StepAccount(s: State, step: Step)
    requires Accounted(s) && Enabled(s, step)
    ensures Accounted(Next(s, step))
  {
    var t := Next(s, step);
    StepKnown(s, step);
    forall r | r in t.reqs
      ensures Entry(t, r)
    {
      if r in s.reqs {
        StepEntry(s, step, r);
      } else {
        NewEntry(s, r);
      }
    }
  }

  lemma {:induction false} AccountOverRuns(s: State, steps: seq<Step>)
    requires Accounted(s) && IsRun(s, steps)
    ensures Accounted(After(s, steps))
    decreases |steps|
  {
    if steps != [] {
      StepAccount(s, steps[0]);
      AccountOverRuns(Next(s, steps[0]), steps[1..]);
    }
  }

  /** On every run, safe or not: the reference count of a request, exactly. */
  lemma Accounting(steps: seq<Step>, r: nat)
    requires IsRun(INITIAL, steps) && r in After(INITIAL, steps).reqs
    ensures var s := After(INITIAL, steps);
            var q := s.reqs[r];
            && q.refs == s.Holds(r) + q.refused + q.abandoned - q.late
            && q.finishes + s.Pending(r) <= q.adds
  {
    AccountOverRuns(INITIAL, steps);
    assert Entry(After(INITIAL, steps), r);
  }

  // Which steps are safe.

  /** The requests that a step reads or writes. */
  function Touched(s: State, step: Step): set<nat>
    requires Enabled(s, step)
  {
    match step
    case Create(_) => {}
    case AddRef(r) => {r}
    case AddPush(r) => {r}
    case DropHold(r) => {r}
    case RemovePush(r) => {r}
    case TakeAdd(_) => {s.queue[0].req}
    case TakeRemove(_) => {s.queue[0].req}
    case Complete(r) => {r}
    case RemoverUnref(r) => {r}
    case Shutdown => set r | r in s.inFlight
  }

  ghost predicate TouchesLive(s: State, step: Step)
    requires Enabled(s, step)
  {
    forall r :: r in Touched(s, step) ==> r in s.reqs && !s.reqs[r].freed
  }

  /** Whatever a step touches, a removal being processed aside, is relied on by somebody. */
  lemma TouchedIsHeld(s: State, step: Step, r: nat)
    requires Accounted(s) && Enabled(s, step) && !step.TakeRemove? && r in Touched(s, step)
    ensures r in s.reqs && s.Holds(r) > 0
  {
    if step.TakeAdd? {
      assert s.queue[0] in s.queue && multiset(s.queue)[AddItem(r)] > 0;
    } else if step.Complete? || step.Shutdown? {
      assert multiset(s.inFlight)[r] > 0;
    }
  }

  /**
   The removal that the network thread is about to process is safe: its request is in flight; or refused adds and
   abandoned removals have left a reference to it that no late removal has dropped yet; or its caller has given up
   waiting and somebody still relies on the request, so that it is there to be looked at.
   */
  predicate SafeRemoval(s: State, waiting: bool)
    requires Enabled(s, TakeRemove(waiting)) && s.queue[0].req in s.reqs
  {
    var r := s.queue[0].req;
    var q := s.reqs[r];
    r in s.inFlight || q.refused + q.abandoned > q.late || (!waiting && s.Holds(r) > 0)
  }

  lemma RemoveBacked(s: State, waiting: bool, r: nat)
    requires Sound(s) && Enabled(s, TakeRemove(waiting)) && r in s.reqs
    ensures r in Next(s, TakeRemove(waiting)).reqs
    ensures var q := s.reqs[r];
            Backed(Next(s, TakeRemove(waiting)).reqs[r]) <==>
            (r == s.queue[0].req && waiting && r !in s.inFlight ==> q.refused + q.abandoned > q.late)
  {
    TakeRemoveCounts(s, waiting, r);
    assert Backed(s.reqs[r]);
  }

  lemma RemoveSound(s: State, waiting: bool)
    requires Sound(s) && Enabled(s, TakeRemove(waiting)) && s.queue[0].req in s.reqs
    ensures var q := s.reqs[s.queue[0].req];
            Sound(Next(s, TakeRemove(waiting))) <==>
            (waiting && s.queue[0].req !in s.inFlight ==> q.refused + q.abandoned > q.late)
  {
    var t := Next(s, TakeRemove(waiting));
    StepAccount(s, TakeRemove(waiting));
    StepKnown(s, TakeRemove(waiting));
    RemoveBacked(s, waiting, s.queue[0].req);
    forall r | r in t.reqs && r != s.queue[0].req
      ensures Backed(t.reqs[r])
    {
      RemoveBacked(s, waiting, r);
    }
  }

  /** The request of a removal is there to be looked at if somebody relies on it or a reference to it is left over. */
  lemma RemoveTouches(s: State, waiting: bool)
    requires Sound(s) && Enabled(s, TakeRemove(waiting)) && s.queue[0].req in s.reqs
    ensures var q := s.reqs[s.queue[0].req];
            TouchesLive(s, TakeRemove(waiting)) <==> s.Holds(s.queue[0].req) > 0 || q.refused + q.abandoned > q.late
  {
    var r := s.queue[0].req;
    assert Entry(s, r) && Backed(s.reqs[r]);
    assert r in Touched(s, TakeRemove(waiting));
  }

  lemma RemoveStep(s: State, waiting: bool)
    requires Sound(s) && Enabled(s, TakeRemove(waiting))
    ensures s.queue[0].req in s.reqs
    ensures Sound(Next(s, TakeRemove(waiting))) && TouchesLive(s, TakeRemove(waiting)) <==> SafeRemoval(s, waiting)
  {
    var r := s.queue[0].req;
    assert s.queue[0] in s.queue && Named(s, r);
    RemoveSound(s, waiting);
    RemoveTouches(s, waiting);
    assert r in s.inFlight ==> multiset(s.inFlight)[r] > 0;
  }

  lemma StepBacked(s: State, step: Step, r: nat)
    requires Sound(s) && Enabled(s, step) && !step.TakeRemove? && r in s.reqs
    ensures r in Next(s, step).reqs && Backed(Next(s, step).reqs[r])
  {
    assert Backed(s.reqs[r]);
    HeldIsAlive(s, r);
    match step
    case TakeAdd(accepted) => TakeAddCounts(s, accepted, r);
    case Complete(q) => CompleteCounts(s, q, r);
    case Shutdown => ShutdownCounts(s, r);
    case AddPush(_) => QueueingCounts(s, step, r);
    case RemovePush(_) => QueueingCounts(s, step, r);
    case _ => CallerCounts(s, step, r);
  }

  /** Every step but a removal is always safe. */
  lemma OtherStep(s: State, step: Step)
    requires Sound(s) && Enabled(s, step) && !step.TakeRemove?
    ensures Sound(Next(s, step)) && TouchesLive(s, step)
  {
    var t := Next(s, step);
    StepAccount(s, step);
    StepKnown(s, step);
    forall r | r in t.reqs
      ensures Backed(t.reqs[r])
    {
      if r in s.reqs {
        StepBacked(s, step, r);
      } else {
        NewEntry(s, r);
      }
    }
    forall r | r in Touched(s, step)
      ensures r in s.reqs && !s.reqs[r].freed
    {
      TouchedIsHeld(s, step, r);
      HeldIsAlive(s, r);
    }
  }

  predicate SafeStep(s: State, step: Step)
    requires Enabled(s, step)
  {
    step.TakeRemove? ==> s.queue[0].req in s.reqs && SafeRemoval(s, step.waiting)
  }

  /** Any step in any sound state: it leaves one behind and touches no destroyed request exactly when it is safe. */
  lemma StepKeepsSound(s: State, step: Step)
    requires Sound(s) && Enabled(s, step)
    ensures Sound(Next(s, step)) && TouchesLive(s, step) <==> SafeStep(s, step)
  {
    if step.TakeRemove? {
      RemoveStep(s, step.waiting);
    } else {
      OtherStep(s, step);
    }
  }

  // Runs.

  /** Throughout the run all counts cover those who rely on them, and no step touches a destroyed request. */
  ghost predicate AlwaysSound(s: State, steps: seq<Step>)
    requires IsRun(s, steps)
    decreases |steps|
  {
    Sound(s) && (steps != [] ==> TouchesLive(s, steps[0]) && AlwaysSound(Next(s, steps[0]), steps[1..]))
  }

  predicate AllSafe(s: State, steps: seq<Step>)
    requires IsRun(s, steps)
    decreases |steps|
  {
    steps != [] ==> SafeStep(s, steps[0]) && AllSafe(Next(s, steps[0]), steps[1..])
  }

  /** Over every interleaving that holds exactly when every removal is a safe one. */
  lemma {:induction false} CoveredOverRuns(s: State, steps: seq<Step>)
    requires IsRun(s, steps) && Sound(s)
    ensures AlwaysSound(s, steps) <==> AllSafe(s, steps)
    decreases |steps|
  {
    if steps != [] {
      StepKeepsSound(s, steps[0]);
      if SafeStep(s, steps[0]) {
        CoveredOverRuns(Next(s, steps[0]), steps[1..]);
      } else if Sound(Next(s, steps[0])) {
        assert !TouchesLive(s, steps[0]);
      } else {
        NotSoundNow(Next(s, steps[0]), steps[1..]);
      }
    }
  }

  lemma NotSoundNow(s: State, steps: seq<Step>)
    requires IsRun(s, steps) && !Sound(s)
    ensures !AlwaysSound(s, steps)
  {
  }

  /** Removals reach only requests that are in flight. */
  predicate RemovesInFlight(s: State, steps: seq<Step>)
    requires IsRun(s, steps)
    decreases |steps|
  {
    steps != [] ==>
      && (steps[0].TakeRemove? ==> s.queue[0].req in s.inFlight)
      && RemovesInFlight(Next(s, steps[0]), steps[1..])
  }

  /** curl refuses nothing, and every caller of remove waits for the answer. */
  predicate Plain(steps: seq<Step>) {
    forall i :: 0 <= i < |steps| ==> steps[i] != TakeAdd(false) && steps[i] != TakeRemove(false)
  }

  ghost predicate NothingLeftOver(s: State) {
    forall r :: r in s.reqs ==> s.reqs[r].refused == 0 && s.reqs[r].abandoned == 0
  }

  lemma PlainStep(s: State, step: Step)
    requires NothingLeftOver(s) && Known(s) && Enabled(s, step) && step != TakeAdd(false) && step != TakeRemove(false)
    ensures NothingLeftOver(Next(s, step))
  {
    StepKnown(s, step);
    forall r | r in Next(s, step).reqs && r in s.reqs
      ensures Next(s, step).reqs[r].refused == 0 && Next(s, step).reqs[r].abandoned == 0
    {
      match step
      case TakeAdd(accepted) => TakeAddCounts(s, accepted, r);
      case TakeRemove(waiting) => TakeRemoveCounts(s, waiting, r);
      case Complete(q) => CompleteCounts(s, q, r);
      case Shutdown => ShutdownCounts(s, r);
      case AddPush(_) => QueueingCounts(s, step, r);
      case RemovePush(_) => QueueingCounts(s, step, r);
      case _ => CallerCounts(s, step, r);
    }
  }

  /** Without refusals and timeouts a run is safe exactly when every removal finds its request in flight. */
  lemma {:induction false} PlainRuns(s: State, steps: seq<Step>)
    requires IsRun(s, steps) && Sound(s) && NothingLeftOver(s) && Plain(steps)
    ensures AlwaysSound(s, steps) <==> RemovesInFlight(s, steps)
    decreases |steps|
  {
    if steps != [] {
      var next := Next(s, steps[0]);
      StepKeepsSound(s, steps[0]);
      PlainStep(s, steps[0]);
      assert Plain(steps[1..]);
      if steps[0].TakeRemove? {
        assert s.queue[0].req in s.reqs ==> Backed(s.reqs[s.queue[0].req]);
        assert s.queue[0] in s.queue;
      }
      if SafeStep(s, steps[0]) {
        PlainRuns(next, steps[1..]);
      } else if !Sound(next) {
        NotSoundNow(next, steps[1..]);
      }
    }
  }

  lemma {:induction false} SoundOverRuns(s: State, steps: seq<Step>)
    requires IsRun(s, steps) && Sound(s) && RemovesInFlight(s, steps)
    ensures AlwaysSound(s, steps) && Sound(After(s, steps))
    decreases |steps|
  {
    if steps != [] {
      if steps[0].TakeRemove? {
        assert s.queue[0] in s.queue;
      }
      StepKeepsSound(s, steps[0]);
      SoundOverRuns(Next(s, steps[0]), steps[1..]);
    }
  }

  /**
   On every run with such removals, whatever curl refuses and whoever gives up waiting: no step touches a destroyed
   request, a request that its creator, the queue, the network thread or a remover relies on is alive, and it has
   been finished no more often than it was added.
   */
  lemma NeverFreedWhileHeld(steps: seq<Step>, r: nat)
    requires IsRun(INITIAL, steps) && RemovesInFlight(INITIAL, steps)
    requires r in After(INITIAL, steps).reqs
    ensures AlwaysSound(INITIAL, steps)
    ensures var s := After(INITIAL, steps);
            && s.reqs[r].refs >= s.Holds(r)
            && (s.Holds(r) > 0 ==> !s.reqs[r].freed)
            && s.reqs[r].finishes <= s.reqs[r].adds
  {
    SoundOverRuns(INITIAL, steps);
    HeldIsAlive(After(INITIAL, steps), r);
    Accounting(steps, r);
  }

  // Two runs that are not safe.

  /** A request in flight, and its removal on the way. */
  const RACE := [Create(1)] + ADDING
  const ADDING := [AddRef(1)] + QUEUED
  const QUEUED := [AddPush(1)] + ACCEPTED
  const ACCEPTED := [TakeAdd(true)] + REMOVING
  const REMOVING := [RemovePush(1)] + []

  /** The transfer completes before its removal is processed. */
  const LATE := [Complete(1)] + REMOVED
  const REMOVED := [TakeRemove(true)] + UNREFFED
  const UNREFFED := [RemoverUnref(1)] + []

  lemma RaceStarts()
    ensures IsRun(INITIAL, RACE)
    ensures After(INITIAL, RACE) == State(map[1 := Request(2, true, false, 1, 0, 0, 0, 0)],
                                          multiset{}, [RemoveItem(1)], [1], multiset{}, true)
  {
    var s1 := Next(INITIAL, Create(1));
    var s2 := Next(s1, AddRef(1));
    assert s2 == State(map[1 := Request(2, true, false, 1, 0, 0, 0, 0)], multiset{1}, [], [], multiset{}, true);
    RaceGoesOn(s2);
    RunStep(s1, AddRef(1), QUEUED);
    RunStep(INITIAL, Create(1), ADDING);
  }

  lemma RaceGoesOn(s2: State)
    requires s2 == State(map[1 := Request(2, true, false, 1, 0, 0, 0, 0)], multiset{1}, [], [], multiset{}, true)
    ensures IsRun(s2, QUEUED)
    ensures After(s2, QUEUED) == s2.(transit := multiset{}, queue := [RemoveItem(1)], inFlight := [1])
  {
    var s3 := Next(s2, AddPush(1));
    assert s3 == s2.(transit := multiset{}, queue := [AddItem(1)]);
    var s4 := Next(s3, TakeAdd(true));
    assert s4 == s2.(transit := multiset{}, inFlight := [1]);
    RunStep(s4, RemovePush(1), []);
    RunStep(s3, TakeAdd(true), REMOVING);
    RunStep(s2, AddPush(1), ACCEPTED);
  }

  /** If that transfer completes before its removal is processed, the remover's unref destroys a request still held. */
  lemma RemoveAfterComplete()
    ensures IsRun(INITIAL, RACE) && IsRun(After(INITIAL, RACE), LATE)
    ensures After(After(INITIAL, RACE), LATE).reqs == map[1 := Request(0, true, true, 1, 1, 0, 0, 1)]
  {
    RaceStarts();
    var s5 := After(INITIAL, RACE);
    var s6 := Next(s5, Complete(1));
    assert s6 == s5.(reqs := map[1 := Request(1, true, false, 1, 1, 0, 0, 0)], inFlight := []);
    LateRemoval(s6);
    RunStep(s5, Complete(1), REMOVED);
  }

  lemma LateRemoval(s6: State)
    requires s6 == State(map[1 := Request(1, true, false, 1, 1, 0, 0, 0)],
                         multiset{}, [RemoveItem(1)], [], multiset{}, true)
    ensures IsRun(s6, REMOVED) && After(s6, REMOVED).reqs == map[1 := Request(0, true, true, 1, 1, 0, 0, 1)]
  {
    var s7 := Next(s6, TakeRemove(true));
    assert s7.removers == multiset{1} && s7.reqs == map[1 := Request(1, true, false, 1, 1, 0, 0, 1)];
    var s8 := Next(s7, RemoverUnref(1));
    assert s8.reqs == map[1 := Request(0, true, true, 1, 1, 0, 0, 1)];
    RunStep(s7, RemoverUnref(1), []);
    RunStep(s6, TakeRemove(true), UNREFFED);
  }

  /** The transfer completes, and its creator lets go, before the removal, given up by its caller, is processed. */
  const GIVEN_UP := [DropHold(1)] + FINISHED
  const FINISHED := [Complete(1)] + []

  /** Then the removal names a destroyed request, which the network thread is about to read. */
  lemma RemoveAfterDestruction()
    ensures IsRun(INITIAL, RACE) && IsRun(After(INITIAL, RACE), GIVEN_UP)
    ensures var s := After(After(INITIAL, RACE), GIVEN_UP);
            && s.queue == [RemoveItem(1)] && 1 in s.reqs && s.reqs[1].freed && s.Holds(1) == 0
            && Enabled(s, TakeRemove(false)) && !TouchesLive(s, TakeRemove(false))
  {
    RaceStarts();
    var s5 := After(INITIAL, RACE);
    var s6 := Next(s5, DropHold(1));
    assert s6.reqs == map[1 := Request(1, false, false, 1, 0, 0, 0, 0)];
    var s7 := Next(s6, Complete(1));
    assert s7.reqs == map[1 := Request(0, false, true, 1, 1, 0, 0, 0)] && s7.inFlight == [];
    RunStep(s6, Complete(1), []);
    RunStep(s5, DropHold(1), FINISHED);
    assert 1 in Touched(s7, TakeRemove(false));
  }

  lemma RunStep(s: State, step: Step, rest: seq<Step>)
    requires Enabled(s, step) && IsRun(Next(s, step), rest)
    ensures IsRun(s, [step] + rest) && After(s, [step] + rest) == After(Next(s, step), rest)
  {
    assert ([step] + rest)[1..] == rest;
  }
}

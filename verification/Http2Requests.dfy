/**
 Reference counting between the threads of src/http2/http2_network.c and src/http2/http2_request.c: callers add
 and remove requests through the queue, the network thread hands them to curl, completes them and cleans up.

 A state is what the threads share; each step is atomic and any enabled one may come next. The curl multi handle
 is the set of requests in flight, and a transfer may complete at any time. The class Http2Network runs the loops
 of the network thread in place, for the stretches in which nothing interleaves.
 */
module Http2Requests {
  /**
   A request. `held` is the creator's own reference; `adds` counts the calls of http2_network_add_request and
   `finishes` those of the finish callback. The last three count what happened to it in the network thread: adds
   that curl refused, removals from flight whose caller had given up waiting, and removals with a waiting caller
   that found it no longer in flight.
   */
  datatype Request = Request(
    refs: int,
    held: bool,
    freed: bool,
    adds: nat,
    finishes: nat,
    refused: nat,
    abandoned: nat,
    late: nat)
  {
    /** Destroyed exactly when its count is used up. */
    predicate Marked() {
      freed <==> refs <= 0
    }

    function Ref(): Request {
      this.(refs := refs + 1)
    }

    /** http2_request_unref: at zero the request is destroyed. */
    function Unref(): Request {
      this.(refs := refs - 1, freed := freed || refs - 1 <= 0)
    }
  }

  datatype Item = AddItem(req: nat) | RemoveItem(req: nat)

  /**
   `transit` are the requests referenced for an add and not yet queued, `removers` the callers of remove that have
   been told it is done and still have their reference to drop.
   */
  datatype State = State(
    reqs: map<nat, Request>,
    transit: multiset<nat>,
    queue: seq<Item>,
    inFlight: seq<nat>,
    removers: multiset<nat>,
    running: bool)
  {
    function Unref(r: nat): State {
      if r in reqs then this.(reqs := reqs[r := reqs[r].Unref()]) else this
    }

    function Refuse(r: nat): State {
      if r in reqs then this.(reqs := reqs[r := reqs[r].(refused := reqs[r].refused + 1)]) else this
    }

    function Abandon(r: nat): State {
      if r in reqs then this.(reqs := reqs[r := reqs[r].(abandoned := reqs[r].abandoned + 1)]) else this
    }

    function Late(r: nat): State {
      if r in reqs then this.(reqs := reqs[r := reqs[r].(late := reqs[r].late + 1)]) else this
    }

    /** The references that somebody relies on. */
    function Holds(r: nat): nat
      requires r in reqs
    {
      (if reqs[r].held then 1 else 0) + transit[r] + multiset(queue)[AddItem(r)] + multiset(inFlight)[r] + removers[r]
    }

    /** Adds of the request that have not been finished, refused or removed. */
    function Pending(r: nat): nat {
      transit[r] + multiset(queue)[AddItem(r)] + multiset(inFlight)[r]
    }
  }

  const INITIAL := State(map[], multiset{}, [], [], multiset{}, true)

  /** g_list_remove: the first occurrence. */
  function Without(list: seq<nat>, r: nat): seq<nat> {
    if list == [] then [] else if list[0] == r then list[1..] else [list[0]] + Without(list[1..], r)
  }

  datatype Step =
    | Create(req: nat)
    | AddRef(req: nat)
    | AddPush(req: nat)
    | DropHold(req: nat)
    | RemovePush(req: nat)
    | TakeAdd(accepted: bool)
    | TakeRemove(waiting: bool)
    | Complete(req: nat)
    | RemoverUnref(req: nat)
    | Shutdown

  /** TakeAdd may be refused by curl at any time, and is refused for a request already in flight. */
  predicate Enabled(s: State, step: Step) {
    match step
    case Create(r) => r !in s.reqs
    case AddRef(r) => s.running && r in s.reqs && s.reqs[r].held
    case AddPush(r) => r in s.transit
    case DropHold(r) => r in s.reqs && s.reqs[r].held
    case RemovePush(r) => s.running && r in s.reqs && s.reqs[r].held
    case TakeAdd(accepted) =>
      s.running && s.queue != [] && s.queue[0].AddItem? && (accepted ==> s.queue[0].req !in s.inFlight)
    case TakeRemove(_) => s.running && s.queue != [] && s.queue[0].RemoveItem?
    case Complete(r) => s.running && r in s.inFlight
    case RemoverUnref(r) => r in s.removers
    case Shutdown => s.running
  }

  function Finish(s: State, r: nat): State {
    if r in s.reqs then s.(reqs := s.reqs[r := s.reqs[r].(finishes := s.reqs[r].finishes + 1)]) else s
  }

  /** The cleanup of _loop: one unref for each request still in flight. */
  function UnrefAll(s: State, list: seq<nat>): State
    decreases |list|
  {
    if list == [] then s else UnrefAll(s.Unref(list[0]), list[1..])
  }

  function Taken(s: State, step: Step): State
    requires s.queue != []
  {
    var r := s.queue[0].req;
    var rest := s.(queue := s.queue[1..]);
    if s.queue[0].AddItem? then
      if step == TakeAdd(true) then rest.(inFlight := s.inFlight + [r]) else rest.Refuse(r)
    else
      var removed := rest.(inFlight := Without(s.inFlight, r));
      if step == TakeRemove(true) then
        var told := removed.(removers := s.removers + multiset{r});
        if r in s.inFlight then told else told.Late(r)
      else
        if r in s.inFlight then removed.Abandon(r) else removed
  }

  function Next(s: State, step: Step): State
    requires Enabled(s, step)
  {
    match step
    case Create(r) => s.(reqs := s.reqs[r := Request(1, true, false, 0, 0, 0, 0, 0)])
    case AddRef(r) =>
      var q := s.reqs[r];
      s.(reqs := s.reqs[r := q.Ref().(adds := q.adds + 1)], transit := s.transit + multiset{r})
    case AddPush(r) => s.(transit := s.transit - multiset{r}, queue := s.queue + [AddItem(r)])
    case DropHold(r) => s.(reqs := s.reqs[r := s.reqs[r].(held := false)]).Unref(r)
    case RemovePush(r) => s.(queue := s.queue + [RemoveItem(r)])
    case TakeAdd(_) => Taken(s, step)
    case TakeRemove(_) => Taken(s, step)
    case Complete(r) => Finish(s.(inFlight := Without(s.inFlight, r)), r).Unref(r)
    case RemoverUnref(r) => s.(removers := s.removers - multiset{r}).Unref(r)
    case Shutdown => UnrefAll(s, s.inFlight).(inFlight := [], running := false)
  }

  // Runs.

  predicate IsRun(s: State, steps: seq<Step>)
    decreases |steps|
  {
    steps != [] ==> Enabled(s, steps[0]) && IsRun(Next(s, steps[0]), steps[1..])
  }

  function After(s: State, steps: seq<Step>): State
    requires IsRun(s, steps)
    decreases |steps|
  {
    if steps == [] then s else After(Next(s, steps[0]), steps[1..])
  }

  // The loops of the network thread, as the steps they take.

  function Completions(done: seq<nat>): (steps: seq<Step>)
    ensures |steps| == |done|
  {
    seq(|done|, i requires 0 <= i < |done| => Complete(done[i]))
  }

  /** What curl reports: requests in flight, each once. */
  predicate Reported(s: State, done: seq<nat>) {
    && (forall i :: 0 <= i < |done| ==> done[i] in s.inFlight)
    && (forall i, j :: 0 <= i < j < |done| ==> done[i] != done[j])
  }

  lemma {:induction false} WithoutKeeps(list: seq<nat>, r: nat)
    ensures forall x :: x in list && x != r ==> x in Without(list, r)
  {
    if list != [] {
      WithoutKeeps(list[1..], r);
      assert list == [list[0]] + list[1..];
    }
  }

  lemma {:induction false} CompletionsRun(s: State, done: seq<nat>)
    requires s.running && Reported(s, done)
    ensures IsRun(s, Completions(done))
    decreases |done|
  {
    if done != [] {
      WithoutKeeps(s.inFlight, done[0]);
      assert Completions(done)[1..] == Completions(done[1..]);
      CompletionsRun(Next(s, Complete(done[0])), done[1..]);
    }
  }

  function StepOf(s: State, verdict: bool): (step: Step)
    requires s.running && s.queue != []
    ensures Enabled(s, step)
  {
    var item := s.queue[0];
    if item.AddItem? then TakeAdd(verdict && item.req !in s.inFlight) else TakeRemove(verdict)
  }

  lemma TakenOne(s: State, step: Step)
    requires Enabled(s, step) && (step.TakeAdd? || step.TakeRemove?)
    ensures Next(s, step).queue == s.queue[1..] && Next(s, step).running
  {
  }

  function Takes(s: State, verdicts: seq<bool>): (steps: seq<Step>)
    requires s.running && |verdicts| <= |s.queue|
    ensures IsRun(s, steps)
    decreases |verdicts|
  {
    if verdicts == [] then []
    else
      var step := StepOf(s, verdicts[0]);
      TakenOne(s, step);
      var more := Takes(Next(s, step), verdicts[1..]);
      assert ([step] + more)[1..] == more;
      [step] + more
  }

  lemma TakesFirst(s: State, verdicts: seq<bool>)
    requires s.running && 0 < |verdicts| <= |s.queue|
    ensures var next := Next(s, StepOf(s, verdicts[0]));
            && next.running && next.queue == s.queue[1..]
            && After(s, Takes(s, verdicts)) == After(next, Takes(next, verdicts[1..]))
  {
    var next := Next(s, StepOf(s, verdicts[0]));
    TakenOne(s, StepOf(s, verdicts[0]));
    assert Takes(s, verdicts)[1..] == Takes(next, verdicts[1..]);
  }

  class Http2Network {
    var reqs: map<nat, Request>
    var queue: seq<Item>
    var hlist: seq<nat>
    var running: bool
    ghost var transit: multiset<nat>
    ghost var removers: multiset<nat>

    ghost function View(): State
      reads this
    {
      State(reqs, transit, queue, hlist, removers, running)
    }

    constructor ()
      ensures View() == INITIAL
    {
      reqs, queue, hlist, running := map[], [], [], true;
      transit, removers := multiset{}, multiset{};
    }

    method Unref(r: nat)
      modifies this`reqs
      ensures View() == old(View()).Unref(r)
    {
      if r in reqs {
        reqs := reqs[r := reqs[r].Unref()];
      }
    }

    /** http2_network_add_request: a reference for the queue, and the item at its end. */
    method AddRequest(r: nat)
      requires running && r in reqs && reqs[r].held
      modifies this
      ensures IsRun(old(View()), [AddRef(r), AddPush(r)]) && View() == After(old(View()), [AddRef(r), AddPush(r)])
    {
      assert [AddRef(r), AddPush(r)][1..] == [AddPush(r)] && [AddPush(r)][1..] == [];
      reqs := reqs[r := reqs[r].Ref().(adds := reqs[r].adds + 1)];
      transit := transit + multiset{r};
      assert View() == Next(old(View()), AddRef(r));
      assert IsRun(Next(View(), AddPush(r)), []);
      ghost var s := View();
      transit := transit - multiset{r};
      queue := queue + [AddItem(r)];
      assert View() == Next(s, AddPush(r)) == After(s, [AddPush(r)]);
    }

    /** http2_network_remove_request_sync, up to the wait: the item at the end of the queue, and no reference. */
    method PushRemoval(r: nat)
      requires running && r in reqs && reqs[r].held
      modifies this`queue
      ensures View() == Next(old(View()), RemovePush(r))
    {
      queue := queue + [RemoveItem(r)];
    }

    /** One turn of the completion loop. */
    method CompleteOne(r: nat)
      requires running && r in hlist
      modifies this
      ensures View() == Next(old(View()), Complete(r))
    {
      hlist := Without(hlist, r);
      if r in reqs {
        reqs := reqs[r := reqs[r].(finishes := reqs[r].finishes + 1)];
      }
      Unref(r);
    }

    /** The completion loop of _loop, for the transfers that curl reports done: that many completion steps. */
    method CompleteAll(done: seq<nat>)
      requires running && Reported(View(), done)
      modifies this
      ensures IsRun(old(View()), Completions(done)) && View() == After(old(View()), Completions(done))
    {
      CompletionsRun(View(), done);
      for i := 0 to |done|
        invariant IsRun(old(View()), Completions(done)) && IsRun(View(), Completions(done[i..]))
        invariant After(View(), Completions(done[i..])) == After(old(View()), Completions(done))
      {
        assert Completions(done[i..])[0] == Complete(done[i]);
        assert Completions(done[i..])[1..] == Completions(done[i + 1..]);
        CompleteOne(done[i]);
      }
    }

    method NoteRefused(r: nat)
      modifies this`reqs
      ensures View() == old(View()).Refuse(r)
    {
      if r in reqs {
        reqs := reqs[r := reqs[r].(refused := reqs[r].refused + 1)];
      }
    }

    method NoteAbandoned(r: nat)
      modifies this`reqs
      ensures View() == old(View()).Abandon(r)
    {
      if r in reqs {
        reqs := reqs[r := reqs[r].(abandoned := reqs[r].abandoned + 1)];
      }
    }

    method NoteLate(r: nat)
      modifies this`reqs
      ensures View() == old(View()).Late(r)
    {
      if r in reqs {
        reqs := reqs[r := reqs[r].(late := reqs[r].late + 1)];
      }
    }

    /** _process_remove, and the word to the caller if it still waits. */
    method TakeRemoval(r: nat, waiting: bool)
      requires running && queue != [] && queue[0] == RemoveItem(r)
      modifies this
      ensures View() == Next(old(View()), TakeRemove(waiting))
    {
      var found := r in hlist;
      queue := queue[1..];
      hlist := Without(hlist, r);
      if waiting {
        removers := removers + multiset{r};
        if !found {
          NoteLate(r);
        }
      } else if found {
        NoteAbandoned(r);
      }
    }

    /** _process_add, with curl's verdict. */
    method TakeAddition(r: nat, accepted: bool)
      requires running && queue != [] && queue[0] == AddItem(r) && (accepted ==> r !in hlist)
      modifies this
      ensures View() == Next(old(View()), TakeAdd(accepted))
    {
      queue := queue[1..];
      if accepted {
        hlist := hlist + [r];
      } else {
        NoteRefused(r);
      }
    }

    /** One turn of the drain, with curl's verdict on an add, or whether the remover still waits. */
    method Take(verdict: bool)
      requires running && queue != []
      modifies this
      ensures View() == Next(old(View()), StepOf(old(View()), verdict))
    {
      match queue[0] {
        case AddItem(r) => TakeAddition(r, verdict && r !in hlist);
        case RemoveItem(r) => TakeRemoval(r, verdict);
      }
    }

    /** The drain of _loop: a take step for each queued item, in order. */
    method Drain(verdicts: seq<bool>)
      requires running && |verdicts| == |queue|
      modifies this
      ensures View() == After(old(View()), Takes(old(View()), verdicts)) && queue == []
    {
      var n := 0;
      while |queue| > 0
        invariant running && n <= |verdicts| && |queue| == |verdicts| - n
        invariant After(View(), Takes(View(), verdicts[n..])) == After(old(View()), Takes(old(View()), verdicts))
        decreases |queue|
      {
        assert verdicts[n..][1..] == verdicts[n + 1..];
        TakesFirst(View(), verdicts[n..]);
        Take(verdicts[n]);
        n := n + 1;
      }
      assert verdicts[n..] == [];
    }

    /** The end of _loop: the shutdown step. */
    method Cleanup()
      requires running
      modifies this
      ensures View() == Next(old(View()), Shutdown)
    {
      var i := 0;
      while i < |hlist|
        invariant i <= |hlist| && unchanged(this`hlist)
        invariant UnrefAll(View(), hlist[i..]) == UnrefAll(old(View()), hlist)
        decreases |hlist| - i
      {
        assert hlist[i..][1..] == hlist[i + 1..];
        Unref(hlist[i]);
        i := i + 1;
      }
      assert hlist[i..] == [];
      hlist := [];
      running := false;
    }
  }
}

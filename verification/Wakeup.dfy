/**
 The hand-over of items between threads that src/nugu_network_manager.c and src/http2/http2_network.c share:
 any number of producers push into an async queue and then write an eventfd, one consumer reads the eventfd
 and then drains the queue until it is empty.

 Every step is atomic and any enabled step may come next.
 */
module Wakeup {
  /**
   `unsignalled` holds the producers between their push and their write; `pushed` and `popped` record what went
   through the queue.
   */
  datatype State<T> = State(
    queue: seq<T>,
    counter: nat,
    unsignalled: set<nat>,
    draining: bool,
    pushed: seq<T>,
    popped: seq<T>)

  function Initial<T>(): State<T> {
    State([], 0, {}, false, [], [])
  }

  datatype Step<T> =
    | Push(producer: nat, item: T)
    | Signal(producer: nat)
    | Wake
    | Pop
    | Rest

  predicate Enabled<T>(s: State<T>, step: Step<T>) {
    match step
    case Push(p, _) => p !in s.unsignalled
    case Signal(p) => p in s.unsignalled
    case Wake => !s.draining && s.counter > 0
    case Pop => s.draining && s.queue != []
    case Rest => s.draining && s.queue == []
  }

  function Next<T>(s: State<T>, step: Step<T>): State<T>
    requires Enabled(s, step)
  {
    match step
    case Push(p, x) => s.(queue := s.queue + [x], unsignalled := s.unsignalled + {p}, pushed := s.pushed + [x])
    case Signal(p) => s.(counter := s.counter + 1, unsignalled := s.unsignalled - {p})
    case Wake => s.(counter := 0, draining := true)
    case Pop => s.(queue := s.queue[1..], popped := s.popped + [s.queue[0]])
    case Rest => s.(draining := false)
  }

  predicate IsRun<T>(s: State<T>, steps: seq<Step<T>>)
    decreases |steps|
  {
    steps != [] ==> Enabled(s, steps[0]) && IsRun(Next(s, steps[0]), steps[1..])
  }

  function After<T>(s: State<T>, steps: seq<Step<T>>): State<T>
    requires IsRun(s, steps)
    decreases |steps|
  {
    if steps == [] then s else After(Next(s, steps[0]), steps[1..])
  }

  /** A waiting item has an idle consumer on its way: the eventfd is readable, or a producer is about to write it. */
  predicate Heard<T>(s: State<T>) {
    s.queue != [] && !s.draining ==> s.counter > 0 || s.unsignalled != {}
  }

  ghost predicate InOrder<T>(s: State<T>) {
    s.pushed == s.popped + s.queue
  }

  lemma StepKeeps<T>(s: State<T>, step: Step<T>)
    requires Heard(s) && InOrder(s) && Enabled(s, step)
    ensures Heard(Next(s, step)) && InOrder(Next(s, step))
  {
    match step
    case Push(p, x) => assert p in Next(s, step).unsignalled;
    case Pop => assert s.queue == [s.queue[0]] + s.queue[1..];
    case _ =>
  }

  /** No wakeup is lost in any interleaving, and items come out in the order in which they went in. */
  lemma {:induction false} NoLostWakeup<T>(s: State<T>, steps: seq<Step<T>>)
    requires Heard(s) && InOrder(s) && IsRun(s, steps)
    ensures Heard(After(s, steps)) && InOrder(After(s, steps))
    decreases |steps|
  {
    if steps != [] {
      StepKeeps(s, steps[0]);
      NoLostWakeup(Next(s, steps[0]), steps[1..]);
    }
  }

  /** No producer has a write left to do, and the consumer has no step to take. */
  predicate Quiet<T>(s: State<T>) {
    s.unsignalled == {} && !Enabled(s, Wake) && !Enabled(s, Pop) && !Enabled(s, Rest)
  }

  /** When nothing is left to happen, everything pushed has been popped. */
  lemma QuietMeansDone<T>(steps: seq<Step<T>>)
    requires IsRun(Initial<T>(), steps) && Quiet(After(Initial<T>(), steps))
    ensures var s := After(Initial<T>(), steps);
            s.queue == [] && s.popped == s.pushed
  {
    NoLostWakeup(Initial<T>(), steps);
    var s := After(Initial<T>(), steps);
    assert s.popped + [] == s.popped;
  }

  /** The consumer's own steps from a state in which it is draining. */
  function Drain<T>(n: nat): seq<Step<T>> {
    if n == 0 then [Rest] else [Pop] + Drain(n - 1)
  }

  lemma {:induction false} DrainEmpties<T>(s: State<T>)
    requires s.draining && InOrder(s)
    ensures IsRun(s, Drain(|s.queue|))
    ensures After(s, Drain(|s.queue|)) == s.(queue := [], draining := false, popped := s.pushed)
    decreases |s.queue|
  {
    if s.queue == [] {
      assert Drain<T>(0)[1..] == [];
      assert s.popped + [] == s.popped;
    } else {
      var next := Next(s, Pop);
      StepKeepsOrder(s);
      DrainEmpties(next);
      assert Drain<T>(|s.queue|)[1..] == Drain(|next.queue|);
    }
  }

  lemma StepKeepsOrder<T>(s: State<T>)
    requires s.draining && s.queue != [] && InOrder(s)
    ensures InOrder(Next(s, Pop))
  {
    assert s.queue == [s.queue[0]] + s.queue[1..];
  }

  /** The consumer reads the eventfd, drains the queue and waits again. */
  function Rounds<T>(s: State<T>): seq<Step<T>> {
    if s.counter > 0 then [Wake] + Drain(|s.queue|) else []
  }

  lemma RoundEmpties<T>(s: State<T>)
    requires !s.draining && InOrder(s) && s.unsignalled == {} && Heard(s)
    ensures IsRun(s, Rounds(s)) && Quiet(After(s, Rounds(s))) && |Rounds(s)| <= |s.queue| + 2
    ensures After(s, Rounds(s)).queue == [] && After(s, Rounds(s)).popped == s.pushed
  {
    if s.counter > 0 {
      DrainEmpties(Next(s, Wake));
      DrainOwn<T>(|s.queue|);
      assert Rounds(s)[1..] == Drain(|s.queue|);
    } else {
      assert s.popped + [] == s.popped;
    }
  }

  /**
   From every reachable state in which all producers have written, the consumer alone catches up: its next steps take
   every item out, in the order pushed, and then there is nothing left for it to do.
   */
  lemma ConsumerCatchesUp<T>(steps: seq<Step<T>>) returns (more: seq<Step<T>>)
    requires IsRun(Initial<T>(), steps) && After(Initial<T>(), steps).unsignalled == {}
    ensures var s := After(Initial<T>(), steps);
            && IsRun(s, more) && |more| <= |s.queue| + 3
            && (forall i :: 0 <= i < |more| ==> !more[i].Push? && !more[i].Signal?)
            && After(s, more).queue == [] && After(s, more).popped == s.pushed
            && Quiet(After(s, more))
  {
    NoLostWakeup(Initial<T>(), steps);
    var s := After(Initial<T>(), steps);
    if s.draining {
      DrainEmpties(s);
      DrainOwn<T>(|s.queue|);
      var idle := After(s, Drain(|s.queue|));
      assert s.pushed + [] == s.pushed;
      RoundEmpties(idle);
      OwnRounds(idle);
      AfterBoth(s, Drain(|s.queue|), Rounds(idle));
      more := Drain(|s.queue|) + Rounds(idle);
    } else {
      RoundEmpties(s);
      OwnRounds(s);
      more := Rounds(s);
    }
  }

  lemma OwnRounds<T>(s: State<T>)
    ensures forall i :: 0 <= i < |Rounds(s)| ==> !Rounds(s)[i].Push? && !Rounds(s)[i].Signal?
    ensures |Rounds(s)| <= |s.queue| + 2
  {
    DrainOwn<T>(|s.queue|);
  }

  lemma {:induction false} AfterBoth<T>(s: State<T>, a: seq<Step<T>>, b: seq<Step<T>>)
    requires IsRun(s, a) && IsRun(After(s, a), b)
    ensures IsRun(s, a + b) && After(s, a + b) == After(After(s, a), b)
    decreases |a|
  {
    if a == [] {
      assert a + b == b;
    } else {
      assert (a + b)[1..] == a[1..] + b;
      AfterBoth(Next(s, a[0]), a[1..], b);
    }
  }

  lemma {:induction false} DrainOwn<T>(n: nat)
    ensures |Drain<T>(n)| == n + 1
    ensures forall i :: 0 <= i <= n ==> Drain<T>(n)[i] == Pop || Drain<T>(n)[i] == Rest
  {
    if n > 0 {
      DrainOwn<T>(n - 1);
    }
  }

  // Signals.

  function Signals<T>(steps: seq<Step<T>>): nat {
    if steps == [] then 0 else (if steps[0].Signal? then 1 else 0) + Signals(steps[1..])
  }

  function Wakes<T>(steps: seq<Step<T>>): nat {
    if steps == [] then 0 else (if steps[0].Wake? then 1 else 0) + Wakes(steps[1..])
  }

  /** The consumer wakes no more often than producers write; what it has not read yet is at most the rest. */
  lemma {:induction false} WakesNeedSignals<T>(s: State<T>, steps: seq<Step<T>>)
    requires IsRun(s, steps)
    ensures Wakes(steps) + After(s, steps).counter <= Signals(steps) + s.counter
    decreases |steps|
  {
    if steps != [] {
      WakesNeedSignals(Next(s, steps[0]), steps[1..]);
    }
  }
}

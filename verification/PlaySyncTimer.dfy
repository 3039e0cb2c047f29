/**
 The one-shot timer of the play context manager: exactly which operations may come while a service with nothing left
 to play waits for the timer, so that the timer takes away that service, and no service that plays.
 */
module PlaySyncTimer {
  import opened Bytes
  import opened PlaySync
  import opened PlaySyncRuns

  /** The armed timer is set for a service that is still there. */
  predicate Due(s: State) {
    s.timerArmed && s.timerId in s.contexts
  }

  /**
   A service with nothing left to play is the one that the armed timer is set for, and the armed timer is set for no
   service that plays.
   */
  ghost predicate SettledIn(m: map<string, seq<CapabilityType>>, armed: bool, id: string) {
    && (forall x :: x in m && m[x] == [] ==> armed && id == x)
    && (armed && id in m ==> m[id] == [])
  }

  ghost predicate Settled(s: State) {
    SettledIn(s.contexts, s.timerArmed, s.timerId)
  }

  /** In such states, and in no other, the timer takes away exactly the services with nothing left to play. */
  lemma TimerClears(s: State)
    ensures var t := s.TimerFires();
            && (Settled(s) <==> forall x :: x in t.contexts <==> x in s.contexts && s.contexts[x] != [])
            && (forall x :: x in t.contexts ==> t.contexts[x] == s.contexts[x])
            && (Settled(s) ==> Settled(t))
  {
    var t := s.TimerFires();
    if forall x :: x in t.contexts <==> x in s.contexts && s.contexts[x] != [] {
      forall x | x in s.contexts && s.contexts[x] == []
        ensures s.timerArmed && s.timerId == x
      {
        assert x !in t.contexts;
      }
      assert s.timerArmed ==> s.timerId !in t.contexts;
    }
  }

  predicate Empties(s: State, psId: string, cap: CapabilityType) {
    Without(s.Elements(psId), cap) == []
  }

  /**
   A removal that may come at this point: it leaves its service something to play; or no speech is expected and no
   other service is due; or speech is expected and the service is the one that the timer is set for.
   */
  predicate RemoveQuiet(s: State, psId: string, cap: CapabilityType) {
    || psId == "" || !Empties(s, psId, cap)
    || (if s.expectSpeech then s.timerArmed && s.timerId == psId else Due(s) ==> s.timerId == psId)
  }

  lemma RemoveSettles(s: State, psId: string, cap: CapabilityType, immediately: bool)
    requires Settled(s)
    ensures Settled(s.RemoveContext(psId, cap, immediately)) <==> RemoveQuiet(s, psId, cap)
  {
    if psId != "" {
      if !Empties(s, psId, cap) {
        assert Without<CapabilityType>([], cap) == [];
      } else if s.expectSpeech {
        SparedRemoval(s, psId, cap, immediately);
      } else {
        LastRemoval(s, psId, cap, immediately);
      }
    }
  }

  lemma SparedRemoval(s: State, psId: string, cap: CapabilityType, immediately: bool)
    requires Settled(s) && psId != "" && Empties(s, psId, cap) && s.expectSpeech
    ensures Settled(s.RemoveContext(psId, cap, immediately)) <==> s.timerArmed && s.timerId == psId
  {
    var t := s.RemoveContext(psId, cap, immediately);
    assert t == s.(contexts := s.contexts[psId := []], expectSpeech := false);
    EmptiedIn(s.contexts, s.timerArmed, s.timerId, psId);
  }

  lemma EmptiedIn(m: map<string, seq<CapabilityType>>, armed: bool, id: string, psId: string)
    requires SettledIn(m, armed, id)
    ensures SettledIn(m[psId := []], armed, id) <==> armed && id == psId
  {
    var m' := m[psId := []];
    assert psId in m' && m'[psId] == [];
    if armed && id == psId {
      forall x | x in m' && m'[x] == []
        ensures id == x
      {
        assert x != psId ==> x in m && m[x] == [];
      }
    }
  }

  lemma LastRemoval(s: State, psId: string, cap: CapabilityType, immediately: bool)
    requires Settled(s) && psId != "" && Empties(s, psId, cap) && !s.expectSpeech
    ensures Settled(s.RemoveContext(psId, cap, immediately)) <==> (Due(s) ==> s.timerId == psId)
  {
    var t := s.RemoveContext(psId, cap, immediately);
    LastIn(s.contexts, s.timerArmed, s.timerId, t.contexts, t.timerArmed, psId);
  }

  /** The timer is set for another service, or that service goes at once; either way it is named. */
  lemma LastIn(m: map<string, seq<CapabilityType>>, armed: bool, id: string,
               m': map<string, seq<CapabilityType>>, armed': bool, psId: string)
    requires SettledIn(m, armed, id) && (armed ==> armed')
    requires forall x :: x != psId ==> (x in m' <==> x in m)
    requires forall x :: x != psId && x in m' ==> m'[x] == m[x]
    requires psId in m' ==> m'[psId] == [] && armed'
    ensures SettledIn(m', armed', psId) <==> (armed && id in m ==> id == psId)
  {
    if armed && id in m && id != psId {
      assert id in m' && m'[id] == [];
    } else {
      forall x | x in m' && m'[x] == []
        ensures armed' && psId == x
      {
        assert x != psId ==> m[x] == [];
      }
    }
  }

  /** The services that lose their last capability with this one. */
  function Losing(contexts: map<string, seq<CapabilityType>>, cap: CapabilityType): set<string> {
    set x | x in contexts && Without(contexts[x], cap) == []
  }

  function Members(list: seq<string>): set<string> {
    set x | x in list
  }

  /** The services, from the top of the stack, that addContext goes through. */
  function Others(s: State, psId: string): seq<string> {
    Without(Reverse(s.stack), psId)
  }

  /**
   An addition that may come at this point. Expected speech spares the first of the other services when that loses
   its last capability: then the timer must be set for that one, and no further one may lose its last. If the timer
   is set for the service added, another one must lose its last, which sets the timer anew; if it is set for one that
   is off the stack, none may.
   */
  predicate AddQuiet(s: State, psId: string, cap: CapabilityType, renderer: Option<Renderer>) {
    || psId == "" || (renderer.Some? && renderer.value.onlyRendering)
    || (var others := Others(s, psId);
        var spared := s.expectSpeech && others != [] && others[0] in Losing(s.contexts, cap);
        var gone := !(Members(if spared then others[1..] else others) !! Losing(s.contexts, cap));
        && (spared ==> s.timerArmed && s.timerId == others[0] && !gone)
        && (s.timerArmed && s.timerId == psId ==> gone)
        && (DueElsewhere(s, psId) ==> !gone))
  }

  /** The service that is due is neither the one added nor on the stack, so that addContext does not go through it. */
  predicate DueElsewhere(s: State, psId: string) {
    Due(s) && s.timerId != psId && s.timerId !in s.stack
  }

  lemma {:induction false} LoopSkipsSelf(s: State, items: seq<string>, psId: string, cap: CapabilityType)
    ensures s.RemoveFromOthers(items, psId, cap) == s.RemoveFromOthers(Without(items, psId), psId, cap)
    decreases |items|
  {
    if items != [] {
      if items[0] == psId {
        assert Without(items, psId) == Without(items[1..], psId);
        LoopSkipsSelf(s, items[1..], psId, cap);
      } else {
        LoopSkipsSelf(s.RemoveContext(items[0], cap, true), items[1..], psId, cap);
        assert Without(items, psId)[1..] == Without(items[1..], psId);
      }
    }
  }

  /** What taking the capability from these services leaves of the map, those gone that lose their last. */
  ghost predicate Cleared(m: map<string, seq<CapabilityType>>, m': map<string, seq<CapabilityType>>,
                          items: set<string>, cap: CapabilityType) {
    && (forall x :: x in m' <==> x in m && !(x in items && x in Losing(m, cap)))
    && (forall x :: x in m' ==> m'[x] == if x in items then Without(m[x], cap) else m[x])
  }

  /** And of the timer's service. */
  ghost predicate Named(id: string, id': string, items: set<string>, losing: set<string>) {
    if items !! losing then id' == id else id' in items * losing
  }

  lemma CalmRemoval(s: State, item: string, cap: CapabilityType)
    requires !s.expectSpeech && item != "" && item in s.contexts
    ensures var t := s.RemoveContext(item, cap, true);
            && Cleared(s.contexts, t.contexts, {item}, cap)
            && Named(s.timerId, t.timerId, {item}, Losing(s.contexts, cap))
            && t.timerArmed == s.timerArmed && !t.expectSpeech
  {
  }

  lemma ClearedThen(m: map<string, seq<CapabilityType>>, next: map<string, seq<CapabilityType>>,
                    m': map<string, seq<CapabilityType>>, item: string, rest: set<string>, cap: CapabilityType)
    requires Cleared(m, next, {item}, cap) && Cleared(next, m', rest, cap) && item !in rest
    ensures Cleared(m, m', {item} + rest, cap)
    ensures forall x :: x in rest ==> (x in Losing(next, cap) <==> x in Losing(m, cap))
  {
  }

  lemma NamedThen(id: string, mid: string, id': string, item: string, rest: set<string>,
                  losing: set<string>, losing': set<string>)
    requires Named(id, mid, {item}, losing) && Named(mid, id', rest, losing')
    requires forall x :: x in rest ==> (x in losing' <==> x in losing)
    ensures Named(id, id', {item} + rest, losing)
  {
  }

  /** The loop of addContext when no speech is expected. */
  lemma {:induction false} CalmLoop(s: State, items: seq<string>, psId: string, cap: CapabilityType)
    requires !s.expectSpeech && NoDuplicates(items) && psId !in items
    requires forall x :: x in items ==> x in s.contexts && x != ""
    ensures var t := s.RemoveFromOthers(items, psId, cap);
            && Cleared(s.contexts, t.contexts, Members(items), cap)
            && Named(s.timerId, t.timerId, Members(items), Losing(s.contexts, cap))
            && t.timerArmed == s.timerArmed && !t.expectSpeech
    decreases |items|
  {
    if items != [] {
      var item, rest := items[0], items[1..];
      var next := s.RemoveContext(item, cap, true);
      var t := next.RemoveFromOthers(rest, psId, cap);
      HeadAndRest(items);
      CalmRemoval(s, item, cap);
      CalmLoop(next, rest, psId, cap);
      ClearedThen(s.contexts, next.contexts, t.contexts, item, Members(rest), cap);
      NamedThen(s.timerId, next.timerId, t.timerId, item, Members(rest),
                Losing(s.contexts, cap), Losing(next.contexts, cap));
    }
  }

  lemma HeadAndRest(items: seq<string>)
    requires items != [] && NoDuplicates(items)
    ensures items[0] in items && items[0] !in items[1..] && NoDuplicates(items[1..])
    ensures forall x :: x in items[1..] ==> x in items
    ensures Members(items) == {items[0]} + Members(items[1..])
  {
    assert items == [items[0]] + items[1..];
  }

  /** The services that addContext goes through are the others of the stack, each once. */
  lemma OthersShape(s: State, psId: string)
    requires StackInMap(s)
    ensures NoDuplicates(Others(s, psId)) && psId !in Others(s, psId)
    ensures forall x :: x in Others(s, psId) <==> x in s.stack && x != psId
    ensures forall x :: x in Others(s, psId) ==> x in s.contexts && x != ""
  {
    ReverseMembers(s.stack);
    WithoutMembers(Reverse(s.stack), psId);
  }

  lemma CalmIn(m: map<string, seq<CapabilityType>>, armed: bool, id: string, m': map<string, seq<CapabilityType>>,
               id': string, others: set<string>, losing: set<string>, psId: string)
    requires SettledIn(m, armed, id) && psId !in others && Named(id, id', others, losing)
    requires psId in m' && m'[psId] != []
    requires forall x :: x in m' && x in others ==> x in m && x !in losing && m'[x] != []
    requires forall x :: x != psId && x !in others ==> (x in m' <==> x in m)
    requires forall x :: x in m' && x != psId && x !in others ==> m'[x] == m[x]
    requires forall x :: x in m && m[x] == [] ==> x in losing
    ensures SettledIn(m', armed, id') <==>
            && (armed && id == psId ==> !(others !! losing))
            && (armed && id in m && id != psId && id !in others ==> others !! losing)
  {
    if others !! losing {
      assert armed && id in m' && id != psId ==> id !in others;
    } else {
      assert id' in others * losing && id' !in m';
      if armed && id in m && id != psId && id !in others {
        assert id in m' && m'[id] == [];
      }
    }
  }

  /** The loop, when no speech is expected, and then the capability goes to its service. */
  lemma CalmAddition(s: State, t: State, others: seq<string>, psId: string, cap: CapabilityType)
    requires Settled(s) && psId !in others
    requires Cleared(s.contexts, t.contexts, Members(others), cap)
    requires Named(s.timerId, t.timerId, Members(others), Losing(s.contexts, cap)) && t.timerArmed == s.timerArmed
    ensures var gone := !(Members(others) !! Losing(s.contexts, cap));
            Settled(t.AddElement(psId, cap)) <==>
            && (s.timerArmed && s.timerId == psId ==> gone)
            && (Due(s) && s.timerId != psId && s.timerId !in others ==> !gone)
  {
    Added(t, psId, cap);
    LosesNothing(s.contexts, cap);
    CalmIn(s.contexts, s.timerArmed, s.timerId, t.AddElement(psId, cap).contexts, t.timerId,
           Members(others), Losing(s.contexts, cap), psId);
  }

  lemma Added(t: State, psId: string, cap: CapabilityType)
    ensures var end := t.AddElement(psId, cap);
            && psId in end.contexts && end.contexts[psId] != []
            && (forall x :: x != psId ==> (x in end.contexts <==> x in t.contexts))
            && (forall x :: x != psId && x in t.contexts ==> end.contexts[x] == t.contexts[x])
            && end.timerArmed == t.timerArmed && end.timerId == t.timerId
  {
    assert cap in t.AddElement(psId, cap).contexts[psId];
  }

  lemma LosesNothing(m: map<string, seq<CapabilityType>>, cap: CapabilityType)
    ensures forall x :: x in m && m[x] == [] ==> x in Losing(m, cap)
  {
  }

  lemma SparedIn(m: map<string, seq<CapabilityType>>, armed: bool, id: string, m': map<string, seq<CapabilityType>>,
                 id': string, first: string, rest: set<string>, losing: set<string>)
    requires SettledIn(m, armed, id) && first !in rest && Named(id, id', rest, losing)
    requires first in m' && m'[first] == []
    requires forall x :: x in m' && x != first ==> m'[x] != [] || (x in m && m[x] == [])
    ensures SettledIn(m', armed, id') <==> armed && id == first && rest !! losing
  {
  }

  /** The first of the other services is spared because speech is expected, and stays with nothing left to play. */
  lemma SparedAddition(s: State, next: State, t: State, others: seq<string>, psId: string, cap: CapabilityType)
    requires Settled(s) && psId !in others && others != [] && NoDuplicates(others)
    requires next == s.(contexts := s.contexts[others[0] := []], expectSpeech := false)
    requires Cleared(next.contexts, t.contexts, Members(others[1..]), cap)
    requires Named(next.timerId, t.timerId, Members(others[1..]), Losing(next.contexts, cap))
    requires t.timerArmed == s.timerArmed
    ensures Settled(t.AddElement(psId, cap)) <==>
            s.timerArmed && s.timerId == others[0] && Members(others[1..]) !! Losing(s.contexts, cap)
  {
    var first, rest := others[0], Members(others[1..]);
    HeadAndRest(others);
    Added(t, psId, cap);
    SameLosing(s.contexts, next.contexts, rest, cap);
    var end := t.AddElement(psId, cap);
    forall x | x in end.contexts && x != first
      ensures end.contexts[x] != [] || (x in s.contexts && s.contexts[x] == [])
    {
      if x != psId && x in rest {
        assert x !in Losing(next.contexts, cap);
      }
    }
    SparedIn(s.contexts, s.timerArmed, s.timerId, end.contexts, t.timerId, first, rest, Losing(next.contexts, cap));
  }

  lemma SameLosing(m: map<string, seq<CapabilityType>>, next: map<string, seq<CapabilityType>>, rest: set<string>,
                   cap: CapabilityType)
    requires forall x :: x in rest ==> (x in next <==> x in m)
    requires forall x :: x in rest && x in m ==> next[x] == m[x]
    ensures rest !! Losing(next, cap) <==> rest !! Losing(m, cap)
  {
    assert forall x :: x in rest ==> (x in Losing(next, cap) <==> x in Losing(m, cap));
  }

  /** The first removal of the loop when speech is expected and that service keeps something to play. */
  lemma FirstKept(s: State, item: string, cap: CapabilityType)
    requires s.expectSpeech && item != "" && item in s.contexts
    ensures s.RemoveContext(item, cap, true) ==
            s.(contexts := s.contexts[item := Without(s.contexts[item], cap)], expectSpeech := false)
  {
  }

  /** Taking the capability from one service first changes nothing in what the loop does with the others. */
  lemma KeptThen(s: State, t: State, others: seq<string>, cap: CapabilityType)
    requires others != [] && NoDuplicates(others) && others[0] in s.contexts && others[0] !in Losing(s.contexts, cap)
    requires var m := s.contexts[others[0] := Without(s.contexts[others[0]], cap)];
             && Cleared(m, t.contexts, Members(others[1..]), cap)
             && Named(s.timerId, t.timerId, Members(others[1..]), Losing(m, cap))
    ensures Cleared(s.contexts, t.contexts, Members(others), cap)
    ensures Named(s.timerId, t.timerId, Members(others), Losing(s.contexts, cap))
  {
    var m := s.contexts[others[0] := Without(s.contexts[others[0]], cap)];
    HeadAndRest(others);
    ClearedThen(s.contexts, m, t.contexts, others[0], Members(others[1..]), cap);
    NamedThen(s.timerId, s.timerId, t.timerId, others[0], Members(others[1..]),
              Losing(s.contexts, cap), Losing(m, cap));
  }

  lemma ExpectingAddition(s: State, others: seq<string>, psId: string, cap: CapabilityType)
    requires Settled(s) && s.expectSpeech && others != [] && NoDuplicates(others) && psId !in others
    requires forall x :: x in others ==> x in s.contexts && x != ""
    ensures var spared := others[0] in Losing(s.contexts, cap);
            var gone := !(Members(if spared then others[1..] else others) !! Losing(s.contexts, cap));
            Settled(s.RemoveFromOthers(others, psId, cap).AddElement(psId, cap)) <==>
            && (spared ==> s.timerArmed && s.timerId == others[0] && !gone)
            && (s.timerArmed && s.timerId == psId ==> gone)
            && (Due(s) && s.timerId != psId && s.timerId !in others ==> !gone)
  {
    var next := s.RemoveContext(others[0], cap, true);
    var t := next.RemoveFromOthers(others[1..], psId, cap);
    HeadAndRest(others);
    FirstKept(s, others[0], cap);
    CalmLoop(next, others[1..], psId, cap);
    assert s.RemoveFromOthers(others, psId, cap) == t;
    if others[0] in Losing(s.contexts, cap) {
      SparedAddition(s, next, t, others, psId, cap);
    } else {
      KeptThen(s, t, others, cap);
      CalmAddition(s, t, others, psId, cap);
    }
  }

  /** The part of an addition that touches the services. */
  lemma LoopSettles(s: State, psId: string, cap: CapabilityType)
    requires StackInMap(s) && Settled(s)
    ensures var spared := s.expectSpeech && Others(s, psId) != [] && Others(s, psId)[0] in Losing(s.contexts, cap);
            var gone := !(Members(if spared then Others(s, psId)[1..] else Others(s, psId)) !! Losing(s.contexts, cap));
            Settled(s.RemoveFromOthers(Reverse(s.stack), psId, cap).AddElement(psId, cap)) <==>
            && (spared ==> s.timerArmed && s.timerId == Others(s, psId)[0] && !gone)
            && (s.timerArmed && s.timerId == psId ==> gone)
            && (DueElsewhere(s, psId) ==> !gone)
  {
    var others := Others(s, psId);
    OthersShape(s, psId);
    LoopSkipsSelf(s, Reverse(s.stack), psId, cap);
    if s.expectSpeech && others != [] {
      ExpectingAddition(s, others, psId, cap);
    } else if s.expectSpeech {
      assert s.RemoveFromOthers(others, psId, cap) == s;
      CalmAddition(s, s, others, psId, cap);
    } else {
      CalmLoop(s, others, psId, cap);
      CalmAddition(s, s.RemoveFromOthers(others, psId, cap), others, psId, cap);
    }
  }

  lemma AddSettles(s: State, psId: string, cap: CapabilityType, renderer: Option<Renderer>)
    requires StackInMap(s) && Settled(s)
    ensures Settled(s.AddContext(psId, cap, renderer)) <==> AddQuiet(s, psId, cap, renderer)
  {
    RenderedShape(s, psId, cap, renderer);
    LoopSettles(s.WithRenderer(psId, cap, renderer), psId, cap);
  }

  /** The operations that may come at this point, the timer of a service with nothing left to play being on its way. */
  predicate QuietOp(s: State, op: Op) {
    match op
    case Add(psId, cap, renderer) => AddQuiet(s, psId, cap, renderer)
    case Remove(psId, cap, _) => RemoveQuiet(s, psId, cap)
    case Timer => true
    case ExpectSpeech(_) => true
    case MicOn => !Due(s)
    case AsrError => s.stack == [] || RemoveQuiet(s.(expectSpeech := false), s.stack[|s.stack| - 1], TTS)
  }

  lemma SettledStep(s: State, op: Op)
    requires StackInMap(s) && Settled(s)
    ensures Settled(Step(s, op)) <==> QuietOp(s, op)
  {
    match op
    case Add(psId, cap, renderer) => AddSettles(s, psId, cap, renderer);
    case Remove(psId, cap, immediately) => RemoveSettles(s, psId, cap, immediately);
    case Timer => TimerClears(s);
    case ExpectSpeech(_) =>
    case MicOn =>
    case AsrError =>
      if s.stack != [] {
        RemoveSettles(s.(expectSpeech := false), s.stack[|s.stack| - 1], TTS, true);
      }
  }

  ghost predicate AllQuiet(s: State, ops: seq<Op>)
    decreases |ops|
  {
    ops != [] ==> QuietOp(s, ops[0]) && AllQuiet(Step(s, ops[0]), ops[1..])
  }

  ghost predicate AlwaysSettled(s: State, ops: seq<Op>)
    decreases |ops|
  {
    Settled(s) && (ops != [] ==> AlwaysSettled(Step(s, ops[0]), ops[1..]))
  }

  /**
   On every run, unknown services or not: the timer is set for whatever has nothing left to play, and for nothing
   else, throughout, exactly when every operation is one that may come at its point.
   */
  lemma {:induction false} SettledOverRuns(s: State, ops: seq<Op>)
    requires StackInMap(s) && Settled(s)
    ensures AlwaysSettled(s, ops) <==> AllQuiet(s, ops)
    decreases |ops|
  {
    if ops != [] {
      OpStep(s, ops[0]);
      SettledStep(s, ops[0]);
      if QuietOp(s, ops[0]) {
        SettledOverRuns(Step(s, ops[0]), ops[1..]);
      }
    }
  }

  lemma {:induction false} QuietRun(s: State, ops: seq<Op>)
    requires StackInMap(s) && Settled(s) && AllQuiet(s, ops)
    ensures StackInMap(Run(s, ops)) && Settled(Run(s, ops))
    decreases |ops|
  {
    if ops != [] {
      OpStep(s, ops[0]);
      SettledStep(s, ops[0]);
      QuietRun(Step(s, ops[0]), ops[1..]);
    }
  }

  /**
   After those runs the timer takes just the services with nothing left to play from the map, and from the stack as
   well if the two agree.
   */
  lemma TimerOverRuns(ops: seq<Op>)
    requires AllQuiet(INITIAL, ops)
    ensures var end := Run(INITIAL, ops);
            var t := end.TimerFires();
            && (forall x :: x in t.contexts <==> x in end.contexts && end.contexts[x] != [])
            && (forall x :: x in t.contexts ==> t.contexts[x] == end.contexts[x])
            && (AllGood(INITIAL, ops) ==> forall x :: x in t.stack <==> x in t.contexts)
  {
    QuietRun(INITIAL, ops);
    var end := Run(INITIAL, ops);
    TimerClears(end);
    if AllGood(INITIAL, ops) {
      CapabilityOverRuns(INITIAL, ops);
      OpStep(end, Timer);
      assert Agrees(end.TimerFires());
    }
  }

  const SHOWN := Some(Renderer(Display, false, "card"))

  /**
   One service due, another one removed at once: the timer is now set for that one, and the first stays with its
   renderer and nothing to play.
   */
  lemma SecondRemovalMovesTimer()
    ensures var two := INITIAL.AddContext("b", TTS, None).AddContext("a", Display, SHOWN);
            var s := two.RemoveContext("a", Display, false);
            var t := s.RemoveContext("b", TTS, true).TimerFires();
            && Due(s) && s.timerId == "a" && Settled(s)
            && t.stack == ["a"] && t.contexts == map["a" := []] && "a" in t.renderers && !t.timerArmed
  {
    var one := INITIAL.AddContext("b", TTS, None);
    OnlyService(one);
    SecondService(one);
    var two := one.AddContext("a", Display, SHOWN);
    DueBehindRenderer(two);
    TimerMoved(two.RemoveContext("a", Display, false));
  }

  /** Its renderer makes the service wait for the timer. */
  lemma DueBehindRenderer(two: State)
    requires two.stack == ["b", "a"] && two.contexts == map["b" := [TTS], "a" := [Display]]
    requires two.renderers.Keys == {"a"} && !two.expectSpeech
    ensures two.RemoveContext("a", Display, false) ==
            two.(contexts := map["b" := [TTS], "a" := []], timerArmed := true, timerId := "a")
  {
    assert Without([Display], Display) == [];
    assert two.contexts["a" := []] == map["b" := [TTS], "a" := []];
  }

  lemma TimerMoved(s: State)
    requires s.stack == ["b", "a"] && s.contexts == map["b" := [TTS], "a" := []] && s.renderers.Keys == {"a"}
    requires s.timerArmed && !s.expectSpeech
    ensures var t := s.RemoveContext("b", TTS, true).TimerFires();
            t.stack == ["a"] && t.contexts == map["a" := []] && "a" in t.renderers && !t.timerArmed
  {
    var u := s.RemoveContext("b", TTS, true);
    assert Without(["b", "a"], "b") == ["a"] && Without(["a"], "b") == ["a"];
    assert u.contexts == map["a" := []] && u.stack == ["a"] && u.timerId == "b" && u.renderers == s.renderers;
    assert u.contexts - {"b"} == u.contexts;
  }

  lemma OnlyService(one: State)
    requires one == INITIAL.AddContext("b", TTS, None)
    ensures one == INITIAL.(stack := ["b"], contexts := map["b" := [TTS]])
  {
    assert Reverse<string>([]) == [];
  }

  lemma SecondService(one: State)
    requires one == INITIAL.(stack := ["b"], contexts := map["b" := [TTS]])
    ensures var two := one.AddContext("a", Display, SHOWN);
            && two.stack == ["b", "a"] && two.contexts == map["b" := [TTS], "a" := [Display]]
            && two.renderers.Keys == {"a"} && !two.expectSpeech
  {
    OneKeyCleared(one);
    var shown := one.AddRenderer("a", SHOWN.value);
    assert shown == one.(renderers := map["a" := SHOWN.value], calls := [Sync("a")]);
    NothingTaken(shown);
    assert one.AddContext("a", Display, SHOWN) == shown.AddElement("a", Display);
  }

  /** The other service has no display to lose. */
  lemma NothingTaken(s: State)
    requires s.stack == ["b"] && s.contexts == map["b" := [TTS]] && !s.expectSpeech
    ensures s.RemoveFromOthers(Reverse(s.stack), "a", Display) == s
  {
    assert Reverse(["b"]) == ["b"] && ["b"][1..] == [];
    assert Without([TTS], Display) == [TTS];
    assert s.contexts["b" := [TTS]] == s.contexts;
  }

  /** A service that is due and gets something to play anew: the timer takes it away all the same. */
  lemma TimerTakesPlaying()
    ensures var s := INITIAL.AddContext("b", TTS, None).RemoveContext("b", TTS, false).AddContext("b", Display, None);
            && s.contexts == map["b" := [Display]] && s.TimerFires().contexts == map[] && s.TimerFires().stack == []
  {
    var one := INITIAL.AddContext("b", TTS, None);
    OnlyService(one);
    var s := one.RemoveContext("b", TTS, false);
    assert s == one.(contexts := map["b" := []], timerArmed := true, timerId := "b");
    AddedWhileDue(s);
  }

  lemma AddedWhileDue(s: State)
    requires s.stack == ["b"] && s.contexts == map["b" := []] && s.timerArmed && s.timerId == "b"
    ensures var t := s.AddContext("b", Display, None);
            && t.contexts == map["b" := [Display]] && t.TimerFires().contexts == map[] && t.TimerFires().stack == []
  {
    assert Reverse(["b"]) == ["b"] && ["b"][1..] == [];
    assert s.RemoveFromOthers(["b"], "b", Display) == s;
    var t := s.AddElement("b", Display);
    assert s.AddContext("b", Display, None) == t;
    assert t.contexts["b"] == [Display];
    assert Without(["b"], "b") == [];
  }
}

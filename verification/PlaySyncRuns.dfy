/**
 What holds of the play context manager over whole runs: the stack and the context map agree exactly when
 removals name services that are there (or take effect at once), each capability then belongs to one service,
 and on every run at all there is at most one live renderer.
 */
module PlaySyncRuns {
  import opened Bytes
  import opened PlaySync

  ghost predicate NoDuplicates<T>(list: seq<T>) {
    forall i, j :: 0 <= i < j < |list| ==> list[i] != list[j]
  }

  /** What every run keeps: the stack is duplicate-free and names only services of the map. */
  ghost predicate StackInMap(s: State) {
    && NoDuplicates(s.stack)
    && (forall x :: x in s.stack ==> x in s.contexts)
    && "" !in s.contexts
  }

  /** Stack and map name the same services. */
  ghost predicate Agrees(s: State) {
    StackInMap(s) && forall x :: x in s.contexts ==> x in s.stack
  }

  ghost predicate OneServicePerCapability(s: State) {
    forall k, k', c :: k in s.contexts && k' in s.contexts && c in s.contexts[k] && c in s.contexts[k'] ==> k == k'
  }

  // Lists.

  lemma {:induction false} WithoutMembers<T>(list: seq<T>, x: T)
    ensures forall y :: y in Without(list, x) <==> y in list && y != x
    ensures NoDuplicates(list) ==> NoDuplicates(Without(list, x))
    ensures |Without(list, x)| <= |list|
  {
    if list != [] {
      WithoutMembers(list[1..], x);
      assert list == [list[0]] + list[1..];
      if NoDuplicates(list) {
        var rest := Without(list[1..], x);
        forall j | 0 <= j < |rest|
          ensures rest[j] != list[0]
        {
          assert rest[j] in rest;
        }
      }
    }
  }

  // Agreement.

  /** Whether a removal leaves stack and map in agreement: its service is there, or its empty entry goes at once. */
  predicate Leaves(s: State, psId: string, immediately: bool) {
    || psId == "" || psId in s.contexts
    || (!s.expectSpeech && (immediately || (psId !in s.renderers && |s.stack| >= 2)))
  }

  lemma ExpireShape(s: State, psId: string)
    requires StackInMap(s)
    ensures StackInMap(s.Expire(psId))
    ensures Agrees(s) ==> Agrees(s.Expire(psId))
    ensures OneServicePerCapability(s) ==> OneServicePerCapability(s.Expire(psId))
  {
    WithoutMembers(s.stack, psId);
  }

  lemma RemovedElementShape(s: State, psId: string, cap: CapabilityType)
    requires StackInMap(s) && psId != ""
    ensures var r := s.RemovedElement(psId, cap);
            && StackInMap(r)
            && (OneServicePerCapability(s) ==> OneServicePerCapability(r))
            && cap !in r.contexts[psId]
            && (forall k :: k in r.contexts <==> k in s.contexts || k == psId)
            && (forall k :: k in s.contexts && k != psId ==> r.contexts[k] == s.contexts[k])
            && (psId !in s.contexts ==> r.contexts[psId] == [])
  {
    WithoutMembers(s.Elements(psId), cap);
  }

  /** Any removal: what every run keeps is kept, and agreement is kept exactly when Leaves holds. */
  lemma RemoveStep(s: State, psId: string, cap: CapabilityType, immediately: bool)
    requires StackInMap(s)
    ensures var r := s.RemoveContext(psId, cap, immediately);
            && StackInMap(r)
            && (OneServicePerCapability(s) ==> OneServicePerCapability(r))
            && (Agrees(s) ==> (Agrees(r) <==> Leaves(s, psId, immediately)))
  {
    if psId != "" {
      RemovedElementShape(s, psId, cap);
      var removed := s.RemovedElement(psId, cap);
      var named := removed.(timerId := psId);
      ExpireShape(named, psId);
      if Agrees(s) {
        RemoveAgreement(s, psId, cap, immediately);
      }
    }
  }

  lemma RemoveAgreement(s: State, psId: string, cap: CapabilityType, immediately: bool)
    requires Agrees(s) && psId != ""
    ensures Agrees(s.RemoveContext(psId, cap, immediately)) <==> Leaves(s, psId, immediately)
  {
    if psId in s.contexts {
      RemoveKnown(s, psId, cap, immediately);
    } else {
      RemoveUnknown(s, psId, cap, immediately);
    }
  }

  lemma RemoveKnown(s: State, psId: string, cap: CapabilityType, immediately: bool)
    requires Agrees(s) && psId != "" && psId in s.contexts
    ensures Agrees(s.RemoveContext(psId, cap, immediately))
  {
    RemovedElementShape(s, psId, cap);
    ExpireShape(s.RemovedElement(psId, cap).(timerId := psId), psId);
  }

  lemma RemoveUnknown(s: State, psId: string, cap: CapabilityType, immediately: bool)
    requires Agrees(s) && psId != "" && psId !in s.contexts
    ensures Agrees(s.RemoveContext(psId, cap, immediately)) <==>
            !s.expectSpeech && (immediately || (psId !in s.renderers && |s.stack| >= 2))
  {
    RemovedElementShape(s, psId, cap);
    ExpireUnknown(s.RemovedElement(psId, cap).(timerId := psId), psId);
  }

  /** An entry that was never on the stack is gone once it expires, and stands out until then. */
  lemma ExpireUnknown(s: State, psId: string)
    requires StackInMap(s) && psId in s.contexts && psId !in s.stack
    requires forall x :: x in s.contexts && x != psId ==> x in s.stack
    ensures Agrees(s.Expire(psId)) && !Agrees(s)
  {
    WithoutMembers(s.stack, psId);
  }

  /** What taking a capability away from services does to the map. */
  ghost predicate TakesAway(s: State, r: State, cap: CapabilityType) {
    && StackInMap(r)
    && (OneServicePerCapability(s) ==> OneServicePerCapability(r))
    && (forall x :: x in r.contexts && x in s.contexts && cap !in s.contexts[x] ==> cap !in r.contexts[x])
  }

  lemma RemoveTakesAway(s: State, item: string, cap: CapabilityType)
    requires StackInMap(s) && item != ""
    ensures var r := s.RemoveContext(item, cap, true);
            && TakesAway(s, r, cap)
            && (item in r.contexts ==> cap !in r.contexts[item])
            && r.contexts.Keys <= s.contexts.Keys + {item}
  {
    RemoveStep(s, item, cap, true);
    RemovedElementShape(s, item, cap);
  }

  /** None of these services, the named one aside, has the capability. */
  ghost predicate Stripped(r: State, items: seq<string>, psId: string, cap: CapabilityType) {
    forall i :: 0 <= i < |items| && items[i] != psId && items[i] in r.contexts ==> cap !in r.contexts[items[i]]
  }

  lemma StrippedOf(r: State, items: seq<string>, psId: string, cap: CapabilityType, x: string)
    requires Stripped(r, items, psId, cap) && x in items && x != psId && x in r.contexts
    ensures cap !in r.contexts[x]
  {
    var i :| 0 <= i < |items| && items[i] == x;
  }

  /** One removal, then the rest of the loop. */
  lemma RemovalThenRest(s: State, next: State, r: State, items: seq<string>, psId: string, cap: CapabilityType)
    requires items != [] && items[0] != psId
    requires TakesAway(s, next, cap) && TakesAway(next, r, cap)
    requires next.contexts.Keys <= s.contexts.Keys + {items[0]}
    requires items[0] in next.contexts ==> cap !in next.contexts[items[0]]
    requires forall x :: x in s.contexts && x != items[0] ==> x in next.contexts
    requires Stripped(r, items[1..], psId, cap)
    requires forall x :: x in r.contexts ==> x in next.contexts || x in items[1..]
    ensures TakesAway(s, r, cap) && Stripped(r, items, psId, cap)
  {
    var first := items[0];
    if first in r.contexts && first !in next.contexts {
      StrippedOf(r, items[1..], psId, cap, first);
    }
    forall i | 0 <= i < |items| && items[i] != psId && items[i] in r.contexts
      ensures cap !in r.contexts[items[i]]
    {
      if i > 0 {
        assert items[1..][i - 1] == items[i];
      }
    }
  }

  lemma RemovalKeepsOthers(s: State, psId: string, cap: CapabilityType)
    ensures forall x :: x in s.contexts && x != psId ==> x in s.RemoveContext(psId, cap, true).contexts
  {
  }

  /** The loop of addContext leaves the capability with none of the services it goes through. */
  lemma {:induction false} RemoveFromOthersStep(s: State, items: seq<string>, psId: string, cap: CapabilityType)
    requires StackInMap(s)
    requires forall i :: 0 <= i < |items| ==> items[i] != ""
    ensures var r := s.RemoveFromOthers(items, psId, cap);
            && TakesAway(s, r, cap)
            && Stripped(r, items, psId, cap)
            && (forall x :: x in r.contexts ==> x in s.contexts || x in items)
    decreases |items|
  {
    if items != [] {
      var r := s.RemoveFromOthers(items, psId, cap);
      if items[0] == psId {
        RemoveFromOthersStep(s, items[1..], psId, cap);
        forall i | 0 < i < |items| && items[i] != psId && items[i] in r.contexts
          ensures cap !in r.contexts[items[i]]
        {
          assert items[1..][i - 1] == items[i];
        }
      } else {
        var next := s.RemoveContext(items[0], cap, true);
        RemoveTakesAway(s, items[0], cap);
        RemovalKeepsOthers(s, items[0], cap);
        RemoveFromOthersStep(next, items[1..], psId, cap);
        RemovalThenRest(s, next, r, items, psId, cap);
      }
    }
  }

  /** The items still to come are still on the stack, so each removal names a service that is there. */
  lemma {:induction false} RemoveFromOthersAgrees(s: State, items: seq<string>, psId: string, cap: CapabilityType)
    requires Agrees(s) && NoDuplicates(items)
    requires forall x :: x in items ==> x in s.stack
    ensures Agrees(s.RemoveFromOthers(items, psId, cap))
    decreases |items|
  {
    if items != [] {
      assert items == [items[0]] + items[1..];
      if items[0] == psId {
        RemoveFromOthersAgrees(s, items[1..], psId, cap);
      } else {
        var next := s.RemoveContext(items[0], cap, true);
        RemoveStep(s, items[0], cap, true);
        assert items[0] in s.contexts;
        StackAfterRemoval(s, items[0], cap);
        forall x | x in items[1..]
          ensures x in next.stack
        {
          var i :| 0 <= i < |items[1..]| && items[1..][i] == x;
          assert items[0] != items[i + 1];
        }
        RemoveFromOthersAgrees(next, items[1..], psId, cap);
      }
    }
  }

  lemma StackAfterRemoval(s: State, psId: string, cap: CapabilityType)
    ensures forall x :: x in s.stack && x != psId ==> x in s.RemoveContext(psId, cap, true).stack
  {
    WithoutMembers(s.stack, psId);
  }

  lemma ReverseMembers(list: seq<string>)
    ensures forall x :: x in Reverse(list) <==> x in list
    ensures NoDuplicates(list) ==> NoDuplicates(Reverse(list))
  {
    forall x | x in list
      ensures x in Reverse(list)
    {
      var i :| 0 <= i < |list| && list[i] == x;
      assert Reverse(list)[|list| - 1 - i] == x;
    }
  }

  lemma {:induction false} ClearRenderersShape(s: State)
    ensures var r := s.ClearRenderers();
            r == s.(renderers := r.renderers, calls := r.calls) && r.renderers == map[]
    decreases |s.renderers|
  {
    if s.renderers != map[] {
      var psId :| psId in s.renderers && s.ClearRenderers() == s.RemoveRenderer(psId).ClearRenderers();
      assert (s.renderers - {psId}).Keys == s.renderers.Keys - {psId};
      ClearRenderersShape(s.RemoveRenderer(psId));
    }
  }

  /** Adding a renderer touches neither stack nor map. */
  lemma RenderedShape(s: State, psId: string, cap: CapabilityType, renderer: Option<Renderer>)
    ensures var r := s.WithRenderer(psId, cap, renderer);
            r == s.(renderers := r.renderers, calls := r.calls)
  {
    ClearRenderersShape(s);
  }

  lemma AddElementShape(s: State, psId: string, cap: CapabilityType)
    requires StackInMap(s) && psId != ""
    ensures StackInMap(s.AddElement(psId, cap))
    ensures Agrees(s) ==> Agrees(s.AddElement(psId, cap))
    ensures OneServicePerCapability(s) && (forall x :: x in s.contexts && x != psId ==> cap !in s.contexts[x]) ==>
              OneServicePerCapability(s.AddElement(psId, cap))
  {
  }

  lemma AddStep(s: State, psId: string, cap: CapabilityType, renderer: Option<Renderer>)
    requires StackInMap(s)
    ensures var r := s.AddContext(psId, cap, renderer);
            && StackInMap(r)
            && (Agrees(s) ==> Agrees(r))
            && (Agrees(s) && OneServicePerCapability(s) ==> OneServicePerCapability(r))
  {
    if psId != "" {
      RenderedShape(s, psId, cap, renderer);
      var rendered := s.WithRenderer(psId, cap, renderer);
      var items := Reverse(rendered.stack);
      ReverseMembers(rendered.stack);
      RemoveFromOthersStep(rendered, items, psId, cap);
      var alone := rendered.RemoveFromOthers(items, psId, cap);
      if Agrees(s) {
        RemoveFromOthersAgrees(rendered, items, psId, cap);
      }
      AddElementShape(alone, psId, cap);
    }
  }

  lemma ASRErrorStep(s: State)
    requires StackInMap(s)
    ensures StackInMap(s.ASRError())
    ensures Agrees(s) ==> Agrees(s.ASRError())
    ensures OneServicePerCapability(s) ==> OneServicePerCapability(s.ASRError())
  {
    if s.stack != [] {
      assert s.stack[|s.stack| - 1] in s.stack;
      RemoveStep(s.(expectSpeech := false), s.stack[|s.stack| - 1], TTS, true);
    }
  }

  // Runs.

  datatype Op =
    | Add(psId: string, cap: CapabilityType, renderer: Option<Renderer>)
    | Remove(psId: string, cap: CapabilityType, immediately: bool)
    | Timer
    | ExpectSpeech(on: bool)
    | MicOn
    | AsrError

  ghost function Step(s: State, op: Op): State {
    match op
    case Add(psId, cap, renderer) => s.AddContext(psId, cap, renderer)
    case Remove(psId, cap, immediately) => s.RemoveContext(psId, cap, immediately)
    case Timer => s.TimerFires()
    case ExpectSpeech(on) => s.(expectSpeech := on)
    case MicOn => s.(timerArmed := false)
    case AsrError => s.ASRError()
  }

  ghost function Run(s: State, ops: seq<Op>): State
    decreases |ops|
  {
    if ops == [] then s else Run(Step(s, ops[0]), ops[1..])
  }

  predicate GoodOp(s: State, op: Op) {
    op.Remove? ==> Leaves(s, op.psId, op.immediately)
  }

  ghost predicate AllGood(s: State, ops: seq<Op>)
    decreases |ops|
  {
    ops != [] ==> GoodOp(s, ops[0]) && AllGood(Step(s, ops[0]), ops[1..])
  }

  ghost predicate AlwaysAgrees(s: State, ops: seq<Op>)
    decreases |ops|
  {
    Agrees(s) && (ops != [] ==> AlwaysAgrees(Step(s, ops[0]), ops[1..]))
  }

  lemma OpStep(s: State, op: Op)
    requires StackInMap(s)
    ensures StackInMap(Step(s, op))
    ensures Agrees(s) ==> (Agrees(Step(s, op)) <==> GoodOp(s, op))
    ensures Agrees(s) && OneServicePerCapability(s) ==> OneServicePerCapability(Step(s, op))
  {
    match op
    case Add(psId, cap, renderer) => AddStep(s, psId, cap, renderer);
    case Remove(psId, cap, immediately) => RemoveStep(s, psId, cap, immediately);
    case Timer => ExpireShape(s.(timerArmed := false), s.timerId);
    case ExpectSpeech(_) =>
    case MicOn =>
    case AsrError => ASRErrorStep(s);
  }

  /** Stack and map agree throughout a run exactly when every removal names a known service or takes effect at once. */
  lemma {:induction false} AgreementOverRuns(s: State, ops: seq<Op>)
    requires Agrees(s)
    ensures AlwaysAgrees(s, ops) <==> AllGood(s, ops)
    decreases |ops|
  {
    if ops != [] {
      OpStep(s, ops[0]);
      if GoodOp(s, ops[0]) {
        AgreementOverRuns(Step(s, ops[0]), ops[1..]);
      }
    }
  }

  /** On those runs each capability plays for at most one service. */
  lemma {:induction false} CapabilityOverRuns(s: State, ops: seq<Op>)
    requires Agrees(s) && OneServicePerCapability(s) && AllGood(s, ops)
    ensures Agrees(Run(s, ops)) && OneServicePerCapability(Run(s, ops))
    decreases |ops|
  {
    if ops != [] {
      OpStep(s, ops[0]);
      CapabilityOverRuns(Step(s, ops[0]), ops[1..]);
    }
  }

  /** On every run, unknown services or not, the stack stays duplicate-free and inside the map. */
  lemma {:induction false} StackOverRuns(s: State, ops: seq<Op>)
    requires StackInMap(s)
    ensures StackInMap(Run(s, ops))
    decreases |ops|
  {
    if ops != [] {
      OpStep(s, ops[0]);
      StackOverRuns(Step(s, ops[0]), ops[1..]);
    }
  }

  /** An addition takes the capability from every other service of the stack; no other one off the stack may have it. */
  predicate Exclusive(s: State, op: Op) {
    op.Add? && op.psId != "" && !(op.renderer.Some? && op.renderer.value.onlyRendering) ==>
      forall x :: x in s.contexts && x !in s.stack && x != op.psId ==> op.cap !in s.contexts[x]
  }

  lemma {:induction false} LoopLeavesAlone(s: State, items: seq<string>, psId: string, cap: CapabilityType, x: string)
    requires x !in items
    ensures var t := s.RemoveFromOthers(items, psId, cap);
            (x in t.contexts <==> x in s.contexts) && (x in s.contexts ==> t.contexts[x] == s.contexts[x])
    decreases |items|
  {
    if items != [] {
      assert items[0] != x && x !in items[1..];
      if items[0] == psId {
        LoopLeavesAlone(s, items[1..], psId, cap, x);
      } else {
        RemovalLeavesAlone(s, items[0], cap, x);
        LoopLeavesAlone(s.RemoveContext(items[0], cap, true), items[1..], psId, cap, x);
      }
    }
  }

  lemma RemovalLeavesAlone(s: State, item: string, cap: CapabilityType, x: string)
    requires x != item
    ensures var t := s.RemoveContext(item, cap, true);
            (x in t.contexts <==> x in s.contexts) && (x in s.contexts ==> t.contexts[x] == s.contexts[x])
  {
  }

  /** After the loop another service has the capability only if it had it before, off the stack. */
  lemma LoopTakes(s: State, psId: string, cap: CapabilityType, x: string)
    requires StackInMap(s) && x != psId
    ensures var t := s.RemoveFromOthers(Reverse(s.stack), psId, cap);
            x in t.contexts && cap in t.contexts[x] <==> x in s.contexts && x !in s.stack && cap in s.contexts[x]
  {
    var items := Reverse(s.stack);
    ReverseMembers(s.stack);
    RemoveFromOthersStep(s, items, psId, cap);
    if x in items {
      if x in s.RemoveFromOthers(items, psId, cap).contexts {
        StrippedOf(s.RemoveFromOthers(items, psId, cap), items, psId, cap, x);
      }
    } else {
      LoopLeavesAlone(s, items, psId, cap, x);
    }
  }

  lemma AddElementBreaks(s: State, psId: string, cap: CapabilityType, x: string)
    requires x != psId && x in s.contexts && cap in s.contexts[x]
    ensures !OneServicePerCapability(s.AddElement(psId, cap))
  {
    var t := s.AddElement(psId, cap);
    assert psId in t.contexts && cap in t.contexts[psId] && x in t.contexts && cap in t.contexts[x];
  }

  lemma AddCapability(s: State, psId: string, cap: CapabilityType, renderer: Option<Renderer>)
    requires StackInMap(s) && OneServicePerCapability(s)
    ensures OneServicePerCapability(s.AddContext(psId, cap, renderer)) <==> Exclusive(s, Add(psId, cap, renderer))
  {
    RenderedShape(s, psId, cap, renderer);
    if psId != "" && !(renderer.Some? && renderer.value.onlyRendering) {
      LoopCapability(s.WithRenderer(psId, cap, renderer), psId, cap);
    }
  }

  lemma LoopCapability(s: State, psId: string, cap: CapabilityType)
    requires StackInMap(s) && OneServicePerCapability(s) && psId != ""
    ensures OneServicePerCapability(s.RemoveFromOthers(Reverse(s.stack), psId, cap).AddElement(psId, cap)) <==>
            forall x :: x in s.contexts && x !in s.stack && x != psId ==> cap !in s.contexts[x]
  {
    var alone := s.RemoveFromOthers(Reverse(s.stack), psId, cap);
    ReverseMembers(s.stack);
    RemoveFromOthersStep(s, Reverse(s.stack), psId, cap);
    forall x | x != psId
      ensures x in alone.contexts && cap in alone.contexts[x] <==>
              x in s.contexts && x !in s.stack && cap in s.contexts[x]
    {
      LoopTakes(s, psId, cap, x);
    }
    if x :| x in s.contexts && x !in s.stack && x != psId && cap in s.contexts[x] {
      assert x in alone.contexts && cap in alone.contexts[x];
      AddElementBreaks(alone, psId, cap, x);
    } else {
      assert forall x :: x in alone.contexts && x != psId ==> cap !in alone.contexts[x];
      AddElementShape(alone, psId, cap);
    }
  }

  lemma CapabilityStep(s: State, op: Op)
    requires StackInMap(s) && OneServicePerCapability(s)
    ensures OneServicePerCapability(Step(s, op)) <==> Exclusive(s, op)
  {
    match op
    case Add(psId, cap, renderer) => AddCapability(s, psId, cap, renderer);
    case Remove(psId, cap, immediately) => RemoveStep(s, psId, cap, immediately);
    case Timer => ExpireShape(s.(timerArmed := false), s.timerId);
    case ExpectSpeech(_) =>
    case MicOn =>
    case AsrError => ASRErrorStep(s);
  }

  ghost predicate AllExclusive(s: State, ops: seq<Op>)
    decreases |ops|
  {
    ops != [] ==> Exclusive(s, ops[0]) && AllExclusive(Step(s, ops[0]), ops[1..])
  }

  ghost predicate AlwaysOneService(s: State, ops: seq<Op>)
    decreases |ops|
  {
    OneServicePerCapability(s) && (ops != [] ==> AlwaysOneService(Step(s, ops[0]), ops[1..]))
  }

  /** On every run, known services or not, each capability plays for one service throughout exactly when that holds. */
  lemma {:induction false} CapabilityExactly(s: State, ops: seq<Op>)
    requires StackInMap(s) && OneServicePerCapability(s)
    ensures AlwaysOneService(s, ops) <==> AllExclusive(s, ops)
    ensures AllExclusive(s, ops) ==> OneServicePerCapability(Run(s, ops))
    decreases |ops|
  {
    if ops != [] {
      OpStep(s, ops[0]);
      CapabilityStep(s, ops[0]);
      if Exclusive(s, ops[0]) {
        CapabilityExactly(Step(s, ops[0]), ops[1..]);
      }
    }
  }

  /** What getPlayStackItem may return in a state. */
  predicate MayReturn(s: State, cap: CapabilityType, psId: string) {
    || (psId in s.contexts && cap in s.contexts[psId])
    || (psId == "" && forall k :: k in s.contexts ==> cap !in s.contexts[k])
  }

  /** From the initial state, on such a run, the order in which the map is searched does not matter. */
  lemma LookupIsUnambiguous(ops: seq<Op>, cap: CapabilityType, psId: string, psId': string)
    requires AllExclusive(INITIAL, ops)
    requires MayReturn(Run(INITIAL, ops), cap, psId) && MayReturn(Run(INITIAL, ops), cap, psId')
    ensures psId == psId'
  {
    CapabilityExactly(INITIAL, ops);
  }

  /** An unknown service, removed while speech is expected and then added, keeps the capability beside the next one. */
  lemma TwoServicesOneCapability()
    ensures var one := INITIAL.(expectSpeech := true).RemoveContext("a", TTS, true).AddContext("a", TTS, None);
            var two := one.AddContext("b", TTS, None);
            && OneServicePerCapability(one) && !Exclusive(one, Add("b", TTS, None))
            && "a" in two.contexts && "b" in two.contexts && TTS in two.contexts["a"] && TTS in two.contexts["b"]
  {
    var zero := INITIAL.(expectSpeech := true).RemoveContext("a", TTS, true);
    assert zero.contexts == map["a" := []] && zero.stack == [];
    assert Reverse<string>([]) == [];
    var one := zero.AddElement("a", TTS);
    assert one == zero.AddContext("a", TTS, None) && one.contexts["a"] == [] + [TTS];
    var two := one.AddElement("b", TTS);
    assert two == one.AddContext("b", TTS, None);
  }

  // Renderers.

  /** The service whose renderer is live after these calls, as a set. */
  function Live(calls: seq<Call>): set<string> {
    if calls == [] then {}
    else
      var last := calls[|calls| - 1];
      if last.Sync? then Live(calls[..|calls| - 1]) + {last.psId} else Live(calls[..|calls| - 1]) - {last.psId}
  }

  function Balance(calls: seq<Call>): int {
    if calls == [] then 0 else Balance(calls[..|calls| - 1]) + (if calls[|calls| - 1].Sync? then 1 else -1)
  }

  /** At most one renderer, and it is the one that was synced and not released since. */
  ghost predicate RendererLive(s: State) {
    |s.renderers| <= 1 && Live(s.calls) == s.renderers.Keys && Balance(s.calls) == |s.renderers|
  }

  lemma CallSnoc(calls: seq<Call>, call: Call)
    ensures Live(calls + [call]) == if call.Sync? then Live(calls) + {call.psId} else Live(calls) - {call.psId}
    ensures Balance(calls + [call]) == Balance(calls) + (if call.Sync? then 1 else -1)
  {
    assert (calls + [call])[..|calls|] == calls;
  }

  lemma RemoveRendererLive(s: State, psId: string)
    requires RendererLive(s)
    ensures RendererLive(s.RemoveRenderer(psId))
  {
    if psId in s.renderers {
      CallSnoc(s.calls, Release(psId));
      assert (s.renderers - {psId}).Keys == s.renderers.Keys - {psId};
    }
  }

  lemma RemoveContextLive(s: State, psId: string, cap: CapabilityType, immediately: bool)
    requires RendererLive(s)
    ensures RendererLive(s.RemoveContext(psId, cap, immediately))
  {
    RemoveRendererLive(s, psId);
  }

  lemma {:induction false} RemoveFromOthersLive(s: State, items: seq<string>, psId: string, cap: CapabilityType)
    requires RendererLive(s)
    ensures RendererLive(s.RemoveFromOthers(items, psId, cap))
    decreases |items|
  {
    if items != [] {
      if items[0] == psId {
        RemoveFromOthersLive(s, items[1..], psId, cap);
      } else {
        RemoveContextLive(s, items[0], cap, true);
        RemoveFromOthersLive(s.RemoveContext(items[0], cap, true), items[1..], psId, cap);
      }
    }
  }

  lemma ClearRenderersLive(s: State)
    requires RendererLive(s)
    ensures RendererLive(s.ClearRenderers()) && s.ClearRenderers().renderers == map[]
  {
    OneKeyCleared(s);
    if k :| k in s.renderers {
      RemoveRendererLive(s, k);
    }
  }

  lemma AddRendererLive(s: State, psId: string, renderer: Renderer)
    requires RendererLive(s)
    ensures RendererLive(s.AddRenderer(psId, renderer))
  {
    ClearRenderersLive(s);
    FirstRendererLive(s.ClearRenderers(), psId, renderer);
  }

  lemma FirstRendererLive(s: State, psId: string, renderer: Renderer)
    requires RendererLive(s) && s.renderers == map[]
    ensures RendererLive(s.(renderers := s.renderers[psId := renderer], calls := s.calls + [Sync(psId)]))
  {
    CallSnoc(s.calls, Sync(psId));
    assert s.renderers[psId := renderer] == map[psId := renderer];
    assert map[psId := renderer].Keys == {psId};
  }

  lemma AddContextLive(s: State, psId: string, cap: CapabilityType, renderer: Option<Renderer>)
    requires RendererLive(s)
    ensures RendererLive(s.AddContext(psId, cap, renderer))
  {
    var rendered := s.WithRenderer(psId, cap, renderer);
    if renderer.Some? {
      AddRendererLive(s, psId, renderer.value);
    }
    RemoveFromOthersLive(rendered, Reverse(rendered.stack), psId, cap);
    AddElementLive(rendered.RemoveFromOthers(Reverse(rendered.stack), psId, cap), psId, cap);
  }

  lemma AddElementLive(s: State, psId: string, cap: CapabilityType)
    ensures RendererLive(s) ==> RendererLive(s.AddElement(psId, cap))
  {
  }

  lemma LiveStep(s: State, op: Op)
    requires RendererLive(s)
    ensures RendererLive(Step(s, op))
  {
    match op
    case Add(psId, cap, renderer) => AddContextLive(s, psId, cap, renderer);
    case Remove(psId, cap, immediately) => RemoveContextLive(s, psId, cap, immediately);
    case Timer => RemoveRendererLive(s, s.timerId);
    case ExpectSpeech(_) =>
    case MicOn =>
    case AsrError =>
      if s.stack != [] {
        RemoveContextLive(s.(expectSpeech := false), s.stack[|s.stack| - 1], TTS, true);
      }
  }

  /** On every run there is at most one renderer, it is the live one, and syncs exceed releases by their number. */
  lemma {:induction false} RendererOverRuns(s: State, ops: seq<Op>)
    requires RendererLive(s)
    ensures RendererLive(Run(s, ops))
    decreases |ops|
  {
    if ops != [] {
      LiveStep(s, ops[0]);
      RendererOverRuns(Step(s, ops[0]), ops[1..]);
    }
  }

  // What removals and additions do to the services.

  /** No trace of the service is left, and the other services are as they were. */
  ghost predicate Gone(s: State, t: State, psId: string) {
    && psId !in t.contexts && psId !in t.stack && psId !in t.renderers
    && t.contexts == s.contexts - {psId}
    && t.renderers == s.renderers - {psId}
    && t.stack == Without(s.stack, psId)
  }

  /** The entry of a service emptied, and then expired. */
  lemma ExpiredIsGone(s: State, t: State, psId: string, elements: seq<CapabilityType>)
    requires StackInMap(s)
    requires t.stack == s.stack && t.contexts == s.contexts[psId := elements] && t.renderers == s.renderers
    ensures Gone(s, t.Expire(psId), psId)
  {
    WithoutMembers(s.stack, psId);
    assert t.contexts - {psId} == s.contexts - {psId};
    assert psId !in s.renderers ==> s.renderers - {psId} == s.renderers;
  }

  /** Everything is as it was, but that the timer is armed for the service and it has nothing left to play. */
  ghost predicate WaitsForTimer(s: State, t: State, psId: string) {
    && t.timerArmed && t.timerId == psId
    && t.contexts == s.contexts[psId := []]
    && t.stack == s.stack && t.renderers == s.renderers && t.calls == s.calls
  }

  /**
   Removing a capability of a service: the others it has stay with it. When it was the last one, and no speech is
   expected, the service goes at once if and only if that was asked for, or it has no renderer and the stack has two
   services or more; otherwise it waits for the timer, and is gone when that fires next. Expected speech spares it once.
   What may come in between the removal and the timer is the subject of PlaySyncTimer.
   */
  lemma RemovalOutcome(s: State, psId: string, cap: CapabilityType, immediately: bool)
    requires StackInMap(s) && psId != ""
    ensures var t := s.RemoveContext(psId, cap, immediately);
            var left := Without(s.Elements(psId), cap);
            var atOnce := immediately || (psId !in s.renderers && |s.stack| >= 2);
            && !t.expectSpeech
            && (left != [] || s.expectSpeech ==>
                  t == s.(contexts := s.contexts[psId := left], expectSpeech := false))
            && (left == [] && !s.expectSpeech ==>
                  && (atOnce ==> Gone(s, t, psId) && t.timerArmed == s.timerArmed)
                  && (!atOnce ==> WaitsForTimer(s, t, psId) && Gone(s, t.TimerFires(), psId)))
  {
    var left := Without(s.Elements(psId), cap);
    var named := s.RemovedElement(psId, cap).(timerId := psId);
    if left == [] && !s.expectSpeech {
      ExpiredIsGone(s, named, psId, left);
      ExpiredIsGone(s, named.(expectSpeech := false), psId, left);
    }
  }

  /** An ASR error takes TTS from the service on top of the stack, at once even if speech was expected. */
  lemma ASRErrorOutcome(s: State)
    requires StackInMap(s)
    ensures var t := s.ASRError();
            if s.stack == [] then t == s.(expectSpeech := false)
            else
              var top := s.stack[|s.stack| - 1];
              && top in s.contexts && !t.expectSpeech
              && (Without(s.contexts[top], TTS) != [] ==>
                    t == s.(contexts := s.contexts[top := Without(s.contexts[top], TTS)], expectSpeech := false))
              && (Without(s.contexts[top], TTS) == [] ==> Gone(s, t, top))
  {
    if s.stack != [] {
      var top := s.stack[|s.stack| - 1];
      assert top in s.stack;
      RemovalOutcome(s.(expectSpeech := false), top, TTS, true);
    }
  }

  lemma {:induction false} LoopKeepsRenderers(s: State, items: seq<string>, psId: string, cap: CapabilityType)
    requires s.renderers.Keys <= {psId}
    ensures var t := s.RemoveFromOthers(items, psId, cap);
            t.renderers == s.renderers && t.calls == s.calls
    decreases |items|
  {
    if items != [] {
      if items[0] == psId {
        LoopKeepsRenderers(s, items[1..], psId, cap);
      } else {
        RemovalKeepsRenderers(s, items[0], cap);
        LoopKeepsRenderers(s.RemoveContext(items[0], cap, true), items[1..], psId, cap);
      }
    }
  }

  lemma RemovalKeepsRenderers(s: State, item: string, cap: CapabilityType)
    requires item !in s.renderers
    ensures var t := s.RemoveContext(item, cap, true);
            t.renderers == s.renderers && t.calls == s.calls
  {
  }

  /**
   A renderer is taken unless its service has one for another capability; then the one there was is released, the new
   one synced, and it is the only one. If it is not taken nothing is released or synced.
   */
  lemma RendererOutcome(s: State, psId: string, cap: CapabilityType, renderer: Renderer)
    requires RendererLive(s) && psId != ""
    ensures var t := s.AddContext(psId, cap, Some(renderer));
            if psId in s.renderers && s.renderers[psId].capType != cap then
              t.renderers == s.renderers && t.calls == s.calls
            else
              && t.renderers == map[psId := renderer]
              && (s.renderers == map[] ==> t.calls == s.calls + [Sync(psId)])
              && (forall k :: k in s.renderers ==> t.calls == s.calls + [Release(k)] + [Sync(psId)])
  {
    RendererTaken(s, psId, cap, renderer);
    AdditionKeepsRenderers(s, psId, cap, renderer);
  }

  lemma RendererTaken(s: State, psId: string, cap: CapabilityType, renderer: Renderer)
    requires RendererLive(s)
    ensures var t := s.WithRenderer(psId, cap, Some(renderer));
            && t.renderers.Keys <= {psId}
            && if psId in s.renderers && s.renderers[psId].capType != cap then t == s
               else
                 && t.renderers == map[psId := renderer]
                 && (s.renderers == map[] ==> t.calls == s.calls + [Sync(psId)])
                 && (forall k :: k in s.renderers ==> t.calls == s.calls + [Release(k)] + [Sync(psId)])
  {
    OneKeyCleared(s);
    OneRendererSynced(s, psId, renderer);
    if psId in s.renderers {
      assert s.renderers.Keys == {psId};
    }
  }

  lemma OneRendererSynced(s: State, psId: string, renderer: Renderer)
    requires |s.renderers| <= 1
    ensures var t := s.AddRenderer(psId, renderer);
            && t.renderers == map[psId := renderer]
            && (s.renderers == map[] ==> t.calls == s.calls + [Sync(psId)])
            && (forall k :: k in s.renderers ==> t.calls == s.calls + [Release(k)] + [Sync(psId)])
  {
    OneKeyCleared(s);
    var cleared := s.ClearRenderers();
    assert cleared.renderers == map[] && cleared.renderers[psId := renderer] == map[psId := renderer];
  }

  lemma AdditionKeepsRenderers(s: State, psId: string, cap: CapabilityType, renderer: Renderer)
    requires psId != "" && s.WithRenderer(psId, cap, Some(renderer)).renderers.Keys <= {psId}
    ensures var t := s.AddContext(psId, cap, Some(renderer));
            var rendered := s.WithRenderer(psId, cap, Some(renderer));
            t.renderers == rendered.renderers && t.calls == rendered.calls
  {
    var rendered := s.WithRenderer(psId, cap, Some(renderer));
    LoopKeepsRenderers(rendered, Reverse(rendered.stack), psId, cap);
  }

  /** What taking the capability from these services, the named one aside, leaves of the map. */
  ghost predicate Took(s: State, t: State, items: seq<string>, psId: string, cap: CapabilityType) {
    && (forall x :: x in t.contexts ==> x in s.contexts)
    && (forall x :: x in t.contexts && !(x in items && x != psId) ==> t.contexts[x] == s.contexts[x])
    && (forall x :: x in t.contexts && x in items && x != psId ==> t.contexts[x] == Without(s.contexts[x], cap))
    && (forall x :: x in s.contexts && x !in t.contexts ==>
          x in items && x != psId && Without(s.contexts[x], cap) == [])
  }

  lemma TookOne(s: State, item: string, cap: CapabilityType)
    requires StackInMap(s) && item in s.contexts
    ensures var t := s.RemoveContext(item, cap, true);
            && (forall x :: x in t.contexts ==> x in s.contexts)
            && (forall x :: x in t.contexts && x != item ==> t.contexts[x] == s.contexts[x])
            && (forall x :: x in s.contexts && x != item ==> x in t.contexts)
            && (item in t.contexts ==> t.contexts[item] == Without(s.contexts[item], cap))
            && (item !in t.contexts ==> Without(s.contexts[item], cap) == [])
  {
    RemovalOutcome(s, item, cap, true);
  }

  /** The loop of addContext takes the capability, and only that, from each service it goes through. */
  lemma {:induction false} RemoveFromOthersOutcome(s: State, items: seq<string>, psId: string, cap: CapabilityType)
    requires Agrees(s) && NoDuplicates(items)
    requires forall x :: x in items ==> x in s.stack
    ensures Took(s, s.RemoveFromOthers(items, psId, cap), items, psId, cap)
    decreases |items|
  {
    if items != [] {
      var rest := items[1..];
      assert items == [items[0]] + rest;
      assert items[0] !in rest && NoDuplicates(rest);
      if items[0] == psId {
        RemoveFromOthersOutcome(s, rest, psId, cap);
      } else {
        var next := s.RemoveContext(items[0], cap, true);
        assert items[0] in s.contexts;
        RemoveStep(s, items[0], cap, true);
        TookOne(s, items[0], cap);
        StackAfterRemoval(s, items[0], cap);
        RemoveFromOthersOutcome(next, rest, psId, cap);
        TookThenRest(s, next, s.RemoveFromOthers(items, psId, cap), items, psId, cap);
      }
    }
  }

  lemma TookThenRest(s: State, next: State, t: State, items: seq<string>, psId: string, cap: CapabilityType)
    requires items != [] && items[0] != psId && items[0] !in items[1..]
    requires forall x :: x in next.contexts ==> x in s.contexts
    requires forall x :: x in next.contexts && x != items[0] ==> next.contexts[x] == s.contexts[x]
    requires forall x :: x in s.contexts && x != items[0] ==> x in next.contexts
    requires items[0] in s.contexts
    requires items[0] in next.contexts ==> next.contexts[items[0]] == Without(s.contexts[items[0]], cap)
    requires items[0] !in next.contexts ==> Without(s.contexts[items[0]], cap) == []
    requires Took(next, t, items[1..], psId, cap)
    ensures Took(s, t, items, psId, cap)
  {
    assert forall x :: x in items <==> x == items[0] || x in items[1..] by {
      assert items == [items[0]] + items[1..];
    }
  }

  /**
   After an addition the service has what it had and the capability, on top of the stack when it is new, and every
   other service has what it had without it.
   */
  lemma AdditionOutcome(s: State, psId: string, cap: CapabilityType, renderer: Option<Renderer>)
    requires Agrees(s) && psId != "" && (renderer.Some? ==> !renderer.value.onlyRendering)
    ensures var t := s.AddContext(psId, cap, renderer);
            && psId in t.stack && psId in t.contexts
            && t.contexts[psId] == (if cap in s.Elements(psId) then s.Elements(psId) else s.Elements(psId) + [cap])
            && (psId !in s.contexts ==> t.stack[|t.stack| - 1] == psId)
            && (forall x :: x in t.contexts && x != psId ==> x in s.contexts)
            && (forall x :: x in t.contexts && x != psId ==> t.contexts[x] == Without(s.contexts[x], cap))
            && (forall x :: x in s.contexts && x != psId && x !in t.contexts ==> Without(s.contexts[x], cap) == [])
  {
    RenderedShape(s, psId, cap, renderer);
    var rendered := s.WithRenderer(psId, cap, renderer);
    var items := Reverse(rendered.stack);
    ReverseMembers(rendered.stack);
    RemoveFromOthersAgrees(rendered, items, psId, cap);
    RemoveFromOthersOutcome(rendered, items, psId, cap);
    var alone := rendered.RemoveFromOthers(items, psId, cap);
    assert s.AddContext(psId, cap, renderer) == alone.AddElement(psId, cap);
    AddedElement(alone, psId, cap);
  }

  lemma AddedElement(s: State, psId: string, cap: CapabilityType)
    requires Agrees(s) && psId != ""
    ensures var t := s.AddElement(psId, cap);
            && psId in t.stack && psId in t.contexts
            && t.contexts[psId] == (if cap in s.Elements(psId) then s.Elements(psId) else s.Elements(psId) + [cap])
            && (psId !in s.contexts ==> t.stack[|t.stack| - 1] == psId)
            && (forall x :: x != psId ==> (x in t.contexts <==> x in s.contexts))
            && (forall x :: x != psId && x in t.contexts ==> t.contexts[x] == s.contexts[x])
  {
  }

  // Services that are in the map and not on the stack.

  predicate Stray(s: State, x: string) {
    x in s.contexts && x !in s.stack
  }

  /** The operations that take a stray service out of the map. */
  predicate Retrieves(s: State, x: string, op: Op)
    requires x in s.contexts
  {
    || (op.Timer? && s.timerArmed && s.timerId == x)
    || (op.Remove? && op.psId == x && Without(s.contexts[x], op.cap) == [] && !s.expectSpeech
        && (op.immediately || (x !in s.renderers && |s.stack| >= 2)))
  }

  lemma RemovalKeepsStray(s: State, item: string, cap: CapabilityType, immediately: bool, x: string)
    requires Stray(s, x) && item != x
    ensures Stray(s.RemoveContext(item, cap, immediately), x)
  {
    WithoutMembers(s.stack, item);
  }

  lemma {:induction false} LoopKeepsStray(s: State, items: seq<string>, psId: string, cap: CapabilityType, x: string)
    requires Stray(s, x) && x !in items
    ensures Stray(s.RemoveFromOthers(items, psId, cap), x)
    decreases |items|
  {
    if items != [] {
      assert items[0] != x && x !in items[1..];
      if items[0] == psId {
        LoopKeepsStray(s, items[1..], psId, cap, x);
      } else {
        RemovalKeepsStray(s, items[0], cap, true, x);
        LoopKeepsStray(s.RemoveContext(items[0], cap, true), items[1..], psId, cap, x);
      }
    }
  }

  lemma AddElementKeepsStray(s: State, psId: string, cap: CapabilityType, x: string)
    requires Stray(s, x)
    ensures Stray(s.AddElement(psId, cap), x)
  {
  }

  lemma AddKeepsStray(s: State, psId: string, cap: CapabilityType, renderer: Option<Renderer>, x: string)
    requires Stray(s, x)
    ensures Stray(s.AddContext(psId, cap, renderer), x)
  {
    RenderedShape(s, psId, cap, renderer);
    var rendered := s.WithRenderer(psId, cap, renderer);
    var items := Reverse(rendered.stack);
    ReverseMembers(rendered.stack);
    assert x !in items && Stray(rendered, x);
    LoopKeepsStray(rendered, items, psId, cap, x);
    AddElementKeepsStray(rendered.RemoveFromOthers(items, psId, cap), psId, cap, x);
  }

  lemma RemovalOfStray(s: State, x: string, cap: CapabilityType, immediately: bool)
    requires Stray(s, x) && x != ""
    ensures Stray(s.RemoveContext(x, cap, immediately), x) <==> !Retrieves(s, x, Remove(x, cap, immediately))
  {
    WithoutMembers(s.stack, x);
  }

  /** A stray service stays one, even when it is added anew, until its timer or an immediate last removal of it. */
  lemma StrayUntilRetrieved(s: State, x: string, op: Op)
    requires Stray(s, x) && "" !in s.contexts
    ensures Stray(Step(s, op), x) <==> !Retrieves(s, x, op)
  {
    match op
    case Add(psId, cap, renderer) => AddKeepsStray(s, psId, cap, renderer, x);
    case Remove(psId, cap, immediately) =>
      if psId == x {
        RemovalOfStray(s, x, cap, immediately);
      } else {
        RemovalKeepsStray(s, psId, cap, immediately, x);
      }
    case Timer => WithoutMembers(s.stack, s.timerId);
    case AsrError =>
      if s.stack != [] {
        assert s.stack[|s.stack| - 1] in s.stack;
        RemovalKeepsStray(s.(expectSpeech := false), s.stack[|s.stack| - 1], TTS, true, x);
      }
    case ExpectSpeech(_) =>
    case MicOn =>
  }

  /** Removing an unknown service while speech is expected makes one, which even adding it does not put on the stack. */
  lemma UnknownServiceLingers()
    ensures var s := INITIAL.(expectSpeech := true).RemoveContext("a", TTS, true);
            && Stray(s, "a") && !Agrees(s)
            && Stray(s.AddContext("a", TTS, None), "a")
            && Agrees(s.RemoveContext("a", TTS, true))
  {
    var s := INITIAL.(expectSpeech := true).RemoveContext("a", TTS, true);
    assert s.contexts == map["a" := []];
    AddKeepsStray(s, "a", TTS, None, "a");
    assert s.RemoveContext("a", TTS, true).contexts == map[];
  }

  /** Expected speech spares a service that loses its last capability once, and only once. */
  lemma ExpectSpeechSparesOnce(s: State, psId: string, cap: CapabilityType)
    requires StackInMap(s) && psId in s.contexts && Without(s.contexts[psId], cap) == []
    ensures var expecting := Step(s, ExpectSpeech(true));
            var spared := Step(expecting, Remove(psId, cap, true));
            && spared == s.(contexts := s.contexts[psId := []], expectSpeech := false)
            && Gone(s, Step(spared, Remove(psId, cap, true)), psId)
    ensures Gone(s, Step(Step(s, ExpectSpeech(false)), Remove(psId, cap, true)), psId)
  {
    RemovalOutcome(s.(expectSpeech := true), psId, cap, true);
    RemovalOutcome(s.(expectSpeech := false), psId, cap, true);
    var spared := s.(contexts := s.contexts[psId := []], expectSpeech := false);
    RemovalOutcome(spared, psId, cap, true);
    assert spared.contexts - {psId} == s.contexts - {psId};
  }
}

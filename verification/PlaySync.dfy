/**
 The play context manager of service/playsync_manager.cc: a stack of play services, a map from each service to
 the capabilities playing for it, a map of display renderers and a one-shot timer that removes a context later.

 State is the value of the object; the class PlaySyncManager updates its fields in place and is proved against
 the functions of State. Whether stack, map, renderers and timer agree is the subject of PlaySyncRuns.
 */
module PlaySync {
  import opened Bytes

  datatype CapabilityType = AudioPlayer | Display | System | TTS | ASR | Text | Extension

  /** A display renderer whose listener is set. */
  datatype Renderer = Renderer(capType: CapabilityType, onlyRendering: bool, renderInfo: string)

  /** The calls of onSyncContext and onReleaseContext. */
  datatype Call = Sync(psId: string) | Release(psId: string)

  datatype State = State(
    stack: seq<string>,
    contexts: map<string, seq<CapabilityType>>,
    renderers: map<string, Renderer>,
    timerArmed: bool,
    timerId: string,
    expectSpeech: bool,
    calls: seq<Call>)
  {
    function Elements(psId: string): seq<CapabilityType> {
      if psId in contexts then contexts[psId] else []
    }

    function RemoveRenderer(psId: string): State {
      if psId in renderers then this.(renderers := renderers - {psId}, calls := calls + [Release(psId)]) else this
    }

    ghost function ClearRenderers(): State
      decreases |renderers|
    {
      if renderers == map[] then this
      else
        var psId :| psId in renderers;
        assert |renderers - {psId}| < |renderers| by {
          assert (renderers - {psId}).Keys == renderers.Keys - {psId};
        }
        RemoveRenderer(psId).ClearRenderers()
    }

    ghost function AddRenderer(psId: string, renderer: Renderer): State {
      var cleared := ClearRenderers();
      cleared.(renderers := cleared.renderers[psId := renderer], calls := cleared.calls + [Sync(psId)])
    }

    /** The timer callback. */
    function Expire(psId: string): State {
      this.(contexts := contexts - {psId}, stack := Without(stack, psId)).RemoveRenderer(psId)
    }

    function RemovedElement(psId: string, cap: CapabilityType): State {
      this.(contexts := contexts[psId := Without(Elements(psId), cap)])
    }

    predicate Immediate(psId: string, immediately: bool) {
      immediately || (psId !in renderers && |stack| >= 2)
    }

    function RemoveContext(psId: string, cap: CapabilityType, immediately: bool): State {
      if psId == "" then this
      else
        var removed := RemovedElement(psId, cap);
        var result :=
          if removed.contexts[psId] == [] && !expectSpeech then
            var named := removed.(timerId := psId);
            if removed.Immediate(psId, immediately) then named.Expire(psId) else named.(timerArmed := true)
          else removed;
        result.(expectSpeech := false)
    }

    /** The loop of addContext: the capability moves away from every other service. */
    function RemoveFromOthers(items: seq<string>, psId: string, cap: CapabilityType): State
      decreases |items|
    {
      if items == [] then this
      else
        (if items[0] == psId then this else RemoveContext(items[0], cap, true)).RemoveFromOthers(items[1..], psId, cap)
    }

    function AddElement(psId: string, cap: CapabilityType): State {
      if psId in contexts then
        if cap in contexts[psId] then this else this.(contexts := contexts[psId := contexts[psId] + [cap]])
      else
        this.(contexts := contexts[psId := [cap]], stack := stack + [psId])
    }

    predicate Takes(psId: string, cap: CapabilityType) {
      psId !in renderers || renderers[psId].capType == cap
    }

    ghost function WithRenderer(psId: string, cap: CapabilityType, renderer: Option<Renderer>): State {
      if renderer.Some? && Takes(psId, cap) then AddRenderer(psId, renderer.value) else this
    }

    ghost function AddContext(psId: string, cap: CapabilityType, renderer: Option<Renderer>): State {
      if psId == "" then this
      else
        var rendered := WithRenderer(psId, cap, renderer);
        if renderer.Some? && renderer.value.onlyRendering then rendered
        else rendered.RemoveFromOthers(Reverse(rendered.stack), psId, cap).AddElement(psId, cap)
    }

    /** One shot: the source is gone once it has fired. */
    function TimerFires(): State {
      if timerArmed then this.(timerArmed := false).Expire(timerId) else this
    }

    function ASRError(): State {
      var calm := this.(expectSpeech := false);
      if stack == [] then calm else calm.RemoveContext(stack[|stack| - 1], TTS, true)
    }
  }

  const INITIAL := State([], map[], map[], false, "", false, [])

  /** erase(remove(...)). */
  function Without<T(==)>(list: seq<T>, x: T): seq<T> {
    if list == [] then []
    else (if list[0] == x then [] else [list[0]]) + Without(list[1..], x)
  }

  function Reverse<T>(list: seq<T>): (r: seq<T>)
    ensures |r| == |list|
    ensures forall i :: 0 <= i < |list| ==> r[i] == list[|list| - 1 - i]
  {
    seq(|list|, i requires 0 <= i < |list| => list[|list| - 1 - i])
  }

  class PlaySyncManager {
    var stack: seq<string>
    var contexts: map<string, seq<CapabilityType>>
    var renderers: map<string, Renderer>
    var timerArmed: bool
    var timerId: string
    var expectSpeech: bool
    var calls: seq<Call>

    ghost function View(): State
      reads this
    {
      State(stack, contexts, renderers, timerArmed, timerId, expectSpeech, calls)
    }

    constructor ()
      ensures View() == INITIAL
    {
      stack, contexts, renderers := [], map[], map[];
      timerArmed, timerId, expectSpeech, calls := false, "", false, [];
    }

    method RemoveStackElement(psId: string, cap: CapabilityType) returns (empty: bool)
      modifies this`contexts
      ensures View() == old(View()).RemovedElement(psId, cap)
      ensures empty == (contexts[psId] == [])
    {
      var elements := if psId in contexts then contexts[psId] else [];
      contexts := contexts[psId := Without(elements, cap)];
      empty := |contexts[psId]| == 0;
    }

    method RemoveRenderer(psId: string)
      modifies this`renderers, this`calls
      ensures View() == old(View()).RemoveRenderer(psId)
    {
      if psId in renderers {
        calls := calls + [Release(psId)];
        renderers := renderers - {psId};
      }
    }

    method TimerCallback(psId: string)
      modifies this`contexts, this`stack, this`renderers, this`calls
      ensures View() == old(View()).Expire(psId)
    {
      contexts := contexts - {psId};
      stack := Without(stack, psId);
      RemoveRenderer(psId);
    }

    method RemoveContext(psId: string, cap: CapabilityType, immediately: bool)
      modifies this
      ensures View() == old(View()).RemoveContext(psId, cap, immediately)
    {
      if psId == "" {
        return;
      }
      var empty := RemoveStackElement(psId, cap);
      if empty && !expectSpeech {
        timerId := psId;
        if immediately || (psId !in renderers && |stack| >= 2) {
          TimerCallback(timerId);
        } else {
          timerArmed := true;
        }
      }
      expectSpeech := false;
    }

    /** Removing a renderer for every key; with at most one renderer the order of the keys is no matter. */
    method AddRenderer(psId: string, renderer: Renderer)
      requires |renderers| <= 1
      modifies this`renderers, this`calls
      ensures View() == old(View()).AddRenderer(psId, renderer)
    {
      OneKeyCleared(View());
      var keys := renderers.Keys;
      while keys != {}
        invariant keys == renderers.Keys && |renderers| <= 1
        invariant View().ClearRenderers() == old(View()).ClearRenderers()
        invariant unchanged(this`stack) && unchanged(this`contexts) && unchanged(this`timerArmed)
        invariant unchanged(this`timerId) && unchanged(this`expectSpeech)
      {
        var key :| key in keys;
        OneKeyCleared(View());
        keys := keys - {key};
        RemoveRenderer(key);
      }
      renderers := renderers[psId := renderer];
      calls := calls + [Sync(psId)];
    }

    method AddContext(psId: string, cap: CapabilityType, renderer: Option<Renderer>)
      requires |renderers| <= 1
      modifies this
      ensures View() == old(View()).AddContext(psId, cap, renderer)
    {
      if psId == "" {
        return;
      }
      if renderer.Some? {
        if psId !in renderers || renderers[psId].capType == cap {
          AddRenderer(psId, renderer.value);
        }
        if renderer.value.onlyRendering {
          return;
        }
      }
      RemoveFromOthers(Reverse(stack), psId, cap);
      AddElement(psId, cap);
    }

    /** The loop over the other services of the stack. */
    method RemoveFromOthers(items: seq<string>, psId: string, cap: CapabilityType)
      modifies this
      ensures View() == old(View()).RemoveFromOthers(items, psId, cap)
    {
      for i := 0 to |items|
        invariant View().RemoveFromOthers(items[i..], psId, cap) == old(View()).RemoveFromOthers(items, psId, cap)
      {
        assert items[i..][1..] == items[i + 1..];
        if psId != items[i] {
          RemoveContext(items[i], cap, true);
        }
      }
    }

    method AddElement(psId: string, cap: CapabilityType)
      modifies this`contexts, this`stack
      ensures View() == old(View()).AddElement(psId, cap)
    {
      if psId in contexts {
        AddStackElement(psId, cap);
      } else {
        contexts := contexts[psId := [cap]];
        stack := stack + [psId];
      }
    }

    method AddStackElement(psId: string, cap: CapabilityType)
      requires psId in contexts
      modifies this`contexts
      ensures View() == old(View()).AddElement(psId, cap)
    {
      if cap !in contexts[psId] {
        contexts := contexts[psId := contexts[psId] + [cap]];
      }
    }

    /** The services are looked through in an order the caller does not choose. */
    method GetPlayStackItem(cap: CapabilityType) returns (psId: string)
      ensures (psId in contexts && cap in contexts[psId])
           || (psId == "" && forall k :: k in contexts ==> cap !in contexts[k])
    {
      var keys := contexts.Keys;
      while keys != {}
        invariant keys <= contexts.Keys
        invariant forall k :: k in contexts && k !in keys ==> cap !in contexts[k]
      {
        var k :| k in keys;
        if cap in contexts[k] {
          return k;
        }
        keys := keys - {k};
      }
      return "";
    }

    method OnTimer()
      modifies this
      ensures View() == old(View()).TimerFires()
    {
      if timerArmed {
        timerArmed := false;
        TimerCallback(timerId);
      }
    }

    method SetExpectSpeech(on: bool)
      modifies this`expectSpeech
      ensures expectSpeech == on
    {
      expectSpeech := on;
    }

    method OnMicOn()
      modifies this`timerArmed
      ensures !timerArmed
    {
      timerArmed := false;
    }

    method OnASRError()
      modifies this
      ensures View() == old(View()).ASRError()
    {
      expectSpeech := false;
      if |stack| != 0 {
        RemoveContext(stack[|stack| - 1], TTS, true);
      }
    }
  }

  lemma OneKeyCleared(s: State)
    requires |s.renderers| <= 1
    ensures s.renderers == map[] ==> s.ClearRenderers() == s
    ensures forall k :: k in s.renderers ==> s.renderers.Keys == {k} && s.ClearRenderers() == s.RemoveRenderer(k)
    ensures s.ClearRenderers().renderers == map[]
  {
    if k :| k in s.renderers {
      assert s.renderers.Keys == {k} by {
        assert |s.renderers.Keys - {k}| == 0;
      }
      assert (s.renderers - {k}).Keys == {};
      assert s.RemoveRenderer(k).renderers == map[];
    }
  }
}

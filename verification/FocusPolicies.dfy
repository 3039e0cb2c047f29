/**
 The arbiter with the callbacks of the shipped agents: ASR and expect speech of service/capability/asr_agent.cc,
 TTS of tts_agent.cc, the audio player of audio_player_agent.cc and the wakeup word of service/wakeup_handler.cc.
 */
module FocusPolicies {
  import opened Focus
  import opened FocusOwnership
  import opened FocusGrants

  const ASR_FOCUS := Focus(0, ASR)
  const EXPECT_FOCUS := Focus(1, ASR_EXPECT)
  const TTS_FOCUS := Focus(2, TTS)
  const AUDIO_FOCUS := Focus(3, MEDIA)
  const WAKEWORD_FOCUS := Focus(4, WAKEWORD)

  predicate UsesSpeaker(f: Focus) {
    f == ASR_FOCUS || f == EXPECT_FOCUS || f == TTS_FOCUS || f == AUDIO_FOCUS
  }

  predicate UsesMic(f: Focus) {
    f == ASR_FOCUS || f == WAKEWORD_FOCUS
  }

  /** onStealRequest on the speaker: TTS gives way to ASR alone, everybody else to everybody. */
  function SpeakerSteal(holder: Focus, target: Focus): StealResult {
    if holder == TTS_FOCUS && target.kind != ASR then REJECT else ALLOW
  }

  /** onStealRequest on the microphone: ASR gives way to nobody, the wakeup word to everybody but itself. */
  function MicSteal(holder: Focus, target: Focus): StealResult {
    if holder == ASR_FOCUS || target.kind == WAKEWORD then REJECT else ALLOW
  }

  /** onUnfocus: only the audio player ever asks to be paused. */
  predicate MayUnfocus(f: Focus, result: Result) {
    result == REMOVE || (f == AUDIO_FOCUS && result == PAUSE)
  }

  /** onFocus: only the audio player ever fails. */
  predicate MayFocus(f: Focus, result: Result) {
    result == OK || (f == AUDIO_FOCUS && result == FAIL)
  }

  predicate Shipped(r: Resource, op: Op, users: Focus -> bool, steal: (Focus, Focus) -> StealResult) {
    users(op.focus) &&
    match op
    case Request(f, _, a) =>
      && MayFocus(f, a.focus)
      && (r.stack != [] ==> a.steal == steal(r.stack[0].focus, f) && MayUnfocus(r.stack[0].focus, a.unfocus))
    case Release(f, a) =>
      r.stack != [] && r.stack[0].focus == f ==>
        && MayUnfocus(f, a.unfocus)
        && (var rest := Dropped(r.stack, a.unfocus); rest != [] ==> MayFocus(rest[0].focus, a.focus))
    case Free(_) => true
  }

  predicate ShippedRun(r: Resource, ops: seq<Op>, users: Focus -> bool, steal: (Focus, Focus) -> StealResult)
    decreases |ops|
  {
    ops != [] ==> Shipped(r, ops[0], users, steal) && ShippedRun(Step(r, ops[0]), ops[1..], users, steal)
  }

  predicate Waits(f: Focus) {
    f == EXPECT_FOCUS || f == AUDIO_FOCUS
  }

  /** Only expect speech and the audio player ever wait behind the holder. */
  ghost predicate SpeakerState(r: Resource) {
    && Owned(r)
    && (forall i :: 0 <= i < |r.stack| ==> UsesSpeaker(r.stack[i].focus))
    && (forall i :: 1 <= i < |r.stack| ==> Waits(r.stack[i].focus))
  }

  lemma InsertMembers(list: seq<Item>, item: Item)
    ensures forall x :: x in InsertSorted(list, item) <==> x in list || x == item
  {
    var at := InsertShape(list, item);
    assert list == list[..at] + list[at..];
  }

  ghost predicate AllWait(list: seq<Item>) {
    forall x :: x in list ==> Waits(x.focus)
  }

  lemma WaitingList(list: seq<Item>, focus: Focus, item: Item)
    requires AllWait(list)
    ensures AllWait(RemoveAll(list, focus))
    ensures Waits(item.focus) ==> AllWait(InsertSorted(list, item))
  {
    RemoveMembers(list, focus);
    InsertMembers(list, item);
  }

  /** TTS, rejecting itself, comes out in front again, because whoever waits has a lower priority. */
  lemma TtsStaysInFront(list: seq<Item>, item: Item)
    requires AllWait(list) && item.focus == TTS_FOCUS
    ensures InsertSorted(list, item) == [item] + list
  {
    if list != [] {
      assert list[0] in list;
    }
  }

  lemma SpeakerLists(r: Resource) returns (head: Item, tail: seq<Item>)
    requires SpeakerState(r) && r.stack != []
    ensures r.stack == [head] + tail && AllWait(tail) && UsesSpeaker(head.focus)
    ensures !Among(head.focus, tail)
  {
    head, tail := r.stack[0], r.stack[1..];
    NotInTail(head, tail);
  }

  lemma SpeakerShape(r: Resource, head: Item, tail: seq<Item>)
    requires Owned(r) && r.stack == [head] + tail && AllWait(tail) && UsesSpeaker(head.focus)
    ensures SpeakerState(r)
  {
    forall i | 1 <= i < |r.stack|
      ensures Waits(r.stack[i].focus)
    {
      assert r.stack[i] == tail[i - 1] && tail[i - 1] in tail;
    }
  }

  lemma WaitingStack(r: Resource)
    requires Owned(r) && AllWait(r.stack)
    ensures SpeakerState(r)
  {
    forall i | 0 <= i < |r.stack|
      ensures Waits(r.stack[i].focus)
    {
      assert r.stack[i] in r.stack;
    }
  }

  lemma DroppedWaits(head: Item, tail: seq<Item>, unfocus: Result)
    requires AllWait(tail) && MayUnfocus(head.focus, unfocus)
    ensures AllWait(Dropped([head] + tail, unfocus))
  {
    assert ([head] + tail)[1..] == tail;
    WaitingList(tail, head.focus, head);
  }

  lemma SpeakerAllow(r: Resource, f: Focus, event: int, a: Answers)
    requires SpeakerState(r) && r.stack != [] && Shipped(r, Request(f, event, a), UsesSpeaker, SpeakerSteal)
    requires a.steal == ALLOW
    ensures SpeakerState(Requested(r, f, event, a))
  {
    RequestStep(r, f, event, a);
    var head, tail := SpeakerLists(r);
    DroppedWaits(head, tail, a.unfocus);
    var kept := Dropped(r.stack, a.unfocus);
    WaitingList(kept, f, head);
    var next := Requested(r, f, event, a);
    if a.focus == OK {
      SpeakerShape(next, Item(f, event), RemoveAll(kept, f));
    } else {
      WaitingStack(next);
    }
  }

  lemma SpeakerReject(r: Resource, f: Focus, event: int, a: Answers)
    requires SpeakerState(r) && r.stack != [] && Shipped(r, Request(f, event, a), UsesSpeaker, SpeakerSteal)
    requires a.steal == REJECT
    ensures SafeReject(r, f)
    ensures SpeakerState(Requested(r, f, event, a))
  {
    var head, tail := SpeakerLists(r);
    var item := Item(f, event);
    assert head.focus == TTS_FOCUS;
    assert r.stack[1..] == tail;
    if f == TTS_FOCUS {
      TtsStaysInFront(tail, item);
      RequestStep(r, f, event, a);
      SelfLists(head, tail, item);
      SpeakerShape(Requested(r, f, event, a), item, tail);
    } else {
      RequestStep(r, f, event, a);
      WaitingList(tail, f, item);
      var rest := RemoveAll(tail, f);
      WaitingList(rest, f, item);
      InsertIntoStack(head, rest, item);
      SpeakerShape(Requested(r, f, event, a), head, InsertSorted(rest, item));
    }
  }

  lemma SpeakerRelease(r: Resource, f: Focus, a: Answers)
    requires SpeakerState(r) && Shipped(r, Release(f, a), UsesSpeaker, SpeakerSteal)
    ensures SpeakerState(Released(r, f, a))
  {
    ReleaseStep(r, f, a);
    if r.stack != [] {
      var head, tail := SpeakerLists(r);
      if head.focus == f {
        DroppedWaits(head, tail, a.unfocus);
        WaitingStack(Released(r, f, a));
      } else {
        WaitingList(tail, f, head);
        assert ([head] + tail)[1..] == tail;
        SpeakerShape(Released(r, f, a), head, RemoveAll(tail, f));
      }
    }
  }

  lemma SpeakerFree(r: Resource, f: Focus)
    requires SpeakerState(r)
    ensures SpeakerState(FreedFrom(r, f))
  {
    FreeStep(r, f);
    if r.stack != [] {
      var head, tail := SpeakerLists(r);
      WaitingList(tail, f, head);
      assert ([head] + tail)[1..] == tail;
      if head.focus == f {
        WaitingStack(FreedFrom(r, f));
      } else {
        SpeakerShape(FreedFrom(r, f), head, RemoveAll(tail, f));
      }
    }
  }

  lemma SpeakerFirst(r: Resource, f: Focus, event: int, a: Answers)
    requires SpeakerState(r) && r.stack == [] && UsesSpeaker(f)
    ensures SpeakerState(Requested(r, f, event, a))
  {
    RequestStep(r, f, event, a);
  }

  lemma SpeakerStep(r: Resource, op: Op)
    requires SpeakerState(r) && Shipped(r, op, UsesSpeaker, SpeakerSteal)
    ensures SafeOp(r, op) && SpeakerState(Step(r, op))
  {
    match op
    case Request(f, event, a) =>
      if r.stack == [] {
        SpeakerFirst(r, f, event, a);
      } else if a.steal == ALLOW {
        SpeakerAllow(r, f, event, a);
      } else {
        SpeakerReject(r, f, event, a);
      }
    case Release(f, a) => SpeakerRelease(r, f, a);
    case Free(f) => SpeakerFree(r, f);
  }

  /** The speaker, from any state it can be in: with the shipped policies it never has two owners. */
  lemma {:induction false} SpeakerKeepsPromise(r: Resource, ops: seq<Op>)
    requires SpeakerState(r) && ShippedRun(r, ops, UsesSpeaker, SpeakerSteal)
    ensures AlwaysOwned(r, ops)
    ensures SpeakerState(Run(r, ops)) && |Owners(Run(r, ops).calls)| <= 1
    decreases |ops|
  {
    if ops == [] {
      AtMostOneOwner(r);
    } else {
      SpeakerStep(r, ops[0]);
      SpeakerKeepsPromise(Step(r, ops[0]), ops[1..]);
    }
  }

  /** From the start: whatever the shipped agents do with the speaker, it has one owner at most, its head. */
  lemma SpeakerFromTheStart(ops: seq<Op>)
    requires ShippedRun(Resource([], []), ops, UsesSpeaker, SpeakerSteal)
    ensures var r := Run(Resource([], []), ops);
            && |Owners(r.calls)| <= 1
            && forall f :: f in Owners(r.calls) ==> r.stack != [] && r.stack[0].focus == f
  {
    assert Owners([]) == {};
    SpeakerKeepsPromise(Resource([], []), ops);
  }

  // The microphone.

  const GRANT := Answers(ALLOW, REMOVE, OK)
  const REFUSE := Answers(REJECT, REMOVE, OK)

  /**
   Six calls on the microphone, each answered as the shipped agents do. The wakeup word is being listened for when
   ASR steals the microphone; the wakeup word asks again and is refused; ASR is released. Only now the detection
   made before the theft is reported, which releases the wakeup word, and the wakeup word starts over.
   */
  const MIC_RUN := [Request(WAKEWORD_FOCUS, 0, GRANT)] + STOLEN
  const STOLEN := [Request(ASR_FOCUS, 0, GRANT)] + REFUSED
  const REFUSED := [Request(WAKEWORD_FOCUS, 0, REFUSE)] + ASR_DONE
  const ASR_DONE := [Release(ASR_FOCUS, GRANT)] + REPORTED
  const REPORTED := [Release(WAKEWORD_FOCUS, GRANT)] + RESTARTED
  const RESTARTED := [Request(WAKEWORD_FOCUS, 0, GRANT)] + []

  /**
   The microphone breaks the promise: ASR refuses the wakeup word, which is queued in front of it all the same,
   so that releasing ASR no longer unfocuses it, and the next grant makes a second owner.
   */
  lemma MicHasTwoOwners()
    ensures ShippedRun(Resource([], []), MIC_RUN, UsesMic, MicSteal)
    ensures Owners(Run(Resource([], []), MIC_RUN).calls) == {ASR_FOCUS, WAKEWORD_FOCUS}
    ensures !AllSafe(Resource([], []), MIC_RUN)
  {
    var r0 := Resource([], []);
    var r1 := Step(r0, Request(WAKEWORD_FOCUS, 0, GRANT));
    var r2 := Step(r1, Request(ASR_FOCUS, 0, GRANT));
    AsrSteals(r1, r2);
    WakewordRefused(r2);
    OneMore(r1, Request(ASR_FOCUS, 0, GRANT), REFUSED);
    OneMore(r0, Request(WAKEWORD_FOCUS, 0, GRANT), STOLEN);
  }

  /** So that run has a second grant, and the promise of one owner is broken on it. */
  lemma MicHasSecondGrant()
    ensures !AlwaysOneOwner(Resource([], []), MIC_RUN) && !NoSecondGrant(Resource([], []), MIC_RUN)
  {
    MicHasTwoOwners();
    var r0 := Resource([], []);
    assert Owners([]) == {};
    if AlwaysOneOwner(r0, MIC_RUN) {
      ThenNow(r0, MIC_RUN);
    }
    OneOwnerOverRuns(r0, MIC_RUN);
  }

  /** The refusal alone is not safe, yet nobody owns the microphone beside ASR: what breaks the promise is the grant. */
  lemma RefusalAloneIsHarmless()
    ensures var ops := [Request(ASR_FOCUS, 0, GRANT), Request(WAKEWORD_FOCUS, 0, REFUSE)];
            && ShippedRun(Resource([], []), ops, UsesMic, MicSteal)
            && !AllSafe(Resource([], []), ops) && AlwaysOneOwner(Resource([], []), ops)
  {
    var ops := [Request(ASR_FOCUS, 0, GRANT), Request(WAKEWORD_FOCUS, 0, REFUSE)];
    var r0 := Resource([], []);
    var r1 := Step(r0, ops[0]);
    assert r1.calls == [] + [Got(ASR_FOCUS, OK)] && r1.stack == [Item(ASR_FOCUS, 0)];
    OwnersSnoc([], Got(ASR_FOCUS, OK));
    var r2 := Step(r1, ops[1]);
    OwnersSnoc(r1.calls, Asked(ASR_FOCUS, WAKEWORD_FOCUS, REJECT));
    assert !SafeReject(r1, WAKEWORD_FOCUS);
    assert ops[1..] == [ops[1]] && ops[1..][1..] == [];
    assert AlwaysOneOwner(r2, []) && ShippedRun(r2, [], UsesMic, MicSteal);
    assert AlwaysOneOwner(r1, ops[1..]) && ShippedRun(r1, ops[1..], UsesMic, MicSteal);
  }

  /** The wakeup word is listened for, and gives way. */
  lemma AsrSteals(r1: Resource, r2: Resource)
    requires r1 == Step(Resource([], []), Request(WAKEWORD_FOCUS, 0, GRANT))
    requires r2 == Step(r1, Request(ASR_FOCUS, 0, GRANT))
    ensures Shipped(Resource([], []), Request(WAKEWORD_FOCUS, 0, GRANT), UsesMic, MicSteal)
    ensures Shipped(r1, Request(ASR_FOCUS, 0, GRANT), UsesMic, MicSteal)
    ensures r2.stack == [Item(ASR_FOCUS, 0)] && Owners(r2.calls) == {ASR_FOCUS}
  {
    assert r1.stack == [Item(WAKEWORD_FOCUS, 0)] && r1.calls == [] + [Got(WAKEWORD_FOCUS, OK)];
    OwnersSnoc([], Got(WAKEWORD_FOCUS, OK));
    assert r1.stack[1..] == [];
    OwnersSnoc(r1.calls, Asked(WAKEWORD_FOCUS, ASR_FOCUS, ALLOW));
    var asked := r1.calls + [Asked(WAKEWORD_FOCUS, ASR_FOCUS, ALLOW)];
    OwnersSnoc(asked, Lost(WAKEWORD_FOCUS, REMOVE));
    OwnersSnoc(asked + [Lost(WAKEWORD_FOCUS, REMOVE)], Got(ASR_FOCUS, OK));
  }

  /** ASR refuses it, and it is queued in front. */
  lemma WakewordRefused(r2: Resource)
    requires r2.stack == [Item(ASR_FOCUS, 0)] && Owners(r2.calls) == {ASR_FOCUS}
    ensures ShippedRun(r2, REFUSED, UsesMic, MicSteal) && !AllSafe(r2, REFUSED)
    ensures Owners(Run(r2, REFUSED).calls) == {ASR_FOCUS, WAKEWORD_FOCUS}
  {
    var r3 := Step(r2, Request(WAKEWORD_FOCUS, 0, REFUSE));
    assert RemoveAll(r2.stack, WAKEWORD_FOCUS) == r2.stack;
    assert r3.stack == [Item(WAKEWORD_FOCUS, 0), Item(ASR_FOCUS, 0)];
    OwnersSnoc(r2.calls, Asked(ASR_FOCUS, WAKEWORD_FOCUS, REJECT));
    AsrLeavesSilently(r3);
    OneMore(r2, Request(WAKEWORD_FOCUS, 0, REFUSE), ASR_DONE);
    assert !SafeReject(r2, WAKEWORD_FOCUS);
  }

  /** ASR is released from behind, without being unfocused. */
  lemma AsrLeavesSilently(r3: Resource)
    requires r3.stack == [Item(WAKEWORD_FOCUS, 0), Item(ASR_FOCUS, 0)] && Owners(r3.calls) == {ASR_FOCUS}
    ensures ShippedRun(r3, ASR_DONE, UsesMic, MicSteal)
    ensures Owners(Run(r3, ASR_DONE).calls) == {ASR_FOCUS, WAKEWORD_FOCUS}
  {
    var r4 := Step(r3, Release(ASR_FOCUS, GRANT));
    assert r3.stack[1..] == [Item(ASR_FOCUS, 0)];
    assert r4.stack == [Item(WAKEWORD_FOCUS, 0)] + RemoveAll([Item(ASR_FOCUS, 0)], ASR_FOCUS);
    assert r4.stack == [Item(WAKEWORD_FOCUS, 0)] && r4.calls == r3.calls;
    WakewordStartsOver(r4);
    OneMore(r3, Release(ASR_FOCUS, GRANT), REPORTED);
  }

  lemma WakewordStartsOver(r4: Resource)
    requires r4.stack == [Item(WAKEWORD_FOCUS, 0)] && Owners(r4.calls) == {ASR_FOCUS}
    ensures ShippedRun(r4, REPORTED, UsesMic, MicSteal)
    ensures Owners(Run(r4, REPORTED).calls) == {ASR_FOCUS, WAKEWORD_FOCUS}
  {
    var r5 := Step(r4, Release(WAKEWORD_FOCUS, GRANT));
    assert r4.stack[1..] == [] && r5.stack == [];
    var r6 := Step(r5, Request(WAKEWORD_FOCUS, 0, GRANT));
    OwnersSnoc(r4.calls, Lost(WAKEWORD_FOCUS, REMOVE));
    OwnersSnoc(r5.calls, Got(WAKEWORD_FOCUS, OK));
    OneMore(r5, Request(WAKEWORD_FOCUS, 0, GRANT), []);
    OneMore(r4, Release(WAKEWORD_FOCUS, GRANT), RESTARTED);
  }

  lemma OneMore(r: Resource, op: Op, rest: seq<Op>)
    requires Shipped(r, op, UsesMic, MicSteal) && ShippedRun(Step(r, op), rest, UsesMic, MicSteal)
    ensures ShippedRun(r, [op] + rest, UsesMic, MicSteal)
    ensures Run(r, [op] + rest) == Run(Step(r, op), rest)
    ensures AllSafe(r, [op] + rest) <==> SafeOp(r, op) && AllSafe(Step(r, op), rest)
  {
    assert ([op] + rest)[1..] == rest;
  }
}

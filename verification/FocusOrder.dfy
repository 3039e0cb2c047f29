/**
 In which order waiting foci get the resource, by the kinds as the header lists them, and which callbacks a call
 makes, in which order.
 */
module FocusOrder {
  import opened Bytes
  import opened Focus
  import opened FocusOwnership
  import opened FocusPolicies

  /** The kinds in the order of the enumeration. */
  const KINDS := [WAKEWORD, ASR, ALERT, TTS, ASR_EXPECT, MEDIA, CUSTOM]

  ghost predicate ComesBefore(k: FocusType, l: FocusType) {
    exists i, j :: 0 <= i < j < |KINDS| && KINDS[i] == k && KINDS[j] == l
  }

  /** The place of a kind in that list. */
  lemma Place(k: FocusType) returns (i: nat)
    ensures i < |KINDS| && KINDS[i] == k && Rank(k) == i
  {
    match k
    case WAKEWORD => i := 0;
    case ASR => i := 1;
    case ALERT => i := 2;
    case TTS => i := 3;
    case ASR_EXPECT => i := 4;
    case MEDIA => i := 5;
    case CUSTOM => i := 6;
  }

  lemma RankIsPlace(k: FocusType, l: FocusType)
    ensures ComesBefore(k, l) <==> Rank(k) < Rank(l)
  {
    var i := Place(k);
    var j := Place(l);
    if m, n :| 0 <= m < n < |KINDS| && KINDS[m] == k && KINDS[n] == l {
      assert m == i && n == j;
    }
  }

  /** No item stands behind one whose kind it comes before. */
  ghost predicate InOrder(list: seq<Item>) {
    forall i, j :: 0 <= i < j < |list| ==> !ComesBefore(list[j].focus.kind, list[i].focus.kind)
  }

  lemma SortedIsInOrder(list: seq<Item>)
    ensures Sorted(list) <==> InOrder(list)
  {
    forall i, j | 0 <= i < j < |list|
      ensures list[i].focus.Priority() <= list[j].focus.Priority() <==>
              !ComesBefore(list[j].focus.kind, list[i].focus.kind)
    {
      RankIsPlace(list[j].focus.kind, list[i].focus.kind);
    }
  }

  lemma RunOwned(ops: seq<Op>)
    requires AllSafe(Resource([], []), ops)
    ensures Owned(Run(Resource([], []), ops))
  {
    EmptyIsOwned();
    OwnershipOverRuns(Resource([], []), ops);
    AlwaysThenNow(Resource([], []), ops);
  }

  /** After any run of safe rejections the foci behind the holder wait in the order of their kinds. */
  lemma WaitingInOrder(ops: seq<Op>)
    requires AllSafe(Resource([], []), ops)
    ensures var r := Run(Resource([], []), ops);
            r.stack != [] ==> InOrder(r.stack[1..])
  {
    RunOwned(ops);
    var r := Run(Resource([], []), ops);
    if r.stack != [] {
      SortedIsInOrder(r.stack[1..]);
    }
  }

  /** A waiting focus than which none of the waiting ones is of an earlier kind. */
  ghost predicate NextInLine(list: seq<Item>, g: Focus) {
    Among(g, list) && forall i :: 0 <= i < |list| ==> !ComesBefore(list[i].focus.kind, g.kind)
  }

  /**
   When the holder releases, it is unfocused, and then the resource is offered to a waiting focus of the earliest kind,
   if any waits; only a holder that asks to be paused may stay in front of all of them, and then nothing is offered.
   */
  lemma ReleaseOffersNext(ops: seq<Op>, a: Answers)
    requires AllSafe(Resource([], []), ops) && Run(Resource([], []), ops).stack != []
    ensures var r := Run(Resource([], []), ops);
            var f, waiting := r.stack[0].focus, r.stack[1..];
            var t := Released(r, f, a);
            || (t.calls == r.calls + [Lost(f, a.unfocus)] && (waiting == [] || a.unfocus == PAUSE))
            || (t.stack != [] && NextInLine(waiting, t.stack[0].focus)
                && t.calls == r.calls + [Lost(f, a.unfocus)] + [Got(t.stack[0].focus, a.focus)])
  {
    RunOwned(ops);
    OfferedNext(Run(Resource([], []), ops), a);
  }

  lemma OfferedNext(r: Resource, a: Answers)
    requires Owned(r) && r.stack != []
    ensures var f, waiting := r.stack[0].focus, r.stack[1..];
            var t := Released(r, f, a);
            || (t.calls == r.calls + [Lost(f, a.unfocus)] && (waiting == [] || a.unfocus == PAUSE))
            || (t.stack != [] && NextInLine(waiting, t.stack[0].focus)
                && t.calls == r.calls + [Lost(f, a.unfocus)] + [Got(t.stack[0].focus, a.focus)])
  {
    var head, waiting := r.stack[0], r.stack[1..];
    var rest := Dropped(r.stack, a.unfocus);
    assert r.stack == [head] + waiting;
    NotInTail(head, waiting);
    SortedIsInOrder(waiting);
    if waiting != [] {
      FirstIsNext(waiting);
    }
    if a.unfocus == PAUSE {
      var at := InsertShape(waiting, head);
      if at > 0 {
        assert rest[0] == waiting[0];
      }
    }
  }

  lemma FirstIsNext(list: seq<Item>)
    requires list != [] && InOrder(list)
    ensures NextInLine(list, list[0].focus)
  {
    RankIsPlace(list[0].focus.kind, list[0].focus.kind);
  }

  /**
   With the shipped policies: when expect speech and the audio player both wait for the speaker, whoever releases it,
   expect speech is granted it, the audio player is not.
   */
  lemma ExpectBeforeMusic(ops: seq<Op>, a: Answers)
    requires ShippedRun(Resource([], []), ops, UsesSpeaker, SpeakerSteal)
    requires var r := Run(Resource([], []), ops);
             && r.stack != [] && Shipped(r, Release(r.stack[0].focus, a), UsesSpeaker, SpeakerSteal)
             && Among(EXPECT_FOCUS, r.stack[1..]) && Among(AUDIO_FOCUS, r.stack[1..])
    ensures var r := Run(Resource([], []), ops);
            Released(r, r.stack[0].focus, a).calls ==
            r.calls + [Lost(r.stack[0].focus, REMOVE)] + [Got(EXPECT_FOCUS, OK)]
  {
    EmptyIsOwned();
    SpeakerKeepsPromise(Resource([], []), ops);
    ExpectNext(Run(Resource([], []), ops), a);
  }

  lemma ExpectNext(r: Resource, a: Answers)
    requires SpeakerState(r) && r.stack != [] && a.unfocus == REMOVE && a.focus == OK
    requires Among(EXPECT_FOCUS, r.stack[1..]) && Among(AUDIO_FOCUS, r.stack[1..])
    ensures Released(r, r.stack[0].focus, a).calls ==
            r.calls + [Lost(r.stack[0].focus, REMOVE)] + [Got(EXPECT_FOCUS, OK)]
  {
    var head, waiting := SpeakerLists(r);
    assert r.stack[1..] == waiting;
    OfferedNext(r, a);
    RankIsPlace(EXPECT_FOCUS.kind, AUDIO_FOCUS.kind);
    assert !NextInLine(waiting, AUDIO_FOCUS);
    var next := Released(r, head.focus, a).stack;
    assert next == waiting && next[0] in waiting && Waits(next[0].focus);
  }

  // Which callbacks are made.

  /**
   A request asks the holder first; it is unfocused only if it agrees, and only then the requester is focused. Whoever
   takes the resource stands in front with its event; whoever is refused is queued with it; and whoever declines is not
   in the list.
   */
  lemma RequestOutcome(r: Resource, f: Focus, event: int, a: Answers)
    ensures var t := Requested(r, f, event, a);
            var asked := if r.stack == [] then [] else [Asked(r.stack[0].focus, f, a.steal)];
            if r.stack != [] && a.steal == REJECT then
              && t.calls == r.calls + asked
              && Item(f, event) in t.stack && (forall x :: x in t.stack && x.focus == f ==> x == Item(f, event))
            else
              && t.calls == r.calls + asked +
                            (if r.stack == [] then [] else [Lost(r.stack[0].focus, a.unfocus)]) + [Got(f, a.focus)]
              && (a.focus == OK ==> t.stack != [] && t.stack[0] == Item(f, event))
              && (a.focus != OK ==> !Among(f, t.stack))
  {
    var t := Requested(r, f, event, a);
    if r.stack == [] {
      assert r.calls + [] + [] == r.calls;
    } else if a.steal == REJECT {
      RemoveMembers(r.stack, f);
      InsertMembers(RemoveAll(r.stack, f), Item(f, event));
    } else {
      RemovedIsGone(Dropped(r.stack, a.unfocus), f);
    }
  }

  /** On the speaker TTS gives way to ASR and to nobody else, and everybody else gives way to whoever asks. */
  lemma WhoGivesWay(ops: seq<Op>, f: Focus, event: int, a: Answers)
    requires ShippedRun(Resource([], []), ops, UsesSpeaker, SpeakerSteal)
    requires var r := Run(Resource([], []), ops);
             r.stack != [] && Shipped(r, Request(f, event, a), UsesSpeaker, SpeakerSteal)
    ensures var r := Run(Resource([], []), ops);
            var head := r.stack[0].focus;
            var t := Requested(r, f, event, a);
            if head == TTS_FOCUS && f != ASR_FOCUS then
              t.calls == r.calls + [Asked(TTS_FOCUS, f, REJECT)] && t.stack != [] && t.stack[0].focus == TTS_FOCUS
            else
              t.calls == r.calls + [Asked(head, f, ALLOW)] + [Lost(head, a.unfocus)] + [Got(f, a.focus)]
  {
    EmptyIsOwned();
    SpeakerKeepsPromise(Resource([], []), ops);
    var r := Run(Resource([], []), ops);
    RequestOutcome(r, f, event, a);
    if r.stack[0].focus == TTS_FOCUS && f != ASR_FOCUS {
      TtsStays(r, f, event, a);
    }
  }

  lemma TtsStays(r: Resource, f: Focus, event: int, a: Answers)
    requires SpeakerState(r) && r.stack != [] && r.stack[0].focus == TTS_FOCUS && f != ASR_FOCUS
    requires Shipped(r, Request(f, event, a), UsesSpeaker, SpeakerSteal)
    ensures var t := Requested(r, f, event, a);
            t.stack != [] && t.stack[0].focus == TTS_FOCUS
  {
    var head, tail := SpeakerLists(r);
    var item := Item(f, event);
    assert ([head] + tail)[1..] == tail;
    if f == TTS_FOCUS {
      RemoveAllNothing(tail, f);
      TtsStaysInFront(tail, item);
    } else {
      InsertIntoStack(head, RemoveAll(tail, f), item);
    }
  }

  /** On the microphone ASR gives way to nobody, and the wakeup word to everybody but itself. */
  lemma WhoGivesWayOnMic(r: Resource, f: Focus, event: int, a: Answers)
    requires r.stack != [] && Shipped(r, Request(f, event, a), UsesMic, MicSteal)
    requires UsesMic(r.stack[0].focus)
    ensures var head := r.stack[0].focus;
            var t := Requested(r, f, event, a);
            if head == ASR_FOCUS || f == WAKEWORD_FOCUS then t.calls == r.calls + [Asked(head, f, REJECT)]
            else t.calls == r.calls + [Asked(head, f, ALLOW)] + [Lost(head, REMOVE)] + [Got(f, OK)]
  {
    RequestOutcome(r, f, event, a);
  }

  /** The audio player plays, and is asked to make room for TTS. */
  const MUSIC := Resource([Item(AUDIO_FOCUS, 0)], [Got(AUDIO_FOCUS, OK)])

  /**
   Music that asks to be paused waits behind TTS, and is offered the speaker when that is done; it may take it or, the
   player having failed, not. If it does not ask to be paused it is gone.
   */
  lemma MusicResumes(resumes: Result)
    requires resumes == OK || resumes == FAIL
    ensures Requested(Resource([], []), AUDIO_FOCUS, 0, Answers(ALLOW, REMOVE, OK)) == MUSIC
    ensures var pause := Request(TTS_FOCUS, 0, Answers(ALLOW, PAUSE, OK));
            var speaking := Step(MUSIC, pause);
            var done := Release(TTS_FOCUS, Answers(ALLOW, REMOVE, resumes));
            && Shipped(MUSIC, pause, UsesSpeaker, SpeakerSteal)
            && speaking.stack == [Item(TTS_FOCUS, 0), Item(AUDIO_FOCUS, 0)]
            && Shipped(speaking, done, UsesSpeaker, SpeakerSteal)
            && Step(speaking, done).stack == [Item(AUDIO_FOCUS, 0)]
            && Step(speaking, done).calls == speaking.calls + [Lost(TTS_FOCUS, REMOVE)] + [Got(AUDIO_FOCUS, resumes)]
    ensures Step(MUSIC, Request(TTS_FOCUS, 0, Answers(ALLOW, REMOVE, OK))).stack == [Item(TTS_FOCUS, 0)]
  {
    var music := Item(AUDIO_FOCUS, 0);
    assert MUSIC.stack[1..] == [];
    assert [] + [Got(AUDIO_FOCUS, OK)] == MUSIC.calls;
    assert InsertSorted([], music) == [music];
    assert RemoveAll([music], TTS_FOCUS) == [music];
    var speaking := Step(MUSIC, Request(TTS_FOCUS, 0, Answers(ALLOW, PAUSE, OK)));
    assert speaking.stack == [Item(TTS_FOCUS, 0)] + [music];
    assert speaking.stack[1..] == [music];
  }
}

/**
 What the focus arbiter guarantees for callbacks that answer anything: who owns a resource, exactly when it is
 at most one focus, and that no waiting item is lost or reordered.
 */
module FocusOwnership {
  import opened Bytes
  import opened Focus

  ghost predicate Sorted(list: seq<Item>) {
    forall i, j :: 0 <= i < j < |list| ==> list[i].focus.Priority() <= list[j].focus.Priority()
  }

  ghost predicate Distinct(list: seq<Item>) {
    forall i, j :: 0 <= i < j < |list| ==> list[i].focus != list[j].focus
  }

  ghost predicate Among(focus: Focus, list: seq<Item>) {
    exists i :: 0 <= i < |list| && list[i].focus == focus
  }

  /** The owner, if there is one, is the head; everything behind the head is sorted; no focus occurs twice. */
  ghost predicate Owned(r: Resource) {
    && (forall f :: f in Owners(r.calls) ==> r.stack != [] && r.stack[0].focus == f)
    && Distinct(r.stack)
    && (r.stack != [] ==> Sorted(r.stack[1..]))
  }

  lemma AtMostOneOwner(r: Resource)
    requires Owned(r)
    ensures |Owners(r.calls)| <= 1
  {
    var owners := Owners(r.calls);
    if owners != {} {
      var f :| f in owners;
      assert owners == {f};
    }
  }

  // Lists.

  lemma {:induction false} InsertShape(list: seq<Item>, item: Item) returns (at: nat)
    ensures at <= |list| && InsertSorted(list, item) == list[..at] + [item] + list[at..]
    ensures forall i :: 0 <= i < at ==> list[i].focus.Priority() < item.focus.Priority()
    ensures at < |list| ==> item.focus.Priority() <= list[at].focus.Priority()
  {
    if list == [] || item.focus.Priority() <= list[0].focus.Priority() {
      at := 0;
      assert list[..0] + [item] + list[0..] == [item] + list;
    } else {
      var n := InsertShape(list[1..], item);
      at := n + 1;
      assert list[..at] == [list[0]] + list[1..][..n] && list[at..] == list[1..][n..];
    }
  }

  lemma InsertKeepsSorted(list: seq<Item>, item: Item)
    ensures Sorted(list) ==> Sorted(InsertSorted(list, item))
  {
    var at := InsertShape(list, item);
  }

  lemma InsertKeepsDistinct(list: seq<Item>, item: Item)
    requires Distinct(list) && !Among(item.focus, list)
    ensures Distinct(InsertSorted(list, item))
  {
    var at := InsertShape(list, item);
    var all := InsertSorted(list, item);
    assert forall i :: 0 <= i < |all| && i != at ==> all[i] == list[if i < at then i else i - 1];
    assert all[at] == item;
  }

  lemma {:induction false} RemoveMembers(list: seq<Item>, focus: Focus)
    ensures forall x :: x in RemoveAll(list, focus) <==> x in list && x.focus != focus
  {
    if list != [] {
      RemoveMembers(list[1..], focus);
      assert list == [list[0]] + list[1..];
    }
  }

  lemma {:induction false} RemoveKeepsSorted(list: seq<Item>, focus: Focus)
    requires Sorted(list)
    ensures Sorted(RemoveAll(list, focus))
  {
    if list != [] {
      RemoveKeepsSorted(list[1..], focus);
      RemoveMembers(list[1..], focus);
      var rest := RemoveAll(list[1..], focus);
      forall j | 0 <= j < |rest|
        ensures list[0].focus.Priority() <= rest[j].focus.Priority()
      {
        assert rest[j] in list[1..];
      }
    }
  }

  lemma {:induction false} RemoveKeepsDistinct(list: seq<Item>, focus: Focus)
    requires Distinct(list)
    ensures Distinct(RemoveAll(list, focus))
  {
    if list != [] {
      RemoveKeepsDistinct(list[1..], focus);
      RemoveMembers(list[1..], focus);
      var rest := RemoveAll(list[1..], focus);
      forall j | 0 <= j < |rest|
        ensures list[0].focus != rest[j].focus
      {
        assert rest[j] in list[1..];
      }
    }
  }

  /** Removal keeps the order and everything else. */
  lemma RemoveShape(list: seq<Item>, focus: Focus)
    ensures Sorted(list) ==> Sorted(RemoveAll(list, focus))
    ensures Distinct(list) ==> Distinct(RemoveAll(list, focus))
    ensures forall x :: x in RemoveAll(list, focus) <==> x in list && x.focus != focus
  {
    RemoveMembers(list, focus);
    if Sorted(list) {
      RemoveKeepsSorted(list, focus);
    }
    if Distinct(list) {
      RemoveKeepsDistinct(list, focus);
    }
  }

  lemma RemovedIsGone(list: seq<Item>, focus: Focus)
    ensures !Among(focus, RemoveAll(list, focus))
  {
    RemoveShape(list, focus);
    var rest := RemoveAll(list, focus);
    forall i | 0 <= i < |rest|
      ensures rest[i].focus != focus
    {
      assert rest[i] in rest;
    }
  }

  lemma OwnersSnoc(calls: seq<Call>, call: Call)
    ensures Owners(calls + [call]) == OwnersAfter(Owners(calls), call)
  {
    assert (calls + [call])[..|calls|] == calls;
  }

  // One step.

  /** A rejection that leaves the holder where it is, or that nobody minds because nobody holds. */
  ghost predicate SafeReject(r: Resource, focus: Focus)
    requires r.stack != []
  {
    var head := r.stack[0].focus;
    if focus == head then
      var rest := r.stack[1..];
      Owners(r.calls) == {} || rest == [] || focus.Priority() <= rest[0].focus.Priority()
    else
      var rest := RemoveAll(r.stack[1..], focus);
      || focus.Priority() > head.Priority()
      || (Owners(r.calls) == {} && (rest == [] || head.Priority() <= rest[0].focus.Priority()))
  }

  /** A new head in front of a sorted list that does not mention it. */
  lemma PrependShape(item: Item, rest: seq<Item>)
    requires Sorted(rest) && Distinct(rest) && !Among(item.focus, rest)
    ensures Distinct([item] + rest) && Sorted(([item] + rest)[1..])
    ensures rest != [] ==> Sorted(rest[1..])
  {
    assert ([item] + rest)[1..] == rest;
  }

  /** Whoever held the resource before, afterwards it is the requester or nobody. */
  lemma AllowedOwners(r: Resource, focus: Focus, event: int, a: Answers)
    requires Owned(r) && r.stack != [] && a.steal == ALLOW
    ensures Owners(Requested(r, focus, event, a).calls) == if a.focus == OK then {focus} else {}
  {
    var head := r.stack[0].focus;
    var asked := r.calls + [Asked(head, focus, a.steal)];
    OwnersSnoc(r.calls, Asked(head, focus, a.steal));
    OwnersSnoc(asked, Lost(head, a.unfocus));
    OwnersSnoc(asked + [Lost(head, a.unfocus)], Got(focus, a.focus));
    assert Owners(r.calls) - {head} == {};
  }

  lemma AllowedRequest(r: Resource, focus: Focus, event: int, a: Answers)
    requires Owned(r) && r.stack != [] && a.steal == ALLOW
    ensures Owned(Requested(r, focus, event, a))
  {
    var kept := Dropped(r.stack, a.unfocus);
    DroppedShape(r.stack, a.unfocus);
    RemoveShape(kept, focus);
    RemovedIsGone(kept, focus);
    AllowedOwners(r, focus, event, a);
    PrependShape(Item(focus, event), RemoveAll(kept, focus));
  }

  lemma DroppedShape(stack: seq<Item>, unfocus: Result)
    requires stack != [] && Distinct(stack) && Sorted(stack[1..])
    ensures Sorted(Dropped(stack, unfocus)) && Distinct(Dropped(stack, unfocus))
    ensures unfocus != PAUSE ==> Dropped(stack, unfocus) == stack[1..]
  {
    assert Distinct(stack[1..]) && !Among(stack[0].focus, stack[1..]);
    InsertKeepsSorted(stack[1..], stack[0]);
    InsertKeepsDistinct(stack[1..], stack[0]);
  }

  /** Inserting behind, or in front of, a head that stays. */
  lemma InsertIntoStack(head: Item, tail: seq<Item>, item: Item)
    ensures InsertSorted([head] + tail, item) ==
            if item.focus.Priority() <= head.focus.Priority() then [item] + ([head] + tail)
            else [head] + InsertSorted(tail, item)
  {
    assert ([head] + tail)[1..] == tail;
  }

  lemma RejectedLists(head: Item, tail: seq<Item>, item: Item)
    requires Distinct([head] + tail) && Sorted(tail) && item.focus != head.focus
    ensures var rest := RemoveAll(tail, item.focus);
            var stack := InsertSorted([head] + rest, item);
            && RemoveAll([head] + tail, item.focus) == [head] + rest
            && Distinct(stack) && Sorted(rest)
            && (item.focus.Priority() > head.focus.Priority() ==> stack[0] == head && Sorted(stack[1..]))
            && (item.focus.Priority() <= head.focus.Priority() ==> stack == [item] + ([head] + rest))
  {
    var rest := RemoveAll(tail, item.focus);
    assert ([head] + tail)[1..] == tail;
    RemoveShape(tail, item.focus);
    RemoveShape([head] + tail, item.focus);
    RemovedIsGone([head] + tail, item.focus);
    InsertKeepsDistinct([head] + rest, item);
    InsertKeepsSorted(rest, item);
    InsertIntoStack(head, rest, item);
  }

  /** A requester of lower priority queues up behind the holder. */
  lemma RejectedBehind(r: Resource, focus: Focus, event: int, a: Answers)
    requires Owned(r) && r.stack != [] && a.steal == REJECT
    requires focus.Priority() > r.stack[0].focus.Priority()
    ensures Owned(Requested(r, focus, event, a))
  {
    var head, tail := r.stack[0], r.stack[1..];
    OwnersSnoc(r.calls, Asked(head.focus, focus, a.steal));
    assert r.stack == [head] + tail;
    RejectedLists(head, tail, Item(focus, event));
  }

  /** Any other requester is queued in front of it. */
  lemma RejectedInFront(r: Resource, focus: Focus, event: int, a: Answers)
    requires Owned(r) && r.stack != [] && a.steal == REJECT && focus != r.stack[0].focus
    requires focus.Priority() <= r.stack[0].focus.Priority()
    ensures Owned(Requested(r, focus, event, a)) <==> SafeReject(r, focus)
  {
    var head, tail := r.stack[0], r.stack[1..];
    var rest := RemoveAll(tail, focus);
    OwnersSnoc(r.calls, Asked(head.focus, focus, a.steal));
    assert r.stack == [head] + tail;
    RejectedLists(head, tail, Item(focus, event));
    InFront(Requested(r, focus, event, a), Item(focus, event), head, rest);
    assert Owners(r.calls) == {} || head.focus in Owners(r.calls);
  }

  /** A newcomer in front of a holder that has not been unfocused. */
  lemma InFront(r: Resource, item: Item, head: Item, rest: seq<Item>)
    requires r.stack == [item] + ([head] + rest) && Distinct(r.stack) && Sorted(rest) && item.focus != head.focus
    requires forall f :: f in Owners(r.calls) ==> f == head.focus
    ensures Owned(r) <==> Owners(r.calls) == {} && (rest == [] || head.focus.Priority() <= rest[0].focus.Priority())
  {
    assert r.stack[1..] == [head] + rest && r.stack[0] == item;
    SortedCons(head, rest);
    assert forall f :: f in Owners(r.calls) ==> f != item.focus;
  }

  lemma RejectedOther(r: Resource, focus: Focus, event: int, a: Answers)
    requires Owned(r) && r.stack != [] && a.steal == REJECT && focus != r.stack[0].focus
    ensures Owned(Requested(r, focus, event, a)) <==> SafeReject(r, focus)
  {
    if focus.Priority() > r.stack[0].focus.Priority() {
      RejectedBehind(r, focus, event, a);
    } else {
      RejectedInFront(r, focus, event, a);
    }
  }

  lemma SortedCons(head: Item, rest: seq<Item>)
    requires Sorted(rest)
    ensures Sorted([head] + rest) <==> rest == [] || head.focus.Priority() <= rest[0].focus.Priority()
  {
    var all := [head] + rest;
    if rest != [] {
      assert all[0] == head && all[1] == rest[0];
      if head.focus.Priority() <= rest[0].focus.Priority() {
        forall i, j | 0 <= i < j < |all|
          ensures all[i].focus.Priority() <= all[j].focus.Priority()
        {
          assert all[j] == rest[j - 1] && rest[0].focus.Priority() <= rest[j - 1].focus.Priority();
        }
      }
    }
  }

  lemma SelfLists(head: Item, tail: seq<Item>, item: Item)
    requires Distinct([head] + tail) && Sorted(tail) && item.focus == head.focus
    ensures var stack := InsertSorted(tail, item);
            && RemoveAll([head] + tail, item.focus) == tail
            && Distinct(stack) && Sorted(stack[1..])
            && (stack[0].focus == item.focus <==> tail == [] || item.focus.Priority() <= tail[0].focus.Priority())
  {
    assert ([head] + tail)[1..] == tail;
    NotInTail(head, tail);
    RemoveAllNothing(tail, item.focus);
    InsertKeepsDistinct(tail, item);
    InsertKeepsSorted(tail, item);
  }

  lemma NotInTail(head: Item, tail: seq<Item>)
    requires Distinct([head] + tail)
    ensures Distinct(tail) && !Among(head.focus, tail)
  {
    var all := [head] + tail;
    forall i | 0 <= i < |tail|
      ensures tail[i].focus != head.focus
    {
      assert all[0] == head && all[i + 1] == tail[i];
    }
    forall i, j | 0 <= i < j < |tail|
      ensures tail[i].focus != tail[j].focus
    {
      assert all[i + 1] == tail[i] && all[j + 1] == tail[j];
    }
  }

  lemma RejectedSelf(r: Resource, focus: Focus, event: int, a: Answers)
    requires Owned(r) && r.stack != [] && a.steal == REJECT && focus == r.stack[0].focus
    ensures Owned(Requested(r, focus, event, a)) <==> SafeReject(r, focus)
  {
    OwnersSnoc(r.calls, Asked(focus, focus, a.steal));
    assert r.stack == [r.stack[0]] + r.stack[1..];
    SelfLists(r.stack[0], r.stack[1..], Item(focus, event));
    OwnedIfHead(Requested(r, focus, event, a), focus);
    assert Owners(r.calls) == {} || focus in Owners(r.calls);
  }

  lemma OwnedIfHead(r: Resource, focus: Focus)
    requires r.stack != [] && Distinct(r.stack) && Sorted(r.stack[1..])
    requires forall f :: f in Owners(r.calls) ==> f == focus
    ensures Owned(r) <==> Owners(r.calls) == {} || r.stack[0].focus == focus
  {
    assert Owners(r.calls) == {} || focus in Owners(r.calls);
  }

  /** For any answers at all: a request keeps the ownership invariant exactly when it is not an unsafe rejection. */
  lemma RequestStep(r: Resource, focus: Focus, event: int, a: Answers)
    requires Owned(r)
    ensures Owned(Requested(r, focus, event, a)) <==> (r.stack != [] && a.steal == REJECT ==> SafeReject(r, focus))
  {
    if r.stack == [] {
      assert Owners(r.calls) == {};
      OwnersSnoc(r.calls, Got(focus, a.focus));
    } else if a.steal == ALLOW {
      AllowedRequest(r, focus, event, a);
    } else if focus == r.stack[0].focus {
      RejectedSelf(r, focus, event, a);
    } else {
      RejectedOther(r, focus, event, a);
    }
  }

  lemma SortedTail(list: seq<Item>)
    requires Sorted(list) && list != []
    ensures Sorted(list[1..])
  {
  }

  lemma RemovalStep(stack: seq<Item>, focus: Focus)
    requires Distinct(stack) && (stack != [] ==> Sorted(stack[1..]))
    ensures var rest := RemoveAll(stack, focus);
            && Distinct(rest) && (rest != [] ==> Sorted(rest[1..]))
            && (stack != [] && stack[0].focus != focus ==> rest != [] && rest[0] == stack[0])
  {
    if stack != [] {
      RemoveKeepsDistinct(stack, focus);
      RemoveKeepsSorted(stack[1..], focus);
      var tail := RemoveAll(stack[1..], focus);
      if stack[0].focus != focus {
        assert ([stack[0]] + tail)[1..] == tail;
      } else if tail != [] {
        SortedTail(tail);
      }
    }
  }

  /** A release always keeps the invariant. */
  lemma ReleaseStep(r: Resource, focus: Focus, a: Answers)
    requires Owned(r)
    ensures Owned(Released(r, focus, a))
  {
    if r.stack != [] && r.stack[0].focus != focus {
      RemovalStep(r.stack, focus);
    } else if r.stack != [] {
      HeadReleased(r, focus, a);
    }
  }

  lemma HeadReleased(r: Resource, focus: Focus, a: Answers)
    requires Owned(r) && r.stack != [] && r.stack[0].focus == focus
    ensures Owned(Released(r, focus, a))
  {
    var rest := Dropped(r.stack, a.unfocus);
    DroppedShape(r.stack, a.unfocus);
    ReleaseOwners(r, focus, a);
    if rest != [] {
      SortedTail(rest);
    }
  }

  lemma FreeStep(r: Resource, focus: Focus)
    requires Owned(r)
    ensures Owned(FreedFrom(r, focus))
  {
    RemovalStep(r.stack, focus);
    OwnersSnoc(r.calls, Freed(focus));
  }

  /**
   Who owns the resource after a request: on a free resource, or once the holder has given way, the requester if it
   takes it and otherwise nobody; after a rejection whoever did before.
   */
  lemma RequestOwners(r: Resource, focus: Focus, event: int, a: Answers)
    requires Owned(r)
    ensures Owners(Requested(r, focus, event, a).calls) ==
            if r.stack != [] && a.steal == REJECT then Owners(r.calls)
            else if a.focus == OK then {focus} else {}
  {
    if r.stack == [] {
      assert Owners(r.calls) == {};
      OwnersSnoc(r.calls, Got(focus, a.focus));
    } else if a.steal == ALLOW {
      AllowedOwners(r, focus, event, a);
    } else {
      OwnersSnoc(r.calls, Asked(r.stack[0].focus, focus, a.steal));
    }
  }

  /** Who owns it after a release: the next in line if it takes it, unless that is the releaser itself. */
  lemma ReleaseOwners(r: Resource, focus: Focus, a: Answers)
    requires Owned(r)
    ensures var next := Released(r, focus, a).stack;
            Owners(Released(r, focus, a).calls) ==
            if r.stack == [] || r.stack[0].focus != focus then Owners(r.calls)
            else if next != [] && next[0].focus != focus && a.focus == OK then {next[0].focus}
            else {}
  {
    if r.stack != [] && r.stack[0].focus == focus {
      var rest := Dropped(r.stack, a.unfocus);
      var lost := r.calls + [Lost(focus, a.unfocus)];
      OwnersSnoc(r.calls, Lost(focus, a.unfocus));
      assert Owners(lost) == {};
      if rest != [] {
        OwnersSnoc(lost, Got(rest[0].focus, a.focus));
      }
    }
  }

  // Runs.

  datatype Op =
    | Request(focus: Focus, event: int, a: Answers)
    | Release(focus: Focus, a: Answers)
    | Free(focus: Focus)

  function Step(r: Resource, op: Op): Resource {
    match op
    case Request(f, event, a) => Requested(r, f, event, a)
    case Release(f, a) => Released(r, f, a)
    case Free(f) => FreedFrom(r, f)
  }

  function Run(r: Resource, ops: seq<Op>): Resource
    decreases |ops|
  {
    if ops == [] then r else Run(Step(r, ops[0]), ops[1..])
  }

  ghost predicate SafeOp(r: Resource, op: Op) {
    op.Request? && r.stack != [] && op.a.steal == REJECT ==> SafeReject(r, op.focus)
  }

  ghost predicate AllSafe(r: Resource, ops: seq<Op>)
    decreases |ops|
  {
    ops != [] ==> SafeOp(r, ops[0]) && AllSafe(Step(r, ops[0]), ops[1..])
  }

  ghost predicate AlwaysOwned(r: Resource, ops: seq<Op>)
    decreases |ops|
  {
    Owned(r) && (ops != [] ==> AlwaysOwned(Step(r, ops[0]), ops[1..]))
  }

  lemma OpStep(r: Resource, op: Op)
    requires Owned(r)
    ensures Owned(Step(r, op)) <==> SafeOp(r, op)
  {
    match op
    case Request(f, event, a) => RequestStep(r, f, event, a);
    case Release(f, a) => ReleaseStep(r, f, a);
    case Free(f) => FreeStep(r, f);
  }

  /** Over every run, whatever the callbacks answer, ownership holds throughout exactly when every rejection is safe. */
  lemma {:induction false} OwnershipOverRuns(r: Resource, ops: seq<Op>)
    requires Owned(r)
    ensures AlwaysOwned(r, ops) <==> AllSafe(r, ops)
    decreases |ops|
  {
    if ops != [] {
      OpStep(r, ops[0]);
      if SafeOp(r, ops[0]) {
        OwnershipOverRuns(Step(r, ops[0]), ops[1..]);
      }
    }
  }

  /** The holders reject only requesters of strictly lower priority. */
  ghost predicate RejectsOnlyLower(r: Resource, ops: seq<Op>)
    decreases |ops|
  {
    ops != [] ==>
      && (ops[0].Request? && r.stack != [] && ops[0].a.steal == REJECT ==>
            ops[0].focus.Priority() > r.stack[0].focus.Priority())
      && RejectsOnlyLower(Step(r, ops[0]), ops[1..])
  }

  /** The promise of the header file, from any owned state and so from an empty resource, under that policy. */
  lemma {:induction false} SingleOwner(r: Resource, ops: seq<Op>)
    requires Owned(r) && RejectsOnlyLower(r, ops)
    ensures Owned(Run(r, ops)) && |Owners(Run(r, ops).calls)| <= 1
    decreases |ops|
  {
    if ops == [] {
      AtMostOneOwner(r);
    } else {
      OpStep(r, ops[0]);
      SingleOwner(Step(r, ops[0]), ops[1..]);
    }
  }

  lemma EmptyIsOwned()
    ensures Owned(Resource([], []))
  {
    assert Owners([]) == {};
  }

  lemma {:induction false} AlwaysThenNow(r: Resource, ops: seq<Op>)
    requires AlwaysOwned(r, ops)
    ensures Owned(Run(r, ops))
    decreases |ops|
  {
    if ops != [] {
      AlwaysThenNow(Step(r, ops[0]), ops[1..]);
    }
  }

  /** What peek_top tells: after any run of safe rejections whoever owns the resource is the focus it returns. */
  lemma OwnerOnTop(ops: seq<Op>, f: Focus)
    requires AllSafe(Resource([], []), ops)
    ensures var r := Run(Resource([], []), ops);
            f in Owners(r.calls) ==> Top(r) == Some(f)
  {
    EmptyIsOwned();
    OwnershipOverRuns(Resource([], []), ops);
    AlwaysThenNow(Resource([], []), ops);
  }

  // Conservation.

  /** The items of the list other than those of two foci, in order. */
  function Others(list: seq<Item>, f: Focus, g: Focus): seq<Item> {
    RemoveAll(RemoveAll(list, f), g)
  }

  lemma {:induction false} RemoveAppend(a: seq<Item>, b: seq<Item>, f: Focus)
    ensures RemoveAll(a + b, f) == RemoveAll(a, f) + RemoveAll(b, f)
  {
    if a == [] {
      assert a + b == b;
    } else {
      assert (a + b)[1..] == a[1..] + b;
      RemoveAppend(a[1..], b, f);
    }
  }

  lemma {:induction false} RemoveTwice(list: seq<Item>, f: Focus, g: Focus)
    ensures RemoveAll(RemoveAll(list, f), g) == RemoveAll(RemoveAll(list, g), f)
    ensures RemoveAll(RemoveAll(list, f), f) == RemoveAll(list, f)
  {
    if list != [] {
      RemoveTwice(list[1..], f, g);
      var rest := list[1..];
      var one := if list[0].focus == f then [] else [list[0]];
      var two := if list[0].focus == g then [] else [list[0]];
      RemoveAppend(one, RemoveAll(rest, f), g);
      RemoveAppend(two, RemoveAll(rest, g), f);
      RemoveAppend(one, RemoveAll(rest, f), f);
    }
  }

  lemma InsertForeign(list: seq<Item>, item: Item)
    ensures RemoveAll(InsertSorted(list, item), item.focus) == RemoveAll(list, item.focus)
  {
    var at := InsertShape(list, item);
    var f := item.focus;
    assert list == list[..at] + list[at..];
    RemoveAppend(list[..at], list[at..], f);
    RemoveAppend(list[..at] + [item], list[at..], f);
    RemoveAppend(list[..at], [item], f);
    assert RemoveAll([item], f) == [];
  }

  lemma DroppedForeign(stack: seq<Item>, unfocus: Result)
    requires stack != []
    ensures RemoveAll(Dropped(stack, unfocus), stack[0].focus) == RemoveAll(stack, stack[0].focus)
  {
    InsertForeign(stack[1..], stack[0]);
  }

  /** A request, whatever is answered, neither loses nor reorders any item but the requester's and the old head's. */
  lemma RequestConserves(r: Resource, focus: Focus, event: int, a: Answers)
    requires r.stack != []
    ensures Others(Requested(r, focus, event, a).stack, focus, r.stack[0].focus) ==
            Others(r.stack, focus, r.stack[0].focus)
  {
    var head := r.stack[0].focus;
    var item := Item(focus, event);
    if a.steal == ALLOW {
      var kept := Dropped(r.stack, a.unfocus);
      DroppedForeign(r.stack, a.unfocus);
      RemoveTwice(kept, focus, head);
      RemoveTwice(r.stack, focus, head);
      var rest := RemoveAll(kept, focus);
      assert RemoveAll([item] + rest, focus) == RemoveAll(rest, focus) by {
        assert ([item] + rest)[1..] == rest;
      }
    } else {
      InsertForeign(RemoveAll(r.stack, focus), item);
      RemoveTwice(r.stack, focus, focus);
    }
  }

  lemma ReleaseConserves(r: Resource, focus: Focus, a: Answers)
    requires r.stack != []
    ensures Others(Released(r, focus, a).stack, focus, r.stack[0].focus) == Others(r.stack, focus, r.stack[0].focus)
  {
    var head := r.stack[0].focus;
    if head == focus {
      DroppedForeign(r.stack, a.unfocus);
    } else {
      RemoveTwice(r.stack, focus, focus);
    }
  }

  lemma AmongInsert(list: seq<Item>, item: Item, f: Focus)
    ensures Among(f, InsertSorted(list, item)) <==> Among(f, list) || f == item.focus
  {
    var at := InsertShape(list, item);
    var all := InsertSorted(list, item);
    assert all[at] == item;
    if Among(f, list) {
      var i :| 0 <= i < |list| && list[i].focus == f;
      assert all[if i < at then i else i + 1] == list[i];
    }
  }

  lemma AmongRemove(list: seq<Item>, g: Focus, f: Focus)
    ensures Among(f, RemoveAll(list, g)) <==> Among(f, list) && f != g
  {
    RemoveShape(list, g);
    var rest := RemoveAll(list, g);
    if Among(f, list) && f != g {
      var i :| 0 <= i < |list| && list[i].focus == f;
      assert list[i] in rest;
      var j :| 0 <= j < |rest| && rest[j] == list[i];
    }
    if Among(f, rest) {
      var j :| 0 <= j < |rest| && rest[j].focus == f;
      assert rest[j] in rest;
    }
  }

  /** The old head leaves the list only when it is unfocused and does not ask to be paused. */
  lemma HeadLostOnlyByUnfocus(r: Resource, focus: Focus, event: int, a: Answers)
    requires r.stack != [] && Distinct(r.stack)
    ensures var head := r.stack[0].focus;
            && (focus != head ==>
                  (Among(head, Requested(r, focus, event, a).stack) <==> a.steal == REJECT || a.unfocus == PAUSE)
                  && Among(head, Released(r, focus, a).stack))
            && (Among(head, Released(r, head, a).stack) <==> a.unfocus == PAUSE)
  {
    var head := r.stack[0].focus;
    var kept := Dropped(r.stack, a.unfocus);
    assert !Among(head, r.stack[1..]);
    AmongInsert(r.stack[1..], r.stack[0], head);
    AmongRemove(kept, focus, head);
    AmongRemove(r.stack, focus, head);
    AmongInsert(RemoveAll(r.stack, focus), Item(focus, event), head);
    if focus != head {
      var rest := RemoveAll(kept, focus);
      AmongCons(Item(focus, event), rest, head);
    }
  }

  lemma AmongCons(item: Item, list: seq<Item>, f: Focus)
    ensures Among(f, [item] + list) <==> item.focus == f || Among(f, list)
  {
    var all := [item] + list;
    if Among(f, list) {
      var i :| 0 <= i < |list| && list[i].focus == f;
      assert all[i + 1] == list[i];
    }
    if item.focus == f {
      assert all[0].focus == f;
    }
  }

  // At most once per list, on every run.

  lemma ConsDistinct(item: Item, list: seq<Item>)
    requires Distinct(list) && !Among(item.focus, list)
    ensures Distinct([item] + list)
  {
  }

  lemma DroppedDistinct(stack: seq<Item>, unfocus: Result)
    requires stack != [] && Distinct(stack)
    ensures Distinct(Dropped(stack, unfocus))
  {
    assert stack == [stack[0]] + stack[1..];
    NotInTail(stack[0], stack[1..]);
    InsertKeepsDistinct(stack[1..], stack[0]);
  }

  lemma RequestDistinct(r: Resource, focus: Focus, event: int, a: Answers)
    requires Distinct(r.stack)
    ensures Distinct(Requested(r, focus, event, a).stack)
  {
    var item := Item(focus, event);
    if r.stack != [] && a.steal == ALLOW {
      var kept := Dropped(r.stack, a.unfocus);
      DroppedDistinct(r.stack, a.unfocus);
      RemoveKeepsDistinct(kept, focus);
      RemovedIsGone(kept, focus);
      ConsDistinct(item, RemoveAll(kept, focus));
    } else if r.stack != [] {
      RemoveKeepsDistinct(r.stack, focus);
      RemovedIsGone(r.stack, focus);
      InsertKeepsDistinct(RemoveAll(r.stack, focus), item);
    }
  }

  /** Any call, any answers, safe or not. */
  lemma DistinctStep(r: Resource, op: Op)
    requires Distinct(r.stack)
    ensures Distinct(Step(r, op).stack)
  {
    match op
    case Request(f, event, a) => RequestDistinct(r, f, event, a);
    case Release(f, a) =>
      RemoveKeepsDistinct(r.stack, f);
      if r.stack != [] {
        DroppedDistinct(r.stack, a.unfocus);
      }
    case Free(f) => RemoveKeepsDistinct(r.stack, f);
  }

  /** On every run a focus occurs at most once in the list. */
  lemma {:induction false} DistinctOverRuns(r: Resource, ops: seq<Op>)
    requires Distinct(r.stack)
    ensures Distinct(Run(r, ops).stack)
    decreases |ops|
  {
    if ops != [] {
      DistinctStep(r, ops[0]);
      DistinctOverRuns(Step(r, ops[0]), ops[1..]);
    }
  }

  /**
   After any run from the empty resource, whatever was and is answered: a call neither loses nor reorders any item but
   its own and the old head's, and loses the old head only by unfocusing it without being asked to pause.
   */
  lemma WaitingItemsStay(ops: seq<Op>, focus: Focus, event: int, a: Answers)
    requires Run(Resource([], []), ops).stack != []
    ensures var r := Run(Resource([], []), ops);
            var head := r.stack[0].focus;
            && Distinct(r.stack)
            && Others(Requested(r, focus, event, a).stack, focus, head) == Others(r.stack, focus, head)
            && Others(Released(r, focus, a).stack, focus, head) == Others(r.stack, focus, head)
            && (focus != head ==>
                  (Among(head, Requested(r, focus, event, a).stack) <==> a.steal == REJECT || a.unfocus == PAUSE)
                  && Among(head, Released(r, focus, a).stack))
            && (Among(head, Released(r, head, a).stack) <==> a.unfocus == PAUSE)
  {
    var r := Run(Resource([], []), ops);
    DistinctOverRuns(Resource([], []), ops);
    RequestConserves(r, focus, event, a);
    ReleaseConserves(r, focus, a);
    HeadLostOnlyByUnfocus(r, focus, event, a);
  }
}

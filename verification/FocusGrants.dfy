/**
 The promise of include/core/nugu_focus.h itself, at most one owner: over every run, whatever the callbacks answer,
 exactly which calls break it. The ownership invariant of FocusOwnership says more, and so breaks earlier.
 */
module FocusGrants {
  import opened Bytes
  import opened Focus
  import opened FocusOwnership

  ghost predicate OneOwner(r: Resource) {
    |Owners(r.calls)| <= 1
  }

  /** Whom the call grants the resource, with the focus callback agreeing. */
  function Granted(r: Resource, op: Op): set<Focus> {
    match op
    case Request(f, _, a) => if (r.stack == [] || a.steal == ALLOW) && a.focus == OK then {f} else {}
    case Release(f, a) =>
      if r.stack == [] || r.stack[0].focus != f then {}
      else
        var rest := Dropped(r.stack, a.unfocus);
        if rest != [] && rest[0].focus != f && a.focus == OK then {rest[0].focus} else {}
    case Free(_) => {}
  }

  /** Whom the call unfocuses or frees. */
  function Ousted(r: Resource, op: Op): set<Focus> {
    match op
    case Request(_, _, a) => if r.stack != [] && a.steal == ALLOW then {r.stack[0].focus} else {}
    case Release(f, _) => if r.stack != [] && r.stack[0].focus == f then {f} else {}
    case Free(f) => {f}
  }

  /** The call grants the resource while an owner is left who is neither ousted by it nor the one granted. */
  predicate SecondGrant(r: Resource, op: Op) {
    Granted(r, op) != {} && Owners(r.calls) - Ousted(r, op) - Granted(r, op) != {}
  }

  /** The owners after any call, in any state. */
  lemma OwnersStep(r: Resource, op: Op)
    ensures Owners(Step(r, op).calls) == Owners(r.calls) - Ousted(r, op) + Granted(r, op)
  {
    match op
    case Request(f, event, a) => RequestOwnersStep(r, f, event, a);
    case Release(f, a) => ReleaseOwnersStep(r, f, a);
    case Free(f) => OwnersSnoc(r.calls, Freed(f));
  }

  lemma ReleaseOwnersStep(r: Resource, f: Focus, a: Answers)
    ensures var op := Release(f, a);
            Owners(Released(r, f, a).calls) == Owners(r.calls) - Ousted(r, op) + Granted(r, op)
  {
    if r.stack != [] && r.stack[0].focus == f {
      var rest := Dropped(r.stack, a.unfocus);
      OwnersSnoc(r.calls, Lost(f, a.unfocus));
      if rest != [] {
        OwnersSnoc(r.calls + [Lost(f, a.unfocus)], Got(rest[0].focus, a.focus));
      }
    }
  }

  lemma RequestOwnersStep(r: Resource, f: Focus, event: int, a: Answers)
    ensures var op := Request(f, event, a);
            Owners(Requested(r, f, event, a).calls) == Owners(r.calls) - Ousted(r, op) + Granted(r, op)
  {
    if r.stack == [] {
      OwnersSnoc(r.calls, Got(f, a.focus));
    } else {
      var head := r.stack[0].focus;
      var asked := r.calls + [Asked(head, f, a.steal)];
      OwnersSnoc(r.calls, Asked(head, f, a.steal));
      OwnersSnoc(asked, Lost(head, a.unfocus));
      OwnersSnoc(asked + [Lost(head, a.unfocus)], Got(f, a.focus));
    }
  }

  lemma AtMostOne(s: set<Focus>)
    ensures |s| <= 1 <==> forall f, g :: f in s && g in s ==> f == g
  {
    if f :| f in s {
      assert s == {f} + (s - {f});
      if |s| <= 1 {
        assert |s - {f}| == 0;
      } else if g :| g in s - {f} {
        assert g in s && g != f;
      }
    }
  }

  /** From at most one owner, a call makes a second one exactly when it is a second grant. */
  lemma OneOwnerStep(r: Resource, op: Op)
    requires OneOwner(r)
    ensures OneOwner(Step(r, op)) <==> !SecondGrant(r, op)
  {
    var kept, granted := Owners(r.calls) - Ousted(r, op), Granted(r, op);
    OwnersStep(r, op);
    GrantedOne(r, op);
    AtMostOne(Owners(r.calls));
    AtMostOne(kept + granted);
    if SecondGrant(r, op) {
      var f :| f in granted;
      var g :| g in kept - granted;
      assert f in kept + granted && g in kept + granted && f != g;
    } else {
      assert granted == {} || kept - granted == {};
      forall f, g | f in kept + granted && g in kept + granted
        ensures f == g
      {
        assert granted != {} ==> f in granted && g in granted;
      }
    }
  }

  lemma GrantedOne(r: Resource, op: Op)
    ensures forall f, g :: f in Granted(r, op) && g in Granted(r, op) ==> f == g
  {
  }

  ghost predicate AlwaysOneOwner(r: Resource, ops: seq<Op>)
    decreases |ops|
  {
    OneOwner(r) && (ops != [] ==> AlwaysOneOwner(Step(r, ops[0]), ops[1..]))
  }

  predicate NoSecondGrant(r: Resource, ops: seq<Op>)
    decreases |ops|
  {
    ops != [] ==> !SecondGrant(r, ops[0]) && NoSecondGrant(Step(r, ops[0]), ops[1..])
  }

  /** Over every run the promise holds throughout exactly when no call grants the resource a second time. */
  lemma {:induction false} OneOwnerOverRuns(r: Resource, ops: seq<Op>)
    requires OneOwner(r)
    ensures AlwaysOneOwner(r, ops) <==> NoSecondGrant(r, ops)
    decreases |ops|
  {
    if ops != [] {
      OneOwnerStep(r, ops[0]);
      if !SecondGrant(r, ops[0]) {
        OneOwnerOverRuns(Step(r, ops[0]), ops[1..]);
      }
    }
  }

  lemma {:induction false} OwnedIsOne(r: Resource, ops: seq<Op>)
    requires AlwaysOwned(r, ops)
    ensures AlwaysOneOwner(r, ops)
    decreases |ops|
  {
    AtMostOneOwner(r);
    if ops != [] {
      OwnedIsOne(Step(r, ops[0]), ops[1..]);
    }
  }

  /** Safe rejections are enough. */
  lemma SafeMeansOneOwner(r: Resource, ops: seq<Op>)
    requires Owned(r) && AllSafe(r, ops)
    ensures NoSecondGrant(r, ops) && AlwaysOneOwner(r, ops)
  {
    OwnershipOverRuns(r, ops);
    OwnedIsOne(r, ops);
    OneOwnerOverRuns(r, ops);
  }

  lemma {:induction false} ThenNow(r: Resource, ops: seq<Op>)
    requires AlwaysOneOwner(r, ops)
    ensures OneOwner(Run(r, ops))
    decreases |ops|
  {
    if ops != [] {
      ThenNow(Step(r, ops[0]), ops[1..]);
    }
  }
}

/**
 The focus arbiter of src/nugu_focus.c: one list of items per resource, the head being the holder.

 Callbacks answer with whatever they like: Answers carries the results of the at most one steal, one unfocus
 and one focus callback that a single call makes, and `calls` records the callbacks made. Callbacks do not
 call back into the arbiter. Owners reads off the record who has been granted the resource and not been
 unfocused since; what is proved about it is in FocusOwnership.
 */
module Focus {
  import opened Bytes

  datatype FocusType = WAKEWORD | ASR | ALERT | TTS | ASR_EXPECT | MEDIA | CUSTOM

  /** The position in the enumeration; a smaller rank is a higher priority. */
  function Rank(t: FocusType): nat {
    match t
    case WAKEWORD => 0
    case ASR => 1
    case ALERT => 2
    case TTS => 3
    case ASR_EXPECT => 4
    case MEDIA => 5
    case CUSTOM => 6
  }

  /** A focus object; `id` stands for its address. */
  datatype Focus = Focus(id: nat, kind: FocusType) {
    function Priority(): nat {
      Rank(kind)
    }
  }

  datatype Item = Item(focus: Focus, event: int)

  datatype Result = OK | FAIL | REMOVE | PAUSE

  datatype StealResult = ALLOW | REJECT

  datatype Answers = Answers(steal: StealResult, unfocus: Result, focus: Result)

  datatype Call =
    | Asked(holder: Focus, target: Focus, steal: StealResult)
    | Lost(focus: Focus, result: Result)
    | Got(focus: Focus, result: Result)
    | Freed(focus: Focus)

  /** One resource: its list and the callbacks made so far. */
  datatype Resource = Resource(stack: seq<Item>, calls: seq<Call>)

  /** g_list_insert_sorted with _compare_func: in front of the first item of the same or a lower priority. */
  function InsertSorted(list: seq<Item>, item: Item): seq<Item> {
    if list == [] || item.focus.Priority() <= list[0].focus.Priority() then [item] + list
    else [list[0]] + InsertSorted(list[1..], item)
  }

  function RemoveAll(list: seq<Item>, focus: Focus): seq<Item> {
    if list == [] then []
    else (if list[0].focus == focus then [] else [list[0]]) + RemoveAll(list[1..], focus)
  }

  function Requested(r: Resource, focus: Focus, event: int, a: Answers): Resource {
    var item := Item(focus, event);
    if r.stack == [] then
      Resource(if a.focus == OK then [item] else [], r.calls + [Got(focus, a.focus)])
    else
      var head := r.stack[0];
      var asked := r.calls + [Asked(head.focus, focus, a.steal)];
      if a.steal == ALLOW then
        var rest := RemoveAll(Dropped(r.stack, a.unfocus), focus);
        Resource(if a.focus == OK then [item] + rest else rest,
                 asked + [Lost(head.focus, a.unfocus)] + [Got(focus, a.focus)])
      else
        Resource(InsertSorted(RemoveAll(r.stack, focus), item), asked)
  }

  /** The list without its head, unless that asked to be paused. */
  function Dropped(stack: seq<Item>, unfocus: Result): seq<Item>
    requires stack != []
  {
    if unfocus == PAUSE then InsertSorted(stack[1..], stack[0]) else stack[1..]
  }

  function Released(r: Resource, focus: Focus, a: Answers): Resource {
    if r.stack == [] then r
    else if r.stack[0].focus != focus then r.(stack := RemoveAll(r.stack, focus))
    else
      var rest := Dropped(r.stack, a.unfocus);
      var lost := r.calls + [Lost(focus, a.unfocus)];
      Resource(rest, if rest != [] && rest[0].focus != focus then lost + [Got(rest[0].focus, a.focus)] else lost)
  }

  function FreedFrom(r: Resource, focus: Focus): Resource {
    Resource(RemoveAll(r.stack, focus), r.calls + [Freed(focus)])
  }

  function OwnersAfter(owners: set<Focus>, call: Call): set<Focus> {
    match call
    case Asked(_, _, _) => owners
    case Got(f, result) => if result == OK then owners + {f} else owners
    case Lost(f, _) => owners - {f}
    case Freed(f) => owners - {f}
  }

  /** Who has been granted the resource and has neither been unfocused nor freed since. */
  function Owners(calls: seq<Call>): set<Focus> {
    if calls == [] then {} else OwnersAfter(Owners(calls[..|calls| - 1]), calls[|calls| - 1])
  }

  /** The focus at the head of the list. */
  function Top(r: Resource): Option<Focus> {
    if r.stack == [] then None else Some(r.stack[0].focus)
  }

  const MIC: nat := 0
  const SPK: nat := 1

  /** The global list array, with the record of callbacks beside it. */
  class FocusStacks {
    const stacks: array<seq<Item>>
    const calls: array<seq<Call>>

    ghost predicate Valid() {
      stacks.Length == 2 && calls.Length == 2 && stacks as object != calls
    }

    ghost function View(rsrc: nat): Resource
      requires Valid() && rsrc < 2
      reads stacks, calls
    {
      Resource(stacks[rsrc], calls[rsrc])
    }

    constructor ()
      ensures Valid() && fresh(stacks) && fresh(calls)
      ensures View(MIC) == Resource([], []) && View(SPK) == Resource([], [])
    {
      stacks := new seq<Item>[2](_ => []);
      calls := new seq<Call>[2](_ => []);
    }

    /** _find_item, as a position. */
    method FindItem(focus: Focus, rsrc: nat) returns (found: int)
      requires Valid() && rsrc < 2
      ensures -1 <= found < |stacks[rsrc]|
      ensures found >= 0 ==> stacks[rsrc][found].focus == focus
      ensures found == -1 ==> forall i :: 0 <= i < |stacks[rsrc]| ==> stacks[rsrc][i].focus != focus
    {
      for i := 0 to |stacks[rsrc]|
        invariant forall j :: 0 <= j < i ==> stacks[rsrc][j].focus != focus
      {
        if stacks[rsrc][i].focus == focus {
          return i;
        }
      }
      return -1;
    }

    method RemoveItemsByFocus(focus: Focus, rsrc: nat)
      requires Valid() && rsrc < 2
      modifies stacks
      ensures View(rsrc) == old(View(rsrc)).(stack := RemoveAll(old(View(rsrc)).stack, focus))
      ensures View(1 - rsrc) == old(View(1 - rsrc))
    {
      var at := FindItem(focus, rsrc);
      while at != -1
        invariant -1 <= at < |stacks[rsrc]|
        invariant at >= 0 ==> stacks[rsrc][at].focus == focus
        invariant at == -1 ==> forall i :: 0 <= i < |stacks[rsrc]| ==> stacks[rsrc][i].focus != focus
        invariant RemoveAll(stacks[rsrc], focus) == RemoveAll(old(stacks[rsrc]), focus)
        invariant stacks[1 - rsrc] == old(stacks[1 - rsrc])
        decreases |stacks[rsrc]|
      {
        RemoveAllSkips(stacks[rsrc], focus, at);
        stacks[rsrc] := stacks[rsrc][..at] + stacks[rsrc][at + 1..];
        at := FindItem(focus, rsrc);
      }
      RemoveAllNothing(stacks[rsrc], focus);
    }

    method Call(rsrc: nat, call: Call)
      requires Valid() && rsrc < 2
      modifies calls
      ensures calls[rsrc] == old(calls[rsrc]) + [call] && calls[1 - rsrc] == old(calls[1 - rsrc])
    {
      calls[rsrc] := calls[rsrc] + [call];
    }

    method RequestFocus(focus: Focus, rsrc: nat, event: int, a: Answers)
      requires Valid() && rsrc < 2
      modifies stacks, calls
      ensures View(rsrc) == Requested(old(View(rsrc)), focus, event, a)
      ensures View(1 - rsrc) == old(View(1 - rsrc))
    {
      var item := Item(focus, event);
      if stacks[rsrc] == [] {
        stacks[rsrc] := InsertSorted(stacks[rsrc], item);
        Call(rsrc, Got(focus, a.focus));
        if a.focus != OK {
          stacks[rsrc] := stacks[rsrc][1..];
        }
        return;
      }
      var head := stacks[rsrc][0];
      Call(rsrc, Asked(head.focus, focus, a.steal));
      if a.steal == ALLOW {
        Call(rsrc, Lost(head.focus, a.unfocus));
        stacks[rsrc] := stacks[rsrc][1..];
        if a.unfocus == PAUSE {
          stacks[rsrc] := InsertSorted(stacks[rsrc], head);
        }
        RemoveItemsByFocus(focus, rsrc);
        stacks[rsrc] := [item] + stacks[rsrc];
        Call(rsrc, Got(focus, a.focus));
        if a.focus != OK {
          stacks[rsrc] := stacks[rsrc][1..];
        }
        return;
      }
      RemoveItemsByFocus(focus, rsrc);
      stacks[rsrc] := InsertSorted(stacks[rsrc], item);
    }

    method ReleaseFocus(focus: Focus, rsrc: nat, a: Answers)
      requires Valid() && rsrc < 2
      modifies stacks, calls
      ensures View(rsrc) == Released(old(View(rsrc)), focus, a)
      ensures View(1 - rsrc) == old(View(1 - rsrc))
    {
      if stacks[rsrc] == [] {
        return;
      }
      var head := stacks[rsrc][0];
      if head.focus != focus {
        RemoveItemsByFocus(focus, rsrc);
        return;
      }
      stacks[rsrc] := stacks[rsrc][1..];
      Call(rsrc, Lost(focus, a.unfocus));
      if a.unfocus == PAUSE {
        stacks[rsrc] := InsertSorted(stacks[rsrc], head);
      }
      if stacks[rsrc] == [] {
        return;
      }
      if stacks[rsrc][0].focus != focus {
        Call(rsrc, Got(stacks[rsrc][0].focus, a.focus));
      }
    }

    method FreeFocus(focus: Focus)
      requires Valid()
      modifies stacks, calls
      ensures View(MIC) == FreedFrom(old(View(MIC)), focus)
      ensures View(SPK) == FreedFrom(old(View(SPK)), focus)
    {
      RemoveItemsByFocus(focus, MIC);
      RemoveItemsByFocus(focus, SPK);
      Call(MIC, Freed(focus));
      Call(SPK, Freed(focus));
    }

    /** Whose owner this is, if anybody's, is OwnerOnTop of FocusOwnership. */
    method PeekTop(rsrc: nat) returns (top: Option<Focus>)
      requires Valid() && rsrc < 2
      ensures top == Top(View(rsrc))
    {
      if stacks[rsrc] == [] {
        return None;
      }
      return Some(stacks[rsrc][0].focus);
    }
  }

  lemma {:induction false} RemoveAllSkips(list: seq<Item>, focus: Focus, at: nat)
    requires at < |list| && list[at].focus == focus
    ensures RemoveAll(list[..at] + list[at + 1..], focus) == RemoveAll(list, focus)
  {
    var shorter := list[..at] + list[at + 1..];
    if at == 0 {
      assert shorter == list[1..];
    } else {
      assert shorter[1..] == list[1..][..at - 1] + list[1..][at..];
      RemoveAllSkips(list[1..], focus, at - 1);
    }
  }

  lemma {:induction false} RemoveAllNothing(list: seq<Item>, focus: Focus)
    requires forall i :: 0 <= i < |list| ==> list[i].focus != focus
    ensures RemoveAll(list, focus) == list
  {
    if list != [] {
      RemoveAllNothing(list[1..], focus);
    }
  }
}

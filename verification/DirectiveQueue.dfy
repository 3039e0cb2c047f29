/**
 Directives and their attachments on the main loop: the directive of src/nugu_directive.c, the list of the
 sequencer in src/nugu_directive_sequencer.c and the drain of src/nugu_network_manager.c.

 Dir, Main and Process are the values and the function of one drained item; the classes Directive and
 NetworkManager do the same in place. The buffer of a directive is represented by its contents, which is what
 ByteBuffer proves a growable buffer to be. Strings that are null in C are empty here, and ids are
 their bytes.
 */
module DirectiveQueue {
  import opened Bytes

  /**
   A directive. Two components are history: `taken` is what get_data has handed out, and `since` the number of
   items processed when it came on the list.
   */
  datatype Dir = Dir(
    id: nat,
    msgId: seq<byte>,
    active: bool,
    ended: bool,
    mediaType: string,
    buffered: seq<byte>,
    hasCallback: bool,
    taken: seq<byte>,
    since: nat)
  {
    /** nugu_directive_get_data: everything buffered, which is then gone. */
    function Take(): Dir {
      this.(buffered := [], taken := taken + buffered)
    }

    /** What on_event does to the directive an attachment belongs to, up to the data callback. */
    function Receive(mediaType: string, isEnd: bool, data: seq<byte>): Dir {
      this.(ended := ended || isEnd, mediaType := mediaType, buffered := buffered + data)
    }
  }

  datatype Pending =
    | NewDirective(id: nat, msgId: seq<byte>)
    | NewAttachment(parent: seq<byte>, mediaType: string, isEnd: bool, data: seq<byte>)

  /**
   What the data callback sees, since when attachments had been going to this directive, and how many items had
   been processed by then, the current one included.
   */
  datatype Observation = Observation(dir: Dir, heard: nat, upto: nat)

  /**
   What the callbacks of one item do. For a directive: whether it stays on the list, and whether an agent sets a
   data callback. For an attachment: whether the data callback takes the data, and whether it completes the directive.
   */
  datatype Answer = Answer(stays: bool, setsCallback: bool, takes: bool, completes: bool)

  /**
   The list, and three components of history: the items processed, what data callbacks saw, and for each message
   id how many items had been processed when the first directive of that id last left the list.
   */
  datatype Main = Main(dirs: seq<Dir>, processed: seq<Pending>, seen: seq<Observation>, left: map<seq<byte>, nat>)

  const EMPTY := Main([], [], [], map[])

  /** No older directive on the list has its message id. */
  predicate First(dirs: seq<Dir>, at: nat)
    requires at < |dirs|
  {
    forall i :: 0 <= i < at ==> dirs[i].msgId != dirs[at].msgId
  }

  /** For the first of its id: the items processed when it became that, on arrival or when the last older one left. */
  function Heard(m: Main, at: nat): nat
    requires at < |m.dirs|
  {
    var d := m.dirs[at];
    if d.msgId in m.left && m.left[d.msgId] > d.since then m.left[d.msgId] else d.since
  }

  /** nugu_dirseq_find_by_msgid: the first directive with the id; an empty id finds nothing. */
  function Find(dirs: seq<Dir>, msgId: seq<byte>): (at: Option<nat>)
    ensures at.Some? ==> msgId != [] && at.value < |dirs| && dirs[at.value].msgId == msgId
    ensures at.Some? ==> forall i :: 0 <= i < at.value ==> dirs[i].msgId != msgId
    ensures at.None? ==> msgId == [] || forall i :: 0 <= i < |dirs| ==> dirs[i].msgId != msgId
  {
    if msgId == [] || dirs == [] then None
    else if dirs[0].msgId == msgId then Some(0)
    else
      match Find(dirs[1..], msgId)
      case Some(i) => Some(i + 1)
      case None => None
  }

  predicate IdFree(dirs: seq<Dir>, msgId: seq<byte>) {
    forall i :: 0 <= i < |dirs| ==> dirs[i].msgId != msgId
  }

  function RemoveAt<T>(list: seq<T>, at: nat): seq<T>
    requires at < |list|
  {
    list[..at] + list[at + 1..]
  }

  /** A directive leaves the list. */
  function Leave(m: Main, at: nat): Main
    requires at < |m.dirs|
  {
    m.(dirs := RemoveAt(m.dirs, at),
       left := if First(m.dirs, at) then m.left[m.dirs[at].msgId := |m.processed|] else m.left)
  }

  /** nugu_dirseq_push, with what the agents do. */
  function Started(m: Main, id: nat, msgId: seq<byte>, a: Answer): Dir {
    Dir(id, msgId, true, false, "", [], a.setsCallback, [], |m.processed|)
  }

  /** One turn of the loop in on_event. */
  function Process(m: Main, item: Pending, a: Answer): Main {
    var taken := m.(processed := m.processed + [item]);
    match item
    case NewDirective(id, msgId) =>
      var listed := taken.(dirs := m.dirs + [Started(taken, id, msgId, a)]);
      if a.stays then listed else Leave(listed, |m.dirs|)
    case NewAttachment(parent, mediaType, isEnd, data) =>
      match Find(m.dirs, parent)
      case None => taken
      case Some(at) => Found(taken, at, mediaType, isEnd, data, a)
  }

  /** The directive found gets the data; its callback, when due, may take it or complete the directive. */
  function Found(m: Main, at: nat, mediaType: string, isEnd: bool, data: seq<byte>, a: Answer): Main
    requires at < |m.dirs|
  {
    var d := m.dirs[at].Receive(mediaType, isEnd, data);
    if d.active && d.hasCallback then
      var seen := Observed(m, at, d, a.takes);
      if a.completes then Leave(seen, at) else seen
    else
      m.(dirs := m.dirs[at := d])
  }

  /** The data callback has run. */
  function Observed(m: Main, at: nat, d: Dir, takes: bool): Main
    requires at < |m.dirs|
  {
    m.(dirs := m.dirs[at := if takes then d.Take() else d],
       seen := m.seen + [Observation(d, Heard(m, at), |m.processed|)])
  }

  class Directive {
    const id: nat
    const msgId: seq<byte>
    var isActive: bool
    var isEnd: bool
    var mediaType: string
    var buf: seq<byte>
    var hasCallback: bool
    ghost var taken: seq<byte>
    ghost var since: nat

    ghost function View(): Dir
      reads this
    {
      Dir(id, msgId, isActive, isEnd, mediaType, buf, hasCallback, taken, since)
    }

    /** As nugu_directive_new leaves it. */
    ghost predicate New()
      reads this
    {
      !isActive && !isEnd && mediaType == "" && buf == [] && !hasCallback && taken == []
    }

    constructor (id: nat, msgId: seq<byte>)
      ensures New() && this.id == id && this.msgId == msgId
    {
      this.id, this.msgId := id, msgId;
      isActive, isEnd, mediaType, buf, hasCallback := false, false, "", [], false;
      taken, since := [], 0;
    }

    /** Whether the data callback is due is returned; the caller runs it. */
    method AddData(data: seq<byte>) returns (due: bool)
      modifies this`buf
      ensures buf == old(buf) + data && due == (isActive && hasCallback)
    {
      if |data| > 0 {
        buf := buf + data;
      }
      due := isActive && hasCallback;
    }

    /** An attachment arrives; the data callback, when due, takes the data or leaves it. */
    method Receive(mediaType: string, isEnd: bool, data: seq<byte>, takes: bool) returns (due: bool)
      modifies this
      ensures var d := old(View()).Receive(mediaType, isEnd, data);
              && due == (d.active && d.hasCallback)
              && View() == if due && takes then d.Take() else d
    {
      if isEnd {
        this.isEnd := true;
      }
      this.mediaType := mediaType;
      due := AddData(data);
      if due && takes {
        var taken := GetData();
      }
    }

    method GetData() returns (data: seq<byte>)
      modifies this`buf, this`taken
      ensures View() == old(View()).Take() && data == old(buf)
    {
      data := buf;
      taken := taken + buf;
      buf := [];
    }
  }

  /** An item of the queue as the network thread makes it. */
  datatype Item =
    | DirectiveItem(d: Directive)
    | AttachmentItem(parent: seq<byte>, mediaType: string, isEnd: bool, data: seq<byte>)
  {
    function Value(): Pending {
      match this
      case DirectiveItem(d) => NewDirective(d.id, d.msgId)
      case AttachmentItem(parent, mediaType, isEnd, data) => NewAttachment(parent, mediaType, isEnd, data)
    }
  }

  function Values(items: seq<Item>): (values: seq<Pending>)
    ensures |values| == |items|
  {
    seq(|items|, i requires 0 <= i < |items| => items[i].Value())
  }

  /** The drain of several items, with the answers of their callbacks. */
  function ProcessAll(m: Main, items: seq<Pending>, answers: seq<Answer>): Main
    requires |items| == |answers|
    decreases |items|
  {
    if items == [] then m else ProcessAll(Process(m, items[0], answers[0]), items[1..], answers[1..])
  }

  ghost function Views(list: seq<Directive>): (views: seq<Dir>)
    reads list
    ensures |views| == |list|
    ensures forall i :: 0 <= i < |list| ==> views[i] == list[i].View()
  {
    seq(|list|, i requires 0 <= i < |list| reads list => list[i].View())
  }

  ghost predicate Distinct(list: seq<Directive>) {
    forall i, j :: 0 <= i < j < |list| ==> list[i] != list[j]
  }

  ghost predicate Apart(list: seq<Directive>, queue: seq<Item>) {
    && (forall i :: 0 <= i < |queue| && queue[i].DirectiveItem? ==> queue[i].d !in list)
    && (forall i, j :: 0 <= i < j < |queue| && queue[i].DirectiveItem? && queue[j].DirectiveItem? ==>
          queue[i].d != queue[j].d)
  }

  ghost function Queued(items: seq<Item>): set<object> {
    set i | 0 <= i < |items| && items[i].DirectiveItem? :: items[i].d as object
  }

  ghost predicate AllNew(queue: seq<Item>)
    reads Queued(queue)
  {
    forall i :: 0 <= i < |queue| && queue[i].DirectiveItem? ==> queue[i].d.New()
  }

  lemma RemovedIndex<T>(list: seq<T>, at: nat, i: nat)
    requires at < |list| && i < |list| - 1
    ensures RemoveAt(list, at)[i] == list[if i < at then i else i + 1]
  {
  }

  lemma RemovedDistinct(list: seq<Directive>, at: nat)
    requires at < |list| && Distinct(list)
    ensures Distinct(RemoveAt(list, at))
    ensures forall d :: d in RemoveAt(list, at) ==> d in list
  {
    var rest := RemoveAt(list, at);
    forall i, j | 0 <= i < j < |rest|
      ensures rest[i] != rest[j]
    {
      RemovedIndex(list, at, i);
      RemovedIndex(list, at, j);
    }
  }

  lemma ViewsRemoved(list: seq<Directive>, at: nat)
    requires at < |list|
    ensures Views(RemoveAt(list, at)) == RemoveAt(Views(list), at)
  {
    forall i | 0 <= i < |list| - 1
      ensures Views(RemoveAt(list, at))[i] == RemoveAt(Views(list), at)[i]
    {
      RemovedIndex(list, at, i);
      RemovedIndex(Views(list), at, i);
    }
  }

  lemma ViewsAppended(list: seq<Directive>, d: Directive)
    requires Distinct(list) && d !in list
    ensures Views(list + [d]) == Views(list) + [d.View()]
    ensures Distinct(list + [d])
  {
  }

  lemma ApartShrinks(list: seq<Directive>, list': seq<Directive>, queue: seq<Item>)
    requires Apart(list, queue) && forall d :: d in list' ==> d in list
    ensures Apart(list', queue)
  {
  }

  /** The list after taking one directive from the front of the queue. */
  lemma ApartMoves(list: seq<Directive>, queue: seq<Item>, d: Directive)
    requires Apart(list, queue) && forall i :: 0 <= i < |queue| && queue[i].DirectiveItem? ==> queue[i].d != d
    ensures Apart(list + [d], queue)
  {
  }

  class NetworkManager {
    var listDir: seq<Directive>
    var queue: seq<Item>
    ghost var processed: seq<Pending>
    ghost var seen: seq<Observation>
    ghost var left: map<seq<byte>, nat>

    /** The list and the queue hold different directives, each once; those in the queue are as they were created. */
    ghost predicate Valid()
      reads this, Queued(queue)
    {
      Distinct(listDir) && Apart(listDir, queue) && AllNew(queue)
    }

    ghost function View(): Main
      reads this, listDir
    {
      Main(Views(listDir), processed, seen, left)
    }

    constructor ()
      ensures Valid() && View() == EMPTY && queue == []
    {
      listDir, queue, processed, seen, left := [], [], [], [], map[];
    }

    /** nugu_network_manager_recv_directive and _recv_directive_data, up to the eventfd. */
    method Push(item: Item)
      requires Valid()
      requires item.DirectiveItem? ==>
                 && item.d !in listDir && item.d.New()
                 && (forall i :: 0 <= i < |queue| && queue[i].DirectiveItem? ==> queue[i].d != item.d)
      modifies this`queue
      ensures Valid() && queue == old(queue) + [item] && View() == old(View())
    {
      queue := queue + [item];
    }

    method FindByMsgid(msgId: seq<byte>) returns (at: Option<nat>)
      ensures at == Find(View().dirs, msgId)
    {
      if msgId == [] {
        return None;
      }
      for i := 0 to |listDir|
        invariant forall j :: 0 <= j < i ==> listDir[j].msgId != msgId
      {
        if listDir[i].msgId == msgId {
          FindIs(View().dirs, msgId, Some(i));
          return Some(i);
        }
      }
      FindIs(View().dirs, msgId, None);
      return None;
    }

    method Append(d: Directive)
      requires Valid() && d !in listDir
      requires forall i :: 0 <= i < |queue| && queue[i].DirectiveItem? ==> queue[i].d != d
      modifies this`listDir
      ensures Valid() && listDir == old(listDir) + [d]
      ensures Views(listDir) == old(Views(listDir)) + [d.View()]
    {
      ViewsAppended(listDir, d);
      ApartMoves(listDir, queue, d);
      listDir := listDir + [d];
    }

    /** What the push does to the directive itself, and what the agents do with it. */
    method Start(d: Directive, a: Answer)
      requires Valid() && d !in listDir && d.New()
      requires forall i :: 0 <= i < |queue| && queue[i].DirectiveItem? ==> queue[i].d != d
      modifies d
      ensures Valid() && View() == old(View())
      ensures d.View() == Started(View(), d.id, d.msgId, a)
    {
      d.since := |processed|;
      d.isActive := true;
      d.hasCallback := a.setsCallback;
    }

    /** The PENDING_DIRECTIVE branch: on the list, and off it again when an agent asks for that. */
    method ProcessDirective(d: Directive, a: Answer)
      requires Valid() && d !in listDir && d.New()
      requires forall i :: 0 <= i < |queue| && queue[i].DirectiveItem? ==> queue[i].d != d
      modifies this`listDir, this`processed, this`left, d
      ensures Valid()
      ensures View() == Process(old(View()), NewDirective(d.id, d.msgId), a)
      ensures forall x :: x in listDir ==> x in old(listDir) || x == d
    {
      processed := processed + [NewDirective(d.id, d.msgId)];
      Start(d, a);
      Append(d);
      if !a.stays {
        RemoveDirective(|listDir| - 1);
      }
    }

    /** What the attachment does to the directive found, the data callback included. */
    method Deliver(at: nat, mediaType: string, isEnd: bool, data: seq<byte>, a: Answer) returns (due: bool)
      requires Valid() && at < |listDir|
      modifies this`seen, listDir
      ensures Valid()
      ensures var d := old(View()).dirs[at].Receive(mediaType, isEnd, data);
              && due == (d.active && d.hasCallback)
              && View().dirs == old(View()).dirs[at := if due && a.takes then d.Take() else d]
              && seen == if due then old(seen) + [Observation(d, Heard(old(View()), at), |processed|)] else old(seen)
    {
      ghost var d := Views(listDir)[at].Receive(mediaType, isEnd, data);
      ghost var heard := Heard(View(), at);
      due := listDir[at].Receive(mediaType, isEnd, data, a.takes);
      if due {
        seen := seen + [Observation(d, heard, |processed|)];
      }
      assert Views(listDir) == old(Views(listDir))[at := listDir[at].View()];
    }

    method DeliverFound(at: nat, mediaType: string, isEnd: bool, data: seq<byte>, a: Answer)
      requires Valid() && at < |listDir|
      modifies this`listDir, this`seen, this`left, listDir
      ensures Valid()
      ensures View() == Found(old(View()), at, mediaType, isEnd, data, a)
      ensures forall d :: d in listDir ==> d in old(listDir)
    {
      var due := Deliver(at, mediaType, isEnd, data, a);
      if due && a.completes {
        RemoveDirective(at);
      }
    }

    /** The PENDING_ATTACHMENT branch. */
    method ProcessAttachment(parent: seq<byte>, mediaType: string, isEnd: bool, data: seq<byte>, a: Answer)
      requires Valid()
      modifies this`listDir, this`processed, this`seen, this`left, listDir
      ensures Valid()
      ensures View() == Process(old(View()), NewAttachment(parent, mediaType, isEnd, data), a)
      ensures forall d :: d in listDir ==> d in old(listDir)
    {
      var at := FindByMsgid(parent);
      processed := processed + [NewAttachment(parent, mediaType, isEnd, data)];
      if at.Some? {
        DeliverFound(at.value, mediaType, isEnd, data, a);
      }
    }

    /** The list half of nugu_dirseq_complete. */
    method RemoveDirective(at: nat)
      requires Valid() && at < |listDir|
      modifies this`listDir, this`left
      ensures Valid()
      ensures View() == Leave(old(View()), at)
      ensures forall d :: d in listDir ==> d in old(listDir)
    {
      if First(Views(listDir), at) {
        left := left[listDir[at].msgId := |processed|];
      }
      ViewsRemoved(listDir, at);
      RemovedDistinct(listDir, at);
      ApartShrinks(listDir, RemoveAt(listDir, at), queue);
      listDir := RemoveAt(listDir, at);
    }

    /** One turn of the loop. */
    method DrainOne(a: Answer)
      requires Valid() && queue != []
      modifies this, listDir, Queued(queue)
      ensures Valid() && queue == old(queue)[1..]
      ensures View() == Process(old(View()), old(queue)[0].Value(), a)
      ensures forall d :: d in listDir ==> d in old(listDir) || d in Queued(old(queue))
    {
      var item := queue[0];
      queue := queue[1..];
      match item {
        case DirectiveItem(d) => ProcessDirective(d, a);
        case AttachmentItem(parent, mediaType, isEnd, data) => ProcessAttachment(parent, mediaType, isEnd, data, a);
      }
    }

    /** The drain of on_event, once the eventfd has been read; nothing is pushed meanwhile. */
    method Drain(answers: seq<Answer>)
      requires Valid() && |answers| == |queue|
      modifies this, listDir, Queued(queue)
      ensures Valid() && queue == []
      ensures View() == ProcessAll(old(View()), Values(old(queue)), answers)
    {
      var n := 0;
      while |queue| > 0
        invariant n <= |answers| && queue == old(queue)[n..]
        invariant Valid()
        invariant forall d :: d in listDir ==> d in old(listDir) || d in Queued(old(queue))
        invariant ProcessAll(View(), Values(queue), answers[n..])
               == ProcessAll(old(View()), Values(old(queue)), answers)
        decreases |queue|
      {
        ProcessFirst(View(), queue, answers[n..]);
        assert answers[n..][1..] == answers[n + 1..];
        DrainOne(answers[n]);
        n := n + 1;
      }
    }
  }

  lemma ProcessFirst(m: Main, items: seq<Item>, answers: seq<Answer>)
    requires |items| == |answers| > 0
    ensures ProcessAll(m, Values(items), answers) ==
            ProcessAll(Process(m, items[0].Value(), answers[0]), Values(items[1..]), answers[1..])
  {
    assert Values(items)[1..] == Values(items[1..]);
  }

  lemma {:induction false} FindIs(dirs: seq<Dir>, msgId: seq<byte>, at: Option<nat>)
    requires msgId != []
    requires at.Some? ==>
               && at.value < |dirs| && dirs[at.value].msgId == msgId
               && forall i :: 0 <= i < at.value ==> dirs[i].msgId != msgId
    requires at.None? ==> IdFree(dirs, msgId)
    ensures Find(dirs, msgId) == at
  {
    var found := Find(dirs, msgId);
    if at.Some? && found.Some? && at.value < found.value {
      assert false;
    }
  }
}

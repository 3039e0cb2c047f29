/**
 The downstream half of src/http2/v1_directives.cc: the callbacks of the multipart parser, which split a
 header block into key/value pairs, remember the type, parent id and end flag they announce, and dispatch
 every body by what is remembered.
 */
module V1Directives {
  import opened Bytes
  import opened MultipartParser
  import opened MultipartChunks

  datatype ContentType = UNKNOWN | JSON | OPUS

  datatype Status = KEY | VALUE_WAIT | VALUE

  datatype Pair = Pair(key: seq<byte>, value: seq<byte>)

  /** What the struct remembers from headers. */
  datatype Dispatch = Dispatch(ctype: ContentType, parent: Option<seq<byte>>, isEnd: bool)

  /** What a body turns into: a document for the JSON reader, or an attachment for the network manager. */
  datatype Delivery = Document(data: seq<byte>) | Attachment(parent: Option<seq<byte>>, isEnd: bool, data: seq<byte>)

  function Ascii(text: string): (bytes: seq<byte>)
    ensures |bytes| == |text|
  {
    seq(|text|, i requires 0 <= i < |text| => (text[i] as int % 256) as byte)
  }

  const CONTENT_TYPE := Ascii("Content-Type")
  const PARENT_MESSAGE_ID := Ascii("Parent-Message-Id")
  const FILENAME := Ascii("Filename")
  const JSON_TYPE := Ascii("application/json")
  const OPUS_TYPE := Ascii("audio/opus")
  const END_MARK := Ascii("end")

  function TypeOf(value: seq<byte>): ContentType {
    if JSON_TYPE <= value then JSON else if OPUS_TYPE <= value then OPUS else UNKNOWN
  }

  /** The C string at the front of the value. */
  function CString(value: seq<byte>): seq<byte> {
    if value == [] || value[0] == NUL then [] else [value[0]] + CString(value[1..])
  }

  predicate Mentions(value: seq<byte>, word: seq<byte>) {
    exists i :: 0 <= i <= |value| && word <= value[i..]
  }

  function Apply(d: Dispatch, p: Pair): Dispatch {
    if p.key == CONTENT_TYPE then d.(ctype := TypeOf(p.value))
    else if p.key == PARENT_MESSAGE_ID then d.(parent := Some(CString(p.value)))
    else if p.key == FILENAME then d.(isEnd := Mentions(p.value, END_MARK))
    else d
  }

  function ApplyAll(d: Dispatch, pairs: seq<Pair>): Dispatch
    decreases |pairs|
  {
    if pairs == [] then d else ApplyAll(Apply(d, pairs[0]), pairs[1..])
  }

  /** The scan of a header block; `token` is what lies between `start` and the read position. */
  function Split(status: Status, token: seq<byte>, key: seq<byte>, value: seq<byte>, rest: seq<byte>): seq<Pair>
    decreases |rest|
  {
    if rest == [] then []
    else
      var c := rest[0];
      match status
      case KEY =>
        if c == COLON then Split(VALUE_WAIT, [], token, value, rest[1..])
        else Split(KEY, token + [c], key, value, rest[1..])
      case VALUE_WAIT =>
        if c == SPACE then Split(VALUE_WAIT, [], key, value, rest[1..])
        else Split(VALUE, [c], key, value, rest[1..])
      case VALUE =>
        if c == LF then [Pair(key, value)] + Split(KEY, [], [], [], rest[1..])
        else Split(VALUE, token + [c], key, if c == CR then token else value, rest[1..])
  }

  function SplitHeader(data: seq<byte>): seq<Pair> {
    Split(KEY, [], [], [], data)
  }

  function Deliver(d: Dispatch, data: seq<byte>): seq<Delivery> {
    match d.ctype
    case JSON => [Document(data)]
    case OPUS => [Attachment(d.parent, d.isEnd, data)]
    case UNKNOWN => []
  }

  /** The callbacks of the parser, in order. */
  function Handle(d: Dispatch, events: seq<Event>): (Dispatch, seq<Delivery>)
    decreases |events|
  {
    if events == [] then (d, [])
    else
      match events[0]
      case FoundHeader(data) => Handle(ApplyAll(d, SplitHeader(data)), events[1..])
      case FoundBody(data) =>
        var (end, more) := Handle(d, events[1..]);
        (end, Deliver(d, data) + more)
  }

  lemma {:induction false} HandleAppend(d: Dispatch, a: seq<Event>, b: seq<Event>)
    ensures var (mid, x) := Handle(d, a);
            var (end, y) := Handle(mid, b);
            Handle(d, a + b) == (end, x + y)
    decreases |a|
  {
    if a == [] {
      assert a + b == b;
      assert [] + Handle(d, b).1 == Handle(d, b).1;
    } else {
      assert (a + b)[1..] == a[1..] + b;
      match a[0]
      case FoundHeader(data) => HandleAppend(ApplyAll(d, SplitHeader(data)), a[1..], b);
      case FoundBody(data) =>
        HandleAppend(d, a[1..], b);
        Assoc(Deliver(d, data), Handle(d, a[1..]).1, Handle(Handle(d, a).0, b).1);
    }
  }

  lemma HandledThen(d: Dispatch, events: seq<Event>, more: seq<Event>, first: nat)
    requires first <= |events| && events <= more
    ensures var (mid, x) := Handle(d, events[first..]);
            var (end, y) := Handle(mid, more[|events|..]);
            Handle(d, more[first..]) == (end, x + y)
  {
    HandleAppend(d, events[first..], more[|events|..]);
    assert more[first..] == events[first..] + more[|events|..];
  }

  class V1Directives {
    const parser: MultipartParser
    var ctype: ContentType
    var parentMsgId: Option<seq<byte>>
    var isEnd: bool
    var delivered: seq<Delivery>

    ghost predicate Valid()
      reads this, parser, parser.header, parser.header.data, parser.body, parser.body.data
    {
      parser.Valid()
    }

    ghost function View(): Dispatch
      reads this
    {
      Dispatch(ctype, parentMsgId, isEnd)
    }

    constructor ()
      ensures Valid() && fresh(parser) && fresh(parser.Repr())
      ensures View() == Dispatch(UNKNOWN, None, false) && delivered == []
      ensures parser.View() == INITIAL
    {
      parser := new MultipartParser();
      ctype, parentMsgId, isEnd, delivered := UNKNOWN, None, false, [];
    }

    method SetField(key: seq<byte>, value: seq<byte>)
      modifies this`ctype, this`parentMsgId, this`isEnd
      ensures View() == Apply(old(View()), Pair(key, value))
    {
      if key == CONTENT_TYPE {
        if JSON_TYPE <= value {
          ctype := JSON;
        } else if OPUS_TYPE <= value {
          ctype := OPUS;
        } else {
          ctype := UNKNOWN;
        }
      } else if key == PARENT_MESSAGE_ID {
        parentMsgId := Some(CString(value));
      } else if key == FILENAME {
        isEnd := Mentions(value, END_MARK);
      }
    }

    method OnParsingHeader(data: seq<byte>)
      modifies this`ctype, this`parentMsgId, this`isEnd
      ensures View() == ApplyAll(old(View()), SplitHeader(data))
    {
      var pos, start := 0, 0;
      var status := KEY;
      var key: seq<byte>, value: seq<byte> := [], [];
      while pos < |data|
        invariant start <= pos <= |data|
        invariant var token := if status == VALUE_WAIT then [] else data[start..pos];
                  ApplyAll(View(), Split(status, token, key, value, data[pos..])) ==
                  ApplyAll(old(View()), SplitHeader(data))
        decreases |data| - pos
      {
        var found := false;
        var c := data[pos];
        assert data[pos..][0] == c && data[pos..][1..] == data[pos + 1..];
        assert data[start..pos] + [c] == data[start..pos + 1];
        match status {
          case KEY =>
            if c == COLON {
              key := data[start..pos];
              status := VALUE_WAIT;
            }
          case VALUE_WAIT =>
            if c != SPACE {
              start := pos;
              status := VALUE;
              assert data[start..pos + 1] == [c];
            }
          case VALUE =>
            if c == CR {
              value := data[start..pos];
            } else if c == LF {
              status := KEY;
              start := pos + 1;
              found := true;
            }
        }
        if found {
          assert ([Pair(key, value)] + Split(KEY, [], [], [], data[pos + 1..]))[1..] ==
                 Split(KEY, [], [], [], data[pos + 1..]);
          assert data[pos + 1..pos + 1] == [];
          SetField(key, value);
          key, value := [], [];
        }
        pos := pos + 1;
      }
    }

    method OnParsingBody(data: seq<byte>)
      modifies this`delivered
      ensures delivered == old(delivered) + Deliver(View(), data)
    {
      match ctype
      case JSON => delivered := delivered + [Document(data)];
      case OPUS => delivered := delivered + [Attachment(parentMsgId, isEnd, data)];
      case UNKNOWN =>
    }

    /** _on_body: the parser reads the chunk, its callbacks run in the order of its events. */
    method OnBody(chunk: seq<byte>)
      requires Valid() && (parser.boundary != [] || NeverLooks(Scan(parser.View(), 0), chunk))
      modifies this, parser.Repr()
      ensures Valid() && fresh(parser.Repr() - old(parser.Repr())) && parser.boundary == old(parser.boundary)
      ensures parser.View() == Parse(OrAny(old(parser.boundary)), old(parser.View()), chunk)
      ensures old(parser.events) <= parser.events
      ensures (View(), delivered) ==
              var (d, more) := Handle(old(View()), parser.events[|old(parser.events)|..]);
              (d, old(delivered) + more)
    {
      var first := |parser.events|;
      EventsGrow(OrAny(parser.boundary), Scan(parser.View(), 0), chunk);
      parser.ParseChunk(chunk);
      RunCallbacks(parser.events[first..]);
    }

    /** A whole response: one call of _on_body for each chunk that the network hands over. */
    method OnResponse(chunks: seq<seq<byte>>)
      requires Valid() && (parser.boundary != [] || NeverLooksAll(parser.View(), chunks))
      modifies this, parser.Repr()
      ensures Valid() && fresh(parser.Repr() - old(parser.Repr())) && parser.boundary == old(parser.boundary)
      ensures parser.View() == ParseAll(OrAny(old(parser.boundary)), old(parser.View()), chunks)
      ensures old(parser.events) <= parser.events
      ensures (View(), delivered) ==
              var (d, more) := Handle(old(View()), parser.events[|old(parser.events)|..]);
              (d, old(delivered) + more)
    {
      ghost var first := |parser.events|;
      assert parser.events[first..] == [] && delivered + [] == delivered;
      for i := 0 to |chunks|
        invariant Valid() && fresh(parser.Repr() - old(parser.Repr())) && parser.boundary == old(parser.boundary)
        invariant parser.boundary != [] || NeverLooksAll(parser.View(), chunks[i..])
        invariant ParseAll(OrAny(parser.boundary), parser.View(), chunks[i..])
               == ParseAll(OrAny(parser.boundary), old(parser.View()), chunks)
        invariant old(parser.events) <= parser.events
        invariant (View(), delivered) ==
                  var (d, more) := Handle(old(View()), parser.events[first..]);
                  (d, old(delivered) + more)
      {
        ghost var events, before := parser.events, delivered;
        ghost var d := View();
        assert chunks[i..][1..] == chunks[i + 1..];
        OnBody(chunks[i]);
        HandledThen(old(View()), events, parser.events, first);
        Assoc(old(delivered), Handle(old(View()), events[first..]).1, Handle(d, parser.events[|events|..]).1);
      }
    }

    method RunCallbacks(events: seq<Event>)
      modifies this
      ensures (View(), delivered) == var (d, more) := Handle(old(View()), events); (d, old(delivered) + more)
    {
      for i := 0 to |events|
        invariant var (d, more) := Handle(View(), events[i..]);
                  (d, delivered + more) == var (d, more) := Handle(old(View()), events); (d, old(delivered) + more)
      {
        assert events[i..][1..] == events[i + 1..];
        match events[i]
        case FoundHeader(data) => OnParsingHeader(data);
        case FoundBody(data) =>
          Assoc(delivered, Deliver(View(), data), Handle(View(), events[i + 1..]).1);
          OnParsingBody(data);
      }
      assert events[|events|..] == [] && delivered + [] == delivered;
    }
  }
}

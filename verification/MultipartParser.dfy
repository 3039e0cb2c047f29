/**
 The streaming multipart parser of src/http2/multipart_parser.c: a byte automaton over two growable
 buffers that reports the header block and the body of every part.

 State is what the C struct keeps between calls, Scan adds the boundary cursor that lives only during
 one call. Consume is one turn of the loop, Feed the whole loop. The class MultipartParser runs the
 automaton in place and is proved against Feed.
 */
module MultipartParser {
  import opened Bytes
  import opened ByteBuffer

  datatype Step =
    | Ready
    | StartHyphen
    | CheckBoundary
    | EndBoundary
    | EndCR
    | EndHyphen
    | EndHyphen2
    | EndHyphen2CR
    | ContentStart
    | Header
    | HeaderCR
    | ContentEmptyCR
    | Body
    | BodyCR
    | BodyEndline
    | BodyEndlineCR
    | Finish

  /** The calls of onFoundHeader and onFoundBody with the bytes handed over. */
  datatype Event = FoundHeader(data: seq<byte>) | FoundBody(data: seq<byte>)

  datatype State = State(step: Step, header: seq<byte>, body: seq<byte>, events: seq<Event>)

  const INITIAL := State(Ready, [], [], [])

  datatype Scan = Scan(st: State, cursor: nat) {
    function Go(step: Step): Scan {
      Scan(st.(step := step), cursor)
    }

    function AddHeader(c: byte, step: Step): Scan {
      Scan(st.(header := st.header + [c], step := step), cursor)
    }

    function AddBody(c: byte, step: Step): Scan {
      Scan(st.(body := st.body + [c], step := step), cursor)
    }

    function EmitHeader(): Scan {
      Scan(State(Body, [], st.body, st.events + [FoundHeader(st.header)]), cursor)
    }

    /** The trailing CRLF of the body and the empty line are cut off; clear_from refuses a position past the end. */
    function EmitBody(): Scan {
      var found := if |st.body| >= 4 then st.body[..|st.body| - 4] else st.body;
      Scan(State(Ready, st.header, [], st.events + [FoundBody(found)]), cursor)
    }
  }

  ghost predicate ValidScan(boundary: seq<byte>, s: Scan) {
    s.st.step == CheckBoundary ==> s.cursor < |boundary|
  }

  predicate InBody(step: Step) {
    step.Body? || step.BodyCR? || step.BodyEndline? || step.BodyEndlineCR?
  }

  predicate InHeader(step: Step) {
    step.ContentStart? || step.Header? || step.HeaderCR? || step.ContentEmptyCR?
  }

  predicate InContent(step: Step) {
    InHeader(step) || InBody(step)
  }

  /** One turn of the loop of multipart_parser_parse. */
  function Consume(boundary: seq<byte>, s: Scan, c: byte): (r: Scan)
    requires |boundary| > 0 && ValidScan(boundary, s)
    ensures ValidScan(boundary, r)
  {
    match s.st.step
    case Ready => if c == HYPHEN then s.Go(StartHyphen) else s
    case StartHyphen => if c == HYPHEN then s.Go(CheckBoundary).(cursor := 0) else s.Go(Ready)
    case CheckBoundary =>
      if c != boundary[s.cursor] then s.Go(Ready)
      else if s.cursor < |boundary| - 1 then s.(cursor := s.cursor + 1)
      else s.Go(EndBoundary)
    case EndBoundary => if c == CR then s.Go(EndCR) else if c == HYPHEN then s.Go(EndHyphen) else s
    case EndHyphen => if c == HYPHEN then s.Go(EndHyphen2) else s.Go(Ready)
    case EndHyphen2 => if c == CR then s.Go(EndHyphen2CR) else s.Go(Ready)
    case EndHyphen2CR => if c == LF then s.Go(Finish) else s.Go(Ready)
    case EndCR => if c == LF then s.Go(ContentStart) else s.Go(Ready)
    case ContentStart => if c != CR then s.AddHeader(c, Header) else s.Go(ContentEmptyCR)
    case Header => s.AddHeader(c, if c == CR then HeaderCR else Header)
    case HeaderCR => s.AddHeader(c, if c == LF then ContentStart else Header)
    case ContentEmptyCR => if c != LF then s.AddHeader(c, ContentStart).EmitHeader() else s.EmitHeader()
    case Body => s.AddBody(c, if c == CR then BodyCR else Body)
    case BodyCR => s.AddBody(c, if c == LF then BodyEndline else if c == CR then BodyCR else Body)
    case BodyEndline => s.AddBody(c, if c == CR then BodyEndlineCR else Body)
    case BodyEndlineCR => if c != LF then s.AddBody(c, Body) else s.AddBody(c, Ready).EmitBody()
    case Finish => s
  }

  function Feed(boundary: seq<byte>, s: Scan, bytes: seq<byte>): (r: Scan)
    requires |boundary| > 0 && ValidScan(boundary, s)
    ensures ValidScan(boundary, r)
    decreases |bytes|
  {
    if bytes == [] then s else Feed(boundary, Consume(boundary, s, bytes[0]), bytes[1..])
  }

  /** One call of multipart_parser_parse: the cursor starts at the front of the boundary. */
  function Parse(boundary: seq<byte>, st: State, chunk: seq<byte>): State
    requires |boundary| > 0
  {
    Feed(boundary, Scan(st, 0), chunk).st
  }

  /** While no boundary is set any other one does as well, as long as the boundary is not looked at. */
  function OrAny(boundary: seq<byte>): (b: seq<byte>)
    ensures |b| > 0
  {
    if boundary == [] then [NUL] else boundary
  }

  /** No byte is compared with the boundary. */
  predicate NeverLooks(s: Scan, bytes: seq<byte>)
    requires ValidScan([NUL], s)
    decreases |bytes|
  {
    bytes != [] ==> !s.st.step.CheckBoundary? && NeverLooks(Consume([NUL], s, bytes[0]), bytes[1..])
  }

  lemma {:induction false} FeedAppend(boundary: seq<byte>, s: Scan, a: seq<byte>, b: seq<byte>)
    requires |boundary| > 0 && ValidScan(boundary, s)
    ensures Feed(boundary, s, a + b) == Feed(boundary, Feed(boundary, s, a), b)
    decreases |a|
  {
    if a == [] {
      assert a + b == b;
    } else {
      assert (a + b)[1..] == a[1..] + b;
      FeedAppend(boundary, Consume(boundary, s, a[0]), a[1..], b);
    }
  }

  lemma FeedVia(boundary: seq<byte>, s: Scan, a: seq<byte>, mid: Scan, b: seq<byte>)
    requires |boundary| > 0 && ValidScan(boundary, s) && mid == Feed(boundary, s, a)
    ensures Feed(boundary, s, a + b) == Feed(boundary, mid, b)
  {
    FeedAppend(boundary, s, a, b);
  }

  lemma {:induction false} FeedOne(boundary: seq<byte>, s: Scan, c: byte)
    requires |boundary| > 0 && ValidScan(boundary, s)
    ensures Feed(boundary, s, [c]) == Consume(boundary, s, c)
  {
    assert Feed(boundary, Consume(boundary, s, c), []) == Consume(boundary, s, c);
  }

  lemma ContentIgnoresCursor(boundary: seq<byte>, s: Scan, c: byte)
    requires |boundary| > 0 && ValidScan(boundary, s)
    ensures InContent(s.st.step) ==> Consume(boundary, s, c) == Scan(Consume(boundary, Scan(s.st, 0), c).st, s.cursor)
  {
  }

  /** Once the closing delimiter is read every later byte is ignored, in this call and in the next ones. */
  lemma {:induction false} FinishIsFinal(boundary: seq<byte>, s: Scan, bytes: seq<byte>)
    requires |boundary| > 0 && s.st.step == Finish
    ensures Feed(boundary, s, bytes) == s
  {
    if bytes != [] {
      FinishIsFinal(boundary, s, bytes[1..]);
    }
  }

  /** Callbacks already made are never taken back. */
  lemma {:induction false} EventsGrow(boundary: seq<byte>, s: Scan, bytes: seq<byte>)
    requires |boundary| > 0 && ValidScan(boundary, s)
    ensures s.st.events <= Feed(boundary, s, bytes).st.events
    decreases |bytes|
  {
    if bytes != [] {
      EventsGrow(boundary, Consume(boundary, s, bytes[0]), bytes[1..]);
    }
  }

  class MultipartParser {
    const header: Buffer
    const body: Buffer
    var boundary: seq<byte>
    var step: Step
    var events: seq<Event>

    ghost predicate Valid()
      reads this, header, header.data, body, body.data
    {
      header != body && header.data != body.data && header.Valid() && body.Valid()
    }

    ghost function View(): State
      reads this, header, header.data, body, body.data
      requires Valid()
    {
      State(step, header.Contents(), body.Contents(), events)
    }

    ghost function Repr(): set<object>
      reads this, header, body
    {
      {this, header, header.data, body, body.data}
    }

    constructor ()
      ensures Valid() && fresh(Repr())
      ensures View() == INITIAL && boundary == []
    {
      header := new Buffer(0);
      body := new Buffer(0);
      step := Ready;
      boundary, events := [], [];
    }

    /** A null or empty boundary leaves the parser without one. */
    method SetBoundary(src: seq<byte>)
      requires Valid()
      modifies this`boundary
      ensures boundary == src
    {
      boundary := src;
    }

    method AddTo(buffer: Buffer, c: byte)
      requires Valid() && (buffer == header || buffer == body)
      modifies buffer, buffer.data
      ensures Valid() && fresh(Repr() - old(Repr()))
      ensures buffer == header ==>
                header.Contents() == old(header.Contents()) + [c] && body.Contents() == old(body.Contents())
      ensures buffer == body ==>
                body.Contents() == old(body.Contents()) + [c] && header.Contents() == old(header.Contents())
    {
      var n := buffer.Add([c]);
    }

    method EmitHeader()
      requires Valid()
      modifies Repr()
      ensures Valid() && fresh(Repr() - old(Repr())) && boundary == old(boundary)
      ensures View() == Scan(old(View()), 0).EmitHeader().st
    {
      var found := header.Peek();
      events := events + [FoundHeader(found)];
      header.Clear();
      step := Body;
    }

    method EmitBody()
      requires Valid()
      modifies Repr()
      ensures Valid() && fresh(Repr() - old(Repr())) && boundary == old(boundary)
      ensures View() == Scan(old(View()), 0).EmitBody().st
    {
      step := Ready;
      if body.index > 0 {
        if body.index >= 4 {
          var ret := body.ClearFrom(body.index - 4);
        }
      }
      var found := body.Peek();
      events := events + [FoundBody(found)];
      body.Clear();
    }

    /** The cases of the switch that read a delimiter line. */
    method ConsumeDelimiter(c: byte, cursor: nat) returns (bPos: nat)
      requires Valid() && ValidScan(OrAny(boundary), Scan(View(), cursor)) && !InContent(step)
      requires boundary != [] || !step.CheckBoundary?
      modifies this`step
      ensures Scan(View(), bPos) == Consume(OrAny(boundary), old(Scan(View(), cursor)), c)
    {
      bPos := cursor;
      match step
      case Ready =>
        if c == HYPHEN {
          step := StartHyphen;
        }
      case StartHyphen =>
        if c == HYPHEN {
          step := CheckBoundary;
          bPos := 0;
        } else {
          step := Ready;
        }
      case CheckBoundary =>
        if c != boundary[bPos] {
          step := Ready;
        } else if bPos < |boundary| - 1 {
          bPos := bPos + 1;
        } else {
          step := EndBoundary;
        }
      case EndBoundary =>
        if c == CR {
          step := EndCR;
        } else if c == HYPHEN {
          step := EndHyphen;
        }
      case EndHyphen => step := if c == HYPHEN then EndHyphen2 else Ready;
      case EndHyphen2 => step := if c == CR then EndHyphen2CR else Ready;
      case EndHyphen2CR => step := if c == LF then Finish else Ready;
      case EndCR => step := if c == LF then ContentStart else Ready;
      case _ =>
    }

    /** The cases that collect the header lines. */
    method ConsumeHeader(c: byte)
      requires Valid() && InHeader(step)
      modifies Repr()
      ensures Valid() && fresh(Repr() - old(Repr())) && boundary == old(boundary)
      ensures View() == Consume(OrAny(old(boundary)), old(Scan(View(), 0)), c).st
    {
      match step
      case ContentStart =>
        if c != CR {
          AddTo(header, c);
          step := Header;
        } else {
          step := ContentEmptyCR;
        }
      case Header =>
        AddTo(header, c);
        if c == CR {
          step := HeaderCR;
        }
      case HeaderCR =>
        AddTo(header, c);
        step := if c == LF then ContentStart else Header;
      case ContentEmptyCR => ConsumeEmptyLine(c);
    }

    method ConsumeEmptyLine(c: byte)
      requires Valid() && step == ContentEmptyCR
      modifies Repr()
      ensures Valid() && fresh(Repr() - old(Repr())) && boundary == old(boundary)
      ensures View() == Consume(OrAny(old(boundary)), old(Scan(View(), 0)), c).st
    {
      if c != LF {
        AddTo(header, c);
        step := ContentStart;
      }
      EmitHeader();
    }

    /** The cases that collect the body. */
    method ConsumeBody(c: byte)
      requires Valid() && InBody(step)
      modifies Repr()
      ensures Valid() && fresh(Repr() - old(Repr())) && boundary == old(boundary)
      ensures View() == Consume(OrAny(old(boundary)), old(Scan(View(), 0)), c).st
    {
      AddTo(body, c);
      match step
      case Body =>
        if c == CR {
          step := BodyCR;
        }
      case BodyCR =>
        if c == LF {
          step := BodyEndline;
        } else if c != CR {
          step := Body;
        }
      case BodyEndline =>
        step := if c == CR then BodyEndlineCR else Body;
      case BodyEndlineCR =>
        if c != LF {
          step := Body;
        } else {
          EmitBody();
        }
    }

    /** One turn of the loop, with the boundary cursor in and out; a boundary to compare with must be there. */
    method ConsumeByte(c: byte, cursor: nat) returns (bPos: nat)
      requires Valid() && ValidScan(OrAny(boundary), Scan(View(), cursor))
      requires boundary != [] || !step.CheckBoundary?
      modifies Repr()
      ensures Valid() && fresh(Repr() - old(Repr())) && boundary == old(boundary)
      ensures Scan(View(), bPos) == Consume(OrAny(old(boundary)), old(Scan(View(), cursor)), c)
    {
      ContentIgnoresCursor(OrAny(boundary), Scan(View(), cursor), c);
      bPos := cursor;
      if InHeader(step) {
        ConsumeHeader(c);
      } else if InBody(step) {
        ConsumeBody(c);
      } else {
        bPos := ConsumeDelimiter(c, cursor);
      }
    }

    /** multipart_parser_parse; while no boundary is set, the bytes must not lead to one. */
    method ParseChunk(src: seq<byte>)
      requires Valid() && (boundary != [] || NeverLooks(Scan(View(), 0), src))
      modifies Repr()
      ensures Valid() && fresh(Repr() - old(Repr())) && boundary == old(boundary)
      ensures View() == Parse(OrAny(old(boundary)), old(View()), src)
    {
      var bPos := 0;
      ghost var start := Scan(View(), 0);
      ghost var known := OrAny(boundary);
      var pos := 0;
      while pos < |src|
        invariant pos <= |src|
        invariant Valid() && fresh(Repr() - old(Repr())) && boundary == old(boundary)
        invariant ValidScan(known, Scan(View(), bPos))
        invariant boundary != [] || NeverLooks(Scan(View(), bPos), src[pos..])
        invariant Feed(known, Scan(View(), bPos), src[pos..]) == Feed(known, start, src)
      {
        assert src[pos..][0] == src[pos] && src[pos..][1..] == src[pos + 1..];
        bPos := ConsumeByte(src[pos], bPos);
        pos := pos + 1;
        if step == Finish {
          FinishIsFinal(known, Scan(View(), bPos), src[pos..]);
          break;
        }
      }
    }
  }
}

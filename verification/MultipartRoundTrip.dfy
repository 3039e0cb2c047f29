/**
 The parser against a printer of multipart messages in the shape it reads: every part is a delimiter line,
 header lines, an empty line, the body and CR LF CR LF; a closing delimiter ends the message. As section 5.1.1 of
 RFC 2046 allows, there may be text in front of a delimiter and padding behind the boundary.
 */
module MultipartRoundTrip {
  import opened Bytes
  import opened MultipartParser
  import opened MultipartChunks
  import opened MultipartBody

  /** `lead` stands in front of the delimiter, `padding` between the boundary and the end of its line. */
  datatype Part = Part(lead: seq<byte>, padding: seq<byte>, lines: seq<seq<byte>>, body: seq<byte>) {
    predicate Printable() {
      && HYPHEN !in lead
      && CR !in padding && HYPHEN !in padding
      && forall i :: 0 <= i < |lines| ==> GoodLine(lines[i])
    }

    function Events(): seq<Event> {
      [FoundHeader(HeaderText(lines)), FoundBody(body)]
    }
  }

  predicate GoodLine(line: seq<byte>) {
    line != [] && CR !in line
  }

  function HeaderText(lines: seq<seq<byte>>): seq<byte> {
    if lines == [] then [] else (lines[0] + [CR, LF]) + HeaderText(lines[1..])
  }

  function Delimiter(boundary: seq<byte>): seq<byte> {
    [HYPHEN, HYPHEN] + boundary
  }

  function PrintHead(boundary: seq<byte>, part: Part): seq<byte> {
    part.lead + (Delimiter(boundary) + (part.padding + ([CR, LF] + (HeaderText(part.lines) + [CR, LF]))))
  }

  function PrintPart(boundary: seq<byte>, part: Part): seq<byte> {
    PrintHead(boundary, part) + (part.body + TERMINATOR)
  }

  function Closing(boundary: seq<byte>): seq<byte> {
    Delimiter(boundary) + ([HYPHEN, HYPHEN] + [CR, LF])
  }

  function Print(boundary: seq<byte>, parts: seq<Part>): seq<byte> {
    if parts == [] then Closing(boundary) else PrintPart(boundary, parts[0]) + Print(boundary, parts[1..])
  }

  function AllEvents(parts: seq<Part>): seq<Event> {
    if parts == [] then [] else parts[0].Events() + AllEvents(parts[1..])
  }

  predicate AllPrintable(parts: seq<Part>) {
    forall i :: 0 <= i < |parts| ==> parts[i].Printable()
  }

  /** The body can be told from its terminator: the first visible CR LF CR LF of the two together is that one. */
  predicate Delimited(body: seq<byte>) {
    FirstEnd(body + TERMINATOR, 0) == Some(|body|)
  }

  predicate AllDelimited(parts: seq<Part>) {
    forall i :: 0 <= i < |parts| ==> Delimited(parts[i].body)
  }

  /** A parser between two parts. */
  predicate Idle(s: Scan) {
    s.st.step == Ready && s.st.header == [] && s.st.body == []
  }

  // Delimiter lines.

  lemma FeedTwo(boundary: seq<byte>, s: Scan, a: byte, b: byte)
    requires |boundary| > 0 && ValidScan(boundary, s)
    ensures Feed(boundary, s, [a, b]) == Consume(boundary, Consume(boundary, s, a), b)
  {
    assert [a, b] == [a] + [b];
    FeedAppend(boundary, s, [a], [b]);
    FeedOne(boundary, s, a);
    FeedOne(boundary, Consume(boundary, s, a), b);
  }

  lemma FeedDelimiter(boundary: seq<byte>, s: Scan)
    requires |boundary| > 0 && s.st.step == Ready
    ensures Feed(boundary, s, Delimiter(boundary)).st == s.st.(step := EndBoundary)
  {
    FeedAppend(boundary, s, [HYPHEN, HYPHEN], boundary);
    FeedTwo(boundary, s, HYPHEN, HYPHEN);
    var mid := Scan(s.st.(step := CheckBoundary), 0);
    assert boundary[0..] == boundary;
    BoundaryCompletes(boundary, mid);
  }

  /** Between the parts anything without a hyphen is skipped. */
  lemma {:induction false} FeedLead(boundary: seq<byte>, s: Scan, bytes: seq<byte>)
    requires |boundary| > 0 && s.st.step == Ready && HYPHEN !in bytes
    ensures Feed(boundary, s, bytes) == s
    decreases |bytes|
  {
    if bytes != [] {
      FeedLead(boundary, s, bytes[1..]);
    }
  }

  /** Behind the boundary anything without a hyphen or CR is. */
  lemma {:induction false} FeedPadding(boundary: seq<byte>, s: Scan, bytes: seq<byte>)
    requires |boundary| > 0 && s.st.step == EndBoundary && CR !in bytes && HYPHEN !in bytes
    ensures Feed(boundary, s, bytes) == s
    decreases |bytes|
  {
    if bytes != [] {
      FeedPadding(boundary, s, bytes[1..]);
    }
  }

  lemma FeedLineBreak(boundary: seq<byte>, s: Scan)
    requires |boundary| > 0 && s.st.step == EndBoundary
    ensures Feed(boundary, s, [CR, LF]).st == s.st.(step := ContentStart)
  {
    FeedTwo(boundary, s, CR, LF);
  }

  lemma FeedClosing(boundary: seq<byte>, s: Scan)
    requires |boundary| > 0 && s.st.step == Ready
    ensures Feed(boundary, s, Closing(boundary)).st == s.st.(step := Finish)
  {
    FeedDelimiter(boundary, s);
    FeedAppend(boundary, s, Delimiter(boundary), [HYPHEN, HYPHEN] + [CR, LF]);
    var mid := Feed(boundary, s, Delimiter(boundary));
    FeedAppend(boundary, mid, [HYPHEN, HYPHEN], [CR, LF]);
    FeedTwo(boundary, mid, HYPHEN, HYPHEN);
    FeedTwo(boundary, Feed(boundary, mid, [HYPHEN, HYPHEN]), CR, LF);
  }

  // Header lines.

  lemma {:induction false} FeedHeaderBytes(boundary: seq<byte>, s: Scan, bytes: seq<byte>)
    requires |boundary| > 0 && s.st.step == Header && CR !in bytes
    ensures Feed(boundary, s, bytes) == Scan(s.st.(header := s.st.header + bytes), s.cursor)
    decreases |bytes|
  {
    if bytes == [] {
      assert s.st.header + bytes == s.st.header;
    } else {
      FeedHeaderBytes(boundary, Consume(boundary, s, bytes[0]), bytes[1..]);
      assert s.st.header + bytes == (s.st.header + [bytes[0]]) + bytes[1..];
    }
  }

  lemma FeedLineStart(boundary: seq<byte>, s: Scan, line: seq<byte>)
    requires |boundary| > 0 && s.st.step == ContentStart && GoodLine(line)
    ensures Feed(boundary, s, line) == Scan(s.st.(step := Header, header := s.st.header + line), s.cursor)
  {
    var first := Consume(boundary, s, line[0]);
    FeedHeaderBytes(boundary, first, line[1..]);
    assert s.st.header + line == (s.st.header + [line[0]]) + line[1..];
  }

  lemma FeedHeaderLine(boundary: seq<byte>, s: Scan, line: seq<byte>)
    requires |boundary| > 0 && s.st.step == ContentStart && GoodLine(line)
    ensures Feed(boundary, s, line + [CR, LF]) == AddLines(s, line + [CR, LF])
  {
    FeedLineStart(boundary, s, line);
    var mid := Scan(s.st.(step := Header, header := s.st.header + line), s.cursor);
    FeedLineEnd(boundary, mid);
    FeedVia(boundary, s, line, mid, [CR, LF]);
    LineAssoc(s.st.header, line);
  }

  /** The parser with more header text, at the start of a line. */
  function AddLines(s: Scan, text: seq<byte>): Scan {
    Scan(s.st.(header := s.st.header + text), s.cursor)
  }

  lemma LineAssoc(header: seq<byte>, line: seq<byte>)
    ensures ((header + line) + [CR]) + [LF] == header + (line + [CR, LF])
  {
  }

  lemma FeedLineEnd(boundary: seq<byte>, s: Scan)
    requires |boundary| > 0 && s.st.step == Header
    ensures Feed(boundary, s, [CR, LF]) ==
            Scan(s.st.(step := ContentStart, header := (s.st.header + [CR]) + [LF]), s.cursor)
  {
    FeedTwo(boundary, s, CR, LF);
  }

  lemma {:induction false} FeedHeaderText(boundary: seq<byte>, s: Scan, lines: seq<seq<byte>>)
    requires |boundary| > 0 && s.st.step == ContentStart
    requires forall i :: 0 <= i < |lines| ==> GoodLine(lines[i])
    ensures Feed(boundary, s, HeaderText(lines)) == AddLines(s, HeaderText(lines))
    decreases |lines|
  {
    if lines == [] {
      assert s.st.header + [] == s.st.header;
    } else {
      var line := lines[0] + [CR, LF];
      FeedHeaderLine(boundary, s, lines[0]);
      FeedHeaderText(boundary, AddLines(s, line), lines[1..]);
      FeedVia(boundary, s, line, AddLines(s, line), HeaderText(lines[1..]));
      assert s.st.header + (line + HeaderText(lines[1..])) == (s.st.header + line) + HeaderText(lines[1..]);
    }
  }

  lemma FeedHead(boundary: seq<byte>, s: Scan, part: Part)
    requires |boundary| > 0 && Idle(s) && part.Printable()
    ensures Feed(boundary, s, PrintHead(boundary, part)).st
         == State(Body, [], [], s.st.events + [FoundHeader(HeaderText(part.lines))])
  {
    var block := HeaderText(part.lines) + [CR, LF];
    var line := part.padding + ([CR, LF] + block);
    FeedLead(boundary, s, part.lead);
    FeedVia(boundary, s, part.lead, s, Delimiter(boundary) + line);
    FeedDelimiter(boundary, s);
    var s1 := Feed(boundary, s, Delimiter(boundary));
    FeedVia(boundary, s, Delimiter(boundary), s1, line);
    FeedAfterBoundary(boundary, s1, part);
  }

  lemma FeedAfterBoundary(boundary: seq<byte>, s: Scan, part: Part)
    requires |boundary| > 0 && s.st.step == EndBoundary && s.st.header == [] && s.st.body == [] && part.Printable()
    ensures Feed(boundary, s, part.padding + ([CR, LF] + (HeaderText(part.lines) + [CR, LF]))).st
         == State(Body, [], [], s.st.events + [FoundHeader(HeaderText(part.lines))])
  {
    var block := HeaderText(part.lines) + [CR, LF];
    FeedPadding(boundary, s, part.padding);
    FeedVia(boundary, s, part.padding, s, [CR, LF] + block);
    FeedLineBreak(boundary, s);
    var s2 := Feed(boundary, s, [CR, LF]);
    FeedVia(boundary, s, [CR, LF], s2, block);
    FeedHeaderBlock(boundary, s2, part.lines);
  }

  lemma FeedHeaderBlock(boundary: seq<byte>, s: Scan, lines: seq<seq<byte>>)
    requires |boundary| > 0 && s.st.step == ContentStart && s.st.header == [] && s.st.body == []
    requires forall i :: 0 <= i < |lines| ==> GoodLine(lines[i])
    ensures Feed(boundary, s, HeaderText(lines) + [CR, LF]).st
         == State(Body, [], [], s.st.events + [FoundHeader(HeaderText(lines))])
  {
    FeedHeaderText(boundary, s, lines);
    FeedVia(boundary, s, HeaderText(lines), AddLines(s, HeaderText(lines)), [CR, LF]);
    FeedEmptyLine(boundary, AddLines(s, HeaderText(lines)));
    assert [] + HeaderText(lines) == HeaderText(lines);
  }

  lemma FeedEmptyLine(boundary: seq<byte>, s: Scan)
    requires |boundary| > 0 && s.st.step == ContentStart
    ensures Feed(boundary, s, [CR, LF]).st == State(Body, [], s.st.body, s.st.events + [FoundHeader(s.st.header)])
  {
    FeedTwo(boundary, s, CR, LF);
  }

  // Bodies.

  lemma {:induction false} VisibleIsLocal(a: seq<byte>, b: seq<byte>, i: nat)
    requires i <= |a|
    ensures Visible(a + b, i) == Visible(a, i)
  {
    if i >= 3 {
      VisibleIsLocal(a, b, i - 3);
    }
  }

  /** What follows the terminator does not matter for finding it. */
  lemma DelimitedIsLocal(body: seq<byte>, rest: seq<byte>)
    ensures Delimited(body) <==> FirstEnd((body + TERMINATOR) + rest, 0) == Some(|body|)
  {
    var text := body + TERMINATOR;
    forall i: nat | i + 4 <= |text|
      ensures EndsAt(text + rest, i) == EndsAt(text, i)
    {
      VisibleIsLocal(text, rest, i);
    }
    var n := |body|;
    assert EndsAt(text, n) == EndsAt(text + rest, n);
  }

  /** One part: the parser reports its head, and its body exactly when that is delimited. */
  lemma FeedPart(boundary: seq<byte>, s: Scan, part: Part, rest: seq<byte>) returns (next: Scan)
    requires |boundary| > 0 && Idle(s) && part.Printable() && Delimited(part.body)
    ensures next.st == State(Ready, [], [], s.st.events + part.Events())
    ensures Feed(boundary, s, PrintPart(boundary, part) + rest) == Feed(boundary, next, rest)
  {
    var head := PrintHead(boundary, part);
    var text := (part.body + TERMINATOR) + rest;
    assert PrintPart(boundary, part) + rest == head + text;
    FeedAppend(boundary, s, head, text);
    FeedHead(boundary, s, part);
    var mid := Feed(boundary, s, head);
    DelimitedIsLocal(part.body, rest);
    BodySearch(boundary, mid, text);
    next := Reported(mid, text[..|part.body|]);
    assert text[..|part.body|] == part.body && text[|part.body| + 4..] == rest;
    assert (s.st.events + [FoundHeader(HeaderText(part.lines))]) + [FoundBody(part.body)] ==
           s.st.events + part.Events();
  }

  lemma MisreadPart(boundary: seq<byte>, s: Scan, part: Part, rest: seq<byte>)
    requires |boundary| > 0 && Idle(s) && part.Printable() && !Delimited(part.body)
    ensures !(s.st.events + part.Events() <= Feed(boundary, s, PrintPart(boundary, part) + rest).st.events)
  {
    var head := PrintHead(boundary, part);
    var text := (part.body + TERMINATOR) + rest;
    assert PrintPart(boundary, part) + rest == head + text;
    FeedAppend(boundary, s, head, text);
    FeedHead(boundary, s, part);
    var mid := Feed(boundary, s, head);
    DelimitedIsLocal(part.body, rest);
    BodySearch(boundary, mid, text);
    var want := s.st.events + part.Events();
    match FirstEnd(text, 0)
    case None => assert |Feed(boundary, mid, text).st.events| < |want|;
    case Some(i) =>
      var next := Reported(mid, text[..i]);
      EventsGrow(boundary, next, text[i + 4..]);
      var at := |s.st.events| + 1;
      assert next.st.events[at] == FoundBody(text[..i]) && |text[..i]| != |part.body|;
      assert want[at] == FoundBody(part.body);
  }

  // Messages.

  lemma {:induction false} FeedMessage(boundary: seq<byte>, s: Scan, parts: seq<Part>, tail: seq<byte>)
    requires |boundary| > 0 && Idle(s) && AllPrintable(parts) && AllDelimited(parts)
    ensures Feed(boundary, s, Print(boundary, parts) + tail).st
         == State(Finish, [], [], s.st.events + AllEvents(parts))
    decreases |parts|
  {
    if parts == [] {
      FeedAppend(boundary, s, Closing(boundary), tail);
      FeedClosing(boundary, s);
      FinishIsFinal(boundary, Feed(boundary, s, Closing(boundary)), tail);
      assert s.st.events + [] == s.st.events;
    } else {
      var rest := Print(boundary, parts[1..]) + tail;
      Assoc(PrintPart(boundary, parts[0]), Print(boundary, parts[1..]), tail);
      var next := FeedPart(boundary, s, parts[0], rest);
      FeedMessage(boundary, next, parts[1..], tail);
      Assoc(s.st.events, parts[0].Events(), AllEvents(parts[1..]));
    }
  }

  lemma {:induction false} MisreadMessage(boundary: seq<byte>, s: Scan, parts: seq<Part>, tail: seq<byte>)
    requires |boundary| > 0 && Idle(s) && AllPrintable(parts) && !AllDelimited(parts)
    ensures Feed(boundary, s, Print(boundary, parts) + tail).st.events != s.st.events + AllEvents(parts)
    decreases |parts|
  {
    var rest := Print(boundary, parts[1..]) + tail;
    assert Print(boundary, parts) + tail == PrintPart(boundary, parts[0]) + rest;
    assert s.st.events + AllEvents(parts) == (s.st.events + parts[0].Events()) + AllEvents(parts[1..]);
    if Delimited(parts[0].body) {
      var next := FeedPart(boundary, s, parts[0], rest);
      MisreadMessage(boundary, next, parts[1..], tail);
    } else {
      MisreadPart(boundary, s, parts[0], rest);
    }
  }

  /**
   Round trip: a printed message, with any bytes behind it, is reported part by part and leaves the parser
   finished and empty, if and only if every body can be told from its terminator.
   */
  lemma RoundTrip(boundary: seq<byte>, parts: seq<Part>, tail: seq<byte>)
    requires |boundary| > 0 && AllPrintable(parts)
    ensures var end := Parse(boundary, INITIAL, Print(boundary, parts) + tail);
            && (end.events == AllEvents(parts) <==> AllDelimited(parts))
            && (AllDelimited(parts) ==> end == State(Finish, [], [], AllEvents(parts)))
  {
    var s := Scan(INITIAL, 0);
    assert [] + AllEvents(parts) == AllEvents(parts);
    if AllDelimited(parts) {
      FeedMessage(boundary, s, parts, tail);
    } else {
      MisreadMessage(boundary, s, parts, tail);
    }
  }

  /** The same message in any chunks that do not cut through a boundary. */
  lemma RoundTripInChunks(boundary: seq<byte>, parts: seq<Part>, tail: seq<byte>, chunks: seq<seq<byte>>)
    requires |boundary| > 0 && AllPrintable(parts) && AllDelimited(parts)
    requires Flatten(chunks) == Print(boundary, parts) + tail && SafeCuts(boundary, INITIAL, chunks)
    ensures ParseAll(boundary, INITIAL, chunks) == State(Finish, [], [], AllEvents(parts))
  {
    SafeCutsAgree(boundary, INITIAL, chunks);
    RoundTrip(boundary, parts, tail);
  }

  /** A sufficient condition in plain substrings. */
  lemma PlainBodyDelimited(body: seq<byte>)
    requires forall j :: !CrLfCrCr(body + TERMINATOR, j)
    requires forall j: nat :: j < |body| ==> !CrLfCrLf(body + TERMINATOR, j)
    ensures Delimited(body)
  {
    var text := body + TERMINATOR;
    FirstEndIsFirstSubstring(text);
    assert CrLfCrLf(text, |body|);
  }
}

/**
 The body states as a substring search. A body ends at CR LF CR LF, but the four states of memory cannot
 tell CR LF CR followed by CR from a fresh start: the second CR is swallowed. Visible says exactly which
 positions the automaton still sees as a possible start, and BodySearch that a body ends at the first
 visible CR LF CR LF.
 */
module MultipartBody {
  import opened Bytes
  import opened MultipartParser

  const TERMINATOR: seq<byte> := [CR, LF, CR, LF]

  predicate CrLf(text: seq<byte>, i: int) {
    0 <= i && i + 2 <= |text| && text[i] == CR && text[i + 1] == LF
  }

  predicate CrLfCr(text: seq<byte>, i: int) {
    CrLf(text, i) && i + 3 <= |text| && text[i + 2] == CR
  }

  predicate CrLfCrLf(text: seq<byte>, i: int) {
    CrLf(text, i) && CrLf(text, i + 2)
  }

  predicate CrLfCrCr(text: seq<byte>, i: int) {
    CrLfCr(text, i) && i + 4 <= |text| && text[i + 3] == CR
  }

  /** Position i is not the byte swallowed right after a CR LF CR that was itself seen. */
  predicate Visible(text: seq<byte>, i: nat) {
    !(i >= 3 && CrLfCr(text, i - 3) && Visible(text, i - 3))
  }

  predicate EndsAt(text: seq<byte>, i: nat) {
    CrLfCrLf(text, i) && Visible(text, i)
  }

  /** The first position from `from` on at which a body ends. */
  function FirstEnd(text: seq<byte>, from: nat): (end: Option<nat>)
    requires from <= |text|
    ensures end.Some? ==> from <= end.value && EndsAt(text, end.value)
    ensures forall i: nat :: from <= i && (end.Some? ==> i < end.value) ==> !EndsAt(text, i)
    decreases |text| - from
  {
    if EndsAt(text, from) then Some(from)
    else if from == |text| then None
    else FirstEnd(text, from + 1)
  }

  /** The body step after the first n bytes of the text. */
  function StepAfter(text: seq<byte>, n: nat): Step
    requires n <= |text|
  {
    if n >= 3 && CrLfCr(text, n - 3) && Visible(text, n - 3) then BodyEndlineCR
    else if n >= 2 && CrLf(text, n - 2) && Visible(text, n - 2) then BodyEndline
    else if n >= 1 && text[n - 1] == CR && Visible(text, n - 1) then BodyCR
    else Body
  }

  /** The transitions of the body states, the one that ends a body left out. */
  function NextStep(step: Step, c: byte): Step {
    if c == CR && step == BodyEndline then BodyEndlineCR
    else if c == CR && step != BodyEndlineCR then BodyCR
    else if c == LF && step == BodyCR then BodyEndline
    else Body
  }

  ghost predicate NoEndBefore(text: seq<byte>, n: int) {
    forall i: nat :: i + 4 <= n ==> !EndsAt(text, i)
  }

  function After(s: Scan, text: seq<byte>, n: nat): Scan
    requires n <= |text|
  {
    Scan(s.st.(step := StepAfter(text, n), body := s.st.body + text[..n]), s.cursor)
  }

  lemma StepAfterNext(text: seq<byte>, n: nat)
    requires 1 <= n <= |text| && NoEndBefore(text, n)
    ensures !(StepAfter(text, n - 1) == BodyEndlineCR && text[n - 1] == LF)
    ensures StepAfter(text, n) == NextStep(StepAfter(text, n - 1), text[n - 1])
  {
    if n >= 4 {
      assert !EndsAt(text, n - 4);
    }
  }

  lemma ConsumeInBody(boundary: seq<byte>, s: Scan, c: byte)
    requires |boundary| > 0 && InBody(s.st.step)
    requires !(s.st.step == BodyEndlineCR && c == LF)
    ensures Consume(boundary, s, c) == Scan(s.st.(step := NextStep(s.st.step, c), body := s.st.body + [c]), s.cursor)
  {
  }

  /** While no end has been passed, the step is a function of the last three bytes and of what is visible. */
  lemma {:induction false} BodySteps(boundary: seq<byte>, s: Scan, text: seq<byte>, n: nat)
    requires |boundary| > 0 && s.st.step == Body && n <= |text| && NoEndBefore(text, n)
    ensures Feed(boundary, s, text[..n]) == After(s, text, n)
  {
    if n == 0 {
      assert s.st.body + text[..0] == s.st.body;
    } else {
      BodySteps(boundary, s, text, n - 1);
      var c := text[n - 1];
      var mid := After(s, text, n - 1);
      assert text[..n] == text[..n - 1] + [c];
      assert mid.st.body + [c] == s.st.body + text[..n];
      FeedAppend(boundary, s, text[..n - 1], [c]);
      FeedOne(boundary, mid, c);
      StepAfterNext(text, n);
      ConsumeInBody(boundary, mid, c);
    }
  }

  /**
   Feeding any bytes to a parser that has just reported a header: the body reported is everything up to the
   first visible CR LF CR LF, the rest goes on from there; without one nothing is reported and all is kept.
   */
  lemma BodySearch(boundary: seq<byte>, s: Scan, text: seq<byte>)
    requires |boundary| > 0 && s.st.step == Body && s.st.body == []
    ensures match FirstEnd(text, 0)
            case Some(i) => Feed(boundary, s, text) == Feed(boundary, Reported(s, text[..i]), text[i + 4..])
            case None => Feed(boundary, s, text) == After(s, text, |text|)
  {
    match FirstEnd(text, 0)
    case Some(i) => BodyEnds(boundary, s, text, i);
    case None => BodyGoesOn(boundary, s, text);
  }

  /** The parser right after it has reported a body. */
  function Reported(s: Scan, body: seq<byte>): Scan {
    Scan(State(Ready, s.st.header, [], s.st.events + [FoundBody(body)]), s.cursor)
  }

  lemma BodyGoesOn(boundary: seq<byte>, s: Scan, text: seq<byte>)
    requires |boundary| > 0 && s.st.step == Body && NoEndBefore(text, |text|)
    ensures Feed(boundary, s, text) == After(s, text, |text|)
  {
    BodySteps(boundary, s, text, |text|);
    assert text[..|text|] == text;
  }

  lemma BodyEnds(boundary: seq<byte>, s: Scan, text: seq<byte>, i: nat)
    requires |boundary| > 0 && s.st.step == Body && s.st.body == []
    requires EndsAt(text, i) && forall j: nat :: j < i ==> !EndsAt(text, j)
    ensures Feed(boundary, s, text) == Feed(boundary, Reported(s, text[..i]), text[i + 4..])
  {
    BodyEndsHere(boundary, s, text, i);
    FeedVia(boundary, s, text[..i + 4], Reported(s, text[..i]), text[i + 4..]);
    CutAndJoin(text, i + 4);
  }

  lemma CutAndJoin(text: seq<byte>, n: nat)
    requires n <= |text|
    ensures text[..n] + text[n..] == text
  {
  }

  lemma BodyEndsHere(boundary: seq<byte>, s: Scan, text: seq<byte>, i: nat)
    requires |boundary| > 0 && s.st.step == Body && s.st.body == []
    requires EndsAt(text, i) && forall j: nat :: j < i ==> !EndsAt(text, j)
    ensures Feed(boundary, s, text[..i + 4]) == Reported(s, text[..i])
  {
    BodySteps(boundary, s, text, i + 3);
    assert text[..i + 4] == text[..i + 3] + [LF];
    FeedAppend(boundary, s, text[..i + 3], [LF]);
    var mid := After(s, text, i + 3);
    assert mid.st.body == text[..i + 3];
    FeedOne(boundary, mid, LF);
    LastByte(boundary, mid, text[..i], text[..i + 3]);
  }

  lemma LastByte(boundary: seq<byte>, s: Scan, body: seq<byte>, text: seq<byte>)
    requires |boundary| > 0 && s.st.step == BodyEndlineCR && s.st.body == text
    requires |text| == |body| + 3 && body <= text
    ensures Consume(boundary, s, LF) == Reported(s, body)
  {
    assert (text + [LF])[..|body|] == body;
  }

  /** Without CR LF CR CR every position is visible, so the search is the plain substring search. */
  lemma FirstEndIsFirstSubstring(text: seq<byte>)
    requires forall j :: !CrLfCrCr(text, j)
    ensures match FirstEnd(text, 0)
            case Some(i) => CrLfCrLf(text, i) && forall j: nat :: j < i ==> !CrLfCrLf(text, j)
            case None => forall j: nat :: !CrLfCrLf(text, j)
  {
    forall j: nat | CrLfCrLf(text, j)
      ensures EndsAt(text, j)
    {
      assert !CrLfCrCr(text, j - 3);
    }
  }

  /** A terminator that the automaton misses: it stands right behind a CR LF CR. */
  lemma MissedTerminator()
    ensures var text := [CR, LF, CR] + TERMINATOR;
            CrLfCrLf(text, 3) && FirstEnd(text, 0) == None
  {
    var text := [CR, LF, CR] + TERMINATOR;
    assert CrLfCr(text, 0) && Visible(text, 0) && !Visible(text, 3);
  }

  // Reachable states.

  ghost predicate EndsWith(text: seq<byte>, pattern: seq<byte>) {
    |text| >= |pattern| && text[|text| - |pattern|..] == pattern
  }

  /** The last bytes that a body step stands for. */
  function Remembered(step: Step): seq<byte> {
    match step
    case BodyCR => [CR]
    case BodyEndline => [CR, LF]
    case BodyEndlineCR => [CR, LF, CR]
    case _ => []
  }

  /** What the steps say about the buffers in every state the parser can reach. */
  ghost predicate Reachable(st: State) {
    && EndsWith(st.body, Remembered(st.step))
    && (!InBody(st.step) ==> st.body == [])
    && (!InHeader(st.step) ==> st.header == [])
  }

  /**
   One byte, from any reachable state: reachability is kept, and a body is reported only when the bytes collected
   since the header are that body followed by CR LF CR LF, so the length taken off never exceeds what is there.
   */
  lemma ConsumeReachable(boundary: seq<byte>, s: Scan, c: byte)
    requires |boundary| > 0 && ValidScan(boundary, s) && Reachable(s.st)
    ensures var next := Consume(boundary, s, c).st;
            && Reachable(next)
            && (|next.events| > |s.st.events| && next.events[|s.st.events|].FoundBody? ==>
                  s.st.body + [c] == next.events[|s.st.events|].data + TERMINATOR)
  {
    if !InBody(s.st.step) {
      OutsideBody(boundary, s, c);
    } else if s.st.step == BodyEndlineCR && c == LF {
      EndOfBody(boundary, s);
    } else {
      ConsumeInBody(boundary, s, c);
      StepRemembers(s.st.step, s.st.body, c);
    }
  }

  lemma OutsideBody(boundary: seq<byte>, s: Scan, c: byte)
    requires |boundary| > 0 && ValidScan(boundary, s) && Reachable(s.st) && !InBody(s.st.step)
    ensures var next := Consume(boundary, s, c).st;
            && Reachable(next)
            && (|next.events| > |s.st.events| ==> next.events[|s.st.events|].FoundHeader?)
  {
    OutsideBodyBuffers(boundary, s, c);
    OutsideBodyEvents(boundary, s, c);
  }

  lemma OutsideBodyBuffers(boundary: seq<byte>, s: Scan, c: byte)
    requires |boundary| > 0 && ValidScan(boundary, s) && !InBody(s.st.step)
    ensures var next := Consume(boundary, s, c).st;
            && next.body == s.st.body
            && Remembered(next.step) == []
            && (!InHeader(next.step) ==> next.header == [] || (next.header == s.st.header && !InHeader(s.st.step)))
            && (InBody(next.step) ==> s.st.step == ContentEmptyCR)
  {
  }

  lemma OutsideBodyEvents(boundary: seq<byte>, s: Scan, c: byte)
    requires |boundary| > 0 && ValidScan(boundary, s) && !InBody(s.st.step)
    ensures var next := Consume(boundary, s, c).st;
            |next.events| > |s.st.events| ==> next.events[|s.st.events|].FoundHeader?
  {
  }

  lemma StepRemembers(step: Step, body: seq<byte>, c: byte)
    requires EndsWith(body, Remembered(step))
    ensures EndsWith(body + [c], Remembered(NextStep(step, c)))
  {
    SnocEndsWith(body, c, Remembered(step));
    SnocEndsWith(body, c, []);
    assert Remembered(step) + [c] == Remembered(NextStep(step, c))
        || [] + [c] == Remembered(NextStep(step, c)) || Remembered(NextStep(step, c)) == [];
  }

  lemma EndOfBody(boundary: seq<byte>, s: Scan)
    requires |boundary| > 0 && s.st.step == BodyEndlineCR && EndsWith(s.st.body, [CR, LF, CR])
    ensures var body := s.st.body[..|s.st.body| - 3];
            Consume(boundary, s, LF) == Reported(s, body) && s.st.body + [LF] == body + TERMINATOR
  {
    LastByte(boundary, s, s.st.body[..|s.st.body| - 3], s.st.body);
    assert s.st.body == s.st.body[..|s.st.body| - 3] + [CR, LF, CR];
  }

  lemma SnocEndsWith(text: seq<byte>, c: byte, pattern: seq<byte>)
    ensures EndsWith(text, pattern) ==> EndsWith(text + [c], pattern + [c])
  {
    if EndsWith(text, pattern) {
      assert (text + [c])[|text| - |pattern|..] == text[|text| - |pattern|..] + [c];
    }
  }

  lemma {:induction false} FeedReachable(boundary: seq<byte>, s: Scan, bytes: seq<byte>)
    requires |boundary| > 0 && ValidScan(boundary, s) && Reachable(s.st)
    ensures Reachable(Feed(boundary, s, bytes).st)
    decreases |bytes|
  {
    if bytes != [] {
      ConsumeReachable(boundary, s, bytes[0]);
      FeedReachable(boundary, Consume(boundary, s, bytes[0]), bytes[1..]);
    }
  }
}

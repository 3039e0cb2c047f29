/**
 How a delimiter and a header block are read, for any bytes at all: a reference reader that looks ahead and jumps, and
 the byte automaton against it. The octets are written out: 45 is a hyphen, 13 and 10 are a line break.
 */
module MultipartHead {
  import opened Bytes
  import opened MultipartParser
  import P = MultipartRoundTrip

  /** How many bytes of the word the text begins with. */
  function Matched(word: seq<byte>, text: seq<byte>): (k: nat)
    ensures k <= |word| && k <= |text| && word[..k] == text[..k]
    ensures k < |word| && k < |text| ==> word[k] != text[k]
  {
    if word == [] || text == [] || word[0] != text[0] then 0 else 1 + Matched(word[1..], text[1..])
  }

  function Later(n: nat, at: Option<nat>): Option<nat> {
    match at
    case Some(i) => Some(n + i)
    case None => None
  }

  /**
   The place behind the delimiter. The search goes on behind whatever it has looked at: behind a byte that is no
   hyphen, behind the byte after a single hyphen, and behind the first byte that differs from the boundary.
   */
  function Search(boundary: seq<byte>, text: seq<byte>): (at: Option<nat>)
    ensures at.Some? ==> at.value <= |text|
    decreases |text|
  {
    if text == [] then None
    else if text[0] != 45 then Later(1, Search(boundary, text[1..]))
    else if |text| == 1 then None
    else if text[1] != 45 then Later(2, Search(boundary, text[2..]))
    else
      var k := Matched(boundary, text[2..]);
      if k == |boundary| then Some(2 + k)
      else if 2 + k == |text| then None
      else Later(3 + k, Search(boundary, text[3 + k..]))
  }

  /** Two hyphens and the boundary stand in front of this place. */
  predicate Stands(boundary: seq<byte>, text: seq<byte>, n: nat) {
    2 + |boundary| <= n <= |text| && text[n - 2 - |boundary|..n] == [45, 45] + boundary
  }

  predicate StandsAt(boundary: seq<byte>, text: seq<byte>, at: Option<nat>) {
    at.Some? ==> Stands(boundary, text, at.value)
  }

  lemma StandsOn(boundary: seq<byte>, text: seq<byte>, n: nat, at: Option<nat>)
    requires n <= |text| && StandsAt(boundary, text[n..], at)
    ensures StandsAt(boundary, text, Later(n, at))
  {
    if at.Some? {
      var from := at.value - 2 - |boundary|;
      assert text[n..][from..at.value] == text[n + from..n + at.value];
    }
  }

  lemma StandsHere(boundary: seq<byte>, text: seq<byte>)
    requires |text| >= 2 + |boundary| && text[0] == 45 && text[1] == 45 && text[2..][..|boundary|] == boundary
    ensures Stands(boundary, text, 2 + |boundary|)
  {
    assert text[..2 + |boundary|] == [text[0], text[1]] + text[2..][..|boundary|];
  }

  /** A delimiter is found only where it stands. */
  lemma {:induction false} SearchStands(boundary: seq<byte>, text: seq<byte>)
    ensures StandsAt(boundary, text, Search(boundary, text))
    decreases |text|
  {
    if text != [] && text[0] != 45 {
      SearchStands(boundary, text[1..]);
      StandsOn(boundary, text, 1, Search(boundary, text[1..]));
    } else if |text| > 1 && text[1] != 45 {
      SearchStands(boundary, text[2..]);
      StandsOn(boundary, text, 2, Search(boundary, text[2..]));
    } else if |text| > 1 {
      var k := Matched(boundary, text[2..]);
      if k == |boundary| {
        assert text[2..][..k] == boundary[..k] == boundary;
        StandsHere(boundary, text);
      } else if 2 + k < |text| {
        SearchStands(boundary, text[3 + k..]);
        StandsOn(boundary, text, 3 + k, Search(boundary, text[3 + k..]));
      }
    }
  }

  predicate Looking(step: Step) {
    step.Ready? || step.StartHyphen? || step.CheckBoundary?
  }

  /** Comparing with the boundary, from the cursor on. */
  lemma {:induction false} FeedMatched(boundary: seq<byte>, s: Scan, text: seq<byte>)
    requires |boundary| > 0 && s.st.step == CheckBoundary && s.cursor < |boundary|
    ensures var k := Matched(boundary[s.cursor..], text);
            && (s.cursor + k == |boundary| ==> Feed(boundary, s, text[..k]).st == s.st.(step := EndBoundary))
            && (s.cursor + k < |boundary| && k < |text| ==> Feed(boundary, s, text[..k + 1]).st == s.st.(step := Ready))
            && (s.cursor + k < |boundary| && k == |text| ==> Feed(boundary, s, text).st == s.st)
    decreases |text|
  {
    var word := boundary[s.cursor..];
    if text != [] {
      var next := Consume(boundary, s, text[0]);
      var k := Matched(word, text);
      if text[0] != word[0] {
        assert text[..1] == [text[0]];
        FeedOne(boundary, s, text[0]);
      } else if s.cursor == |boundary| - 1 {
        assert word[1..] == [] && k == 1 && text[..1] == [text[0]];
        FeedOne(boundary, s, text[0]);
      } else {
        assert word[1..] == boundary[next.cursor..];
        FeedMatched(boundary, next, text[1..]);
        assert text[..k][1..] == text[1..][..k - 1];
        if k < |text| {
          assert text[..k + 1][1..] == text[1..][..k];
        }
      }
    }
  }

  /** Feeding a front and what the rest gives. */
  lemma FeedFront(boundary: seq<byte>, s: Scan, text: seq<byte>, n: nat, m: nat)
    requires |boundary| > 0 && ValidScan(boundary, s) && n <= m <= |text|
    ensures Feed(boundary, s, text[..m]) == Feed(boundary, Feed(boundary, s, text[..n]), text[n..][..m - n])
  {
    assert text[..m] == text[..n] + text[n..][..m - n];
    FeedAppend(boundary, s, text[..n], text[n..][..m - n]);
  }

  /** The same from the state in between. */
  lemma FeedCut(boundary: seq<byte>, s: Scan, text: seq<byte>, n: nat, m: nat, mid: Scan)
    requires |boundary| > 0 && ValidScan(boundary, s) && n <= m <= |text| && mid == Feed(boundary, s, text[..n])
    ensures Feed(boundary, s, text[..m]) == Feed(boundary, mid, text[n..][..m - n])
  {
    FeedFront(boundary, s, text, n, m);
  }

  lemma FeedTo(boundary: seq<byte>, s: Scan, text: seq<byte>, n: nat, k: nat, mid: Scan)
    requires |boundary| > 0 && ValidScan(boundary, s) && n + k <= |text| && mid == Feed(boundary, s, text[..n])
    ensures Feed(boundary, s, text[..n + k]) == Feed(boundary, mid, text[n..][..k])
  {
    FeedCut(boundary, s, text, n, n + k, mid);
    assert n + k - n == k;
  }

  lemma FeedAll(boundary: seq<byte>, s: Scan, text: seq<byte>, n: nat, mid: Scan)
    requires |boundary| > 0 && ValidScan(boundary, s) && n <= |text| && mid == Feed(boundary, s, text[..n])
    ensures Feed(boundary, s, text) == Feed(boundary, mid, text[n..])
  {
    assert text == text[..n] + text[n..];
    FeedAppend(boundary, s, text[..n], text[n..]);
  }

  /** The automaton is behind the delimiter at this place, or, with none, still looking for one at the end. */
  ghost predicate FoundAt(boundary: seq<byte>, s: Scan, text: seq<byte>, at: Option<nat>)
    requires |boundary| > 0 && ValidScan(boundary, s)
  {
    match at
    case Some(n) => n <= |text| && Feed(boundary, s, text[..n]).st == s.st.(step := EndBoundary)
    case None =>
      var end := Feed(boundary, s, text).st;
      Looking(end.step) && end == s.st.(step := end.step)
  }

  /** What the search of the rest says of the whole. */
  lemma SearchOn(boundary: seq<byte>, s: Scan, text: seq<byte>, n: nat, mid: Scan, at: Option<nat>)
    requires |boundary| > 0 && s.st.step == Ready && n <= |text|
    requires mid == Feed(boundary, s, text[..n]) && mid.st == s.st && FoundAt(boundary, mid, text[n..], at)
    ensures FoundAt(boundary, s, text, Later(n, at))
  {
    match at
    case None => FeedAll(boundary, s, text, n, mid);
    case Some(i) =>
      FeedTo(boundary, s, text, n, i, mid);
  }

  /** The automaton finds the delimiter exactly where the search does. */
  lemma {:induction false} SearchFinds(boundary: seq<byte>, s: Scan, text: seq<byte>)
    requires |boundary| > 0 && s.st.step == Ready
    ensures FoundAt(boundary, s, text, Search(boundary, text))
    decreases |text|
  {
    if text != [] {
      if text[0] != 45 {
        assert text[..1] == [text[0]];
        FeedOne(boundary, s, text[0]);
        SearchFinds(boundary, s, text[1..]);
        SearchOn(boundary, s, text, 1, s, Search(boundary, text[1..]));
      } else if |text| == 1 {
        assert text == [text[0]];
        FeedOne(boundary, s, text[0]);
      } else if text[1] != 45 {
        assert text[..2] == [text[0], text[1]];
        P.FeedTwo(boundary, s, text[0], text[1]);
        var mid := Feed(boundary, s, text[..2]);
        SearchFinds(boundary, mid, text[2..]);
        SearchOn(boundary, s, text, 2, mid, Search(boundary, text[2..]));
      } else {
        SearchCompares(boundary, s, text);
      }
    }
  }

  /** Behind two hyphens. */
  lemma {:induction false} SearchCompares(boundary: seq<byte>, s: Scan, text: seq<byte>)
    requires |boundary| > 0 && s.st.step == Ready && |text| >= 2 && text[0] == 45 && text[1] == 45
    ensures FoundAt(boundary, s, text, Search(boundary, text))
    decreases |text|, 0
  {
    var k := Matched(boundary, text[2..]);
    assert text[..2] == [text[0], text[1]];
    P.FeedTwo(boundary, s, text[0], text[1]);
    var mid := Feed(boundary, s, text[..2]);
    assert mid == Scan(s.st.(step := CheckBoundary), 0) && boundary[0..] == boundary;
    FeedMatched(boundary, mid, text[2..]);
    if k == |boundary| {
      FeedFront(boundary, s, text, 2, 2 + k);
    } else if 2 + k == |text| {
      FeedFront(boundary, s, text, 2, |text|);
      assert text[2..][..|text| - 2] == text[2..] && text[..|text|] == text;
    } else {
      FeedFront(boundary, s, text, 2, 3 + k);
      assert text[2..][..1 + k] == text[2..][..k + 1];
      var back := Feed(boundary, s, text[..3 + k]);
      SearchFinds(boundary, back, text[3 + k..]);
      SearchOn(boundary, s, text, 3 + k, back, Search(boundary, text[3 + k..]));
    }
  }

  /** It is the first one: no shorter text holds a delimiter. */
  lemma {:induction false} SearchFirst(boundary: seq<byte>, text: seq<byte>, m: nat)
    requires Search(boundary, text).Some? && m < Search(boundary, text).value
    ensures Search(boundary, text[..m]) == None
    decreases |text|
  {
    var front := text[..m];
    if m > 0 {
      if text[0] != 45 {
        assert front[1..] == text[1..][..m - 1];
        SearchFirst(boundary, text[1..], m - 1);
      } else if m > 1 && text[1] != 45 {
        assert front[2..] == text[2..][..m - 2];
        SearchFirst(boundary, text[2..], m - 2);
      } else if m > 1 {
        FirstCompares(boundary, text, m);
      }
    }
  }

  lemma {:induction false} FirstCompares(boundary: seq<byte>, text: seq<byte>, m: nat)
    requires Search(boundary, text).Some? && 1 < m < Search(boundary, text).value
    requires text[0] == 45 && text[1] == 45
    ensures Search(boundary, text[..m]) == None
    decreases |text|, 0
  {
    var front := text[..m];
    var k := Matched(boundary, text[2..]);
    assert front[2..] == text[2..][..m - 2];
    MatchedFront(boundary, text[2..], m - 2);
    if k < |boundary| && 2 + k < m {
      assert front[3 + k..] == text[3 + k..][..m - 3 - k];
      SearchFirst(boundary, text[3 + k..], m - 3 - k);
    }
  }

  lemma {:induction false} MatchedFront(word: seq<byte>, text: seq<byte>, m: nat)
    requires m <= |text|
    ensures Matched(word, text[..m]) == if Matched(word, text) <= m then Matched(word, text) else m
    decreases |word|
  {
    if word != [] && text != [] && m > 0 && word[0] == text[0] {
      assert text[..m][1..] == text[1..][..m - 1];
      MatchedFront(word[1..], text[1..], m - 1);
    }
  }

  // The rest of a delimiter line.

  datatype LineOutcome = LinePending | Opened(n: nat) | Closed(n: nat) | Dropped(n: nat)

  function LaterLine(n: nat, o: LineOutcome): LineOutcome {
    match o
    case LinePending => LinePending
    case Opened(i) => Opened(n + i)
    case Closed(i) => Closed(n + i)
    case Dropped(i) => Dropped(n + i)
  }

  /**
   What the text behind a boundary does: up to the first CR or hyphen it is padding. A line break opens a part, two
   hyphens and a line break close the message, and whatever begins like one of these and is not drops the delimiter.
   */
  function LineRest(text: seq<byte>): (o: LineOutcome)
    ensures o.LinePending? || o.n <= |text|
    decreases |text|
  {
    if text == [] then LinePending
    else if text[0] == 13 then
      if |text| == 1 then LinePending else if text[1] == 10 then Opened(2) else Dropped(2)
    else if text[0] == 45 then
      var k := Matched([45, 13, 10], text[1..]);
      if k == 3 then Closed(4) else if 1 + k == |text| then LinePending else Dropped(2 + k)
    else LaterLine(1, LineRest(text[1..]))
  }

  predicate OnLine(step: Step) {
    step.EndBoundary? || step.EndCR? || step.EndHyphen? || step.EndHyphen2? || step.EndHyphen2CR?
  }

  ghost predicate LineRead(boundary: seq<byte>, s: Scan, text: seq<byte>)
    requires |boundary| > 0 && ValidScan(boundary, s)
  {
    match LineRest(text)
    case Opened(n) => Feed(boundary, s, text[..n]).st == s.st.(step := ContentStart)
    case Closed(n) => Feed(boundary, s, text[..n]).st == s.st.(step := Finish)
    case Dropped(n) => Feed(boundary, s, text[..n]).st == s.st.(step := Ready)
    case LinePending => OnLine(Feed(boundary, s, text).st.step)
  }

  lemma {:induction false} LineIsRead(boundary: seq<byte>, s: Scan, text: seq<byte>)
    requires |boundary| > 0 && s.st.step == EndBoundary
    ensures LineRead(boundary, s, text)
    decreases |text|
  {
    if text != [] {
      assert text[..1] == [text[0]];
      FeedOne(boundary, s, text[0]);
      if text[0] == 13 {
        if |text| == 1 {
          assert text == [text[0]];
        } else {
          assert text[..2] == [text[0], text[1]];
          P.FeedTwo(boundary, s, text[0], text[1]);
        }
      } else if text[0] == 45 {
        CloseIsRead(boundary, s, text);
      } else {
        LineIsRead(boundary, s, text[1..]);
        FeedRest(boundary, s, text, 1);
      }
    }
  }

  /** The front fed, the outcome of the rest is that of the whole. */
  lemma FeedRest(boundary: seq<byte>, s: Scan, text: seq<byte>, n: nat)
    requires |boundary| > 0 && ValidScan(boundary, s) && n <= |text|
    ensures Feed(boundary, s, text) == Feed(boundary, Feed(boundary, s, text[..n]), text[n..])
    ensures forall m: nat :: n <= m <= |text| ==>
              Feed(boundary, s, text[..m]) == Feed(boundary, Feed(boundary, s, text[..n]), text[n..][..m - n])
  {
    assert text == text[..n] + text[n..];
    FeedAppend(boundary, s, text[..n], text[n..]);
    forall m: nat | n <= m <= |text|
      ensures Feed(boundary, s, text[..m]) == Feed(boundary, Feed(boundary, s, text[..n]), text[n..][..m - n])
    {
      FeedFront(boundary, s, text, n, m);
    }
  }

  lemma CloseIsRead(boundary: seq<byte>, s: Scan, text: seq<byte>)
    requires |boundary| > 0 && s.st.step == EndBoundary && text != [] && text[0] == 45
    ensures LineRead(boundary, s, text)
  {
    var s1 := Consume(boundary, s, 45);
    FeedOne(boundary, s, 45);
    assert text[..1] == [45];
    if |text| == 1 {
      assert text == [45];
    } else {
      FeedRest(boundary, s, text, 1);
      CloseSecond(boundary, s1, text[1..]);
    }
  }

  lemma MatchedStep(c: byte, word: seq<byte>, text: seq<byte>)
    ensures Matched([c] + word, text) == if text == [] || text[0] != c then 0 else 1 + Matched(word, text[1..])
  {
    assert ([c] + word)[1..] == word;
  }

  /** How far the text follows hyphen, CR, LF. */
  lemma MatchedThree(text: seq<byte>)
    ensures Matched([45, 13, 10], text) ==
            if text == [] || text[0] != 45 then 0
            else if |text| == 1 || text[1] != 13 then 1
            else if |text| == 2 || text[2] != 10 then 2
            else 3
  {
    assert [45, 13, 10] == [45] + ([13] + ([10] + []));
    MatchedStep(45, [13] + ([10] + []), text);
    if text != [] {
      MatchedStep(13, [10] + [], text[1..]);
      if |text| > 1 {
        MatchedStep(10, [], text[1..][1..]);
      }
    }
  }

  /** Behind the first hyphen. */
  lemma CloseSecond(boundary: seq<byte>, s: Scan, text: seq<byte>)
    requires |boundary| > 0 && s.st.step == EndHyphen && text != []
    ensures var k := Matched([45, 13, 10], text);
            && (k == 3 ==> Feed(boundary, s, text[..3]).st == s.st.(step := Finish))
            && (k < 3 && k < |text| ==> Feed(boundary, s, text[..k + 1]).st == s.st.(step := Ready))
            && (k < 3 && k == |text| ==> OnLine(Feed(boundary, s, text).st.step))
  {
    MatchedThree(text);
    FeedOne(boundary, s, text[0]);
    assert text[..1] == [text[0]];
    if |text| >= 2 {
      P.FeedTwo(boundary, s, text[0], text[1]);
      assert text[..2] == [text[0], text[1]];
    } else {
      assert text == [text[0]];
    }
    if |text| >= 3 {
      assert text[..3] == text[..2] + [text[2]];
      FeedAppend(boundary, s, text[..2], [text[2]]);
      FeedOne(boundary, Feed(boundary, s, text[..2]), text[2]);
    } else if |text| == 2 {
      assert text == text[..2];
    }
  }

  // The header block.

  datatype HeadOutcome = HeadPending | HeadDone(n: nat, header: seq<byte>)

  function LaterHead(front: seq<byte>, o: HeadOutcome): HeadOutcome {
    match o
    case HeadPending => HeadPending
    case HeadDone(n, header) => HeadDone(|front| + n, front + header)
  }

  /**
   A header block, from the start of a line or from within one. A CR at the start of a line ends it, together with the
   byte that follows, which belongs to the header unless it is LF. Within a line CR LF ends the line, and a CR takes
   whatever else follows it along.
   */
  function HeadRest(atStart: bool, text: seq<byte>): (o: HeadOutcome)
    ensures o.HeadDone? ==> o.n <= |text|
    decreases |text|
  {
    if text == [] then HeadPending
    else if text[0] != 13 then LaterHead(text[..1], HeadRest(false, text[1..]))
    else if |text| == 1 then HeadPending
    else if atStart then HeadDone(2, if text[1] == 10 then [] else [text[1]])
    else LaterHead(text[..2], HeadRest(text[1] == 10, text[2..]))
  }

  /** The automaton has reported the header block at this place, or, with none, is still collecting it at the end. */
  ghost predicate HeadAt(boundary: seq<byte>, s: Scan, text: seq<byte>, o: HeadOutcome)
    requires |boundary| > 0 && (s.st.step == ContentStart || s.st.step == Header)
  {
    match o
    case HeadDone(n, header) =>
      n <= |text| &&
      Feed(boundary, s, text[..n]).st == State(Body, [], s.st.body, s.st.events + [FoundHeader(s.st.header + header)])
    case HeadPending =>
      InHeader(Feed(boundary, s, text).st.step) && Feed(boundary, s, text).st.events == s.st.events
  }

  /** The automaton reads a header block exactly as the reference does. */
  lemma {:induction false} HeadIsRead(boundary: seq<byte>, s: Scan, text: seq<byte>)
    requires |boundary| > 0 && (s.st.step == ContentStart || s.st.step == Header)
    ensures HeadAt(boundary, s, text, HeadRest(s.st.step == ContentStart, text))
    decreases |text|
  {
    if text != [] {
      assert text[..1] == [text[0]];
      FeedOne(boundary, s, text[0]);
      if text[0] != 13 {
        var mid := Feed(boundary, s, text[..1]);
        HeadIsRead(boundary, mid, text[1..]);
        HeadOn(boundary, s, text, 1, mid, HeadRest(false, text[1..]));
      } else if |text| == 1 {
        assert text == [text[0]];
      } else {
        assert text[..2] == [text[0], text[1]];
        P.FeedTwo(boundary, s, text[0], text[1]);
        if s.st.step == Header {
          assert (s.st.header + [13]) + [text[1]] == s.st.header + text[..2];
          var mid := Feed(boundary, s, text[..2]);
          HeadIsRead(boundary, mid, text[2..]);
          HeadOn(boundary, s, text, 2, mid, HeadRest(text[1] == 10, text[2..]));
        } else {
          assert s.st.header + [] == s.st.header;
        }
      }
    }
  }

  lemma HeadOn(boundary: seq<byte>, s: Scan, text: seq<byte>, n: nat, mid: Scan, o: HeadOutcome)
    requires |boundary| > 0 && (s.st.step == ContentStart || s.st.step == Header) && n <= |text|
    requires mid == Feed(boundary, s, text[..n]) && (mid.st.step == ContentStart || mid.st.step == Header)
    requires mid.st == s.st.(step := mid.st.step, header := s.st.header + text[..n])
    requires HeadAt(boundary, mid, text[n..], o)
    ensures HeadAt(boundary, s, text, LaterHead(text[..n], o))
  {
    match o
    case HeadPending => FeedAll(boundary, s, text, n, mid);
    case HeadDone(k, header) =>
      FeedTo(boundary, s, text, n, k, mid);
      SameReport(s.st, mid.st, text[..n], header);
  }

  lemma SameReport(st: State, mid: State, front: seq<byte>, header: seq<byte>)
    requires mid == st.(step := mid.step, header := st.header + front)
    ensures State(Body, [], mid.body, mid.events + [FoundHeader(mid.header + header)]) ==
            State(Body, [], st.body, st.events + [FoundHeader(st.header + (front + header))])
  {
    Assoc(st.header, front, header);
  }
}

/**
 Chunking independence. The network hands the stream over in arbitrary chunks; the boundary cursor is a
 local of one parse call, so a cut inside a partly matched boundary changes the outcome and no other cut does.
 */
module MultipartChunks {
  import opened Bytes
  import opened MultipartParser

  function ParseAll(boundary: seq<byte>, st: State, chunks: seq<seq<byte>>): State
    requires |boundary| > 0
    decreases |chunks|
  {
    if chunks == [] then st else ParseAll(boundary, Parse(boundary, st, chunks[0]), chunks[1..])
  }

  /** No byte of these chunks is compared with the boundary. */
  predicate NeverLooksAll(st: State, chunks: seq<seq<byte>>)
    decreases |chunks|
  {
    chunks != [] ==> NeverLooks(Scan(st, 0), chunks[0]) && NeverLooksAll(Parse([NUL], st, chunks[0]), chunks[1..])
  }

  /** Some, but not all, of the boundary has been matched. */
  predicate MidBoundary(s: Scan) {
    s.st.step == CheckBoundary && s.cursor > 0
  }

  /** No chunk but possibly the last ends inside a partly matched boundary. */
  predicate SafeCuts(boundary: seq<byte>, st: State, chunks: seq<seq<byte>>)
    requires |boundary| > 0
    decreases |chunks|
  {
    |chunks| > 1 ==>
      && !MidBoundary(Feed(boundary, Scan(st, 0), chunks[0]))
      && SafeCuts(boundary, Parse(boundary, st, chunks[0]), chunks[1..])
  }

  /** Outside a partly matched boundary the cursor carries nothing over. */
  lemma {:induction false} CursorForgotten(boundary: seq<byte>, s: Scan, bytes: seq<byte>)
    requires |boundary| > 0 && ValidScan(boundary, s) && !MidBoundary(s)
    ensures Feed(boundary, s, bytes).st == Feed(boundary, Scan(s.st, 0), bytes).st
    decreases |bytes|
  {
    if bytes != [] && s.st.step != CheckBoundary {
      var a := Consume(boundary, s, bytes[0]);
      var b := Consume(boundary, Scan(s.st, 0), bytes[0]);
      assert a.st == b.st;
      if a.st.step != CheckBoundary {
        CursorForgotten(boundary, a, bytes[1..]);
        CursorForgotten(boundary, b, bytes[1..]);
      }
    }
  }

  lemma {:induction false} SafeCutsAgree(boundary: seq<byte>, st: State, chunks: seq<seq<byte>>)
    requires |boundary| > 0 && SafeCuts(boundary, st, chunks)
    ensures ParseAll(boundary, st, chunks) == Parse(boundary, st, Flatten(chunks))
    decreases |chunks|
  {
    if chunks != [] {
      var s := Feed(boundary, Scan(st, 0), chunks[0]);
      FeedAppend(boundary, Scan(st, 0), chunks[0], Flatten(chunks[1..]));
      if |chunks| == 1 {
        assert chunks[1..] == [];
      } else {
        SafeCutsAgree(boundary, s.st, chunks[1..]);
        CursorForgotten(boundary, s, Flatten(chunks[1..]));
      }
    }
  }

  /** Two ways of cutting one stream, neither through a boundary, give the same callbacks and leave the same parser. */
  lemma ChunkingIndependence(boundary: seq<byte>, st: State, chunks: seq<seq<byte>>, chunks': seq<seq<byte>>)
    requires |boundary| > 0 && Flatten(chunks) == Flatten(chunks')
    requires SafeCuts(boundary, st, chunks) && SafeCuts(boundary, st, chunks')
    ensures ParseAll(boundary, st, chunks) == ParseAll(boundary, st, chunks')
  {
    SafeCutsAgree(boundary, st, chunks);
    SafeCutsAgree(boundary, st, chunks');
  }

  /** The steps through which a delimiter is looked for. */
  predicate Seeking(s: Scan, matched: nat) {
    s.st.step == Ready || s.st.step == StartHyphen || (s.st.step == CheckBoundary && s.cursor <= matched)
  }

  /** Fewer bytes than the boundary has cannot complete it from the front. */
  lemma {:induction false} StillSeeking(boundary: seq<byte>, s: Scan, matched: nat, bytes: seq<byte>)
    requires |boundary| > 0 && ValidScan(boundary, s) && Seeking(s, matched)
    requires matched + |bytes| < |boundary|
    ensures Seeking(Feed(boundary, s, bytes), matched + |bytes|)
    decreases |bytes|
  {
    if bytes != [] {
      StillSeeking(boundary, Consume(boundary, s, bytes[0]), matched + 1, bytes[1..]);
    }
  }

  /** The rest of a partly matched boundary completes it. */
  lemma {:induction false} BoundaryCompletes(boundary: seq<byte>, s: Scan)
    requires s.st.step == CheckBoundary && s.cursor < |boundary|
    ensures Feed(boundary, s, boundary[s.cursor..]).st == s.st.(step := EndBoundary)
    decreases |boundary| - s.cursor
  {
    var rest := boundary[s.cursor..];
    var next := Consume(boundary, s, rest[0]);
    if s.cursor < |boundary| - 1 {
      assert rest[1..] == boundary[next.cursor..];
      BoundaryCompletes(boundary, next);
    } else {
      assert rest[1..] == [];
    }
  }

  /** A cut inside a partly matched boundary loses it: the split stream misses a delimiter that the whole one has. */
  lemma UnsafeCutDiffers(boundary: seq<byte>, st: State, chunk: seq<byte>)
    requires |boundary| > 0 && MidBoundary(Feed(boundary, Scan(st, 0), chunk))
    ensures var rest := boundary[Feed(boundary, Scan(st, 0), chunk).cursor..];
            ParseAll(boundary, st, [chunk, rest]) != Parse(boundary, st, chunk + rest)
  {
    var s := Feed(boundary, Scan(st, 0), chunk);
    var rest := boundary[s.cursor..];
    FeedAppend(boundary, Scan(st, 0), chunk, rest);
    BoundaryCompletes(boundary, s);
    StillSeeking(boundary, Scan(s.st, 0), 0, rest);
    assert [chunk, rest][1..] == [rest];
    assert ParseAll(boundary, st, [chunk, rest]) == Parse(boundary, s.st, rest) by {
      assert [rest][1..] == [];
      assert ParseAll(boundary, s.st, [rest]) == ParseAll(boundary, Parse(boundary, s.st, rest), []);
    }
  }

  /** For every parser state and chunk: a cut after the chunk never matters exactly when it is not inside a boundary. */
  lemma CutIsHarmless(boundary: seq<byte>, st: State, chunk: seq<byte>)
    requires |boundary| > 0
    ensures (forall rest :: ParseAll(boundary, st, [chunk, rest]) == Parse(boundary, st, chunk + rest))
            <==> !MidBoundary(Feed(boundary, Scan(st, 0), chunk))
  {
    if MidBoundary(Feed(boundary, Scan(st, 0), chunk)) {
      UnsafeCutDiffers(boundary, st, chunk);
    } else {
      forall rest
        ensures ParseAll(boundary, st, [chunk, rest]) == Parse(boundary, st, chunk + rest)
      {
        assert [chunk, rest][1..] == [rest] && [rest][1..] == [];
        assert Flatten([chunk, rest]) == chunk + rest by {
          assert Flatten([rest]) == rest + Flatten<byte>([]);
        }
        SafeCutsAgree(boundary, st, [chunk, rest]);
      }
    }
  }

  /** "--" / "ab" cut after the "a". */
  lemma CutThroughBoundary()
    ensures var boundary: seq<byte> := [97, 98];
            var first, rest := [HYPHEN, HYPHEN, 97], [98];
            && ParseAll(boundary, INITIAL, [first, rest]).step == Ready
            && Parse(boundary, INITIAL, first + rest).step == EndBoundary
  {
    var boundary: seq<byte> := [97, 98];
    var first, rest := [HYPHEN, HYPHEN, 97], [98];
    var s0 := Scan(INITIAL, 0);
    var s1 := Consume(boundary, s0, HYPHEN);
    var s2 := Consume(boundary, s1, HYPHEN);
    var s3 := Consume(boundary, s2, 97);
    assert first == [HYPHEN] + ([HYPHEN] + [97]);
    FeedOne(boundary, s0, HYPHEN);
    FeedOne(boundary, s1, HYPHEN);
    FeedOne(boundary, s2, 97);
    FeedAppend(boundary, s1, [HYPHEN], [97]);
    FeedAppend(boundary, s0, [HYPHEN], [HYPHEN] + [97]);
    FeedOne(boundary, s3, 98);
    FeedOne(boundary, Scan(s3.st, 0), 98);
    FeedAppend(boundary, s0, first, rest);
    assert [first, rest][1..] == [rest] && [rest][1..] == [];
    assert ParseAll(boundary, s3.st, [rest]) == ParseAll(boundary, Parse(boundary, s3.st, rest), []);
  }
}

/** What one pop of the reader in app/desktop/streams.py finds between two parts of the stream sent by
    app/services/preview.py, whatever the bodies hold; and that each chunk delivers the newest body completed in it as
    long as no chunk ends inside a boundary text. */
module MjpegComplete {
  import opened Options
  import opened Mjpeg
  import opened MjpegStream

  /** The first n bodies, and no more, are complete in the first q bytes. */
  ghost predicate Completed(bodies: seq<Bytes>, q: nat, n: nat)
  {
    && n <= |bodies| && (n > 0 ==> BodyEnd(bodies, n - 1) <= q) && (n < |bodies| ==> q < BodyEnd(bodies, n))
  }

  /** The first q bytes end inside the boundary text of part i. */
  ghost predicate InBoundary(bodies: seq<Bytes>, i: nat, q: nat)
  {
    i < |bodies| && StartOf(bodies, i) < q < StartOf(bodies, i) + |BOUNDARY|
  }

  /** No boundary text is cut after q bytes. */
  ghost predicate BoundariesWhole(bodies: seq<Bytes>, q: nat)
  {
    forall i: nat | i < |bodies| :: !InBoundary(bodies, i, q)
  }

  /** Position p lies at most a line break before part i. */
  ghost predicate InGap(bodies: seq<Bytes>, i: nat, p: nat)
  {
    i <= |bodies| && p <= StartOf(bodies, i) && (i > 0 ==> BodyEnd(bodies, i - 1) <= p)
  }

  lemma GapByte(bodies: seq<Bytes>, i: nat, s: Bytes, p: nat, k: nat)
    requires s == Stream(bodies) && InGap(bodies, i, p) && p <= k < StartOf(bodies, i)
    ensures k < |s| && (s[k] == 13 || s[k] == 10)
  {
    hide StartOf, Headers, Stream, Part;
    if i == 0 {
      StartOfFirst(bodies);
    } else {
      var b := bodies[i - 1];
      var part, h := Part(b), Headers(|b|);
      PartSits(bodies, i - 1, s);
      PartLength(b);
      var j := k - StartOf(bodies, i - 1);
      PartByte(b, j, part, h);
      SameByte(s, StartOf(bodies, i - 1), part, j);
    }
  }

  lemma WindowByte(s: Bytes, p: nat, q: nat, buf: Bytes, k: nat)
    requires Window(s, p, q, buf) && k < |buf|
    ensures buf[k] == s[p + k]
  {
  }

  /** The next part's boundary is the first one in sight, whatever bodies hold. */
  lemma GapMark(bodies: seq<Bytes>, i: nat, s: Bytes, p: nat, q: nat, buf: Bytes, from: nat)
    requires s == Stream(bodies) && Window(s, p, q, buf) && from <= |buf| && InGap(bodies, i, p + from)
    requires i < |bodies| && StartOf(bodies, i) + |BOUNDARY| <= q
    ensures Find(buf, BOUNDARY, from) == StartOf(bodies, i) - p
  {
    hide At, Find, StartOf, Headers, Stream, Ascii;
    BoundaryText();
    BlankEndsHeaders(bodies, i, s);
    var mark := StartOf(bodies, i) - p;
    AtInSlice(s, p, q, BOUNDARY, mark);
    forall k | from <= k < mark
      ensures !At(buf, BOUNDARY, k)
    {
      GapByte(bodies, i, s, p + from, p + k);
      WindowByte(s, p, q, buf, k);
      NotAtFirst(buf, BOUNDARY, k);
    }
    FindHere(buf, BOUNDARY, from, mark);
  }

  lemma NoMarker(buf: Bytes, from: nat, best: Option<Range>)
    requires from <= |buf| && forall k | from <= k < |buf| :: buf[k] != 0xFF
    ensures RawScan(buf, from, best) == Scan(best, |buf|)
  {
    hide At, Find;
    forall k: int
      ensures from <= k ==> !At(buf, SOI, k)
    {
      if from <= k {
        NotAtFirst(buf, SOI, k);
      }
    }
    FindUnique(buf, SOI, from, -1);
  }

  lemma NothingFound(buf: Bytes, from: nat, best: Option<Range>)
    requires from <= |buf| && forall k | from <= k < |buf| :: buf[k] != 0xFF && !At(buf, BOUNDARY, k)
    ensures PopScan(buf, from, best) == Scan(best, |buf|)
  {
    hide At, Find, RawScan, Ascii;
    BoundaryText();
    forall k: int
      ensures from <= k ==> !At(buf, BOUNDARY, k)
    {
      if k >= |buf| {
        NotAtFirst(buf, BOUNDARY, k);
      }
    }
    FindUnique(buf, BOUNDARY, from, -1);
    NoMarker(buf, from, None);
  }

  /** A byte of the gap before part i or of its boundary text. */
  lemma PlainByte(bodies: seq<Bytes>, i: nat, s: Bytes, p: nat, k: nat)
    requires i <= |bodies| && s == Stream(bodies) && InGap(bodies, i, p) && p <= k < |s|
    requires i == |bodies| || k < StartOf(bodies, i) + |BOUNDARY|
    ensures s[k] != 0xFF && (k < StartOf(bodies, i) ==> s[k] != BOUNDARY[0])
  {
    hide *;
    BoundaryText();
    StreamLength(bodies, i, s);
    if k < StartOf(bodies, i) {
      GapByte(bodies, i, s, p, k);
    } else {
      BoundaryByte(bodies, i, s, k - StartOf(bodies, i));
    }
  }

  lemma BoundaryByte(bodies: seq<Bytes>, i: nat, s: Bytes, m: nat)
    requires s == Stream(bodies) && i < |bodies| && m < |BOUNDARY| && StartOf(bodies, i) + m < |s|
    ensures s[StartOf(bodies, i) + m] != 0xFF
  {
    hide At, StartOf, Headers, Stream, Ascii;
    BoundaryText();
    BlankEndsHeaders(bodies, i, s);
    AtByte(s, BOUNDARY, StartOf(bodies, i), m);
    FixedText(m);
  }

  /** Between parts, up to the end of a boundary text, nothing is found and nothing is kept. */
  lemma GapOnly(bodies: seq<Bytes>, i: nat, s: Bytes, p: nat, q: nat, buf: Bytes, from: nat, best: Option<Range>)
    requires s == Stream(bodies) && Window(s, p, q, buf) && from <= |buf| && InGap(bodies, i, p + from)
    requires i == |bodies| || q < StartOf(bodies, i) + |BOUNDARY|
    ensures PopScan(buf, from, best) == Scan(best, |buf|)
  {
    hide At, StartOf, Stream, PopScan, Ascii;
    StreamLength(bodies, i, s);
    forall k | from <= k < |buf|
      ensures buf[k] != 0xFF && !At(buf, BOUNDARY, k)
    {
      PlainByte(bodies, i, s, p + from, p + k);
      WindowByte(s, p, q, buf, k);
      if p + k < StartOf(bodies, i) {
        BoundaryText();
        NotAtFirst(buf, BOUNDARY, k);
      } else {
        TooShort(buf, BOUNDARY, k);
      }
    }
    NothingFound(buf, from, best);
  }

  lemma TooShort(buf: Bytes, needle: Bytes, k: nat)
    requires k + |needle| > |buf|
    ensures !At(buf, needle, k)
  {
  }

  /** Once its boundary is in sight, a part is taken whole, or kept from its boundary on. */
  lemma PartInSight(bodies: seq<Bytes>, i: nat, s: Bytes, p: nat, q: nat, buf: Bytes, from: nat, best: Option<Range>)
    requires Sendable(bodies) && s == Stream(bodies) && Window(s, p, q, buf) && from <= |buf|
    requires InGap(bodies, i, p + from)
    requires i < |bodies| && StartOf(bodies, i) + |BOUNDARY| <= q
    ensures q < BodyEnd(bodies, i) ==> PopScan(buf, from, best) == Scan(best, StartOf(bodies, i) - p)
    ensures BodyEnd(bodies, i) <= q ==>
              && p <= BodyStart(bodies, i)
              && PopScan(buf, from, best) ==
                 PopScan(buf, AfterBody(buf, BodyEnd(bodies, i) - p),
                         Some(Range(BodyStart(bodies, i) - p, BodyEnd(bodies, i) - p)))
  {
    hide At, Find, StartOf, Headers, Stream, ContentLength, RawOrBest, AfterBody, Ascii;
    GapMark(bodies, i, s, p, q, buf, from);
    BlankEndsHeaders(bodies, i, s);
    BodiesInOrder(bodies, i, i, s);
    var mark, end := StartOf(bodies, i) - p, HeaderEnd(bodies, i) - p;
    var headerEnd := Find(buf, BLANK_LINE, mark);
    FindInWindow(s, p, q, buf, BLANK_LINE, mark, headerEnd);
    if HeaderEnd(bodies, i) + 4 <= q {
      assert headerEnd == end;
      SliceOfSlice(s, p, q, mark, end);
      LengthRoundTrip(|bodies[i]|);
    } else {
      NoBlankYet(bodies, i, s, p, q, buf, mark, headerEnd);
    }
  }

  lemma NoBlankYet(bodies: seq<Bytes>, i: nat, s: Bytes, p: nat, q: nat, buf: Bytes, mark: nat, headerEnd: int)
    requires s == Stream(bodies) && Window(s, p, q, buf) && i < |bodies| && p + mark == StartOf(bodies, i)
    requires headerEnd == Find(buf, BLANK_LINE, mark) && q < HeaderEnd(bodies, i) + 4
    ensures headerEnd == -1
  {
    hide At, Find, StartOf, Headers, Stream;
    BlankEndsHeaders(bodies, i, s);
    FindInWindow(s, p, q, buf, BLANK_LINE, mark, headerEnd);
  }

  /** After a body the search goes on in the gap before the next part. */
  lemma NextGap(bodies: seq<Bytes>, i: nat, s: Bytes, p: nat, q: nat, buf: Bytes, end: nat, from: nat)
    requires s == Stream(bodies) && Window(s, p, q, buf) && i < |bodies|
    requires p <= BodyEnd(bodies, i) <= q && end == BodyEnd(bodies, i) - p && from == AfterBody(buf, end)
    ensures from <= |buf| && InGap(bodies, i + 1, p + from)
  {
    hide StartOf, Headers, Stream;
    BodiesInOrder(bodies, i, i, s);
  }

  /** Where the search stops once the first j bodies are complete: at the end if that cuts the boundary text of part j,
      otherwise in the gap before part j. */
  ghost predicate StopsBefore(bodies: seq<Bytes>, j: nat, q: nat, rest: nat)
  {
    if InBoundary(bodies, j, q) then rest == q else InGap(bodies, j, rest)
  }

  /** What one pop finds in a window that starts before part i. */
  lemma {:induction false} PopNewest(bodies: seq<Bytes>, i: nat, s: Bytes, p: nat, q: nat, buf: Bytes, from: nat,
                                     best: Option<Range>)
    returns (j: nat)
    requires Sendable(bodies) && s == Stream(bodies) && Window(s, p, q, buf) && from <= |buf|
    requires InGap(bodies, i, p + from)
    ensures i <= j && Completed(bodies, q, j) && StopsBefore(bodies, j, q, p + PopScan(buf, from, best).rest)
    ensures j == i ==> PopScan(buf, from, best).latest == best
    ensures j > i ==>
              && p <= BodyStart(bodies, j - 1)
              && PopScan(buf, from, best).latest ==
                 Some(Range(BodyStart(bodies, j - 1) - p, BodyEnd(bodies, j - 1) - p))
    decreases |bodies| - i
  {
    hide StartOf, Headers, Stream, PopScan, AfterBody, Sendable, Window, Ascii;
    BoundaryText();
    WindowSize(s, p, q, buf);
    if i == |bodies| || q < StartOf(bodies, i) + |BOUNDARY| {
      j := i;
      NothingBeyond(bodies, i, s, q);
      GapOnly(bodies, i, s, p, q, buf, from, best);
    } else {
      PartInSight(bodies, i, s, p, q, buf, from, best);
      if q < BodyEnd(bodies, i) {
        j := i;
      } else {
        var end := BodyEnd(bodies, i) - p;
        NextGap(bodies, i, s, p, q, buf, end, AfterBody(buf, end));
        j := PopNewest(bodies, i + 1, s, p, q, buf, AfterBody(buf, end), Some(Range(BodyStart(bodies, i) - p, end)));
      }
    }
  }

  lemma WindowSize(s: Bytes, p: nat, q: nat, buf: Bytes)
    requires Window(s, p, q, buf)
    ensures |buf| == q - p && q <= |s|
  {
  }

  lemma NothingBeyond(bodies: seq<Bytes>, i: nat, s: Bytes, q: nat)
    requires s == Stream(bodies) && q <= |s| && i <= |bodies|
    requires i == |bodies| || q < StartOf(bodies, i) + |BOUNDARY|
    ensures i == |bodies| ==> q <= StartOf(bodies, i)
    ensures i < |bodies| ==> q < BodyEnd(bodies, i)
  {
    hide Stream, StartOf, Headers, Ascii;
    if i == |bodies| {
      StreamLength(bodies, i, s);
    } else {
      HeadersAreLong(bodies, i);
    }
  }

  lemma HeadersAreLong(bodies: seq<Bytes>, i: nat)
    requires i < |bodies|
    ensures HeaderEnd(bodies, i) > StartOf(bodies, i) + 60 && |BOUNDARY| == 16
  {
    BoundaryText();
    HeaderText(|bodies[i]|, 0, Headers(|bodies[i]|));
  }

  // ----- Runs -----

  lemma NotTrimmed(buf: Bytes)
    requires |buf| <= MAX_FRAME
    ensures Trimmed(buf) == buf
  {
  }

  lemma SuffixWindow(s: Bytes, whole: Bytes, tail: Bytes)
    requires whole <= s && IsSuffix(tail, whole)
    ensures Window(s, |whole| - |tail|, |whole|, tail)
  {
    assert s[..|whole|] == whole;
  }

  /** One more chunk that fits and cuts no boundary. */
  lemma OneCompleteFeed(bodies: seq<Bytes>, s: Bytes, before: seq<Bytes>, chunk: Bytes, whole: Bytes, fed: Fed, i: nat)
    returns (j: nat)
    requires Sendable(bodies) && s == Stream(bodies) && whole == Received(before) && whole + chunk <= s
    requires fed == FeedOne(Kept(before), chunk) && |Kept(before)| + |chunk| <= MAX_FRAME
    requires |Kept(before)| <= |whole| && InGap(bodies, i, |whole| - |Kept(before)|)
    requires BoundariesWhole(bodies, |whole| + |chunk|)
    ensures i <= j && Completed(bodies, |whole| + |chunk|, j)
    ensures |fed.buf| <= |whole| + |chunk| && InGap(bodies, j, |whole| + |chunk| - |fed.buf|)
    ensures fed.latest == if j == i then None else Some(bodies[j - 1])
  {
    hide Stream, Received, Kept, PopScan, StartOf, Headers, Window, IsSuffix, Trimmed;
    var kept := Kept(before);
    KeptIsSuffix(before);
    GrownSuffix(kept, whole, chunk);
    var buf := kept + chunk;
    NotTrimmed(buf);
    var q := |whole + chunk|;
    var p := q - |buf|;
    SuffixWindow(s, whole + chunk, buf);
    j := PopNewest(bodies, i, s, p, q, buf, 0, None);
    if j > i {
      BodyInWindow(bodies, j - 1, s, p, q, buf);
    }
  }

  lemma {:induction false} BodyInWindow(bodies: seq<Bytes>, i: nat, s: Bytes, p: nat, q: nat, buf: Bytes)
    requires i < |bodies| && s == Stream(bodies) && Window(s, p, q, buf) && p <= BodyStart(bodies, i)
    requires BodyEnd(bodies, i) <= q
    ensures Frame(buf, Some(Range(BodyStart(bodies, i) - p, BodyEnd(bodies, i) - p))) == Some(bodies[i])
  {
    hide Stream, StartOf, Headers;
    BodiesInOrder(bodies, i, i, s);
    SliceOfSlice(s, p, q, BodyStart(bodies, i) - p, BodyEnd(bodies, i) - p);
  }

  /** Chunk n completes the bodies from a up to b, and yields the newest of them, nothing if there is none. */
  ghost predicate Delivers(bodies: seq<Bytes>, chunks: seq<Bytes>, n: nat, a: nat, b: nat)
    requires n < |chunks|
  {
    && a <= b <= |bodies| && Completed(bodies, |Received(chunks[..n + 1])|, b)
    && Yielded(chunks, n) == if b == a then None else Some(bodies[b - 1])
  }

  lemma DeliversLonger(bodies: seq<Bytes>, before: seq<Bytes>, chunks: seq<Bytes>, n: nat, a: nat, b: nat)
    requires n < |before| < |chunks| && before == chunks[..|before|] && Delivers(bodies, before, n, a, b)
    ensures Delivers(bodies, chunks, n, a, b)
  {
    hide Completed, FeedOne;
    assert before[..n] == chunks[..n] && before[..n + 1] == chunks[..n + 1];
  }

  lemma OneMoreChunk(chunks: seq<Bytes>, before: seq<Bytes>, chunk: Bytes)
    requires chunks == before + [chunk]
    ensures Kept(chunks) == FeedOne(Kept(before), chunk).buf && Received(chunks) == Received(before) + chunk
    ensures Yielded(chunks, |before|) == FeedOne(Kept(before), chunk).latest
  {
    hide FeedOne;
    assert chunks[..|chunks| - 1] == before && chunks[|chunks| - 1] == chunk;
  }

  lemma LastDelivers(bodies: seq<Bytes>, chunks: seq<Bytes>, before: seq<Bytes>, chunk: Bytes, a: nat, b: nat)
    requires chunks == before + [chunk] && a <= b && Completed(bodies, |Received(before)| + |chunk|, b)
    requires FeedOne(Kept(before), chunk).latest == if b == a then None else Some(bodies[b - 1])
    ensures Delivers(bodies, chunks, |before|, a, b)
  {
    hide FeedOne, Kept, Received, Yielded, BodyEnd;
    OneMoreChunk(chunks, before, chunk);
    assert chunks[..|before| + 1] == chunks;
  }

  /** The chunks come from the stream, none ends inside a boundary text, and the buffer never has to be trimmed. */
  ghost predicate CutWell(bodies: seq<Bytes>, chunks: seq<Bytes>)
  {
    && Received(chunks) <= Stream(bodies) && BoundariesWhole(bodies, |Received(chunks)|)
    && (chunks != [] ==>
          var last := |chunks| - 1;
          CutWell(bodies, chunks[..last]) && |Kept(chunks[..last])| + |chunks[last]| <= MAX_FRAME)
  }

  /** The newest complete body is known, and what is kept begins in the gap after it. */
  ghost predicate InStep(bodies: seq<Bytes>, chunks: seq<Bytes>, n: nat)
  {
    |Kept(chunks)| <= |Received(chunks)| && InGap(bodies, n, |Received(chunks)| - |Kept(chunks)|)
  }

  lemma CutWellBefore(bodies: seq<Bytes>, chunks: seq<Bytes>, before: seq<Bytes>)
    requires CutWell(bodies, chunks) && chunks != [] && before == chunks[..|chunks| - 1]
    ensures CutWell(bodies, before)
  {
  }

  lemma NextChunk(bodies: seq<Bytes>, chunks: seq<Bytes>, before: seq<Bytes>, chunk: Bytes, a: nat) returns (b: nat)
    requires Sendable(bodies) && chunks == before + [chunk] && CutWell(bodies, chunks) && InStep(bodies, before, a)
    ensures Delivers(bodies, chunks, |before|, a, b) && InStep(bodies, chunks, b)
  {
    hide Stream, FeedOne, Delivers, InGap, Completed, BoundariesWhole, Sendable;
    assert chunks[..|chunks| - 1] == before;
    b := OneCompleteFeed(bodies, Stream(bodies), before, chunk, Received(before), FeedOne(Kept(before), chunk), a);
    LastDelivers(bodies, chunks, before, chunk, a, b);
    OneMoreChunk(chunks, before, chunk);
  }

  lemma StartsInStep(bodies: seq<Bytes>)
    ensures InStep(bodies, [], 0)
  {
    StartOfFirst(bodies);
  }

  /** Bodies of any content and usable size, cut anywhere but inside a boundary text, never more than the buffer holds:
      each chunk yields exactly the newest body completed in it. */
  lemma {:induction false} NewestCompletedIsYielded(bodies: seq<Bytes>, chunks: seq<Bytes>) returns (done: seq<nat>)
    requires Sendable(bodies) && CutWell(bodies, chunks)
    ensures |done| == |chunks| + 1 && done[0] == 0 && InStep(bodies, chunks, done[|chunks|])
    ensures forall n | 0 <= n < |chunks| :: Delivers(bodies, chunks, n, done[n], done[n + 1])
  {
    hide Sendable, Delivers, InStep, CutWell;
    if chunks == [] {
      StartsInStep(bodies);
      done := [0];
    } else {
      var last := |chunks| - 1;
      var before := chunks[..last];
      CutWellBefore(bodies, chunks, before);
      var earlier := NewestCompletedIsYielded(bodies, before);
      var b := NextChunk(bodies, chunks, before, chunks[last], earlier[last]);
      done := earlier + [b];
      forall n | 0 <= n < |chunks|
        ensures Delivers(bodies, chunks, n, done[n], done[n + 1])
      {
        if n < last {
          DeliversLonger(bodies, before, chunks, n, done[n], done[n + 1]);
        }
      }
    }
  }
}

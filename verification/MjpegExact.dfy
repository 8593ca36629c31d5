/** Exactly which frames the reader of app/desktop/streams.py delivers from a stream of JPEG bodies, for every cutting
    of the stream into chunks, overlong buffers included. */
module MjpegExact {
  import opened Options
  import opened Mjpeg
  import opened MjpegStream
  import opened MjpegComplete

  // ----- When a frame is passed over -----

  /** The buffer outgrows its limit with this chunk and is cut down to its last SOI. */
  predicate Overlong(before: seq<Bytes>, chunk: Bytes)
  {
    |Kept(before)| + |chunk| > MAX_FRAME
  }

  /** Some chunk so far ended inside the boundary text of part i, or made the buffer overlong while body i was on its
      way: the reader goes on without that boundary. */
  ghost predicate Beheaded(bodies: seq<Bytes>, chunks: seq<Bytes>, i: nat)
    requires i < |bodies|
  {
    chunks != [] &&
    var before, chunk, q := chunks[..|chunks| - 1], chunks[|chunks| - 1], |Received(chunks)|;
    || Beheaded(bodies, before, i)
    || InBoundary(bodies, i, q)
    || (Overlong(before, chunk) && BodyStart(bodies, i) + 2 <= q < BodyEnd(bodies, i))
  }

  /** Body b - 1 is reached without its boundary, and the boundary of part b is already there to be found first. */
  ghost predicate PassedOver(bodies: seq<Bytes>, before: seq<Bytes>, chunk: Bytes, b: nat)
    requires 0 < b <= |bodies|
  {
    && (Overlong(before, chunk) || Beheaded(bodies, before, b - 1))
    && b < |bodies| && StartOf(bodies, b) + |BOUNDARY| <= |Received(before)| + |chunk|
  }

  /** Chunk n completes the bodies from a up to b. It yields the newest of them unless that one is passed over, and
      nothing if there is none. */
  ghost predicate DeliversExactly(bodies: seq<Bytes>, chunks: seq<Bytes>, n: nat, a: nat, b: nat)
    requires n < |chunks|
  {
    && a <= b <= |bodies| && Completed(bodies, |Received(chunks[..n + 1])|, b)
    && Yielded(chunks, n) ==
       if b == a || PassedOver(bodies, chunks[..n], chunks[n], b) then None else Some(bodies[b - 1])
  }

  // ----- Without the boundary -----

  /** Position p lies behind the start of part i, at most at its body. */
  ghost predicate Headless(bodies: seq<Bytes>, i: nat, p: nat)
  {
    i < |bodies| && StartOf(bodies, i) < p <= BodyStart(bodies, i)
  }

  lemma PartsFollow(bodies: seq<Bytes>, i: nat, j: nat, s: Bytes)
    requires i < j <= |bodies| && s == Stream(bodies)
    ensures BodyEnd(bodies, i) + 2 == StartOf(bodies, i + 1) <= StartOf(bodies, j)
    ensures StartOf(bodies, i) < BodyStart(bodies, i) <= BodyEnd(bodies, i)
  {
    hide Stream, StartOf, Headers;
    BodiesInOrder(bodies, i, i, s);
    StartsGrow(bodies, i + 1, j, s);
    HeadersAreLong(bodies, i);
  }

  /** From there the next boundary to be found is the next part's. */
  lemma NextBoundary(bodies: seq<Bytes>, i: nat, s: Bytes, p: nat, q: nat, buf: Bytes, mark: int)
    requires GoodBodies(bodies) && s == Stream(bodies) && Window(s, p, q, buf) && Headless(bodies, i, p)
    requires mark == Find(buf, BOUNDARY, 0)
    ensures if i + 1 < |bodies| && StartOf(bodies, i + 1) + |BOUNDARY| <= q
            then p + mark == StartOf(bodies, i + 1) else mark == -1
  {
    hide At, Find, Stream, StartOf, Headers, GoodBodies, Ascii;
    FindInWindow(s, p, q, buf, BOUNDARY, 0, mark);
    PartsFollow(bodies, i, i + 1, s);
    if mark != -1 {
      var part := BoundaryAtStart(bodies, s, p + mark);
      StartsGrow(bodies, i + 1, if part > i then part else i + 1, s);
      StartsGrow(bodies, if part > i then i else part, i, s);
    }
    if i + 1 < |bodies| && StartOf(bodies, i + 1) + |BOUNDARY| <= q {
      BlankEndsHeaders(bodies, i + 1, s);
    }
  }

  lemma GoodOne(bodies: seq<Bytes>, i: nat)
    requires GoodBodies(bodies) && i < |bodies|
    ensures GoodBody(bodies[i])
  {
  }

  lemma SoiOf(bodies: seq<Bytes>, i: nat, s: Bytes)
    requires GoodBodies(bodies) && s == Stream(bodies) && i < |bodies|
    ensures At(s, SOI, BodyStart(bodies, i)) && s[BodyStart(bodies, i)] == 0xFF
    ensures BodyStart(bodies, i) + 4 <= BodyEnd(bodies, i)
  {
    hide At, StartOf, Stream, Headers, GoodBody, GoodBodies;
    GoodOne(bodies, i);
    BodyEdges(bodies[i]);
    EoiOf(bodies, i, s);
    BodiesInOrder(bodies, i, i, s);
    AtInSlice(s, BodyStart(bodies, i), BodyEnd(bodies, i), SOI, 0);
    AtByte(s, SOI, BodyStart(bodies, i), 0);
  }

  lemma HeaderBytePlain(bodies: seq<Bytes>, i: nat, s: Bytes, k: nat)
    requires s == Stream(bodies) && i < |bodies| && StartOf(bodies, i) <= k < BodyStart(bodies, i)
    ensures k < |s| && s[k] != 0xFF
  {
    hide StartOf, Headers, Stream, Part;
    var b := bodies[i];
    var part, h, j := Part(b), Headers(|b|), k - StartOf(bodies, i);
    PartSits(bodies, i, s);
    PartLength(b);
    PartByte(b, j, part, h);
    SameByte(s, StartOf(bodies, i), part, j);
    if j < |h| {
      HeaderText(|b|, j, h);
    }
  }

  /** Without its boundary a body begins at the first SOI, if it is there. */
  lemma NextSoi(bodies: seq<Bytes>, i: nat, s: Bytes, p: nat, q: nat, buf: Bytes, start: int)
    requires GoodBodies(bodies) && s == Stream(bodies) && Window(s, p, q, buf) && Headless(bodies, i, p)
    requires start == Find(buf, SOI, 0)
    ensures if BodyStart(bodies, i) + 2 <= q then p + start == BodyStart(bodies, i) else start == -1
  {
    hide At, Find, Stream, StartOf, Headers, GoodBodies;
    FindInWindow(s, p, q, buf, SOI, 0, start);
    SoiOf(bodies, i, s);
    if start != -1 {
      var k := SoiAtBodyStart(bodies, s, p + start);
      if k < i {
        PartsFollow(bodies, k, i, s);
      } else if i < k {
        BodiesInOrder(bodies, i, k, s);
      }
    }
  }

  /** And it ends at the first EOI after that. */
  lemma NextEoi(bodies: seq<Bytes>, i: nat, s: Bytes, p: nat, q: nat, buf: Bytes, start: nat, end: int)
    requires GoodBodies(bodies) && s == Stream(bodies) && Window(s, p, q, buf) && i < |bodies|
    requires p + start == BodyStart(bodies, i) && end == Find(buf, EOI, start + 2)
    ensures if BodyEnd(bodies, i) <= q then p + end + 2 == BodyEnd(bodies, i) else end == -1
  {
    hide At, Find, Stream, StartOf, Headers, GoodBodies;
    FindInWindow(s, p, q, buf, EOI, start + 2, end);
    EoiOf(bodies, i, s);
    if end != -1 {
      var k := EoiAtBodyEnd(bodies, s, p + end);
      EoiOf(bodies, k, s);
      if k < i {
        BodiesInOrder(bodies, k, i, s);
      } else if i < k {
        BodiesInOrder(bodies, i, k, s);
      }
    }
  }

  /** What the raw search finds there, as long as no later boundary is in sight. */
  lemma RawHeadless(bodies: seq<Bytes>, i: nat, s: Bytes, p: nat, q: nat, buf: Bytes)
    requires GoodBodies(bodies) && s == Stream(bodies) && Window(s, p, q, buf) && Headless(bodies, i, p)
    requires i + 1 == |bodies| || q < StartOf(bodies, i + 1) + |BOUNDARY|
    ensures q < BodyEnd(bodies, i) ==>
              RawScan(buf, 0, None).latest == None && Headless(bodies, i, p + RawScan(buf, 0, None).rest)
    ensures BodyEnd(bodies, i) <= q ==>
              RawScan(buf, 0, None) ==
              Scan(Some(Range(BodyStart(bodies, i) - p, BodyEnd(bodies, i) - p)), q - p)
  {
    hide At, Find, Stream, StartOf, Headers, GoodBodies, Ascii, BodyEnd;
    WindowSize(s, p, q, buf);
    var start := Find(buf, SOI, 0);
    NextSoi(bodies, i, s, p, q, buf, start);
    SoiOf(bodies, i, s);
    if start == -1 {
      LastByteHeadless(bodies, i, s, p, q, buf);
    } else {
      var end := Find(buf, EOI, start + 2);
      NextEoi(bodies, i, s, p, q, buf, start, end);
      if end != -1 {
        RawAfterBody(bodies, i, s, p, q, buf, end + 2, Some(Range(start, end + 2)));
      }
    }
  }

  lemma LastByteHeadless(bodies: seq<Bytes>, i: nat, s: Bytes, p: nat, q: nat, buf: Bytes)
    requires GoodBodies(bodies) && s == Stream(bodies) && Window(s, p, q, buf) && Headless(bodies, i, p)
    requires q < BodyStart(bodies, i) + 2
    ensures buf != [] && buf[|buf| - 1] == 0xFF <==> q == BodyStart(bodies, i) + 1
  {
    hide Stream, StartOf, Headers, GoodBodies;
    SoiOf(bodies, i, s);
    if buf != [] {
      WindowByte(s, p, q, buf, |buf| - 1);
      if q - 1 < BodyStart(bodies, i) {
        HeaderBytePlain(bodies, i, s, q - 1);
      }
    }
  }

  lemma RawAfterBody(bodies: seq<Bytes>, i: nat, s: Bytes, p: nat, q: nat, buf: Bytes, from: nat, best: Option<Range>)
    requires s == Stream(bodies) && Window(s, p, q, buf) && i < |bodies|
    requires from <= |buf| && p + from == BodyEnd(bodies, i)
    requires i + 1 == |bodies| || q < StartOf(bodies, i + 1) + |BOUNDARY|
    ensures RawScan(buf, from, best) == Scan(best, |buf|)
  {
    hide Stream, StartOf, Headers, RawScan, Ascii;
    BodiesInOrder(bodies, i, i, s);
    forall k | from <= k < |buf|
      ensures buf[k] != 0xFF
    {
      PlainByte(bodies, i + 1, s, p + from, p + k);
      WindowByte(s, p, q, buf, k);
    }
    NoMarker(buf, from, best);
  }

  /** What one pop finds in a window that starts behind a boundary: body i only if the next boundary is not there. */
  lemma PopHeadless(bodies: seq<Bytes>, i: nat, s: Bytes, p: nat, q: nat, buf: Bytes, r: Scan) returns (j: nat)
    requires GoodBodies(bodies) && Sendable(bodies) && s == Stream(bodies) && Window(s, p, q, buf)
    requires Headless(bodies, i, p) && r == PopScan(buf, 0, None)
    ensures i <= j && Completed(bodies, q, j)
    ensures j == i ==> r.latest == None && Headless(bodies, i, p + r.rest)
    ensures j > i ==> StopsBefore(bodies, j, q, p + r.rest) && p <= BodyStart(bodies, j - 1)
    ensures j > i ==>
              r.latest == if j == i + 1 && j < |bodies| && StartOf(bodies, j) + |BOUNDARY| <= q then None
                          else Some(Range(BodyStart(bodies, j - 1) - p, BodyEnd(bodies, j - 1) - p))
  {
    hide At, Find, Stream, StartOf, Headers, GoodBodies, Sendable, PopScan, RawScan, Window, Ascii;
    WindowSize(s, p, q, buf);
    PartsFollow(bodies, i, i + 1, s);
    if i > 0 {
      PartsFollow(bodies, i - 1, i, s);
    }
    var mark := Find(buf, BOUNDARY, 0);
    NextBoundary(bodies, i, s, p, q, buf, mark);
    if mark != -1 {
      SkipTo(buf, mark);
      j := PopNewest(bodies, i + 1, s, p, q, buf, mark, None);
      if j > i + 1 {
        PartsFollow(bodies, i + 1, j, s);
      }
    } else {
      NoBoundary(buf);
      RawHeadless(bodies, i, s, p, q, buf);
      j := if q < BodyEnd(bodies, i) then i else i + 1;
      NothingBeyond(bodies, i + 1, s, q);
    }
  }

  lemma SkipTo(buf: Bytes, mark: nat)
    requires mark == Find(buf, BOUNDARY, 0)
    ensures mark <= |buf| && PopScan(buf, 0, None) == PopScan(buf, mark, None)
  {
    hide At, ContentLength, RawOrBest, AfterBody, Ascii;
    FindIsFirst(buf, BOUNDARY, 0);
    FindHere(buf, BOUNDARY, mark, mark);
  }

  lemma NoBoundary(buf: Bytes)
    requires Find(buf, BOUNDARY, 0) == -1
    ensures PopScan(buf, 0, None) == RawScan(buf, 0, None)
  {
    hide Find, RawScan;
  }

  // ----- An overlong buffer -----

  lemma {:induction false} DecimalIsShort(n: nat)
    ensures |Decimal(n)| <= 1 + n / 10
  {
    if n >= 10 {
      DecimalIsShort(n / 10);
    }
  }

  lemma HeadersAreShort(n: nat)
    ensures n <= MAX_FRAME ==> |Headers(n)| < 1_000_000
  {
    hide Decimal, Ascii;
    DecimalIsShort(n);
    HeaderByte(n, 0, Headers(n), LengthLine(n));
    assert |LengthLine(n)| == 16 + |Decimal(n)|;
  }

  /** Position p lies between the end of the body before part a and the body of part a. */
  ghost predicate Near(bodies: seq<Bytes>, a: nat, p: nat)
  {
    a <= |bodies| && (a > 0 ==> BodyEnd(bodies, a - 1) <= p) && (a < |bodies| ==> p <= BodyStart(bodies, a))
  }

  lemma GapIsShort(bodies: seq<Bytes>, a: nat, s: Bytes, p: nat)
    requires s == Stream(bodies) && Near(bodies, a, p)
    ensures StartOf(bodies, a) <= p + 2 && (a == |bodies| ==> |s| == StartOf(bodies, a))
  {
    hide Stream, StartOf, Headers, BodyStart;
    if a == 0 {
      StartOfFirst(bodies);
    } else {
      BodiesInOrder(bodies, a - 1, a - 1, s);
    }
    StreamLength(bodies, a, s);
  }

  lemma BodyStartIsNear(bodies: seq<Bytes>, a: nat)
    requires Sendable(bodies) && a < |bodies|
    ensures BodyStart(bodies, a) < StartOf(bodies, a) + 1_000_004
  {
    hide Stream, StartOf, Headers;
    HeadersAreShort(|bodies[a]|);
  }

  /** Only a body can make the buffer overlong, so its SOI is there. */
  lemma SoiIsThere(bodies: seq<Bytes>, a: nat, s: Bytes, p: nat, q: nat)
    requires Sendable(bodies) && s == Stream(bodies) && p <= q <= |s| && Near(bodies, a, p) && q - p > MAX_FRAME
    ensures a < |bodies| && BodyStart(bodies, a) + 2 <= q
  {
    hide Stream, Sendable, StartOf, BodyStart, BodyEnd;
    GapIsShort(bodies, a, s, p);
    if a < |bodies| {
      BodyStartIsNear(bodies, a);
    }
  }

  /** The last SOI in the buffer starts a body no older than a, and no newer one has begun. */
  lemma LastSoi(bodies: seq<Bytes>, a: nat, s: Bytes, p: nat, q: nat, buf: Bytes, start: int) returns (k: nat)
    requires GoodBodies(bodies) && Sendable(bodies) && s == Stream(bodies) && Window(s, p, q, buf)
    requires Near(bodies, a, p) && |buf| > MAX_FRAME && start == FindLast(buf, SOI, |buf|)
    ensures start >= 0 && a <= k < |bodies| && p + start == BodyStart(bodies, k) && BodyStart(bodies, k) + 2 <= q
    ensures k + 1 < |bodies| ==> q < BodyStart(bodies, k + 1) + 2
  {
    hide At, FindLast, Stream, StartOf, Headers, GoodBodies, Sendable;
    SoiIsThere(bodies, a, s, p, q);
    FindLastIsLast(buf, SOI, |buf|);
    SoiOf(bodies, a, s);
    AtInSlice(s, p, q, SOI, BodyStart(bodies, a) - p);
    AtInSlice(s, p, q, SOI, start);
    k := SoiAtBodyStart(bodies, s, p + start);
    if k < a {
      BodiesInOrder(bodies, k, a, s);
    }
    if k + 1 < |bodies| {
      SoiOf(bodies, k + 1, s);
      BodiesInOrder(bodies, k, k + 1, s);
      AtInSlice(s, p, q, SOI, BodyStart(bodies, k + 1) - p);
    }
  }

  // ----- One chunk -----

  ghost predicate Place(bodies: seq<Bytes>, b: nat, p: nat, beheaded: bool)
  {
    if beheaded then Headless(bodies, b, p) else InGap(bodies, b, p)
  }

  /** From a place before body a, beheaded or not, and a buffer overlong or not: bodies up to b are complete after q
      bytes, this is the frame, and the search goes on here. */
  ghost predicate Outcome(bodies: seq<Bytes>, a: nat, cut: bool, big: bool, q: nat, b: nat, frame: Option<Bytes>,
                          p: nat)
  {
    && a <= b <= |bodies| && Completed(bodies, q, b)
    && frame == (if b == a || ((big || (cut && b == a + 1)) && b < |bodies| && StartOf(bodies, b) + |BOUNDARY| <= q)
                 then None else Some(bodies[b - 1]))
    && Place(bodies, b, p, b < |bodies| && ((cut && b == a) || InBoundary(bodies, b, q)
                           || (big && BodyStart(bodies, b) + 2 <= q < BodyEnd(bodies, b))))
  }

  lemma NotBothAtOnce(bodies: seq<Bytes>, b: nat, q: nat)
    requires InBoundary(bodies, b, q)
    ensures Headless(bodies, b, q)
  {
    hide StartOf, Headers, Ascii;
    HeadersAreLong(bodies, b);
  }

  lemma FeedFromGap(bodies: seq<Bytes>, a: nat, s: Bytes, p: nat, q: nat, buf: Bytes, r: Scan) returns (b: nat)
    requires GoodBodies(bodies) && Sendable(bodies) && s == Stream(bodies) && Window(s, p, q, buf)
    requires InGap(bodies, a, p) && r == PopScan(buf, 0, None)
    ensures Outcome(bodies, a, false, false, q, b, Frame(buf, r.latest), p + r.rest)
  {
    hide Stream, StartOf, Headers, GoodBodies, Sendable, PopScan, Window, Ascii;
    b := PopNewest(bodies, a, s, p, q, buf, 0, None);
    if b > a {
      BodyInWindow(bodies, b - 1, s, p, q, buf);
    }
    if InBoundary(bodies, b, q) {
      NotBothAtOnce(bodies, b, q);
    }
  }

  lemma FeedHeadless(bodies: seq<Bytes>, a: nat, s: Bytes, p: nat, q: nat, buf: Bytes, r: Scan) returns (b: nat)
    requires GoodBodies(bodies) && Sendable(bodies) && s == Stream(bodies) && Window(s, p, q, buf)
    requires Headless(bodies, a, p) && r == PopScan(buf, 0, None)
    ensures Outcome(bodies, a, true, false, q, b, Frame(buf, r.latest), p + r.rest)
  {
    hide Stream, StartOf, Headers, GoodBodies, Sendable, PopScan, Window, Ascii;
    b := PopHeadless(bodies, a, s, p, q, buf, r);
    if b > a {
      BodyInWindow(bodies, b - 1, s, p, q, buf);
    }
    if InBoundary(bodies, b, q) {
      NotBothAtOnce(bodies, b, q);
    }
  }

  /** Cut down to its last SOI, an overlong buffer starts at the newest body begun. */
  lemma TrimmedAtSoi(bodies: seq<Bytes>, a: nat, s: Bytes, p: nat, q: nat, buf: Bytes, t: Bytes) returns (k: nat)
    requires GoodBodies(bodies) && Sendable(bodies) && s == Stream(bodies) && Window(s, p, q, buf)
    requires Near(bodies, a, p) && |buf| > MAX_FRAME && t == Trimmed(buf)
    ensures NewestBegun(bodies, k, q) && a <= k && Window(s, BodyStart(bodies, k), q, t)
  {
    hide Stream, GoodBodies, Sendable, FindLast, Near, BodyStart, BodyEnd;
    var start := FindLast(buf, SOI, |buf|);
    k := LastSoi(bodies, a, s, p, q, buf, start);
    SliceOfSlice(s, p, q, start, q - p);
  }

  ghost predicate NewestBegun(bodies: seq<Bytes>, k: nat, q: nat)
  {
    k < |bodies| && BodyStart(bodies, k) + 2 <= q && (k + 1 < |bodies| ==> q < BodyStart(bodies, k + 1) + 2)
  }

  lemma FeedOverlong(bodies: seq<Bytes>, a: nat, k: nat, cut: bool, s: Bytes, q: nat, t: Bytes, r: Scan)
    returns (b: nat)
    requires GoodBodies(bodies) && Sendable(bodies) && s == Stream(bodies) && NewestBegun(bodies, k, q) && a <= k
    requires Window(s, BodyStart(bodies, k), q, t) && r == PopScan(t, 0, None)
    ensures |t| <= q && Outcome(bodies, a, cut, true, q, b, Frame(t, r.latest), q - |t| + r.rest)
  {
    hide Stream, StartOf, Headers, GoodBodies, Sendable, PopScan, Window, Ascii;
    var p := BodyStart(bodies, k);
    WindowSize(s, p, q, t);
    PartsFollow(bodies, k, k + 1, s);
    b := PopHeadless(bodies, k, s, p, q, t, r);
    OneOrNone(bodies, k, b, s, q);
    if b > k {
      BodyInWindow(bodies, b - 1, s, p, q, t);
    }
    if InBoundary(bodies, b, q) {
      NotBothAtOnce(bodies, b, q);
    }
  }

  lemma EndsGrow(bodies: seq<Bytes>, i: nat, j: nat, s: Bytes)
    requires s == Stream(bodies) && i <= j < |bodies|
    ensures BodyEnd(bodies, i) <= BodyEnd(bodies, j)
  {
    hide Stream, StartOf, Headers;
    BodiesInOrder(bodies, i, j, s);
  }

  lemma OneOrNone(bodies: seq<Bytes>, k: nat, b: nat, s: Bytes, q: nat)
    requires GoodBodies(bodies) && s == Stream(bodies) && NewestBegun(bodies, k, q) && k <= b && Completed(bodies, q, b)
    ensures b <= k + 1 && StartOf(bodies, k) + |BOUNDARY| <= q
  {
    hide Stream, StartOf, Headers, GoodBodies, Ascii;
    HeadersAreLong(bodies, k);
    if b > k + 1 {
      SoiOf(bodies, k + 1, s);
      EndsGrow(bodies, k + 1, b - 1, s);
    }
  }

  // ----- Runs -----

  ghost predicate Cut(bodies: seq<Bytes>, chunks: seq<Bytes>, b: nat)
  {
    b < |bodies| && Beheaded(bodies, chunks, b)
  }

  /** The first b bodies are complete, and what is kept begins before the next one. */
  ghost predicate Stands(bodies: seq<Bytes>, chunks: seq<Bytes>, b: nat)
  {
    && b <= |bodies| && Completed(bodies, |Received(chunks)|, b) && |Kept(chunks)| <= |Received(chunks)|
    && Place(bodies, b, |Received(chunks)| - |Kept(chunks)|, Cut(bodies, chunks, b))
  }

  lemma PlaceIsNear(bodies: seq<Bytes>, a: nat, s: Bytes, p: nat, cut: bool)
    requires s == Stream(bodies) && Place(bodies, a, p, cut)
    ensures Near(bodies, a, p)
  {
    hide Stream, StartOf, Headers;
    if a > 0 {
      PartsFollow(bodies, a - 1, a, s);
    }
    if a < |bodies| {
      PartsFollow(bodies, a, a + 1, s);
    }
  }

  lemma FeedWhole(bodies: seq<Bytes>, a: nat, cut: bool, s: Bytes, p: nat, q: nat, buf: Bytes, r: Scan)
    returns (b: nat)
    requires GoodBodies(bodies) && Sendable(bodies) && s == Stream(bodies) && Window(s, p, q, buf)
    requires Place(bodies, a, p, cut) && r == PopScan(buf, 0, None)
    ensures Outcome(bodies, a, cut, false, q, b, Frame(buf, r.latest), p + r.rest)
  {
    hide Stream, GoodBodies, Sendable, PopScan, Window, Outcome, InGap, Headless;
    if cut {
      b := FeedHeadless(bodies, a, s, p, q, buf, r);
    } else {
      b := FeedFromGap(bodies, a, s, p, q, buf, r);
    }
  }

  lemma FeedAnyway(bodies: seq<Bytes>, a: nat, cut: bool, s: Bytes, p: nat, q: nat, buf: Bytes, t: Bytes, r: Scan)
    returns (b: nat)
    requires GoodBodies(bodies) && Sendable(bodies) && s == Stream(bodies) && Window(s, p, q, buf)
    requires Place(bodies, a, p, cut) && t == Trimmed(buf) && r == PopScan(t, 0, None)
    ensures |t| <= q && Outcome(bodies, a, cut, |buf| > MAX_FRAME, q, b, Frame(t, r.latest), q - |t| + r.rest)
  {
    hide Stream, GoodBodies, Sendable, PopScan, Window, Outcome, Place, Trimmed;
    if |buf| > MAX_FRAME {
      PlaceIsNear(bodies, a, s, p, cut);
      var k := TrimmedAtSoi(bodies, a, s, p, q, buf, t);
      b := FeedOverlong(bodies, a, k, cut, s, q, t, r);
    } else {
      NotTrimmed(buf);
      WindowSize(s, p, q, buf);
      b := FeedWhole(bodies, a, cut, s, p, q, buf, r);
    }
  }

  lemma FedParts(kept: Bytes, chunk: Bytes, buf: Bytes, t: Bytes, r: Scan, fed: Fed)
    requires buf == kept + chunk && t == Trimmed(buf) && r == PopScan(t, 0, None) && fed == FeedOne(kept, chunk)
    ensures fed.latest == Frame(t, r.latest) && |fed.buf| == |t| - r.rest
  {
    hide PopScan, Trimmed;
  }

  /** One more chunk, in terms of the places before and after it. */
  lemma OneExactFeed(bodies: seq<Bytes>, s: Bytes, before: seq<Bytes>, chunk: Bytes, whole: Bytes, fed: Fed, a: nat)
    returns (b: nat)
    requires GoodBodies(bodies) && Sendable(bodies) && s == Stream(bodies) && Stands(bodies, before, a)
    requires whole == Received(before) && whole + chunk <= s && fed == FeedOne(Kept(before), chunk)
    ensures |fed.buf| <= |whole| + |chunk|
    ensures Outcome(bodies, a, Cut(bodies, before, a), Overlong(before, chunk), |whole| + |chunk|, b, fed.latest,
                    |whole| + |chunk| - |fed.buf|)
  {
    hide Stream, Received, Kept, GoodBodies, Sendable, PopScan, Completed, Outcome, Place, Window, IsSuffix, Trimmed,
      Cut, FeedOne;
    var kept := Kept(before);
    KeptIsSuffix(before);
    GrownSuffix(kept, whole, chunk);
    var buf := kept + chunk;
    var q := |whole + chunk|;
    var p := q - |buf|;
    SuffixWindow(s, whole + chunk, buf);
    var t := Trimmed(buf);
    var r := PopScan(t, 0, None);
    FedParts(kept, chunk, buf, t, r, fed);
    b := FeedAnyway(bodies, a, Cut(bodies, before, a), s, p, q, buf, t, r);
  }

  lemma {:induction false} BeheadedLater(bodies: seq<Bytes>, chunks: seq<Bytes>, i: nat)
    requires i < |bodies| && Beheaded(bodies, chunks, i)
    ensures StartOf(bodies, i) < |Received(chunks)|
  {
    hide StartOf, Headers, Overlong;
    var before := chunks[..|chunks| - 1];
    if Beheaded(bodies, before, i) {
      BeheadedLater(bodies, before, i);
    }
  }

  /** A part whose predecessor is not complete yet has lost no boundary. */
  lemma NotYet(bodies: seq<Bytes>, chunks: seq<Bytes>, a: nat, i: nat)
    requires Completed(bodies, |Received(chunks)|, a) && a < i < |bodies|
    ensures !Beheaded(bodies, chunks, i)
  {
    hide Stream, StartOf, Received, Beheaded;
    PartsFollow(bodies, a, i, Stream(bodies));
    if Beheaded(bodies, chunks, i) {
      BeheadedLater(bodies, chunks, i);
    }
  }

  lemma NextExact(bodies: seq<Bytes>, chunks: seq<Bytes>, before: seq<Bytes>, chunk: Bytes, a: nat) returns (b: nat)
    requires GoodBodies(bodies) && Sendable(bodies) && chunks == before + [chunk] && Received(chunks) <= Stream(bodies)
    requires Stands(bodies, before, a)
    ensures DeliversExactly(bodies, chunks, |before|, a, b) && Stands(bodies, chunks, b)
  {
    hide Stream, FeedOne, Received, Kept, GoodBodies, Sendable, Completed, Place, InBoundary, BodyStart, BodyEnd,
      StartOf, Overlong, Beheaded;
    OneMoreChunk(chunks, before, chunk);
    b := OneExactFeed(bodies, Stream(bodies), before, chunk, Received(before), FeedOne(Kept(before), chunk), a);
    assert chunks[..|before|] == before && chunks[..|before| + 1] == chunks;
    if b > a + 1 {
      NotYet(bodies, before, a, b - 1);
    }
    if a < b < |bodies| {
      NotYet(bodies, before, a, b);
    }
    if b < |bodies| {
      BeheadedNow(bodies, chunks, before, chunk, b);
    }
  }

  lemma BeheadedNow(bodies: seq<Bytes>, chunks: seq<Bytes>, before: seq<Bytes>, chunk: Bytes, i: nat)
    requires chunks == before + [chunk] && i < |bodies|
    ensures Beheaded(bodies, chunks, i) <==>
            || Beheaded(bodies, before, i)
            || InBoundary(bodies, i, |Received(before)| + |chunk|)
            || (Overlong(before, chunk)
                && BodyStart(bodies, i) + 2 <= |Received(before)| + |chunk| < BodyEnd(bodies, i))
  {
    hide InBoundary, Overlong, BodyStart, BodyEnd;
    assert chunks[..|chunks| - 1] == before && chunks[|chunks| - 1] == chunk;
    assert |Received(chunks)| == |Received(before)| + |chunk|;
  }

  // ----- Every cutting -----

  lemma StandsAtStart(bodies: seq<Bytes>)
    ensures Stands(bodies, [], 0)
  {
    hide Headers;
    StartOfFirst(bodies);
    if bodies != [] {
      HeadersAreLong(bodies, 0);
    }
  }

  lemma ExactlyLonger(bodies: seq<Bytes>, before: seq<Bytes>, chunks: seq<Bytes>, n: nat, a: nat, b: nat)
    requires n < |before| < |chunks| && before == chunks[..|before|] && DeliversExactly(bodies, before, n, a, b)
    ensures DeliversExactly(bodies, chunks, n, a, b)
  {
    hide Completed, FeedOne, PassedOver;
    assert before[..n] == chunks[..n] && before[..n + 1] == chunks[..n + 1];
  }

  /** JPEG bodies of usable size, cut into any chunks at all: each chunk yields the newest body completed in it, unless
      that one is passed over. */
  lemma {:induction false} DeliveredExactly(bodies: seq<Bytes>, chunks: seq<Bytes>) returns (done: seq<nat>)
    requires GoodBodies(bodies) && Sendable(bodies) && Received(chunks) <= Stream(bodies)
    ensures |done| == |chunks| + 1 && done[0] == 0 && Stands(bodies, chunks, done[|chunks|])
    ensures forall n | 0 <= n < |chunks| :: DeliversExactly(bodies, chunks, n, done[n], done[n + 1])
  {
    hide GoodBodies, Sendable, DeliversExactly, Stands, Stream, FeedOne;
    if chunks == [] {
      StandsAtStart(bodies);
      done := [0];
    } else {
      var last := |chunks| - 1;
      var before := chunks[..last];
      var earlier := DeliveredExactly(bodies, before);
      var b := NextExact(bodies, chunks, before, chunks[last], earlier[last]);
      done := earlier + [b];
      forall n | 0 <= n < |chunks|
        ensures DeliversExactly(bodies, chunks, n, done[n], done[n + 1])
      {
        if n < last {
          ExactlyLonger(bodies, before, chunks, n, done[n], done[n + 1]);
        }
      }
    }
  }

  // ----- A frame lost -----

  lemma CompletedOnce(bodies: seq<Bytes>, q: nat, a: nat, i: nat)
    requires Completed(bodies, q, a) && i <= |bodies|
    requires (i > 0 ==> BodyEnd(bodies, i - 1) <= q) && (i < |bodies| ==> q < BodyEnd(bodies, i))
    ensures a == i
  {
    hide Stream, StartOf, Headers;
    if a < i {
      EndsGrow(bodies, a, i - 1, Stream(bodies));
    } else if i < a {
      EndsGrow(bodies, i, a - 1, Stream(bodies));
    }
  }

  lemma CompletedInBoundary(bodies: seq<Bytes>, q: nat, a: nat, i: nat)
    requires Completed(bodies, q, a) && InBoundary(bodies, i, q)
    ensures a == i
  {
    hide Stream, StartOf, Headers, Ascii;
    if i > 0 {
      PartsFollow(bodies, i - 1, i, Stream(bodies));
    }
    HeadersAreLong(bodies, i);
    CompletedOnce(bodies, q, a, i);
  }

  /** A chunk ends inside the boundary of part i, and the next one holds the boundary of part i + 1 but not its body:
      nothing is yielded for body i, and the reader has let go of it. */
  lemma CutBoundaryLosesAFrame(bodies: seq<Bytes>, chunks: seq<Bytes>, before: seq<Bytes>, chunk: Bytes, i: nat)
    requires GoodBodies(bodies) && Sendable(bodies) && Received(chunks) <= Stream(bodies) && chunks == before + [chunk]
    requires i + 1 < |bodies| && InBoundary(bodies, i, |Received(before)|)
    requires StartOf(bodies, i + 1) + |BOUNDARY| <= |Received(chunks)| < BodyEnd(bodies, i + 1)
    ensures Yielded(chunks, |before|) == None && BodyEnd(bodies, i) <= Consumed(chunks)
  {
    hide Stream, FeedOne, Received, Kept, GoodBodies, Sendable, StartOf, Headers, Overlong, Yielded, Ascii;
    OneMoreChunk(chunks, before, chunk);
    var done := DeliveredExactly(bodies, before);
    var a, s := done[|before|], Stream(bodies);
    CompletedInBoundary(bodies, |Received(before)|, a, i);
    var b := NextExact(bodies, chunks, before, chunk, a);
    PartsFollow(bodies, i, i + 1, s);
    CompletedOnce(bodies, |Received(chunks)|, b, i + 1);
    CutNow(bodies, before, i);
    assert chunks[..|before|] == before && chunks[..|before| + 1] == chunks;
    PlaceIsNear(bodies, b, s, |Received(chunks)| - |Kept(chunks)|, Cut(bodies, chunks, b));
  }

  lemma CutNow(bodies: seq<Bytes>, chunks: seq<Bytes>, i: nat)
    requires InBoundary(bodies, i, |Received(chunks)|)
    ensures Beheaded(bodies, chunks, i)
  {
    hide StartOf, Overlong;
  }

  /** So two chunks are enough to lose any body but the last. */
  lemma AnyBodyCanBeLost(bodies: seq<Bytes>, i: nat, k: nat, m: nat) returns (chunks: seq<Bytes>)
    requires GoodBodies(bodies) && Sendable(bodies) && i + 1 < |bodies| && InBoundary(bodies, i, k)
    requires StartOf(bodies, i + 1) + |BOUNDARY| <= m < BodyEnd(bodies, i + 1)
    ensures m <= |Stream(bodies)|
    ensures |chunks| == 2 && Received(chunks) == Stream(bodies)[..m] && |Received(chunks[..1])| == k
    ensures Yielded(chunks, 1) == None && BodyEnd(bodies, i) <= Consumed(chunks)
  {
    hide GoodBodies, Sendable, StartOf, Headers, Stream, FeedOne, Kept, Yielded, Ascii;
    var s := Stream(bodies);
    BodiesInOrder(bodies, i + 1, i + 1, s);
    PartsFollow(bodies, i, i + 1, s);
    HeadersAreLong(bodies, i);
    chunks := [s[..k], s[k..m]];
    TwoChunks(s[..k], s[k..m]);
    assert s[..k] + s[k..m] == s[..m];
    CutBoundaryLosesAFrame(bodies, chunks, [s[..k]], s[k..m], i);
  }

  lemma TwoChunks(a: Bytes, b: Bytes)
    ensures Received([a]) == a && Received([a, b]) == a + b && [a, b][..1] == [a] && [a, b] == [a] + [b]
  {
    assert Received([]) == [];
    assert [a][..0] == [] && [a, b][..1] == [a];
    assert [] + a == a;
  }
}

/** The incremental MJPEG reader: app/desktop/streams.py. Multipart framing follows section 5.1.1 of RFC 2046;
    the SOI and EOI markers are those of Table B.1, Annex B of ITU-T T.81. */
module Mjpeg {
  import opened Options

  type Byte = x: int | 0 <= x < 256

  type Bytes = seq<Byte>

  predicate IsAscii(s: string)
  {
    forall i | 0 <= i < |s| :: s[i] < 128 as char
  }

  function Ascii(s: string): (r: Bytes)
    requires IsAscii(s)
    ensures |r| == |s|
  {
    seq(|s|, i requires 0 <= i < |s| => s[i] as int)
  }

  const SOI: Bytes := [0xFF, 0xD8]
  const EOI: Bytes := [0xFF, 0xD9]
  const CRLF: Bytes := [13, 10]
  const BLANK_LINE: Bytes := [13, 10, 13, 10]
  const BOUNDARY: Bytes := Ascii("--smartparkframe")
  const CONTENT_LENGTH: Bytes := Ascii("content-length:")
  const COLON: Bytes := [58]
  const MAX_FRAME: nat := 2_500_000
  const KEPT_TAIL: nat := 120_000

  // ----- Searching -----

  predicate At(buf: Bytes, needle: Bytes, i: int)
  {
    0 <= i && i + |needle| <= |buf| && buf[i..i + |needle|] == needle
  }

  /** The first occurrence at or after from, -1 if there is none. */
  function Find(buf: Bytes, needle: Bytes, from: nat): (i: int)
    ensures i == -1 || (from <= i && i + |needle| <= |buf|)
    decreases |buf| - from
  {
    if from + |needle| > |buf| then -1
    else if At(buf, needle, from) then from
    else Find(buf, needle, from + 1)
  }

  ghost predicate IsFirst(buf: Bytes, needle: Bytes, from: nat, i: int)
  {
    && (i == -1 || (from <= i && At(buf, needle, i)))
    && forall k :: from <= k && (i == -1 || k < i) ==> !At(buf, needle, k)
  }

  lemma {:induction false} FindIsFirst(buf: Bytes, needle: Bytes, from: nat)
    ensures IsFirst(buf, needle, from, Find(buf, needle, from))
    decreases |buf| - from
  {
    if from + |needle| <= |buf| && !At(buf, needle, from) {
      FindIsFirst(buf, needle, from + 1);
    }
  }

  /** The first occurrence is the only index with its two properties. */
  lemma FindUnique(buf: Bytes, needle: Bytes, from: nat, i: int)
    requires IsFirst(buf, needle, from, i)
    ensures Find(buf, needle, from) == i
  {
    FindIsFirst(buf, needle, from);
  }

  /** The last occurrence that starts before to, -1 if there is none. */
  function FindLast(buf: Bytes, needle: Bytes, to: nat): (i: int)
    ensures i == -1 || (0 <= i < to && i + |needle| <= |buf|)
  {
    if to == 0 then -1
    else if At(buf, needle, to - 1) then to - 1
    else FindLast(buf, needle, to - 1)
  }

  lemma AtShifts(buf: Bytes, off: nat, needle: Bytes, k: nat)
    requires off <= |buf|
    ensures At(buf[off..], needle, k) <==> At(buf, needle, off + k)
  {
    if off + k + |needle| <= |buf| {
      assert buf[off..][k..k + |needle|] == buf[off + k..off + k + |needle|];
    }
  }

  /** Searching what is left after dropping a prefix is searching from that offset. */
  lemma FindShifts(buf: Bytes, off: nat, needle: Bytes, from: nat)
    requires off <= |buf|
    ensures var i := Find(buf[off..], needle, from);
            Find(buf, needle, off + from) == if i == -1 then -1 else off + i
  {
    var i := Find(buf[off..], needle, from);
    FindIsFirst(buf[off..], needle, from);
    forall k | off + from <= k && (i == -1 || k < off + i)
      ensures !At(buf, needle, k)
    {
      AtShifts(buf, off, needle, k - off);
    }
    if i != -1 {
      AtShifts(buf, off, needle, i);
    }
    FindUnique(buf, needle, off + from, if i == -1 then -1 else off + i);
  }

  // ----- Headers -----

  function Lower(b: Byte): Byte { if 65 <= b <= 90 then b + 32 else b }

  predicate StartsWithFolded(line: Bytes, prefix: Bytes)
  {
    |prefix| <= |line| && forall i | 0 <= i < |prefix| :: Lower(line[i]) == prefix[i]
  }

  predicate IsSpace(b: Byte) { b == 32 || 9 <= b <= 13 }

  predicate IsDigit(b: Byte) { 48 <= b <= 57 }

  function Strip(s: Bytes): Bytes
  {
    if s == [] then []
    else if IsSpace(s[0]) then Strip(s[1..])
    else if IsSpace(s[|s| - 1]) then Strip(s[..|s| - 1])
    else s
  }

  /** Decimal digits, single underscores allowed between them; a digit must come next. */
  function Digits(s: Bytes, acc: nat): Option<nat>
  {
    if s == [] || !IsDigit(s[0]) then None
    else
      var more := 10 * acc + (s[0] - 48);
      if |s| == 1 then Some(more)
      else if s[1] == 95 then Digits(s[2..], more)
      else Digits(s[1..], more)
  }

  /** Integer text as Python's int() reads it: spaces around, an optional sign, digits. */
  function ParseInt(text: Bytes): Option<int>
  {
    var s := Strip(text);
    if s != [] && s[0] == 45 then
      var d := Digits(s[1..], 0);
      match d { case None => None case Some(v) => var n: int := v; Some(-n) }
    else
      var d := Digits(if s != [] && s[0] == 43 then s[1..] else s, 0);
      if d.Some? then Some(d.value) else None
  }

  function Lines(s: Bytes): (lines: seq<Bytes>)
    ensures lines != []
    decreases |s|
  {
    var i := Find(s, CRLF, 0);
    if i == -1 then [s] else [s[..i]] + Lines(s[i + 2..])
  }

  function AfterColon(line: Bytes): Bytes
  {
    var i := Find(line, COLON, 0);
    if i == -1 then [] else line[i + 1..]
  }

  /** The value of the first Content-Length line, None if there is none or it is not a number. */
  function LengthIn(lines: seq<Bytes>): Option<int>
  {
    if lines == [] then None
    else if StartsWithFolded(lines[0], CONTENT_LENGTH) then ParseInt(AfterColon(lines[0]))
    else LengthIn(lines[1..])
  }

  function ContentLength(headers: Bytes): Option<int> { LengthIn(Lines(headers)) }

  method ReadContentLength(headers: Bytes) returns (length: Option<int>)
    ensures length == ContentLength(headers)
  {
    var lines := Lines(headers);
    for i := 0 to |lines|
      invariant LengthIn(lines) == LengthIn(lines[i..])
    {
      if StartsWithFolded(lines[i], CONTENT_LENGTH) {
        return ParseInt(AfterColon(lines[i]));
      }
      assert lines[i..][1..] == lines[i + 1..];
    }
    length := None;
  }

  // ----- What one pop finds, as positions in the buffer -----

  datatype Range = Range(lo: nat, hi: nat)

  /** The newest frame found, and where the kept remainder starts. */
  datatype Scan = Scan(latest: Option<Range>, rest: nat)

  function RawScan(buf: Bytes, from: nat, best: Option<Range>): (r: Scan)
    requires from <= |buf|
    ensures from <= r.rest <= |buf|
    decreases |buf| - from
  {
    var start := Find(buf, SOI, from);
    if start == -1 then Scan(best, if from < |buf| && buf[|buf| - 1] == 0xFF then |buf| - 1 else |buf|)
    else
      var end := Find(buf, EOI, start + 2);
      if end == -1 then Scan(best, start)
      else RawScan(buf, end + 2, Some(Range(start, end + 2)))
  }

  function RawOrBest(buf: Bytes, from: nat, best: Option<Range>): (r: Scan)
    requires from <= |buf|
    ensures from <= r.rest <= |buf|
  {
    var raw := RawScan(buf, from, None);
    if raw.latest.Some? then raw else Scan(best, raw.rest)
  }

  predicate Usable(length: Option<int>) { length.Some? && 0 < length.value <= MAX_FRAME }

  /** Where the next part starts: a line break right after the body is skipped. */
  function AfterBody(buf: Bytes, end: nat): (next: nat)
    requires end <= |buf|
    ensures end <= next <= |buf|
  {
    if At(buf, CRLF, end) then end + 2 else end
  }

  function PopScan(buf: Bytes, from: nat, best: Option<Range>): (r: Scan)
    requires from <= |buf|
    ensures from <= r.rest <= |buf|
    decreases |buf| - from
  {
    var mark := Find(buf, BOUNDARY, from);
    if mark == -1 then RawOrBest(buf, from, best)
    else
      var headerEnd := Find(buf, BLANK_LINE, mark);
      if headerEnd == -1 then Scan(best, mark)
      else
        var length := ContentLength(buf[mark..headerEnd]);
        var body := headerEnd + 4;
        if !Usable(length) then RawOrBest(buf, body, best)
        else if |buf| - body < length.value then Scan(best, mark)
        else
          var end := body + length.value;
          PopScan(buf, AfterBody(buf, end), Some(Range(body, end)))
  }

  /** The bytes of a frame found in the buffer. */
  function Frame(buf: Bytes, r: Option<Range>): Option<Bytes>
  {
    if r.Some? && r.value.lo <= r.value.hi <= |buf| then Some(buf[r.value.lo..r.value.hi]) else None
  }

  ghost predicate InBuffer(buf: Bytes, r: Option<Range>)
  {
    r.Some? ==> r.value.lo < r.value.hi <= |buf|
  }

  lemma {:induction false} RawScanInBuffer(buf: Bytes, from: nat, best: Option<Range>)
    requires from <= |buf| && InBuffer(buf, best)
    ensures InBuffer(buf, RawScan(buf, from, best).latest)
    decreases |buf| - from
  {
    hide Find;
    var start := Find(buf, SOI, from);
    if start != -1 {
      var end := Find(buf, EOI, start + 2);
      if end != -1 {
        RawScanInBuffer(buf, end + 2, Some(Range(start, end + 2)));
      }
    }
  }

  lemma {:induction false} PopScanInBuffer(buf: Bytes, from: nat, best: Option<Range>)
    requires from <= |buf| && InBuffer(buf, best)
    ensures InBuffer(buf, PopScan(buf, from, best).latest)
    decreases |buf| - from
  {
    hide Find, ContentLength, RawScan;
    var mark := Find(buf, BOUNDARY, from);
    if mark == -1 {
      RawScanInBuffer(buf, from, None);
    } else {
      var headerEnd := Find(buf, BLANK_LINE, mark);
      if headerEnd != -1 {
        var length := ContentLength(buf[mark..headerEnd]);
        var body := headerEnd + 4;
        if !Usable(length) {
          RawScanInBuffer(buf, body, None);
        } else if |buf| - body >= length.value {
          var end := body + length.value;
          PopScanInBuffer(buf, AfterBody(buf, end), Some(Range(body, end)));
        }
      }
    }
  }

  // ----- The program -----

  /** One turn of the raw search on the dropped buffer, in positions of the whole buffer. */
  lemma RawTurn(buf: Bytes, off: nat, best: Option<Range>, tail: Bytes, start: int, end: int)
    requires off <= |buf| && tail == buf[off..]
    requires start == Find(tail, SOI, 0) && end == if start == -1 then -1 else Find(tail, EOI, start + 2)
    ensures start == -1 ==> RawScan(buf, off, best) ==
                            Scan(best, if tail != [] && tail[|tail| - 1] == 0xFF then |buf| - 1 else |buf|)
    ensures start != -1 && end == -1 ==> RawScan(buf, off, best) == Scan(best, off + start)
    ensures end != -1 ==> RawScan(buf, off, best) ==
                          RawScan(buf, off + end + 2, Some(Range(off + start, off + end + 2)))
  {
    hide Find, At;
    FindShifts(buf, off, SOI, 0);
    if start != -1 {
      FindShifts(buf, off, EOI, start + 2);
    }
  }

  lemma DropTwice(buf: Bytes, off: nat, k: nat)
    requires off + k <= |buf|
    ensures buf[off..][k..] == buf[off + k..]
  {
  }

  lemma SliceOfDrop(buf: Bytes, off: nat, lo: nat, hi: nat)
    requires lo <= hi && off + hi <= |buf|
    ensures buf[off..][lo..hi] == buf[off + lo..off + hi]
  {
  }

  method PopRawJpegs(buffer: Bytes) returns (latest: Option<Bytes>, rest: Bytes)
    ensures latest == Frame(buffer, RawScan(buffer, 0, None).latest)
    ensures rest == buffer[RawScan(buffer, 0, None).rest..]
  {
    hide Find, RawScan;
    var buf := buffer;
    latest := None;
    ghost var off: nat, best: Option<Range> := 0, None;
    while true
      invariant off <= |buffer| && buf == buffer[off..]
      invariant RawScan(buffer, 0, None) == RawScan(buffer, off, best)
      invariant latest == Frame(buffer, best)
      decreases |buf|
    {
      var start := Find(buf, SOI, 0);
      var end := if start < 0 then -1 else Find(buf, EOI, start + 2);
      RawTurn(buffer, off, best, buf, start, end);
      if start < 0 {
        rest := if buf != [] && buf[|buf| - 1] == 0xFF then buf[|buf| - 1..] else [];
        break;
      }
      if end < 0 {
        DropTwice(buffer, off, start);
        rest := buf[start..];
        break;
      }
      SliceOfDrop(buffer, off, start, end + 2);
      DropTwice(buffer, off, end + 2);
      latest := Some(buf[start..end + 2]);
      best := Some(Range(off + start, off + end + 2));
      buf := buf[end + 2..];
      off := off + end + 2;
    }
  }

  function Shifted(r: Option<Range>, off: nat): Option<Range>
  {
    if r.Some? then Some(Range(off + r.value.lo, off + r.value.hi)) else None
  }

  lemma FrameShifts(buf: Bytes, off: nat, r: Option<Range>)
    requires off <= |buf| && InBuffer(buf[off..], r)
    ensures Frame(buf[off..], r) == Frame(buf, Shifted(r, off))
  {
    if r.Some? {
      SliceOfDrop(buf, off, r.value.lo, r.value.hi);
    }
  }

  lemma {:induction false} RawScanShifts(buf: Bytes, off: nat, tail: Bytes, from: nat, best: Option<Range>, r: Scan)
    requires off <= |buf| && tail == buf[off..] && from <= |tail| && r == RawScan(tail, from, best)
    ensures RawScan(buf, off + from, Shifted(best, off)) == Scan(Shifted(r.latest, off), off + r.rest)
    decreases |tail| - from
  {
    hide Find, At;
    var start := Find(tail, SOI, from);
    FindShifts(buf, off, SOI, from);
    if start != -1 {
      var end := Find(tail, EOI, start + 2);
      FindShifts(buf, off, EOI, start + 2);
      if end != -1 {
        RawScanShifts(buf, off, tail, end + 2, Some(Range(start, end + 2)), r);
      }
    }
  }

  /** Falling back to the raw search on the dropped buffer, in positions of the whole buffer. */
  lemma RawTail(buf: Bytes, off: nat, tail: Bytes, best: Option<Range>, r: Scan)
    requires off <= |buf| && tail == buf[off..] && r == RawScan(tail, 0, None)
    ensures RawOrBest(buf, off, best) == Scan(if r.latest.Some? then Shifted(r.latest, off) else best, off + r.rest)
    ensures Frame(tail, r.latest) == Frame(buf, Shifted(r.latest, off)) && tail[r.rest..] == buf[off + r.rest..]
    ensures InBuffer(tail, r.latest)
  {
    hide RawScan;
    RawScanShifts(buf, off, tail, 0, None, r);
    RawScanInBuffer(tail, 0, None);
    FrameShifts(buf, off, r.latest);
    DropTwice(buf, off, r.rest);
  }

  /** One turn of the part search on the dropped buffer, in positions of the whole buffer. */
  lemma PopTurn(buf: Bytes, off: nat, best: Option<Range>, tail: Bytes, mark: int, headerEnd: int, length: Option<int>)
    requires off <= |buf| && tail == buf[off..]
    requires mark == Find(tail, BOUNDARY, 0) && headerEnd == if mark == -1 then -1 else Find(tail, BLANK_LINE, mark)
    requires headerEnd != -1 ==> length == ContentLength(tail[mark..headerEnd])
    ensures mark == -1 ==> PopScan(buf, off, best) == RawOrBest(buf, off, best)
    ensures mark != -1 && headerEnd == -1 ==> PopScan(buf, off, best) == Scan(best, off + mark)
    ensures headerEnd != -1 ==>
              var body := off + headerEnd + 4;
              PopScan(buf, off, best) ==
                if !Usable(length) then RawOrBest(buf, body, best)
                else if |buf| - body < length.value then Scan(best, off + mark)
                else PopScan(buf, AfterBody(buf, body + length.value), Some(Range(body, body + length.value)))
  {
    hide Find, At, RawOrBest, ContentLength, AfterBody;
    FindShifts(buf, off, BOUNDARY, 0);
    if mark != -1 {
      FindShifts(buf, off, BLANK_LINE, mark);
      if headerEnd != -1 {
        SliceOfDrop(buf, off, mark, headerEnd);
      }
    }
  }

  lemma AfterBodyShifts(buf: Bytes, off: nat, end: nat, rest: Bytes)
    requires off + end <= |buf| && rest == buf[off + end..]
    ensures AfterBody(buf, off + end) == off + end + if At(rest, CRLF, 0) then 2 else 0
  {
    AtShifts(buf, off + end, CRLF, 0);
  }

  /** A whole part: its body becomes the newest frame, and the search goes on behind it. */
  lemma BodyTurn(buf: Bytes, off: nat, best: Option<Range>, tail: Bytes, mark: int, headerEnd: int,
                 length: Option<int>, body: Bytes, rest: Bytes, next: Bytes)
    returns (range: Range, from: nat)
    requires off <= |buf| && tail == buf[off..]
    requires mark == Find(tail, BOUNDARY, 0) != -1 && headerEnd == Find(tail, BLANK_LINE, mark) != -1
    requires length == ContentLength(tail[mark..headerEnd]) && Usable(length)
    requires body == tail[headerEnd + 4..] && length.value <= |body| && rest == body[length.value..]
    requires next == if At(rest, CRLF, 0) && |rest| >= 2 then rest[2..] else rest
    ensures from <= |buf| && next == buf[from..] && |next| < |tail|
    ensures PopScan(buf, off, best) == PopScan(buf, from, Some(range))
    ensures Frame(buf, Some(range)) == Some(body[..length.value])
  {
    hide Find, At, PopScan, RawScan, RawOrBest, ContentLength, AfterBody, Frame;
    PopTurn(buf, off, best, tail, mark, headerEnd, length);
    var lo := off + headerEnd + 4;
    DropTwice(buf, off, headerEnd + 4);
    WholeBody(buf, lo, length.value, body);
    DropTwice(buf, lo, length.value);
    AfterBodyShifts(buf, lo, length.value, rest);
    range, from := Range(lo, lo + length.value), lo + length.value;
    if At(rest, CRLF, 0) {
      LineBreakFits(rest);
      DropTwice(buf, from, 2);
      from := from + 2;
    }
  }

  method PopLatestMjpeg(buffer: Bytes) returns (latest: Option<Bytes>, rest: Bytes)
    ensures latest == Frame(buffer, PopScan(buffer, 0, None).latest)
    ensures rest == buffer[PopScan(buffer, 0, None).rest..]
  {
    hide Find, At, PopScan, RawScan, RawOrBest, ContentLength, Frame, AfterBody, InBuffer, Shifted, LengthIn, Lines;
    var buf := buffer;
    latest := None;
    ghost var off: nat, best: Option<Range> := 0, None;
    FrameOfNone(buffer);
    while true
      invariant off <= |buffer| && buf == buffer[off..]
      invariant PopScan(buffer, 0, None) == PopScan(buffer, off, best)
      invariant latest == Frame(buffer, best)
      decreases |buf|
    {
      var mark := Find(buf, BOUNDARY, 0);
      var headerEnd := if mark < 0 then -1 else Find(buf, BLANK_LINE, mark);
      if headerEnd < 0 {
        PopTurn(buffer, off, best, buf, mark, headerEnd, None);
        if mark < 0 {
          latest, rest := FallBack(buffer, off, best, buf, latest);
        } else {
          DropTwice(buffer, off, mark);
          rest := buf[mark..];
        }
        break;
      }
      var body := buf[headerEnd + 4..];
      var length := ReadContentLength(buf[mark..headerEnd]);
      if !Usable(length) || |body| < length.value {
        DropTwice(buffer, off, headerEnd + 4);
        PopTurn(buffer, off, best, buf, mark, headerEnd, length);
        if !Usable(length) {
          latest, rest := FallBack(buffer, off + headerEnd + 4, best, body, latest);
        } else {
          DropTwice(buffer, off, mark);
          rest := buf[mark..];
        }
        break;
      }
      ghost var before := buf;
      ghost var found, from;
      latest := Some(body[..length.value]);
      buf := body[length.value..];
      if At(buf, CRLF, 0) {
        LineBreakFits(buf);
        buf := buf[2..];
      }
      found, from := BodyTurn(buffer, off, best, before, mark, headerEnd, length, body, body[length.value..], buf);
      off, best := from, Some(found);
    }
  }

  lemma FrameOfNone(buf: Bytes)
    ensures Frame(buf, None) == None
  {
  }

  lemma LineBreakFits(buf: Bytes)
    requires At(buf, CRLF, 0)
    ensures |buf| >= 2
  {
  }

  lemma WholeBody(buf: Bytes, lo: nat, length: nat, body: Bytes)
    requires lo <= |buf| && body == buf[lo..] && length <= |body|
    ensures Frame(buf, Some(Range(lo, lo + length))) == Some(body[..length])
  {
    SliceOfDrop(buf, lo, 0, length);
  }

  /** The fallback: a raw frame replaces the latest one only if there is one. */
  method FallBack(ghost whole: Bytes, ghost off: nat, ghost best: Option<Range>, buf: Bytes, before: Option<Bytes>)
    returns (latest: Option<Bytes>, rest: Bytes)
    requires off <= |whole| && buf == whole[off..] && before == Frame(whole, best)
    ensures latest == Frame(whole, RawOrBest(whole, off, best).latest)
    ensures rest == whole[RawOrBest(whole, off, best).rest..]
  {
    hide RawScan, RawOrBest, Shifted;
    var jpeg, tail := PopRawJpegs(buf);
    RawTail(whole, off, buf, best, RawScan(buf, 0, None));
    latest := if jpeg.Some? then jpeg else before;
    rest := tail;
  }

  // ----- The reader -----

  /** An overlong buffer restarts at its last SOI, or keeps only its tail. */
  function Trimmed(buf: Bytes): (r: Bytes)
    ensures exists k: nat :: k <= |buf| && r == buf[k..]
  {
    if |buf| <= MAX_FRAME then assert buf == buf[0..]; buf
    else
      var start := FindLast(buf, SOI, |buf|);
      if start >= 0 then buf[start..] else buf[|buf| - KEPT_TAIL..]
  }

  /** Trimming keeps a buffer within its limit whole; an overlong one is kept from its last SOI on, or, if it holds
      none, its last 120 000 bytes. */
  lemma TrimmedMeaning(buf: Bytes)
    ensures |buf| <= MAX_FRAME ==> Trimmed(buf) == buf
    ensures |buf| > MAX_FRAME ==>
              if exists k :: At(buf, SOI, k)
              then exists k: nat :: At(buf, SOI, k) && Trimmed(buf) == buf[k..] && forall j | k < j :: !At(buf, SOI, j)
              else Trimmed(buf) == buf[|buf| - 120_000..]
  {
    hide At;
    if |buf| > MAX_FRAME {
      FindLastIsLast(buf, SOI, |buf|);
      forall j | At(buf, SOI, j)
        ensures 0 <= j < |buf|
      {
        AtWithin(buf, SOI, j);
      }
    }
  }

  lemma AtWithin(buf: Bytes, needle: Bytes, k: int)
    requires At(buf, needle, k) && needle != []
    ensures 0 <= k < |buf|
  {
  }

  lemma {:induction false} FindLastIsLast(buf: Bytes, needle: Bytes, to: nat)
    ensures FindLast(buf, needle, to) == -1 || At(buf, needle, FindLast(buf, needle, to))
    ensures forall k: nat | k < to && At(buf, needle, k) :: k <= FindLast(buf, needle, to)
  {
    hide At;
    if to > 0 && !At(buf, needle, to - 1) {
      FindLastIsLast(buf, needle, to - 1);
    }
  }

  datatype Fed = Fed(latest: Option<Bytes>, buf: Bytes)

  /** What one more chunk does to the kept buffer, and the frame it yields. */
  function FeedOne(kept: Bytes, chunk: Bytes): Fed
  {
    var buf := Trimmed(kept + chunk);
    var r := PopScan(buf, 0, None);
    Fed(Frame(buf, r.latest), buf[r.rest..])
  }

  class MjpegReader {
    var buf: Bytes

    constructor ()
      ensures buf == []
    {
      buf := [];
    }

    method Feed(chunk: Bytes) returns (latest: Option<Bytes>)
      modifies this
      ensures latest == FeedOne(old(buf), chunk).latest && buf == FeedOne(old(buf), chunk).buf
    {
      hide PopScan, FindLast, Frame;
      buf := buf + chunk;
      if |buf| > MAX_FRAME {
        var start := FindLast(buf, SOI, |buf|);
        buf := if start >= 0 then buf[start..] else buf[|buf| - KEPT_TAIL..];
      }
      latest, buf := PopLatestMjpeg(buf);
    }
  }
}

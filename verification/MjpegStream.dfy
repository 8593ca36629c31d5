/** The reader of app/desktop/streams.py fed with the stream that app/services/preview.py sends, cut into any chunks. */
module MjpegStream {
  import opened Options
  import opened Mjpeg

  // ----- What the server sends -----

  const TYPE_LINE: Bytes := Ascii("Content-Type: image/jpeg")
  const LENGTH_NAME: Bytes := Ascii("Content-Length: ")

  function Decimal(n: nat): (r: Bytes)
    ensures r != [] && forall i | 0 <= i < |r| :: IsDigit(r[i])
  {
    if n < 10 then [48 + n] else Decimal(n / 10) + [48 + n % 10]
  }

  function LengthLine(n: nat): Bytes { LENGTH_NAME + Decimal(n) }

  /** The header lines of a part, without the blank line. */
  function Headers(n: nat): Bytes { BOUNDARY + CRLF + (TYPE_LINE + CRLF + LengthLine(n)) }

  function Part(body: Bytes): Bytes { Headers(|body|) + BLANK_LINE + body + CRLF }

  function Stream(bodies: seq<Bytes>): Bytes
  {
    if bodies == [] then [] else Stream(bodies[..|bodies| - 1]) + Part(bodies[|bodies| - 1])
  }

  /** Where part i starts, and where its header lines, its body and the body's end lie. */
  function StartOf(bodies: seq<Bytes>, i: nat): nat
    requires i <= |bodies|
  {
    |Stream(bodies[..i])|
  }

  function HeaderEnd(bodies: seq<Bytes>, i: nat): nat
    requires i < |bodies|
  {
    StartOf(bodies, i) + |Headers(|bodies[i]|)|
  }

  function BodyStart(bodies: seq<Bytes>, i: nat): nat
    requires i < |bodies|
  {
    HeaderEnd(bodies, i) + 4
  }

  function BodyEnd(bodies: seq<Bytes>, i: nat): nat
    requires i < |bodies|
  {
    BodyStart(bodies, i) + |bodies[i]|
  }

  /** A JPEG with one SOI, at the start, one EOI, at the end, and no boundary text. */
  ghost predicate GoodBody(b: Bytes)
  {
    && At(b, SOI, 0) && At(b, EOI, |b| - 2)
    && (forall k :: At(b, SOI, k) ==> k == 0)
    && (forall k :: At(b, EOI, k) ==> k == |b| - 2)
    && (forall k :: !At(b, BOUNDARY, k))
  }

  ghost predicate GoodBodies(bodies: seq<Bytes>)
  {
    forall i | 0 <= i < |bodies| :: GoodBody(bodies[i])
  }

  // ----- The length line is read back -----

  ghost predicate AllDigits(s: Bytes) { forall i | 0 <= i < |s| :: IsDigit(s[i]) }

  function DigitValue(s: Bytes, acc: nat): nat
    requires AllDigits(s)
  {
    if s == [] then acc else DigitValue(s[1..], 10 * acc + (s[0] - 48))
  }

  lemma {:induction false} DigitsValue(s: Bytes, acc: nat)
    requires AllDigits(s) && s != []
    ensures Digits(s, acc) == Some(DigitValue(s, acc))
  {
    if |s| > 1 {
      DigitsValue(s[1..], 10 * acc + (s[0] - 48));
    }
  }

  lemma {:induction false} ValueOfAppended(s: Bytes, d: Byte, acc: nat)
    requires AllDigits(s) && IsDigit(d)
    ensures AllDigits(s + [d]) && DigitValue(s + [d], acc) == 10 * DigitValue(s, acc) + (d - 48)
  {
    if s != [] {
      assert (s + [d])[1..] == s[1..] + [d];
      ValueOfAppended(s[1..], d, 10 * acc + (s[0] - 48));
    } else {
      assert [d][1..] == [];
      assert s + [d] == [d];
    }
  }

  lemma {:induction false} ValueOfDecimal(n: nat)
    ensures DigitValue(Decimal(n), 0) == n
  {
    if n >= 10 {
      ValueOfDecimal(n / 10);
      ValueOfAppended(Decimal(n / 10), 48 + n % 10, 0);
    } else {
      ValueOfAppended([], 48 + n, 0);
      assert Decimal(n) == [] + [48 + n];
    }
  }

  /** Reading the decimal text after a space gives the number back. */
  lemma DecimalRoundTrip(n: nat)
    ensures ParseInt([32] + Decimal(n)) == Some(n)
  {
    var d, s := Decimal(n), [32] + Decimal(n);
    assert s[0] == 32 && s[1..] == d;
    assert IsDigit(d[0]) && IsDigit(d[|d| - 1]);
    assert Strip(d) == d;
    assert Strip(s) == d;
    DigitsValue(d, 0);
    ValueOfDecimal(n);
  }

  // ----- Other ways to write a number -----

  predicate Blank(b: Byte) { b == 32 || b == 9 || b == 10 || b == 11 || b == 12 || b == 13 }

  ghost predicate White(s: Bytes) { forall i | 0 <= i < |s| :: Blank(s[i]) }

  lemma {:induction false} StripsWhite(a: Bytes, s: Bytes, b: Bytes)
    requires White(a) && White(b) && s != [] && !Blank(s[0]) && !Blank(s[|s| - 1])
    ensures Strip(a + s + b) == s
    decreases |a| + |b|
  {
    var t := a + s + b;
    if a != [] {
      assert Blank(a[0]) && t[0] == a[0] && t[1..] == a[1..] + s + b;
      StripsWhite(a[1..], s, b);
    } else if b != [] {
      assert Blank(b[|b| - 1]) && t[0] == s[0] && t[|t| - 1] == b[|b| - 1] && t[..|t| - 1] == a + s + b[..|b| - 1];
      StripsWhite(a, s, b[..|b| - 1]);
    } else {
      assert t == s;
    }
  }

  /** White space around it and a sign before it do not hide a number. */
  lemma NumberForms(n: nat, a: Bytes, b: Bytes)
    requires White(a) && White(b)
    ensures ParseInt(a + Decimal(n) + b) == Some(n)
    ensures ParseInt(a + ([43] + Decimal(n)) + b) == Some(n)
    ensures var minus := ParseInt(a + ([45] + Decimal(n)) + b); minus.Some? && minus.value + n == 0
  {
    hide Decimal, Strip, Digits, DigitValue;
    var d := Decimal(n);
    assert IsDigit(d[0]) && IsDigit(d[|d| - 1]);
    StripsWhite(a, d, b);
    StripsWhite(a, [43] + d, b);
    StripsWhite(a, [45] + d, b);
    assert ([43] + d)[1..] == d && ([45] + d)[1..] == d;
    DigitsValue(d, 0);
    ValueOfDecimal(n);
  }

  /** One underscore between two digits is skipped; after digits nothing else but another digit makes a number. */
  lemma {:induction false} AfterDigits(s: Bytes, c: Byte, t: Bytes, acc: nat)
    requires AllDigits(s) && s != [] && !IsDigit(c)
    ensures Digits(s + [c] + t, acc) ==
            if c == 95 && t != [] && IsDigit(t[0]) then Digits(s + t, acc) else None
  {
    var u, more := s + [c] + t, 10 * acc + (s[0] - 48);
    if |s| > 1 {
      AfterDigits(s[1..], c, t, more);
      assert u[1..] == s[1..] + [c] + t && (s + t)[1..] == s[1..] + t;
      assert u[1] == s[1] && (s + t)[1] == s[1];
    } else {
      assert u[1] == c && u[1..] == [c] + t && u[2..] == t && (s + t)[1..] == t;
    }
  }

  ghost predicate NoBreaks(s: Bytes) { forall i | 0 <= i < |s| :: s[i] != 13 && s[i] != 10 }

  lemma NotAtFirst(s: Bytes, needle: Bytes, k: int)
    requires needle != [] && (0 <= k < |s| ==> s[k] != needle[0])
    ensures !At(s, needle, k)
  {
    if 0 <= k && k + |needle| <= |s| {
      assert s[k..k + |needle|][0] == s[k];
    }
  }

  lemma FirstBreak(line: Bytes, rest: Bytes, s: Bytes)
    requires NoBreaks(line) && s == line + CRLF + rest
    ensures Find(s, CRLF, 0) == |line|
  {
    hide Find;
    forall k | 0 <= k < |line|
      ensures !At(s, CRLF, k)
    {
      NotAtFirst(s, CRLF, k);
    }
    assert s[|line|..|line| + 2] == CRLF;
    FindUnique(s, CRLF, 0, |line|);
  }

  lemma FirstLine(line: Bytes, rest: Bytes)
    requires NoBreaks(line)
    ensures Lines(line + CRLF + rest) == [line] + Lines(rest)
  {
    hide Find, At;
    var s := line + CRLF + rest;
    FirstBreak(line, rest, s);
    assert s[..|line|] == line && s[|line| + 2..] == rest;
  }

  lemma OnlyLine(line: Bytes)
    requires NoBreaks(line)
    ensures Lines(line) == [line]
  {
    hide Find, At;
    forall k
      ensures !At(line, CRLF, k)
    {
      NotAtFirst(line, CRLF, k);
    }
    FindUnique(line, CRLF, 0, -1);
  }

  lemma LengthOfLine(n: nat)
    ensures StartsWithFolded(LengthLine(n), CONTENT_LENGTH)
    ensures ParseInt(AfterColon(LengthLine(n))) == Some(n)
  {
    hide Find, ParseInt, Decimal;
    var line := LengthLine(n);
    assert line[..16] == LENGTH_NAME;
    assert forall k | 0 <= k < 16 :: line[k] == LENGTH_NAME[k];
    forall k | 0 <= k < 14
      ensures !At(line, COLON, k)
    {
      NotAtFirst(line, COLON, k);
    }
    assert line[14..15] == COLON;
    FindUnique(line, COLON, 0, 14);
    assert line[15..] == [32] + Decimal(n);
    DecimalRoundTrip(n);
  }

  /** What the reader parses from the header lines is the length the server wrote. */
  lemma LengthRoundTrip(n: nat)
    ensures ContentLength(Headers(n)) == Some(n)
  {
    hide Find, At, ParseInt, Decimal, Lines, AfterColon, StartsWithFolded, Ascii;
    PlainLines(n);
    FirstLine(BOUNDARY, TYPE_LINE + CRLF + LengthLine(n));
    FirstLine(TYPE_LINE, LengthLine(n));
    OnlyLine(LengthLine(n));
    LengthOfLine(n);
    ThirdLine(BOUNDARY, TYPE_LINE, LengthLine(n));
  }

  lemma ThirdLine(a: Bytes, b: Bytes, c: Bytes)
    requires !StartsWithFolded(a, CONTENT_LENGTH) && !StartsWithFolded(b, CONTENT_LENGTH)
    requires StartsWithFolded(c, CONTENT_LENGTH)
    ensures LengthIn([a] + ([b] + [c])) == ParseInt(AfterColon(c))
  {
    hide StartsWithFolded, ParseInt, AfterColon;
    assert ([a] + ([b] + [c]))[1..] == [b] + [c];
    assert ([b] + [c])[1..] == [c];
    assert LengthIn([c]) == ParseInt(AfterColon(c));
    assert LengthIn([b] + [c]) == LengthIn([c]);
  }

  lemma PlainLines(n: nat)
    ensures NoBreaks(BOUNDARY) && NoBreaks(TYPE_LINE) && NoBreaks(LengthLine(n))
    ensures !StartsWithFolded(BOUNDARY, CONTENT_LENGTH) && !StartsWithFolded(TYPE_LINE, CONTENT_LENGTH)
  {
    hide Decimal;
    assert Lower(BOUNDARY[0]) != CONTENT_LENGTH[0];
    assert Lower(TYPE_LINE[8]) != CONTENT_LENGTH[8];
  }

  // ----- Where things lie in the stream -----

  lemma {:induction false} StreamPrefix(bodies: seq<Bytes>, i: nat)
    requires i <= |bodies|
    ensures Stream(bodies[..i]) <= Stream(bodies)
  {
    if i < |bodies| {
      StreamPrefix(bodies[..|bodies| - 1], i);
      assert bodies[..|bodies| - 1][..i] == bodies[..i];
    } else {
      assert bodies[..i] == bodies;
    }
  }

  lemma PartSits(bodies: seq<Bytes>, i: nat, s: Bytes)
    requires i < |bodies| && s == Stream(bodies)
    ensures StartOf(bodies, i + 1) == StartOf(bodies, i) + |Part(bodies[i])| <= |s|
    ensures s[StartOf(bodies, i)..StartOf(bodies, i + 1)] == Part(bodies[i])
  {
    hide Part;
    var upTo := bodies[..i + 1];
    assert upTo[..i] == bodies[..i] && upTo[|upTo| - 1] == bodies[i];
    StreamPrefix(bodies, i + 1);
    var t := Stream(upTo);
    assert s[..|t|] == t;
    assert t == Stream(bodies[..i]) + Part(bodies[i]);
  }

  lemma PartLength(b: Bytes)
    ensures |Part(b)| == |Headers(|b|)| + |b| + 6
  {
  }

  lemma {:induction false} StartsGrow(bodies: seq<Bytes>, i: nat, j: nat, s: Bytes)
    requires i <= j <= |bodies| && s == Stream(bodies)
    ensures StartOf(bodies, i) <= StartOf(bodies, j) <= |s|
    decreases j - i
  {
    hide Stream, StartOf;
    if i < j {
      PartSits(bodies, j - 1, s);
      StartsGrow(bodies, i, j - 1, s);
    } else {
      StreamLength(bodies, j, s);
    }
  }

  lemma {:induction false} StreamLength(bodies: seq<Bytes>, i: nat, s: Bytes)
    requires i <= |bodies| && s == Stream(bodies)
    ensures StartOf(bodies, i) <= |s| && (i == |bodies| ==> StartOf(bodies, i) == |s|)
  {
    StreamPrefix(bodies, i);
    if i == |bodies| {
      assert bodies[..i] == bodies;
    }
  }

  lemma StartOfFirst(bodies: seq<Bytes>)
    ensures StartOf(bodies, 0) == 0
  {
    assert bodies[..0] == [];
  }

  /** Every position belongs to one part. */
  lemma {:induction false} Locate(bodies: seq<Bytes>, n: nat, k: nat, s: Bytes) returns (i: nat)
    requires n <= |bodies| && s == Stream(bodies) && k < StartOf(bodies, n)
    ensures i < n && StartOf(bodies, i) <= k < StartOf(bodies, i + 1)
  {
    StartOfFirst(bodies);
    if k < StartOf(bodies, n - 1) {
      i := Locate(bodies, n - 1, k, s);
    } else {
      i := n - 1;
    }
  }

  /** Bodies lie one after the other. */
  lemma {:induction false} BodiesInOrder(bodies: seq<Bytes>, i: nat, j: nat, s: Bytes)
    requires i < |bodies| && j < |bodies| && s == Stream(bodies)
    ensures BodyEnd(bodies, i) + 2 == StartOf(bodies, i + 1) <= |s|
    ensures i < j ==> BodyEnd(bodies, i) < BodyStart(bodies, j)
    ensures s[BodyStart(bodies, i)..BodyEnd(bodies, i)] == bodies[i]
  {
    hide StartOf, Headers, Stream;
    PartSits(bodies, i, s);
    PartLength(bodies[i]);
    var part, h := Part(bodies[i]), |Headers(|bodies[i]|)|;
    assert part[h + 4..h + 4 + |bodies[i]|] == bodies[i];
    SliceOfSlice(s, StartOf(bodies, i), StartOf(bodies, i + 1), h + 4, h + 4 + |bodies[i]|);
    if i < j {
      StartsGrow(bodies, i + 1, j, s);
    }
  }

  lemma SliceOfSlice(s: Bytes, lo: nat, hi: nat, from: nat, to: nat)
    requires lo <= hi <= |s| && from <= to <= hi - lo
    ensures s[lo..hi][from..to] == s[lo + from..lo + to]
  {
    var t := s[lo..hi];
    assert forall k | 0 <= k < to - from :: t[from..to][k] == t[from + k] == s[lo + from + k];
  }

  // ----- What can be found where -----

  lemma FixedText(j: nat)
    ensures j < 16 ==> 32 <= BOUNDARY[j] < 128 && (j >= 2 ==> BOUNDARY[j] != 45)
    ensures j < 24 ==> 32 <= TYPE_LINE[j] < 128 && (TYPE_LINE[j] == 45 ==> j == 7)
    ensures j < 16 ==> 32 <= LENGTH_NAME[j] < 128 && (LENGTH_NAME[j] == 45 ==> j == 7)
  {
  }

  lemma LengthLineByte(n: nat, j: nat, line: Bytes)
    requires line == LengthLine(n)
    ensures |line| > 16 && (j < |line| ==> 32 <= line[j] < 128 && (line[j] == 45 ==> j == 7))
  {
    hide Decimal, Ascii;
    FixedText(j);
    assert j < |line| ==> line[j] == if j < 16 then LENGTH_NAME[j] else Decimal(n)[j - 16];
  }

  lemma HeaderByte(n: nat, j: nat, h: Bytes, line: Bytes)
    requires h == Headers(n) && line == LengthLine(n) && j < |h|
    ensures |h| == 44 + |line|
    ensures h[j] == if j < 16 then BOUNDARY[j] else if j < 18 then CRLF[j - 16] else if j < 42 then TYPE_LINE[j - 18]
                    else if j < 44 then CRLF[j - 42] else line[j - 44]
  {
    hide LengthLine, Ascii;
  }

  /** Header bytes are ASCII, and break lines at two places only. */
  lemma HeaderText(n: nat, j: nat, h: Bytes)
    requires h == Headers(n) && j < |h|
    ensures |h| > 60 && h[j] < 128 && (h[j] == 13 <==> j == 16 || j == 42)
    ensures h[j] == 45 ==> j < 2 || j == 25 || j == 51
  {
    hide Headers, LengthLine, Ascii;
    var line := LengthLine(n);
    HeaderByte(n, j, h, line);
    FixedText(j);
    FixedText(if j >= 18 then j - 18 else 0);
    LengthLineByte(n, if j >= 44 then j - 44 else 0, line);
  }

  /** Two dashes in a row come only at the start of the header lines. */
  lemma TwoDashes(n: nat, j: nat, h: Bytes)
    requires h == Headers(n) && j + 1 < |h| && h[j] == 45 && h[j + 1] == 45
    ensures j == 0
  {
    hide Headers;
    HeaderText(n, j, h);
    HeaderText(n, j + 1, h);
  }

  lemma PartByte(b: Bytes, j: nat, part: Bytes, h: Bytes)
    requires part == Part(b) && h == Headers(|b|) && j < |part|
    ensures j < |h| ==> part[j] == h[j]
    ensures |h| <= j < |h| + 4 ==> part[j] == BLANK_LINE[j - |h|]
    ensures |h| + 4 <= j < |h| + 4 + |b| ==> part[j] == b[j - |h| - 4]
    ensures |h| + 4 + |b| <= j ==> part[j] == CRLF[j - |h| - 4 - |b|]
  {
    hide Headers;
  }

  /** Position k lies j bytes into part i, and so does what follows it there. */
  ghost predicate Inside(bodies: seq<Bytes>, s: Bytes, k: nat, i: nat, j: nat, part: Bytes, h: Bytes)
  {
    && i < |bodies| && part == Part(bodies[i]) && h == Headers(|bodies[i]|)
    && k == StartOf(bodies, i) + j && j < |part| && k - j + |part| <= |s|
    && s[k - j..k - j + |part|] == part
  }

  lemma FindInside(bodies: seq<Bytes>, s: Bytes, k: nat)
    returns (i: nat, j: nat, part: Bytes, h: Bytes)
    requires s == Stream(bodies) && k < |s|
    ensures Inside(bodies, s, k, i, j, part, h)
  {
    hide Part, Headers, Stream, StartOf;
    StreamLength(bodies, |bodies|, s);
    i := Locate(bodies, |bodies|, k, s);
    PartSits(bodies, i, s);
    j, part, h := k - StartOf(bodies, i), Part(bodies[i]), Headers(|bodies[i]|);
  }

  lemma SameByte(s: Bytes, start: nat, part: Bytes, j: nat)
    requires start + |part| <= |s| && s[start..start + |part|] == part && j < |part|
    ensures s[start + j] == part[j]
  {
    assert s[start..start + |part|][j] == s[start + j];
  }

  lemma AtByte(s: Bytes, needle: Bytes, k: int, m: nat)
    requires At(s, needle, k) && m < |needle|
    ensures s[k + m] == needle[m]
  {
    assert s[k..k + |needle|][m] == s[k + m];
  }

  lemma NotAtByte(s: Bytes, needle: Bytes, k: nat, m: nat)
    requires m < |needle| && (k + m < |s| ==> s[k + m] != needle[m])
    ensures !At(s, needle, k)
  {
    if k + |needle| <= |s| {
      assert s[k..k + |needle|][m] == s[k + m];
    }
  }

  /** A marker of two bytes starting with FF, found anywhere in the stream, lies inside one body. */
  lemma MarkerInBody(bodies: seq<Bytes>, s: Bytes, k: nat, marker: Bytes)
    returns (i: nat)
    requires s == Stream(bodies) && At(s, marker, k) && |marker| == 2 && marker[0] == 0xFF && marker[1] != 13
    ensures i < |bodies| && BodyStart(bodies, i) <= k && k + 2 <= BodyEnd(bodies, i)
    ensures At(bodies[i], marker, k - BodyStart(bodies, i))
  {
    hide At, StartOf, Headers, Part, Stream;
    AtFits(s, marker, k);
    AtByte(s, marker, k, 0);
    AtByte(s, marker, k, 1);
    var j, part, h;
    i, j, part, h := FindInside(bodies, s, k);
    PartLength(bodies[i]);
    PartByte(bodies[i], j, part, h);
    SameByte(s, k - j, part, j);
    if j < |h| {
      HeaderText(|bodies[i]|, j, h);
    }
    PartByte(bodies[i], j + 1, part, h);
    SameByte(s, k - j, part, j + 1);
    BodiesInOrder(bodies, i, i, s);
    AtInSlice(s, BodyStart(bodies, i), BodyEnd(bodies, i), marker, k - BodyStart(bodies, i));
  }

  lemma AtFits(s: Bytes, needle: Bytes, k: int)
    requires At(s, needle, k)
    ensures 0 <= k && k + |needle| <= |s|
  {
  }

  lemma AtInSlice(s: Bytes, lo: nat, hi: nat, needle: Bytes, k: int)
    requires lo <= hi <= |s|
    ensures At(s[lo..hi], needle, k) <==> 0 <= k && lo + k + |needle| <= hi && At(s, needle, lo + k)
  {
    if 0 <= k && lo + k + |needle| <= hi {
      SliceOfSlice(s, lo, hi, k, k + |needle|);
    }
  }

  lemma BoundaryAtStart(bodies: seq<Bytes>, s: Bytes, k: nat) returns (i: nat)
    requires GoodBodies(bodies) && s == Stream(bodies) && At(s, BOUNDARY, k)
    ensures i < |bodies| && k == StartOf(bodies, i)
  {
    hide At, StartOf, Headers, Part, Stream, Ascii;
    AtFits(s, BOUNDARY, k);
    BoundaryText();
    AtByte(s, BOUNDARY, k, 0);
    AtByte(s, BOUNDARY, k, 1);
    var j, part, h;
    i, j, part, h := FindInside(bodies, s, k);
    PartLength(bodies[i]);
    PartByte(bodies[i], j, part, h);
    SameByte(s, k - j, part, j);
    if j < |h| {
      DashedHeader(bodies, s, k, i, j, part, h);
    } else {
      BoundaryNotInBody(bodies, s, k, i, j, part, h);
    }
  }

  lemma BoundaryText()
    ensures |BOUNDARY| == 16 && BOUNDARY[0] == 45 && BOUNDARY[1] == 45
  {
  }

  lemma DashedHeader(bodies: seq<Bytes>, s: Bytes, k: nat, i: nat, j: nat, part: Bytes, h: Bytes)
    requires Inside(bodies, s, k, i, j, part, h) && j < |h| && k + 1 < |s| && s[k] == 45 && s[k + 1] == 45
    ensures j == 0
  {
    hide At, StartOf, Headers, Part, Stream, Ascii;
    PartLength(bodies[i]);
    PartByte(bodies[i], j, part, h);
    PartByte(bodies[i], j + 1, part, h);
    SameByte(s, k - j, part, j);
    SameByte(s, k - j, part, j + 1);
    if j + 1 < |h| {
      TwoDashes(|bodies[i]|, j, h);
    }
  }

  lemma BoundaryNotInBody(bodies: seq<Bytes>, s: Bytes, k: nat, i: nat, j: nat, part: Bytes, h: Bytes)
    requires GoodBodies(bodies) && s == Stream(bodies) && k + 16 <= |s|
    requires Inside(bodies, s, k, i, j, part, h) && j >= |h| && s[k] == 45
    ensures !At(s, BOUNDARY, k)
  {
    hide At, StartOf, Headers, Part, Stream, Ascii;
    var b := bodies[i];
    BoundaryText();
    PartLength(b);
    PartByte(b, j, part, h);
    SameByte(s, k - j, part, j);
    BodiesInOrder(bodies, i, i, s);
    var e := |h| + 4 + |b|;
    if j + 16 <= e {
      AtInSlice(s, BodyStart(bodies, i), BodyEnd(bodies, i), BOUNDARY, j - |h| - 4);
      assert GoodBody(b);
    } else {
      PartByte(b, e, part, h);
      SameByte(s, k - j, part, e);
      FixedText(e - j);
      NotAtByte(s, BOUNDARY, k, e - j);
    }
  }

  lemma SoiAtBodyStart(bodies: seq<Bytes>, s: Bytes, k: nat) returns (i: nat)
    requires GoodBodies(bodies) && s == Stream(bodies) && At(s, SOI, k)
    ensures i < |bodies| && k == BodyStart(bodies, i)
  {
    hide At, StartOf, Stream, Headers;
    i := MarkerInBody(bodies, s, k, SOI);
    assert GoodBody(bodies[i]);
  }

  lemma EoiAtBodyEnd(bodies: seq<Bytes>, s: Bytes, k: nat) returns (i: nat)
    requires GoodBodies(bodies) && s == Stream(bodies) && At(s, EOI, k)
    ensures i < |bodies| && k == BodyEnd(bodies, i) - 2
  {
    hide At, StartOf, Stream, Headers;
    i := MarkerInBody(bodies, s, k, EOI);
    assert GoodBody(bodies[i]);
  }

  /** The first blank line after a part starts is the one that ends its headers. */
  lemma BlankEndsHeaders(bodies: seq<Bytes>, i: nat, s: Bytes)
    requires i < |bodies| && s == Stream(bodies)
    ensures At(s, BLANK_LINE, HeaderEnd(bodies, i))
    ensures forall k | StartOf(bodies, i) <= k < HeaderEnd(bodies, i) :: !At(s, BLANK_LINE, k)
    ensures s[StartOf(bodies, i)..HeaderEnd(bodies, i)] == Headers(|bodies[i]|)
    ensures At(s, BOUNDARY, StartOf(bodies, i))
  {
    hide At, StartOf, Stream, Headers;
    var b, start := bodies[i], StartOf(bodies, i);
    var part, h := Part(b), Headers(|b|);
    PartSits(bodies, i, s);
    PartLength(b);
    SliceOfSlice(s, start, start + |part|, 0, |h|);
    assert part[0..|h|] == h;
    BlankInPart(b, part, h);
    AtInSlice(s, start, start + |part|, BLANK_LINE, |h|);
    AtInSlice(s, start, start + |part|, BOUNDARY, 0);
    forall k | start <= k < start + |h|
      ensures !At(s, BLANK_LINE, k)
    {
      NoEarlierBlank(b, k - start, part, h);
      AtInSlice(s, start, start + |part|, BLANK_LINE, k - start);
    }
  }

  lemma BlankInPart(b: Bytes, part: Bytes, h: Bytes)
    requires part == Part(b) && h == Headers(|b|)
    ensures At(part, BLANK_LINE, |h|) && At(part, BOUNDARY, 0)
  {
    hide LengthLine, Ascii;
    assert part[|h|..|h| + 4] == BLANK_LINE;
    assert part[0..|BOUNDARY|] == BOUNDARY;
  }

  lemma NoEarlierBlank(b: Bytes, j: nat, part: Bytes, h: Bytes)
    requires part == Part(b) && h == Headers(|b|) && j < |h|
    ensures j + 4 <= |part| && !At(part, BLANK_LINE, j)
  {
    hide At, Headers, Part;
    PartLength(b);
    HeaderText(|b|, j, h);
    PartByte(b, j, part, h);
    PartByte(b, j + 2, part, h);
    if part[j] != 13 {
      NotAtByte(part, BLANK_LINE, j, 0);
    } else {
      HeaderText(|b|, j + 2, h);
      NotAtByte(part, BLANK_LINE, j, 2);
    }
  }

  // ----- What the reader finds in a window of the stream -----

  ghost predicate Window(s: Bytes, p: nat, q: nat, buf: Bytes) { p <= q <= |s| && buf == s[p..q] }

  ghost predicate IsBody(bodies: seq<Bytes>, lo: nat, hi: nat)
  {
    exists i :: 0 <= i < |bodies| && lo == BodyStart(bodies, i) && hi == BodyEnd(bodies, i)
  }

  /** The frame, if any, is exactly one sent body and lies between low and high. */
  ghost predicate Sound(bodies: seq<Bytes>, p: nat, low: nat, high: nat, r: Option<Range>)
  {
    r.Some? ==> low <= r.value.lo <= r.value.hi <= high && IsBody(bodies, p + r.value.lo, p + r.value.hi)
  }

  lemma FindInWindow(s: Bytes, p: nat, q: nat, buf: Bytes, needle: Bytes, from: nat, i: int)
    requires Window(s, p, q, buf) && i == Find(buf, needle, from)
    ensures i != -1 ==> from <= i && At(s, needle, p + i) && p + i + |needle| <= q
    ensures forall k: nat :: p + from <= k && k + |needle| <= q && At(s, needle, k) ==> i != -1 && p + i <= k
  {
    hide Find, At;
    FindIsFirst(buf, needle, from);
    if i != -1 {
      AtInSlice(s, p, q, needle, i);
    }
    forall k: nat | p + from <= k && k + |needle| <= q && At(s, needle, k)
      ensures i != -1 && p + i <= k
    {
      AtInSlice(s, p, q, needle, k - p);
    }
  }

  lemma BodyEdges(b: Bytes)
    requires GoodBody(b)
    ensures |b| >= 4 && At(b, SOI, 0) && At(b, EOI, |b| - 2)
  {
    AtByte(b, SOI, 0, 0);
    AtByte(b, SOI, 0, 1);
    AtByte(b, EOI, |b| - 2, 0);
    AtByte(b, EOI, |b| - 2, 1);
  }

  lemma {:induction false} EoiOf(bodies: seq<Bytes>, i: nat, s: Bytes)
    requires GoodBodies(bodies) && s == Stream(bodies) && i < |bodies|
    ensures BodyStart(bodies, i) + 4 <= BodyEnd(bodies, i) && At(s, EOI, BodyEnd(bodies, i) - 2)
  {
    hide At, StartOf, Stream, Headers;
    BodyEdges(bodies[i]);
    BodiesInOrder(bodies, i, i, s);
    AtInSlice(s, BodyStart(bodies, i), BodyEnd(bodies, i), EOI, |bodies[i]| - 2);
  }

  /** From the SOI of one body, the first EOI in the window is that body's own. */
  lemma SameBody(bodies: seq<Bytes>, s: Bytes, p: nat, q: nat, buf: Bytes, start: nat, end: int)
    requires GoodBodies(bodies) && s == Stream(bodies) && Window(s, p, q, buf)
    requires At(s, SOI, p + start) && end == Find(buf, EOI, start + 2) && end != -1
    ensures IsBody(bodies, p + start, p + end + 2)
  {
    hide At, StartOf, Stream, Headers, Find, GoodBodies, BodyStart, BodyEnd;
    FindInWindow(s, p, q, buf, EOI, start + 2, end);
    var i := SoiAtBodyStart(bodies, s, p + start);
    var j := EoiAtBodyEnd(bodies, s, p + end);
    EoiOf(bodies, i, s);
    EoiOf(bodies, j, s);
    BodiesInOrder(bodies, i, j, s);
    BodiesInOrder(bodies, j, i, s);
    assert i == j;
  }

  lemma {:induction false} RawSound(bodies: seq<Bytes>, s: Bytes, p: nat, q: nat, buf: Bytes, from: nat,
                                    best: Option<Range>, low: nat, r: Scan)
    requires GoodBodies(bodies) && s == Stream(bodies) && Window(s, p, q, buf)
    requires low <= from <= |buf| && Sound(bodies, p, low, from, best) && r == RawScan(buf, from, best)
    ensures Sound(bodies, p, low, r.rest, r.latest)
    decreases |buf| - from
  {
    hide At, Find, GoodBodies, IsBody, Stream;
    var start := Find(buf, SOI, from);
    if start != -1 {
      FindInWindow(s, p, q, buf, SOI, from, start);
      var end := Find(buf, EOI, start + 2);
      if end != -1 {
        SameBody(bodies, s, p, q, buf, start, end);
        RawSound(bodies, s, p, q, buf, end + 2, Some(Range(start, end + 2)), low, r);
      }
    }
  }

  lemma RawOrBestSound(bodies: seq<Bytes>, s: Bytes, p: nat, q: nat, buf: Bytes, from: nat, best: Option<Range>,
                       low: nat, r: Scan)
    requires GoodBodies(bodies) && s == Stream(bodies) && Window(s, p, q, buf)
    requires low <= from <= |buf| && Sound(bodies, p, low, from, best) && r == RawOrBest(buf, from, best)
    ensures Sound(bodies, p, low, r.rest, r.latest)
  {
    hide RawScan, GoodBodies, IsBody;
    RawSound(bodies, s, p, q, buf, from, None, low, RawScan(buf, from, None));
  }

  /** A boundary mark in the window is the start of a part, and the blank line found after it ends that part's
      headers, which give the length of its body. */
  lemma HeaderFound(bodies: seq<Bytes>, s: Bytes, p: nat, q: nat, buf: Bytes, mark: nat, headerEnd: int)
    returns (i: nat)
    requires GoodBodies(bodies) && s == Stream(bodies) && Window(s, p, q, buf)
    requires At(s, BOUNDARY, p + mark) && headerEnd == Find(buf, BLANK_LINE, mark) && headerEnd != -1
    ensures i < |bodies| && p + headerEnd == HeaderEnd(bodies, i) && mark <= headerEnd && p + headerEnd + 4 <= q
    ensures ContentLength(buf[mark..headerEnd]) == Some(|bodies[i]|)
  {
    hide At, StartOf, Stream, Headers, Find, GoodBodies, ContentLength;
    i := BoundaryAtStart(bodies, s, p + mark);
    BlankEndsHeaders(bodies, i, s);
    FindInWindow(s, p, q, buf, BLANK_LINE, mark, headerEnd);
    SliceOfSlice(s, p, q, mark, headerEnd);
    LengthRoundTrip(|bodies[i]|);
  }

  lemma {:induction false} PopSound(bodies: seq<Bytes>, s: Bytes, p: nat, q: nat, buf: Bytes, from: nat,
                                    best: Option<Range>, low: nat, r: Scan)
    requires GoodBodies(bodies) && s == Stream(bodies) && Window(s, p, q, buf)
    requires low <= from <= |buf| && Sound(bodies, p, low, from, best) && r == PopScan(buf, from, best)
    ensures Sound(bodies, p, low, r.rest, r.latest)
    decreases |buf| - from
  {
    hide At, Find, GoodBodies, IsBody, Stream, ContentLength, RawOrBest, AfterBody, HeaderEnd;
    var mark := Find(buf, BOUNDARY, from);
    if mark == -1 {
      RawOrBestSound(bodies, s, p, q, buf, from, best, low, r);
    } else {
      FindInWindow(s, p, q, buf, BOUNDARY, from, mark);
      var headerEnd := Find(buf, BLANK_LINE, mark);
      if headerEnd != -1 {
        var i := HeaderFound(bodies, s, p, q, buf, mark, headerEnd);
        var body, length := headerEnd + 4, |bodies[i]|;
        if !Usable(Some(length)) {
          RawOrBestSound(bodies, s, p, q, buf, body, best, low, r);
        } else if |buf| - body >= length {
          assert IsBody(bodies, p + body, p + body + length) by { ItsBody(bodies, i); }
          PopSound(bodies, s, p, q, buf, AfterBody(buf, body + length), Some(Range(body, body + length)), low, r);
        }
      }
    }
  }

  lemma ItsBody(bodies: seq<Bytes>, i: nat)
    requires i < |bodies|
    ensures IsBody(bodies, HeaderEnd(bodies, i) + 4, HeaderEnd(bodies, i) + 4 + |bodies[i]|)
  {
    assert BodyEnd(bodies, i) == HeaderEnd(bodies, i) + 4 + |bodies[i]|;
  }

  // ----- Whole runs: any cutting of the stream into chunks -----

  function Received(chunks: seq<Bytes>): Bytes
  {
    if chunks == [] then [] else Received(chunks[..|chunks| - 1]) + chunks[|chunks| - 1]
  }

  /** The buffer kept after these chunks. */
  function Kept(chunks: seq<Bytes>): Bytes
  {
    if chunks == [] then [] else FeedOne(Kept(chunks[..|chunks| - 1]), chunks[|chunks| - 1]).buf
  }

  /** What the reader yields for chunk n. */
  function Yielded(chunks: seq<Bytes>, n: nat): Option<Bytes>
    requires n < |chunks|
  {
    FeedOne(Kept(chunks[..n]), chunks[n]).latest
  }

  ghost predicate IsSuffix(tail: Bytes, whole: Bytes)
  {
    |tail| <= |whole| && whole[|whole| - |tail|..] == tail
  }

  lemma DroppedSuffix(tail: Bytes, whole: Bytes, k: nat)
    requires IsSuffix(tail, whole) && k <= |tail|
    ensures IsSuffix(tail[k..], whole)
  {
    DropTwice(whole, |whole| - |tail|, k);
  }

  lemma GrownSuffix(tail: Bytes, whole: Bytes, more: Bytes)
    requires IsSuffix(tail, whole)
    ensures IsSuffix(tail + more, whole + more)
  {
    assert (whole + more)[|whole| - |tail|..] == tail + more;
  }

  lemma FedSuffix(kept: Bytes, whole: Bytes, chunk: Bytes)
    requires IsSuffix(kept, whole)
    ensures IsSuffix(Trimmed(kept + chunk), whole + chunk) && IsSuffix(FeedOne(kept, chunk).buf, whole + chunk)
    ensures |FeedOne(kept, chunk).buf| <= |Trimmed(kept + chunk)| <= |kept + chunk|
  {
    hide IsSuffix, FindLast, PopScan, Trimmed;
    GrownSuffix(kept, whole, chunk);
    var buf := Trimmed(kept + chunk);
    var k: nat :| k <= |kept + chunk| && buf == (kept + chunk)[k..];
    DroppedSuffix(kept + chunk, whole + chunk, k);
    DroppedSuffix(buf, whole + chunk, PopScan(buf, 0, None).rest);
  }

  /** Whatever the input and the chunks, what is kept is the end of what was received. */
  lemma {:induction false} KeptIsSuffix(chunks: seq<Bytes>)
    ensures IsSuffix(Kept(chunks), Received(chunks))
  {
    hide IsSuffix, FeedOne;
    if chunks == [] {
      assert IsSuffix(Kept([]), Received([])) by { EmptySuffix(); }
    } else {
      var before := chunks[..|chunks| - 1];
      KeptIsSuffix(before);
      FedSuffix(Kept(before), Received(before), chunks[|chunks| - 1]);
    }
  }

  lemma EmptySuffix()
    ensures IsSuffix([], [])
  {
  }

  /** How much of the stream the reader has let go of. */
  function Consumed(chunks: seq<Bytes>): int { |Received(chunks)| - |Kept(chunks)| }

  /** One more chunk: its frame, if any, is one body that lies between what was let go of before and after. */
  lemma OneFeed(bodies: seq<Bytes>, s: Bytes, before: seq<Bytes>, chunk: Bytes, whole: Bytes, fed: Fed)
    returns (i: int)
    requires GoodBodies(bodies) && s == Stream(bodies) && whole == Received(before) && whole + chunk <= s
    requires fed == FeedOne(Kept(before), chunk)
    ensures Consumed(before) <= |whole| + |chunk| - |fed.buf|
    ensures i == -1 <==> fed.latest.None?
    ensures i != -1 ==>
              && 0 <= i < |bodies| && fed.latest == Some(bodies[i])
              && Consumed(before) <= BodyStart(bodies, i) && BodyEnd(bodies, i) <= |whole| + |chunk| - |fed.buf|
  {
    hide GoodBodies, Stream, Received, Kept, PopScan, Trimmed, BodyStart, BodyEnd;
    var kept := Kept(before);
    KeptIsSuffix(before);
    FedSuffix(kept, whole, chunk);
    var buf := Trimmed(kept + chunk);
    var q := |whole + chunk|;
    var p := q - |buf|;
    assert s[..q] == whole + chunk;
    assert buf == s[p..q];
    var r := PopScan(buf, 0, None);
    PopSound(bodies, s, p, q, buf, 0, None, 0, r);
    if r.latest.None? {
      i := -1;
    } else {
      var lo, hi := r.latest.value.lo, r.latest.value.hi;
      i :| 0 <= i < |bodies| && p + lo == BodyStart(bodies, i) && p + hi == BodyEnd(bodies, i);
      BodiesInOrder(bodies, i, i, s);
      SliceOfSlice(s, p, q, lo, hi);
    }
  }

  /** However the stream is cut, every frame is exactly one sent body, and bodies come in strictly increasing order. */
  lemma {:induction false} FramesAreBodiesInOrder(bodies: seq<Bytes>, chunks: seq<Bytes>) returns (which: seq<int>)
    requires GoodBodies(bodies) && Received(chunks) <= Stream(bodies)
    ensures |which| == |chunks|
    ensures forall n | 0 <= n < |chunks| :: which[n] == -1 <==> Yielded(chunks, n).None?
    ensures forall n | 0 <= n < |chunks| && which[n] != -1 ::
              0 <= which[n] < |bodies| && Yielded(chunks, n) == Some(bodies[which[n]])
    ensures forall m, n | 0 <= m < n < |chunks| && which[m] != -1 && which[n] != -1 :: which[m] < which[n]
    ensures forall n | 0 <= n < |chunks| && which[n] != -1 :: BodyEnd(bodies, which[n]) <= Consumed(chunks)
  {
    hide GoodBodies, Stream, FeedOne, BodyStart, BodyEnd;
    if chunks == [] {
      which := [];
    } else {
      var before, chunk := chunks[..|chunks| - 1], chunks[|chunks| - 1];
      var earlier := FramesAreBodiesInOrder(bodies, before);
      var s := Stream(bodies);
      var i := OneFeed(bodies, s, before, chunk, Received(before), FeedOne(Kept(before), chunk));
      which := earlier + [i];
      forall n | 0 <= n < |chunks|
        ensures Yielded(chunks, n) == if n < |before| then Yielded(before, n) else FeedOne(Kept(before), chunk).latest
      {
        if n < |before| {
          assert before[..n] == chunks[..n];
        }
      }
      forall m | 0 <= m < |before| && earlier[m] != -1 && i != -1
        ensures earlier[m] < i
      {
        BodiesInOrder(bodies, i, earlier[m], s);
        BodiesInOrder(bodies, i, i, s);
        EoiOf(bodies, earlier[m], s);
        EoiOf(bodies, i, s);
      }
    }
  }

  // ----- Whole parts, whatever the bodies hold -----

  ghost predicate Sendable(bodies: seq<Bytes>)
  {
    forall i | 0 <= i < |bodies| :: 0 < |bodies[i]| <= MAX_FRAME
  }

  lemma FindHere(buf: Bytes, needle: Bytes, from: nat, i: nat)
    requires from <= i && At(buf, needle, i) && forall k | from <= k < i :: !At(buf, needle, k)
    ensures Find(buf, needle, from) == i
  {
    FindUnique(buf, needle, from, i);
  }

  /** From the start of a part the reader takes that part whole. */
  lemma TakesPart(bodies: seq<Bytes>, i: nat, s: Bytes, best: Option<Range>)
    requires Sendable(bodies) && i < |bodies| && s == Stream(bodies)
    ensures BodyEnd(bodies, i) <= |s| && StartOf(bodies, i) <= |s| && StartOf(bodies, i + 1) <= |s|
    ensures PopScan(s, StartOf(bodies, i), best) ==
            PopScan(s, StartOf(bodies, i + 1), Some(Range(BodyStart(bodies, i), BodyEnd(bodies, i))))
  {
    hide At, Find, Stream, StartOf, Headers, ContentLength, RawOrBest, AfterBody;
    BlankEndsHeaders(bodies, i, s);
    BodiesInOrder(bodies, i, i, s);
    FindHere(s, BOUNDARY, StartOf(bodies, i), StartOf(bodies, i));
    FindHere(s, BLANK_LINE, StartOf(bodies, i), HeaderEnd(bodies, i));
    LengthRoundTrip(|bodies[i]|);
    BreakAfterBody(bodies, i, s);
  }

  lemma {:induction false} BreakAfterBody(bodies: seq<Bytes>, i: nat, s: Bytes)
    requires i < |bodies| && s == Stream(bodies)
    ensures BodyEnd(bodies, i) <= |s| && AfterBody(s, BodyEnd(bodies, i)) == StartOf(bodies, i + 1)
  {
    hide Stream, StartOf, Headers;
    var b := bodies[i];
    var part, e := Part(b), |Headers(|b|)| + 4 + |b|;
    BodiesInOrder(bodies, i, i, s);
    PartSits(bodies, i, s);
    PartLength(b);
    assert part[e..e + 2] == CRLF;
    AtInSlice(s, StartOf(bodies, i), StartOf(bodies, i + 1), CRLF, e);
  }

  lemma NothingLeft(s: Bytes, best: Option<Range>)
    ensures PopScan(s, |s|, best) == Scan(best, |s|)
  {
    assert Find(s, BOUNDARY, |s|) == -1 && Find(s, SOI, |s|) == -1;
  }

  lemma {:induction false} TakesAll(bodies: seq<Bytes>, i: nat, s: Bytes, best: Option<Range>)
    requires Sendable(bodies) && i <= |bodies| && s == Stream(bodies)
    ensures StartOf(bodies, i) <= |s|
    ensures PopScan(s, StartOf(bodies, i), best) ==
            Scan(if i == |bodies| then best
                 else Some(Range(BodyStart(bodies, |bodies| - 1), BodyEnd(bodies, |bodies| - 1))), |s|)
    decreases |bodies| - i
  {
    hide Stream, StartOf, Headers, PopScan;
    if i == |bodies| {
      StreamLength(bodies, i, s);
      NothingLeft(s, best);
    } else {
      TakesPart(bodies, i, s, best);
      TakesAll(bodies, i + 1, s, Some(Range(BodyStart(bodies, i), BodyEnd(bodies, i))));
    }
  }

  lemma AnnouncedHeader(n: nat, tail: Bytes, buf: Bytes, e: nat)
    requires buf == Headers(n) + BLANK_LINE + tail && e == |Headers(n)|
    ensures Find(buf, BOUNDARY, 0) == 0 && Find(buf, BLANK_LINE, 0) == e
    ensures buf[0..e] == Headers(n) && |buf| - (e + 4) == |tail|
  {
    hide Find, Headers;
    var h := Headers(n);
    HeaderStarts(n, h);
    assert buf[0..16] == h[..16];
    FindHere(buf, BOUNDARY, 0, 0);
    forall k | 0 <= k < e
      ensures !At(buf, BLANK_LINE, k)
    {
      HeaderText(n, k, h);
      if k + 2 < e {
        HeaderText(n, k + 2, h);
        NotAtByte(buf, BLANK_LINE, k, if k == 16 || k == 42 then 2 else 0);
      } else {
        NotAtByte(buf, BLANK_LINE, k, 0);
      }
    }
    assert buf[e..e + 4] == BLANK_LINE;
    FindHere(buf, BLANK_LINE, 0, e);
  }

  lemma HeaderStarts(n: nat, h: Bytes)
    requires h == Headers(n)
    ensures |h| > 60 && h[..16] == BOUNDARY
  {
    LengthLineByte(n, 0, LengthLine(n));
    hide Headers, LengthLine;
    forall j | 0 <= j < 16
      ensures h[j] == BOUNDARY[j]
    {
      HeaderByte(n, j, h, LengthLine(n));
    }
  }

  /** The announced length decides how a part is read: one of 1 to 2 500 000 bytes is taken whole, and waited for while
      bytes are missing; any other is not trusted, and what follows the headers is searched for a marked frame. */
  lemma AnnouncedLengthDecides(n: nat, tail: Bytes, buf: Bytes, e: nat, best: Option<Range>)
    requires buf == Headers(n) + BLANK_LINE + tail && e == |Headers(n)| + 4
    ensures n == 0 || n > 2_500_000 ==> PopScan(buf, 0, best) == RawOrBest(buf, e, best)
    ensures 1 <= n <= 2_500_000 && n > |tail| ==> PopScan(buf, 0, best) == Scan(best, 0)
    ensures 1 <= n <= 2_500_000 && n <= |tail| ==>
              PopScan(buf, 0, best) == PopScan(buf, AfterBody(buf, e + n), Some(Range(e, e + n)))
  {
    hide Find, Headers, ContentLength, RawOrBest, AfterBody, At;
    AnnouncedHeader(n, tail, buf, e - 4);
    LengthRoundTrip(n);
  }

  /** A chunk of whole parts, with bodies of any content, yields its last body and leaves nothing over. */
  lemma WholePartsYieldTheLast(bodies: seq<Bytes>)
    requires Sendable(bodies) && bodies != [] && |Stream(bodies)| <= MAX_FRAME
    ensures FeedOne([], Stream(bodies)) == Fed(Some(bodies[|bodies| - 1]), [])
  {
    hide Stream, StartOf, Headers, PopScan, FindLast;
    var s := Stream(bodies);
    assert [] + s == s;
    StartOfFirst(bodies);
    TakesAll(bodies, 0, s, None);
    BodiesInOrder(bodies, |bodies| - 1, |bodies| - 1, s);
  }

  /** So a stream cut between parts loses none but the frames a newer one in the same chunk replaces. */
  lemma {:induction false} AlignedChunksYieldTheirLast(groups: seq<seq<Bytes>>, chunks: seq<Bytes>)
    requires |groups| == |chunks|
    requires forall n | 0 <= n < |chunks| ::
               Sendable(groups[n]) && groups[n] != [] && chunks[n] == Stream(groups[n]) && |chunks[n]| <= MAX_FRAME
    ensures Kept(chunks) == []
    ensures forall n | 0 <= n < |chunks| :: Yielded(chunks, n) == Some(groups[n][|groups[n]| - 1])
  {
    hide Stream, FeedOne, Sendable;
    if chunks != [] {
      var last := |chunks| - 1;
      AlignedChunksYieldTheirLast(groups[..last], chunks[..last]);
      WholePartsYieldTheLast(groups[last]);
      forall n | 0 <= n < |chunks|
        ensures Yielded(chunks, n) == Some(groups[n][|groups[n]| - 1])
      {
        if n < last {
          assert chunks[..last][..n] == chunks[..n];
          assert Yielded(chunks[..last], n) == Yielded(chunks, n);
        }
      }
    }
  }
}

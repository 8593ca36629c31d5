/** When the Tanzanian policy of app/core/plate_policy.py answers alike for every order of its spellings, as a condition
    on the characters of the read. */
module TanzaniaPolicy {
  import opened PlateText
  import opened Lookalikes
  import opened PlatePolicy

  // ----- Letter-digit shapes -----

  /** L stands for a letter, D for a digit. */
  const KE_SHAPE: string := "LLLDDDL"
  const ZA_SHAPES: set<string> := {"LLDDLL", "LLDDDLL", "LLLDDLL", "LLLDDDLL"}

  predicate OfKind(c: char, kind: char) { if kind == 'L' then IsLetter(c) else kind == 'D' && IsDigit(c) }

  predicate Fits(s: string, shape: string)
  {
    |s| == |shape| && forall i | 0 <= i < |s| :: OfKind(s[i], shape[i])
  }

  /** How many characters are of the wrong kind. */
  function Misfits(s: string, shape: string): nat
    requires |s| == |shape|
  {
    if s == [] then 0 else (if OfKind(s[0], shape[0]) then 0 else 1) + Misfits(s[1..], shape[1..])
  }

  /** At most two characters are of the wrong kind, and each of them has a lookalike of the other kind. */
  predicate Mends(s: string, shape: string)
  {
    && |s| == |shape| && Misfits(s, shape) <= 2
    && forall i | 0 <= i < |s| :: OfKind(s[i], shape[i]) || Confusable(s[i])
  }

  /** The Kenyan and South African shapes the read can be mended to. */
  function Open(s: string): set<string>
  {
    set shape | shape in ZA_SHAPES + {KE_SHAPE} && (shape == KE_SHAPE ==> s != [] && s[0] == 'K') && Mends(s, shape)
  }

  function LetterSpots(s: string): set<nat> { set i: nat | i < |s| && IsLetter(s[i]) && Confusable(s[i]) }

  function DigitSpots(s: string): set<nat> { set i: nat | i < |s| && IsDigit(s[i]) && Confusable(s[i]) }

  /** A read that is no mix of letters and digits has at most one spelling that is: an all-digit read with at most one
      confusable digit, one with a single digit and at most one confusable letter, or one without a digit and with at
      most two confusable letters. */
  predicate OneMixAtMost(s: string)
  {
    || |s| < 5 || |s| > 10
    || (if LetterCount(s) == 0 then |DigitSpots(s)| <= 1
        else if DigitCount(s) == 1 then |LetterSpots(s)| <= 1 else |LetterSpots(s)| <= 2)
  }

  /** Whether the read's characters leave the Tanzanian policy one answer when no registered plate decides. */
  predicate Settled(s: string)
  {
    if TzLoose(s) || KePlate(s) || ZaPlate(s) then true
    else if Open(s) != {} then |Open(s)| <= 1
    else LetterDigitMix(s) || OneMixAtMost(s)
  }

  // ----- Spellings of a shape -----

  predicate OfLettersAndDigits(shape: string) { forall i | 0 <= i < |shape| :: shape[i] == 'L' || shape[i] == 'D' }

  /** The read with every misfit swapped. */
  function Mended(s: string, shape: string): string
    requires |s| == |shape|
  {
    seq(|s|, i requires 0 <= i < |s| => if OfKind(s[i], shape[i]) then s[i] else Twin(s[i]))
  }

  lemma {:induction false} SwapsAreMisfits(s: string, t: string, shape: string)
    requires Lookalike(s, t) && Fits(t, shape)
    ensures Swaps(s, t) == Misfits(s, shape)
  {
    if s != [] {
      PlaceOfFit(s, t, shape, 0);
      assert forall i | 0 <= i < |s[1..]| :: s[1..][i] == s[i + 1] && t[1..][i] == t[i + 1];
      assert forall i | 0 <= i < |s[1..]| :: shape[1..][i] == shape[i + 1];
      SwapsAreMisfits(s[1..], t[1..], shape[1..]);
    }
  }

  lemma PlaceOfFit(s: string, t: string, shape: string, i: nat)
    requires Lookalike(s, t) && Fits(t, shape) && i < |s|
    ensures OfKind(s[i], shape[i]) || Confusable(s[i])
    ensures t[i] == if OfKind(s[i], shape[i]) then s[i] else Twin(s[i])
  {
  }

  /** There is at most one spelling of each shape, and it is there exactly when the read mends. */
  lemma ShapeHasOneSpelling(s: string, t: string, shape: string)
    requires IsPlate(s) && 0 < |s| < 64 && |s| == |shape| && OfLettersAndDigits(shape)
    ensures t in Candidates(s) && Fits(t, shape) <==> Mends(s, shape) && t == Mended(s, shape)
  {
    hide Candidates, Swaps, Misfits, Confusable, IsLetter, IsDigit;
    CandidateMeaning(s, t);
    if Lookalike(s, t) && Fits(t, shape) {
      SwapsAreMisfits(s, t, shape);
      forall i: nat | i < |s|
        ensures OfKind(s[i], shape[i]) || Confusable(s[i])
        ensures t[i] == Mended(s, shape)[i]
      {
        PlaceOfFit(s, t, shape, i);
      }
      assert t == Mended(s, shape);
    }
    if Mends(s, shape) && t == Mended(s, shape) {
      MendedFits(s, shape);
      SwapsAreMisfits(s, t, shape);
    }
  }

  lemma TwinKind(c: char)
    requires Confusable(c)
    ensures IsLetter(c) <==> IsDigit(Twin(c))
    ensures IsDigit(c) <==> IsLetter(Twin(c))
  {
  }

  lemma MendedPlace(c: char, kind: char)
    requires IsLetter(c) || IsDigit(c)
    requires (kind == 'L' || kind == 'D') && (OfKind(c, kind) || Confusable(c))
    ensures OfKind(if OfKind(c, kind) then c else Twin(c), kind)
  {
    hide IsLetter, IsDigit, Twin, Confusable;
    if !OfKind(c, kind) {
      TwinKind(c);
    }
  }

  lemma MendedFits(s: string, shape: string)
    requires IsPlate(s) && Mends(s, shape) && OfLettersAndDigits(shape)
    ensures Lookalike(s, Mended(s, shape)) && Fits(Mended(s, shape), shape)
  {
    hide OfKind, Twin, Confusable, IsLetter, IsDigit, Misfits;
    var t := Mended(s, shape);
    forall i | 0 <= i < |s|
      ensures OfKind(t[i], shape[i])
    {
      MendedPlace(s[i], shape[i]);
    }
  }

  lemma OneShape(t: string, shape: string, other: string)
    requires Fits(t, shape) && Fits(t, other) && OfLettersAndDigits(shape) && OfLettersAndDigits(other)
    ensures shape == other
  {
    forall i | 0 <= i < |t|
      ensures shape[i] == other[i]
    {
      assert OfKind(t[i], shape[i]) && OfKind(t[i], other[i]);
    }
  }

  // ----- Kenyan and South African spellings -----

  predicate Foreign(t: string) { KePlate(t) || ZaPlate(t) }

  lemma ShapesAreKinds()
    ensures OfLettersAndDigits(KE_SHAPE) && forall shape | shape in ZA_SHAPES :: OfLettersAndDigits(shape)
    ensures |KE_SHAPE| == 7 && forall shape | shape in ZA_SHAPES :: 6 <= |shape| <= 8
  {
  }

  lemma KenyanShape(t: string)
    ensures KePlate(t) <==> Fits(t, KE_SHAPE) && t[0] == 'K'
  {
    if Fits(t, KE_SHAPE) && t[0] == 'K' {
      assert OfKind(t[1], 'L') && OfKind(t[2], 'L') && OfKind(t[6], 'L');
      assert OfKind(t[3], 'D') && OfKind(t[4], 'D') && OfKind(t[5], 'D');
    }
  }

  lemma SouthAfricanShape(t: string)
    ensures ZaPlate(t) <==> exists shape | shape in ZA_SHAPES :: Fits(t, shape)
  {
    SplitShape(t, 2, 2, "LLDDLL");
    SplitShape(t, 2, 3, "LLDDDLL");
    SplitShape(t, 3, 2, "LLLDDLL");
    SplitShape(t, 3, 3, "LLLDDDLL");
  }

  lemma SplitShape(t: string, letters: nat, digits: nat, shape: string)
    requires |shape| == letters + digits + 2
    requires forall i | 0 <= i < |shape| :: shape[i] == if letters <= i < letters + digits then 'D' else 'L'
    ensures ZaSplit(t, letters, digits) <==> Fits(t, shape)
  {
    hide IsLetter, IsDigit;
    if Fits(t, shape) {
      forall i | 0 <= i < |t|
        ensures if letters <= i < letters + digits then IsDigit(t[i]) else IsLetter(t[i])
      {
        assert OfKind(t[i], shape[i]);
      }
    }
  }

  /** A standard Tanzanian plate: T, three digits, and two, three or four letters. */
  lemma TanzanianShape(t: string)
    ensures TzStandard(t) <==>
            t != [] && t[0] == 'T' && (Fits(t, "LDDDLL") || Fits(t, "LDDDLLL") || Fits(t, "LDDDLLLL"))
  {
    hide TzStandard, Fits;
    StandardTail(t, "LDDDLL");
    StandardTail(t, "LDDDLLL");
    StandardTail(t, "LDDDLLLL");
    StandardLength(t);
  }

  lemma StandardTail(t: string, shape: string)
    requires 6 <= |shape| <= 8 && forall i | 0 <= i < |shape| :: shape[i] == if 1 <= i < 4 then 'D' else 'L'
    ensures Fits(t, shape) ==> |t| == |shape|
    ensures |t| == |shape| ==> (TzStandard(t) <==> t[0] == 'T' && Fits(t, shape))
  {
    if Fits(t, shape) {
      assert forall i | 0 <= i < |t| :: OfKind(t[i], shape[i]);
    }
  }

  lemma StandardLength(t: string)
    ensures TzStandard(t) ==> 6 <= |t| <= 8
  {
  }

  /** An Emirates plate: up to six digits, at least one, and possibly a letter before them. */
  lemma EmiratesShape(t: string)
    ensures AePlate(t) <==>
            && t != [] && (forall i | 0 < i < |t| :: IsDigit(t[i]))
            && if IsDigit(t[0]) then |t| <= 6 else IsLetter(t[0]) && 1 < |t| <= 7
  {
  }

  ghost function ForeignSpellings(s: string): set<string> { set t | t in Candidates(s) && Foreign(t) }

  lemma FirstStays(s: string, t: string)
    requires Lookalike(s, t) && s != []
    ensures t[0] == 'K' <==> s[0] == 'K'
    ensures t[0] == 'T' <==> s[0] == 'T'
  {
  }

  lemma OpenSpelling(s: string, shape: string)
    requires IsPlate(s) && shape in Open(s)
    ensures |s| == |shape| && Mended(s, shape) in ForeignSpellings(s) && Fits(Mended(s, shape), shape)
    ensures OfLettersAndDigits(shape)
  {
    hide Candidates, Mends, Mended, Fits, Lookalike, OfLettersAndDigits, KePlate, ZaPlate;
    ShapesAreKinds();
    assert Mends(s, shape) && |s| == |shape| by { MendsLength(s, shape); }
    var t := Mended(s, shape);
    ShapeHasOneSpelling(s, t, shape);
    CandidateIsLookalike(s, t);
    FirstStays(s, t);
    KenyanShape(t);
    SouthAfricanShape(t);
  }

  lemma MendsLength(s: string, shape: string)
    requires Mends(s, shape)
    ensures |s| == |shape|
  {
  }

  lemma SpellingIsOpen(s: string, t: string) returns (shape: string)
    requires IsPlate(s) && t in ForeignSpellings(s)
    ensures shape in Open(s) && |s| == |shape| && t == Mended(s, shape)
  {
    hide Candidates, Mends, Mended, Lookalike, OfLettersAndDigits, KePlate, ZaPlate;
    ShapesAreKinds();
    KenyanShape(t);
    SouthAfricanShape(t);
    CandidateIsLookalike(s, t);
    SameLength(s, t);
    FirstStays(s, t);
    if KePlate(t) {
      shape := KE_SHAPE;
    } else {
      shape :| shape in ZA_SHAPES && Fits(t, shape);
    }
    ShapeHasOneSpelling(s, t, shape);
  }

  lemma SameLength(s: string, t: string)
    requires Lookalike(s, t)
    ensures |s| == |t|
  {
  }

  lemma AtMostOneSize<T>(a: set<T>)
    ensures |a| <= 1 <==> forall x, y | x in a && y in a :: x == y
  {
    if |a| <= 1 {
      forall x, y | x in a && y in a
        ensures x == y
      {
        assert |a - {x}| == |a| - 1;
        assert y !in a - {x};
      }
    } else {
      var x :| x in a;
      assert |a - {x}| == |a| - 1;
      var y :| y in a - {x};
      assert x in a && y in a && x != y;
    }
  }

  /** As many spellings as shapes to mend to. */
  lemma ForeignIsUnique(s: string)
    requires IsPlate(s)
    ensures AtMostOne(ForeignSpellings(s)) <==> |Open(s)| <= 1
    ensures ForeignSpellings(s) == {} <==> Open(s) == {}
  {
    hide Open, ForeignSpellings, Mended, Fits, OfLettersAndDigits;
    AtMostOneSize(Open(s));
    forall shape | shape in Open(s)
      ensures |s| == |shape| && Mended(s, shape) in ForeignSpellings(s)
    {
      OpenSpelling(s, shape);
    }
    if AtMostOne(ForeignSpellings(s)) {
      forall x, y | x in Open(s) && y in Open(s)
        ensures x == y
      {
        OpenSpelling(s, x);
        OpenSpelling(s, y);
        OneShape(Mended(s, x), x, y);
      }
    }
    if |Open(s)| <= 1 {
      forall p, q | p in ForeignSpellings(s) && q in ForeignSpellings(s)
        ensures p == q
      {
        var x := SpellingIsOpen(s, p);
        var y := SpellingIsOpen(s, q);
      }
    }
    if ForeignSpellings(s) != {} {
      var t :| t in ForeignSpellings(s);
      var shape := SpellingIsOpen(s, t);
    }
  }

  // ----- Mixes of letters and digits -----

  lemma {:induction false} SomeLetter(s: string)
    ensures LetterCount(s) >= 1 <==> exists i :: 0 <= i < |s| && IsLetter(s[i])
  {
    hide IsLetter;
    if s != [] {
      SomeLetter(s[1..]);
      if LetterCount(s[1..]) >= 1 {
        var i :| 0 <= i < |s[1..]| && IsLetter(s[1..][i]);
        assert IsLetter(s[i + 1]);
      }
      if i :| 0 < i < |s| && IsLetter(s[i]) {
        assert IsLetter(s[1..][i - 1]);
      }
    }
  }

  lemma {:induction false} SomeDigit(s: string)
    ensures DigitCount(s) >= 1 <==> exists i :: 0 <= i < |s| && IsDigit(s[i])
  {
    hide IsDigit;
    if s != [] {
      SomeDigit(s[1..]);
      if DigitCount(s[1..]) >= 1 {
        var i :| 0 <= i < |s[1..]| && IsDigit(s[1..][i]);
        assert IsDigit(s[i + 1]);
      }
      if i :| 0 < i < |s| && IsDigit(s[i]) {
        assert IsDigit(s[1..][i - 1]);
      }
    }
  }

  ghost predicate TwoDigitsAt(s: string, i: int, j: int)
  {
    0 <= i < j < |s| && IsDigit(s[i]) && IsDigit(s[j])
  }

  lemma {:induction false} TwoDigits(s: string) returns (i: int, j: int)
    ensures DigitCount(s) >= 2 ==> TwoDigitsAt(s, i, j)
  {
    i, j := 0, 1;
    if DigitCount(s) >= 2 {
      var rest := s[1..];
      if IsDigit(s[0]) {
        SomeDigit(rest);
        var k :| 0 <= k < |rest| && IsDigit(rest[k]);
        j := k + 1;
      } else {
        i, j := TwoDigits(rest);
        i, j := i + 1, j + 1;
      }
    }
  }

  lemma {:induction false} AtLeastTwo(s: string, i: int, j: int)
    requires TwoDigitsAt(s, i, j)
    ensures DigitCount(s) >= 2
  {
    if i > 0 {
      AtLeastTwo(s[1..], i - 1, j - 1);
    } else {
      SomeDigit(s[1..]);
      assert IsDigit(s[1..][j - 1]);
    }
  }

  ghost function MixedSpellings(s: string): set<string> { set t | t in Candidates(s) && LetterDigitMix(t) }

  /** A read of usable length that is all digits, or nearly all letters. */
  ghost predicate Plain(s: string) { IsPlate(s) && 5 <= |s| <= 10 && !LetterDigitMix(s) }

  lemma PlainKinds(s: string)
    requires Plain(s)
    ensures LetterCount(s) == 0 <==> forall i | 0 <= i < |s| :: IsDigit(s[i])
    ensures LetterCount(s) != 0 ==> forall i, j | 0 <= i < j < |s| :: IsLetter(s[i]) || IsLetter(s[j])
    ensures DigitCount(s) == 0 <==> forall i | 0 <= i < |s| :: IsLetter(s[i])
  {
    hide LetterCount, DigitCount;
    SomeLetter(s);
    SomeDigit(s);
    if LetterCount(s) == 0 {
      forall i | 0 <= i < |s|
        ensures IsDigit(s[i])
      {
        assert !IsLetter(s[i]);
      }
    } else {
      forall i, j | 0 <= i < j < |s|
        ensures IsLetter(s[i]) || IsLetter(s[j])
      {
        if TwoDigitsAt(s, i, j) {
          AtLeastTwo(s, i, j);
        }
      }
      var i :| 0 <= i < |s| && IsLetter(s[i]);
      assert !IsDigit(s[i]);
    }
    if DigitCount(s) == 0 {
      forall i | 0 <= i < |s|
        ensures IsLetter(s[i])
      {
        assert !IsDigit(s[i]);
      }
    }
  }

  lemma MixMeaning(t: string)
    ensures LetterDigitMix(t) <==>
            && 5 <= |t| <= 10 && (exists i :: 0 <= i < |t| && IsLetter(t[i])) && (exists i, j :: TwoDigitsAt(t, i, j))
  {
    hide LetterCount, DigitCount, IsLetter, IsDigit, TwoDigitsAt;
    SomeLetter(t);
    var i, j := TwoDigits(t);
    if a, b :| TwoDigitsAt(t, a, b) {
      AtLeastTwo(t, a, b);
    }
  }

  lemma MixAt(t: string, letter: int, i: int, j: int)
    requires 5 <= |t| <= 10 && 0 <= letter < |t| && IsLetter(t[letter])
    requires TwoDigitsAt(t, i, j) || TwoDigitsAt(t, j, i)
    ensures LetterDigitMix(t)
  {
    hide LetterDigitMix, IsLetter, IsDigit, TwoDigitsAt;
    MixMeaning(t);
  }

  lemma SpotsDiffer(a: set<nat>)
    requires |a| >= 2
    ensures exists i, j :: i in a && j in a && i != j
  {
    AtMostOneSize(a);
  }

  lemma ThreeSpots(a: set<nat>) returns (i: nat, j: nat, k: nat)
    requires |a| >= 3
    ensures i in a && j in a && k in a && i != j && i != k && j != k
  {
    i :| i in a;
    SpotsDiffer(a - {i});
    j, k :| j in a - {i} && k in a - {i} && j != k;
  }

  lemma TwoSpots(a: set<nat>, i: nat, j: nat)
    requires |a| <= 2 && i in a && j in a && i != j
    ensures a == {i, j}
  {
    assert |a - {i} - {j}| == |a| - 2;
    assert a - {i} - {j} == {};
  }

  lemma DigitsLeaveTwo(s: string)
    requires Plain(s) && LetterCount(s) == 0 && |DigitSpots(s)| > 1
    ensures !AtMostOne(MixedSpellings(s))
  {
    hide Candidates, LetterCount, DigitCount, LetterDigitMix, IsLetter, IsDigit, Twin, Confusable;
    PlainKinds(s);
    SpotsDiffer(DigitSpots(s));
    var i, j :| i in DigitSpots(s) && j in DigitSpots(s) && i != j;
    LetterAmongDigits(s, i);
    LetterAmongDigits(s, j);
    TwinKind(s[i]);
    assert s[i := Twin(s[i])][j] == s[j];
  }

  lemma LetterAmongDigits(s: string, i: nat)
    requires 5 <= |s| <= 10 && (forall k | 0 <= k < |s| :: IsDigit(s[k])) && i < |s| && Confusable(s[i])
    ensures s[i := Twin(s[i])] in MixedSpellings(s) && Twin(s[i]) != s[i]
  {
    hide Candidates, LetterDigitMix, IsLetter, IsDigit, Twin, Confusable;
    TwinKind(s[i]);
    TwinDiffers(s[i]);
    SwapsAreCandidates(s, i, i);
    var t := s[i := Twin(s[i])];
    var a, b := if i == 0 then 1 else 0, if i <= 1 then 2 else if i == 2 then 1 else 1;
    assert a != b && a != i && b != i;
    MixAt(t, i, a, b);
  }

  lemma OneDigitLeavesTwo(s: string)
    requires Plain(s) && LetterCount(s) != 0 && DigitCount(s) == 1 && |LetterSpots(s)| > 1
    ensures !AtMostOne(MixedSpellings(s))
  {
    hide Candidates, LetterCount, DigitCount, LetterDigitMix, IsLetter, IsDigit, Twin, Confusable;
    SomeDigit(s);
    var d :| 0 <= d < |s| && IsDigit(s[d]);
    SpotsDiffer(LetterSpots(s));
    var i, j :| i in LetterSpots(s) && j in LetterSpots(s) && i != j;
    DigitAmongLetters(s, i, j, d);
    DigitAmongLetters(s, j, i, d);
    assert s[i := Twin(s[i])][j] == s[j];
  }

  lemma DigitAmongLetters(s: string, i: nat, j: nat, d: nat)
    requires 5 <= |s| <= 10 && i < |s| && j < |s| && d < |s| && i != j
    requires IsDigit(s[d]) && IsLetter(s[i]) && Confusable(s[i]) && IsLetter(s[j])
    ensures s[i := Twin(s[i])] in MixedSpellings(s) && Twin(s[i]) != s[i]
  {
    hide Candidates, LetterDigitMix, Twin, Confusable;
    TwinKind(s[i]);
    TwinDiffers(s[i]);
    SwapsAreCandidates(s, i, i);
    MixAt(s[i := Twin(s[i])], j, i, d);
  }

  lemma LettersLeaveTwo(s: string)
    requires Plain(s) && LetterCount(s) != 0 && DigitCount(s) != 1 && |LetterSpots(s)| > 2
    ensures !AtMostOne(MixedSpellings(s))
  {
    hide Candidates, LetterCount, DigitCount, LetterDigitMix, IsLetter, IsDigit, Twin, Confusable;
    var i, j, k := ThreeSpots(LetterSpots(s));
    TwoDigitsAmongLetters(s, i, j, k);
    TwoDigitsAmongLetters(s, i, k, j);
    assert s[i := Twin(s[i])][j := Twin(s[j])][k] == s[k];
    assert s[i := Twin(s[i])][k := Twin(s[k])][k] == Twin(s[k]);
  }

  lemma TwoDigitsAmongLetters(s: string, i: nat, j: nat, k: nat)
    requires 5 <= |s| <= 10 && i < |s| && j < |s| && k < |s| && i != j && i != k && j != k
    requires IsLetter(s[i]) && IsLetter(s[j]) && IsLetter(s[k]) && Confusable(s[i]) && Confusable(s[j])
    ensures s[i := Twin(s[i])][j := Twin(s[j])] in MixedSpellings(s) && Twin(s[j]) != s[j]
  {
    hide Candidates, LetterDigitMix, Twin, Confusable;
    TwinKind(s[i]);
    TwinKind(s[j]);
    TwinDiffers(s[j]);
    SwapsAreCandidates(s, i, j);
    MixAt(s[i := Twin(s[i])][j := Twin(s[j])], k, i, j);
  }

  /** The only mix left: every digit swapped in an all-digit read, otherwise every letter. */
  function OnlyMix(s: string): string
  {
    seq(|s|, i requires 0 <= i < |s| => if LetterCount(s) == 0 || IsLetter(s[i]) then Twin(s[i]) else s[i])
  }

  lemma DifferentPlace(s: string, p: string, k: nat)
    requires IsPlate(s) && Lookalike(s, p) && k < |s| && p[k] != s[k]
    ensures p[k] == Twin(s[k]) && (k in LetterSpots(s) || k in DigitSpots(s))
    ensures k in LetterSpots(s) <==> IsDigit(p[k])
    ensures k in DigitSpots(s) <==> IsLetter(p[k])
  {
    hide IsLetter, IsDigit, Twin, Confusable;
    TwinDiffers(s[k]);
    TwinKind(s[k]);
  }

  lemma OnlyMixOfDigits(s: string, p: string, k: nat)
    requires Plain(s) && LetterCount(s) == 0 && |DigitSpots(s)| <= 1 && Lookalike(s, p) && LetterDigitMix(p)
    requires k < |s|
    ensures p[k] == Twin(s[k])
  {
    hide LetterCount, DigitCount, LetterDigitMix, IsLetter, IsDigit, Twin, Confusable;
    PlainKinds(s);
    MixMeaning(p);
    var i :| 0 <= i < |p| && IsLetter(p[i]);
    LetterIsNoDigit(p[i]);
    DifferentPlace(s, p, i);
    AtMostOneSize(DigitSpots(s));
    LookalikePlace(s, p, k);
    TwinDiffers(s[k]);
    if Confusable(s[k]) {
      assert k in DigitSpots(s);
    }
  }

  lemma LetterIsNoDigit(c: char)
    ensures !(IsLetter(c) && IsDigit(c))
  {
  }

  lemma OnlyMixOfOneDigit(s: string, p: string, k: nat)
    requires Plain(s) && LetterCount(s) != 0 && DigitCount(s) == 1 && |LetterSpots(s)| <= 1
    requires Lookalike(s, p) && LetterDigitMix(p) && k < |s|
    ensures p[k] == if IsLetter(s[k]) then Twin(s[k]) else s[k]
  {
    hide LetterCount, DigitCount, LetterDigitMix, IsLetter, IsDigit, Twin, Confusable;
    PlainKinds(s);
    MixMeaning(p);
    var i, j :| TwoDigitsAt(p, i, j);
    LetterIsNoDigit(p[i]);
    LetterIsNoDigit(p[j]);
    if p[i] != s[i] {
      DifferentPlace(s, p, i);
    }
    if p[j] != s[j] {
      DifferentPlace(s, p, j);
    }
    AtMostOneSize(LetterSpots(s));
    assert forall x | x in LetterSpots(s) :: p[x] != s[x];
    LookalikePlace(s, p, k);
    TwinDiffers(s[k]);
    LetterIsNoDigit(s[k]);
    if p[k] != s[k] {
      DifferentPlace(s, p, k);
      LetterIsNoDigit(p[k]);
    }
  }

  lemma OnlyMixOfLetters(s: string, p: string, k: nat)
    requires Plain(s) && LetterCount(s) != 0 && DigitCount(s) != 1 && |LetterSpots(s)| <= 2
    requires Lookalike(s, p) && LetterDigitMix(p) && k < |s|
    ensures p[k] == if IsLetter(s[k]) then Twin(s[k]) else s[k]
  {
    hide LetterCount, LetterDigitMix, IsLetter, IsDigit, Twin, Confusable;
    PlainKinds(s);
    AtMostOneDigit(s);
    MixMeaning(p);
    var i, j :| TwoDigitsAt(p, i, j);
    LetterIsNoDigit(p[i]);
    LetterIsNoDigit(p[j]);
    DifferentPlace(s, p, i);
    DifferentPlace(s, p, j);
    TwoSpots(LetterSpots(s), i, j);
    LookalikePlace(s, p, k);
    TwinDiffers(s[k]);
    if Confusable(s[k]) {
      assert k in LetterSpots(s);
    }
  }

  lemma AtMostOneDigit(s: string)
    requires Plain(s) && LetterCount(s) != 0
    ensures DigitCount(s) <= 1
  {
  }

  /** A read that is no mix has at most one spelling that is, exactly under the condition on its characters. */
  lemma MixIsUnique(s: string)
    requires Plain(s)
    ensures AtMostOne(MixedSpellings(s)) <==> OneMixAtMost(s)
  {
    hide Candidates, LetterCount, DigitCount, LetterDigitMix, IsLetter, Twin, Lookalike, LetterSpots, DigitSpots;
    if OneMixAtMost(s) {
      forall p | p in MixedSpellings(s)
        ensures p == OnlyMix(s)
      {
        MixIsOnly(s, p);
      }
    } else if LetterCount(s) == 0 {
      DigitsLeaveTwo(s);
    } else if DigitCount(s) == 1 {
      OneDigitLeavesTwo(s);
    } else {
      LettersLeaveTwo(s);
    }
  }

  lemma MixIsOnly(s: string, p: string)
    requires Plain(s) && OneMixAtMost(s) && p in MixedSpellings(s)
    ensures p == OnlyMix(s)
  {
    hide Candidates, LetterCount, DigitCount, LetterDigitMix, IsLetter, Twin, Lookalike, LetterSpots, DigitSpots;
    CandidateIsLookalike(s, p);
    SameLength(s, p);
    forall k: nat | k < |s|
      ensures p[k] == OnlyMix(s)[k]
    {
      if LetterCount(s) == 0 {
        OnlyMixOfDigits(s, p, k);
      } else if DigitCount(s) == 1 {
        OnlyMixOfOneDigit(s, p, k);
      } else {
        OnlyMixOfLetters(s, p, k);
      }
    }
  }

  // ----- What the policy chooses from -----

  /** Reads of T and five to eight more characters keep one answer: the standard one if there is one, or themselves. */
  lemma LooseIsUnique(s: string)
    requires TzLoose(s)
    ensures AtMostOne(TzChoices(s))
  {
    hide Candidates, Forced, TzStandard;
    forall t | t in Candidates(s)
      ensures ShapeScore(t) >= 2 && (ShapeScore(t) == 3 ==> t == Forced(s))
    {
      CandidateIsLookalike(s, t);
      LooseLookalike(s, t);
      if TzStandard(t) {
        StandardSpellingIsForced(s, t);
      }
    }
  }

  lemma LooseLookalike(s: string, t: string)
    requires Lookalike(s, t) && IsPlate(s) && s != []
    ensures IsPlate(t) && (TzLoose(t) <==> TzLoose(s))
  {
    FirstStays(s, t);
    forall i | 0 <= i < |t|
      ensures IsLetter(t[i]) || IsDigit(t[i])
    {
      if t[i] != s[i] {
        TwinKind(s[i]);
      }
    }
  }

  /** Any other spelling scores by its foreign shape or by being a mix. */
  lemma ScoreOfOther(s: string, t: string)
    requires IsPlate(s) && !TzLoose(s) && Lookalike(s, t)
    ensures ShapeScore(t) == if Foreign(t) then 2 else if LetterDigitMix(t) then 1 else 0
  {
    if s != [] {
      LooseLookalike(s, t);
    }
    StandardIsLoose(t);
  }

  lemma StandardIsLoose(t: string)
    ensures TzStandard(t) ==> TzLoose(t)
  {
    if TzStandard(t) {
      forall i | 0 <= i < |t|
        ensures IsLetter(t[i]) || IsDigit(t[i])
      {
      }
    }
  }

  /** Then the forced text never beats the read and its spellings. */
  lemma ForcedDoesNotBeat(s: string)
    requires IsPlate(s) && !TzLoose(s)
    ensures !Beats(Forced(s), {s} + Candidates(s))
  {
    hide Candidates, ShapeScore;
    if Forced(s) != s {
      var f := Forced(s);
      ForcedIsLookalike(s);
      ScoreOfOther(s, f);
      ScoreOfOther(s, s);
      if LetterDigitMix(f) && !LetterDigitMix(s) {
        var t := NearerMix(s, f);
        CandidateIsLookalike(s, t);
        ScoreOfOther(s, t);
      }
    }
  }

  /** If a longer text of T becomes a mix, two swaps do as well. */
  lemma NearerMix(s: string, f: string) returns (t: string)
    requires IsPlate(s) && |s| >= 10 && s[0] == 'T' && Lookalike(s, f) && LetterDigitMix(f)
    ensures t in MixedSpellings(s)
  {
    hide Candidates, LetterCount, DigitCount, LetterDigitMix, Twin;
    MixMeaning(f);
    var i, j :| TwoDigitsAt(f, i, j);
    FirstStays(s, f);
    t := s[i := f[i]][j := f[j]];
    LookalikePlace(s, f, i);
    LookalikePlace(s, f, j);
    SwapsOfTwoUpdates(s, i, f[i], j, f[j]);
    CandidateMeaning(s, t);
    MixAt(t, 0, i, j);
  }

  lemma KeptShape(s: string)
    requires IsPlate(s) && !TzLoose(s)
    requires Foreign(s) || (ForeignSpellings(s) == {} && (LetterDigitMix(s) || MixedSpellings(s) == {}))
    ensures TzChoices(s) == {s}
  {
    hide Candidates, ShapeScore, Foreign, LetterDigitMix, Beats, Lookalike;
    ForcedDoesNotBeat(s);
    SelfLookalike(s);
    ScoreOfOther(s, s);
    forall t | t in Candidates(s)
      ensures ShapeScore(t) <= ShapeScore(s)
    {
      CandidateIsLookalike(s, t);
      ScoreOfOther(s, t);
      assert Foreign(t) ==> t in ForeignSpellings(s);
      assert LetterDigitMix(t) ==> t in MixedSpellings(s);
    }
  }

  lemma SelfLookalike(s: string)
    ensures Lookalike(s, s)
  {
  }

  /** Otherwise the best spellings are chosen from: those of a foreign shape, or failing them the mixes. */
  lemma BetterShapes(s: string, better: set<string>, score: nat)
    requires better <= Candidates(s) && better != {} && !Beats(Forced(s), {s} + Candidates(s))
    requires forall t | t in Candidates(s) :: if t in better then ShapeScore(t) == score else ShapeScore(t) < score
    requires ShapeScore(s) < score
    ensures TzChoices(s) == better
  {
    hide Candidates, ShapeScore, Beats, Forced;
    var best :| best in better;
    assert ShapeScore(best) > ShapeScore(s);
    forall t
      ensures t in TzChoices(s) <==> t in better
    {
      if t in TzChoices(s) {
        assert ShapeScore(best) <= ShapeScore(t);
      }
    }
  }

  lemma ForeignChosen(s: string)
    requires IsPlate(s) && !TzLoose(s) && !Foreign(s) && ForeignSpellings(s) != {}
    ensures TzChoices(s) == ForeignSpellings(s)
  {
    hide Candidates, ShapeScore, Foreign, LetterDigitMix, Beats, Lookalike, TzChoices;
    ForcedDoesNotBeat(s);
    SelfLookalike(s);
    ScoreOfOther(s, s);
    forall t | t in Candidates(s)
      ensures if t in ForeignSpellings(s) then ShapeScore(t) == 2 else ShapeScore(t) < 2
    {
      CandidateIsLookalike(s, t);
      ScoreOfOther(s, t);
    }
    BetterShapes(s, ForeignSpellings(s), 2);
  }

  lemma MixChosen(s: string)
    requires IsPlate(s) && !TzLoose(s) && !Foreign(s) && ForeignSpellings(s) == {}
    requires !LetterDigitMix(s) && MixedSpellings(s) != {}
    ensures TzChoices(s) == MixedSpellings(s)
  {
    hide Candidates, ShapeScore, Foreign, LetterDigitMix, Beats, Lookalike, TzChoices;
    ForcedDoesNotBeat(s);
    SelfLookalike(s);
    ScoreOfOther(s, s);
    forall t | t in Candidates(s)
      ensures if t in MixedSpellings(s) then ShapeScore(t) == 1 else ShapeScore(t) < 1
    {
      CandidateIsLookalike(s, t);
      ScoreOfOther(s, t);
      assert Foreign(t) ==> t in ForeignSpellings(s);
    }
    BetterShapes(s, MixedSpellings(s), 1);
  }

  lemma NoMixOfThatLength(s: string)
    requires |s| < 5 || |s| > 10
    ensures MixedSpellings(s) == {}
  {
    hide Candidates, LetterCount, DigitCount, Lookalike;
    forall t | t in Candidates(s)
      ensures !LetterDigitMix(t)
    {
      CandidateIsLookalike(s, t);
      SameLength(s, t);
    }
  }

  /** The Tanzanian policy's shapes leave one answer exactly when the read's characters settle it. */
  lemma TanzanianShapeIsUnique(s: string)
    requires IsPlate(s)
    ensures ShapeDecides(Tanzania, s) <==> Settled(s)
  {
    hide TzChoices, Open, OneMixAtMost, LetterDigitMix, ForeignSpellings, MixedSpellings, TzLoose, KePlate, ZaPlate,
      IsPlate;
    if TzLoose(s) {
      LooseIsUnique(s);
    } else {
      ForeignIsUnique(s);
      if Foreign(s) {
        KeptShape(s);
      } else if ForeignSpellings(s) != {} {
        ForeignChosen(s);
      } else if LetterDigitMix(s) {
        KeptShape(s);
      } else {
        MixSettles(s);
      }
    }
  }

  lemma MixSettles(s: string)
    requires IsPlate(s) && !TzLoose(s) && !Foreign(s) && ForeignSpellings(s) == {} && !LetterDigitMix(s)
    ensures AtMostOne(TzChoices(s)) <==> OneMixAtMost(s)
  {
    hide TzChoices, LetterDigitMix, ForeignSpellings, MixedSpellings, TzLoose, Foreign, IsPlate, LetterCount,
      DigitCount, LetterSpots, DigitSpots;
    if |s| < 5 || |s| > 10 {
      NoMixOfThatLength(s);
    } else {
      MixIsUnique(s);
    }
    if MixedSpellings(s) == {} {
      KeptShape(s);
    } else {
      MixChosen(s);
    }
  }

  /** Over all normalised reads and registered plates: the Tanzanian answer does not depend on the order of trial
      exactly when the read is registered, or one of its spellings alone is, or none is and its characters settle it. */
  lemma TanzanianAnswerIsUnique(plate: string, known: set<string>)
    requires IsPlate(plate)
    ensures OrderFree(Tanzania, plate, known) <==>
            (plate in known ||
             if Candidates(plate) !! known then Settled(plate) else AtMostOne(Candidates(plate) * known))
  {
    hide Candidates, Answers, Settled, IsPlate;
    AnswerIsUnique(Tanzania, plate, known);
    TanzanianShapeIsUnique(plate);
  }

  /** The all-digit read 00123 may become O0123 or 0O123. */
  lemma TanzanianReadWithTwoAnswers()
    ensures Answers(Tanzania, "00123", {}, Correction("O0123", true, TzShape))
    ensures Answers(Tanzania, "00123", {}, Correction("0O123", true, TzShape))
  {
    hide Candidates, ShapeScore, TzChoices, ForeignSpellings, MixedSpellings, Open, LetterDigitMix;
    var s := "00123";
    assert s[0 := 'O'] == "O0123" && s[1 := 'O'] == "0O123";
    LetterAmongDigits(s, 0);
    LetterAmongDigits(s, 1);
    ShortReadsStayOpen(s);
    ForeignIsUnique(s);
    NoLetters(s);
    MixChosen(s);
  }

  lemma ShortReadsStayOpen(s: string)
    requires |s| < 6
    ensures Open(s) == {}
  {
    hide Misfits;
    ShapesAreKinds();
  }

  lemma NoLetters(s: string)
    requires forall i | 0 <= i < |s| :: IsDigit(s[i])
    ensures !LetterDigitMix(s)
  {
    SomeLetter(s);
  }
}

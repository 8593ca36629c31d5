/** Plate correction policies: app/core/plate_policy.py. The spellings are tried in whatever order
    the set yields them, so every contract here holds for all orders. */
module PlatePolicy {
  import opened PlateText
  import opened Lookalikes

  datatype Reason = ExactKnown | KnownConfusion | TzShape | Pattern | Unchanged

  datatype Correction = Correction(plate: string, corrected: bool, reason: Reason)

  datatype Country = Kenya | SouthAfrica | Emirates

  predicate Matches(country: Country, plate: string)
  {
    match country
    case Kenya => KePlate(plate)
    case SouthAfrica => ZaPlate(plate)
    case Emirates => AePlate(plate)
  }

  /** The spellings a correction may choose from. */
  function Candidates(plate: string): (r: set<string>)
  {
    if plate == [] then {} else Within(plate, Rounds(plate, 2))
  }

  /** The registered plates, normalised, without blanks. */
  function Known(registered: seq<string>): set<string>
  {
    set k | 0 <= k < |registered| && Normalize(registered[k]) != [] :: Normalize(registered[k])
  }

  lemma KnownNext(registered: seq<string>, i: nat)
    requires i < |registered|
    ensures Known(registered[..i + 1]) ==
            Known(registered[..i]) + if Normalize(registered[i]) != [] then {Normalize(registered[i])} else {}
  {
    var before, after := registered[..i], registered[..i + 1];
    assert forall k | 0 <= k < i :: after[k] == before[k];
    assert after[i] == registered[i];
    forall p
      ensures p in Known(after) <==> p in Known(before) || (p == Normalize(registered[i]) && p != [])
    {
      if p in Known(before) {
        var k :| 0 <= k < i && Normalize(before[k]) == p && p != [];
        assert Normalize(after[k]) == p;
      }
    }
  }

  method KnownPlates(registered: seq<string>) returns (known: set<string>)
    ensures known == Known(registered)
  {
    known := {};
    for i := 0 to |registered|
      invariant known == Known(registered[..i])
    {
      KnownNext(registered, i);
      var plate := Normalize(registered[i]);
      if plate != [] {
        known := known + {plate};
      }
    }
    assert registered[..|registered|] == registered;
  }

  /** A registered plate is kept; otherwise a registered lookalike replaces the read, if there is one. */
  ghost predicate NeutralRule(plate: string, known: set<string>, c: Correction)
  {
    (c.reason == ExactKnown <==> plate in known) &&
    (c.reason == KnownConfusion <==> plate !in known && !(Candidates(plate) !! known)) &&
    (c.reason in {ExactKnown, KnownConfusion, Unchanged}) &&
    (c.reason == KnownConfusion ==> c.plate in Candidates(plate) * known) &&
    (c.reason != KnownConfusion ==> c.plate == plate) &&
    (c.corrected <==> c.plate != plate)
  }

  /** The read or one of its spellings is registered. */
  ghost predicate Decided(plate: string, known: set<string>)
  {
    plate in known || !(Candidates(plate) !! known)
  }

  method NeutralCorrect(raw: string, registered: seq<string>) returns (c: Correction)
    ensures NeutralRule(Normalize(raw), Known(registered), c)
  {
    var normalised := Normalize(raw);
    var plates := KnownPlates(registered);
    if normalised in plates {
      return Correction(normalised, false, ExactKnown);
    }
    var variants := ConfusionVariants(normalised, 2);
    NormalizeFixesPlates(normalised);
    assert variants == Candidates(normalised);
    var rest := variants;
    while rest != {}
      invariant rest <= variants
      invariant (variants - rest) !! plates
    {
      var plate :| plate in rest;
      if plate in plates {
        return Correction(plate, plate != normalised, KnownConfusion);
      }
      rest := rest - {plate};
    }
    assert variants - rest == variants;
    c := Correction(normalised, false, Unchanged);
  }

  // ----- Tanzania -----

  /** best is one of the tried spellings, and none of the tried spellings has a better shape. */
  ghost predicate BestShape(tried: set<string>, best: string)
  {
    best in tried && forall t | t in tried :: ShapeScore(t) <= ShapeScore(best)
  }

  /** Keep the first spelling, in any order of trial, whose shape beats everything before it; the read itself is
      kept unless some spelling beats it. */
  method PickBestShape(normalised: string, variants: set<string>) returns (best: string, bestScore: nat)
    ensures BestShape({normalised} + variants, best) && bestScore == ShapeScore(best)
    ensures bestScore == ShapeScore(normalised) ==> best == normalised
  {
    best, bestScore := normalised, ShapeScore(normalised);
    var rest := variants;
    while rest != {}
      invariant rest <= variants
      invariant bestScore == ShapeScore(best) && ShapeScore(normalised) <= bestScore
      invariant bestScore == ShapeScore(normalised) ==> best == normalised
      invariant BestShape({normalised} + (variants - rest), best)
    {
      var plate :| plate in rest;
      var score := ShapeScore(plate);
      if score > bestScore {
        best, bestScore := plate, score;
      }
      ghost var tried := variants - rest;
      rest := rest - {plate};
      assert variants - rest == tried + {plate};
    }
    assert variants - rest == variants;
  }

  ghost predicate Beats(plate: string, tried: set<string>)
  {
    forall t | t in tried :: ShapeScore(t) < ShapeScore(plate)
  }

  /** The plates the Tanzanian policy may answer with when no registered plate decided, over all orders of trial. */
  ghost function TzChoices(plate: string): set<string>
  {
    var spellings := Candidates(plate);
    if Beats(Forced(plate), {plate} + spellings) then {Forced(plate)}
    else if forall t | t in spellings :: ShapeScore(t) <= ShapeScore(plate) then {plate}
    else set t | t in spellings && BestShape(spellings, t)
  }

  ghost predicate TzRule(plate: string, c: Correction)
  {
    c.plate in TzChoices(plate) && (c.corrected <==> c.plate != plate) &&
    c.reason == if c.plate != plate then TzShape else Unchanged
  }

  lemma CandidatesOf(plate: string, variants: set<string>)
    requires plate == [] ==> variants == {}
    requires plate != [] ==> variants == Within(plate, Rounds(plate, 2))
    ensures variants == Candidates(plate)
  {
  }

  /** The best of the loop, or the forced text if it is better still, is one of the choices. */
  lemma ChosenShape(plate: string, best: string)
    requires BestShape({plate} + Candidates(plate), best) && (ShapeScore(best) == ShapeScore(plate) ==> best == plate)
    ensures (if ShapeScore(Forced(plate)) > ShapeScore(best) then Forced(plate) else best) in TzChoices(plate)
  {
    hide ShapeScore, Candidates;
  }

  method TzCorrect(raw: string, registered: seq<string>) returns (c: Correction)
    ensures Decided(Normalize(raw), Known(registered)) ==> NeutralRule(Normalize(raw), Known(registered), c)
    ensures !Decided(Normalize(raw), Known(registered)) ==> TzRule(Normalize(raw), c)
  {
    hide ShapeScore, TzChoices, Candidates;
    c := NeutralCorrect(raw, registered);
    if c.reason == ExactKnown || c.reason == KnownConfusion {
      return;
    }
    var normalised := Normalize(raw);
    var variants := ConfusionVariants(normalised, 2);
    NormalizeFixesPlates(normalised);
    var best, bestScore := PickBestShape(normalised, variants);
    var forced := ForceTzPositions(normalised);
    CandidatesOf(normalised, variants);
    ChosenShape(normalised, best);
    if ShapeScore(forced) > bestScore {
      best := forced;
    }
    c := Correction(best, best != normalised, if best != normalised then TzShape else Unchanged);
  }

  lemma TzChoiceIsBest(plate: string, best: string)
    requires best in TzChoices(plate)
    ensures BestShape({plate, Forced(plate)} + Candidates(plate), best)
  {
    hide ShapeScore, Candidates;
  }

  /** A read could stand for a standard Tanzanian plate: some lookalike spelling, at any number of swaps. */
  ghost predicate CouldBeStandard(plate: string)
  {
    exists t :: Lookalike(plate, t) && TzStandard(t)
  }

  /** The Tanzanian answer is standard exactly when some lookalike spelling is, however many swaps away;
      it is then that spelling, whatever the order of trial. Otherwise it is still a lookalike of the
      read, and of no worse shape. */
  lemma TzCorrectionIsComplete(plate: string, c: Correction)
    requires TzRule(plate, c)
    ensures TzStandard(c.plate) <==> CouldBeStandard(plate)
    ensures forall t :: Lookalike(plate, t) && TzStandard(t) ==> c.plate == t
    ensures Lookalike(plate, c.plate)
    ensures ShapeScore(plate) <= ShapeScore(c.plate)
  {
    TzChoiceIsBest(plate, c.plate);
    ForcedIsLookalike(plate);
    assert Lookalike(plate, c.plate) by {
      if c.plate in Candidates(plate) {
        WithinMeaning(plate, Rounds(plate, 2), c.plate);
      }
    }
    forall t | Lookalike(plate, t) && TzStandard(t)
      ensures c.plate == t
    {
      StandardSpellingIsForced(plate, t);
      assert ShapeScore(Forced(plate)) == 3;
      StandardSpellingIsForced(plate, c.plate);
    }
  }

  // ----- Kenya, South Africa, the Emirates -----

  ghost predicate PatternRule(country: Country, plate: string, c: Correction)
  {
    (c.corrected <==> c.plate != plate) &&
    if Matches(country, plate) then c == Correction(plate, false, Unchanged)
    else if exists t | t in Candidates(plate) :: Matches(country, t)
      then c.plate in Candidates(plate) && Matches(country, c.plate) && c.reason == Pattern
    else c == Correction(plate, false, Unchanged)
  }

  method PatternCorrect(country: Country, raw: string, registered: seq<string>)
    returns (c: Correction)
    ensures Decided(Normalize(raw), Known(registered)) ==> NeutralRule(Normalize(raw), Known(registered), c)
    ensures !Decided(Normalize(raw), Known(registered)) ==> PatternRule(country, Normalize(raw), c)
  {
    c := NeutralCorrect(raw, registered);
    if c.reason == ExactKnown || c.reason == KnownConfusion {
      return;
    }
    var normalised := Normalize(raw);
    if Matches(country, normalised) {
      return Correction(normalised, false, Unchanged);
    }
    var variants := ConfusionVariants(normalised, 2);
    NormalizeFixesPlates(normalised);
    var rest := variants;
    while rest != {}
      invariant rest <= variants
      invariant forall t | t in variants - rest :: !Matches(country, t)
    {
      var plate :| plate in rest;
      if Matches(country, plate) {
        return Correction(plate, plate != normalised, Pattern);
      }
      rest := rest - {plate};
    }
    c := Correction(normalised, false, Unchanged);
  }

  // ----- When the answer does not depend on the order of trial -----

  datatype Policy = Neutral | Tanzania | Patterned(country: Country)

  /** The answers a policy may give to a normalised read, over all orders of trial. */
  ghost predicate Answers(policy: Policy, plate: string, known: set<string>, c: Correction)
  {
    if Decided(plate, known) || policy == Neutral then NeutralRule(plate, known, c)
    else if policy == Tanzania then TzRule(plate, c)
    else PatternRule(policy.country, plate, c)
  }

  ghost predicate AtMostOne(plates: set<string>) { forall p, q | p in plates && q in plates :: p == q }

  ghost function Shaped(country: Country, plate: string): set<string>
  {
    set t | t in Candidates(plate) && Matches(country, t)
  }

  /** Without a registered plate to decide, only one answer is left. */
  ghost predicate ShapeDecides(policy: Policy, plate: string)
  {
    match policy
    case Neutral => true
    case Tanzania => AtMostOne(TzChoices(plate))
    case Patterned(country) => Matches(country, plate) || AtMostOne(Shaped(country, plate))
  }

  lemma NeutralAnswer(policy: Policy, plate: string, known: set<string>, p: string)
    requires plate !in known && p in Candidates(plate) * known
    ensures Answers(policy, plate, known, Correction(p, p != plate, KnownConfusion))
  {
    hide Candidates;
  }

  lemma ShapeAnswer(policy: Policy, plate: string, known: set<string>, p: string)
    requires !Decided(plate, known)
    requires policy == Tanzania ==> p in TzChoices(plate)
    requires policy.Patterned? ==> !Matches(policy.country, plate) && p in Shaped(policy.country, plate)
    requires policy != Neutral
    ensures exists c :: Answers(policy, plate, known, c) && c.plate == p
  {
    hide Candidates, Matches, TzChoices;
    var reason := if policy.Patterned? then Pattern else if p != plate then TzShape else Unchanged;
    assert Answers(policy, plate, known, Correction(p, p != plate, reason));
  }

  lemma SamePlateSameAnswer(policy: Policy, plate: string, known: set<string>, c: Correction, d: Correction)
    requires Answers(policy, plate, known, c) && Answers(policy, plate, known, d) && c.plate == d.plate
    ensures c == d
  {
    hide Candidates, Matches, TzChoices;
  }

  /** The policy's answer is the same for every order of trial. */
  ghost predicate OrderFree(policy: Policy, plate: string, known: set<string>)
  {
    forall c, d | Answers(policy, plate, known, c) && Answers(policy, plate, known, d) :: c == d
  }

  /** A policy's answer is the same for every order of trial exactly when the read is registered, or one of its
      spellings alone is, or none is and the policy's shape leaves one answer. */
  lemma AnswerIsUnique(policy: Policy, plate: string, known: set<string>)
    ensures OrderFree(policy, plate, known) <==>
            (plate in known ||
             if Candidates(plate) !! known then ShapeDecides(policy, plate) else AtMostOne(Candidates(plate) * known))
  {
    hide Candidates, Matches, TzChoices, Answers;
    if OrderFree(policy, plate, known) {
      if plate !in known {
        OrderFreeLeavesOne(policy, plate, known);
      }
    } else {
      var c, d :| Answers(policy, plate, known, c) && Answers(policy, plate, known, d) && c != d;
      TwoAnswersLeft(policy, plate, known, c, d);
    }
  }

  lemma OrderFreeLeavesOne(policy: Policy, plate: string, known: set<string>)
    requires OrderFree(policy, plate, known) && plate !in known
    ensures if Candidates(plate) !! known then ShapeDecides(policy, plate) else AtMostOne(Candidates(plate) * known)
  {
    hide Candidates, Matches, TzChoices, Answers;
    var misshapen := policy.Patterned? && !Matches(policy.country, plate);
    var plates := if !(Candidates(plate) !! known) then Candidates(plate) * known
                  else if policy == Tanzania then TzChoices(plate)
                  else if misshapen then Shaped(policy.country, plate) else {};
    forall p, q | p in plates && q in plates
      ensures p == q
    {
      if !(Candidates(plate) !! known) {
        NeutralAnswer(policy, plate, known, p);
        NeutralAnswer(policy, plate, known, q);
      } else {
        ShapeAnswer(policy, plate, known, p);
        ShapeAnswer(policy, plate, known, q);
      }
    }
  }

  lemma TwoAnswersLeft(policy: Policy, plate: string, known: set<string>, c: Correction, d: Correction)
    requires Answers(policy, plate, known, c) && Answers(policy, plate, known, d) && c != d
    ensures plate !in known
    ensures if Candidates(plate) !! known then !ShapeDecides(policy, plate) else !AtMostOne(Candidates(plate) * known)
  {
    hide Candidates, Matches, TzChoices, ShapeScore;
    if c.plate == d.plate {
      SamePlateSameAnswer(policy, plate, known, c, d);
    }
    if plate !in known && !(Candidates(plate) !! known) {
      assert c.plate in Candidates(plate) * known && d.plate in Candidates(plate) * known;
    } else if plate !in known && policy.Patterned? && !Matches(policy.country, plate) &&
              exists t | t in Candidates(plate) :: Matches(policy.country, t) {
      assert c.plate in Shaped(policy.country, plate) && d.plate in Shaped(policy.country, plate);
    }
  }

  // ----- Which shapes leave one answer -----

  /** The one place where two plates of a country and length may differ in being a letter or a digit; -1 if none. */
  function Pivot(country: Country, length: nat): (v: int)
    ensures -1 <= v < length
  {
    match country
    case Kenya => -1
    case SouthAfrica => if length == 7 then 2 else -1
    case Emirates => if 2 <= length <= 6 then 0 else -1
  }

  lemma PlaceClass(country: Country, p: string, q: string, i: nat)
    requires Matches(country, p) && Matches(country, q) && i < |p| == |q| && i != Pivot(country, |p|)
    ensures IsLetter(p[i]) <==> IsLetter(q[i])
  {
  }

  lemma PivotIsFree(country: Country, p: string, v: nat)
    requires Matches(country, p) && v == Pivot(country, |p|) && Confusable(p[v])
    ensures Matches(country, p[v := Twin(p[v])])
  {
    var q := p[v := Twin(p[v])];
    assert IsLetter(q[v]) <==> IsDigit(p[v]);
    if country == SouthAfrica {
      assert ZaSplit(q, 2, 3) || ZaSplit(q, 3, 2);
    }
  }

  /** The read is misshapen, its pivot is confusable, and one swap elsewhere gives it the shape: then a swap is left
      for the pivot. */
  ghost predicate Ambiguous(country: Country, s: string)
  {
    var v := Pivot(country, |s|);
    && !Matches(country, s) && v >= 0 && Confusable(s[v])
    && exists i | 0 <= i < |s| :: i != v && Confusable(s[i]) && Matches(country, s[i := Twin(s[i])])
  }

  lemma OneLetterOneDigit(c: char, x: char, y: char)
    requires x in {c, Twin(c)} && y in {c, Twin(c)} && (IsLetter(x) <==> IsLetter(y))
    ensures x == y
  {
  }

  lemma {:induction false} ConfusableCountBound(s: string)
    ensures ConfusableCount(s) <= |s|
  {
    if s != [] {
      ConfusableCountBound(s[1..]);
    }
  }

  /** The spellings of a read short enough for both search rounds. */
  lemma CandidateMeaning(s: string, t: string)
    requires 0 < |s| < 64
    ensures t in Candidates(s) <==> Lookalike(s, t) && Swaps(s, t) <= 2
  {
    hide Within, Rounds, Swaps, Lookalike;
    ConfusableCountBound(s);
    BothRoundsRun(s);
    WithinMeaning(s, 2, t);
  }

  lemma CandidateIsLookalike(s: string, t: string)
    requires t in Candidates(s)
    ensures Lookalike(s, t)
  {
    hide Within, Rounds, Lookalike;
    WithinMeaning(s, Rounds(s, 2), t);
  }

  lemma ShapesAreShort(country: Country, p: string)
    requires Matches(country, p)
    ensures 1 <= |p| <= 8
  {
  }

  /** The spellings of a country's shape, without counting search rounds. */
  lemma ShapedMeaning(country: Country, s: string, p: string)
    ensures p in Shaped(country, s) <==> Lookalike(s, p) && Swaps(s, p) <= 2 && Matches(country, p)
  {
    hide Candidates, Matches, Swaps, Lookalike;
    if Matches(country, p) {
      ShapesAreShort(country, p);
      if |s| == |p| {
        CandidateMeaning(s, p);
      } else {
        LookalikeLength(s, p);
        if p in Candidates(s) {
          CandidateIsLookalike(s, p);
        }
      }
    }
  }

  lemma LookalikeLength(s: string, p: string)
    requires |s| != |p|
    ensures !Lookalike(s, p)
  {
  }

  lemma LookalikePlace(s: string, p: string, i: nat)
    requires Lookalike(s, p) && i < |s|
    ensures p[i] in {s[i], Twin(s[i])} && (p[i] != s[i] ==> Confusable(s[i]))
  {
  }

  lemma TwinDiffers(c: char)
    ensures Confusable(c) <==> Twin(c) != c
  {
  }

  /** Two spellings of one read and shape agree everywhere but at the pivot. */
  lemma AgreeOffPivot(country: Country, s: string, p: string, q: string, i: nat)
    requires p in Shaped(country, s) && q in Shaped(country, s)
    requires i < |s| && i != Pivot(country, |s|)
    ensures |p| == |q| == |s| && p[i] == q[i]
  {
    hide Matches, Shaped, Twin, IsLetter, Swaps;
    ShapedMeaning(country, s, p);
    ShapedMeaning(country, s, q);
    LookalikePlace(s, p, i);
    LookalikePlace(s, q, i);
    PlaceClass(country, p, q, i);
    OneLetterOneDigit(s[i], p[i], q[i]);
  }

  /** A single swap is a swap at one place. */
  lemma SingleSwap(s: string, p: string) returns (i: nat)
    requires Lookalike(s, p) && Swaps(s, p) == 1
    ensures i < |s| && Confusable(s[i]) && p == s[i := Twin(s[i])]
  {
    SwapsLaws(s, p);
    i := FirstSwap(s, p);
    LookalikePlace(s, p, i);
    var q := p[i := s[i]];
    SwapsAfterUpdate(s, p, i, s[i]);
    SwapsLaws(s, q);
    assert p == q[i := p[i]];
  }

  /** Two different spellings of one shape differ at a confusable pivot alone. */
  lemma TwoShapes(country: Country, s: string, p: string, q: string) returns (v: nat)
    requires p in Shaped(country, s) && q in Shaped(country, s) && p != q
    ensures v == Pivot(country, |s|) && Confusable(s[v]) && |p| == |s|
    ensures p[v] == s[v] ==> q == p[v := Twin(s[v])]
    ensures p[v] != s[v] ==> p == q[v := Twin(s[v])] && |q| == |s| && q[v] == s[v]
  {
    hide Matches, Shaped, Twin, Swaps, Pivot;
    ShapedMeaning(country, s, p);
    ShapedMeaning(country, s, q);
    if |p| != |s| || |q| != |s| {
      LookalikeLength(s, if |p| != |s| then p else q);
    }
    forall i | 0 <= i < |s| && i != Pivot(country, |s|)
      ensures p[i] == q[i]
    {
      AgreeOffPivot(country, s, p, q, i);
    }
    v := FirstSwap(p, q);
    LookalikePlace(s, p, v);
    LookalikePlace(s, q, v);
  }

  lemma AmbiguousOfPair(country: Country, s: string, p: string, q: string, v: nat)
    requires !Matches(country, s) && p in Shaped(country, s) && q in Shaped(country, s)
    requires v == Pivot(country, |s|) && Confusable(s[v]) && |p| == |s| && p[v] == s[v] && q == p[v := Twin(s[v])]
    ensures Ambiguous(country, s)
  {
    hide Matches, Shaped, Twin, Confusable, Swaps, Pivot, Lookalike;
    ShapedMeaning(country, s, p);
    ShapedMeaning(country, s, q);
    TwinDiffers(s[v]);
    SwapsAfterUpdate(s, p, v, Twin(s[v]));
    SwapsLaws(s, p);
    var i := SingleSwap(s, p);
    assert i != v;
  }

  lemma AmbiguousPair(country: Country, s: string, i: nat)
    requires !Matches(country, s) && 0 <= Pivot(country, |s|) != i < |s| && Confusable(s[Pivot(country, |s|)])
    requires Confusable(s[i]) && Matches(country, s[i := Twin(s[i])])
    ensures !AtMostOne(Shaped(country, s))
  {
    hide Matches, Shaped, Twin, Confusable, Swaps, Pivot, Within, Rounds;
    var v: nat := Pivot(country, |s|);
    var p := s[i := Twin(s[i])];
    var q := p[v := Twin(s[v])];
    PivotIsFree(country, p, v);
    SwapsOfTwoUpdates(s, i, Twin(s[i]), v, Twin(s[v]));
    ShapedMeaning(country, s, p);
    ShapedMeaning(country, s, q);
    TwinDiffers(s[v]);
    assert p[v] != q[v];
  }

  lemma SwapsOfTwoUpdates(s: string, i: nat, x: char, j: nat, y: char)
    requires i < |s| && j < |s|
    ensures Swaps(s, s[i := x]) <= 1 && Swaps(s, s[i := x][j := y]) <= 2
  {
    SwapsLaws(s, s);
    SwapsAfterUpdate(s, s, i, x);
    SwapsAfterUpdate(s, s[i := x], j, y);
  }

  /** One swap, or two, lead to a spelling. */
  lemma SwapsAreCandidates(s: string, i: nat, j: nat)
    requires |s| < 64 && i < |s| && j < |s|
    ensures s[i := Twin(s[i])] in Candidates(s)
    ensures s[i := Twin(s[i])][j := Twin(s[j])] in Candidates(s)
  {
    hide Candidates, Swaps, Twin;
    SwapsOfTwoUpdates(s, i, Twin(s[i]), j, Twin(s[j]));
    CandidateMeaning(s, s[i := Twin(s[i])]);
    CandidateMeaning(s, s[i := Twin(s[i])][j := Twin(s[j])]);
  }

  /** A misshapen read has at most one spelling of the country's shape exactly when it is not ambiguous. For South
      Africa that takes seven characters with a confusable third one, for the Emirates two to six with a confusable
      first one, each with exactly one swap needed elsewhere; for Kenya it never happens. */
  lemma ShapeIsUnique(country: Country, s: string)
    requires !Matches(country, s)
    ensures AtMostOne(Shaped(country, s)) <==> !Ambiguous(country, s)
    ensures country == Kenya ==> !Ambiguous(country, s)
  {
    hide Matches, Shaped, Twin, Confusable;
    if Ambiguous(country, s) {
      var i :| 0 <= i < |s| && i != Pivot(country, |s|) && Confusable(s[i]) && Matches(country, s[i := Twin(s[i])]);
      AmbiguousPair(country, s, i);
    }
    if !AtMostOne(Shaped(country, s)) {
      var p, q :| p in Shaped(country, s) && q in Shaped(country, s) && p != q;
      var v := TwoShapes(country, s, p, q);
      if p[v] == s[v] {
        AmbiguousOfPair(country, s, p, q, v);
      } else {
        AmbiguousOfPair(country, s, q, p, v);
      }
    }
  }

  /** Over all reads and registered plates: a country's answer does not depend on the order of trial exactly when the
      read is registered, or one of its spellings alone is, or none is and the read is not ambiguous. */
  lemma CountryAnswerIsUnique(country: Country, plate: string, known: set<string>)
    ensures OrderFree(Patterned(country), plate, known) <==>
            (plate in known ||
             if Candidates(plate) !! known then !Ambiguous(country, plate) else AtMostOne(Candidates(plate) * known))
  {
    hide Candidates, Matches, Answers, Shaped, Twin, Confusable;
    AnswerIsUnique(Patterned(country), plate, known);
    if !Matches(country, plate) {
      ShapeIsUnique(country, plate);
    }
  }

  lemma ShapedAnswer(country: Country, plate: string, p: string)
    requires !Matches(country, plate) && p in Candidates(plate) && Matches(country, p)
    ensures Answers(Patterned(country), plate, {}, Correction(p, true, Pattern))
  {
    hide Candidates, Matches;
  }

  /** The Emirates read BO1234 may become B01234 or 801234. */
  lemma EmiratesReadWithTwoAnswers()
    ensures Answers(Patterned(Emirates), "BO1234", {}, Correction("B01234", true, Pattern))
    ensures Answers(Patterned(Emirates), "BO1234", {}, Correction("801234", true, Pattern))
  {
    hide Candidates, Answers;
    var s := "BO1234";
    SwapsAreCandidates(s, 1, 0);
    assert s[1 := '0'] == "B01234" && s[1 := '0'][0 := '8'] == "801234";
    ShapedAnswer(Emirates, s, "B01234");
    ShapedAnswer(Emirates, s, "801234");
  }

  /** The South African read AB0120D may become AB012OD or ABO12OD. */
  lemma SouthAfricanReadWithTwoAnswers()
    ensures Answers(Patterned(SouthAfrica), "AB0120D", {}, Correction("AB012OD", true, Pattern))
    ensures Answers(Patterned(SouthAfrica), "AB0120D", {}, Correction("ABO12OD", true, Pattern))
  {
    hide Candidates, Answers;
    var s := "AB0120D";
    SwapsAreCandidates(s, 5, 2);
    assert s[5 := 'O'] == "AB012OD" && s[5 := 'O'][2 := 'O'] == "ABO12OD";
    assert ZaSplit("AB012OD", 2, 3) && ZaSplit("ABO12OD", 3, 2);
    ShapedAnswer(SouthAfrica, s, "AB012OD");
    ShapedAnswer(SouthAfrica, s, "ABO12OD");
  }
}

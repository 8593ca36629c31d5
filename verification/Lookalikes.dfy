/** OCR lookalike spellings (0/O, 1/I, 8/B, 5/S) and Tanzanian positions: app/core/plate.py. */
module Lookalikes {
  import opened PlateText

  const CONFUSION_PAIRS: seq<(char, char)> := [('O', '0'), ('I', '1'), ('B', '8'), ('S', '5')]

  /** The generator stops after the round in which it has found more spellings than this. */
  const ENOUGH_SPELLINGS: nat := 64

  predicate Confusable(c: char) { c in "O0I1B8S5" }

  /** The other character of the pair; a character outside every pair stands for itself. */
  function Twin(c: char): (twin: char)
    ensures Confusable(c) <==> twin != c
    ensures Confusable(c) ==> Confusable(twin)
  {
    match c
    case 'O' => '0' case '0' => 'O'
    case 'I' => '1' case '1' => 'I'
    case 'B' => '8' case '8' => 'B'
    case 'S' => '5' case '5' => 'S'
    case _ => c
  }

  predicate Lookalike(s: string, t: string)
  {
    |s| == |t| && forall i | 0 <= i < |s| :: t[i] == s[i] || t[i] == Twin(s[i])
  }

  function Swaps(s: string, t: string): nat
    requires |s| == |t|
  {
    if s == [] then 0 else (if s[0] == t[0] then 0 else 1) + Swaps(s[1..], t[1..])
  }

  ghost predicate OneSwap(s: string, t: string)
  {
    exists i | 0 <= i < |s| :: Confusable(s[i]) && t == s[i := Twin(s[i])]
  }

  function ConfusableCount(s: string): nat
  {
    if s == [] then 0 else (if Confusable(s[0]) then 1 else 0) + ConfusableCount(s[1..])
  }

  // ----- The spellings within r swaps -----

  function Prefixed(c: char, texts: set<string>): (r: set<string>)
  {
    set t | t in texts :: [c] + t
  }

  function Within(s: string, r: nat): set<string>
  {
    if s == [] then {[]}
    else
      Prefixed(s[0], Within(s[1..], r)) +
      if Confusable(s[0]) && r > 0 then Prefixed(Twin(s[0]), Within(s[1..], r - 1)) else {}
  }

  lemma PrefixedMember(c: char, texts: set<string>, t: string)
    ensures t in Prefixed(c, texts) <==> t != [] && t[0] == c && t[1..] in texts
  {
    if t != [] && t[0] == c && t[1..] in texts {
      assert t == [c] + t[1..];
    }
  }

  /** Membership says exactly: a lookalike that differs in at most r places. */
  lemma {:induction false} WithinMeaning(s: string, r: nat, t: string)
    ensures t in Within(s, r) <==> Lookalike(s, t) && Swaps(s, t) <= r
  {
    if s == [] {
    } else {
      PrefixedMember(s[0], Within(s[1..], r), t);
      if t != [] {
        WithinMeaning(s[1..], r, t[1..]);
        assert Lookalike(s, t) <==> Lookalike(s[1..], t[1..]) && (t[0] == s[0] || t[0] == Twin(s[0])) by {
          if Lookalike(s[1..], t[1..]) {
            assert forall i | 0 < i < |s| :: t[i] == t[1..][i - 1] && s[i] == s[1..][i - 1];
          }
        }
        if r > 0 {
          PrefixedMember(Twin(s[0]), Within(s[1..], r - 1), t);
          WithinMeaning(s[1..], r - 1, t[1..]);
        }
      } else {
        PrefixedMember(Twin(s[0]), Within(s[1..], if r > 0 then r - 1 else 0), t);
      }
    }
  }

  lemma {:induction false} SwapsLaws(s: string, t: string)
    requires |s| == |t|
    ensures Swaps(s, t) == Swaps(t, s)
    ensures Swaps(s, t) == 0 <==> s == t
  {
    if s != [] {
      SwapsLaws(s[1..], t[1..]);
      assert s == [s[0]] + s[1..] && t == [t[0]] + t[1..];
    }
  }

  lemma {:induction false} LookalikeSymmetric(s: string, t: string)
    requires Lookalike(s, t)
    ensures Lookalike(t, s) && ConfusableCount(s) == ConfusableCount(t)
  {
    if s != [] {
      assert forall i | 0 <= i < |s[1..]| :: s[1..][i] == s[i + 1] && t[1..][i] == t[i + 1];
      LookalikeSymmetric(s[1..], t[1..]);
    }
  }

  /** Being within r swaps is symmetric. */
  lemma WithinSymmetric(s: string, t: string, r: nat)
    ensures t in Within(s, r) <==> s in Within(t, r)
  {
    WithinMeaning(s, r, t);
    WithinMeaning(t, r, s);
    if |s| == |t| {
      SwapsLaws(s, t);
    }
    if Lookalike(s, t) {
      LookalikeSymmetric(s, t);
    } else if Lookalike(t, s) {
      LookalikeSymmetric(t, s);
    }
  }

  // ----- How many there are -----

  /** Ways to choose at most r of k places. */
  function Choices(k: nat, r: nat): nat
  {
    if k == 0 || r == 0 then 1 else Choices(k - 1, r) + Choices(k - 1, r - 1)
  }

  lemma {:induction false} PrefixedSize(c: char, texts: set<string>)
    ensures |Prefixed(c, texts)| == |texts|
  {
    if texts != {} {
      var t :| t in texts;
      PrefixedSize(c, texts - {t});
      assert Prefixed(c, texts) == Prefixed(c, texts - {t}) + {[c] + t} by {
        forall u
          ensures u in Prefixed(c, texts) <==> u in Prefixed(c, texts - {t}) + {[c] + t}
        {
          PrefixedMember(c, texts, u);
          PrefixedMember(c, texts - {t}, u);
        }
      }
      PrefixedMember(c, texts - {t}, [c] + t);
    }
  }

  lemma WithinSplits(c: char, same: set<string>, swapped: set<string>)
    requires Confusable(c)
    ensures |Prefixed(c, same) + Prefixed(Twin(c), swapped)| == |same| + |swapped|
  {
    PrefixedSize(c, same);
    PrefixedSize(Twin(c), swapped);
    forall t | t in Prefixed(c, same)
      ensures t !in Prefixed(Twin(c), swapped)
    {
      PrefixedMember(c, same, t);
      PrefixedMember(Twin(c), swapped, t);
    }
    assert Prefixed(c, same) !! Prefixed(Twin(c), swapped);
  }

  lemma ChoicesStep(k: nat, r: nat)
    ensures k == 0 || r == 0 ==> Choices(k, r) == 1
    ensures k > 0 && r > 0 ==> Choices(k, r) == Choices(k - 1, r) + Choices(k - 1, r - 1)
  {
  }

  lemma {:induction false} WithinSize(s: string, r: nat) returns (spellings: set<string>)
    ensures spellings == Within(s, r)
    ensures |spellings| == Choices(ConfusableCount(s), r)
  {
    hide Choices, Prefixed, Confusable, Twin;
    ChoicesStep(ConfusableCount(s), r);
    if s == [] {
      spellings := {[]};
    } else {
      var rest := s[1..];
      var same := WithinSize(rest, r);
      if Confusable(s[0]) && r > 0 {
        var swapped := WithinSize(rest, r - 1);
        WithinSplits(s[0], same, swapped);
        spellings := Prefixed(s[0], same) + Prefixed(Twin(s[0]), swapped);
      } else {
        ChoicesStep(ConfusableCount(rest), r);
        PrefixedSize(s[0], same);
        spellings := Prefixed(s[0], same);
      }
    }
  }

  /** With at most two swaps: the text itself, one per confusable place, one per pair of them. */
  lemma TwoSwapCount(s: string)
    ensures var k := ConfusableCount(s); |Within(s, 2)| == 1 + k + k * (k - 1) / 2
  {
    var spellings := WithinSize(s, 2);
    ChoicesClosedForm(ConfusableCount(s));
  }

  lemma {:induction false} ChoicesClosedForm(k: nat)
    ensures Choices(k, 1) == 1 + k
    ensures Choices(k, 2) == 1 + k + k * (k - 1) / 2
  {
    if k > 0 {
      ChoicesClosedForm(k - 1);
      assert k * (k - 1) == (k - 1) * (k - 2) + 2 * (k - 1);
    }
  }

  // ----- The breadth-first generator -----

  /** How many rounds run: until the limit, or until more than ENOUGH_SPELLINGS are known. */
  function RoundsFrom(seed: string, r: nat, limit: nat): (rounds: nat)
    requires r <= limit
    ensures r <= rounds <= limit
    decreases limit - r
  {
    if r == limit || (r > 0 && |Within(seed, r)| > ENOUGH_SPELLINGS) then r
    else RoundsFrom(seed, r + 1, limit)
  }

  function Rounds(seed: string, maxSubs: int): nat
  {
    RoundsFrom(seed, 0, if maxSubs > 1 then maxSubs else 1)
  }

  /** With two substitutions both rounds run exactly when fewer than 64 characters are confusable. */
  lemma BothRoundsRun(seed: string)
    ensures Rounds(seed, 2) == 2 <==> ConfusableCount(seed) < 64
    ensures 1 <= Rounds(seed, 2) <= 2
  {
    var spellings := WithinSize(seed, 1);
    ChoicesClosedForm(ConfusableCount(seed));
    assert Rounds(seed, 2) == RoundsFrom(seed, 1, 2);
  }

  lemma {:induction false} SwapsAfterUpdate(s: string, t: string, i: nat, x: char)
    requires |s| == |t| && i < |s|
    ensures Swaps(s, t[i := x]) + (if s[i] == t[i] then 0 else 1) == Swaps(s, t) + if s[i] == x then 0 else 1
  {
    if i > 0 {
      SwapsAfterUpdate(s[1..], t[1..], i - 1, x);
      assert t[i := x][1..] == t[1..][i - 1 := x];
    } else {
      assert t[i := x][1..] == t[1..];
    }
  }

  lemma TwinTwice(c: char)
    ensures Twin(Twin(c)) == c
  {
  }

  lemma OneSwapStaysNear(seed: string, u: string, t: string)
    requires Lookalike(seed, u) && OneSwap(u, t)
    ensures Lookalike(seed, t) && Swaps(seed, t) <= Swaps(seed, u) + 1
  {
    var i :| 0 <= i < |u| && Confusable(u[i]) && t == u[i := Twin(u[i])];
    SwapsAfterUpdate(seed, u, i, t[i]);
    assert Lookalike(seed, t) by {
      TwinTwice(seed[i]);
      assert u[i] == seed[i] || u[i] == Twin(seed[i]);
      assert t[i] == seed[i] || t[i] == Twin(seed[i]);
      assert forall k | 0 <= k < |u| && k != i :: t[k] == u[k];
    }
  }

  lemma FirstSwap(seed: string, t: string) returns (i: nat)
    requires |seed| == |t| && seed != t
    ensures i < |t| && seed[i] != t[i]
  {
    i := 0;
    while seed[i] == t[i]
      invariant i < |t| && seed[..i] == t[..i]
      decreases |t| - i
    {
      assert seed[..i + 1] == t[..i + 1];
      assert seed[..|seed|] == seed && t[..|t|] == t;
      i := i + 1;
    }
  }

  lemma PredecessorExists(seed: string, t: string, r: nat)
    requires Lookalike(seed, t) && Swaps(seed, t) == r + 1
    ensures exists u :: Lookalike(seed, u) && Swaps(seed, u) == r && OneSwap(u, t)
  {
    SwapsLaws(seed, t);
    var i := FirstSwap(seed, t);
    var u := t[i := seed[i]];
    SwapsAfterUpdate(seed, t, i, seed[i]);
    assert t == u[i := Twin(u[i])];
    assert Lookalike(seed, u) && OneSwap(u, t);
  }

  /** layer holds only spellings within r swaps, and every spelling exactly r swaps away. */
  ghost predicate Frontier(seed: string, r: nat, layer: set<string>)
  {
    layer <= Within(seed, r) &&
    forall t | Lookalike(seed, t) && Swaps(seed, t) == r :: t in layer
  }

  lemma NextLayer(seed: string, r: nat, layer: set<string>, next: set<string>)
    requires Frontier(seed, r, layer)
    requires forall t :: t in next <==> exists u | u in layer :: OneSwap(u, t)
    ensures Frontier(seed, r + 1, next)
    ensures Within(seed, r) + next == Within(seed, r + 1)
  {
    forall t | t in next
      ensures t in Within(seed, r + 1)
    {
      var u :| u in layer && OneSwap(u, t);
      WithinMeaning(seed, r, u);
      OneSwapStaysNear(seed, u, t);
      WithinMeaning(seed, r + 1, t);
    }
    forall t | Lookalike(seed, t) && Swaps(seed, t) == r + 1
      ensures t in next
    {
      PredecessorExists(seed, t, r);
      var u :| Lookalike(seed, u) && Swaps(seed, u) == r && OneSwap(u, t);
      assert u in layer;
    }
    forall t
      ensures t in Within(seed, r) + next <==> t in Within(seed, r + 1)
    {
      WithinMeaning(seed, r, t);
      WithinMeaning(seed, r + 1, t);
    }
  }

  /** Every spelling one swap away from text. */
  method SwapEachPosition(text: string) returns (next: set<string>)
    ensures forall t :: t in next <==> OneSwap(text, t)
  {
    next := {};
    for i := 0 to |text|
      invariant forall t :: t in next <==> exists k | 0 <= k < i :: Confusable(text[k]) && t == text[k := Twin(text[k])]
    {
      var ch := text[i];
      ghost var before := next;
      for p := 0 to |CONFUSION_PAIRS|
        invariant next == before || (Confusable(ch) && next == before + {text[i := Twin(ch)]})
        invariant forall q | 0 <= q < p :: ch in {CONFUSION_PAIRS[q].0, CONFUSION_PAIRS[q].1} ==>
                    next == before + {text[i := Twin(ch)]}
      {
        var (a, b) := CONFUSION_PAIRS[p];
        if ch == a {
          next := next + {text[..i] + [b] + text[i + 1..]};
          assert text[..i] + [b] + text[i + 1..] == text[i := Twin(ch)];
        } else if ch == b {
          next := next + {text[..i] + [a] + text[i + 1..]};
          assert text[..i] + [a] + text[i + 1..] == text[i := Twin(ch)];
        }
      }
      assert Confusable(ch) ==> next == before + {text[i := Twin(ch)]} by {
        assert Confusable(ch) ==> exists q | 0 <= q < 4 :: ch in {CONFUSION_PAIRS[q].0, CONFUSION_PAIRS[q].1} by {
          assert CONFUSION_PAIRS[0] == ('O', '0') && CONFUSION_PAIRS[1] == ('I', '1')
              && CONFUSION_PAIRS[2] == ('B', '8') && CONFUSION_PAIRS[3] == ('S', '5');
        }
      }
    }
  }

  /** One round: every spelling one swap away from some text of the layer, in any order. */
  method SwapEachText(layer: set<string>) returns (next: set<string>)
    ensures forall t :: t in next <==> exists u | u in layer :: OneSwap(u, t)
  {
    next := {};
    var rest := layer;
    while rest != {}
      invariant rest <= layer
      invariant forall t :: t in next <==> exists u | u in layer - rest :: OneSwap(u, t)
    {
      var text :| text in rest;
      var swapped := SwapEachPosition(text);
      ghost var seen := layer - rest;
      next := next + swapped;
      rest := rest - {text};
      assert layer - rest == seen + {text};
    }
    assert layer - rest == layer;
  }

  lemma FirstLayer(seed: string)
    ensures Within(seed, 0) == {seed} && Frontier(seed, 0, {seed})
  {
    forall t
      ensures t in {seed} <==> t in Within(seed, 0)
      ensures Lookalike(seed, t) && Swaps(seed, t) == 0 ==> t in {seed}
    {
      WithinMeaning(seed, 0, t);
      if |t| == |seed| {
        SwapsLaws(seed, t);
      }
    }
  }

  lemma RoundsStep(seed: string, r: nat, limit: nat, found: set<string>)
    requires r < limit && found == Within(seed, r)
    ensures RoundsFrom(seed, r, limit) ==
            if r > 0 && |found| > ENOUGH_SPELLINGS then r else RoundsFrom(seed, r + 1, limit)
  {
  }

  /** The lookalike spellings of a plate: nothing for a blank plate, otherwise exactly the
      spellings within as many swaps as rounds were run. */
  method ConfusionVariants(plate: string, maxSubs: int) returns (found: set<string>)
    ensures Normalize(plate) == [] ==> found == {}
    ensures Normalize(plate) != [] ==> found == Within(Normalize(plate), Rounds(Normalize(plate), maxSubs))
  {
    var seed := Normalize(plate);
    if seed == [] {
      return {};
    }
    found := {seed};
    var layer := {seed};
    FirstLayer(seed);
    var limit: nat := if maxSubs > 1 then maxSubs else 1;
    ghost var rounds := RoundsFrom(seed, 0, limit);
    RoundsStep(seed, 0, limit, found);
    var round: nat := 0;
    while round < limit
      invariant round <= limit
      invariant found == Within(seed, round)
      invariant Frontier(seed, round, layer)
      invariant round < limit ==> rounds == RoundsFrom(seed, round + 1, limit)
      invariant round == limit ==> rounds == limit
    {
      var next := SwapEachText(layer);
      NextLayer(seed, round, layer, next);
      found := found + next;
      layer := next;
      round := round + 1;
      if round < limit {
        RoundsStep(seed, round, limit, found);
      }
      if |found| > ENOUGH_SPELLINGS {
        break;
      }
    }
    assert round == rounds;
  }

  // ----- Plate shapes -----

  predicate LettersFrom(p: string, i: nat)
  {
    forall k | i <= k < |p| :: IsLetter(p[k])
  }

  predicate DigitsIn(p: string, lo: nat, hi: nat)
  {
    hi <= |p| && forall k | lo <= k < hi :: IsDigit(p[k])
  }

  /** T, three digits, two to four letters. */
  predicate TzStandard(p: string)
  {
    6 <= |p| <= 8 && p[0] == 'T' && DigitsIn(p, 1, 4) && LettersFrom(p, 4)
  }

  /** T and five to eight letters or digits. */
  predicate TzLoose(p: string)
  {
    6 <= |p| <= 9 && p[0] == 'T' && IsPlate(p)
  }

  /** K, two letters, three digits, a letter. */
  predicate KePlate(p: string)
  {
    |p| == 7 && p[0] == 'K' && IsLetter(p[1]) && IsLetter(p[2]) && DigitsIn(p, 3, 6) && IsLetter(p[6])
  }

  predicate ZaSplit(p: string, letters: nat, digits: nat)
  {
    |p| == letters + digits + 2 &&
    (forall k | 0 <= k < letters :: IsLetter(p[k])) &&
    DigitsIn(p, letters, letters + digits) && LettersFrom(p, letters + digits)
  }

  /** Two or three letters, two or three digits, two letters. */
  predicate ZaPlate(p: string)
  {
    ZaSplit(p, 2, 2) || ZaSplit(p, 2, 3) || ZaSplit(p, 3, 2) || ZaSplit(p, 3, 3)
  }

  /** An optional letter and one to six digits. */
  predicate AePlate(p: string)
  {
    (1 <= |p| <= 6 && DigitsIn(p, 0, |p|)) || (2 <= |p| <= 7 && IsLetter(p[0]) && DigitsIn(p, 1, |p|))
  }

  function LetterCount(p: string): nat
  {
    if p == [] then 0 else (if IsLetter(p[0]) then 1 else 0) + LetterCount(p[1..])
  }

  function DigitCount(p: string): nat
  {
    if p == [] then 0 else (if IsDigit(p[0]) then 1 else 0) + DigitCount(p[1..])
  }

  predicate LetterDigitMix(p: string)
  {
    LetterCount(p) >= 1 && DigitCount(p) >= 2 && 5 <= |p| <= 10
  }

  function ShapeScore(p: string): (score: nat)
    ensures score == 3 <==> TzStandard(p)
    ensures score <= 3
  {
    if TzStandard(p) then 3
    else if TzLoose(p) || KePlate(p) || ZaPlate(p) then 2
    else if LetterDigitMix(p) then 1
    else 0
  }

  // ----- Tanzanian positions -----

  function AsDigit(c: char): char { if c in "OIBS" then Twin(c) else c }

  function AsLetter(c: char): char { if c in "0185" then Twin(c) else c }

  function Forced(plate: string): (r: string)
    ensures |r| == |plate|
  {
    if |plate| < 6 || plate[0] != 'T' then plate
    else seq(|plate|, i requires 0 <= i < |plate| =>
               if i == 0 then plate[0] else if i < 4 then AsDigit(plate[i]) else AsLetter(plate[i]))
  }

  /** The body after the leading T is rewritten in place: digits first, then letters. */
  method ForceTzPositions(plate: string) returns (forced: string)
    ensures forced == Forced(plate)
  {
    if |plate| < 6 || plate[0] != 'T' {
      return plate;
    }
    var body := new char[|plate| - 1](i requires 0 <= i < |plate| - 1 => plate[i + 1]);
    for i := 0 to body.Length
      invariant forall k | 0 <= k < i :: body[k] == Forced(plate)[k + 1]
      invariant forall k | i <= k < body.Length :: body[k] == plate[k + 1]
    {
      if i < 3 {
        body[i] := AsDigit(body[i]);
      } else {
        body[i] := AsLetter(body[i]);
      }
    }
    forced := "T" + body[..];
    assert forced == Forced(plate);
  }

  lemma ForcedIsLookalike(plate: string)
    ensures Lookalike(plate, Forced(plate))
  {
  }

  /** Whatever standard-shaped spelling a read could stand for, forcing the positions finds it;
      so there is at most one. */
  lemma StandardSpellingIsForced(plate: string, t: string)
    requires Lookalike(plate, t) && TzStandard(t)
    ensures t == Forced(plate)
  {
    assert plate[0] == 'T' by {
      assert t[0] == plate[0] || t[0] == Twin(plate[0]);
    }
    forall i | 0 <= i < |t|
      ensures t[i] == Forced(plate)[i]
    {
      assert t[i] == plate[i] || t[i] == Twin(plate[i]);
      if 1 <= i < 4 {
        assert IsDigit(t[i]);
      } else if 4 <= i {
        assert IsLetter(t[i]);
      }
    }
  }
}

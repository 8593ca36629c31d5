/** The similarity-weighted vote of one consensus window: app/core/consensus.py, lines 170-188. */
module Voting {
  import opened PlateText
  import opened PlateSimilarity
  import opened TextOrder

  datatype Reading = Reading(plate: string, confidence: real, at: real)

  /** Stored readings are normalised, not blank, and their confidence is clamped. */
  predicate IsReading(r: Reading)
  {
    r.plate != [] && IsPlate(r.plate) && 0.0 <= r.confidence <= 1.0
  }

  ghost predicate AreReadings(rs: seq<Reading>)
  {
    forall r | r in rs :: IsReading(r)
  }

  function Plates(rs: seq<Reading>): set<string> { set r | r in rs :: r.plate }

  /** What one reading gives a candidate: everything to its own text, a share to a similar text. */
  function Vote(r: Reading, candidate: string, threshold: real): real
  {
    if r.plate == candidate then r.confidence
    else if Similarity(candidate, r.plate) >= threshold then r.confidence * Similarity(candidate, r.plate)
    else 0.0
  }

  function Total(rs: seq<Reading>): real
  {
    if rs == [] then 0.0 else Total(rs[..|rs| - 1]) + rs[|rs| - 1].confidence
  }

  function Score(rs: seq<Reading>, candidate: string, threshold: real): real
  {
    if rs == [] then 0.0 else Score(rs[..|rs| - 1], candidate, threshold) + Vote(rs[|rs| - 1], candidate, threshold)
  }

  function Exact(rs: seq<Reading>, candidate: string): nat
  {
    if rs == [] then 0 else Exact(rs[..|rs| - 1], candidate) + if rs[|rs| - 1].plate == candidate then 1 else 0
  }

  function ExactWeight(rs: seq<Reading>, candidate: string): real
  {
    if rs == [] then 0.0
    else ExactWeight(rs[..|rs| - 1], candidate) +
         if rs[|rs| - 1].plate == candidate then rs[|rs| - 1].confidence else 0.0
  }

  /** The best confidence among the readings of exactly this text, 0 if there is none. */
  function BestExact(rs: seq<Reading>, candidate: string): real
  {
    if rs == [] then 0.0
    else
      var best := BestExact(rs[..|rs| - 1], candidate);
      var last := rs[|rs| - 1];
      if last.plate == candidate && last.confidence > best then last.confidence else best
  }

  /** Candidate b ranks at least as high as a: by score, then identical readings, then text. */
  ghost predicate RanksAtMost(rs: seq<Reading>, threshold: real, a: string, b: string)
  {
    var sa, sb := Score(rs, a, threshold), Score(rs, b, threshold);
    sa < sb || (sa == sb && (Exact(rs, a) < Exact(rs, b) || (Exact(rs, a) == Exact(rs, b) && AtMost(a, b))))
  }

  ghost predicate IsWinner(rs: seq<Reading>, threshold: real, winner: string)
  {
    winner in Plates(rs) && forall c | c in Plates(rs) :: RanksAtMost(rs, threshold, c, winner)
  }

  /** The winner's part of all weight; with no weight at all it is counted against a tiny total. */
  function Share(rs: seq<Reading>, threshold: real, candidate: string): real
  {
    var total := if Total(rs) == 0.0 then 0.000000001 else Total(rs);
    var share := Score(rs, candidate, threshold) / total;
    if share < 1.0 then share else 1.0
  }

  /** The places of the readings of exactly this plate. */
  ghost function PlacesOf(rs: seq<Reading>, plate: string): set<nat> { set k: nat | k < |rs| && rs[k].plate == plate }

  lemma {:induction false} ExactCounts(rs: seq<Reading>, plate: string)
    ensures Exact(rs, plate) == |PlacesOf(rs, plate)|
  {
    if rs != [] {
      var rest, last := rs[..|rs| - 1], |rs| - 1;
      ExactCounts(rest, plate);
      assert PlacesOf(rs, plate) == PlacesOf(rest, plate) + if rs[last].plate == plate then {last} else {};
    }
  }

  // ----- Laws of the vote -----

  /** The winner has the best score; among equals it is named by most readings, and among those it is the last text. */
  lemma WinnerIsBest(rs: seq<Reading>, threshold: real, winner: string, c: string)
    requires IsWinner(rs, threshold, winner) && c in Plates(rs)
    ensures Score(rs, c, threshold) <= Score(rs, winner, threshold)
    ensures Score(rs, c, threshold) == Score(rs, winner, threshold) ==>
              |PlacesOf(rs, c)| <= |PlacesOf(rs, winner)|
    ensures Score(rs, c, threshold) == Score(rs, winner, threshold) && |PlacesOf(rs, c)| == |PlacesOf(rs, winner)| ==>
              AtMost(c, winner)
  {
    assert RanksAtMost(rs, threshold, c, winner);
    ExactCounts(rs, c);
    ExactCounts(rs, winner);
  }

  /** The winner does not depend on the order in which candidates are tried. */
  lemma WinnerIsUnique(rs: seq<Reading>, threshold: real, v: string, w: string)
    requires IsWinner(rs, threshold, v) && IsWinner(rs, threshold, w)
    ensures v == w
  {
    assert RanksAtMost(rs, threshold, v, w) && RanksAtMost(rs, threshold, w, v);
    AtMostAntisymmetric(v, w);
  }

  lemma Scaled(c: real, s: real)
    requires 0.0 <= c && 0.0 <= s <= 1.0
    ensures 0.0 <= c * s <= c
  {
  }

  lemma VoteBounds(r: Reading, candidate: string, threshold: real)
    requires 0.0 <= r.confidence
    ensures 0.0 <= Vote(r, candidate, threshold) <= r.confidence
  {
    hide Similarity;
    var s := Similarity(candidate, r.plate);
    SimilarityLaws(candidate, r.plate);
    Scaled(r.confidence, s);
    assert r.plate != candidate && s >= threshold ==> Vote(r, candidate, threshold) == r.confidence * s;
  }

  /** No candidate scores more than all the weight there is. */
  lemma {:induction false} ScoreAtMostTotal(rs: seq<Reading>, candidate: string, threshold: real)
    requires AreReadings(rs)
    ensures 0.0 <= Score(rs, candidate, threshold) <= Total(rs)
  {
    if rs != [] {
      var r := rs[|rs| - 1];
      assert r in rs && IsReading(r);
      ScoreAtMostTotal(rs[..|rs| - 1], candidate, threshold);
      VoteBounds(r, candidate, threshold);
    }
  }

  lemma QuotientAtMostOne(part: real, whole: real)
    requires 0.0 <= part <= whole && 0.0 < whole
    ensures 0.0 <= part / whole <= 1.0
  {
    var q := part / whole;
    assert q * whole == part;
  }

  /** The cap at one never changes a share: it is the plain quotient, and 0 when there is no weight. */
  lemma CapIsIdle(rs: seq<Reading>, threshold: real, candidate: string)
    requires AreReadings(rs)
    ensures 0.0 <= Share(rs, threshold, candidate) <= 1.0
    ensures Total(rs) > 0.0 ==> Share(rs, threshold, candidate) == Score(rs, candidate, threshold) / Total(rs)
    ensures Total(rs) == 0.0 ==> Share(rs, threshold, candidate) == 0.0
  {
    ScoreAtMostTotal(rs, candidate, threshold);
    if Total(rs) > 0.0 {
      QuotientAtMostOne(Score(rs, candidate, threshold), Total(rs));
    }
  }

  /** Every reading supports the candidate: same text, or similar enough. */
  ghost predicate AllSupport(rs: seq<Reading>, threshold: real, candidate: string)
  {
    forall r | r in rs :: r.plate == candidate || Similarity(candidate, r.plate) >= threshold
  }

  lemma {:induction false} SupportScore(rs: seq<Reading>, threshold: real, candidate: string, score: real, total: real)
    requires AreReadings(rs) && AllSupport(rs, threshold, candidate) && threshold <= 1.0
    requires score == Score(rs, candidate, threshold) && total == Total(rs)
    ensures score >= threshold * total
  {
    if rs != [] {
      var rest, r := rs[..|rs| - 1], rs[|rs| - 1];
      assert r in rs && IsReading(r);
      var s, t, v := Score(rest, candidate, threshold), Total(rest), Vote(r, candidate, threshold);
      SupportScore(rest, threshold, candidate, s, t);
      SupportVote(r, threshold, candidate);
      Distributes(threshold, t, r.confidence, total);
      assert score == s + v;
    }
  }

  lemma Distributes(t: real, a: real, b: real, sum: real)
    requires sum == a + b
    ensures t * sum == t * a + t * b
  {
  }

  lemma ScaledAtLeast(c: real, s: real, t: real)
    requires 0.0 <= c && t <= s
    ensures c * s >= t * c
  {
    assert (s - t) * c >= 0.0;
  }

  lemma SupportVote(r: Reading, threshold: real, candidate: string)
    requires 0.0 <= r.confidence && threshold <= 1.0
    requires r.plate == candidate || Similarity(candidate, r.plate) >= threshold
    ensures Vote(r, candidate, threshold) >= threshold * r.confidence
  {
    if r.plate == candidate {
      ScaledAtLeast(r.confidence, 1.0, threshold);
    } else {
      ScaledAtLeast(r.confidence, Similarity(candidate, r.plate), threshold);
    }
  }

  /** If every reading resembles the candidate, its share is at least the similarity threshold;
      this needs some weight, since readings of confidence 0 leave every share at 0. */
  lemma SupportedShare(rs: seq<Reading>, threshold: real, candidate: string)
    requires AreReadings(rs) && AllSupport(rs, threshold, candidate) && threshold <= 1.0
    ensures Total(rs) > 0.0 ==> Share(rs, threshold, candidate) >= threshold
    ensures Total(rs) == 0.0 ==> Share(rs, threshold, candidate) == 0.0
  {
    hide Score, Total, AllSupport, AreReadings;
    CapIsIdle(rs, threshold, candidate);
    SupportScore(rs, threshold, candidate, Score(rs, candidate, threshold), Total(rs));
    if Total(rs) > 0.0 {
      QuotientAtLeast(Score(rs, candidate, threshold), Total(rs), threshold);
    }
  }

  lemma QuotientAtLeast(part: real, whole: real, t: real)
    requires 0.0 < whole && part >= t * whole
    ensures part / whole >= t
  {
    var q := part / whole;
    assert q * whole == part;
    if q < t {
      assert (t - q) * whole > 0.0;
    }
  }

  lemma GrowingQuotient(part: real, whole: real, more: real)
    requires 0.0 <= part <= whole && 0.0 < whole && 0.0 <= more
    ensures (part + more) / (whole + more) >= part / whole
  {
    var q := part / whole;
    assert q * whole == part;
    assert q <= 1.0;
    assert q * (whole + more) == part + q * more;
    assert q * more <= more;
    QuotientAtLeast(part + more, whole + more, q);
  }

  /** One more reading of the winning text never unseats it and never lowers its share. */
  lemma OneMoreReadForTheWinner(rs: seq<Reading>, threshold: real, r: Reading)
    requires AreReadings(rs) && IsReading(r) && IsWinner(rs, threshold, r.plate)
    ensures IsWinner(rs + [r], threshold, r.plate)
    ensures Share(rs + [r], threshold, r.plate) >= Share(rs, threshold, r.plate)
  {
    var w, more := r.plate, rs + [r];
    assert more[..|more| - 1] == rs;
    forall c | c in Plates(more)
      ensures RanksAtMost(more, threshold, c, w)
    {
      assert c in Plates(rs) || c == w;
      VoteBounds(r, c, threshold);
      assert RanksAtMost(rs, threshold, c, w);
      ReflexiveText(w);
    }
    CapIsIdle(rs, threshold, w);
    CapIsIdle(more, threshold, w);
    ScoreAtMostTotal(rs, w, threshold);
    if Total(rs) > 0.0 {
      GrowingQuotient(Score(rs, w, threshold), Total(rs), r.confidence);
    }
  }

  /** What one more reading adds to a candidate's score: its confidence if it is the same text, nothing if it does not
      resemble it, and otherwise its confidence in proportion to the similarity, which is strictly less. */
  lemma OneMoreReading(rs: seq<Reading>, threshold: real, r: Reading, candidate: string)
    requires IsReading(r) && candidate != [] && IsPlate(candidate)
    ensures ExactWeight(rs + [r], candidate) ==
            ExactWeight(rs, candidate) + if r.plate == candidate then r.confidence else 0.0
    ensures Total(rs + [r]) == Total(rs) + r.confidence
    ensures var added := Score(rs + [r], candidate, threshold) - Score(rs, candidate, threshold);
            && (r.plate == candidate ==> added == r.confidence)
            && (r.plate != candidate && Similarity(candidate, r.plate) < threshold ==> added == 0.0)
            && (r.plate != candidate && Similarity(candidate, r.plate) >= threshold ==>
                  && added == r.confidence * Similarity(candidate, r.plate)
                  && (r.confidence > 0.0 ==> added < r.confidence))
  {
    hide Similarity;
    assert (rs + [r])[..|rs|] == rs;
    var score, vote := Score(rs, candidate, threshold), Vote(r, candidate, threshold);
    assert Score(rs + [r], candidate, threshold) == score + vote;
    assert score + vote - score == vote;
    VoteLaw(r, threshold, candidate);
  }

  lemma VoteLaw(r: Reading, threshold: real, candidate: string)
    requires IsReading(r) && candidate != [] && IsPlate(candidate)
    ensures var s, vote := Similarity(candidate, r.plate), Vote(r, candidate, threshold);
            && (r.plate == candidate ==> vote == r.confidence)
            && (r.plate != candidate && s < threshold ==> vote == 0.0)
            && (r.plate != candidate && s >= threshold ==>
                  vote == r.confidence * s && (r.confidence > 0.0 ==> vote < r.confidence))
  {
    hide Similarity;
    var s, vote := Similarity(candidate, r.plate), Vote(r, candidate, threshold);
    if r.plate != candidate && s >= threshold {
      OtherTextIsLess(candidate, r.plate);
      assert vote == r.confidence * s;
      if r.confidence > 0.0 {
        StrictlyScaled(r.confidence, s);
        assert vote < r.confidence;
      }
    }
  }

  lemma OtherTextIsLess(a: string, b: string)
    requires IsPlate(a) && IsPlate(b) && a != b
    ensures Similarity(a, b) < 1.0
  {
    hide Similarity;
    SimilarityLaws(a, b);
    NormalizeFixesPlates(a);
    NormalizeFixesPlates(b);
  }

  lemma StrictlyScaled(c: real, s: real)
    requires 0.0 < c && s < 1.0
    ensures c * s < c
  {
    assert (1.0 - s) * c > 0.0;
  }

  /** The weight of the identical readings lies between the least and the most they could have. */
  lemma {:induction false} ExactWeightBounds(rs: seq<Reading>, plate: string, low: real, high: real)
    requires forall r | r in rs && r.plate == plate :: low <= r.confidence <= high
    ensures low * Exact(rs, plate) as real <= ExactWeight(rs, plate) <= high * Exact(rs, plate) as real
  {
    if rs != [] {
      var rest, r := rs[..|rs| - 1], rs[|rs| - 1];
      assert r in rs;
      ExactWeightBounds(rest, plate, low, high);
      var k := Exact(rest, plate) as real;
      assert low * (k + 1.0) == low * k + low && high * (k + 1.0) == high * k + high;
    }
  }

  lemma ReflexiveText(s: string)
    ensures AtMost(s, s)
  {
    AtMostTotal(s, s);
  }

  lemma RanksTotal(rs: seq<Reading>, threshold: real, a: string, b: string)
    ensures RanksAtMost(rs, threshold, a, b) || RanksAtMost(rs, threshold, b, a)
  {
    AtMostTotal(a, b);
  }

  lemma RanksTransitive(rs: seq<Reading>, threshold: real, a: string, b: string, c: string)
    requires RanksAtMost(rs, threshold, a, b) && RanksAtMost(rs, threshold, b, c)
    ensures RanksAtMost(rs, threshold, a, c)
  {
    if AtMost(a, b) && AtMost(b, c) {
      AtMostTransitive(a, b, c);
    }
  }

  // ----- The counting program -----

  ghost predicate IsTally(rs: seq<Reading>, threshold: real, scores: map<string, real>)
  {
    forall c | c in scores :: scores[c] == Score(rs, c, threshold)
  }

  method ScoreOf(rs: seq<Reading>, candidate: string, threshold: real) returns (score: real)
    ensures score == Score(rs, candidate, threshold)
  {
    score := 0.0;
    for i := 0 to |rs|
      invariant score == Score(rs[..i], candidate, threshold)
    {
      var r := rs[i];
      assert rs[..i + 1][..i] == rs[..i];
      if r.plate == candidate {
        score := score + r.confidence;
      } else {
        var sim := ComputeSimilarity(candidate, r.plate);
        if sim >= threshold {
          score := score + r.confidence * sim;
        }
      }
    }
    assert rs[..|rs|] == rs;
  }

  method Tally(rs: seq<Reading>, threshold: real) returns (scores: map<string, real>)
    ensures scores.Keys == Plates(rs) && IsTally(rs, threshold, scores)
  {
    scores := map[];
    var rest := Plates(rs);
    while rest != {}
      invariant rest <= Plates(rs) && scores.Keys == Plates(rs) - rest
      invariant IsTally(rs, threshold, scores)
    {
      var candidate :| candidate in rest;
      var score := ScoreOf(rs, candidate, threshold);
      scores := scores[candidate := score];
      rest := rest - {candidate};
    }
  }

  method CountExact(rs: seq<Reading>, candidate: string)
    returns (exact: nat, weight: real, best: real)
    ensures exact == Exact(rs, candidate)
    ensures weight == ExactWeight(rs, candidate)
    ensures best == BestExact(rs, candidate)
  {
    exact, weight, best := 0, 0.0, 0.0;
    for i := 0 to |rs|
      invariant exact == Exact(rs[..i], candidate)
      invariant weight == ExactWeight(rs[..i], candidate)
      invariant best == BestExact(rs[..i], candidate)
    {
      assert rs[..i + 1][..i] == rs[..i];
      if rs[i].plate == candidate {
        exact, weight := exact + 1, weight + rs[i].confidence;
        best := if rs[i].confidence > best then rs[i].confidence else best;
      }
    }
    assert rs[..|rs|] == rs;
  }

  method SumConfidence(rs: seq<Reading>) returns (total: real)
    ensures total == Total(rs)
  {
    total := 0.0;
    for i := 0 to |rs|
      invariant total == Total(rs[..i])
    {
      assert rs[..i + 1][..i] == rs[..i];
      total := total + rs[i].confidence;
    }
    assert rs[..|rs|] == rs;
  }

  /** The candidate with the largest key, whatever order the candidates come in. */
  method PickWinner(rs: seq<Reading>, threshold: real, scores: map<string, real>) returns (winner: string)
    requires rs != [] && scores.Keys == Plates(rs) && IsTally(rs, threshold, scores)
    ensures IsWinner(rs, threshold, winner)
  {
    assert rs[0].plate in Plates(rs);
    winner :| winner in scores.Keys;
    var winnerExact, _, _ := CountExact(rs, winner);
    var rest := scores.Keys - {winner};
    ReflexiveText(winner);
    while rest != {}
      invariant winner in Plates(rs) && rest <= Plates(rs) && winnerExact == Exact(rs, winner)
      invariant forall c | c in Plates(rs) - rest :: RanksAtMost(rs, threshold, c, winner)
    {
      var c :| c in rest;
      var exact, _, _ := CountExact(rs, c);
      RanksTotal(rs, threshold, c, winner);
      ReflexiveText(c);
      var beats :=
        scores[c] > scores[winner] ||
        (scores[c] == scores[winner] && (exact > winnerExact || (exact == winnerExact && !AtMost(c, winner))));
      if beats {
        forall d | d in Plates(rs) - rest
          ensures RanksAtMost(rs, threshold, d, c)
        {
          RanksTransitive(rs, threshold, d, winner, c);
        }
        winner, winnerExact := c, exact;
      }
      rest := rest - {c};
    }
  }
}

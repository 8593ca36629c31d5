/** plate_similarity of app/core/plate.py: how alike two plates are, between 0 and 1. */
module PlateSimilarity {
  import opened PlateText
  import opened EditDistance

  function Longer(a: string, b: string): nat { if |a| <= |b| then |b| else |a| }

  /** One minus the share of the longer plate that must be edited; a blank plate resembles nothing. */
  function Similarity(left: string, right: string): real
  {
    var a, b := Normalize(left), Normalize(right);
    if a == [] || b == [] then 0.0
    else 1.0 - Distance(a, b) as real / Longer(a, b) as real
  }

  lemma RatioBounds(d: nat, n: nat)
    requires d <= n && 0 < n
    ensures 0.0 <= d as real / n as real <= 1.0
    ensures d as real / n as real == 0.0 <==> d == 0
    ensures d as real / n as real == 1.0 <==> d == n
  {
    var q := d as real / n as real;
    assert q * n as real == d as real;
  }

  /** Symmetric, within [0, 1], and 1 exactly for equal plates that are not blank. */
  lemma SimilarityLaws(left: string, right: string)
    ensures Similarity(left, right) == Similarity(right, left)
    ensures 0.0 <= Similarity(left, right) <= 1.0
    ensures Similarity(left, right) == 1.0 <==> Normalize(left) == Normalize(right) != []
  {
    var a, b := Normalize(left), Normalize(right);
    if a != [] && b != [] {
      DistanceIsMetric(a, b, a);
      RatioBounds(Distance(a, b), Longer(a, b));
    }
  }

  /** What is missing to full similarity counts the edits: each costs one part in the longer plate's length. */
  lemma SimilarityCountsEdits(left: string, right: string)
    requires Normalize(left) != [] && Normalize(right) != []
    ensures var a, b := Normalize(left), Normalize(right);
            (1.0 - Similarity(left, right)) * Longer(a, b) as real == Distance(a, b) as real
  {
    hide Distance, Normalize, Longer;
    var a, b := Normalize(left), Normalize(right);
    LongerIsPositive(a, b);
    Missing(Distance(a, b), Longer(a, b), Similarity(left, right));
  }

  lemma LongerIsPositive(a: string, b: string)
    requires a != []
    ensures Longer(a, b) > 0
  {
  }

  lemma Missing(d: nat, n: nat, s: real)
    requires n > 0 && s == 1.0 - d as real / n as real
    ensures (1.0 - s) * n as real == d as real
  {
    var q := d as real / n as real;
    assert 1.0 - s == q;
    assert q * n as real == d as real;
  }

  /** Similarity is zero exactly when a plate is blank or every character of the longer one changes. */
  lemma SimilarityZero(left: string, right: string)
    ensures Similarity(left, right) == 0.0 <==>
            Normalize(left) == [] || Normalize(right) == [] ||
            Distance(Normalize(left), Normalize(right)) == Longer(Normalize(left), Normalize(right))
  {
    var a, b := Normalize(left), Normalize(right);
    if a != [] && b != [] {
      DistanceIsMetric(a, b, a);
      RatioBounds(Distance(a, b), Longer(a, b));
    }
  }

  /** The two-row program of app/core/plate.py. */
  method ComputeSimilarity(left: string, right: string) returns (similarity: real)
    ensures similarity == Similarity(left, right)
  {
    var a, b := Normalize(left), Normalize(right);
    if a == [] || b == [] {
      return 0.0;
    }
    if a == b {
      SimilarityLaws(left, right);
      return 1.0;
    }
    var prev: seq<nat> := seq(|b| + 1, j requires 0 <= j => j);
    FirstRow(b, |b|, prev);
    assert a[..0] == [];
    for i := 0 to |a|
      invariant prev == Row(a[..i], b, |b|)
    {
      var curr: seq<nat> := [i + 1];
      for j := 0 to |b|
        invariant curr == Row(a[..i + 1], b, j)
      {
        var ins, delete, sub := curr[j] + 1, prev[j + 1] + 1, prev[j] + Differs(a[i], b[j]);
        NextCell(a[..i + 1], a[..i], b, j, curr, prev, Min3(ins, delete, sub));
        curr := curr + [Min3(ins, delete, sub)];
      }
      prev := curr;
    }
    assert a[..|a|] == a;
    LastOfRow(a, b);
    var dist := prev[|prev| - 1];
    similarity := 1.0 - dist as real / Longer(a, b) as real;
  }
}

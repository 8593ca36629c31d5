/** Edit distance between texts: the recurrence, its meaning as the least number of single edits,
    its metric laws, and the row-by-row program of tools/evaluate_alpr.py. */
module EditDistance {

  function Min3(a: nat, b: nat, c: nat): nat
  {
    var m := if a <= b then a else b;
    if m <= c then m else c
  }

  function Differs(x: char, y: char): nat { if x == y then 0 else 1 }

  function Front(s: string): string
    requires s != []
  {
    s[..|s| - 1]
  }

  function Last(s: string): char
    requires s != []
  {
    s[|s| - 1]
  }

  function Distance(a: string, b: string): nat
    decreases |a| + |b|
  {
    if a == [] then |b|
    else if b == [] then |a|
    else Min3(Distance(a, Front(b)) + 1,
              Distance(Front(a), b) + 1,
              Distance(Front(a), Front(b)) + Differs(Last(a), Last(b)))
  }

  /** A cell from its left, upper and diagonal neighbours. */
  lemma Cell(a: string, above: string, b: string, before: string, ins: nat, delete: nat, sub: nat, cell: nat)
    requires a != [] && above == Front(a) && b != [] && before == Front(b)
    requires ins == Distance(a, before) && delete == Distance(above, b) && sub == Distance(above, before)
    requires cell == Distance(a, b)
    ensures cell == Min3(ins + 1, delete + 1, sub + Differs(Last(a), Last(b)))
  {
  }

  // ----- What the number means: chains of single edits -----

  /** b is a with one more character, at position i. */
  ghost predicate Inserted(a: string, b: string, i: nat)
  {
    |b| == |a| + 1 && i <= |a| && b[..i] == a[..i] && b[i + 1..] == a[i..]
  }

  /** b is a with the character at position i rewritten. */
  ghost predicate Substituted(a: string, b: string, i: nat)
  {
    |b| == |a| && i < |a| && b[..i] == a[..i] && b[i + 1..] == a[i + 1..]
  }

  ghost predicate OneEdit(a: string, b: string)
  {
    exists i: nat :: Inserted(a, b, i) || Inserted(b, a, i) || Substituted(a, b, i)
  }

  /** n insertions, deletions and substitutions, in some order, turn a into b. */
  ghost predicate Edits(a: string, b: string, n: nat)
    decreases n
  {
    if n == 0 then a == b
    else exists c :: OneEdit(a, c) && Edits(c, b, n - 1)
  }

  // ----- Metric laws -----

  lemma {:induction false} DistanceSymmetric(a: string, b: string)
    ensures Distance(a, b) == Distance(b, a)
    decreases |a| + |b|
  {
    if a != [] && b != [] {
      DistanceSymmetric(a, Front(b));
      DistanceSymmetric(Front(a), b);
      DistanceSymmetric(Front(a), Front(b));
    }
  }

  lemma {:induction false} DistanceBounds(a: string, b: string)
    ensures |a| - |b| <= Distance(a, b) && |b| - |a| <= Distance(a, b)
    ensures Distance(a, b) <= if |a| <= |b| then |b| else |a|
    decreases |a| + |b|
  {
    if a != [] && b != [] {
      DistanceBounds(a, Front(b));
      DistanceBounds(Front(a), b);
      DistanceBounds(Front(a), Front(b));
    }
  }

  lemma {:induction false} DistanceZero(a: string, b: string)
    ensures Distance(a, b) == 0 <==> a == b
    decreases |a|
  {
    if a != [] && b != [] {
      DistanceZero(Front(a), Front(b));
      assert a == Front(a) + [Last(a)] && b == Front(b) + [Last(b)];
    }
  }

  lemma {:induction false} Triangle(a: string, b: string, c: string)
    ensures Distance(a, c) <= Distance(a, b) + Distance(b, c)
    decreases |a| + |b| + |c|
  {
    if a == [] || b == [] || c == [] {
      DistanceBounds(a, b);
      DistanceBounds(b, c);
      DistanceBounds(a, c);
    } else {
      var x, y, z := Front(a), Front(b), Front(c);
      Triangle(x, b, c);
      Triangle(a, b, z);
      Triangle(a, y, c);
      Triangle(a, y, z);
      Triangle(x, y, c);
      Triangle(x, y, z);
    }
  }

  // ----- The recurrence counts the least number of edits -----

  lemma {:induction false} CommonSuffix(u: string, v: string, w: string)
    ensures Distance(u + w, v + w) <= Distance(u, v)
    decreases |w|
  {
    if w == [] {
      assert u + w == u && v + w == v;
    } else {
      var a, b := u + w, v + w;
      assert Front(a) == u + Front(w) && Front(b) == v + Front(w) && Last(a) == Last(b);
      CommonSuffix(u, v, Front(w));
      Cell(a, Front(a), b, Front(b), Distance(a, Front(b)), Distance(Front(a), b),
           Distance(Front(a), Front(b)), Distance(a, b));
    }
  }

  lemma AppendedLast(u: string, v: string)
    requires v != [] && Front(v) == u
    ensures Distance(u, v) <= 1
  {
    DistanceZero(u, u);
  }

  lemma InsertedIsOneApart(a: string, b: string, i: nat)
    requires Inserted(a, b, i)
    ensures Distance(a, b) <= 1
  {
    hide Distance;
    var u := a[..i];
    var v := b[..i + 1];
    assert Front(v) == u;
    AppendedLast(u, v);
    CommonSuffix(u, v, a[i..]);
    assert u + a[i..] == a && v + a[i..] == b;
  }

  lemma RewrittenLast(s: string, x: char, y: char)
    ensures Distance(s + [x], s + [y]) <= 1
  {
    assert Front(s + [x]) == s == Front(s + [y]);
    DistanceZero(s, s);
  }

  lemma SubstitutedIsOneApart(a: string, b: string, i: nat)
    requires Substituted(a, b, i)
    ensures Distance(a, b) <= 1
  {
    RewrittenLast(a[..i], a[i], b[i]);
    CommonSuffix(a[..i] + [a[i]], a[..i] + [b[i]], a[i + 1..]);
    assert a[..i] + [a[i]] + a[i + 1..] == a && a[..i] + [b[i]] + a[i + 1..] == b;
  }

  lemma OneEditIsOneApart(a: string, b: string)
    requires OneEdit(a, b)
    ensures Distance(a, b) <= 1
  {
    var i: nat :| Inserted(a, b, i) || Inserted(b, a, i) || Substituted(a, b, i);
    if Inserted(a, b, i) {
      InsertedIsOneApart(a, b, i);
    } else if Inserted(b, a, i) {
      InsertedIsOneApart(b, a, i);
      DistanceSymmetric(a, b);
    } else {
      SubstitutedIsOneApart(a, b, i);
    }
  }

  lemma {:induction false} NoShorterChain(a: string, b: string, n: nat)
    requires Edits(a, b, n)
    ensures Distance(a, b) <= n
    decreases n
  {
    if n == 0 {
      DistanceZero(a, b);
    } else {
      var c :| OneEdit(a, c) && Edits(c, b, n - 1);
      OneEditIsOneApart(a, c);
      NoShorterChain(c, b, n - 1);
      Triangle(a, c, b);
    }
  }

  lemma OneEditUnderSuffix(a: string, b: string, x: char)
    requires OneEdit(a, b)
    ensures OneEdit(a + [x], b + [x])
  {
    var i: nat :| Inserted(a, b, i) || Inserted(b, a, i) || Substituted(a, b, i);
    if Inserted(a, b, i) {
      assert Inserted(a + [x], b + [x], i);
    } else if Inserted(b, a, i) {
      assert Inserted(b + [x], a + [x], i);
    } else {
      assert Substituted(a + [x], b + [x], i);
    }
  }

  lemma {:induction false} EditsUnderSuffix(a: string, b: string, n: nat, x: char)
    requires Edits(a, b, n)
    ensures Edits(a + [x], b + [x], n)
    decreases n
  {
    if n > 0 {
      var c :| OneEdit(a, c) && Edits(c, b, n - 1);
      OneEditUnderSuffix(a, c, x);
      EditsUnderSuffix(c, b, n - 1, x);
    }
  }

  lemma {:induction false} EditsCompose(a: string, b: string, c: string, m: nat, n: nat)
    requires Edits(a, b, m) && Edits(b, c, n)
    ensures Edits(a, c, m + n)
    decreases m
  {
    if m > 0 {
      var d :| OneEdit(a, d) && Edits(d, b, m - 1);
      EditsCompose(d, b, c, m - 1, n);
      assert Edits(d, c, m + n - 1);
    }
  }

  lemma SingleEdit(a: string, b: string)
    requires OneEdit(a, b)
    ensures Edits(a, b, 1)
  {
    assert Edits(b, b, 0);
  }

  lemma AppendEdit(s: string, x: char)
    ensures Edits(s, s + [x], 1) && Edits(s + [x], s, 1)
  {
    assert Inserted(s, s + [x], |s|);
    SingleEdit(s, s + [x]);
    SingleEdit(s + [x], s);
  }

  lemma RewriteLast(s: string, x: char, y: char)
    ensures Edits(s + [x], s + [y], 1)
  {
    assert Substituted(s + [x], s + [y], |s|);
    SingleEdit(s + [x], s + [y]);
  }

  lemma NoEdits(a: string)
    ensures Edits(a, a, 0)
  {
  }

  lemma EndsInLast(s: string)
    requires s != []
    ensures s == Front(s) + [Last(s)] && |Front(s)| == |s| - 1
  {
  }

  lemma {:induction false} ChainExists(a: string, b: string)
    ensures Edits(a, b, Distance(a, b))
    decreases |a| + |b|
  {
    hide Edits, Front, Last;
    if a == [] && b == [] {
      NoEdits(a);
    } else if a == [] || (b != [] && Distance(a, b) == Distance(a, Front(b)) + 1) {
      EndsInLast(b);
      ChainExists(a, Front(b));
      AppendEdit(Front(b), Last(b));
      EditsCompose(a, Front(b), b, Distance(a, Front(b)), 1);
    } else if b == [] || Distance(a, b) == Distance(Front(a), b) + 1 {
      EndsInLast(a);
      ChainExists(Front(a), b);
      AppendEdit(Front(a), Last(a));
      EditsCompose(a, Front(a), b, 1, Distance(Front(a), b));
    } else {
      EndsInLast(a);
      EndsInLast(b);
      ChainExists(Front(a), Front(b));
      EditsOfLast(a, b, Distance(Front(a), Front(b)));
    }
  }

  /** A chain between all but the last characters, and one more edit if those differ. */
  lemma EditsOfLast(a: string, b: string, d: nat)
    requires a != [] && b != [] && Edits(Front(a), Front(b), d)
    ensures Edits(a, b, if Last(a) == Last(b) then d else 1 + d)
  {
    hide Edits, Front, Last;
    var x, y := Last(a), Last(b);
    EndsInLast(a);
    EndsInLast(b);
    EditsUnderSuffix(Front(a), Front(b), d, y);
    if x != y {
      RewriteLast(Front(a), x, y);
      EditsCompose(a, Front(a) + [y], b, 1, d);
    }
  }

  /** The distance is exactly the least number of insertions, deletions and substitutions. */
  lemma DistanceIsLeastEdits(a: string, b: string)
    ensures Edits(a, b, Distance(a, b))
    ensures forall n: nat :: Edits(a, b, n) ==> Distance(a, b) <= n
  {
    ChainExists(a, b);
    forall n: nat | Edits(a, b, n)
      ensures Distance(a, b) <= n
    {
      NoShorterChain(a, b, n);
    }
  }

  /** Zero exactly on equal texts, symmetric, triangle inequality, and between the length
      difference and the longer length. */
  lemma DistanceIsMetric(a: string, b: string, c: string)
    ensures Distance(a, b) == 0 <==> a == b
    ensures Distance(a, b) == Distance(b, a)
    ensures Distance(a, c) <= Distance(a, b) + Distance(b, c)
    ensures |a| - |b| <= Distance(a, b) <= if |a| <= |b| then |b| else |a|
  {
    DistanceZero(a, b);
    DistanceSymmetric(a, b);
    Triangle(a, b, c);
    DistanceBounds(a, b);
  }

  // ----- One row of the table -----

  /** The distances from one text to the first k + 1 prefixes of another. */
  ghost function Row(left: string, right: string, k: nat): (row: seq<nat>)
    requires k <= |right|
    ensures |row| == k + 1
  {
    if k == 0 then [|left|] else Row(left, right, k - 1) + [Distance(left, right[..k])]
  }

  lemma {:induction false} RowAt(left: string, right: string, k: nat, j: nat)
    requires j <= k <= |right|
    ensures Row(left, right, k)[j] == Distance(left, right[..j])
  {
    if j < k {
      RowAt(left, right, k - 1, j);
    } else if k == 0 {
      assert right[..0] == [];
    }
  }

  lemma {:induction false} FirstRow(right: string, k: nat, row: seq<nat>)
    requires k <= |right|
    requires |row| == k + 1 && forall j | 0 <= j <= k :: row[j] == j
    ensures row == Row([], right, k)
  {
    if k > 0 {
      FirstRow(right, k - 1, row[..k]);
    }
  }

  lemma LastOfRow(left: string, right: string)
    ensures Row(left, right, |right|)[|right|] == Distance(left, right)
  {
    RowAt(left, right, |right|, |right|);
    assert right[..|right|] == right;
  }

  lemma ExtendRow(left: string, right: string, j: nat, cell: nat)
    requires j < |right| && cell == Distance(left, right[..j + 1])
    ensures Row(left, right, j + 1) == Row(left, right, j) + [cell]
  {
  }

  /** A row grows by one cell, computed from its last cell and the row above. */
  lemma NextCell(a: string, above: string, right: string, j: nat, curr: seq<nat>, prev: seq<nat>, cell: nat)
    requires a != [] && above == Front(a) && j < |right|
    requires curr == Row(a, right, j)
    requires prev == Row(above, right, |right|)
    requires cell == Min3(curr[j] + 1, prev[j + 1] + 1, prev[j] + Differs(Last(a), right[j]))
    ensures Row(a, right, j + 1) == curr + [cell]
  {
    var b, before := right[..j + 1], right[..j];
    RowAt(a, right, j, j);
    RowAt(above, right, |right|, j + 1);
    RowAt(above, right, |right|, j);
    Cell(a, above, b, before, curr[j], prev[j + 1], prev[j], Distance(a, b));
    ExtendRow(a, right, j, cell);
  }

  /** The evaluation tool's program: one row of costs, replaced once per character of the left text. */
  method EvaluateEditDistance(left: string, right: string) returns (distance: nat)
    ensures distance == Distance(left, right)
  {
    var costs: seq<nat> := seq(|right| + 1, j requires 0 <= j => j);
    FirstRow(right, |right|, costs);
    assert left[..0] == [];
    for index := 0 to |left|
      invariant costs == Row(left[..index], right, |right|)
    {
      var previous := costs;
      costs := [index + 1];
      for other := 0 to |right|
        invariant costs == Row(left[..index + 1], right, other)
      {
        var cost := Min3(costs[|costs| - 1] + 1,
                         previous[other + 1] + 1,
                         previous[other] + Differs(left[index], right[other]));
        NextCell(left[..index + 1], left[..index], right, other, costs, previous, cost);
        costs := costs + [cost];
      }
    }
    assert left[..|left|] == left;
    LastOfRow(left, right);
    distance := costs[|costs| - 1];
  }
}

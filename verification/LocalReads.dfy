/** A burst of local reads: resolve_local_reads of app/core/consensus.py. */
module LocalReads {
  import CameraSets
  import opened PlateText

  datatype Read = Read(plate: string, confidence: real)

  datatype Reason = NoReads | HighConfidence | Agreement | NoConsensus

  datatype Consensus = Consensus(plate: string, confidence: real, accepted: bool, reason: Reason,
                                 agreeing: nat, frames: nat)

  const DEFAULT_AGREE: nat := 2

  // ----- What is asked -----

  /** The reads with a plate, normalised. */
  function Cleaned(burst: seq<Read>): seq<Read>
  {
    if burst == [] then []
    else
      var last := burst[|burst| - 1];
      Cleaned(burst[..|burst| - 1]) +
      if Normalize(last.plate) == [] then [] else [Read(Normalize(last.plate), last.confidence)]
  }

  function CountOf(burst: seq<Read>, plate: string): nat
  {
    if burst == [] then 0
    else CountOf(burst[..|burst| - 1], plate) + if burst[|burst| - 1].plate == plate then 1 else 0
  }

  /** The first read no other read outdoes. */
  ghost predicate FirstBest(burst: seq<Read>, i: nat)
  {
    && i < |burst| && (forall k | 0 <= k < |burst| :: burst[k].confidence <= burst[i].confidence)
    && forall k | 0 <= k < i :: burst[k].confidence < burst[i].confidence
  }

  /** A plate read as often as any, and among those the one read first. */
  ghost predicate FirstMostCommon(burst: seq<Read>, i: nat)
  {
    && i < |burst| && (forall k | 0 <= k < |burst| :: CountOf(burst, burst[k].plate) <= CountOf(burst, burst[i].plate))
    && forall k | 0 <= k < i :: CountOf(burst, burst[k].plate) < CountOf(burst, burst[i].plate)
  }

  ghost predicate HighestFor(burst: seq<Read>, plate: string, confidence: real)
  {
    && (exists k | 0 <= k < |burst| :: burst[k].plate == plate && burst[k].confidence == confidence)
    && forall k | 0 <= k < |burst| && burst[k].plate == plate :: burst[k].confidence <= confidence
  }

  function Needed(agreeCount: nat): nat { if agreeCount == 0 then DEFAULT_AGREE else agreeCount }

  /** Enough identical reads, or one read strong enough. */
  ghost predicate Acceptable(burst: seq<Read>, agreeCount: nat, highConf: real)
  {
    exists k | 0 <= k < |burst| :: burst[k].confidence >= highConf ||
              CountOf(burst, burst[k].plate) >= Needed(agreeCount)
  }

  // ----- The program -----

  method CleanReads(burst: seq<Read>) returns (cleaned: seq<Read>)
    ensures cleaned == Cleaned(burst)
  {
    cleaned := [];
    for i := 0 to |burst|
      invariant cleaned == Cleaned(burst[..i])
    {
      assert burst[..i + 1][..i] == burst[..i];
      var plate := Normalize(burst[i].plate);
      if plate != [] {
        cleaned := cleaned + [Read(plate, burst[i].confidence)];
      }
    }
    assert burst[..|burst|] == burst;
  }

  method MostConfident(burst: seq<Read>) returns (best: nat)
    requires burst != []
    ensures FirstBest(burst, best)
  {
    best := 0;
    for i := 1 to |burst|
      invariant best < i && FirstBest(burst[..i], best)
    {
      assert forall k | 0 <= k < i :: burst[..i + 1][k] == burst[..i][k];
      if burst[i].confidence > burst[best].confidence {
        best := i;
      }
    }
    assert burst[..|burst|] == burst;
  }

  /** Plates are counted one read after the other, as a counter does. */
  method CountReads(burst: seq<Read>) returns (counts: map<string, nat>)
    ensures forall k | 0 <= k < |burst| ::
              burst[k].plate in counts && counts[burst[k].plate] == CountOf(burst, burst[k].plate)
  {
    counts := map[];
    for i := 0 to |burst|
      invariant forall p :: p in counts ==> counts[p] == CountOf(burst[..i], p)
      invariant forall p :: p !in counts ==> CountOf(burst[..i], p) == 0
      invariant forall k | 0 <= k < i :: burst[k].plate in counts
    {
      assert burst[..i + 1][..i] == burst[..i];
      var plate := burst[i].plate;
      counts := counts[plate := if plate in counts then counts[plate] + 1 else 1];
    }
    assert burst[..|burst|] == burst;
  }

  method MostCommon(burst: seq<Read>) returns (best: nat)
    requires burst != []
    ensures FirstMostCommon(burst, best)
  {
    var counts := CountReads(burst);
    best := 0;
    for i := 1 to |burst|
      invariant best < i
      invariant forall k | 0 <= k < i :: counts[burst[k].plate] <= counts[burst[best].plate]
      invariant forall k | 0 <= k < best :: counts[burst[k].plate] < counts[burst[best].plate]
    {
      if counts[burst[i].plate] > counts[burst[best].plate] {
        best := i;
      }
    }
  }

  method HighestConfidence(burst: seq<Read>, plate: string) returns (confidence: real)
    requires exists k | 0 <= k < |burst| :: burst[k].plate == plate
    ensures HighestFor(burst, plate, confidence)
  {
    var found := false;
    confidence := 0.0;
    for i := 0 to |burst|
      invariant found <==> exists k | 0 <= k < i :: burst[k].plate == plate
      invariant found ==> HighestFor(burst[..i], plate, confidence)
    {
      assert forall k | 0 <= k < i :: burst[..i + 1][k] == burst[..i][k];
      if burst[i].plate == plate {
        assert burst[..i + 1][i] == burst[i];
        if !found || burst[i].confidence > confidence {
          confidence := burst[i].confidence;
        }
        found := true;
      }
    }
    assert burst[..|burst|] == burst;
  }

  /** Two agreeing frames or one strong one accept; the reported confidence is always the highest of the reported
      plate. */
  method ResolveLocalReads(burst: seq<Read>, agreeCount: nat, highConf: real) returns (c: Consensus)
    ensures var cleaned := Cleaned(burst);
            && (c.accepted <==> Acceptable(cleaned, agreeCount, highConf)) && c.frames == |cleaned|
            && (c.reason == NoReads <==> cleaned == [])
            && (cleaned == [] ==> c == Consensus([], 0.0, false, NoReads, 0, 0))
            && (cleaned != [] ==> HighestFor(cleaned, c.plate, c.confidence))
            && (c.reason == HighConfidence <==> exists k | 0 <= k < |cleaned| :: cleaned[k].confidence >= highConf)
            && (c.reason == HighConfidence || c.reason == NoConsensus ==>
                  exists i: nat :: FirstBest(cleaned, i) && c.plate == cleaned[i].plate)
            && (c.reason == HighConfidence ==> c.agreeing == CountOf(cleaned, c.plate))
            && (c.reason == Agreement || c.reason == NoConsensus ==>
                  exists i: nat :: FirstMostCommon(cleaned, i) && c.agreeing == CountOf(cleaned, cleaned[i].plate))
            && (c.reason == Agreement ==> exists i: nat :: FirstMostCommon(cleaned, i) && c.plate == cleaned[i].plate)
  {
    var cleaned := CleanReads(burst);
    var number := |cleaned|;
    if cleaned == [] {
      return Consensus([], 0.0, false, NoReads, 0, 0);
    }
    var b := MostConfident(cleaned);
    var best := cleaned[b];
    var counts := CountReads(cleaned);
    CountsItself(cleaned, b);
    if best.confidence >= highConf {
      return Consensus(best.plate, best.confidence, true, HighConfidence, counts[best.plate], number);
    }
    var m := MostCommon(cleaned);
    var plate := cleaned[m].plate;
    var agreeing := counts[plate];
    var conf := HighestConfidence(cleaned, plate);
    if agreeing >= Needed(agreeCount) {
      return Consensus(plate, conf, true, Agreement, agreeing, number);
    }
    c := Consensus(best.plate, best.confidence, false, NoConsensus, agreeing, number);
  }

  lemma {:induction false} CountsItself(burst: seq<Read>, i: nat)
    requires i < |burst|
    ensures CountOf(burst, burst[i].plate) >= 1
  {
    if i < |burst| - 1 {
      CountsItself(burst[..|burst| - 1], i);
    }
  }

  // ----- What is counted -----

  ghost function Places(burst: seq<Read>, plate: string): set<nat>
  {
    set k: nat | k < |burst| && burst[k].plate == plate
  }

  lemma {:induction false} CountIsPlaces(burst: seq<Read>, plate: string)
    ensures CountOf(burst, plate) == |Places(burst, plate)|
  {
    if burst != [] {
      var rest, last := burst[..|burst| - 1], |burst| - 1;
      CountIsPlaces(rest, plate);
      assert Places(burst, plate) == Places(rest, plate) + if burst[last].plate == plate then {last} else {};
    }
  }

  /** Frames are cleaned one by one: a frame without a plate goes, any other stays with its normalised plate. */
  lemma CleanedNext(burst: seq<Read>, r: Read)
    ensures Cleaned([]) == []
    ensures Cleaned(burst + [r]) ==
            if Normalize(r.plate) == [] then Cleaned(burst)
            else Cleaned(burst) + [Read(Normalize(r.plate), r.confidence)]
  {
    assert (burst + [r])[..|burst|] == burst;
  }

  lemma TwoPlaces(burst: seq<Read>, i: nat, j: nat)
    requires i < j < |burst| && burst[i].plate == burst[j].plate
    ensures CountOf(burst, burst[i].plate) >= 2
  {
    var here := Places(burst, burst[i].plate);
    CountIsPlaces(burst, burst[i].plate);
    assert i in here && j in here - {i};
    assert |here| == |here - {i}| + 1;
  }

  lemma AnotherPlace(burst: seq<Read>, i: nat) returns (j: nat)
    requires i < |burst| && CountOf(burst, burst[i].plate) >= 2
    ensures j < |burst| && j != i && burst[j].plate == burst[i].plate
  {
    var here := Places(burst, burst[i].plate);
    CountIsPlaces(burst, burst[i].plate);
    assert i in here && |here - {i}| == |here| - 1;
    CameraSets.NonEmptyIds(here - {i});
    j :| j in here - {i};
  }

  /** Without a setting of its own a lane takes two equal frames, or one strong one. */
  lemma DefaultTakesTwo(burst: seq<Read>, highConf: real)
    ensures Acceptable(burst, 0, highConf) <==>
            || (exists k | 0 <= k < |burst| :: burst[k].confidence >= highConf)
            || (exists i, j | 0 <= i < j < |burst| :: burst[i].plate == burst[j].plate)
  {
    if i: nat, j: nat :| i < j < |burst| && burst[i].plate == burst[j].plate {
      TwoPlaces(burst, i, j);
    }
    if k: nat :| k < |burst| && CountOf(burst, burst[k].plate) >= 2 {
      var j := AnotherPlace(burst, k);
      assert burst[if j < k then j else k].plate == burst[if j < k then k else j].plate;
    }
  }

  // ----- One more read -----

  lemma CountGrows(burst: seq<Read>, more: Read, plate: string)
    ensures CountOf(burst + [more], plate) >= CountOf(burst, plate)
  {
    assert (burst + [more])[..|burst|] == burst;
  }

  /** Another frame never turns acceptance into a hold. */
  lemma MoreReadsKeepAcceptance(burst: seq<Read>, more: Read, agreeCount: nat, highConf: real)
    requires Acceptable(Cleaned(burst), agreeCount, highConf)
    ensures Acceptable(Cleaned(burst + [more]), agreeCount, highConf)
  {
    assert (burst + [more])[..|burst|] == burst;
    var before, all := Cleaned(burst), Cleaned(burst + [more]);
    var k :| 0 <= k < |before|
             && (before[k].confidence >= highConf || CountOf(before, before[k].plate) >= Needed(agreeCount));
    if all != before {
      CountGrows(before, all[|all| - 1], before[k].plate);
      assert all == before + [all[|all| - 1]];
    }
    assert all[k] == before[k];
  }
}

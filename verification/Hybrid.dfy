/** The native/local fusion coordinator: app/core/hybrid.py. One lane per camera, kept in a dictionary;
    each public call is one event, and LaneStep says what it does to one camera's lane. */
module Hybrid {
  import opened Options
  import CameraSets
  import opened PlateText
  import opened PlateSimilarity
  import opened Fusion

  datatype Source = Native | FastAlpr

  datatype Candidate = Candidate(
    source: Source,
    plate: string,
    confidence: real,
    at: real,
    consensus: bool,
    payload: int)

  /** An accepted decision, remembered for the duplicate window. */
  datatype Accepted = Accepted(plate: string, at: real)

  datatype Lane = Lane(native: Option<Candidate>, local: Option<Candidate>, decided: seq<Accepted>)

  const EMPTY_LANE := Lane(None, None, [])

  datatype Config = Config(
    pairWindowSeconds: real,
    waitSeconds: real,
    holdSeconds: real,
    duplicateSimilarity: real,
    settings: Settings)

  datatype Outcome = Outcome(
    camera: int,
    decision: Decision,
    native: Option<Candidate>,
    local: Option<Candidate>,
    duplicateOf: string,
    decidedAt: real)
  {
    predicate Paired() { native.Some? && local.Some? }
    predicate Suppressed() { duplicateOf != [] }
    /** Only these own the duplicate window. */
    predicate Accepts() { decision.plate != [] && !Suppressed() && !decision.needsReview }
  }

  // ----- One lane -----

  function Slot(lane: Lane, s: Source): Option<Candidate>
  {
    match s case Native => lane.native case FastAlpr => lane.local
  }

  function WithSlot(lane: Lane, s: Source, c: Option<Candidate>): Lane
  {
    match s case Native => lane.(native := c) case FastAlpr => lane.(local := c)
  }

  function Other(s: Source): Source
  {
    match s case Native => FastAlpr case FastAlpr => Native
  }

  predicate Alike(cfg: Config, previous: string, plate: string)
  {
    previous == plate || Similarity(previous, plate) >= cfg.duplicateSimilarity
  }

  function StillHeld(decided: seq<Accepted>, now: real, hold: real): seq<Accepted>
  {
    if decided == [] then []
    else StillHeld(decided[..|decided| - 1], now, hold) +
         if now - decided[|decided| - 1].at < hold then [decided[|decided| - 1]] else []
  }

  /** The first remembered plate this one duplicates, blank if none. */
  function DuplicateOf(cfg: Config, decided: seq<Accepted>, plate: string): string
  {
    if decided == [] then []
    else if Alike(cfg, decided[0].plate, plate) then decided[0].plate
    else DuplicateOf(cfg, decided[1..], plate)
  }

  function ReadingsOf(native: Option<Candidate>, local: Option<Candidate>): Readings
  {
    Readings(if native.Some? then native.value.plate else [],
             if native.Some? then native.value.confidence else 0.0,
             if local.Some? then local.value.plate else [],
             if local.Some? then local.value.confidence else 0.0,
             local.Some? && local.value.consensus)
  }

  datatype Result = Result(lane: Lane, outs: seq<Outcome>)

  /** Empty both slots, and suppress or remember the plate of this decision. */
  function Conclude(cfg: Config, camera: int, lane: Lane, now: real, decision: Decision): (r: Result)
    ensures |r.outs| == 1 && r.lane.native.None? && r.lane.local.None?
  {
    var held := if decision.plate != [] then StillHeld(lane.decided, now, cfg.holdSeconds) else lane.decided;
    var previous := if decision.plate != [] then DuplicateOf(cfg, held, decision.plate) else [];
    var outcome := Outcome(camera, decision, lane.native, lane.local, previous, now);
    Result(Lane(None, None, if outcome.Accepts() then held + [Accepted(decision.plate, now)] else held), [outcome])
  }

  function Resolve(cfg: Config, native: Option<Candidate>, local: Option<Candidate>): Decision
  {
    ResolveReadings(cfg.settings, HybridMode, [], ReadingsOf(native, local))
  }

  /** Resolve whatever is pending and conclude. */
  function Decide(cfg: Config, camera: int, lane: Lane, now: real): Result
  {
    Conclude(cfg, camera, lane, now, Resolve(cfg, lane.native, lane.local))
  }

  /** Decide one slot alone; the other slot is put aside and restored. */
  function DecideSlot(cfg: Config, camera: int, lane: Lane, s: Source, now: real): Result
  {
    var r := Decide(cfg, camera, WithSlot(lane, Other(s), None), now);
    r.(lane := WithSlot(r.lane, Other(s), Slot(lane, Other(s))))
  }

  function DecideIf(cfg: Config, camera: int, lane: Lane, s: Source, now: real, due: bool): Result
  {
    if due then DecideSlot(cfg, camera, lane, s, now) else Result(lane, [])
  }

  predicate Stale(cfg: Config, lane: Lane, s: Source, now: real)
  {
    Slot(lane, s).Some? && now - Slot(lane, s).value.at > cfg.pairWindowSeconds
  }

  predicate Overdue(cfg: Config, lane: Lane, s: Source, now: real)
  {
    Slot(lane, s).Some? && now - Slot(lane, s).value.at >= cfg.waitSeconds
  }

  /** Candidates of an earlier vehicle are decided alone before the new one can meet them. */
  function DecideStale(cfg: Config, camera: int, lane: Lane, first: Source, now: real): Result
  {
    var r := DecideIf(cfg, camera, lane, first, now, Stale(cfg, lane, first, now));
    var t := DecideIf(cfg, camera, r.lane, Other(first), now, Stale(cfg, r.lane, Other(first), now));
    t.(outs := r.outs + t.outs)
  }

  function OfferLane(cfg: Config, camera: int, lane: Lane, c: Candidate, now: real, available: bool): Result
  {
    var r := DecideStale(cfg, camera, lane, c.source, now);
    var put := WithSlot(r.lane, c.source, Some(c));
    if Slot(put, Other(c.source)).Some? || !available then
      var t := Decide(cfg, camera, put, now);
      t.(outs := r.outs + t.outs)
    else Result(put, r.outs)
  }

  function FlushLane(cfg: Config, camera: int, lane: Lane, now: real): Result
  {
    var r := DecideIf(cfg, camera, lane, Native, now, Overdue(cfg, lane, Native, now));
    var t := DecideIf(cfg, camera, r.lane, FastAlpr, now, Overdue(cfg, r.lane, FastAlpr, now));
    t.(outs := r.outs + t.outs)
  }

  datatype Event =
    | Offer(camera: int, candidate: Candidate, now: real, available: bool)
    | Flush(now: real)
    | Reset(camera: int)
    | ResetAll

  /** What one event does to one camera's lane. */
  function LaneStep(cfg: Config, camera: int, lane: Lane, e: Event): Result
  {
    match e
    case Offer(c, candidate, now, available) =>
      if c == camera then OfferLane(cfg, camera, lane, candidate, now, available) else Result(lane, [])
    case Flush(now) => FlushLane(cfg, camera, lane, now)
    case Reset(c) => Result(if c == camera then EMPTY_LANE else lane, [])
    case ResetAll => Result(EMPTY_LANE, [])
  }

  // ----- The dictionary of lanes -----

  function LaneAt(lanes: map<int, Lane>, camera: int): Lane
  {
    if camera in lanes then lanes[camera] else EMPTY_LANE
  }

  /** The outcomes of one camera, in order. */
  function Of(outs: seq<Outcome>, camera: int): seq<Outcome>
  {
    if outs == [] then []
    else Of(outs[..|outs| - 1], camera) + if outs[|outs| - 1].camera == camera then [outs[|outs| - 1]] else []
  }

  lemma {:induction false} OfConcat(a: seq<Outcome>, b: seq<Outcome>, camera: int)
    ensures Of(a + b, camera) == Of(a, camera) + Of(b, camera)
  {
    if b == [] {
      assert a + b == a;
    } else {
      OfConcat(a, b[..|b| - 1], camera);
      assert (a + b)[..|a + b| - 1] == a + b[..|b| - 1];
    }
  }

  lemma {:induction false} OfOwn(outs: seq<Outcome>, owner: int, camera: int)
    requires forall o | o in outs :: o.camera == owner
    ensures Of(outs, camera) == if camera == owner then outs else []
  {
    if outs != [] {
      assert outs[|outs| - 1] in outs;
      OfOwn(outs[..|outs| - 1], owner, camera);
      assert outs == outs[..|outs| - 1] + [outs[|outs| - 1]];
    }
  }

  lemma OfferOutcomesAreOwn(cfg: Config, camera: int, lane: Lane, c: Candidate, now: real, available: bool,
                            outs: seq<Outcome>)
    requires outs == OfferLane(cfg, camera, lane, c, now, available).outs
    ensures forall o | o in outs :: o.camera == camera
  {
  }

  lemma FlushOutcomesAreOwn(cfg: Config, camera: int, lane: Lane, now: real, outs: seq<Outcome>)
    requires outs == FlushLane(cfg, camera, lane, now).outs
    ensures forall o | o in outs :: o.camera == camera
  {
  }

  /** The whole coordinator obeys an event when every camera's lane does. */
  ghost predicate Obeys(cfg: Config, before: map<int, Lane>, e: Event, after: map<int, Lane>, outs: seq<Outcome>)
  {
    forall camera :: LaneObeys(cfg, before, e, after, outs, camera)
  }

  ghost predicate LaneObeys(cfg: Config, before: map<int, Lane>, e: Event, after: map<int, Lane>, outs: seq<Outcome>,
                            camera: int)
  {
    var r := LaneStep(cfg, camera, LaneAt(before, camera), e);
    LaneAt(after, camera) == r.lane && Of(outs, camera) == r.outs
  }

  lemma OfferTouchesOneLane(cfg: Config, before: map<int, Lane>, camera: int, c: Candidate, now: real,
                            available: bool, after: map<int, Lane>, outs: seq<Outcome>)
    requires var r := OfferLane(cfg, camera, LaneAt(before, camera), c, now, available);
             after == before[camera := r.lane] && outs == r.outs
    ensures Obeys(cfg, before, Offer(camera, c, now, available), after, outs)
  {
    OfferOutcomesAreOwn(cfg, camera, LaneAt(before, camera), c, now, available, outs);
    forall k
      ensures LaneObeys(cfg, before, Offer(camera, c, now, available), after, outs, k)
    {
      OfOwn(outs, camera, k);
    }
  }

  /** Half way through a flush: the lanes still to visit are untouched, the others have been flushed. */
  ghost predicate Flushing(cfg: Config, before: map<int, Lane>, now: real, lanes: map<int, Lane>, outs: seq<Outcome>,
                           rest: set<int>)
  {
    && rest <= lanes.Keys == before.Keys
    && (forall c | c in rest :: lanes[c] == before[c] && Of(outs, c) == [])
    && (forall c | c !in rest :: LaneObeys(cfg, before, Flush(now), lanes, outs, c))
  }

  lemma FlushAdvances(cfg: Config, before: map<int, Lane>, now: real, lanes: map<int, Lane>, outs: seq<Outcome>,
                      rest: set<int>, camera: int, more: seq<Outcome>, after: map<int, Lane>)
    requires Flushing(cfg, before, now, lanes, outs, rest) && camera in rest
    requires var r := FlushLane(cfg, camera, lanes[camera], now); after == lanes[camera := r.lane] && more == r.outs
    ensures Flushing(cfg, before, now, after, outs + more, rest - {camera})
  {
    hide FlushLane, Of;
    FlushOutcomesAreOwn(cfg, camera, lanes[camera], now, more);
    forall c
      ensures c in rest - {camera} ==> after[c] == before[c] && Of(outs + more, c) == []
      ensures c !in rest - {camera} ==> LaneObeys(cfg, before, Flush(now), after, outs + more, c)
    {
      OfConcat(outs, more, c);
      OfOwn(more, camera, c);
      if c !in rest {
        assert LaneObeys(cfg, before, Flush(now), lanes, outs, c);
      }
    }
  }

  class FusionCoordinator {
    const cfg: Config
    var lanes: map<int, Lane>

    constructor (cfg: Config)
      ensures this.cfg == cfg && lanes == map[]
    {
      this.cfg := cfg;
      lanes := map[];
    }

    method EnsureLane(camera: int)
      modifies this
      ensures camera in lanes && lanes == old(lanes)[camera := LaneAt(old(lanes), camera)]
    {
      if camera !in lanes {
        lanes := lanes[camera := EMPTY_LANE];
      }
    }

    /** Forget what the hold no longer covers, then look for a plate this one repeats. */
    method FindDuplicate(camera: int, plate: string, now: real) returns (previous: string)
      requires camera in lanes
      modifies this
      ensures var held := StillHeld(old(lanes)[camera].decided, now, cfg.holdSeconds);
              && lanes == old(lanes)[camera := old(lanes)[camera].(decided := held)]
              && previous == DuplicateOf(cfg, held, plate)
    {
      var lane := lanes[camera];
      var kept := [];
      for i := 0 to |lane.decided|
        invariant kept == StillHeld(lane.decided[..i], now, cfg.holdSeconds)
      {
        assert lane.decided[..i + 1][..i] == lane.decided[..i];
        if now - lane.decided[i].at < cfg.holdSeconds {
          kept := kept + [lane.decided[i]];
        }
      }
      assert lane.decided[..|lane.decided|] == lane.decided;
      lanes := lanes[camera := lane.(decided := kept)];
      previous := FirstAlike(kept, plate);
    }

    method FirstAlike(held: seq<Accepted>, plate: string) returns (previous: string)
      ensures previous == DuplicateOf(cfg, held, plate)
    {
      for i := 0 to |held|
        invariant DuplicateOf(cfg, held, plate) == DuplicateOf(cfg, held[i..], plate)
      {
        if held[i].plate == plate {
          return held[i].plate;
        }
        var similarity := ComputeSimilarity(held[i].plate, plate);
        if similarity >= cfg.duplicateSimilarity {
          return held[i].plate;
        }
        assert held[i..][1..] == held[i + 1..];
      }
      return [];
    }

    method ConcludeLane(camera: int, now: real, decision: Decision) returns (outcome: Outcome)
      requires camera in lanes
      modifies this
      ensures lanes == old(lanes)[camera := Conclude(cfg, camera, old(lanes)[camera], now, decision).lane]
      ensures [outcome] == Conclude(cfg, camera, old(lanes)[camera], now, decision).outs
    {
      hide StillHeld, DuplicateOf;
      var native, local := lanes[camera].native, lanes[camera].local;
      lanes := lanes[camera := lanes[camera].(native := None, local := None)];
      outcome := Outcome(camera, decision, native, local, [], now);
      if decision.plate != [] {
        var previous := FindDuplicate(camera, decision.plate, now);
        if previous != [] {
          outcome := outcome.(duplicateOf := previous);
        } else if !decision.needsReview {
          var lane := lanes[camera];
          lanes := lanes[camera := lane.(decided := lane.decided + [Accepted(decision.plate, now)])];
        }
      }
    }

    method DecideLane(camera: int, now: real) returns (outcome: Outcome)
      requires camera in lanes
      modifies this
      ensures lanes == old(lanes)[camera := Decide(cfg, camera, old(lanes)[camera], now).lane]
      ensures [outcome] == Decide(cfg, camera, old(lanes)[camera], now).outs
    {
      var decision := Resolve(cfg, lanes[camera].native, lanes[camera].local);
      outcome := ConcludeLane(camera, now, decision);
    }

    method DecideOneSlot(camera: int, s: Source, now: real) returns (outcome: Outcome)
      requires camera in lanes
      modifies this
      ensures lanes == old(lanes)[camera := DecideSlot(cfg, camera, old(lanes)[camera], s, now).lane]
      ensures [outcome] == DecideSlot(cfg, camera, old(lanes)[camera], s, now).outs
    {
      var keep := Slot(lanes[camera], Other(s));
      lanes := lanes[camera := WithSlot(lanes[camera], Other(s), None)];
      outcome := DecideLane(camera, now);
      lanes := lanes[camera := WithSlot(lanes[camera], Other(s), keep)];
    }

    method DecideStaleSlots(camera: int, first: Source, now: real) returns (outs: seq<Outcome>)
      requires camera in lanes
      modifies this
      ensures lanes == old(lanes)[camera := DecideStale(cfg, camera, old(lanes)[camera], first, now).lane]
      ensures outs == DecideStale(cfg, camera, old(lanes)[camera], first, now).outs
    {
      hide Decide;
      outs := [];
      if Stale(cfg, lanes[camera], first, now) {
        var o := DecideOneSlot(camera, first, now);
        outs := outs + [o];
      }
      if Stale(cfg, lanes[camera], Other(first), now) {
        var o := DecideOneSlot(camera, Other(first), now);
        outs := outs + [o];
      }
    }

    method OfferInLane(camera: int, candidate: Candidate, now: real, counterpartAvailable: bool)
      returns (outs: seq<Outcome>)
      requires camera in lanes
      modifies this
      ensures var r := OfferLane(cfg, camera, old(lanes)[camera], candidate, now, counterpartAvailable);
              lanes == old(lanes)[camera := r.lane] && outs == r.outs
    {
      hide Decide, DecideStale;
      outs := DecideStaleSlots(camera, candidate.source, now);
      lanes := lanes[camera := WithSlot(lanes[camera], candidate.source, Some(candidate))];
      if Slot(lanes[camera], Other(candidate.source)).Some? || !counterpartAvailable {
        var o := DecideLane(camera, now);
        outs := outs + [o];
      }
    }

    method OfferCandidate(camera: int, candidate: Candidate, now: real, counterpartAvailable: bool)
      returns (outs: seq<Outcome>)
      modifies this
      ensures Obeys(cfg, old(lanes), Offer(camera, candidate, now, counterpartAvailable), lanes, outs)
    {
      EnsureLane(camera);
      outs := OfferInLane(camera, candidate, now, counterpartAvailable);
      OfferTouchesOneLane(cfg, old(lanes), camera, candidate, now, counterpartAvailable, lanes, outs);
    }

    method FlushOne(camera: int, now: real) returns (outs: seq<Outcome>)
      requires camera in lanes
      modifies this
      ensures lanes == old(lanes)[camera := FlushLane(cfg, camera, old(lanes)[camera], now).lane]
      ensures outs == FlushLane(cfg, camera, old(lanes)[camera], now).outs
    {
      outs := [];
      if Overdue(cfg, lanes[camera], Native, now) {
        var o := DecideOneSlot(camera, Native, now);
        outs := outs + [o];
      }
      if Overdue(cfg, lanes[camera], FastAlpr, now) {
        var o := DecideOneSlot(camera, FastAlpr, now);
        outs := outs + [o];
      }
    }

    /** Lanes are visited in any order. */
    method FlushWaiting(now: real) returns (outs: seq<Outcome>)
      modifies this
      ensures Obeys(cfg, old(lanes), Flush(now), lanes, outs)
    {
      ghost var before := lanes;
      outs := [];
      var rest := lanes.Keys;
      while rest != {}
        invariant Flushing(cfg, before, now, lanes, outs, rest)
      {
        CameraSets.NonEmpty(rest);
        var camera :| camera in rest;
        ghost var soFar, lanesSoFar := outs, lanes;
        var more := FlushOne(camera, now);
        outs := outs + more;
        FlushAdvances(cfg, before, now, lanesSoFar, soFar, rest, camera, more, lanes);
        rest := rest - {camera};
      }
    }

    method ResetCamera(camera: int)
      modifies this
      ensures Obeys(cfg, old(lanes), Reset(camera), lanes, [])
    {
      lanes := lanes - {camera};
    }

    method ResetEverything()
      modifies this
      ensures Obeys(cfg, old(lanes), ResetAll, lanes, [])
    {
      lanes := map[];
    }
  }
}

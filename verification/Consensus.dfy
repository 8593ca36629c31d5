/** Temporal consensus for one lane: ConsensusTrack of app/core/consensus.py.
    A class updated in place, one step relation that says what a call does, and theorems over runs. */
module Consensus {
  import opened Options
  import opened PlateText
  import opened Voting

  datatype Config = Config(
    windowSeconds: real,
    holdSeconds: real,
    minReads: int,
    minAgreeing: int,
    similarity: real,
    minShare: real,
    highConfidence: real,
    maxReads: int,
    absenceResetSeconds: real)

  const DEFAULTS := Config(2.0, 20.0, 2, 2, 0.7, 0.6, 0.92, 12, 0.6)

  datatype Track = Track(
    readings: seq<Reading>,
    publishedPlate: string,
    publishedAt: real,
    publishedVisit: real,
    visitStartedAt: real,
    lastReadAt: Option<real>,
    absenceSince: Option<real>,
    lastPlate: string,
    streak: nat)

  const FRESH := Track([], "", 0.0, -1.0, -1.0, None, None, "", 0)

  datatype Reason =
    | EmptyRead
    | WaitingForAgreeingRead
    | BelowShare
    | AlreadyPublishedThisVisit
    | WithinHoldWindow
    | Published

  datatype Decision = Decision(
    publish: bool,
    plate: string,
    confidence: real,
    considered: nat,
    agreeing: nat,
    share: real,
    candidates: map<string, real>,
    reason: Reason)

  const BLANK := Decision(false, "", 0.0, 0, 0, 0.0, map[], EmptyRead)

  function Clamp(c: real): real { if c < 0.0 then 0.0 else if c > 1.0 then 1.0 else c }

  // ----- One call, as a relation between the state before and after -----

  function Released(st: Track): Track
  {
    st.(publishedPlate := "", publishedAt := 0.0, publishedVisit := -1.0)
  }

  function NewVisit(st: Track, now: real): Track
  {
    st.(readings := [], visitStartedAt := now, streak := 0)
  }

  /** Since when the lane is known to be empty, given one more empty read. */
  function EmptySince(st: Track, now: real): real
  {
    if st.absenceSince.None? || now < st.absenceSince.value then now else st.absenceSince.value
  }

  predicate LaneCleared(cfg: Config, st: Track, now: real)
  {
    now - EmptySince(st, now) >= cfg.absenceResetSeconds
  }

  function AfterEmptyRead(cfg: Config, st: Track, now: real): Track
  {
    var cleared := if LaneCleared(cfg, st, now) then NewVisit(Released(st), now) else st;
    cleared.(absenceSince := Some(EmptySince(st, now)), lastReadAt := Some(now), lastPlate := "", streak := 0)
  }

  predicate StartsVisit(cfg: Config, st: Track, now: real)
  {
    st.lastReadAt.None? || now - st.lastReadAt.value > cfg.windowSeconds || now < st.lastReadAt.value
  }

  /** Readings still within the window, in order. */
  function Recent(rs: seq<Reading>, now: real, window: real): seq<Reading>
  {
    if rs == [] then []
    else Recent(rs[..|rs| - 1], now, window) + if now - rs[|rs| - 1].at <= window then [rs[|rs| - 1]] else []
  }

  function LastN<T>(s: seq<T>, n: int): seq<T>
  {
    if |s| > n then if n > 0 then s[|s| - n..] else [] else s
  }

  function AfterPlateRead(cfg: Config, st: Track, plate: string, now: real, confidence: real): Track
  {
    var begun := if StartsVisit(cfg, st, now) then NewVisit(st, now) else st;
    begun.(absenceSince := None,
           lastReadAt := Some(now),
           streak := if plate == st.lastPlate then begun.streak + 1 else 1,
           lastPlate := plate,
           readings := LastN(Recent(begun.readings, now, cfg.windowSeconds) + [Reading(plate, Clamp(confidence), now)],
                             cfg.maxReads))
  }

  predicate SingleReadSuffices(cfg: Config, rs: seq<Reading>, winner: string, allowSingle: bool)
  {
    allowSingle && BestExact(rs, winner) >= cfg.highConfidence && Exact(rs, winner) >= 1
  }

  predicate EnoughReads(cfg: Config, rs: seq<Reading>, winner: string)
  {
    |rs| >= cfg.minReads && Exact(rs, winner) >= cfg.minAgreeing
  }

  function Verdict(cfg: Config, st: Track, winner: string, now: real, allowSingle: bool): Reason
  {
    var rs := st.readings;
    if !SingleReadSuffices(cfg, rs, winner, allowSingle) && !EnoughReads(cfg, rs, winner) then WaitingForAgreeingRead
    else if Share(rs, cfg.similarity, winner) < cfg.minShare then BelowShare
    else if winner == st.publishedPlate && st.publishedVisit == st.visitStartedAt then AlreadyPublishedThisVisit
    else if winner == st.publishedPlate && now - st.publishedAt < cfg.holdSeconds then WithinHoldWindow
    else Published
  }

  /** d is the decision on the updated readings, for the one winner they have. */
  ghost predicate Decides(cfg: Config, st: Track, now: real, allowSingle: bool, d: Decision)
  {
    var rs := st.readings;
    && IsWinner(rs, cfg.similarity, d.plate)
    && d.considered == |rs|
    && d.agreeing == Exact(rs, d.plate)
    && d.confidence == ExactWeight(rs, d.plate) / (if d.agreeing > 1 then d.agreeing else 1) as real
    && d.share == Share(rs, cfg.similarity, d.plate)
    && d.candidates.Keys == Plates(rs) && IsTally(rs, cfg.similarity, d.candidates)
    && d.reason == Verdict(cfg, st, d.plate, now, allowSingle)
    && d.publish == (d.reason == Published)
  }

  function AfterDecision(st: Track, now: real, d: Decision): Track
  {
    if d.publish then st.(publishedPlate := d.plate, publishedAt := now, publishedVisit := st.visitStartedAt) else st
  }

  datatype Event =
    | Read(plate: string, now: real, confidence: real, allowSingle: bool)
    | Release

  ghost predicate Step(cfg: Config, before: Track, e: Event, after: Track, d: Decision)
  {
    match e
    case Release => after == Released(before) && d == BLANK
    case Read(raw, now, confidence, allowSingle) =>
      var plate := Normalize(raw);
      if plate == [] then after == AfterEmptyRead(cfg, before, now) && d == BLANK
      else
        var mid := AfterPlateRead(cfg, before, plate, now, confidence);
        Decides(cfg, mid, now, allowSingle, d) && after == AfterDecision(mid, now, d)
  }

  lemma {:induction false} RecentReadings(rs: seq<Reading>, now: real, window: real)
    requires AreReadings(rs)
    ensures AreReadings(Recent(rs, now, window))
  {
    if rs != [] {
      assert rs[|rs| - 1] in rs;
      RecentReadings(rs[..|rs| - 1], now, window);
    }
  }

  // ----- The class -----

  class ConsensusTrack {
    const cfg: Config
    var readings: seq<Reading>
    var publishedPlate: string
    var publishedAt: real
    var publishedVisit: real
    var visitStartedAt: real
    var lastReadAt: Option<real>
    var absenceSince: Option<real>
    var lastPlate: string
    var streak: nat

    /** A window must hold at least one reading: with room for none app/core/consensus.py fails on its first read. */
    ghost predicate Valid()
      reads this
    {
      cfg.maxReads >= 1 && AreReadings(readings)
    }

    ghost function View(): Track
      reads this
    {
      Track(readings, publishedPlate, publishedAt, publishedVisit, visitStartedAt, lastReadAt, absenceSince,
            lastPlate, streak)
    }

    constructor (cfg: Config)
      requires cfg.maxReads >= 1
      ensures Valid() && View() == FRESH && this.cfg == cfg
    {
      this.cfg := cfg;
      readings, publishedPlate, publishedAt, publishedVisit := [], "", 0.0, -1.0;
      visitStartedAt, lastReadAt, absenceSince, lastPlate, streak := -1.0, None, None, "", 0;
    }

    method ReleaseHold()
      requires Valid()
      modifies this
      ensures Valid() && Step(cfg, old(View()), Release, View(), BLANK)
    {
      publishedPlate, publishedAt, publishedVisit := "", 0.0, -1.0;
    }

    method BeginVisit(now: real)
      modifies this`readings, this`visitStartedAt, this`streak
      ensures View() == NewVisit(old(View()), now)
    {
      readings, visitStartedAt, streak := [], now, 0;
    }

    method DropOldReadings(now: real)
      requires Valid()
      modifies this`readings
      ensures Valid() && readings == Recent(old(readings), now, cfg.windowSeconds)
    {
      var kept := [];
      for i := 0 to |readings|
        invariant kept == Recent(readings[..i], now, cfg.windowSeconds)
        invariant readings == old(readings)
      {
        assert readings[..i + 1][..i] == readings[..i];
        if now - readings[i].at <= cfg.windowSeconds {
          kept := kept + [readings[i]];
        }
      }
      assert readings[..|readings|] == readings;
      RecentReadings(readings, now, cfg.windowSeconds);
      readings := kept;
    }

    method ObserveEmpty(now: real)
      requires Valid()
      modifies this
      ensures Valid() && View() == AfterEmptyRead(cfg, old(View()), now)
    {
      if absenceSince.None? || now < absenceSince.value {
        absenceSince := Some(now);
      }
      if now - absenceSince.value >= cfg.absenceResetSeconds {
        ReleaseHold();
        BeginVisit(now);
      }
      lastReadAt, lastPlate, streak := Some(now), "", 0;
    }

    method Remember(plate: string, now: real, confidence: real)
      requires Valid() && plate != [] && IsPlate(plate)
      modifies this
      ensures Valid() && View() == AfterPlateRead(cfg, old(View()), plate, now, confidence)
    {
      absenceSince := None;
      if lastReadAt.None? || now - lastReadAt.value > cfg.windowSeconds || now < lastReadAt.value {
        BeginVisit(now);
      }
      lastReadAt := Some(now);
      streak := if plate == lastPlate then streak + 1 else 1;
      lastPlate := plate;
      Append(plate, now, confidence);
    }

    method Append(plate: string, now: real, confidence: real)
      requires Valid() && plate != [] && IsPlate(plate)
      modifies this`readings
      ensures Valid()
      ensures readings ==
              LastN(Recent(old(readings), now, cfg.windowSeconds) + [Reading(plate, Clamp(confidence), now)],
                    cfg.maxReads)
    {
      DropOldReadings(now);
      var r := Reading(plate, Clamp(confidence), now);
      assert IsReading(r);
      readings := readings + [r];
      if |readings| > cfg.maxReads {
        readings := readings[|readings| - cfg.maxReads..];
      }
    }

    method Judge(winner: string, share: real, now: real, allowSingle: bool, exact: nat, best: real)
      returns (reason: Reason)
      requires share == Share(readings, cfg.similarity, winner)
      requires exact == Exact(readings, winner) && best == BestExact(readings, winner)
      ensures reason == Verdict(cfg, View(), winner, now, allowSingle)
    {
      var singleOk := allowSingle && best >= cfg.highConfidence && exact >= 1;
      if !singleOk && (|readings| < cfg.minReads || exact < cfg.minAgreeing) {
        return WaitingForAgreeingRead;
      }
      if share < cfg.minShare {
        return BelowShare;
      }
      if winner == publishedPlate {
        if publishedVisit == visitStartedAt {
          return AlreadyPublishedThisVisit;
        }
        if now - publishedAt < cfg.holdSeconds {
          return WithinHoldWindow;
        }
      }
      return Published;
    }

    method Decide(now: real, allowSingle: bool) returns (d: Decision)
      requires Valid() && readings != []
      ensures Decides(cfg, View(), now, allowSingle, d)
    {
      var sum := SumConfidence(readings);
      var total := if sum == 0.0 then 0.000000001 else sum;
      var scores := Tally(readings, cfg.similarity);
      var winner := PickWinner(readings, cfg.similarity, scores);
      var exact, weight, best := CountExact(readings, winner);
      var share := scores[winner] / total;
      share := if share < 1.0 then share else 1.0;
      var confidence := weight / (if exact > 1 then exact else 1) as real;
      var reason := Judge(winner, share, now, allowSingle, exact, best);
      d := Decision(reason == Published, winner, confidence, |readings|, exact, share, scores, reason);
    }

    method Observe(plate: string, now: real, confidence: real, allowSingle: bool) returns (d: Decision)
      requires Valid()
      modifies this
      ensures Valid() && Step(cfg, old(View()), Read(plate, now, confidence, allowSingle), View(), d)
    {
      var normalised := Normalize(plate);
      if normalised == [] {
        ObserveEmpty(now);
        return BLANK;
      }
      Remember(normalised, now, confidence);
      d := Decide(now, allowSingle);
      if d.publish {
        publishedPlate, publishedAt, publishedVisit := d.plate, now, visitStartedAt;
      }
    }
  }
}

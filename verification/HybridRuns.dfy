/** Whole runs of the fusion coordinator: cameras do not interfere, the pruned duplicate list agrees with
    the full history, candidates are conserved, and accepted outcomes are sound. */
module HybridRuns {
  import opened Options
  import opened PlateText
  import opened PlateSimilarity
  import opened Fusion
  import opened Hybrid

  // ----- Runs of the coordinator and of one lane -----

  datatype Moment = Moment(event: Event, lanes: map<int, Lane>, outs: seq<Outcome>)

  function LanesAfter(run: seq<Moment>): map<int, Lane>
  {
    if run == [] then map[] else run[|run| - 1].lanes
  }

  ghost predicate IsRun(cfg: Config, run: seq<Moment>)
  {
    run == [] ||
    (var rest, m := run[..|run| - 1], run[|run| - 1];
     IsRun(cfg, rest) && Obeys(cfg, LanesAfter(rest), m.event, m.lanes, m.outs))
  }

  function EventsOf(run: seq<Moment>): seq<Event>
  {
    if run == [] then [] else EventsOf(run[..|run| - 1]) + [run[|run| - 1].event]
  }

  /** All outcomes of one camera over a run. */
  function OutcomesOf(run: seq<Moment>, camera: int): seq<Outcome>
  {
    if run == [] then [] else OutcomesOf(run[..|run| - 1], camera) + Of(run[|run| - 1].outs, camera)
  }

  function LaneRun(cfg: Config, camera: int, events: seq<Event>): Result
  {
    if events == [] then Result(EMPTY_LANE, [])
    else
      var r := LaneRun(cfg, camera, events[..|events| - 1]);
      var t := LaneStep(cfg, camera, r.lane, events[|events| - 1]);
      Result(t.lane, r.outs + t.outs)
  }

  /** The coordinator runs every lane as if it were alone. */
  lemma {:induction false} CoordinatorRunsLanes(cfg: Config, run: seq<Moment>, camera: int)
    requires IsRun(cfg, run)
    ensures LaneAt(LanesAfter(run), camera) == LaneRun(cfg, camera, EventsOf(run)).lane
    ensures OutcomesOf(run, camera) == LaneRun(cfg, camera, EventsOf(run)).outs
  {
    if run != [] {
      var rest, m := run[..|run| - 1], run[|run| - 1];
      CoordinatorRunsLanes(cfg, rest, camera);
      assert EventsOf(run)[..|EventsOf(run)| - 1] == EventsOf(rest);
      assert LaneObeys(cfg, LanesAfter(rest), m.event, m.lanes, m.outs, camera);
    }
  }

  predicate Concerns(e: Event, camera: int)
  {
    match e
    case Offer(c, _, _, _) => c == camera
    case Reset(c) => c == camera
    case Flush(_) => true
    case ResetAll => true
  }

  /** A camera's own offers and resets, and the site-wide flushes and resets. */
  function Kept(events: seq<Event>, camera: int): seq<Event>
  {
    if events == [] then []
    else Kept(events[..|events| - 1], camera) +
         if Concerns(events[|events| - 1], camera) then [events[|events| - 1]] else []
  }

  lemma OthersDoNothing(cfg: Config, camera: int, lane: Lane, e: Event)
    requires !Concerns(e, camera)
    ensures LaneStep(cfg, camera, lane, e) == Result(lane, [])
  {
  }

  lemma {:induction false} LaneRunIgnoresOthers(cfg: Config, camera: int, events: seq<Event>)
    ensures LaneRun(cfg, camera, events) == LaneRun(cfg, camera, Kept(events, camera))
  {
    if events != [] {
      var rest, e := events[..|events| - 1], events[|events| - 1];
      LaneRunIgnoresOthers(cfg, camera, rest);
      var kept := Kept(rest, camera);
      if Concerns(e, camera) {
        assert Kept(events, camera) == kept + [e];
        assert (kept + [e])[..|kept|] == kept;
      } else {
        OthersDoNothing(cfg, camera, LaneRun(cfg, camera, rest).lane, e);
        assert Kept(events, camera) == kept;
        assert LaneRun(cfg, camera, rest).outs + [] == LaneRun(cfg, camera, rest).outs;
      }
    }
  }

  /** Cameras do not interfere: what one camera produces in any interleaved run is what it produces in any
      run of its own events and the site-wide ones alone. */
  lemma CamerasDoNotInterfere(cfg: Config, run: seq<Moment>, alone: seq<Moment>, camera: int)
    requires IsRun(cfg, run) && IsRun(cfg, alone)
    requires EventsOf(alone) == Kept(EventsOf(run), camera)
    ensures OutcomesOf(run, camera) == OutcomesOf(alone, camera)
    ensures LaneAt(LanesAfter(run), camera) == LaneAt(LanesAfter(alone), camera)
  {
    CoordinatorRunsLanes(cfg, run, camera);
    CoordinatorRunsLanes(cfg, alone, camera);
    LaneRunIgnoresOthers(cfg, camera, EventsOf(run));
  }

  // ----- The books of one camera since its last reset -----

  /** Outcomes before and since the last reset; candidates offered and overwritten since then. */
  datatype Book = Book(
    lane: Lane,
    past: seq<Outcome>,
    since: seq<Outcome>,
    offered: seq<Candidate>,
    replaced: seq<Candidate>)

  function Fresh(past: seq<Outcome>): Book { Book(EMPTY_LANE, past, [], [], []) }

  function Listed(c: Option<Candidate>): seq<Candidate> { if c.Some? then [c.value] else [] }

  /** The waiting candidate that a new one of the same source overwrites. */
  function Overwritten(cfg: Config, camera: int, lane: Lane, c: Candidate, now: real): seq<Candidate>
  {
    Listed(Slot(DecideStale(cfg, camera, lane, c.source, now).lane, c.source))
  }

  function BookStep(cfg: Config, camera: int, b: Book, e: Event): Book
  {
    match e
    case Offer(k, c, now, available) =>
      if k == camera then
        var r := OfferLane(cfg, camera, b.lane, c, now, available);
        Book(r.lane, b.past, b.since + r.outs, b.offered + [c], b.replaced + Overwritten(cfg, camera, b.lane, c, now))
      else b
    case Flush(now) =>
      var r := FlushLane(cfg, camera, b.lane, now);
      b.(lane := r.lane, since := b.since + r.outs)
    case Reset(k) => if k == camera then Fresh(b.past + b.since) else b
    case ResetAll => Fresh(b.past + b.since)
  }

  function Books(cfg: Config, camera: int, events: seq<Event>): Book
  {
    if events == [] then Fresh([])
    else BookStep(cfg, camera, Books(cfg, camera, events[..|events| - 1]), events[|events| - 1])
  }

  lemma BookStepFollows(cfg: Config, camera: int, b: Book, e: Event)
    ensures var b', t := BookStep(cfg, camera, b, e), LaneStep(cfg, camera, b.lane, e);
            b'.lane == t.lane && b'.past + b'.since == b.past + b.since + t.outs
  {
  }

  /** The books are kept beside the lane and never change it; together they hold every outcome. */
  lemma {:induction false} BooksFollowLane(cfg: Config, camera: int, events: seq<Event>)
    ensures Books(cfg, camera, events).lane == LaneRun(cfg, camera, events).lane
    ensures Books(cfg, camera, events).past + Books(cfg, camera, events).since == LaneRun(cfg, camera, events).outs
  {
    if events != [] {
      var rest := events[..|events| - 1];
      BooksFollowLane(cfg, camera, rest);
      BookStepFollows(cfg, camera, Books(cfg, camera, rest), events[|events| - 1]);
    }
  }

  predicate Timed(e: Event) { e.Offer? || e.Flush? }

  /** Time never runs backwards over the events, ending at or before clock. */
  ghost predicate Monotone(events: seq<Event>, clock: real)
  {
    events == [] ||
    (var rest, e := events[..|events| - 1], events[|events| - 1];
     if Timed(e) then e.now <= clock && Monotone(rest, e.now) else Monotone(rest, clock))
  }

  // ----- Duplicate suppression against the full history -----

  /** Outcome k is suppressed exactly when some earlier accepted outcome of an equal or similar plate
      is less than the hold time old. */
  ghost predicate Judged(cfg: Config, since: seq<Outcome>, k: nat)
    requires k < |since|
  {
    since[k].Suppressed() <==> since[k].decision.plate != [] && exists j | 0 <= j < k :: Blocks(cfg, since[j], since[k])
  }

  predicate Blocks(cfg: Config, earlier: Outcome, later: Outcome)
  {
    earlier.Accepts() && later.decidedAt - earlier.decidedAt < cfg.holdSeconds &&
    Alike(cfg, earlier.decision.plate, later.decision.plate)
  }

  function Remembered(o: Outcome): Accepted { Accepted(o.decision.plate, o.decidedAt) }

  /** The pruned list holds only accepted outcomes, and every one the hold can still cover. */
  ghost predicate Agrees(cfg: Config, decided: seq<Accepted>, since: seq<Outcome>, clock: real)
  {
    && (forall a | a in decided :: exists o :: o in since && o.Accepts() && a == Remembered(o))
    && (forall o | o in since && o.Accepts() && clock - o.decidedAt < cfg.holdSeconds :: Remembered(o) in decided)
  }

  ghost predicate Audited(cfg: Config, decided: seq<Accepted>, since: seq<Outcome>, clock: real)
  {
    && Agrees(cfg, decided, since, clock)
    && (forall k | 0 <= k < |since| :: Judged(cfg, since, k))
    && (forall o | o in since :: o.decidedAt <= clock && o.decision == Resolve(cfg, o.native, o.local))
  }

  lemma {:induction false} StillHeldMember(decided: seq<Accepted>, now: real, hold: real, a: Accepted)
    ensures a in StillHeld(decided, now, hold) <==> a in decided && now - a.at < hold
  {
    if decided != [] {
      StillHeldMember(decided[..|decided| - 1], now, hold, a);
      assert decided == decided[..|decided| - 1] + [decided[|decided| - 1]];
    }
  }

  lemma {:induction false} DuplicateFound(cfg: Config, decided: seq<Accepted>, plate: string)
    requires forall a | a in decided :: a.plate != []
    ensures DuplicateOf(cfg, decided, plate) != [] <==> exists a :: a in decided && Alike(cfg, a.plate, plate)
  {
    if decided != [] {
      assert decided[0] in decided;
      DuplicateFound(cfg, decided[1..], plate);
      assert forall a :: a in decided <==> a == decided[0] || a in decided[1..];
    }
  }

  lemma AgreesLater(cfg: Config, decided: seq<Accepted>, since: seq<Outcome>, clock: real, now: real)
    requires Agrees(cfg, decided, since, clock) && clock <= now
    ensures Agrees(cfg, decided, since, now)
    ensures Agrees(cfg, StillHeld(decided, now, cfg.holdSeconds), since, now)
  {
    var held := StillHeld(decided, now, cfg.holdSeconds);
    forall a: Accepted
      ensures a in held <==> a in decided && now - a.at < cfg.holdSeconds
    {
      StillHeldMember(decided, now, cfg.holdSeconds, a);
    }
    assert forall a | a in held :: exists o :: o in since && o.Accepts() && a == Remembered(o);
  }

  /** The next outcome, decided now against the list, is judged correctly against the history. */
  lemma NextIsJudged(cfg: Config, held: seq<Accepted>, since: seq<Outcome>, now: real, o: Outcome)
    requires Agrees(cfg, held, since, now) && o.decidedAt == now
    requires forall a | a in held :: now - a.at < cfg.holdSeconds
    requires o.duplicateOf == if o.decision.plate != [] then DuplicateOf(cfg, held, o.decision.plate) else []
    ensures Judged(cfg, since + [o], |since|)
  {
    var all, k := since + [o], |since|;
    assert forall a | a in held :: a.plate != [];
    if o.decision.plate != [] {
      DuplicateFound(cfg, held, o.decision.plate);
      if o.Suppressed() {
        var a :| a in held && Alike(cfg, a.plate, o.decision.plate);
        var p :| p in since && p.Accepts() && a == Remembered(p);
        var j :| 0 <= j < |since| && since[j] == p;
        assert all[j] == p && Blocks(cfg, all[j], o);
      } else {
        forall j | 0 <= j < k
          ensures !Blocks(cfg, all[j], o)
        {
          assert all[j] == since[j] && since[j] in since;
          assert Blocks(cfg, since[j], o) ==> Remembered(since[j]) in held;
        }
      }
    }
  }

  lemma EarlierStayJudged(cfg: Config, since: seq<Outcome>, o: Outcome, k: nat)
    requires k < |since| && Judged(cfg, since, k)
    ensures Judged(cfg, since + [o], k)
  {
    var all := since + [o];
    assert forall j | 0 <= j <= k :: all[j] == since[j];
  }

  lemma ListGrows(cfg: Config, held: seq<Accepted>, since: seq<Outcome>, now: real, o: Outcome)
    requires Agrees(cfg, held, since, now) && o.decidedAt == now
    ensures Agrees(cfg, if o.Accepts() then held + [Remembered(o)] else held, since + [o], now)
  {
    var all := since + [o];
    var list := if o.Accepts() then held + [Remembered(o)] else held;
    forall a | a in list
      ensures exists p :: p in all && p.Accepts() && a == Remembered(p)
    {
      if a in held {
        var p :| p in since && p.Accepts() && a == Remembered(p);
        assert p in all;
      } else {
        assert o in all;
      }
    }
  }

  lemma ConcludeAudited(cfg: Config, camera: int, lane: Lane, since: seq<Outcome>, clock: real, now: real,
                        decision: Decision, r: Result)
    requires Audited(cfg, lane.decided, since, clock) && clock <= now
    requires decision == Resolve(cfg, lane.native, lane.local) && r == Conclude(cfg, camera, lane, now, decision)
    ensures Audited(cfg, r.lane.decided, since + r.outs, now)
  {
    hide Resolve, StillHeld, DuplicateOf, Agrees;
    var o := r.outs[0];
    var held := if decision.plate != [] then StillHeld(lane.decided, now, cfg.holdSeconds) else lane.decided;
    AgreesLater(cfg, lane.decided, since, clock, now);
    ListGrows(cfg, held, since, now, o);
    assert Judged(cfg, since + [o], |since|) by {
      if decision.plate != [] {
        forall a | a in held
          ensures now - a.at < cfg.holdSeconds
        {
          StillHeldMember(lane.decided, now, cfg.holdSeconds, a);
        }
        NextIsJudged(cfg, held, since, now, o);
      }
    }
    forall k | 0 <= k < |since|
      ensures Judged(cfg, since + [o], k)
    {
      EarlierStayJudged(cfg, since, o, k);
    }
    assert r.outs == [o];
  }

  // ----- Audit of whole runs -----

  lemma DecideIfAudited(cfg: Config, camera: int, lane: Lane, since: seq<Outcome>, clock: real, now: real, s: Source,
                        due: bool, r: Result)
    requires Audited(cfg, lane.decided, since, clock) && clock <= now
    requires r == DecideIf(cfg, camera, lane, s, now, due)
    ensures Audited(cfg, r.lane.decided, since + r.outs, now)
  {
    if due {
      var alone := WithSlot(lane, Other(s), None);
      var t := Decide(cfg, camera, alone, now);
      assert Audited(cfg, alone.decided, since, clock);
      ConcludeAudited(cfg, camera, alone, since, clock, now, Resolve(cfg, alone.native, alone.local), t);
    } else {
      AgreesLater(cfg, lane.decided, since, clock, now);
      assert since + [] == since;
    }
  }

  lemma TwoSlotsAudited(cfg: Config, camera: int, lane: Lane, since: seq<Outcome>, clock: real, now: real, s: Source,
                        due: bool, r: Result, due': bool, t: Result)
    requires Audited(cfg, lane.decided, since, clock) && clock <= now
    requires r == DecideIf(cfg, camera, lane, s, now, due) && t == DecideIf(cfg, camera, r.lane, Other(s), now, due')
    ensures Audited(cfg, t.lane.decided, since + (r.outs + t.outs), now)
  {
    DecideIfAudited(cfg, camera, lane, since, clock, now, s, due, r);
    DecideIfAudited(cfg, camera, r.lane, since + r.outs, now, now, Other(s), due', t);
    assert since + r.outs + t.outs == since + (r.outs + t.outs);
  }

  lemma StaleAudited(cfg: Config, camera: int, lane: Lane, since: seq<Outcome>, clock: real, now: real,
                     first: Source, r: Result)
    requires Audited(cfg, lane.decided, since, clock) && clock <= now
    requires r == DecideStale(cfg, camera, lane, first, now)
    ensures Audited(cfg, r.lane.decided, since + r.outs, now)
  {
    var t := DecideIf(cfg, camera, lane, first, now, Stale(cfg, lane, first, now));
    var u := DecideIf(cfg, camera, t.lane, Other(first), now, Stale(cfg, t.lane, Other(first), now));
    TwoSlotsAudited(cfg, camera, lane, since, clock, now, first, Stale(cfg, lane, first, now), t,
                    Stale(cfg, t.lane, Other(first), now), u);
  }

  lemma OfferAudited(cfg: Config, camera: int, lane: Lane, since: seq<Outcome>, clock: real, c: Candidate, now: real,
                     available: bool, r: Result)
    requires Audited(cfg, lane.decided, since, clock) && clock <= now
    requires r == OfferLane(cfg, camera, lane, c, now, available)
    ensures Audited(cfg, r.lane.decided, since + r.outs, now)
  {
    var stale := DecideStale(cfg, camera, lane, c.source, now);
    StaleAudited(cfg, camera, lane, since, clock, now, c.source, stale);
    var put := WithSlot(stale.lane, c.source, Some(c));
    if Slot(put, Other(c.source)).Some? || !available {
      var decision := Resolve(cfg, put.native, put.local);
      var t := Conclude(cfg, camera, put, now, decision);
      ConcludeAudited(cfg, camera, put, since + stale.outs, now, now, decision, t);
      assert since + stale.outs + t.outs == since + (stale.outs + t.outs);
    }
  }

  lemma {:induction false} RunAudited(cfg: Config, camera: int, events: seq<Event>, clock: real, b: Book)
    requires Monotone(events, clock) && b == Books(cfg, camera, events)
    ensures Audited(cfg, b.lane.decided, b.since, clock)
    decreases |events|
  {
    if events != [] {
      var rest, e := events[..|events| - 1], events[|events| - 1];
      var p := Books(cfg, camera, rest);
      RunAudited(cfg, camera, rest, if Timed(e) then e.now else clock, p);
      AgreesLater(cfg, p.lane.decided, p.since, if Timed(e) then e.now else clock, clock);
      match e
      case Offer(k, c, now, available) =>
        if k == camera {
          var r := OfferLane(cfg, camera, p.lane, c, now, available);
          OfferAudited(cfg, camera, p.lane, p.since, now, c, now, available, r);
          AgreesLater(cfg, b.lane.decided, b.since, now, clock);
        }
      case Flush(now) =>
        var r := DecideIf(cfg, camera, p.lane, Native, now, Overdue(cfg, p.lane, Native, now));
        var t := DecideIf(cfg, camera, r.lane, FastAlpr, now, Overdue(cfg, r.lane, FastAlpr, now));
        TwoSlotsAudited(cfg, camera, p.lane, p.since, now, now, Native, Overdue(cfg, p.lane, Native, now), r,
                        Overdue(cfg, r.lane, FastAlpr, now), t);
        AgreesLater(cfg, b.lane.decided, b.since, now, clock);
      case Reset(k) =>
      case ResetAll =>
    }
  }

  /** The pruned list is as good as the whole history: an outcome is suppressed exactly when some earlier
      accepted outcome on its camera, less than the hold time old, has an equal or similar plate. Held
      outcomes never block anything. */
  lemma SuppressionIsExact(cfg: Config, camera: int, events: seq<Event>, clock: real, k: nat)
    requires Monotone(events, clock) && k < |Books(cfg, camera, events).since|
    ensures var since := Books(cfg, camera, events).since;
            since[k].Suppressed() <==>
            && since[k].decision.plate != []
            && exists j | 0 <= j < k :: Blocks(cfg, since[j], since[k])
  {
    RunAudited(cfg, camera, events, clock, Books(cfg, camera, events));
    assert Judged(cfg, Books(cfg, camera, events).since, k);
  }

  /** No two accepted outcomes of similar plates on one camera lie within the hold time of each other. */
  lemma AcceptedPlatesAreSpaced(cfg: Config, camera: int, events: seq<Event>, clock: real, j: nat, k: nat)
    requires Monotone(events, clock) && j < k < |Books(cfg, camera, events).since|
    requires var since := Books(cfg, camera, events).since;
             since[j].Accepts() && since[k].Accepts() && Alike(cfg, since[j].decision.plate, since[k].decision.plate)
    ensures var since := Books(cfg, camera, events).since; since[k].decidedAt - since[j].decidedAt >= cfg.holdSeconds
  {
    SuppressionIsExact(cfg, camera, events, clock, k);
    var since := Books(cfg, camera, events).since;
    assert Blocks(cfg, since[j], since[k]) <==> since[k].decidedAt - since[j].decidedAt < cfg.holdSeconds;
  }

  /** Every accepted outcome carries the normalised plate of each candidate it used, with at least the
      automatic minimum confidence; without a native plate it also reaches the strict threshold or rests
      on the agreement of several frames. */
  lemma AcceptedOutcomesAreSound(cfg: Config, camera: int, events: seq<Event>, clock: real, o: Outcome)
    requires Monotone(events, clock) && o in Books(cfg, camera, events).since && o.Accepts()
    ensures o.decision.confidence >= MinAuto(cfg.settings)
    ensures o.native.Some? && Normalize(o.native.value.plate) != [] ==>
              o.decision.plate == Normalize(o.native.value.plate)
    ensures o.local.Some? && Normalize(o.local.value.plate) != [] ==> o.decision.plate == Normalize(o.local.value.plate)
    ensures o.native.None? || Normalize(o.native.value.plate) == [] ==>
              o.local.Some? && (o.decision.confidence >= StrictLocal(cfg.settings) || o.local.value.consensus)
  {
    RunAudited(cfg, camera, events, clock, Books(cfg, camera, events));
    HybridAcceptance(cfg.settings, ReadingsOf(o.native, o.local));
  }

  // ----- The same over runs of the coordinator -----

  predicate Resets(e: Event, camera: int) { e.ResetAll? || e == Reset(camera) }

  /** All outcomes of one camera since its last reset. */
  function OutcomesSinceReset(run: seq<Moment>, camera: int): seq<Outcome>
  {
    if run == [] || Resets(run[|run| - 1].event, camera) then []
    else OutcomesSinceReset(run[..|run| - 1], camera) + Of(run[|run| - 1].outs, camera)
  }

  lemma OutcomesOfStep(cfg: Config, camera: int, b: Book, e: Event)
    requires !Resets(e, camera)
    ensures BookStep(cfg, camera, b, e).since == b.since + LaneStep(cfg, camera, b.lane, e).outs
  {
  }

  /** The books of the events hold exactly what the coordinator did. */
  lemma {:induction false} BooksOfRun(cfg: Config, run: seq<Moment>, camera: int)
    requires IsRun(cfg, run)
    ensures Books(cfg, camera, EventsOf(run)).since == OutcomesSinceReset(run, camera)
    ensures Books(cfg, camera, EventsOf(run)).lane == LaneAt(LanesAfter(run), camera)
  {
    hide LaneStep, BookStep;
    if run != [] {
      var rest, m := run[..|run| - 1], run[|run| - 1];
      BooksOfRun(cfg, rest, camera);
      CoordinatorRunsLanes(cfg, run, camera);
      BooksFollowLane(cfg, camera, EventsOf(run));
      assert EventsOf(run)[..|EventsOf(run)| - 1] == EventsOf(rest);
      assert LaneObeys(cfg, LanesAfter(rest), m.event, m.lanes, m.outs, camera);
      var b := Books(cfg, camera, EventsOf(rest));
      if Resets(m.event, camera) {
        ResetForgets(cfg, camera, b, m.event);
      } else {
        OutcomesOfStep(cfg, camera, b, m.event);
      }
    }
  }

  lemma ResetForgets(cfg: Config, camera: int, b: Book, e: Event)
    requires Resets(e, camera)
    ensures BookStep(cfg, camera, b, e) == Fresh(b.past + b.since)
  {
  }

  /** In any run of the coordinator, an outcome is suppressed exactly when some earlier accepted outcome of its camera
      since the last reset, less than the hold time old, has an equal or similar plate. */
  lemma SuppressionOverRuns(cfg: Config, run: seq<Moment>, camera: int, clock: real, k: nat)
    requires IsRun(cfg, run) && Monotone(EventsOf(run), clock) && k < |OutcomesSinceReset(run, camera)|
    ensures var since := OutcomesSinceReset(run, camera);
            since[k].Suppressed() <==>
            && since[k].decision.plate != []
            && exists j | 0 <= j < k :: Blocks(cfg, since[j], since[k])
  {
    BooksOfRun(cfg, run, camera);
    SuppressionIsExact(cfg, camera, EventsOf(run), clock, k);
  }

  lemma SpacingOverRuns(cfg: Config, run: seq<Moment>, camera: int, clock: real, j: nat, k: nat)
    requires IsRun(cfg, run) && Monotone(EventsOf(run), clock) && j < k < |OutcomesSinceReset(run, camera)|
    requires var since := OutcomesSinceReset(run, camera);
             since[j].Accepts() && since[k].Accepts() && Alike(cfg, since[j].decision.plate, since[k].decision.plate)
    ensures var since := OutcomesSinceReset(run, camera); since[k].decidedAt - since[j].decidedAt >= cfg.holdSeconds
  {
    BooksOfRun(cfg, run, camera);
    AcceptedPlatesAreSpaced(cfg, camera, EventsOf(run), clock, j, k);
  }

  lemma {:induction false} OutcomeHasASpan(cfg: Config, run: seq<Moment>, camera: int, clock: real, o: Outcome)
    returns (n: nat, earlier: real)
    requires IsRun(cfg, run) && Monotone(EventsOf(run), clock) && o in OutcomesOf(run, camera)
    ensures n <= |run| && IsRun(cfg, run[..n]) && Monotone(EventsOf(run[..n]), earlier)
    ensures o in OutcomesSinceReset(run[..n], camera)
  {
    var rest, m := run[..|run| - 1], run[|run| - 1];
    assert EventsOf(run)[..|EventsOf(run)| - 1] == EventsOf(rest);
    if o in OutcomesOf(rest, camera) {
      n, earlier := OutcomeHasASpan(cfg, rest, camera, if Timed(m.event) then m.event.now else clock, o);
      assert rest[..n] == run[..n];
    } else {
      n, earlier := |run|, clock;
      assert run[..n] == run;
      if Resets(m.event, camera) {
        ResetsAreSilent(cfg, LanesAfter(rest), m, camera);
      }
    }
  }

  lemma ResetsAreSilent(cfg: Config, before: map<int, Lane>, m: Moment, camera: int)
    requires Obeys(cfg, before, m.event, m.lanes, m.outs) && Resets(m.event, camera)
    ensures Of(m.outs, camera) == []
  {
    assert LaneObeys(cfg, before, m.event, m.lanes, m.outs, camera);
  }

  /** Every accepted outcome of any run, whenever it was made. */
  lemma SoundnessOverRuns(cfg: Config, run: seq<Moment>, camera: int, clock: real, o: Outcome)
    requires IsRun(cfg, run) && Monotone(EventsOf(run), clock) && o in OutcomesOf(run, camera) && o.Accepts()
    ensures o.decision.confidence >= MinAuto(cfg.settings)
    ensures o.native.Some? && Normalize(o.native.value.plate) != [] ==>
              o.decision.plate == Normalize(o.native.value.plate)
    ensures o.local.Some? && Normalize(o.local.value.plate) != [] ==> o.decision.plate == Normalize(o.local.value.plate)
    ensures o.native.None? || Normalize(o.native.value.plate) == [] ==>
              o.local.Some? && (o.decision.confidence >= StrictLocal(cfg.settings) || o.local.value.consensus)
  {
    hide IsRun;
    var n, earlier := OutcomeHasASpan(cfg, run, camera, clock, o);
    BooksOfRun(cfg, run[..n], camera);
    AcceptedOutcomesAreSound(cfg, camera, EventsOf(run[..n]), earlier, o);
  }
}

/** What becomes of every candidate offered to the fusion coordinator: at most one waits per camera, an offer
    yields at most two outcomes, pairs are fresh, and no candidate is lost or used twice. */
module HybridLedger {
  import opened Options
  import opened Hybrid
  import opened HybridRuns

  /** At most one candidate waits, in the slot of its own source. */
  ghost predicate Settled(lane: Lane)
  {
    && (lane.native.None? || lane.local.None?)
    && (lane.native.Some? ==> lane.native.value.source == Native)
    && (lane.local.Some? ==> lane.local.value.source == FastAlpr)
  }

  /** One of the two is the candidate just offered, and the other has not waited longer than the pair window. */
  ghost predicate FreshPair(cfg: Config, o: Outcome, c: Candidate, now: real)
    requires o.Paired()
  {
    || (o.native == Some(c) && now - o.local.value.at <= cfg.pairWindowSeconds)
    || (o.local == Some(c) && now - o.native.value.at <= cfg.pairWindowSeconds)
  }

  lemma StaleShape(cfg: Config, camera: int, lane: Lane, first: Source, now: real, r: Result)
    requires Settled(lane) && r == DecideStale(cfg, camera, lane, first, now)
    ensures Settled(r.lane) && |r.outs| <= 1
    ensures forall o | o in r.outs :: !o.Paired()
    ensures r.outs == [] ==> r.lane == lane
    ensures r.outs != [] ==> r.lane.native.None? && r.lane.local.None?
    ensures forall s :: Slot(r.lane, s).Some? ==>
              Slot(r.lane, s) == Slot(lane, s) && now - Slot(r.lane, s).value.at <= cfg.pairWindowSeconds
  {
  }

  /** An offer to a settled lane leaves it settled, with at most two outcomes; only a fresh pair is paired,
      and what it overwrites is an older candidate of the same source that was still fresh. */
  lemma OfferShape(cfg: Config, camera: int, lane: Lane, c: Candidate, now: real, available: bool, r: Result)
    requires Settled(lane) && r == OfferLane(cfg, camera, lane, c, now, available)
    ensures Settled(r.lane) && |r.outs| <= 2
    ensures forall o | o in r.outs && o.Paired() :: FreshPair(cfg, o, c, now)
    ensures Slot(r.lane, c.source) in {None, Some(c)} && Slot(r.lane, Other(c.source)).None?
    ensures var lost := Overwritten(cfg, camera, lane, c, now);
            forall x | x in lost :: Slot(lane, c.source) == Some(x) && now - x.at <= cfg.pairWindowSeconds
  {
    var stale := DecideStale(cfg, camera, lane, c.source, now);
    StaleShape(cfg, camera, lane, c.source, now, stale);
    var put := WithSlot(stale.lane, c.source, Some(c));
    if Slot(put, Other(c.source)).Some? || !available {
      var t := Decide(cfg, camera, put, now);
      assert r.outs == stale.outs + t.outs;
      assert t.outs[0].native == put.native && t.outs[0].local == put.local;
    }
  }

  // ----- Exactly which outcomes come -----

  /** The one candidate a settled lane holds back. */
  function Pending(lane: Lane): Option<Candidate> { if lane.native.Some? then lane.native else lane.local }

  /** What an outcome carries: its camera reading and its local reading. */
  datatype Load = Load(native: Option<Candidate>, local: Option<Candidate>)

  function Alone(c: Candidate): Load { if c.source == Native then Load(Some(c), None) else Load(None, Some(c)) }

  function Together(c: Candidate, x: Candidate): Load
  {
    if c.source == Native then Load(Some(c), Some(x)) else Load(Some(x), Some(c))
  }

  function Loads(outs: seq<Outcome>): seq<Load> { seq(|outs|, i requires 0 <= i < |outs| => LoadOf(outs[i])) }

  function LoadOf(o: Outcome): Load { Load(o.native, o.local) }

  /** The waiting candidate is of the other source and has not waited past the pair window. */
  predicate Meets(cfg: Config, waiting: Option<Candidate>, c: Candidate, now: real)
  {
    waiting.Some? && waiting.value.source != c.source && now - waiting.value.at <= cfg.pairWindowSeconds
  }

  /** What an offer brings out: an older reading that waited past the pair window alone, then the new one with a
      reading of the other source that did not, or alone if no such reading can come. */
  function OfferLoads(cfg: Config, waiting: Option<Candidate>, c: Candidate, now: real, available: bool): seq<Load>
  {
    var late := waiting.Some? && now - waiting.value.at > cfg.pairWindowSeconds;
    (if late then [Alone(waiting.value)] else []) +
    (if Meets(cfg, waiting, c, now) then [Together(c, waiting.value)] else if !available then [Alone(c)] else [])
  }

  /** Every outcome is decided now, for this camera, from what it carries. */
  ghost predicate DecidedNow(cfg: Config, camera: int, outs: seq<Outcome>, now: real)
  {
    forall o | o in outs :: o.camera == camera && o.decidedAt == now && o.decision == Resolve(cfg, o.native, o.local)
  }

  lemma DecideLoads(cfg: Config, camera: int, lane: Lane, now: real, r: Result)
    requires r == Decide(cfg, camera, lane, now)
    ensures Loads(r.outs) == [Load(lane.native, lane.local)] && DecidedNow(cfg, camera, r.outs, now)
  {
  }

  lemma LoadsConcat(a: seq<Outcome>, b: seq<Outcome>)
    ensures Loads(a + b) == Loads(a) + Loads(b)
  {
  }

  lemma DecideIfLoads(cfg: Config, camera: int, lane: Lane, s: Source, now: real, due: bool, r: Result)
    requires Settled(lane) && (due ==> Slot(lane, s).Some?) && r == DecideIf(cfg, camera, lane, s, now, due)
    ensures Loads(r.outs) == (if due then [Alone(Slot(lane, s).value)] else []) && DecidedNow(cfg, camera, r.outs, now)
    ensures if due then r.lane.native.None? && r.lane.local.None? else r.lane == lane
  {
    if due {
      var alone := WithSlot(lane, Other(s), None);
      DecideLoads(cfg, camera, alone, now, Decide(cfg, camera, alone, now));
    }
  }

  /** Exactly what an offer to a settled lane decides, and what waits afterwards: the new candidate unless it was
      decided, and nothing else. */
  lemma OfferDecides(cfg: Config, camera: int, lane: Lane, c: Candidate, now: real, available: bool, r: Result)
    requires Settled(lane) && r == OfferLane(cfg, camera, lane, c, now, available)
    ensures Loads(r.outs) == OfferLoads(cfg, Pending(lane), c, now, available)
    ensures DecidedNow(cfg, camera, r.outs, now)
    ensures Pending(r.lane) == if Meets(cfg, Pending(lane), c, now) || !available then None else Some(c)
  {
    hide Resolve, Conclude, DecidedNow, Loads;
    var first, second := c.source, Other(c.source);
    var a := DecideIf(cfg, camera, lane, first, now, Stale(cfg, lane, first, now));
    DecideIfLoads(cfg, camera, lane, first, now, Stale(cfg, lane, first, now), a);
    var b := DecideIf(cfg, camera, a.lane, second, now, Stale(cfg, a.lane, second, now));
    DecideIfLoads(cfg, camera, a.lane, second, now, Stale(cfg, a.lane, second, now), b);
    LoadsConcat(a.outs, b.outs);
    DecidedConcat(cfg, camera, a.outs, b.outs, now);
    var put := WithSlot(b.lane, c.source, Some(c));
    NothingLoaded(cfg, camera, now);
    if Slot(put, Other(c.source)).Some? || !available {
      var t := Decide(cfg, camera, put, now);
      DecideEmpties(cfg, camera, put, now);
      DecideLoads(cfg, camera, put, now, t);
      LoadsConcat(a.outs + b.outs, t.outs);
      DecidedConcat(cfg, camera, a.outs + b.outs, t.outs, now);
    }
  }

  lemma DecideEmpties(cfg: Config, camera: int, lane: Lane, now: real)
    ensures var r := Decide(cfg, camera, lane, now); r.lane.native.None? && r.lane.local.None?
  {
  }

  lemma NothingLoaded(cfg: Config, camera: int, now: real)
    ensures Loads([]) == [] && DecidedNow(cfg, camera, [], now)
  {
  }

  lemma DecidedConcat(cfg: Config, camera: int, a: seq<Outcome>, b: seq<Outcome>, now: real)
    requires DecidedNow(cfg, camera, a, now) && DecidedNow(cfg, camera, b, now)
    ensures DecidedNow(cfg, camera, a + b, now)
  {
  }

  /** Exactly what a flush decides: the pending candidate, alone, once it has waited its time. */
  lemma FlushDecides(cfg: Config, camera: int, lane: Lane, now: real, r: Result)
    requires Settled(lane) && r == FlushLane(cfg, camera, lane, now)
    ensures var waiting := Pending(lane);
            var due := waiting.Some? && now - waiting.value.at >= cfg.waitSeconds;
            && Loads(r.outs) == (if due then [Alone(waiting.value)] else [])
            && Pending(r.lane) == if due then None else waiting
    ensures DecidedNow(cfg, camera, r.outs, now)
  {
    hide Resolve, Conclude, DecidedNow, Loads;
    var a := DecideIf(cfg, camera, lane, Native, now, Overdue(cfg, lane, Native, now));
    DecideIfLoads(cfg, camera, lane, Native, now, Overdue(cfg, lane, Native, now), a);
    var b := DecideIf(cfg, camera, a.lane, FastAlpr, now, Overdue(cfg, a.lane, FastAlpr, now));
    DecideIfLoads(cfg, camera, a.lane, FastAlpr, now, Overdue(cfg, a.lane, FastAlpr, now), b);
    LoadsConcat(a.outs, b.outs);
    DecidedConcat(cfg, camera, a.outs, b.outs, now);
  }

  // ----- And over runs -----

  /** A flush decides at most one candidate of a settled lane, alone, and nothing that is left has waited
      out its time. */
  lemma FlushShape(cfg: Config, camera: int, lane: Lane, now: real, r: Result)
    requires Settled(lane) && r == FlushLane(cfg, camera, lane, now)
    ensures Settled(r.lane) && |r.outs| <= 1
    ensures forall o | o in r.outs :: !o.Paired()
    ensures forall s :: Slot(r.lane, s).Some? ==> now - Slot(r.lane, s).value.at < cfg.waitSeconds
  {
  }

  /** Every reachable lane is settled. */
  lemma {:induction false} AlwaysSettled(cfg: Config, camera: int, events: seq<Event>)
    ensures Settled(Books(cfg, camera, events).lane)
  {
    if events != [] {
      var rest, e := events[..|events| - 1], events[|events| - 1];
      var p := Books(cfg, camera, rest);
      AlwaysSettled(cfg, camera, rest);
      match e
      case Offer(k, c, now, available) =>
        if k == camera {
          OfferShape(cfg, camera, p.lane, c, now, available, OfferLane(cfg, camera, p.lane, c, now, available));
        }
      case Flush(now) => FlushShape(cfg, camera, p.lane, now, FlushLane(cfg, camera, p.lane, now));
      case Reset(k) =>
      case ResetAll =>
    }
  }

  /** So in any run of the coordinator, an offer returns at most two outcomes and pairs only fresh readings. */
  lemma OffersOverRuns(cfg: Config, run: seq<Moment>)
    requires IsRun(cfg, run) && run != [] && run[|run| - 1].event.Offer?
    ensures var m := run[|run| - 1];
            var own := Of(m.outs, m.event.camera);
            && |own| <= 2
            && (forall o | o in own && o.Paired() :: FreshPair(cfg, o, m.event.candidate, m.event.now))
            && Settled(LaneAt(m.lanes, m.event.camera))
    ensures var m := run[|run| - 1];
            var e, own := m.event, Of(m.outs, m.event.camera);
            var waiting := Pending(LaneAt(LanesAfter(run[..|run| - 1]), e.camera));
            && Loads(own) == OfferLoads(cfg, waiting, e.candidate, e.now, e.available)
            && DecidedNow(cfg, e.camera, own, e.now)
            && Pending(LaneAt(m.lanes, e.camera)) ==
               if Meets(cfg, waiting, e.candidate, e.now) || !e.available then None else Some(e.candidate)
  {
    hide Loads, OfferLoads, Meets, DecidedNow, OfferLane;
    var rest, m := run[..|run| - 1], run[|run| - 1];
    var camera, e := m.event.camera, m.event;
    CoordinatorRunsLanes(cfg, rest, camera);
    BooksFollowLane(cfg, camera, EventsOf(rest));
    AlwaysSettled(cfg, camera, EventsOf(rest));
    assert LaneObeys(cfg, LanesAfter(rest), m.event, m.lanes, m.outs, camera);
    var lane := LaneAt(LanesAfter(rest), camera);
    OfferShape(cfg, camera, lane, e.candidate, e.now, e.available,
               OfferLane(cfg, camera, lane, e.candidate, e.now, e.available));
    OfferDecides(cfg, camera, lane, e.candidate, e.now, e.available,
                 OfferLane(cfg, camera, lane, e.candidate, e.now, e.available));
  }

  /** And a flush leaves no candidate of any camera that has waited out its time, and pairs none. */
  lemma FlushesOverRuns(cfg: Config, run: seq<Moment>, camera: int)
    requires IsRun(cfg, run) && run != [] && run[|run| - 1].event.Flush?
    ensures var m := run[|run| - 1];
            var lane := LaneAt(m.lanes, camera);
            && |Of(m.outs, camera)| <= 1 && (forall o | o in Of(m.outs, camera) :: !o.Paired()) && Settled(lane)
            && forall s :: Slot(lane, s).Some? ==> m.event.now - Slot(lane, s).value.at < cfg.waitSeconds
    ensures var m, waiting := run[|run| - 1], Pending(LaneAt(LanesAfter(run[..|run| - 1]), camera));
            var due := waiting.Some? && m.event.now - waiting.value.at >= cfg.waitSeconds;
            && Loads(Of(m.outs, camera)) == (if due then [Alone(waiting.value)] else [])
            && Pending(LaneAt(m.lanes, camera)) == if due then None else waiting
  {
    hide Loads, DecidedNow, FlushLane;
    var rest, m := run[..|run| - 1], run[|run| - 1];
    CoordinatorRunsLanes(cfg, rest, camera);
    BooksFollowLane(cfg, camera, EventsOf(rest));
    AlwaysSettled(cfg, camera, EventsOf(rest));
    assert LaneObeys(cfg, LanesAfter(rest), m.event, m.lanes, m.outs, camera);
    var lane := LaneAt(LanesAfter(rest), camera);
    FlushShape(cfg, camera, lane, m.event.now, FlushLane(cfg, camera, lane, m.event.now));
    FlushDecides(cfg, camera, lane, m.event.now, FlushLane(cfg, camera, lane, m.event.now));
  }

  // ----- Conservation -----

  /** How often a candidate occurs in a slot, in both slots, in a list, in the outcomes. */
  function InSlot(c: Option<Candidate>, x: Candidate): nat { if c == Some(x) then 1 else 0 }

  function Waiting(lane: Lane, x: Candidate): nat { InSlot(lane.native, x) + InSlot(lane.local, x) }

  function Times(s: seq<Candidate>, x: Candidate): nat
  {
    if s == [] then 0 else Times(s[..|s| - 1], x) + if s[|s| - 1] == x then 1 else 0
  }

  function Used(outs: seq<Outcome>, x: Candidate): nat
  {
    if outs == [] then 0
    else Used(outs[..|outs| - 1], x) + InSlot(outs[|outs| - 1].native, x) + InSlot(outs[|outs| - 1].local, x)
  }

  lemma {:induction false} UsedConcat(a: seq<Outcome>, b: seq<Outcome>, all: seq<Outcome>, x: Candidate)
    requires all == a + b
    ensures Used(all, x) == Used(a, x) + Used(b, x)
  {
    if b == [] {
      assert all == a;
    } else {
      var c := b[..|b| - 1];
      UsedConcat(a, c, a + c, x);
      assert all[..|all| - 1] == a + c && all[|all| - 1] == b[|b| - 1];
    }
  }

  lemma TimesOfListed(s: seq<Candidate>, c: Option<Candidate>, all: seq<Candidate>, x: Candidate)
    requires all == s + Listed(c)
    ensures Times(all, x) == Times(s, x) + InSlot(c, x)
  {
    if c.Some? {
      assert all[..|all| - 1] == s;
    } else {
      assert all == s;
    }
  }

  lemma UsedOne(outs: seq<Outcome>, x: Candidate)
    requires |outs| == 1
    ensures Used(outs, x) == InSlot(outs[0].native, x) + InSlot(outs[0].local, x)
  {
    assert outs[..0] == [];
  }

  lemma DecideConserves(cfg: Config, camera: int, lane: Lane, now: real, r: Result, x: Candidate)
    requires r == Decide(cfg, camera, lane, now)
    ensures Used(r.outs, x) == Waiting(lane, x) && Waiting(r.lane, x) == 0
  {
    UsedOne(r.outs, x);
  }

  lemma SlotConserves(cfg: Config, camera: int, lane: Lane, s: Source, now: real, due: bool, r: Result, x: Candidate)
    requires r == DecideIf(cfg, camera, lane, s, now, due)
    ensures Used(r.outs, x) + Waiting(r.lane, x) == Waiting(lane, x)
  {
    if due {
      var alone := WithSlot(lane, Other(s), None);
      DecideConserves(cfg, camera, alone, now, Decide(cfg, camera, alone, now), x);
    }
  }

  lemma TwoSlotsConserve(cfg: Config, camera: int, lane: Lane, s: Source, now: real, due: bool, r: Result,
                         due': bool, t: Result, x: Candidate)
    requires r == DecideIf(cfg, camera, lane, s, now, due) && t == DecideIf(cfg, camera, r.lane, Other(s), now, due')
    ensures Used(r.outs + t.outs, x) + Waiting(t.lane, x) == Waiting(lane, x)
  {
    SlotConserves(cfg, camera, lane, s, now, due, r, x);
    SlotConserves(cfg, camera, r.lane, Other(s), now, due', t, x);
    UsedConcat(r.outs, t.outs, r.outs + t.outs, x);
  }

  lemma StaleConserves(cfg: Config, camera: int, lane: Lane, first: Source, now: real, r: Result, x: Candidate)
    requires r == DecideStale(cfg, camera, lane, first, now)
    ensures Used(r.outs, x) + Waiting(r.lane, x) == Waiting(lane, x)
  {
    var t := DecideIf(cfg, camera, lane, first, now, Stale(cfg, lane, first, now));
    var u := DecideIf(cfg, camera, t.lane, Other(first), now, Stale(cfg, t.lane, Other(first), now));
    TwoSlotsConserve(cfg, camera, lane, first, now, Stale(cfg, lane, first, now), t,
                     Stale(cfg, t.lane, Other(first), now), u, x);
  }

  lemma FlushConserves(cfg: Config, camera: int, lane: Lane, now: real, r: Result, x: Candidate)
    requires r == FlushLane(cfg, camera, lane, now)
    ensures Used(r.outs, x) + Waiting(r.lane, x) == Waiting(lane, x)
  {
    var t := DecideIf(cfg, camera, lane, Native, now, Overdue(cfg, lane, Native, now));
    var u := DecideIf(cfg, camera, t.lane, FastAlpr, now, Overdue(cfg, t.lane, FastAlpr, now));
    TwoSlotsConserve(cfg, camera, lane, Native, now, Overdue(cfg, lane, Native, now), t,
                     Overdue(cfg, t.lane, FastAlpr, now), u, x);
  }

  lemma OfferConserves(cfg: Config, camera: int, lane: Lane, c: Candidate, now: real, available: bool, r: Result,
                       stale: Result, x: Candidate)
    requires stale == DecideStale(cfg, camera, lane, c.source, now)
    requires r == OfferLane(cfg, camera, lane, c, now, available)
    ensures Used(r.outs, x) + Waiting(r.lane, x) + InSlot(Slot(stale.lane, c.source), x) ==
            Waiting(lane, x) + InSlot(Some(c), x)
  {
    StaleConserves(cfg, camera, lane, c.source, now, stale, x);
    var put := WithSlot(stale.lane, c.source, Some(c));
    if Slot(put, Other(c.source)).Some? || !available {
      var t := Decide(cfg, camera, put, now);
      DecideConserves(cfg, camera, put, now, t, x);
      UsedConcat(stale.outs, t.outs, r.outs, x);
    }
  }

  lemma OfferBalances(cfg: Config, camera: int, p: Book, b: Book, c: Candidate, now: real, available: bool,
                      x: Candidate)
    requires b == BookStep(cfg, camera, p, Offer(camera, c, now, available))
    requires Times(p.offered, x) == Used(p.since, x) + Waiting(p.lane, x) + Times(p.replaced, x)
    ensures Times(b.offered, x) == Used(b.since, x) + Waiting(b.lane, x) + Times(b.replaced, x)
  {
    var r := OfferLane(cfg, camera, p.lane, c, now, available);
    var stale := DecideStale(cfg, camera, p.lane, c.source, now);
    OfferConserves(cfg, camera, p.lane, c, now, available, r, stale, x);
    UsedConcat(p.since, r.outs, b.since, x);
    TimesOfListed(p.offered, Some(c), b.offered, x);
    TimesOfListed(p.replaced, Slot(stale.lane, c.source), b.replaced, x);
  }

  /** Every candidate offered since the last reset is in exactly one outcome, still waiting, or overwritten
      by a later one: as many times as it was offered, and no more. */
  lemma {:induction false} CandidatesAreConserved(cfg: Config, camera: int, events: seq<Event>, b: Book, x: Candidate)
    requires b == Books(cfg, camera, events)
    ensures Times(b.offered, x) == Used(b.since, x) + Waiting(b.lane, x) + Times(b.replaced, x)
    decreases |events|
  {
    if events != [] {
      var rest, e := events[..|events| - 1], events[|events| - 1];
      var p := Books(cfg, camera, rest);
      CandidatesAreConserved(cfg, camera, rest, p, x);
      match e
      case Offer(k, c, now, available) =>
        if k == camera {
          OfferBalances(cfg, camera, p, b, c, now, available, x);
        }
      case Flush(now) =>
        var r := FlushLane(cfg, camera, p.lane, now);
        FlushConserves(cfg, camera, p.lane, now, r, x);
        UsedConcat(p.since, r.outs, b.since, x);
      case Reset(k) =>
      case ResetAll =>
    }
  }

  /** What was offered to one camera of the coordinator since its last reset. */
  function OfferedSinceReset(run: seq<Moment>, camera: int): seq<Candidate>
  {
    if run == [] || Resets(run[|run| - 1].event, camera) then []
    else
      var e := run[|run| - 1].event;
      OfferedSinceReset(run[..|run| - 1], camera) + if e.Offer? && e.camera == camera then [e.candidate] else []
  }

  /** What later offers of the same source overwrote there. */
  function ReplacedSinceReset(cfg: Config, run: seq<Moment>, camera: int): seq<Candidate>
  {
    if run == [] || Resets(run[|run| - 1].event, camera) then []
    else
      var rest, e := run[..|run| - 1], run[|run| - 1].event;
      ReplacedSinceReset(cfg, rest, camera) +
      if e.Offer? && e.camera == camera then
        Overwritten(cfg, camera, LaneAt(LanesAfter(rest), camera), e.candidate, e.now)
      else []
  }

  lemma LedgerStep(cfg: Config, camera: int, b: Book, e: Event, after: Book)
    requires after == BookStep(cfg, camera, b, e)
    ensures Resets(e, camera) ==> after.offered == [] && after.replaced == []
    ensures !Resets(e, camera) && e.Offer? && e.camera == camera ==>
              after.offered == b.offered + [e.candidate] &&
              after.replaced == b.replaced + Overwritten(cfg, camera, b.lane, e.candidate, e.now)
    ensures !Resets(e, camera) && !(e.Offer? && e.camera == camera) ==>
              after.offered == b.offered && after.replaced == b.replaced
  {
    hide Overwritten, OfferLane, FlushLane;
  }

  lemma {:induction false} LedgerOfRun(cfg: Config, run: seq<Moment>, camera: int)
    requires IsRun(cfg, run)
    ensures Books(cfg, camera, EventsOf(run)).offered == OfferedSinceReset(run, camera)
    ensures Books(cfg, camera, EventsOf(run)).replaced == ReplacedSinceReset(cfg, run, camera)
  {
    hide Overwritten, BookStep, Obeys;
    if run != [] {
      var rest, e := run[..|run| - 1], run[|run| - 1].event;
      LedgerOfRun(cfg, rest, camera);
      BooksOfRun(cfg, rest, camera);
      assert EventsOf(run)[..|EventsOf(run)| - 1] == EventsOf(rest);
      LedgerStep(cfg, camera, Books(cfg, camera, EventsOf(rest)), e, Books(cfg, camera, EventsOf(run)));
    }
  }

  /** Over every run of the coordinator each candidate offered since the last reset is used, waits or was
      overwritten, as many times as it was offered. */
  lemma ConservationOverRuns(cfg: Config, run: seq<Moment>, camera: int, x: Candidate)
    requires IsRun(cfg, run)
    ensures Times(OfferedSinceReset(run, camera), x) ==
            Used(OutcomesSinceReset(run, camera), x) + Waiting(LaneAt(LanesAfter(run), camera), x) +
            Times(ReplacedSinceReset(cfg, run, camera), x)
  {
    BooksOfRun(cfg, run, camera);
    LedgerOfRun(cfg, run, camera);
    CandidatesAreConserved(cfg, camera, EventsOf(run), Books(cfg, camera, EventsOf(run)), x);
  }
}

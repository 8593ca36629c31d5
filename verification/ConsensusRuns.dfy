/** Whole runs of one consensus track: the window against the full history, what every publication
    rests on, when a plate may be published again, and how an empty lane clears the track. */
module ConsensusRuns {
  import opened Options
  import opened PlateText
  import opened PlateSimilarity
  import opened TextOrder
  import opened Voting
  import opened Consensus

  datatype Moment = Moment(event: Event, after: Track, decision: Decision)

  function Before(run: seq<Moment>, i: nat): Track
    requires i <= |run|
  {
    if i == 0 then FRESH else run[i - 1].after
  }

  ghost predicate Legal(cfg: Config, run: seq<Moment>, i: nat)
    requires i < |run|
  {
    Step(cfg, Before(run, i), run[i].event, run[i].after, run[i].decision)
  }

  ghost predicate IsRun(cfg: Config, run: seq<Moment>)
  {
    forall i | 0 <= i < |run| :: Legal(cfg, run, i)
  }

  ghost predicate MonotoneClock(run: seq<Moment>)
  {
    forall i, j | 0 <= i < j < |run| && run[i].event.Read? && run[j].event.Read? :: run[i].event.now <= run[j].event.now
  }

  predicate PlateRead(e: Event) { e.Read? && Normalize(e.plate) != [] }

  predicate EmptyReadEvent(e: Event) { e.Read? && Normalize(e.plate) == [] }

  function ReadingOf(e: Event): Reading
    requires e.Read?
  {
    Reading(Normalize(e.plate), Clamp(e.confidence), e.now)
  }

  lemma RunIsLegal(cfg: Config, run: seq<Moment>, n: nat)
    requires IsRun(cfg, run) && n < |run|
    ensures Legal(cfg, run, n)
  {
  }

  // ----- Visits and empty lanes, by events and times alone -----

  /** Event k is the last read before n, empty or not. */
  ghost predicate LastRead(run: seq<Moment>, k: int, n: nat)
    requires n <= |run|
  {
    0 <= k < n && run[k].event.Read? && forall m | k < m < n :: !run[m].event.Read?
  }

  /** A read arrives anew unless the read before it came at most the window ago. */
  ghost predicate ArrivesAnew(cfg: Config, run: seq<Moment>, n: nat)
    requires n < |run| && run[n].event.Read?
  {
    forall k | LastRead(run, k, n) :: !(0.0 <= run[n].event.now - run[k].event.now <= cfg.windowSeconds)
  }

  /** Event i is an empty read, and no plate has been read from there up to n. */
  ghost predicate EmptySinceRead(run: seq<Moment>, i: int, n: nat)
    requires n <= |run|
  {
    0 <= i < n && EmptyReadEvent(run[i].event) && forall k | i <= k < n :: !PlateRead(run[k].event)
  }

  /** With empty read n the lane has read empty for the reset time. */
  ghost predicate EmptyLong(cfg: Config, run: seq<Moment>, n: nat)
    requires n < |run|
  {
    && EmptyReadEvent(run[n].event)
    && exists i :: EmptySinceRead(run, i, n + 1) && run[n].event.now - run[i].event.now >= cfg.absenceResetSeconds
  }

  lemma ReadStep(cfg: Config, run: seq<Moment>, n: nat)
    requires IsRun(cfg, run) && n < |run|
    ensures Before(run, n + 1).lastReadAt ==
            if run[n].event.Read? then Some(run[n].event.now) else Before(run, n).lastReadAt
  {
    RunIsLegal(cfg, run, n);
  }

  lemma {:induction false} LastReadIsKept(cfg: Config, run: seq<Moment>, n: nat)
    requires IsRun(cfg, run) && n <= |run|
    ensures forall k | LastRead(run, k, n) :: Before(run, n).lastReadAt == Some(run[k].event.now)
    ensures Before(run, n).lastReadAt.Some? ==> exists k :: LastRead(run, k, n)
  {
    if n > 0 {
      hide IsRun;
      LastReadIsKept(cfg, run, n - 1);
      ReadStep(cfg, run, n - 1);
      if run[n - 1].event.Read? {
        assert LastRead(run, n - 1, n);
        forall k | LastRead(run, k, n)
          ensures k == n - 1
        {
        }
      } else {
        forall k | LastRead(run, k, n)
          ensures Before(run, n).lastReadAt == Some(run[k].event.now)
        {
          assert LastRead(run, k, n - 1);
        }
        var m := n - 1;
        if k :| LastRead(run, k, m) {
          assert LastRead(run, k, n);
        }
      }
    }
  }

  lemma ArrivalStartsVisit(cfg: Config, run: seq<Moment>, n: nat)
    requires IsRun(cfg, run) && n < |run| && run[n].event.Read?
    ensures StartsVisit(cfg, Before(run, n), run[n].event.now) <==> ArrivesAnew(cfg, run, n)
  {
    hide IsRun;
    LastReadIsKept(cfg, run, n);
  }

  /** The track remembers the earliest time of the empty reads since the last plate. */
  ghost predicate EarliestEmpty(run: seq<Moment>, n: nat, since: Option<real>)
    requires n <= |run|
  {
    && (forall i | EmptySinceRead(run, i, n) :: since.Some? && since.value <= run[i].event.now)
    && (since.Some? ==> exists i :: EmptySinceRead(run, i, n) && run[i].event.now == since.value)
  }

  lemma AbsenceStep(cfg: Config, run: seq<Moment>, n: nat)
    requires IsRun(cfg, run) && n < |run|
    ensures var e, before, after := run[n].event, Before(run, n).absenceSince, Before(run, n + 1).absenceSince;
            after == if PlateRead(e) then None
                     else if EmptyReadEvent(e) then Some(EmptySince(Before(run, n), e.now)) else before
  {
    RunIsLegal(cfg, run, n);
  }

  lemma {:induction false} AbsenceIsKept(cfg: Config, run: seq<Moment>, n: nat)
    requires IsRun(cfg, run) && n <= |run|
    ensures EarliestEmpty(run, n, Before(run, n).absenceSince)
  {
    hide IsRun;
    if n > 0 {
      AbsenceIsKept(cfg, run, n - 1);
      AbsenceStep(cfg, run, n - 1);
      var e, before, after := run[n - 1].event, Before(run, n - 1).absenceSince, Before(run, n).absenceSince;
      if EmptyReadEvent(e) {
        EmptyReadAdds(run, n, before, after);
      } else if !PlateRead(e) {
        assert forall i :: EmptySinceRead(run, i, n) <==> EmptySinceRead(run, i, n - 1);
      }
    }
  }

  lemma EmptyReadAdds(run: seq<Moment>, n: nat, before: Option<real>, after: Option<real>)
    requires 0 < n <= |run| && EmptyReadEvent(run[n - 1].event) && EarliestEmpty(run, n - 1, before)
    requires var now := run[n - 1].event.now;
             after == Some(if before.None? || now < before.value then now else before.value)
    ensures EarliestEmpty(run, n, after)
  {
    assert EmptySinceRead(run, n - 1, n);
    assert forall i :: EmptySinceRead(run, i, n) <==> EmptySinceRead(run, i, n - 1) || i == n - 1;
    if before.Some? {
      var i :| EmptySinceRead(run, i, n - 1) && run[i].event.now == before.value;
      assert EmptySinceRead(run, i, n);
    }
  }

  /** An empty read clears the lane exactly when it has read empty for the reset time. */
  lemma ClearedWhenEmptyLong(cfg: Config, run: seq<Moment>, n: nat)
    requires IsRun(cfg, run) && n < |run| && EmptyReadEvent(run[n].event)
    ensures LaneCleared(cfg, Before(run, n), run[n].event.now) <==> EmptyLong(cfg, run, n)
  {
    hide IsRun;
    AbsenceIsKept(cfg, run, n);
    var since := Before(run, n).absenceSince;
    var now := run[n].event.now;
    EmptyReadAdds(run, n + 1, since, Some(EmptySince(Before(run, n), now)));
  }

  /** What an empty read does to the readings and the publication, by events and times alone. */
  lemma EmptyReadForgets(cfg: Config, run: seq<Moment>, n: nat)
    requires IsRun(cfg, run) && n < |run| && EmptyReadEvent(run[n].event)
    ensures var before, after := Before(run, n), run[n].after;
            if EmptyLong(cfg, run, n) then after.readings == [] && after.publishedPlate == ""
            else && after.readings == before.readings && after.publishedPlate == before.publishedPlate
                 && after.publishedAt == before.publishedAt && after.publishedVisit == before.publishedVisit
  {
    hide IsRun, LaneCleared;
    RunIsLegal(cfg, run, n);
    ClearedWhenEmptyLong(cfg, run, n);
  }

  /** When the visit that is current after n events started; -1 before the first one. */
  ghost function VisitStart(cfg: Config, run: seq<Moment>, n: nat): real
    requires n <= |run|
  {
    if n == 0 then -1.0
    else
      var e := run[n - 1].event;
      if (PlateRead(e) && ArrivesAnew(cfg, run, n - 1)) || EmptyLong(cfg, run, n - 1) then e.now
      else VisitStart(cfg, run, n - 1)
  }

  lemma VisitStep(cfg: Config, run: seq<Moment>, n: nat)
    requires IsRun(cfg, run) && n < |run|
    ensures var e, st := run[n].event, Before(run, n);
            Before(run, n + 1).visitStartedAt ==
            if (PlateRead(e) && StartsVisit(cfg, st, e.now)) || (EmptyReadEvent(e) && LaneCleared(cfg, st, e.now))
            then e.now else st.visitStartedAt
  {
    RunIsLegal(cfg, run, n);
  }

  lemma {:induction false} VisitIsKept(cfg: Config, run: seq<Moment>, n: nat)
    requires IsRun(cfg, run) && n <= |run|
    ensures Before(run, n).visitStartedAt == VisitStart(cfg, run, n)
  {
    hide IsRun, LaneCleared, StartsVisit, ArrivesAnew, EmptyLong;
    if n > 0 {
      VisitIsKept(cfg, run, n - 1);
      VisitStep(cfg, run, n - 1);
      var e := run[n - 1].event;
      if EmptyReadEvent(e) {
        ClearedWhenEmptyLong(cfg, run, n - 1);
      } else {
        OnlyEmptyReadsClear(cfg, run, n - 1);
        if PlateRead(e) {
          ArrivalStartsVisit(cfg, run, n - 1);
        }
      }
    }
  }

  lemma OnlyEmptyReadsClear(cfg: Config, run: seq<Moment>, n: nat)
    requires n < |run| && !EmptyReadEvent(run[n].event)
    ensures !EmptyLong(cfg, run, n)
  {
  }

  // ----- The pruned window against the full history of the visit -----

  /** Every plate read of the current visit after n events; nothing is ever pruned from it. */
  ghost function VisitLog(cfg: Config, run: seq<Moment>, n: nat): seq<Reading>
    requires n <= |run|
  {
    if n == 0 then []
    else
      var log, e := VisitLog(cfg, run, n - 1), run[n - 1].event;
      if PlateRead(e) then (if ArrivesAnew(cfg, run, n - 1) then [] else log) + [ReadingOf(e)]
      else if EmptyLong(cfg, run, n - 1) then []
      else log
  }

  ghost predicate SortedByTime(rs: seq<Reading>)
  {
    forall i, j | 0 <= i <= j < |rs| :: rs[i].at <= rs[j].at
  }

  lemma {:induction false} RecentTwice(rs: seq<Reading>, earlier: real, later: real, window: real)
    requires earlier <= later
    ensures Recent(Recent(rs, earlier, window), later, window) == Recent(rs, later, window)
  {
    if rs != [] {
      var rest, r := rs[..|rs| - 1], rs[|rs| - 1];
      RecentTwice(rest, earlier, later, window);
      if earlier - r.at <= window {
        assert (Recent(rest, earlier, window) + [r])[..|Recent(rest, earlier, window)|] ==
                  Recent(rest, earlier, window);
      } else {
        assert Recent(rs, earlier, window) == Recent(rest, earlier, window);
      }
    }
  }

  /** rs[k..] is what the window keeps of rs. */
  ghost predicate KeptFrom(rs: seq<Reading>, now: real, window: real, k: nat)
  {
    k <= |rs| &&
    (forall i | 0 <= i < k :: now - rs[i].at > window) &&
    (forall i | k <= i < |rs| :: now - rs[i].at <= window)
  }

  lemma {:induction false} KeepsSuffix(rs: seq<Reading>, now: real, window: real, k: nat)
    requires KeptFrom(rs, now, window, k)
    ensures Recent(rs, now, window) == rs[k..]
  {
    if k == |rs| {
      if rs != [] {
        KeepsSuffix(rs[..|rs| - 1], now, window, k - 1);
      }
    } else {
      var rest, r := rs[..|rs| - 1], rs[|rs| - 1];
      KeepsSuffix(rest, now, window, k);
      assert rs[k..] == rest[k..] + [r];
    }
  }

  /** In time order, the recent readings are a suffix. */
  lemma RecentIsSuffix(rs: seq<Reading>, now: real, window: real) returns (k: nat)
    requires SortedByTime(rs)
    ensures KeptFrom(rs, now, window, k) && Recent(rs, now, window) == rs[k..]
  {
    k := 0;
    while k < |rs| && now - rs[k].at > window
      invariant k <= |rs| && forall i | 0 <= i < k :: now - rs[i].at > window
    {
      k := k + 1;
    }
    KeepsSuffix(rs, now, window, k);
  }

  lemma DropThenPrune(rs: seq<Reading>, tail: seq<Reading>, now: real, window: real, most: nat, r: Reading,
                      dropped: seq<Reading>, pruned: seq<Reading>, k: nat)
    requires most >= 1 && tail == LastN(rs, most) && KeptFrom(rs, now, window, k)
    requires dropped == Recent(tail, now, window) && pruned == rs[k..]
    ensures LastN(dropped + [r], most) == LastN(pruned + [r], most)
  {
    hide Recent;
    var m := |rs| - |tail|;
    if k >= m {
      KeepsSuffix(tail, now, window, k - m);
      assert tail[k - m..] == rs[k..];
    } else {
      KeepsSuffix(tail, now, window, 0);
      ShorterHistory(rs, m, k, most, r);
    }
  }

  lemma ShorterHistory(rs: seq<Reading>, m: nat, k: nat, most: nat, r: Reading)
    requires k < m && m + most == |rs| && most >= 1
    ensures LastN(rs[m..][0..] + [r], most) == LastN(rs[k..] + [r], most)
  {
    var a, b := rs[m..][0..] + [r], rs[k..] + [r];
    assert a[1..] == rs[m + 1..] + [r];
    assert b[m - k + 1..] == rs[m + 1..] + [r];
  }

  /** The readings a track should hold, computed from the unpruned history. */
  function WindowOf(cfg: Config, log: seq<Reading>): seq<Reading>
  {
    if log == [] then [] else LastN(Recent(log, log[|log| - 1].at, cfg.windowSeconds), cfg.maxReads)
  }

  lemma SortedRecent(rs: seq<Reading>, now: real, window: real)
    requires SortedByTime(rs)
    ensures SortedByTime(Recent(rs, now, window))
  {
    var k := RecentIsSuffix(rs, now, window);
  }

  lemma WindowGrows(cfg: Config, log: seq<Reading>, r: Reading)
    requires cfg.maxReads >= 1 && cfg.windowSeconds >= 0.0
    requires SortedByTime(log + [r])
    ensures WindowOf(cfg, log + [r]) ==
            LastN(Recent(WindowOf(cfg, log), r.at, cfg.windowSeconds) + [r], cfg.maxReads)
  {
    var more := log + [r];
    assert more[..|more| - 1] == log;
    assert Recent(more, r.at, cfg.windowSeconds) == Recent(log, r.at, cfg.windowSeconds) + [r];
    if log != [] {
      var t := log[|log| - 1].at;
      assert more[|log| - 1].at == t <= more[|log|].at == r.at;
      assert SortedByTime(log) by {
        assert forall i | 0 <= i < |log| :: log[i] == more[i];
      }
      SortedRecent(log, t, cfg.windowSeconds);
      var rs := Recent(log, t, cfg.windowSeconds);
      var tail := LastN(rs, cfg.maxReads);
      var k := RecentIsSuffix(rs, r.at, cfg.windowSeconds);
      DropThenPrune(rs, tail, r.at, cfg.windowSeconds, cfg.maxReads, r,
                    Recent(tail, r.at, cfg.windowSeconds), rs[k..], k);
      RecentTwice(log, t, r.at, cfg.windowSeconds);
    }
  }

  ghost predicate NotAfter(rs: seq<Reading>, run: seq<Moment>, n: nat)
  {
    forall k, j | 0 <= k < |rs| && n <= j < |run| && run[j].event.Read? :: rs[k].at <= run[j].event.now
  }

  lemma ReadingsAfter(cfg: Config, run: seq<Moment>, i: nat)
    requires IsRun(cfg, run) && i < |run|
    ensures var e, kept := run[i].event, Before(run, i).readings;
            run[i].after.readings ==
            if PlateRead(e) then
              LastN(Recent(if ArrivesAnew(cfg, run, i) then [] else kept, e.now, cfg.windowSeconds) + [ReadingOf(e)],
                    cfg.maxReads)
            else if EmptyLong(cfg, run, i) then []
            else kept
  {
    hide IsRun, LaneCleared, StartsVisit, ArrivesAnew, EmptyLong, Recent;
    RunIsLegal(cfg, run, i);
    if EmptyReadEvent(run[i].event) {
      ClearedWhenEmptyLong(cfg, run, i);
    } else {
      OnlyEmptyReadsClear(cfg, run, i);
      if PlateRead(run[i].event) {
        ArrivalStartsVisit(cfg, run, i);
      }
    }
  }

  lemma LogGrows(cfg: Config, kept: seq<Reading>, r: Reading, readings: seq<Reading>)
    requires cfg.maxReads >= 1 && cfg.windowSeconds >= 0.0
    requires SortedByTime(kept) && forall k | 0 <= k < |kept| :: kept[k].at <= r.at
    requires readings == LastN(Recent(WindowOf(cfg, kept), r.at, cfg.windowSeconds) + [r], cfg.maxReads)
    ensures SortedByTime(kept + [r]) && readings == WindowOf(cfg, kept + [r])
  {
    WindowGrows(cfg, kept, r);
  }

  lemma {:induction false} LogInOrder(cfg: Config, run: seq<Moment>, n: nat, log: seq<Reading>)
    requires MonotoneClock(run) && n <= |run| && log == VisitLog(cfg, run, n)
    ensures SortedByTime(log) && NotAfter(log, run, n)
  {
    if n > 0 {
      var earlier, e := VisitLog(cfg, run, n - 1), run[n - 1].event;
      hide ArrivesAnew, EmptyLong;
      LogInOrder(cfg, run, n - 1, earlier);
      if PlateRead(e) {
        var kept: seq<Reading> := if ArrivesAnew(cfg, run, n - 1) then [] else earlier;
        assert forall k | 0 <= k < |kept| :: kept[k].at <= e.now;
        assert log == kept + [ReadingOf(e)];
      }
    }
  }

  /** After n events the track holds the window of the log. */
  lemma {:induction false} WindowInvariant(cfg: Config, run: seq<Moment>, n: nat, log: seq<Reading>)
    requires IsRun(cfg, run) && MonotoneClock(run) && n <= |run| && log == VisitLog(cfg, run, n)
    requires cfg.maxReads >= 1 && cfg.windowSeconds >= 0.0
    ensures Before(run, n).readings == WindowOf(cfg, log)
  {
    if n > 0 {
      var earlier, e := VisitLog(cfg, run, n - 1), run[n - 1].event;
      hide ArrivesAnew, EmptyLong;
      WindowInvariant(cfg, run, n - 1, earlier);
      ReadingsAfter(cfg, run, n - 1);
      if PlateRead(e) {
        LogInOrder(cfg, run, n - 1, earlier);
        var kept: seq<Reading> := if ArrivesAnew(cfg, run, n - 1) then [] else earlier;
        LogGrows(cfg, kept, ReadingOf(e), run[n - 1].after.readings);
      }
    }
  }

  /** After every plate read the track holds exactly the last maxReads plate reads of the current visit
      that lie within the window, counted over the whole history. */
  lemma {:induction false} WindowIsExact(cfg: Config, run: seq<Moment>, n: nat)
    requires IsRun(cfg, run) && MonotoneClock(run) && n < |run| && PlateRead(run[n].event)
    requires cfg.maxReads >= 1 && cfg.windowSeconds >= 0.0
    ensures run[n].after.readings ==
            LastN(Recent(VisitLog(cfg, run, n + 1), run[n].event.now, cfg.windowSeconds), cfg.maxReads)
  {
    WindowInvariant(cfg, run, n + 1, VisitLog(cfg, run, n + 1));
  }

  lemma {:induction false} ReadingsStayValid(cfg: Config, run: seq<Moment>, n: nat)
    requires IsRun(cfg, run) && n <= |run|
    ensures AreReadings(Before(run, n).readings)
  {
    if n > 0 {
      var e, st := run[n - 1].event, Before(run, n - 1);
      ReadingsStayValid(cfg, run, n - 1);
      ReadingsAfter(cfg, run, n - 1);
      if PlateRead(e) {
        RecentReadings(st.readings, e.now, cfg.windowSeconds);
        assert IsReading(ReadingOf(e));
      }
    }
  }

  lemma {:induction false} BestExactIsAttained(rs: seq<Reading>, plate: string)
    requires AreReadings(rs)
    ensures BestExact(rs, plate) >= 0.0
    ensures Exact(rs, plate) >= 1 ==> exists r :: r in rs && r.plate == plate && r.confidence == BestExact(rs, plate)
    ensures Exact(rs, plate) == 0 ==> BestExact(rs, plate) == 0.0
  {
    if rs != [] {
      var rest, last := rs[..|rs| - 1], rs[|rs| - 1];
      BestExactIsAttained(rest, plate);
      assert last in rs && IsReading(last);
      if Exact(rest, plate) >= 1 {
        var r :| r in rest && r.plate == plate && r.confidence == BestExact(rest, plate);
        assert r in rs;
      }
    }
  }

  /** Every publication names a plate read within that window, holding at least the minimum share and the
      best score, and rests on enough reads with enough identical ones, or on one allowed exact read of
      high confidence. */
  lemma PublicationIsJustified(cfg: Config, run: seq<Moment>, n: nat)
    requires IsRun(cfg, run) && MonotoneClock(run) && n < |run| && run[n].decision.publish
    requires cfg.maxReads >= 1 && cfg.windowSeconds >= 0.0
    ensures PlateRead(run[n].event)
    ensures var window := LastN(Recent(VisitLog(cfg, run, n + 1), run[n].event.now, cfg.windowSeconds), cfg.maxReads);
            var plate := run[n].decision.plate;
            && plate in Plates(window)
            && Share(window, cfg.similarity, plate) >= cfg.minShare
            && (forall c | c in Plates(window) ::
                  Score(window, c, cfg.similarity) <= Score(window, plate, cfg.similarity))
            && Evidence(cfg, window, plate, run[n].event.allowSingle)
  {
    assert Legal(cfg, run, n);
    WindowIsExact(cfg, run, n);
    var window, plate := run[n].after.readings, run[n].decision.plate;
    ReadingsStayValid(cfg, run, n + 1);
    EvidenceMeaning(cfg, window, plate, run[n].event.allowSingle);
    forall c | c in Plates(window)
      ensures Score(window, c, cfg.similarity) <= Score(window, plate, cfg.similarity)
    {
      assert RanksAtMost(window, cfg.similarity, c, plate);
    }
  }

  // ----- Publishing the same plate again -----

  /** Event n makes the track forget its publication: an explicit release, or a lane empty long enough. */
  ghost predicate Forgets(cfg: Config, run: seq<Moment>, n: nat)
    requires n < |run|
  {
    run[n].event.Release? || EmptyLong(cfg, run, n)
  }

  ghost predicate QuietBetween(cfg: Config, run: seq<Moment>, i: nat, j: nat)
    requires i < j <= |run|
  {
    forall k: nat | i < k < j :: !run[k].decision.publish && !Forgets(cfg, run, k)
  }

  /** What one event does to the publication. */
  lemma HoldStep(cfg: Config, run: seq<Moment>, n: nat)
    requires IsRun(cfg, run) && n < |run|
    ensures var before, after, m := Before(run, n), run[n].after, run[n];
            if m.decision.publish then
              && PlateRead(m.event) && after.publishedPlate == m.decision.plate && after.publishedAt == m.event.now
              && after.publishedVisit == after.visitStartedAt
            else if Forgets(cfg, run, n) then after.publishedPlate == ""
            else && after.publishedPlate == before.publishedPlate && after.publishedAt == before.publishedAt
                 && after.publishedVisit == before.publishedVisit
  {
    hide IsRun, EmptyLong, LaneCleared;
    RunIsLegal(cfg, run, n);
    if EmptyReadEvent(run[n].event) {
      EmptyReadForgets(cfg, run, n);
    } else {
      OnlyEmptyReadsClear(cfg, run, n);
    }
  }

  lemma {:induction false} HoldPersists(cfg: Config, run: seq<Moment>, i: nat, j: nat)
    requires IsRun(cfg, run) && i < j <= |run| && run[i].decision.publish && QuietBetween(cfg, run, i, j)
    ensures run[i].event.Read?
    ensures Before(run, j).publishedPlate == run[i].decision.plate
    ensures Before(run, j).publishedAt == run[i].event.now
    ensures Before(run, j).publishedVisit == run[i].after.visitStartedAt
  {
    hide IsRun, Forgets;
    HoldStep(cfg, run, j - 1);
    if j > i + 1 {
      HoldPersists(cfg, run, i, j - 1);
    }
  }

  /** Between two consecutive publications of one plate with no release between them, the visit has
      changed and at least the hold time has passed. */
  lemma RepublicationIsHeld(cfg: Config, run: seq<Moment>, i: nat, j: nat)
    requires IsRun(cfg, run) && i < j < |run| && QuietBetween(cfg, run, i, j)
    requires run[i].decision.publish && run[j].decision.publish && run[i].decision.plate == run[j].decision.plate
    ensures VisitStart(cfg, run, i + 1) != VisitStart(cfg, run, j + 1)
    ensures run[i].event.Read? && run[j].event.Read? && run[j].event.now - run[i].event.now >= cfg.holdSeconds
  {
    hide IsRun, QuietBetween, VisitStart, Convincing;
    HoldPersists(cfg, run, i, j);
    VisitIsKept(cfg, run, i + 1);
    VisitIsKept(cfg, run, j + 1);
    HoldStep(cfg, run, j);
    PublishStep(cfg, run, j);
  }

  /** A plate on hold was published before, with nothing published or forgotten since. */
  lemma {:induction false} HoldHasAPublication(cfg: Config, run: seq<Moment>, n: nat) returns (i: nat)
    requires IsRun(cfg, run) && n <= |run| && Before(run, n).publishedPlate != ""
    ensures i < n && run[i].decision.publish && QuietBetween(cfg, run, i, n)
    ensures run[i].decision.plate == Before(run, n).publishedPlate
  {
    hide IsRun, Forgets;
    HoldStep(cfg, run, n - 1);
    if run[n - 1].decision.publish {
      i := n - 1;
    } else {
      i := HoldHasAPublication(cfg, run, n - 1);
    }
  }

  /** Event i published the plate decided at n, and nothing has been published or forgotten since. */
  ghost predicate Remembered(cfg: Config, run: seq<Moment>, i: nat, n: nat)
    requires i < n < |run|
  {
    && run[i].decision.publish && run[i].event.Read? && run[i].decision.plate == run[n].decision.plate
    && QuietBetween(cfg, run, i, n)
  }

  /** Such a publication, in the same visit or less than the hold ago. */
  ghost predicate Blocks(cfg: Config, run: seq<Moment>, i: nat, n: nat)
    requires i < n < |run| && run[n].event.Read?
  {
    && Remembered(cfg, run, i, n)
    && (VisitStart(cfg, run, i + 1) == VisitStart(cfg, run, n + 1) ||
        run[n].event.now - run[i].event.now < cfg.holdSeconds)
  }

  /** One exact read of high confidence where that is allowed, or enough reads with enough identical ones. */
  ghost predicate Evidence(cfg: Config, rs: seq<Reading>, plate: string, allowSingle: bool)
  {
    || (allowSingle && exists r :: r in rs && r.plate == plate && r.confidence >= cfg.highConfidence)
    || (|rs| >= cfg.minReads && |PlacesOf(rs, plate)| >= cfg.minAgreeing)
  }

  /** The winner of these readings has the evidence and the share a publication takes. */
  ghost predicate Convincing(cfg: Config, rs: seq<Reading>, winner: string, allowSingle: bool)
  {
    Evidence(cfg, rs, winner, allowSingle) && Share(rs, cfg.similarity, winner) >= cfg.minShare
  }

  lemma {:induction false} BestExactIsMost(rs: seq<Reading>, plate: string)
    requires AreReadings(rs)
    ensures forall r | r in rs && r.plate == plate :: r.confidence <= BestExact(rs, plate) && Exact(rs, plate) >= 1
  {
    if rs != [] {
      BestExactIsMost(rs[..|rs| - 1], plate);
    }
  }

  lemma EvidenceMeaning(cfg: Config, rs: seq<Reading>, plate: string, allowSingle: bool)
    requires AreReadings(rs)
    ensures Evidence(cfg, rs, plate, allowSingle) <==>
            SingleReadSuffices(cfg, rs, plate, allowSingle) || EnoughReads(cfg, rs, plate)
  {
    hide BestExact, Exact, PlacesOf;
    ExactCounts(rs, plate);
    BestExactIsMost(rs, plate);
    BestExactIsAttained(rs, plate);
  }

  lemma WinnerIsNamed(cfg: Config, run: seq<Moment>, n: nat)
    requires IsRun(cfg, run) && n < |run| && PlateRead(run[n].event)
    ensures run[n].decision.plate != ""
  {
    assert Legal(cfg, run, n);
    ReadingsStayValid(cfg, run, n + 1);
  }

  /** What a decision reports besides: how many readings there are and how many name the winner, and their mean
      confidence, which lies between any bounds on them. */
  lemma DecisionReports(cfg: Config, run: seq<Moment>, n: nat, low: real, high: real)
    requires IsRun(cfg, run) && n < |run| && PlateRead(run[n].event)
    requires forall r | r in run[n].after.readings && r.plate == run[n].decision.plate :: low <= r.confidence <= high
    ensures var rs, d := run[n].after.readings, run[n].decision;
            && d.considered == |rs| && d.agreeing == |PlacesOf(rs, d.plate)| >= 1
            && d.confidence * d.agreeing as real == ExactWeight(rs, d.plate) && low <= d.confidence <= high
  {
    hide IsRun, ExactWeight, Exact, PlacesOf, Plates;
    var rs, d := run[n].after.readings, run[n].decision;
    DecisionFields(cfg, run, n);
    ExactCounts(rs, d.plate);
    ExactWeightBounds(rs, d.plate, low, high);
    WinnerIsRead(rs, d.plate);
    MeanBounds(ExactWeight(rs, d.plate), Exact(rs, d.plate), low, high);
  }

  lemma DecisionFields(cfg: Config, run: seq<Moment>, n: nat)
    requires IsRun(cfg, run) && n < |run| && PlateRead(run[n].event)
    ensures var rs, d := run[n].after.readings, run[n].decision;
            && d.plate in Plates(rs) && d.considered == |rs| && d.agreeing == Exact(rs, d.plate)
            && d.confidence == ExactWeight(rs, d.plate) / (if d.agreeing > 1 then d.agreeing else 1) as real
  {
    hide IsRun, Share, Recent, StartsVisit, Verdict, ExactWeight, Exact, Plates, RanksAtMost, IsTally;
    RunIsLegal(cfg, run, n);
  }

  lemma {:induction false} WinnerIsRead(rs: seq<Reading>, plate: string)
    requires plate in Plates(rs)
    ensures Exact(rs, plate) >= 1
  {
    if rs[|rs| - 1].plate != plate {
      var r :| r in rs && r.plate == plate;
      assert r in rs[..|rs| - 1];
      WinnerIsRead(rs[..|rs| - 1], plate);
    }
  }

  lemma MeanBounds(weight: real, count: nat, low: real, high: real)
    requires count >= 1 && low * count as real <= weight <= high * count as real
    ensures var mean := weight / (if count > 1 then count else 1) as real;
            low <= mean <= high && mean * count as real == weight
  {
    var k := count as real;
    var q := weight / k;
    assert q * k == weight;
  }

  /** The winner is on hold: published in this visit, or less than the hold time ago. */
  ghost predicate OnHold(cfg: Config, run: seq<Moment>, n: nat)
    requires n < |run| && run[n].event.Read?
  {
    var st := Before(run, n);
    && run[n].decision.plate == st.publishedPlate
    && (st.publishedVisit == run[n].after.visitStartedAt || run[n].event.now - st.publishedAt < cfg.holdSeconds)
  }

  lemma PublishStep(cfg: Config, run: seq<Moment>, n: nat)
    requires IsRun(cfg, run) && n < |run| && PlateRead(run[n].event)
    ensures run[n].decision.publish <==>
            && Convincing(cfg, run[n].after.readings, run[n].decision.plate, run[n].event.allowSingle)
            && !OnHold(cfg, run, n)
  {
    hide IsRun, Share, SingleReadSuffices, EnoughReads, StartsVisit, Evidence, Recent, IsWinner;
    RunIsLegal(cfg, run, n);
    ReadingsStayValid(cfg, run, n + 1);
    EvidenceMeaning(cfg, run[n].after.readings, run[n].decision.plate, run[n].event.allowSingle);
  }

  /** Exactly when a plate is published: its readings convince, and no earlier publication of it, still remembered,
      lies in the same visit or within the hold. */
  lemma PublishedExactly(cfg: Config, run: seq<Moment>, n: nat)
    requires IsRun(cfg, run) && n < |run| && PlateRead(run[n].event)
    ensures run[n].decision.publish <==>
            && Convincing(cfg, run[n].after.readings, run[n].decision.plate, run[n].event.allowSingle)
            && !exists i: nat | i < n :: Blocks(cfg, run, i, n)
  {
    hide IsRun, QuietBetween, VisitStart, Convincing;
    PublishStep(cfg, run, n);
    WinnerIsNamed(cfg, run, n);
    VisitIsKept(cfg, run, n + 1);
    forall i: nat | i < n && Blocks(cfg, run, i, n)
      ensures OnHold(cfg, run, n)
    {
      HoldPersists(cfg, run, i, n);
      VisitIsKept(cfg, run, i + 1);
    }
    if OnHold(cfg, run, n) {
      var i := HoldHasAPublication(cfg, run, n);
      HoldPersists(cfg, run, i, n);
      VisitIsKept(cfg, run, i + 1);
      assert Blocks(cfg, run, i, n);
    }
  }

  lemma ReasonStep(cfg: Config, run: seq<Moment>, n: nat)
    requires IsRun(cfg, run) && n < |run| && PlateRead(run[n].event)
    ensures var rs, d, st := run[n].after.readings, run[n].decision, Before(run, n);
            && (d.reason == WaitingForAgreeingRead <==> !Evidence(cfg, rs, d.plate, run[n].event.allowSingle))
            && (d.reason == BelowShare <==> Evidence(cfg, rs, d.plate, run[n].event.allowSingle)
                                            && Share(rs, cfg.similarity, d.plate) < cfg.minShare)
            && (d.reason == AlreadyPublishedThisVisit || d.reason == WithinHoldWindow <==>
                  Convincing(cfg, rs, d.plate, run[n].event.allowSingle) && OnHold(cfg, run, n))
            && (d.reason == AlreadyPublishedThisVisit ==> st.publishedVisit == run[n].after.visitStartedAt)
            && (d.reason == WithinHoldWindow ==> st.publishedVisit != run[n].after.visitStartedAt)
  {
    hide IsRun, Share, SingleReadSuffices, EnoughReads, StartsVisit, Evidence, Recent, IsWinner;
    RunIsLegal(cfg, run, n);
    ReadingsStayValid(cfg, run, n + 1);
    EvidenceMeaning(cfg, run[n].after.readings, run[n].decision.plate, run[n].event.allowSingle);
  }

  /** And what each decision says: too little evidence, too small a share, published before in this visit, or, in an
      earlier visit, less than the hold ago. */
  lemma ReasonsSayWhy(cfg: Config, run: seq<Moment>, n: nat)
    requires IsRun(cfg, run) && n < |run| && PlateRead(run[n].event)
    ensures var rs, d, single := run[n].after.readings, run[n].decision, run[n].event.allowSingle;
            && (d.reason == WaitingForAgreeingRead <==> !Evidence(cfg, rs, d.plate, single))
            && (d.reason == BelowShare <==>
                  Evidence(cfg, rs, d.plate, single) && Share(rs, cfg.similarity, d.plate) < cfg.minShare)
            && (d.reason == AlreadyPublishedThisVisit <==>
                  Convincing(cfg, rs, d.plate, single) &&
                  exists i: nat | i < n :: Remembered(cfg, run, i, n) &&
                    VisitStart(cfg, run, i + 1) == VisitStart(cfg, run, n + 1))
            && (d.reason == WithinHoldWindow <==>
                  Convincing(cfg, rs, d.plate, single) &&
                  exists i: nat | i < n :: Remembered(cfg, run, i, n) &&
                    VisitStart(cfg, run, i + 1) != VisitStart(cfg, run, n + 1) &&
                    run[n].event.now - run[i].event.now < cfg.holdSeconds)
  {
    hide IsRun, QuietBetween, VisitStart, Convincing, Evidence, Share;
    ReasonStep(cfg, run, n);
    WinnerIsNamed(cfg, run, n);
    VisitIsKept(cfg, run, n + 1);
    var d := run[n].decision;
    forall i: nat | i < n && Remembered(cfg, run, i, n)
      ensures Before(run, n).publishedPlate == d.plate && Before(run, n).publishedAt == run[i].event.now
      ensures Before(run, n).publishedVisit == VisitStart(cfg, run, i + 1)
    {
      HoldPersists(cfg, run, i, n);
      VisitIsKept(cfg, run, i + 1);
    }
    if OnHold(cfg, run, n) {
      var i := HoldHasAPublication(cfg, run, n);
      HoldPersists(cfg, run, i, n);
      assert Remembered(cfg, run, i, n);
    }
  }

  /** Reads come at times from 0 on, as a monotonic clock gives them. */
  ghost predicate ClockFromZero(run: seq<Moment>)
  {
    forall i | 0 <= i < |run| && run[i].event.Read? :: run[i].event.now >= 0.0
  }

  /** Visits start one after the other, and none before the clock. */
  lemma {:induction false} VisitsAdvance(cfg: Config, run: seq<Moment>, i: nat, j: nat)
    requires MonotoneClock(run) && ClockFromZero(run) && i <= j <= |run|
    ensures VisitStart(cfg, run, i) <= VisitStart(cfg, run, j)
    ensures VisitStart(cfg, run, j) == -1.0 ||
            (forall k | j <= k < |run| && run[k].event.Read? :: VisitStart(cfg, run, j) <= run[k].event.now)
    decreases j
  {
    hide ArrivesAnew, EmptyLong;
    if j > 0 {
      if !run[j - 1].event.Read? {
        OnlyEmptyReadsClear(cfg, run, j - 1);
      }
      VisitsAdvance(cfg, run, if i < j then i else j - 1, j - 1);
    }
  }

  /** Hence a plate is published twice in one visit only around the publication of another plate or a release. */
  lemma {:induction false} TwiceInOneVisit(cfg: Config, run: seq<Moment>, i: nat, j: nat)
    requires IsRun(cfg, run) && MonotoneClock(run) && ClockFromZero(run) && i < j < |run|
    requires run[i].decision.publish && run[j].decision.publish && run[i].decision.plate == run[j].decision.plate
    requires VisitStart(cfg, run, i + 1) == VisitStart(cfg, run, j + 1)
    ensures exists k: nat ::
              i < k < j && (Forgets(cfg, run, k) ||
                            (run[k].decision.publish && run[k].decision.plate != run[i].decision.plate))
    decreases j - i
  {
    hide IsRun, VisitStart, Forgets;
    if QuietBetween(cfg, run, i, j) {
      RepublicationIsHeld(cfg, run, i, j);
    } else {
      var k: nat :| i < k < j && (run[k].decision.publish || Forgets(cfg, run, k));
      if run[k].decision.publish && run[k].decision.plate == run[i].decision.plate {
        VisitsAdvance(cfg, run, i + 1, k + 1);
        VisitsAdvance(cfg, run, k + 1, j + 1);
        TwiceInOneVisit(cfg, run, i, k);
      }
    }
  }

  // ----- An empty lane -----

  /** A lane that reads empty for the reset time, whatever releases come between, has forgotten its readings and its
      publication, so the same plate may be published again at once. */
  lemma EmptyLaneClears(cfg: Config, run: seq<Moment>, i: nat, j: nat)
    requires IsRun(cfg, run) && MonotoneClock(run) && i < j < |run|
    requires EmptyReadEvent(run[i].event) && EmptyReadEvent(run[j].event)
    requires forall k | i <= k <= j :: !PlateRead(run[k].event)
    requires run[j].event.now - run[i].event.now >= cfg.absenceResetSeconds
    ensures run[j].after.readings == [] && run[j].after.publishedPlate == ""
    ensures VisitLog(cfg, run, j + 1) == []
  {
    hide IsRun;
    assert EmptySinceRead(run, i, j + 1);
    EmptyReadForgets(cfg, run, j);
  }

  // ----- The streak -----

  /** The read before n is of the same plate. */
  ghost predicate SamePlateBefore(run: seq<Moment>, n: nat)
    requires n < |run| && run[n].event.Read?
  {
    exists k :: LastRead(run, k, n) && PlateRead(run[k].event)
                && Normalize(run[k].event.plate) == Normalize(run[n].event.plate)
  }

  /** How many reads in a row have named one plate, within one visit. */
  ghost function Streak(cfg: Config, run: seq<Moment>, n: nat): nat
    requires n <= |run|
  {
    if n == 0 || EmptyReadEvent(run[n - 1].event) then 0
    else if run[n - 1].event.Release? then Streak(cfg, run, n - 1)
    else if SamePlateBefore(run, n - 1) && !ArrivesAnew(cfg, run, n - 1) then Streak(cfg, run, n - 1) + 1
    else 1
  }

  lemma StreakStep(cfg: Config, run: seq<Moment>, n: nat)
    requires IsRun(cfg, run) && n < |run|
    ensures var e, st, after := run[n].event, Before(run, n), Before(run, n + 1);
            && after.lastPlate == (if e.Read? then Normalize(e.plate) else st.lastPlate)
            && after.streak == if EmptyReadEvent(e) then 0 else if e.Release? then st.streak
                               else if Normalize(e.plate) == st.lastPlate && !StartsVisit(cfg, st, e.now)
                               then st.streak + 1 else 1
  {
    hide IsRun, Recent, Decides;
    RunIsLegal(cfg, run, n);
  }

  lemma {:induction false} LastPlateIsKept(cfg: Config, run: seq<Moment>, n: nat)
    requires IsRun(cfg, run) && n <= |run|
    ensures forall k | LastRead(run, k, n) :: Before(run, n).lastPlate == Normalize(run[k].event.plate)
    ensures Before(run, n).lastPlate != "" ==> exists k :: LastRead(run, k, n)
  {
    hide IsRun;
    if n > 0 {
      LastPlateIsKept(cfg, run, n - 1);
      StreakStep(cfg, run, n - 1);
      var m := n - 1;
      if run[m].event.Read? {
        assert LastRead(run, m, n);
      } else {
        forall k | LastRead(run, k, n)
          ensures Before(run, n).lastPlate == Normalize(run[k].event.plate)
        {
          assert LastRead(run, k, m);
        }
        if k :| LastRead(run, k, m) {
          assert LastRead(run, k, n);
        }
      }
    }
  }

  /** The track's streak is that number. */
  lemma {:induction false} StreakIsKept(cfg: Config, run: seq<Moment>, n: nat)
    requires IsRun(cfg, run) && n <= |run|
    ensures Before(run, n).streak == Streak(cfg, run, n)
  {
    hide IsRun, StartsVisit, ArrivesAnew;
    if n > 0 {
      StreakIsKept(cfg, run, n - 1);
      StreakStep(cfg, run, n - 1);
      LastPlateIsKept(cfg, run, n - 1);
      if PlateRead(run[n - 1].event) {
        ArrivalStartsVisit(cfg, run, n - 1);
      }
    }
  }

  // ----- One visit, three publications -----

  /** Full-confidence readings of two plates that do not resemble each other. */
  ghost predicate TwoTexts(rs: seq<Reading>, p: string, q: string)
  {
    forall r | r in rs :: r.plate in {p, q} && r.confidence == 1.0
  }

  lemma {:induction false} CountsDecide(rs: seq<Reading>, p: string, q: string, c: string, threshold: real)
    requires TwoTexts(rs, p, q) && c in {p, q} && p != q
    requires Similarity(p, q) < threshold
    ensures Score(rs, c, threshold) == Exact(rs, c) as real
    ensures Total(rs) == |rs| as real && Exact(rs, p) + Exact(rs, q) == |rs|
    ensures Exact(rs, c) > 0 ==> BestExact(rs, c) == 1.0 && c in Plates(rs)
    ensures ExactWeight(rs, c) == Exact(rs, c) as real
    ensures BestExact(rs, c) <= 1.0
  {
    if rs != [] {
      var rest, r := rs[..|rs| - 1], rs[|rs| - 1];
      assert r in rs;
      CountsDecide(rest, p, q, c, threshold);
      SimilarityLaws(p, q);
      assert forall x | x in rest :: x in rs;
    }
  }

  /** Most identical readings win, and the later text wins a tie. */
  ghost predicate Leads(rs: seq<Reading>, p: string, q: string, winner: string)
  {
    var other := if winner == p then q else p;
    && winner in {p, q} && Exact(rs, winner) > 0
    && (Exact(rs, winner) > Exact(rs, other) || (Exact(rs, winner) == Exact(rs, other) && AtMost(other, winner)))
  }

  function Later(p: string, q: string): string { if AtMost(p, q) then q else p }

  ghost predicate Unlike(p: string, q: string)
  {
    p != q && Similarity(p, q) < DEFAULTS.similarity
  }

  lemma LeaderWins(rs: seq<Reading>, p: string, q: string, winner: string)
    requires TwoTexts(rs, p, q) && Unlike(p, q) && Leads(rs, p, q, winner)
    ensures IsWinner(rs, DEFAULTS.similarity, winner)
  {
    var t := DEFAULTS.similarity;
    CountsDecide(rs, p, q, p, t);
    CountsDecide(rs, p, q, q, t);
    forall c | c in Plates(rs)
      ensures RanksAtMost(rs, t, c, winner)
    {
      ReflexiveText(c);
      assert c in {p, q};
    }
  }

  lemma LeaderShare(rs: seq<Reading>, p: string, q: string, winner: string)
    requires TwoTexts(rs, p, q) && Unlike(p, q) && Leads(rs, p, q, winner)
    ensures Share(rs, DEFAULTS.similarity, winner) >= 0.6 <==> 10 * Exact(rs, winner) >= 6 * |rs|
    ensures BestExact(rs, winner) == 1.0
  {
    var t := DEFAULTS.similarity;
    CountsDecide(rs, p, q, winner, t);
    ShareOfCounts(Exact(rs, winner), |rs|, Share(rs, t, winner));
  }

  predicate MayPublish(st: Track, now: real, winner: string)
  {
    winner != st.publishedPlate ||
    (st.publishedVisit != st.visitStartedAt && now - st.publishedAt >= DEFAULTS.holdSeconds)
  }

  /** The decision of the default track on readings of two unlike plates. */
  lemma DecideTwoTexts(st: Track, now: real, p: string, q: string, winner: string) returns (d: Decision)
    requires TwoTexts(st.readings, p, q) && Unlike(p, q) && Leads(st.readings, p, q, winner)
    ensures Decides(DEFAULTS, st, now, true, d) && d.plate == winner
    ensures d.publish <==> 10 * Exact(st.readings, winner) >= 6 * |st.readings| && MayPublish(st, now, winner)
  {
    var rs, t := st.readings, DEFAULTS.similarity;
    LeaderWins(rs, p, q, winner);
    LeaderShare(rs, p, q, winner);
    var exact := Exact(rs, winner);
    var reason := Verdict(DEFAULTS, st, winner, now, true);
    var confidence := ExactWeight(rs, winner) / (if exact > 1 then exact else 1) as real;
    d := Decision(reason == Published, winner, confidence, |rs|, exact, Share(rs, t, winner),
                  map c | c in Plates(rs) :: Score(rs, c, t), reason);
  }

  lemma QuotientOfReals(part: real, whole: real, t: real)
    requires 0.0 < part <= whole
    ensures part / whole <= 1.0
    ensures part / whole >= t <==> part >= t * whole
  {
    QuotientAtMostOne(part, whole);
    if part >= t * whole {
      QuotientAtLeast(part, whole, t);
    } else {
      var q := part / whole;
      assert q * whole == part;
      assert t * whole - part == (t - q) * whole;
    }
  }

  lemma ShareOfCounts(part: nat, whole: nat, share: real)
    requires 0 < part <= whole
    requires share == (if part as real / whole as real < 1.0 then part as real / whole as real else 1.0)
    ensures share >= 0.6 <==> 10 * part >= 6 * whole
  {
    QuotientOfReals(part as real, whole as real, 0.6);
  }

  /** Read one of the two plates at full confidence, one second after the last event. */
  lemma NextMoment(run: seq<Moment>, plate: string, p: string, q: string, winner: string, mid: Track)
    returns (longer: seq<Moment>)
    requires IsRun(DEFAULTS, run) && OneEachSecond(run)
    requires plate in {p, q} && IsPlate(plate) && plate != []
    requires mid == AfterPlateRead(DEFAULTS, Before(run, |run|), plate, |run| as real, 1.0)
    requires TwoTexts(mid.readings, p, q) && Unlike(p, q) && Leads(mid.readings, p, q, winner)
    ensures IsRun(DEFAULTS, longer) && OneEachSecond(longer) && |longer| == |run| + 1 && longer[..|run|] == run
    ensures var m := longer[|run|];
            && m.event.plate == plate && m.decision.plate == winner
            && m.after == AfterDecision(mid, |run| as real, m.decision)
            && (m.decision.publish <==>
                  10 * Exact(mid.readings, winner) >= 6 * |mid.readings| && MayPublish(mid, |run| as real, winner))
  {
    hide AfterDecision;
    var now := |run| as real;
    NormalizeFixesPlates(plate);
    var d := DecideTwoTexts(mid, now, p, q, winner);
    var m := Moment(Read(plate, now, 1.0, true), AfterDecision(mid, now, d), d);
    longer := run + [m];
    forall i | 0 <= i < |longer|
      ensures Legal(DEFAULTS, longer, i)
    {
      if i < |run| {
        assert Legal(DEFAULTS, run, i);
        assert Before(longer, i) == Before(run, i) && longer[i] == run[i];
      } else {
        assert Before(longer, i) == Before(run, i);
      }
    }
  }

  ghost predicate OneEachSecond(run: seq<Moment>)
  {
    forall i | 0 <= i < |run| :: run[i].event.Read? && run[i].event.now == i as real
  }

  lemma CountsOfThree(a: Reading, b: Reading, c: Reading, plate: string)
    ensures Exact([a], plate) == if a.plate == plate then 1 else 0
    ensures Exact([a, b], plate) == Exact([a], plate) + if b.plate == plate then 1 else 0
    ensures Exact([a, b, c], plate) == Exact([a, b], plate) + if c.plate == plate then 1 else 0
  {
    assert [a, b, c][..2] == [a, b] && [a, b][..1] == [a] && [a][..0] == [];
  }

  /** The same, within a visit that goes on, when the readings left by the prune are known. */
  lemma NextInVisit(run: seq<Moment>, plate: string, p: string, q: string, winner: string, readings: seq<Reading>)
    returns (longer: seq<Moment>)
    requires IsRun(DEFAULTS, run) && OneEachSecond(run) && run != []
    requires plate in {p, q} && IsPlate(plate) && plate != []
    requires Before(run, |run|).lastReadAt == Some(|run| as real - 1.0)
    requires readings == Recent(Before(run, |run|).readings, |run| as real, 2.0) + [Reading(plate, 1.0, |run| as real)]
    requires |readings| <= 12
    requires TwoTexts(readings, p, q) && Unlike(p, q) && Leads(readings, p, q, winner)
    ensures IsRun(DEFAULTS, longer) && OneEachSecond(longer) && |longer| == |run| + 1 && longer[..|run|] == run
    ensures var before, m := Before(run, |run|), longer[|run|];
            && m.decision.plate == winner
            && (m.decision.publish <==>
                  10 * Exact(readings, winner) >= 6 * |readings| && MayPublish(before, |run| as real, winner))
            && m.after.readings == readings && m.after.visitStartedAt == before.visitStartedAt
            && m.after.lastReadAt == Some(|run| as real)
            && m.after.publishedPlate == (if m.decision.publish then winner else before.publishedPlate)
            && m.after.publishedVisit == (if m.decision.publish then before.visitStartedAt else before.publishedVisit)
  {
    var mid := AfterPlateRead(DEFAULTS, Before(run, |run|), plate, |run| as real, 1.0);
    assert mid.readings == readings;
    longer := NextMoment(run, plate, p, q, winner, mid);
  }

  lemma FirstRead(plate: string, p: string, q: string) returns (run: seq<Moment>)
    requires IsPlate(plate) && plate != [] && plate == p && Unlike(p, q)
    ensures IsRun(DEFAULTS, run) && OneEachSecond(run) && |run| == 1
    ensures var m := run[0];
            && m.decision.publish && m.decision.plate == plate
            && m.after == Track([Reading(plate, 1.0, 0.0)], plate, 0.0, 0.0, 0.0, Some(0.0), None, plate, 1)
  {
    var a := Reading(plate, 1.0, 0.0);
    CountsOfThree(a, a, a, p);
    CountsOfThree(a, a, a, q);
    var mid := AfterPlateRead(DEFAULTS, FRESH, plate, 0.0, 1.0);
    assert Recent([], 0.0, 2.0) + [a] == [a];
    assert mid.readings == [a];
    run := NextMoment([], plate, p, q, plate, mid);
  }

  /** The five readings, and the windows they pass through. */
  ghost predicate FiveReads(p: string, q: string, rs: seq<Reading>)
  {
    rs == [Reading(p, 1.0, 0.0), Reading(q, 1.0, 1.0), Reading(q, 1.0, 2.0), Reading(p, 1.0, 3.0), Reading(p, 1.0, 4.0)]
  }

  lemma FiveWindows(p: string, q: string, rs: seq<Reading>)
    requires FiveReads(p, q, rs)
    ensures Recent(rs[..1], 1.0, 2.0) + [rs[1]] == rs[..2]
    ensures Recent(rs[..2], 2.0, 2.0) + [rs[2]] == rs[..3]
    ensures Recent(rs[..3], 3.0, 2.0) + [rs[3]] == rs[1..4]
    ensures Recent(rs[1..4], 4.0, 2.0) + [rs[4]] == rs[2..]
  {
    hide Recent;
    KeepsSuffix(rs[..1], 1.0, 2.0, 0);
    KeepsSuffix(rs[..2], 2.0, 2.0, 0);
    KeepsSuffix(rs[..3], 3.0, 2.0, 1);
    KeepsSuffix(rs[1..4], 4.0, 2.0, 1);
  }

  lemma FiveLeaders(p: string, q: string, rs: seq<Reading>)
    requires FiveReads(p, q, rs) && p != q
    ensures Leads(rs[..2], p, q, Later(p, q)) && Exact(rs[..2], Later(p, q)) == 1
    ensures Leads(rs[..3], p, q, q) && Exact(rs[..3], q) == 2
    ensures Leads(rs[1..4], p, q, q) && Exact(rs[1..4], q) == 2
    ensures Leads(rs[2..], p, q, p) && Exact(rs[2..], p) == 2
    ensures TwoTexts(rs[..2], p, q) && TwoTexts(rs[..3], p, q) && TwoTexts(rs[1..4], p, q) && TwoTexts(rs[2..], p, q)
  {
    var a, b, c, d, e := rs[0], rs[1], rs[2], rs[3], rs[4];
    AtMostTotal(p, q);
    CountsOfThree(a, b, c, p); CountsOfThree(a, b, c, q);
    CountsOfThree(b, c, d, p); CountsOfThree(b, c, d, q);
    CountsOfThree(c, d, e, p); CountsOfThree(c, d, e, q);
    assert rs[..2] == [a, b] && rs[..3] == [a, b, c] && rs[1..4] == [b, c, d] && rs[2..] == [c, d, e];
  }

  lemma FirstThreeReads(p: string, q: string, rs: seq<Reading>) returns (run: seq<Moment>)
    requires FiveReads(p, q, rs) && IsPlate(p) && p != [] && IsPlate(q) && q != [] && Unlike(p, q)
    ensures IsRun(DEFAULTS, run) && OneEachSecond(run) && |run| == 3
    ensures run[0].decision.publish && run[0].decision.plate == p && run[2].decision.publish
    ensures run[2].decision.plate == q
    ensures run[0].after.visitStartedAt == 0.0
    ensures var st := run[2].after;
            && st.publishedPlate == q && st.publishedVisit == st.visitStartedAt == 0.0
            && st.lastReadAt == Some(2.0) && st.readings == rs[..3]
  {
    FiveWindows(p, q, rs);
    FiveLeaders(p, q, rs);
    var r1 := FirstRead(p, p, q);
    assert rs[..1] == [rs[0]];
    var r2 := NextInVisit(r1, q, p, q, Later(p, q), rs[..2]);
    run := NextInVisit(r2, q, p, q, q, rs[..3]);
    assert run[1] == r2[1] && run[0] == r2[0] == r1[0];
  }

  /** The docstring's "once per visit" does not hold: reads p, q, q, p, p of two unlike plates, one a second,
      publish p, then q, then p again, all in one visit. */
  lemma OncePerVisitFails(p: string, q: string) returns (run: seq<Moment>)
    requires IsPlate(p) && p != [] && IsPlate(q) && q != [] && Unlike(p, q)
    ensures IsRun(DEFAULTS, run) && MonotoneClock(run) && |run| == 5
    ensures run[0].decision.publish && run[2].decision.publish && run[4].decision.publish
    ensures run[0].decision.plate == p && run[2].decision.plate == q && run[4].decision.plate == p
    ensures VisitStart(DEFAULTS, run, 1) == VisitStart(DEFAULTS, run, 3) == VisitStart(DEFAULTS, run, 5)
  {
    hide IsPlate, VisitStart, Exact, Recent, Leads, TwoTexts, IsRun;
    var rs := [Reading(p, 1.0, 0.0), Reading(q, 1.0, 1.0), Reading(q, 1.0, 2.0),
               Reading(p, 1.0, 3.0), Reading(p, 1.0, 4.0)];
    FiveWindows(p, q, rs);
    FiveLeaders(p, q, rs);
    var r3 := FirstThreeReads(p, q, rs);
    var r4 := NextInVisit(r3, p, p, q, q, rs[1..4]);
    run := NextInVisit(r4, p, p, q, p, rs[2..]);
    assert run[3] == r4[3] && forall k | 0 <= k < 3 :: run[k] == r4[k] == r3[k];
    VisitIsKept(DEFAULTS, run, 1);
    VisitIsKept(DEFAULTS, run, 3);
    VisitIsKept(DEFAULTS, run, 5);
  }
}

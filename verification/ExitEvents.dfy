/** Which sessions one exit event can open: app/application/exit_lane.py, start_exit of app/services/parking_sessions.py
    and the unique index on exit events of app/models.py. */
module ExitEvents {
  import opened ExitGate

  // ----- The unique index -----

  /** No two sessions carry the same event. */
  ghost predicate UniqueEvents(rows: map<nat, Row>)
  {
    forall a, b | a in rows && b in rows && a != b :: rows[a].event == 0 || rows[a].event != rows[b].event
  }

  /** Every event of the rows is one they had, and no session lost its row. */
  ghost predicate EventsKept(before: map<nat, Row>, rows: map<nat, Row>)
  {
    && (forall sid | sid in before :: sid in rows && rows[sid].event == before[sid].event)
    && (forall sid | sid in rows && sid !in before :: rows[sid].event == 0)
  }

  lemma BindKeepsUnique(s: State, t: nat, task: Task, ch: Choice)
    requires UniqueEvents(s.rows) && task.pc == Bind && Truthful(s, task, ch)
    ensures UniqueEvents(BindEvent(s, t, task, ch).rows)
  {
    var v, rows := Bound(task), BindEvent(s, t, task, ch).rows;
    forall a, b | a in rows && b in rows && a != b
      ensures rows[a].event == 0 || rows[a].event != rows[b].event
    {
      assert a in s.rows && b in s.rows ==> s.rows[a].event == 0 || s.rows[a].event != s.rows[b].event;
      assert a in s.rows ==> (s.rows[a].event == v && v != 0 ==> Carries(s.rows, a, v));
      assert b in s.rows ==> (s.rows[b].event == v && v != 0 ==> Carries(s.rows, b, v));
    }
  }

  lemma OtherActionsKeepEvents(s: State, a: Action)
    requires Enabled(s, a) && !(a.Turn? && s.tasks[a.task].pc == Bind)
    ensures EventsKept(s.rows, Apply(s, a).rows)
  {
    hide Truthful, Newest, NoneOpen, Carries, NoneCarries, Replayed, Target, MayClaim, WriteLife, LookUp;
    if a.Turn? {
      LookUpKeepsRows(s, a.task, s.tasks[a.task], a.choice);
    }
  }

  lemma LookUpKeepsRows(s: State, t: nat, task: Task, ch: Choice)
    ensures LookUp(s, t, task, ch).rows == s.rows && LookUp(s, t, task, ch).log == s.log
  {
    hide NoneOpen, Carries, Replayed, Loaded;
  }

  lemma TurnLog(s: State, t: nat, task: Task, ch: Choice)
    ensures TakeTurn(s, t, task, ch).log ==
            if task.pc.Call? then s.log + [Opening(task.sid, task.command, task.event)] else s.log
  {
    hide Carries, NoneCarries, Target, MayClaim, WriteLife, LookUp, Bound;
    LookUpKeepsRows(s, t, task, ch);
  }

  lemma {:induction false} UniqueAlways(start: State, acts: seq<Action>)
    requires UniqueEvents(start.rows) && Possible(start, acts)
    ensures UniqueEvents(After(start, acts).rows)
  {
    hide UniqueEvents, EventsKept, Enabled, Apply;
    if acts != [] {
      var s, a := After(start, acts[..|acts| - 1]), acts[|acts| - 1];
      UniqueAlways(start, acts[..|acts| - 1]);
      UniqueStep(s, a);
    }
  }

  lemma UniqueStep(s: State, a: Action)
    requires UniqueEvents(s.rows) && Enabled(s, a)
    ensures UniqueEvents(Apply(s, a).rows)
  {
    hide Truthful, BindEvent, LookUp, Advance, Complete;
    if a.Turn? && s.tasks[a.task].pc == Bind {
      hide UniqueEvents;
      BindKeepsUnique(s, a.task, s.tasks[a.task], a.choice);
    } else {
      OtherActionsKeepEvents(s, a);
      KeptIsUnique(s.rows, Apply(s, a).rows);
    }
  }

  lemma KeptIsUnique(before: map<nat, Row>, rows: map<nat, Row>)
    requires UniqueEvents(before) && EventsKept(before, rows)
    ensures UniqueEvents(rows)
  {
  }

  /** Whatever the interleaving, an event that has opened two sessions has been replaced on one of them. */
  lemma TwoSessionsNeedATakeover(start: State, acts: seq<Action>, i: nat, j: nat)
    requires Quiet(start) && UniqueEvents(start.rows) && Possible(start, acts)
    requires i < j < |After(start, acts).log|
    requires After(start, acts).log[i].event == After(start, acts).log[j].event != 0
    ensures var s := After(start, acts);
            && s.log[i].sid in s.rows && s.log[j].sid in s.rows && s.log[i].sid != s.log[j].sid
            && (s.rows[s.log[i].sid].event != s.log[i].event || s.rows[s.log[j].sid].event != s.log[j].event)
  {
    hide Possible, After;
    OneOpeningPerSession(start, acts, i, j);
    OneOpeningPerSession(start, acts, i, i);
    UniqueAlways(start, acts);
  }

  // ----- Submissions that do not overlap on one session before the opener -----

  predicate InSection(task: Task) { !task.pc.Call? && !task.pc.Finish? }

  /** From the copy of its session, read after pricing, to its claim; on one event loop this stretch has no await. */
  predicate HoldsCopy(task: Task) { InSection(task) && !task.pc.Replay? && !task.pc.Find? && !task.pc.Bill? }

  /** Two submissions work on copies of one session at the same time. */
  ghost predicate Overlap(s: State, t: nat, u: nat)
  {
    && t in s.tasks && u in s.tasks && t != u && HoldsCopy(s.tasks[t]) && HoldsCopy(s.tasks[u])
    && s.tasks[t].sid == s.tasks[u].sid
  }

  ghost predicate Apart(s: State) { forall t, u :: !Overlap(s, t, u) }

  ghost predicate ApartRun(start: State, acts: seq<Action>)
  {
    Apart(After(start, acts)) && (acts != [] ==> ApartRun(start, acts[..|acts| - 1]))
  }

  predicate Final(life: Life)
  {
    life == Authorized || life == OpenRequested || life == Passed || life == Closed
  }

  predicate Midway(life: Life) { !Final(life) && life != Entering && life != Cancelled }

  /** The copy tells the event, whether the session is past authorisation and, midway, the very lifecycle. */
  ghost predicate Synced(rows: map<nat, Row>, task: Task)
  {
    && task.sid in rows && task.local.event == rows[task.sid].event
    && (Final(task.local.life) <==> Final(rows[task.sid].life))
    && (Midway(task.local.life) ==> rows[task.sid].life == task.local.life)
  }

  ghost predicate Carried(rows: map<nat, Row>, task: Task)
  {
    task.sid in rows && (task.event != 0 ==> rows[task.sid].event == task.event)
  }

  ghost predicate TaskOk(rows: map<nat, Row>, task: Task)
  {
    match task.pc
    case Replay => true
    case Find => true
    case Bill => task.sid in rows
    case ByExit => Synced(rows, task)
    case Hold => Synced(rows, task)
    case Bind => Synced(rows, task) && (task.event != 0 && task.local.event != 0 ==> task.local.life == Denied)
    case Reload(_) => Carried(rows, task)
    case Decide(_) => Synced(rows, task) && Carried(rows, task)
    case Judge => Synced(rows, task) && (task.event != 0 && task.local.event == 0 ==> task.local.life != Authorized)
    case Claim => Synced(rows, task) && Carried(rows, task) && task.local.life == Authorized
    case Claimed => Carried(rows, task)
    case Call => Carried(rows, task)
    case Finish(_) => true
  }

  ghost predicate Owned(s: State)
  {
    && Claims(s) && UniqueEvents(s.rows)
    && (forall sid | sid in s.rows && s.rows[sid].command != 0 :: Final(s.rows[sid].life))
    && (forall o | o in s.log && o.event != 0 :: o.sid in s.rows && s.rows[o.sid].event == o.event)
    && (forall t | t in s.tasks :: TaskOk(s.rows, s.tasks[t]))
  }

  /** Rows move only past authorisation or before the exit, and keep their events and commands. */
  ghost predicate Drift(before: map<nat, Row>, rows: map<nat, Row>)
  {
    && (forall sid | sid in before ::
          && sid in rows && rows[sid].event == before[sid].event && rows[sid].command == before[sid].command
          && (Final(rows[sid].life) <==> Final(before[sid].life))
          && (Midway(before[sid].life) ==> rows[sid].life == before[sid].life))
    && (forall sid | sid in rows && sid !in before :: rows[sid].command == 0)
  }

  ghost predicate OthersStay(s: State, s2: State, t: nat)
  {
    forall u | u in s2.tasks && u != t :: u in s.tasks && s2.tasks[u] == s.tasks[u]
  }

  lemma DriftKeepsTask(before: map<nat, Row>, rows: map<nat, Row>, task: Task)
    requires Drift(before, rows) && TaskOk(before, task)
    ensures TaskOk(rows, task)
  {
    hide Final;
  }

  lemma DriftKeepsOwned(s: State, s2: State, t: nat)
    requires Owned(s) && Drift(s.rows, s2.rows) && s2.log == s.log && OthersStay(s, s2, t)
    requires t in s2.tasks ==> TaskOk(s2.rows, s2.tasks[t])
    requires Claims(s2) && UniqueEvents(s2.rows)
    ensures Owned(s2)
  {
    hide Claims, UniqueEvents, TaskOk;
    forall u | u in s2.tasks
      ensures TaskOk(s2.rows, s2.tasks[u])
    {
      if u != t {
        DriftKeepsTask(s.rows, s2.rows, s2.tasks[u]);
      }
    }
    forall sid | sid in s2.rows && s2.rows[sid].command != 0
      ensures Final(s2.rows[sid].life)
    {
      assert sid in s.rows;
    }
  }

  /** The submission in its section writes one row. */
  lemma SectionKeepsOwned(s: State, s2: State, t: nat, sid: nat)
    requires Owned(s) && Apart(s) && t in s.tasks && InSection(s.tasks[t]) && s2.log == s.log && OthersStay(s, s2, t)
    requires HoldsCopy(s.tasks[t]) && sid == s.tasks[t].sid
    requires sid in s.rows && sid in s2.rows && s2.rows == s.rows[sid := s2.rows[sid]]
    requires s2.rows[sid].event == s.rows[sid].event || s.rows[sid].event == 0 || s.rows[sid].command == 0
    requires s2.rows[sid].command != 0 ==> Final(s2.rows[sid].life)
    requires t in s2.tasks ==> TaskOk(s2.rows, s2.tasks[t])
    requires Claims(s2) && UniqueEvents(s2.rows)
    ensures Owned(s2)
  {
    hide UniqueEvents, Final;
    forall u | u in s2.tasks
      ensures TaskOk(s2.rows, s2.tasks[u])
    {
      if u != t {
        assert TaskOk(s.rows, s.tasks[u]) && OwnerOk(s, s.tasks[u]);
        assert !Overlap(s, t, u);
      }
    }
    forall o | o in s2.log && o.event != 0
      ensures o.sid in s2.rows && s2.rows[o.sid].event == o.event
    {
      var k :| 0 <= k < |s.log| && s.log[k] == o;
      assert CallOk(s, k);
    }
  }

  lemma SameRowsDrift(rows: map<nat, Row>)
    ensures Drift(rows, rows)
  {
  }

  lemma LookUpOk(s: State, t: nat, task: Task, ch: Choice, s2: State)
    requires TaskOk(s.rows, task) && Truthful(s, task, ch) && s2 == LookUp(s, t, task, ch)
    requires InSection(task) && t in s.tasks && s.tasks[t] == task
    ensures OthersStay(s, s2, t) && (t in s2.tasks ==> TaskOk(s2.rows, s2.tasks[t]))
  {
    hide Final, Replayed, NoneOpen;
  }

  lemma ShortTurnOk(s: State, t: nat, task: Task, ch: Choice, s2: State)
    requires TaskOk(s.rows, task) && s2 == TakeTurn(s, t, task, ch)
    requires task.pc.Reload? || task.pc.Judge? || task.pc.Claimed?
    ensures s2.rows == s.rows && s2.log == s.log
    ensures OthersStay(s, s2, t) && (t in s2.tasks ==> TaskOk(s2.rows, s2.tasks[t]))
  {
    hide Final;
  }

  lemma SectionTurn(s: State, t: nat, task: Task, ch: Choice, s2: State)
    requires Owned(s) && Apart(s) && t in s.tasks && s.tasks[t] == task && InSection(task) && Truthful(s, task, ch)
    requires s2 == TakeTurn(s, t, task, ch) && Claims(s2) && UniqueEvents(s2.rows)
    ensures Owned(s2)
  {
    hide Claims, UniqueEvents, Apart, Drift, Final, LookUp, BindEvent, Advance, ClaimCommand, MayClaim, Truthful;
    assert TaskOk(s.rows, task);
    SameRowsDrift(s.rows);
    if task.pc.Reload? || task.pc.Judge? || task.pc.Claimed? {
      ShortTurnOk(s, t, task, ch, s2);
      DriftKeepsOwned(s, s2, t);
    } else if task.pc.Bind? {
      BindTurn(s, t, task, ch, s2);
    } else if task.pc.Decide? {
      DecideTurn(s, t, task, task.pc.stage, s2);
    } else if task.pc.Claim? {
      ClaimTurn(s, t, task, ch, s2);
    } else {
      LookUpOk(s, t, task, ch, s2);
      LookUpKeepsRows(s, t, task, ch);
      DriftKeepsOwned(s, s2, t);
    }
  }

  lemma BindTurn(s: State, t: nat, task: Task, ch: Choice, s2: State)
    requires Owned(s) && Apart(s) && t in s.tasks && s.tasks[t] == task && task.pc.Bind? && Truthful(s, task, ch)
    requires s2 == BindEvent(s, t, task, ch) && Claims(s2) && UniqueEvents(s2.rows)
    ensures Owned(s2)
  {
    hide Claims, UniqueEvents, Apart, NoneCarries, Drift;
    assert TaskOk(s.rows, task);
    var v := Bound(task);
    if v == task.local.event || (ch.row != task.sid && Carries(s.rows, ch.row, v)) {
      SameRowsDrift(s.rows);
      DriftKeepsOwned(s, s2, t);
    } else {
      SectionKeepsOwned(s, s2, t, task.sid);
    }
  }

  /** A stage leaves, goes on with the same rows, or moves a session that is midway. */
  lemma AdvanceShape(s: State, t: nat, task: Task, stage: nat, s2: State, sid: nat)
    requires s2 == Advance(s, t, task, stage) && sid == task.sid && sid in s.rows
    ensures OthersStay(s, s2, t) && s2.log == s.log
    ensures s2.rows != s.rows ==>
              && Midway(task.local.life) && sid in s2.rows && s2.rows == s.rows[sid := s2.rows[sid]]
              && s2.rows[sid].event == s.rows[sid].event && s2.rows[sid].command == s.rows[sid].command
              && t in s2.tasks && s2.tasks[t] == task.(pc := Reload(stage + 1))
    ensures s2.rows == s.rows && t in s2.tasks ==>
              s2.tasks[t] == task.(pc := Reload(stage + 1)) || s2.tasks[t] == task.(pc := Decide(stage + 1)) ||
              s2.tasks[t] == task.(pc := Judge)
  {
    hide WriteLife;
  }

  lemma DecideTurn(s: State, t: nat, task: Task, stage: nat, s2: State)
    requires Owned(s) && Apart(s) && t in s.tasks && s.tasks[t] == task && task.pc == Decide(stage)
    requires s2 == Advance(s, t, task, stage) && Claims(s2) && UniqueEvents(s2.rows)
    ensures Owned(s2)
  {
    hide Claims, UniqueEvents, Apart, Drift, Advance, OthersStay;
    assert TaskOk(s.rows, task);
    AdvanceShape(s, t, task, stage, s2, task.sid);
    if s2.rows == s.rows {
      SameRowsDrift(s.rows);
      DriftKeepsOwned(s, s2, t);
    } else {
      SectionKeepsOwned(s, s2, t, task.sid);
    }
  }

  lemma ClaimTurn(s: State, t: nat, task: Task, ch: Choice, s2: State)
    requires Owned(s) && Apart(s) && t in s.tasks && s.tasks[t] == task && task.pc == Claim
    requires s2 == ClaimCommand(s, t, task, ch) && Claims(s2) && UniqueEvents(s2.rows)
    ensures Owned(s2)
  {
    hide Claims, UniqueEvents, Apart, Drift;
    assert TaskOk(s.rows, task);
    if s2.rows == s.rows {
      SameRowsDrift(s.rows);
      DriftKeepsOwned(s, s2, t);
    } else {
      SectionKeepsOwned(s, s2, t, task.sid);
    }
  }

  lemma CallTurn(s: State, t: nat, task: Task, ch: Choice, s2: State)
    requires Owned(s) && t in s.tasks && s.tasks[t] == task && task.pc == Call
    requires s2 == CallOpener(s, t, task, ch) && Claims(s2) && UniqueEvents(s2.rows)
    ensures Owned(s2)
  {
    hide Claims, UniqueEvents, Final;
    assert TaskOk(s.rows, task);
    forall u | u in s2.tasks
      ensures TaskOk(s2.rows, s2.tasks[u])
    {
      assert u in s.tasks && TaskOk(s.rows, s.tasks[u]);
    }
  }

  lemma FinalRowDrifts(rows: map<nat, Row>, sid: nat, row: Row)
    requires sid in rows && row.event == rows[sid].event && row.command == rows[sid].command
    requires Final(rows[sid].life) && Final(row.life)
    ensures Drift(rows, rows[sid := row])
  {
  }

  lemma FinishDrifts(s: State, t: nat, task: Task, ch: Choice, part: nat, s2: State)
    requires task.sid in s.rows && Final(s.rows[task.sid].life) && OwnerOk(s, task) && task.pc.Finish?
    requires s2 == Complete(s, t, task, ch, part) && t in s.tasks && s.tasks[t] == task
    ensures Drift(s.rows, s2.rows)
  {
    hide Drift, WriteLife;
    SameRowsDrift(s.rows);
    var row := s.rows[task.sid];
    FinalRowDrifts(s.rows, task.sid, WriteLife(row, task.local, OpenRequested));
    FinalRowDrifts(s.rows, task.sid, WriteLife(row, task.local, Closed));
  }

  lemma FinishMovesOne(s: State, t: nat, task: Task, ch: Choice, part: nat, s2: State)
    requires t in s.tasks && s.tasks[t] == task && task.pc.Finish? && s2 == Complete(s, t, task, ch, part)
    ensures s2.log == s.log && OthersStay(s, s2, t) && (t in s2.tasks ==> s2.tasks[t].pc.Finish?)
  {
    hide WriteLife;
  }

  lemma OutsideDrifts(s: State, a: Action, s2: State)
    requires Enabled(s, a) && !a.Turn? && s2 == Apply(s, a)
    ensures Drift(s.rows, s2.rows) && s2.log == s.log
  {
    hide WriteLife;
  }

  lemma OutsideTasks(s: State, a: Action, s2: State)
    requires Enabled(s, a) && !a.Turn? && s2 == Apply(s, a)
    ensures OthersStay(s, s2, Actor(a))
    ensures a.SubmitPlate? || a.SubmitQr? ==> Actor(a) in s2.tasks && TaskOk(s2.rows, s2.tasks[Actor(a)])
    ensures !(a.SubmitPlate? || a.SubmitQr?) ==> forall u | u in s2.tasks :: u in s.tasks && s2.tasks[u] == s.tasks[u]
  {
    hide Synced, Carried, WriteLife;
  }

  lemma OwnedStep(s: State, a: Action)
    requires Owned(s) && Apart(s) && Enabled(s, a)
    ensures Owned(Apply(s, a))
  {
    hide Claims, UniqueEvents, Apart, Truthful, TakeTurn, Drift, TaskOk, OthersStay, Complete, CallOpener;
    var s2 := Apply(s, a);
    ActionKeepsClaims(s, a);
    UniqueStep(s, a);
    if !a.Turn? {
      OutsideOwned(s, a, s2);
    } else {
      TurnOwned(s, a.task, s.tasks[a.task], a.choice, s2);
    }
  }

  lemma OutsideOwned(s: State, a: Action, s2: State)
    requires Owned(s) && Enabled(s, a) && !a.Turn? && s2 == Apply(s, a) && Claims(s2) && UniqueEvents(s2.rows)
    ensures Owned(s2)
  {
    hide Claims, UniqueEvents, Enabled, Apply, Drift, TaskOk;
    OutsideDrifts(s, a, s2);
    OutsideTasks(s, a, s2);
    var t := Actor(a);
    if t in s2.tasks && !(a.SubmitPlate? || a.SubmitQr?) {
      DriftKeepsTask(s.rows, s2.rows, s2.tasks[t]);
    }
    DriftKeepsOwned(s, s2, t);
  }

  lemma TurnOwned(s: State, t: nat, task: Task, ch: Choice, s2: State)
    requires Owned(s) && Apart(s) && t in s.tasks && s.tasks[t] == task && Truthful(s, task, ch)
    requires s2 == TakeTurn(s, t, task, ch) && Claims(s2) && UniqueEvents(s2.rows)
    ensures Owned(s2)
  {
    hide Claims, UniqueEvents, Apart, Truthful, Drift, OthersStay, Complete, CallOpener;
    if InSection(task) {
      hide TakeTurn, TaskOk;
      SectionTurn(s, t, task, ch, s2);
    } else if task.pc.Call? {
      CallTurn(s, t, task, ch, s2);
    } else {
      TaskIsOk(s, t);
      FinishDrifts(s, t, task, ch, task.pc.part, s2);
      FinishMovesOne(s, t, task, ch, task.pc.part, s2);
      DriftKeepsOwned(s, s2, t);
    }
  }

  /** Sessions that have not come to an exit. */
  ghost predicate Fresh(s: State)
  {
    Quiet(s) && forall sid | sid in s.rows :: s.rows[sid].event == 0 && s.rows[sid].command == 0
  }

  /** No two submissions work on copies of one session at any point before the last action. */
  ghost predicate ApartBefore(start: State, acts: seq<Action>)
  {
    acts != [] ==> ApartRun(start, acts[..|acts| - 1])
  }

  lemma {:induction false} OwnedAlways(start: State, acts: seq<Action>)
    requires Fresh(start) && Possible(start, acts) && ApartBefore(start, acts)
    ensures Owned(After(start, acts))
  {
    if acts == [] {
      QuietClaims(start);
    } else {
      hide Owned, Apart, Enabled, Apply, Fresh;
      OwnedAlways(start, acts[..|acts| - 1]);
      OwnedStep(After(start, acts[..|acts| - 1]), acts[|acts| - 1]);
    }
  }

  /** If no two submissions have overlapped on one session before the opener, one event opens the barrier for at most
      one session, once, and that session carries the event for good. Submissions for other sessions may interleave. */
  lemma OneSessionPerEvent(start: State, acts: seq<Action>, i: nat, j: nat)
    requires Fresh(start) && Possible(start, acts) && ApartBefore(start, acts)
    requires i <= j < |After(start, acts).log|
    ensures var s := After(start, acts);
            && (s.log[i].event == s.log[j].event != 0 ==> i == j)
            && (s.log[j].event != 0 ==> s.log[j].sid in s.rows && s.rows[s.log[j].sid].event == s.log[j].event)
  {
    hide Possible, ApartBefore, After, Claims, UniqueEvents;
    OwnedAlways(start, acts);
    var s := After(start, acts);
    OneOpeningPerSession(start, acts, i, j);
    OneOpeningPerSession(start, acts, i, i);
    assert s.log[i] in s.log && s.log[j] in s.log;
    if s.log[i].event == s.log[j].event != 0 {
      SameCarrier(s.rows, s.log[i].sid, s.log[j].sid);
    }
  }

  lemma {:induction false} NotApart(start: State, acts: seq<Action>) returns (n: nat, t: nat, u: nat)
    requires !ApartRun(start, acts)
    ensures n <= |acts| && Overlap(After(start, acts[..n]), t, u)
  {
    if Apart(After(start, acts)) {
      n, t, u := NotApart(start, acts[..|acts| - 1]);
      assert acts[..|acts| - 1][..n] == acts[..n];
    } else {
      t, u :| Overlap(After(start, acts), t, u);
      n := |acts|;
      assert acts[..n] == acts;
    }
  }

  lemma LogGrows(s: State, a: Action)
    requires Enabled(s, a)
    ensures s.log <= Apply(s, a).log && |Apply(s, a).log| <= |s.log| + 1
  {
    hide TakeTurn, Truthful;
    if a.Turn? {
      TurnLog(s, a.task, s.tasks[a.task], a.choice);
    } else {
      OutsideIsPlain(s, a, Actor(a));
    }
  }

  lemma {:induction false} LogOnlyGrows(start: State, acts: seq<Action>, n: nat)
    requires Possible(start, acts) && n <= |acts|
    ensures |After(start, acts[..n]).log| <= |After(start, acts).log|
  {
    hide Enabled, Apply;
    if n < |acts| {
      var rest := acts[..|acts| - 1];
      LogOnlyGrows(start, rest, n);
      assert rest[..n] == acts[..n];
      LogGrows(After(start, rest), acts[|acts| - 1]);
    } else {
      assert acts[..n] == acts;
    }
  }

  /** Whenever one event does open twice, two submissions overlapped on one session before the second opening. */
  lemma {:induction false} SecondOpeningNeedsOverlap(start: State, acts: seq<Action>, i: nat, j: nat)
    returns (n: nat, t: nat, u: nat)
    requires Fresh(start) && Possible(start, acts) && i < j < |After(start, acts).log|
    requires After(start, acts).log[i].event == After(start, acts).log[j].event != 0
    ensures n <= |acts| && |After(start, acts[..n]).log| <= j && Overlap(After(start, acts[..n]), t, u)
  {
    hide ApartRun, Apart, Overlap, Enabled, Apply;
    if acts == [] {
      assert false;
    } else {
      var rest, a := acts[..|acts| - 1], acts[|acts| - 1];
      LogGrows(After(start, rest), a);
      if j < |After(start, rest).log| {
        n, t, u := SecondOpeningNeedsOverlap(start, rest, i, j);
      } else {
        if ApartRun(start, rest) {
          OneSessionPerEvent(start, acts, i, j);
        }
        n, t, u := NotApart(start, rest);
        LogOnlyGrows(start, rest, n);
      }
      assert rest[..n] == acts[..n];
    }
  }

  lemma SameCarrier(rows: map<nat, Row>, a: nat, b: nat)
    requires UniqueEvents(rows) && a in rows && b in rows && rows[a].event == rows[b].event != 0
    ensures a == b
  {
  }
}

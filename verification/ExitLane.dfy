/** The exit controller as a program: app/application/exit_lane.py with start_exit and complete_authorized_exit of
    app/services/parking_sessions.py, one submission from start to end while every other task waits. Whatever it does
    is a run of the protocol in ExitGate. */
module ExitLane {
  import CameraSets
  import opened ExitGate
  import opened ExitProgress

  datatype Outcome =
    | Duplicate | NoSession | InProgress | PaymentRequired | Review | GateUnassigned | GateUnavailable | Raised | Done

  lemma Replaced(rows: map<nat, Row>, waiting: map<nat, Task>, log: seq<Opening>, t: nat, task: Task, task2: Task)
    requires t !in waiting
    ensures PutTask(State(rows, waiting[t := task], log), t, task2) == State(rows, waiting[t := task2], log)
    ensures Leave(State(rows, waiting[t := task], log), t) == State(rows, waiting, log)
  {
    assert waiting[t := task][t := task2] == waiting[t := task2];
    assert waiting[t := task] - {t} == waiting;
  }

  /** What start_exit does to the rows: nothing for an event a session carries or if none is open; otherwise the plate's
      newest session is left to its owner, or bound and decided. */
  ghost predicate Started(before: map<nat, Row>, after: map<nat, Row>, plate: nat, event: nat, paid: bool,
                          outcome: Outcome, sid: nat)
  {
    || (Carries(before, sid, event) && after == before && outcome == Done)
    || (Unused(before, event) && NoneOpen(before, plate) && after == before && outcome == NoSession)
    || (Unused(before, event) && Newest(before, plate, sid) && Taken(before, after, event, paid, outcome, sid))
  }

  predicate Taken(before: map<nat, Row>, after: map<nat, Row>, event: nat, paid: bool, outcome: Outcome, sid: nat)
    requires sid in before
  {
    var row := before[sid];
    if OwnedByOther(row, event) || row.life == Closed then after == before && outcome == Done
    else after == before[sid := Decided(row, event, paid)] && outcome == if MayGoOn(row.life) then Done else Raised
  }

  /** What a whole submission leaves behind. */
  ghost predicate Finished(s: State, after: State, plate: nat, event: nat, ch: Choice)
  {
    || (exists r :: Carries(s.rows, r, event) && after == Judged(s, r, s.rows[r], event, ch))
    || (Unused(s.rows, event) && NoneOpen(s.rows, plate) && after == s)
    || (Unused(s.rows, event) && exists n :: Newest(s.rows, plate, n) && after == Submitted(s, n, event, ch))
  }

  class ExitController {
    var rows: map<nat, Row>
    var log: seq<Opening>
    ghost var waiting: map<nat, Task>
    ghost var start: State
    ghost var acts: seq<Action>

    /** What has happened so far is a run, and this submission stands here in it. */
    ghost predicate Running(t: nat, task: Task)
      reads this
    {
      t !in waiting && Possible(start, acts) && After(start, acts) == State(rows, waiting[t := task], log)
    }

    ghost predicate Idle()
      reads this
    {
      Possible(start, acts) && After(start, acts) == State(rows, waiting, log)
    }

    constructor (s: State)
      requires Quiet(s)
      ensures Idle() && start == s && rows == s.rows && log == [] && waiting == map[]
    {
      rows, log, waiting, start, acts := s.rows, [], map[], s, [];
    }

    // ----- Queries -----

    method ActiveForPlate(plate: nat) returns (found: bool, sid: nat)
      ensures found ==> Newest(rows, plate, sid)
      ensures !found ==> NoneOpen(rows, plate)
    {
      found, sid := false, 0;
      var rest := rows.Keys;
      while rest != {}
        invariant rest <= rows.Keys
        invariant found ==> sid in rows && rows[sid].open && rows[sid].plate == plate
        invariant forall r | r in rows && r !in rest && rows[r].open && rows[r].plate == plate :: found && r <= sid
        decreases |rest|
      {
        CameraSets.NonEmptyIds(rest);
        var r :| r in rest;
        if rows[r].open && rows[r].plate == plate && (!found || sid < r) {
          found, sid := true, r;
        }
        rest := rest - {r};
      }
    }

    method ByExitEvent(event: nat) returns (found: bool, sid: nat)
      ensures found ==> Carries(rows, sid, event)
      ensures !found ==> forall r | r in rows :: !Carries(rows, r, event)
    {
      found, sid := false, 0;
      var rest := rows.Keys;
      while rest != {} && !found
        invariant rest <= rows.Keys
        invariant found ==> Carries(rows, sid, event)
        invariant !found ==> forall r | r in rows && r !in rest :: !Carries(rows, r, event)
        decreases |rest|
      {
        CameraSets.NonEmptyIds(rest);
        var r :| r in rest;
        if event != 0 && rows[r].event == event {
          found, sid := true, r;
        }
        rest := rest - {r};
      }
    }

    // ----- Bookkeeping of the run -----

    ghost method Took(t: nat, task: Task, ch: Choice, before: State, task2: Task)
      requires t !in waiting && t in before.tasks && before.tasks[t] == task
      requires Possible(start, acts) && After(start, acts) == before && Truthful(before, task, ch)
      requires TakeTurn(before, t, task, ch) == State(rows, waiting[t := task2], log)
      modifies `acts
      ensures Running(t, task2) && acts == old(acts) + [Turn(t, ch)]
    {
      acts := acts + [Turn(t, ch)];
      assert acts[..|acts| - 1] == old(acts);
    }

    ghost method Ended(t: nat, task: Task, ch: Choice, before: State)
      requires t in before.tasks && before.tasks[t] == task
      requires Possible(start, acts) && After(start, acts) == before && Truthful(before, task, ch)
      requires TakeTurn(before, t, task, ch) == State(rows, waiting, log)
      modifies `acts
      ensures Idle() && acts == old(acts) + [Turn(t, ch)]
    {
      acts := acts + [Turn(t, ch)];
      assert acts[..|acts| - 1] == old(acts);
    }

    // ----- Commits -----

    /** db.refresh after a commit. */
    method Refresh(t: nat, ghost task: Task, ch: Choice, sid: nat, stage: nat) returns (row: Row)
      requires Running(t, task) && task.pc == Reload(stage) && task.sid == sid && sid in rows
      modifies `acts
      ensures row == rows[sid] && Running(t, task.(pc := Decide(stage), local := row))
    {
      row := rows[sid];
      Replaced(rows, waiting, log, t, task, task.(pc := Decide(stage), local := row));
      Took(t, task, ch, State(rows, waiting[t := task], log), task.(pc := Decide(stage), local := row));
    }

    /** One conditional transition of start_exit with its commit and refresh. */
    method Transition(t: nat, ghost task: Task, ch: Choice, sid: nat, row: Row, stage: nat, paid: bool)
      returns (after: Row)
      requires Running(t, task) && task.pc == Decide(stage) && stage <= 5
      requires stage == 0 ==> MayGoOn(row.life)
      requires task.sid == sid && task.local == row && task.allow == paid && sid in rows && rows[sid] == row
      requires row.open || !Payable(row.life)
      modifies `rows, `acts
      ensures Running(t, task.(pc := Decide(stage + 1), local := after))
      ensures after == row.(life := Target(stage, row.life, paid)) && rows == old(rows)[sid := after]
      ensures after.open || !Payable(after.life)
    {
      hide Possible, After;
      ghost var before := State(rows, waiting[t := task], log);
      var next := Target(stage, row.life, paid);
      if next == row.life {
        after := row;
        assert rows[sid := row] == rows;
        Replaced(rows, waiting, log, t, task, task.(pc := Decide(stage + 1)));
        Took(t, task, ch, before, task.(pc := Decide(stage + 1)));
      } else {
        ghost var written := task.(pc := Reload(stage + 1));
        rows := rows[sid := WriteLife(rows[sid], row, next)];
        Replaced(rows, waiting, log, t, task, written);
        Took(t, task, ch, before, written);
        after := Refresh(t, written, ch, sid, stage + 1);
      }
    }

    // ----- start_exit -----

    /** The session that already carries the event; one this submission already holds is not read again. */
    method ChooseByEvent(t: nat, ghost task: Task, ch: Choice, event: nat, sid: nat, row: Row)
      returns (decided: bool, sid2: nat, row2: Row)
      requires Running(t, task) && task.pc == ByExit && task.event == event && task.sid == sid
               && task.local == row && sid in rows && rows[sid] == row
      modifies `acts
      ensures sid2 in rows && row2 == rows[sid2]
      ensures Running(t, task.(pc := if decided then Judge else Hold, sid := sid2, local := row2))
      ensures if decided then Carries(rows, sid2, event) else sid2 == sid && Unused(rows, event)
    {
      hide Possible, After, Carries;
      ghost var before := State(rows, waiting[t := task], log);
      decided, sid2 := ByExitEvent(event);
      if decided {
        CarrierIsRow(rows, sid2, event);
        row2 := if sid2 == sid then row else rows[sid2];
      } else {
        NotCarried(rows, event, ch.row);
        sid2, row2 := sid, row;
      }
      ghost var next := task.(pc := if decided then Judge else Hold, sid := sid2, local := row2);
      Replaced(rows, waiting, log, t, task, next);
      Took(t, task, if decided then ch.(row := sid2) else ch, before, next);
    }

    /** Otherwise the plate's newest open session, unless another event owns its exit attempt. */
    method ChooseByPlate(t: nat, ghost task: Task, ch: Choice, event: nat, sid: nat, row: Row)
      returns (alive: bool, decided: bool, sid2: nat, row2: Row)
      requires Running(t, task) && task.pc == Hold && task.event == event && task.sid == sid
               && task.local == row && sid in rows && rows[sid] == row && Unused(rows, event)
      modifies `acts
      ensures alive ==> Newest(rows, row.plate, sid2) && row2 == rows[sid2]
                        && Running(t, task.(pc := if decided then Judge else Bind, sid := sid2, local := row2))
      ensures alive ==> (decided <==> OwnedByOther(row2, event) || row2.life == Closed)
      ensures !alive ==> Idle() && NoneOpen(rows, row.plate)
    {
      hide Possible, After, Newest, NoneOpen, Unused, TakeTurn, OwnedByOther;
      ghost var before := State(rows, waiting[t := task], log);
      alive, sid2 := ActiveForPlate(row.plate);
      row2, decided := row, false;
      if !alive {
        NoneHeld(before, t, task, ch);
        Replaced(rows, waiting, log, t, task, task);
        Ended(t, task, ch, before);
      } else {
        NewestIsRow(rows, row.plate, sid2);
        row2 := if sid2 == sid then row else rows[sid2];
        decided := (row2.event != 0 && event != 0 && (row2.event == event || row2.life != Denied))
                   || row2.life == Closed;
        OwnedHere(rows, sid2, event);
        SomeHeld(before, t, task, ch, sid2);
        ghost var chosen := task.(pc := if decided then Judge else Bind, sid := sid2, local := row2);
        Replaced(rows, waiting, log, t, task, chosen);
        Took(t, task, ch.(row := sid2), before, chosen);
      }
    }

    method ChooseSession(t: nat, ghost task: Task, ch: Choice, event: nat, sid: nat, row: Row)
      returns (alive: bool, decided: bool, sid2: nat, row2: Row)
      requires Running(t, task) && task.pc == ByExit && task.event == event && task.sid == sid
               && task.local == row && sid in rows && rows[sid] == row
      modifies `acts
      ensures alive ==> sid2 in rows && row2 == rows[sid2]
                        && Running(t, task.(pc := if decided then Judge else Bind, sid := sid2, local := row2))
      ensures alive ==> Carries(rows, sid2, event) || Unused(rows, event)
      ensures alive && Carries(rows, sid2, event) ==> decided
      ensures alive && Unused(rows, event) ==>
                Newest(rows, row.plate, sid2) && (decided <==> OwnedByOther(row2, event) || row2.life == Closed)
      ensures !alive ==> Idle() && Unused(rows, event) && NoneOpen(rows, row.plate)
    {
      hide Running, Idle, OwnedByOther;
      alive := true;
      decided, sid2, row2 := ChooseByEvent(t, task, ch, event, sid, row);
      if !decided {
        alive, decided, sid2, row2 := ChooseByPlate(t, task.(pc := Hold), ch, event, sid2, row2);
      }
    }

    method CarriedElsewhere(event: nat, sid: nat) returns (found: bool, other: nat)
      ensures found ==> other != sid && Carries(rows, other, event)
      ensures !found ==> NoneCarries(rows, event, sid)
    {
      found, other := false, 0;
      var rest := rows.Keys;
      while rest != {} && !found
        invariant rest <= rows.Keys
        invariant found ==> other != sid && Carries(rows, other, event)
        invariant !found ==> forall r | r in rows && r !in rest && r != sid :: !Carries(rows, r, event)
        decreases |rest|
      {
        CameraSets.NonEmptyIds(rest);
        var r :| r in rest;
        if event != 0 && r != sid && rows[r].event == event {
          found, other := true, r;
        }
        rest := rest - {r};
      }
    }

    /** The commit of an event id no other session carries, and the refresh after it. */
    method CommitEvent(t: nat, ghost task: Task, ch: Choice, sid: nat, row: Row, v: nat, ghost any: nat)
      returns (row2: Row)
      requires Running(t, task) && task.pc == Bind && task.sid == sid && task.local == row && v == Bound(task)
      requires sid in rows && rows[sid] == row
      requires NoneCarries(rows, v, sid) || (v == row.event && any != sid && Carries(rows, any, v))
      modifies `rows, `acts
      ensures row2 == row.(event := v) && rows == old(rows)[sid := row2]
      ensures Running(t, task.(pc := Decide(0), local := row2))
    {
      hide Possible, After, Carries, NoneCarries;
      ghost var before := State(rows, waiting[t := task], log);
      ghost var query := if NoneCarries(rows, v, sid) then sid else any;
      if v != row.event {
        rows := rows[sid := rows[sid].(event := v)];
      }
      assert rows == old(rows)[sid := row.(event := v)];
      ghost var bound := task.(pc := Reload(0));
      Replaced(rows, waiting, log, t, task, bound);
      Took(t, task, ch.(row := query), before, bound);
      row2 := Refresh(t, bound, ch, sid, 0);
    }

    /** The commit of the event id; the unique index hands the attempt to the session that carries it. */
    method BindSession(t: nat, ghost task: Task, ch: Choice, event: nat, sid: nat, row: Row)
      returns (decided: bool, sid2: nat, row2: Row)
      requires Running(t, task) && task.pc == Bind && task.event == event && task.sid == sid
               && task.local == row && sid in rows && rows[sid] == row
      modifies `rows, `acts
      ensures sid2 in rows && row2 == rows[sid2]
      ensures Running(t, task.(pc := if decided then Judge else Decide(0), sid := sid2, local := row2))
      ensures Unused(old(rows), event) ==> !decided
      ensures !decided ==> && sid2 == sid && row2 == row.(event := if event != 0 then event else row.event)
                           && rows == old(rows)[sid := row2]
    {
      hide Possible, After, Carries, NoneCarries, Unused;
      ghost var before := State(rows, waiting[t := task], log);
      var v := if event != 0 then event else row.event;
      var taken, other := CarriedElsewhere(v, sid);
      if v != row.event && taken {
        CarrierIsNotUnused(rows, other, v);
        decided, sid2, row2 := true, other, rows[other];
        Replaced(rows, waiting, log, t, task, task.(pc := Judge, sid := other, local := row2));
        Took(t, task, ch.(row := other), before, task.(pc := Judge, sid := other, local := row2));
        return;
      }
      row2 := CommitEvent(t, task, ch, sid, row, v, other);
      decided, sid2 := false, sid;
    }

    /** A step that changes nothing stored. */
    ghost method Moved(t: nat, task: Task, ch: Choice, task2: Task)
      requires Running(t, task) && Truthful(State(rows, waiting[t := task], log), task, ch)
      requires TakeTurn(State(rows, waiting[t := task], log), t, task, ch) ==
               PutTask(State(rows, waiting[t := task], log), t, task2)
      modifies `acts
      ensures Running(t, task2)
    {
      hide Possible, After, TakeTurn;
      Replaced(rows, waiting, log, t, task, task2);
      Took(t, task, ch, State(rows, waiting[t := task], log), task2);
    }

    /** The submission ends here without a write. */
    ghost method Returned(t: nat, task: Task, ch: Choice)
      requires Running(t, task) && Truthful(State(rows, waiting[t := task], log), task, ch)
      requires TakeTurn(State(rows, waiting[t := task], log), t, task, ch) ==
               Leave(State(rows, waiting[t := task], log), t)
      modifies `acts
      ensures Idle()
    {
      hide Possible, After, TakeTurn;
      Replaced(rows, waiting, log, t, task, task);
      Ended(t, task, ch, State(rows, waiting[t := task], log));
    }

    ghost method PastStages(t: nat, task: Task, ch: Choice)
      requires Running(t, task) && task.pc == Decide(6)
      modifies `acts
      ensures Running(t, task.(pc := Judge))
    {
      hide Running;
      Moved(t, task, ch, task.(pc := Judge));
    }

    ghost method Refused(t: nat, task: Task, ch: Choice)
      requires Running(t, task) && task.pc == Decide(0)
      requires !MayGoOn(task.local.life)
      modifies `acts
      ensures Idle()
    {
      hide Running, Idle;
      Returned(t, task, ch);
    }

    /** The transitions in their order, each guarded by the lifecycle just read: up to the resolved vehicle. */
    method FirstTransitions(t: nat, ghost task: Task, ch: Choice, sid: nat, row: Row, paid: bool) returns (row2: Row)
      requires Running(t, task) && task.pc == Decide(0) && task.sid == sid && task.local == row && task.allow == paid
      requires MayGoOn(row.life) && (row.open || !Payable(row.life)) && sid in rows && rows[sid] == row
      modifies `rows, `acts
      ensures Running(t, task.(pc := Decide(3), local := row2)) && rows == old(rows)[sid := row2]
      ensures row2 == row.(life := Target(2, Target(1, Target(0, row.life, paid), paid), paid))
      ensures row2.open || !Payable(row2.life)
    {
      hide Running, Target, Payable, MayGoOn;
      row2 := Transition(t, task, ch, sid, row, 0, paid);
      row2 := Transition(t, task.(pc := Decide(1), local := row2), ch, sid, row2, 1, paid);
      row2 := Transition(t, task.(pc := Decide(2), local := row2), ch, sid, row2, 2, paid);
    }

    /** From the price to the decision. */
    method LastTransitions(t: nat, ghost task: Task, ch: Choice, sid: nat, row: Row, paid: bool) returns (row2: Row)
      requires Running(t, task) && task.pc == Decide(3) && task.sid == sid && task.local == row && task.allow == paid
      requires (row.open || !Payable(row.life)) && sid in rows && rows[sid] == row
      modifies `rows, `acts
      ensures Running(t, task.(pc := Decide(6), local := row2)) && rows == old(rows)[sid := row2]
      ensures row2 == row.(life := Target(5, Target(4, Target(3, row.life, paid), paid), paid))
    {
      hide Running, Target, Payable, MayGoOn;
      row2 := Transition(t, task, ch, sid, row, 3, paid);
      row2 := Transition(t, task.(pc := Decide(4), local := row2), ch, sid, row2, 4, paid);
      row2 := Transition(t, task.(pc := Decide(5), local := row2), ch, sid, row2, 5, paid);
    }

    /** Every transition of start_exit, unless the session cannot leave: it ends authorised if paid, else denied. */
    method Transitions(t: nat, ghost task: Task, ch: Choice, sid: nat, row: Row, paid: bool)
      returns (alive: bool, row2: Row)
      requires Running(t, task) && task.pc == Decide(0) && task.sid == sid && task.local == row && task.allow == paid
      requires (row.open || !Payable(row.life)) && sid in rows && rows[sid] == row
      modifies `rows, `acts
      ensures (alive <==> MayGoOn(row.life)) && row2 == Settled(row, paid) && rows == old(rows)[sid := row2]
      ensures if alive then Running(t, task.(pc := Judge, local := row2)) else Idle()
    {
      hide Running, Idle;
      alive, row2 := row.life != Entering && row.life != Cancelled && row.life != Closed, row;
      if !alive {
        assert rows[sid := row] == rows;
        Refused(t, task, ch);
        return;
      }
      row2 := FirstTransitions(t, task, ch, sid, row2, paid);
      row2 := LastTransitions(t, task.(pc := Decide(3), local := row2), ch, sid, row2, paid);
      PastStages(t, task.(pc := Decide(6), local := row2), ch);
    }

    method StartExit(t: nat, ghost task: Task, ch: Choice, event: nat, sid: nat, row: Row, paid: bool)
      returns (outcome: Outcome, sid2: nat, row2: Row)
      requires Running(t, task) && task.pc == ByExit && task.event == event && task.sid == sid && task.local == row
      requires task.allow == paid && sid in rows && rows[sid] == row
      modifies `rows, `acts
      ensures Started(old(rows), rows, row.plate, event, paid, outcome, sid2)
      ensures outcome == Done ==> sid2 in rows && row2 == rows[sid2]
      ensures if outcome == Done then Running(t, task.(pc := Judge, sid := sid2, local := row2)) else Idle()
    {
      hide Running, Idle, Newest, NoneOpen, Unused, Carries, Settled, OwnedByOther;
      var alive, decided;
      alive, decided, sid2, row2 := ChooseSession(t, task, ch, event, sid, row);
      if !alive {
        return NoSession, sid2, row2;
      }
      if !decided {
        NewestIsOpen(rows, row.plate, sid2);
        ghost var chosen := task.(pc := Bind, sid := sid2, local := row2);
        decided, sid2, row2 := BindSession(t, chosen, ch, event, sid2, row2);
        if !decided {
          alive, row2 := Transitions(t, task.(pc := Decide(0), sid := sid2, local := row2), ch, sid2, row2, paid);
          if !alive {
            return Raised, sid2, row2;
          }
        }
      }
      outcome := Done;
    }

    // ----- The barrier -----

    /** Why a submission with this copy of its session does not go on to the barrier; Done if it does. */
    function Verdict(event: nat, row: Row, gate: bool): Outcome
    {
      var going := row.life == Authorized || row.life == OpenRequested || row.life == Passed || row.life == Closed;
      if row.event != 0 && event != 0 && row.event != event && going then InProgress
      else if row.life == Denied then PaymentRequired
      else if !going then Review
      else if row.life != Authorized then Duplicate
      else if !gate then GateUnassigned
      else if row.command != 0 then InProgress
      else Done
    }

    /** The compare-and-set on the command id, and the refresh after it. */
    method ClaimBarrier(t: nat, ghost task: Task, ch: Choice, sid: nat) returns (won: bool, row: Row)
      requires Running(t, task) && task.pc == Claim && task.sid == sid && sid in rows && ch.command != 0
      modifies `rows, `acts
      ensures won <==> old(rows)[sid].command == 0
      ensures won ==> row == old(rows)[sid].(command := ch.command) && rows == old(rows)[sid := row]
      ensures won ==> Running(t, task.(pc := Call, local := row, command := ch.command))
      ensures !won ==> Idle() && rows == old(rows)
    {
      hide Possible, After;
      row := rows[sid];
      won := row.command == 0;
      if !won {
        Returned(t, task, ch);
        return;
      }
      ghost var before := State(rows, waiting[t := task], log);
      rows := rows[sid := row.(command := ch.command)];
      row := rows[sid];
      ghost var claimed := task.(pc := Claimed, command := ch.command);
      Replaced(rows, waiting, log, t, task, claimed);
      Took(t, task, ch, before, claimed);
      Moved(t, claimed, ch, claimed.(pc := Call, local := row));
    }

    /** The opener is called once; if it fails the claim stays. */
    method CallBarrier(t: nat, ghost task: Task, ch: Choice, event: nat, sid: nat, command: nat) returns (success: bool)
      requires Running(t, task) && task.pc == Call && task.event == event && task.sid == sid
      requires task.command == command
      modifies `log, `acts
      ensures log == old(log) + [Opening(sid, command, event)]
      ensures success == ch.success
      ensures if success then Running(t, task.(pc := Finish(0))) else Idle()
    {
      hide Possible, After;
      ghost var before := State(rows, waiting[t := task], log);
      log := log + [Opening(sid, command, event)];
      success := ch.success;
      Replaced(rows, waiting, log, t, task, task.(pc := Finish(0)));
      if success {
        Took(t, task, ch, before, task.(pc := Finish(0)));
      } else {
        Ended(t, task, ch, before);
      }
    }

    /** complete_authorized_exit up to the second commit: the request is stored and the session read again. */
    method RequestOpen(t: nat, ghost task: Task, ch: Choice, sid: nat, row: Row) returns (alive: bool, after: Row)
      requires Running(t, task) && task.pc == Finish(0) && task.sid == sid && task.local == row && sid in rows
      requires rows[sid] == row
      modifies `rows, `acts
      ensures alive <==> row.life != Denied
      ensures after == if row.life == Authorized then row.(life := OpenRequested, open := true) else row
      ensures rows == old(rows)[sid := after]
      ensures if alive then Running(t, task.(pc := Finish(2), local := after)) else Idle()
    {
      hide Possible, After;
      after := row;
      alive := row.life != Denied;
      assert rows == rows[sid := row];
      if !alive {
        Returned(t, task, ch);
      } else if row.life == Authorized {
        ghost var before := State(rows, waiting[t := task], log);
        rows := rows[sid := WriteLife(rows[sid], row, OpenRequested)];
        Replaced(rows, waiting, log, t, task, task.(pc := Finish(1)));
        Took(t, task, ch, before, task.(pc := Finish(1)));
        after := rows[sid];
        Moved(t, task.(pc := Finish(1)), ch, task.(pc := Finish(2), local := after));
      } else {
        Moved(t, task, ch, task.(pc := Finish(2)));
      }
    }

    /** The rest of it: nothing more for a session already past, otherwise passage by fallback. */
    method FinishExit(t: nat, ghost task: Task, ch: Choice, sid: nat, row: Row, command: nat)
      requires Running(t, task) && task.pc == Finish(2) && task.sid == sid && task.local == row && sid in rows
      requires rows[sid] == row && row.command == task.command == command && command != 0
      modifies `rows, `acts
      ensures Idle()
      ensures rows == if ch.fallback && row.life == OpenRequested
                      then old(rows)[sid := WriteLife(row, row, Closed)] else old(rows)
    {
      hide Possible, After, WriteLife;
      if row.life == Closed || row.life == Passed {
        Returned(t, task, ch);
        return;
      }
      ghost var last := task.(pc := Finish(3));
      Moved(t, task, ch, last);
      if ch.fallback && row.life == OpenRequested {
        ghost var before := State(rows, waiting[t := last], log);
        rows := rows[sid := WriteLife(rows[sid], row, Closed)];
        Replaced(rows, waiting, log, t, last, last);
        Ended(t, last, ch, before);
      } else {
        Returned(t, last, ch);
      }
    }

    method OpenAuthorized(t: nat, ghost task: Task, ch: Choice, event: nat, sid: nat, row: Row)
      returns (outcome: Outcome)
      requires Running(t, task) && task.pc == Judge && task.event == event && task.sid == sid
               && task.local == row && sid in rows && rows[sid] == row
      requires ch.command != 0
      modifies `rows, `log, `acts
      ensures Idle()
      ensures State(rows, waiting, log) == Judged(State(old(rows), waiting, old(log)), sid, row, event, ch)
      ensures outcome == Done <==> Clear(row, event, ch.gate) && ch.success
      ensures outcome == GateUnavailable <==> Clear(row, event, ch.gate) && !ch.success
    {
      hide Running, Idle;
      outcome := Verdict(event, row, ch.gate);
      if outcome != Done {
        Declined(t, task, ch, event, row);
        assert rows[sid := row] == rows;
        return;
      }
      Accepted(t, task, ch, event, row);
      ghost var claiming := task.(pc := Claim);
      var won, after := ClaimBarrier(t, claiming, ch, sid);
      if !won {
        return InProgress;
      }
      ghost var calling := claiming.(pc := Call, local := after, command := ch.command);
      var success := CallBarrier(t, calling, ch, event, sid, ch.command);
      if !success {
        return GateUnavailable;
      }
      ghost var finishing := calling.(pc := Finish(0));
      var alive;
      alive, after := RequestOpen(t, finishing, ch, sid, after);
      if !alive {
        return Raised;
      }
      FinishExit(t, finishing.(pc := Finish(2), local := after), ch, sid, after, ch.command);
      LastRow(old(rows), sid, row, ch);
    }

    ghost method Declined(t: nat, task: Task, ch: Choice, event: nat, row: Row)
      requires Running(t, task) && task.pc == Judge && task.event == event && task.local == row
      requires Verdict(event, row, ch.gate) != Done
      modifies `acts
      ensures Idle()
    {
      hide Running, Idle;
      Returned(t, task, ch);
    }

    ghost method Accepted(t: nat, task: Task, ch: Choice, event: nat, row: Row)
      requires Running(t, task) && task.pc == Judge && task.event == event && task.local == row
      requires Verdict(event, row, ch.gate) == Done
      modifies `acts
      ensures Running(t, task.(pc := Claim))
    {
      hide Running;
      Moved(t, task, ch, task.(pc := Claim));
    }

    // ----- Submissions -----

    method SubmitSession(t: nat, ghost task: Task, ch: Choice, event: nat, sid: nat) returns (outcome: Outcome)
      requires Running(t, task) && task.pc == Bill && task.event == event && task.sid == sid && sid in rows
               && ch.command != 0
      modifies `rows, `log, `acts
      ensures Idle()
      ensures Finished(State(old(rows), waiting, old(log)), State(rows, waiting, log), old(rows)[sid].plate, event, ch)
      ensures outcome == Done <==> log != old(log) && ch.success
      ensures outcome == GateUnavailable <==> log != old(log) && !ch.success
    {
      hide Running, Idle, Started, Finished, Judged, Clear;
      var row := rows[sid];
      ghost var billed := task.(pc := ByExit, local := row, allow := ch.paid);
      Billed(t, task, ch, row);
      var sid2, row2;
      outcome, sid2, row2 := StartExit(t, billed, ch, event, sid, row, ch.paid);
      ghost var s, s2 := State(old(rows), waiting, log), State(rows, waiting, log);
      if outcome == Done {
        outcome := OpenAuthorized(t, billed.(pc := Judge, sid := sid2, local := row2), ch, event, sid2, row2);
        StartedThenJudged(s, s2, row.plate, event, ch, sid2, row2, State(rows, waiting, log));
      } else {
        StartedOnly(s, s2, row.plate, event, ch, outcome, sid2);
      }
    }

    ghost method Billed(t: nat, task: Task, ch: Choice, row: Row)
      requires Running(t, task) && task.pc == Bill && task.sid in rows && row == rows[task.sid]
      modifies `acts
      ensures Running(t, task.(pc := ByExit, local := row, allow := ch.paid))
    {
      hide Running;
      Moved(t, task, ch, task.(pc := ByExit, local := row, allow := ch.paid));
    }

    ghost method Began(t: nat, a: Action, task: Task)
      requires Idle() && t !in waiting && Enabled(State(rows, waiting, log), a)
      requires Apply(State(rows, waiting, log), a) == State(rows, waiting[t := task], log)
      modifies `acts
      ensures Running(t, task)
    {
      acts := acts + [a];
      assert acts[..|acts| - 1] == old(acts);
    }

    method SubmitQrScan(t: nat, sid: nat, event: nat, ch: Choice) returns (outcome: Outcome)
      requires Idle() && t !in waiting && ch.command != 0
      modifies `rows, `log, `acts
      ensures Idle()
      ensures if sid !in old(rows) || !old(rows)[sid].open
              then outcome == NoSession && rows == old(rows) && log == old(log)
              else Finished(State(old(rows), waiting, old(log)), State(rows, waiting, log), old(rows)[sid].plate, event,
                            ch)
      ensures outcome == Done <==> log != old(log) && ch.success
    {
      hide Possible, After, Finished;
      if sid !in rows || !rows[sid].open {
        return NoSession;
      }
      ghost var task := Task(Bill, rows[sid].plate, event, sid, rows[sid], false, 0);
      Began(t, SubmitQr(t, sid, event), task);
      outcome := SubmitSession(t, task, ch, event, sid);
    }

    method SubmitPlateRead(t: nat, plate: nat, event: nat, ch: Choice) returns (outcome: Outcome)
      requires Idle() && t !in waiting && ch.command != 0
      modifies `rows, `log, `acts
      ensures Idle()
      ensures if Replayed(old(rows), event) || NoneOpen(old(rows), plate)
              then rows == old(rows) && log == old(log)
              else Finished(State(old(rows), waiting, old(log)), State(rows, waiting, log), plate, event, ch)
      ensures Replayed(old(rows), event) ==> outcome == Duplicate
      ensures outcome == Done <==> log != old(log) && ch.success
    {
      hide Possible, After, Newest, NoneOpen, Replayed, Finished;
      ghost var task := Task(Replay, plate, event, 0, BLANK, false, 0);
      Began(t, SubmitPlate(t, plate, event), task);
      var replayed := Replayed(rows, event);
      if replayed {
        Returned(t, task, ch);
        return Duplicate;
      }
      ghost var finding := task.(pc := Find);
      Moved(t, task, ch, finding);
      var found, sid := ActiveForPlate(plate);
      if !found {
        Returned(t, finding, ch);
        return NoSession;
      }
      NewestIsRow(rows, plate, sid);
      ghost var billing := finding.(pc := Bill, sid := sid, local := rows[sid]);
      Moved(t, finding, ch.(row := sid), billing);
      outcome := SubmitSession(t, billing, ch, event, sid);
    }
  }

  lemma LastRow(rows: map<nat, Row>, sid: nat, row: Row, ch: Choice)
    requires sid in rows && row.life == Authorized && ch.success
    ensures var claimed := row.(command := ch.command);
            var requested := claimed.(life := OpenRequested, open := true);
            (if ch.fallback then rows[sid := claimed][sid := requested][sid := WriteLife(requested, requested, Closed)]
                else rows[sid := claimed][sid := requested]) == rows[sid := Opened(row, ch)]
  {
    var claimed := row.(command := ch.command);
    var requested := claimed.(life := OpenRequested, open := true);
    assert ch.fallback ==> WriteLife(requested, requested, Closed) == Opened(row, ch);
    assert rows[sid := claimed][sid := requested] == rows[sid := requested];
    assert rows[sid := requested][sid := Opened(row, ch)] == rows[sid := Opened(row, ch)];
  }

  lemma StartedThenJudged(s: State, s2: State, plate: nat, event: nat, ch: Choice, sid: nat, row: Row, after: State)
    requires Started(s.rows, s2.rows, plate, event, ch.paid, Done, sid) && s2 == s.(rows := s2.rows)
    requires sid in s2.rows && row == s2.rows[sid] && after == Judged(s2, sid, row, event, ch)
    ensures Finished(s, after, plate, event, ch)
    ensures Clear(row, event, ch.gate) <==> after.log != s.log
  {
    hide Newest, NoneOpen, Carries, Settled, Opened, Clear;
    if Unused(s.rows, event) && Newest(s.rows, plate, sid) {
      NewestIsOpen(s.rows, plate, sid);
      NotCarried(s.rows, event, sid);
      OwnedIsLeft(s, s2, event, ch, sid);
    }
  }

  lemma OwnedIsLeft(s: State, s2: State, event: nat, ch: Choice, sid: nat)
    requires sid in s.rows && Unused(s.rows, event) && Taken(s.rows, s2.rows, event, ch.paid, Done, sid)
    requires s2 == s.(rows := s2.rows)
    ensures Judged(s2, sid, s2.rows[sid], event, ch) == Submitted(s, sid, event, ch)
  {
    hide Settled, Opened, Unused;
    NotOwn(s.rows, sid, event);
    if OwnedByOther(s.rows[sid], event) || s.rows[sid].life == Closed {
      NotCleared(s, sid, s.rows[sid], event, ch);
    } else {
      var r := Decided(s.rows[sid], event, ch.paid);
      assert s.rows[sid := r][sid := r] == s.rows[sid := r];
      assert s.rows[sid := r][sid := Opened(r, ch)] == s.rows[sid := Opened(r, ch)];
    }
  }

  lemma RaisedIsTaken(rows: map<nat, Row>, after: map<nat, Row>, plate: nat, event: nat, ch: Choice, sid: nat)
    requires Started(rows, after, plate, event, ch.paid, Raised, sid)
    ensures Newest(rows, plate, sid) && Unused(rows, event) && sid in rows && !MayGoOn(rows[sid].life)
    ensures !OwnedByOther(rows[sid], event) && rows[sid].life != Closed
    ensures after == rows[sid := Decided(rows[sid], event, ch.paid)] && after[sid].life == rows[sid].life
  {
    hide Carries, NoneOpen, Unused;
  }

  lemma NoSessionIsNothing(rows: map<nat, Row>, after: map<nat, Row>, plate: nat, event: nat, ch: Choice,
                           outcome: Outcome, sid: nat)
    requires Started(rows, after, plate, event, ch.paid, outcome, sid) && outcome != Done && outcome != Raised
    ensures outcome == NoSession && after == rows && Unused(rows, event) && NoneOpen(rows, plate)
  {
    hide Carries, NoneOpen, Unused;
  }

  lemma StartedOnly(s: State, s2: State, plate: nat, event: nat, ch: Choice, outcome: Outcome, sid: nat)
    requires Started(s.rows, s2.rows, plate, event, ch.paid, outcome, sid) && s2 == s.(rows := s2.rows)
    requires outcome != Done
    ensures Finished(s, s2, plate, event, ch) && (outcome == NoSession || outcome == Raised)
  {
    hide Newest, NoneOpen, Carries, Unused, Opened, Clear, Started;
    if outcome == Raised {
      RaisedIsTaken(s.rows, s2.rows, plate, event, ch, sid);
      NotGoing(s, sid, s2.rows[sid], event, ch);
    } else {
      NoSessionIsNothing(s.rows, s2.rows, plate, event, ch, outcome, sid);
    }
  }

  /** So the program opens the barrier at most once per session, with the command id the session keeps. */
  lemma ProgramOpensOnce(c: ExitController, i: nat, j: nat)
    requires c.Idle() && Quiet(c.start) && i <= j < |c.log|
    ensures c.log[i].sid == c.log[j].sid ==> i == j
    ensures c.log[j].command != 0 && c.log[j].sid in c.rows && c.rows[c.log[j].sid].command == c.log[j].command
  {
    hide Possible, After;
    OneOpeningPerSession(c.start, c.acts, i, j);
  }

  lemma CarrierIsNotUnused(rows: map<nat, Row>, sid: nat, event: nat)
    requires Carries(rows, sid, event)
    ensures sid in rows && !Unused(rows, event)
  {
  }

  lemma CarrierIsRow(rows: map<nat, Row>, sid: nat, event: nat)
    requires Carries(rows, sid, event)
    ensures sid in rows
  {
  }

  lemma NewestIsOpen(rows: map<nat, Row>, plate: nat, sid: nat)
    requires Newest(rows, plate, sid)
    ensures sid in rows && rows[sid].open
  {
  }

  /** The turn that looks for the plate's newest session. */
  lemma NoneHeld(s: State, t: nat, task: Task, ch: Choice)
    requires task.pc == Hold && NoneOpen(s.rows, task.local.plate)
    ensures TakeTurn(s, t, task, ch) == Leave(s, t) && Truthful(s, task, ch)
  {
  }

  lemma SomeHeld(s: State, t: nat, task: Task, ch: Choice, sid: nat)
    requires task.pc == Hold && Newest(s.rows, task.local.plate, sid)
    ensures Truthful(s, task, ch.(row := sid))
    ensures var row := Loaded(s, task, sid);
            var owned := row.event != 0 && task.event != 0 && (row.event == task.event || row.life != Denied);
            TakeTurn(s, t, task, ch.(row := sid)) ==
            PutTask(s, t, task.(pc := if owned || row.life == Closed then Judge else Bind, sid := sid, local := row))
  {
    NewestIsRow(s.rows, task.local.plate, sid);
  }

  lemma OwnedHere(rows: map<nat, Row>, sid: nat, event: nat)
    requires Unused(rows, event) && sid in rows
    ensures OwnedByOther(rows[sid], event) <==>
            rows[sid].event != 0 && event != 0 && (rows[sid].event == event || rows[sid].life != Denied)
  {
    NotOwn(rows, sid, event);
  }

  lemma NewestIsRow(rows: map<nat, Row>, plate: nat, sid: nat)
    requires Newest(rows, plate, sid)
    ensures sid in rows && !NoneOpen(rows, plate)
  {
  }
}

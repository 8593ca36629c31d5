/** What one undisturbed exit submission does, from any point of any run: the steps of app/application/exit_lane.py and
    of start_exit and complete_authorized_exit in app/services/parking_sessions.py taken together. */
module ExitProgress {
  import opened ExitGate

  // ----- The whole submission at once -----

  /** Not yet authorised, and not out of reach of an exit. */
  predicate Payable(life: Life)
  {
    life == Active || life == Detected || life == Resolved || life == Priced || life == Deciding || life == Denied
  }

  function Settled(row: Row, paid: bool): Row
  {
    if Payable(row.life) then row.(life := if paid then Authorized else Denied) else row
  }

  /** The session once it is bound to the event and the payment has been looked at. */
  function Decided(row: Row, event: nat, paid: bool): Row
  {
    Settled(row.(event := if event != 0 then event else row.event), paid)
  }

  /** It is authorised, no other event owns it, the lane has a gate and no command has been given. */
  predicate Clear(row: Row, event: nat, gate: bool)
  {
    && row.life == Authorized && row.command == 0 && gate
    && (event == 0 || row.event == 0 || row.event == event)
  }

  /** A cleared session after the opener was called. */
  function Opened(row: Row, ch: Choice): Row
  {
    var claimed := row.(command := ch.command);
    if !ch.success then claimed
    else if ch.fallback then claimed.(life := Closed, closedAt := true, open := false)
    else claimed.(life := OpenRequested, open := true)
  }

  /** The state once the session stands like this: the barrier opens for it if it is cleared. */
  function Judged(s: State, sid: nat, row: Row, event: nat, ch: Choice): State
  {
    if Clear(row, event, ch.gate)
    then State(s.rows[sid := Opened(row, ch)], s.tasks, s.log + [Opening(sid, ch.command, event)])
    else s.(rows := s.rows[sid := row])
  }

  /** Another event owns the exit attempt, and it was not refused for payment. */
  predicate OwnedByOther(row: Row, event: nat) { row.event != 0 && event != 0 && row.life != Denied }

  /** What a submission of an event that no session carries does to the session it finds. */
  function Submitted(s: State, sid: nat, event: nat, ch: Choice): State
  {
    var row := RowAt(s.rows, sid);
    if OwnedByOther(row, event) || row.life == Closed then s
    else Judged(s, sid, Decided(row, event, ch.paid), event, ch)
  }

  // ----- Undisturbed steps -----

  /** Since base only this task has acted, and it has not been stopped. */
  ghost predicate Alone(base: seq<Action>, acts: seq<Action>, t: nat)
  {
    && |base| <= |acts| && acts[..|base|] == base
    && forall k | |base| <= k < |acts| ::
         (acts[k].SubmitPlate? || acts[k].SubmitQr? || acts[k].Turn?) && acts[k].task == t
  }

  ghost predicate Reached(start: State, base: seq<Action>, acts: seq<Action>, t: nat, s: State)
  {
    Possible(start, acts) && Alone(base, acts, t) && After(start, acts) == s
  }

  /** The state s with one row and one task replaced. */
  function With(s: State, sid: nat, row: Row, t: nat, task: Task): State
  {
    State(s.rows[sid := row], s.tasks[t := task], s.log)
  }

  lemma WithTwice(s: State, sid: nat, row: Row, row2: Row, t: nat, task: Task, task2: Task)
    ensures PutTask(With(s, sid, row, t, task), t, task2) == With(s, sid, row, t, task2)
    ensures PutRow(With(s, sid, row, t, task), sid, row2) == With(s, sid, row2, t, task)
    ensures t !in s.tasks ==> Leave(With(s, sid, row, t, task), t) == s.(rows := s.rows[sid := row])
  {
    assert s.tasks[t := task][t := task2] == s.tasks[t := task2];
    assert s.rows[sid := row][sid := row2] == s.rows[sid := row2];
    assert t !in s.tasks ==> s.tasks[t := task] - {t} == s.tasks;
  }

  lemma Then(start: State, base: seq<Action>, acts: seq<Action>, t: nat, s: State, a: Action)
    returns (more: seq<Action>)
    requires Reached(start, base, acts, t, s) && Enabled(s, a)
    requires (a.SubmitPlate? || a.SubmitQr? || a.Turn?) && a.task == t
    ensures Reached(start, base, more, t, Apply(s, a))
  {
    more := acts + [a];
    assert more[..|more| - 1] == acts;
    assert more[..|base|] == acts[..|base|];
  }

  /** One turn of a task on its own row. */
  lemma OneTurn(start: State, base: seq<Action>, acts: seq<Action>, s: State, sid: nat, row: Row, t: nat, task: Task,
                ch: Choice, row2: Row, task2: Task)
    returns (more: seq<Action>)
    requires Reached(start, base, acts, t, With(s, sid, row, t, task))
    requires Truthful(With(s, sid, row, t, task), task, ch)
    requires TakeTurn(With(s, sid, row, t, task), t, task, ch) == With(s, sid, row2, t, task2)
    ensures Reached(start, base, more, t, With(s, sid, row2, t, task2))
  {
    hide Reached, TakeTurn, Truthful;
    more := Then(start, base, acts, t, With(s, sid, row, t, task), Turn(t, ch));
  }

  /** A last turn that writes nothing. */
  lemma LastTurn(start: State, base: seq<Action>, acts: seq<Action>, s: State, sid: nat, row: Row, t: nat, task: Task,
                 ch: Choice)
    returns (more: seq<Action>)
    requires Reached(start, base, acts, t, With(s, sid, row, t, task)) && t !in s.tasks
    requires Truthful(With(s, sid, row, t, task), task, ch)
    requires TakeTurn(With(s, sid, row, t, task), t, task, ch) == Leave(With(s, sid, row, t, task), t)
    ensures Reached(start, base, more, t, s.(rows := s.rows[sid := row]))
  {
    hide Reached, TakeTurn, Truthful;
    more := Then(start, base, acts, t, With(s, sid, row, t, task), Turn(t, ch));
    WithTwice(s, sid, row, row, t, task, task);
  }

  // ----- The transitions of start_exit -----

  lemma Refresh(start: State, base: seq<Action>, acts: seq<Action>, s: State, sid: nat, row: Row, t: nat, task: Task,
                stage: nat, ch: Choice)
    returns (more: seq<Action>)
    requires Reached(start, base, acts, t, With(s, sid, row, t, task.(pc := Reload(stage)))) && task.sid == sid
    ensures Reached(start, base, more, t, With(s, sid, row, t, task.(pc := Decide(stage), local := row)))
  {
    hide Reached;
    var reloading, read := task.(pc := Reload(stage)), task.(pc := Decide(stage), local := row);
    WithTwice(s, sid, row, row, t, reloading, read);
    more := OneTurn(start, base, acts, s, sid, row, t, reloading, ch, row, read);
  }

  predicate MayGoOn(life: Life) { life != Entering && life != Cancelled && life != Closed }

  /** One stage, with its refresh if it commits. */
  lemma Stage(start: State, base: seq<Action>, acts: seq<Action>, s: State, sid: nat, row: Row, t: nat, task: Task,
              stage: nat, life: Life, ch: Choice)
    returns (more: seq<Action>)
    requires Reached(start, base, acts, t, With(s, sid, row, t, task.(pc := Decide(stage), local := row)))
    requires task.sid == sid && stage <= 5 && MayGoOn(row.life) && (row.open || !Payable(row.life))
    requires life == Target(stage, row.life, task.allow)
    ensures Reached(start, base, more, t, With(s, sid, row.(life := life), t,
                                              task.(pc := Decide(stage + 1), local := row.(life := life))))
  {
    hide Reached;
    var read, moved := task.(pc := Decide(stage), local := row), row.(life := life);
    if life == row.life {
      var next := task.(pc := Decide(stage + 1), local := row);
      WithTwice(s, sid, row, row, t, read, next);
      more := OneTurn(start, base, acts, s, sid, row, t, read, ch, row, next);
    } else {
      var written := task.(pc := Reload(stage + 1), local := row);
      WithTwice(s, sid, row, moved, t, read, read);
      WithTwice(s, sid, moved, moved, t, read, written);
      assert WriteLife(row, row, life) == moved;
      more := OneTurn(start, base, acts, s, sid, row, t, read, ch, moved, written);
      more := Refresh(start, base, more, s, sid, moved, t, task.(local := row), stage + 1, ch);
    }
  }

  /** All of them: a payable session is authorised if the stay is paid and denied if not, whatever stage it was at. */
  lemma Stages(start: State, base: seq<Action>, acts: seq<Action>, s: State, sid: nat, row: Row, t: nat, task: Task,
               ch: Choice)
    returns (more: seq<Action>)
    requires Reached(start, base, acts, t, With(s, sid, row, t, task.(pc := Decide(0), local := row)))
    requires task.sid == sid && MayGoOn(row.life) && (row.open || !Payable(row.life))
    ensures var r := Settled(row, task.allow);
            Reached(start, base, more, t, With(s, sid, r, t, task.(pc := Judge, local := r)))
  {
    hide Reached, With;
    var l0 := Target(0, row.life, task.allow);
    var l1 := Target(1, l0, task.allow);
    var l2 := Target(2, l1, task.allow);
    var l3 := Target(3, l2, task.allow);
    var l4 := Target(4, l3, task.allow);
    var l5 := Target(5, l4, task.allow);
    more := Stage(start, base, acts, s, sid, row, t, task, 0, l0, ch);
    more := Stage(start, base, more, s, sid, row.(life := l0), t, task, 1, l1, ch);
    more := Stage(start, base, more, s, sid, row.(life := l1), t, task, 2, l2, ch);
    more := Stage(start, base, more, s, sid, row.(life := l2), t, task, 3, l3, ch);
    more := Stage(start, base, more, s, sid, row.(life := l3), t, task, 4, l4, ch);
    more := Stage(start, base, more, s, sid, row.(life := l4), t, task, 5, l5, ch);
    more := ToJudge(start, base, more, s, sid, row.(life := l5), t, task, ch);
  }

  lemma ToJudge(start: State, base: seq<Action>, acts: seq<Action>, s: State, sid: nat, row: Row, t: nat, task: Task,
                ch: Choice)
    returns (more: seq<Action>)
    requires Reached(start, base, acts, t, With(s, sid, row, t, task.(pc := Decide(6), local := row)))
    ensures Reached(start, base, more, t, With(s, sid, row, t, task.(pc := Judge, local := row)))
  {
    hide Reached;
    var read, next := task.(pc := Decide(6), local := row), task.(pc := Judge, local := row);
    WithTwice(s, sid, row, row, t, read, next);
    more := OneTurn(start, base, acts, s, sid, row, t, read, ch, row, next);
  }

  // ----- The barrier -----

  /** From the copy it judges by to its end: the barrier opens exactly for a cleared session. */
  lemma Judgement(start: State, base: seq<Action>, acts: seq<Action>, s: State, sid: nat, row: Row, t: nat, task: Task,
                  ch: Choice)
    returns (more: seq<Action>)
    requires Reached(start, base, acts, t, With(s, sid, row, t, task)) && t !in s.tasks
    requires task.pc == Judge && task.sid == sid && task.local == row && ch.command != 0
    ensures Reached(start, base, more, t, Judged(s, sid, row, task.event, ch))
  {
    hide Reached;
    if !Clear(row, task.event, ch.gate) {
      more := LastTurn(start, base, acts, s, sid, row, t, task, ch);
    } else {
      var claiming := task.(pc := Claim);
      WithTwice(s, sid, row, row, t, task, claiming);
      more := OneTurn(start, base, acts, s, sid, row, t, task, ch, row, claiming);
      more := ClaimAndCall(start, base, more, s, sid, row, t, claiming, ch);
    }
  }

  lemma ClaimAndCall(start: State, base: seq<Action>, acts: seq<Action>, s: State, sid: nat, row: Row, t: nat,
                     task: Task, ch: Choice)
    returns (more: seq<Action>)
    requires Reached(start, base, acts, t, With(s, sid, row, t, task)) && t !in s.tasks && task.pc == Claim
    requires task.sid == sid && row.life == Authorized && row.command == 0 && ch.command != 0
    ensures Reached(start, base, more, t, State(s.rows[sid := Opened(row, ch)], s.tasks,
                                               s.log + [Opening(sid, ch.command, task.event)]))
  {
    hide Reached;
    var claimed := row.(command := ch.command);
    var won := task.(pc := Claimed, command := ch.command);
    var calling := won.(pc := Call, local := claimed);
    WithTwice(s, sid, row, claimed, t, task, won);
    WithTwice(s, sid, claimed, claimed, t, task, won);
    more := OneTurn(start, base, acts, s, sid, row, t, task, ch, claimed, won);
    WithTwice(s, sid, claimed, claimed, t, won, calling);
    more := OneTurn(start, base, more, s, sid, claimed, t, won, ch, claimed, calling);
    more := CallTheOpener(start, base, more, s, sid, claimed, t, calling, ch);
  }

  lemma CallTheOpener(start: State, base: seq<Action>, acts: seq<Action>, s: State, sid: nat, row: Row, t: nat,
                      task: Task, ch: Choice)
    returns (more: seq<Action>)
    requires Reached(start, base, acts, t, With(s, sid, row, t, task)) && t !in s.tasks && task.pc == Call
    requires task.sid == sid && task.local == row && row.life == Authorized
    requires row.command == task.command == ch.command != 0
    ensures Reached(start, base, more, t, State(s.rows[sid := Opened(row, ch)], s.tasks,
                                               s.log + [Opening(sid, ch.command, task.event)]))
  {
    hide Reached;
    var called := s.(log := s.log + [Opening(sid, ch.command, task.event)]);
    more := Then(start, base, acts, t, With(s, sid, row, t, task), Turn(t, ch));
    var finishing := task.(pc := Finish(0));
    WithTwice(called, sid, row, row, t, task, finishing);
    if ch.success {
      more := Completion(start, base, more, called, sid, row, t, finishing, ch);
    }
  }

  lemma Completion(start: State, base: seq<Action>, acts: seq<Action>, s: State, sid: nat, row: Row, t: nat,
                   task: Task, ch: Choice)
    returns (more: seq<Action>)
    requires Reached(start, base, acts, t, With(s, sid, row, t, task)) && t !in s.tasks && task.pc == Finish(0)
    requires task.sid == sid && task.local == row && row.life == Authorized && ch.success
    requires row.command == task.command == ch.command != 0
    ensures Reached(start, base, more, t, s.(rows := s.rows[sid := Opened(row, ch)]))
  {
    hide Reached;
    var requested := row.(life := OpenRequested, open := true);
    var f1 := task.(pc := Finish(1));
    var f2 := task.(pc := Finish(2), local := requested);
    var f3 := task.(pc := Finish(3), local := requested);
    assert WriteLife(row, row, OpenRequested) == requested;
    WithTwice(s, sid, row, requested, t, task, f1);
    WithTwice(s, sid, requested, requested, t, task, f1);
    more := OneTurn(start, base, acts, s, sid, row, t, task, ch, requested, f1);
    WithTwice(s, sid, requested, requested, t, f1, f2);
    more := OneTurn(start, base, more, s, sid, requested, t, f1, ch, requested, f2);
    WithTwice(s, sid, requested, requested, t, f2, f3);
    more := OneTurn(start, base, more, s, sid, requested, t, f2, ch, requested, f3);
    more := LastPart(start, base, more, s, sid, requested, t, f3, ch);
  }

  lemma LastPart(start: State, base: seq<Action>, acts: seq<Action>, s: State, sid: nat, row: Row, t: nat, task: Task,
                 ch: Choice)
    returns (more: seq<Action>)
    requires Reached(start, base, acts, t, With(s, sid, row, t, task)) && t !in s.tasks && task.pc == Finish(3)
    requires task.sid == sid && task.local == row && row.life == OpenRequested && row.open
    ensures var last := if ch.fallback then row.(life := Closed, closedAt := true, open := false) else row;
            Reached(start, base, more, t, s.(rows := s.rows[sid := last]))
  {
    hide Reached;
    if ch.fallback {
      var closed := row.(life := Closed, closedAt := true, open := false);
      more := Then(start, base, acts, t, With(s, sid, row, t, task), Turn(t, ch));
      WithTwice(s, sid, row, closed, t, task, task);
      WithTwice(s, sid, closed, closed, t, task, task);
    } else {
      more := LastTurn(start, base, acts, s, sid, row, t, task, ch);
    }
  }

  // ----- From the submission to its session -----

  /** A submission that has found its session and is about to price it. */
  function Pricing(row: Row, event: nat, sid: nat): Task { Task(Bill, row.plate, event, sid, row, false, 0) }

  lemma SubmittedByQr(start: State, base: seq<Action>, s: State, sid: nat, t: nat, event: nat)
    returns (more: seq<Action>)
    requires Possible(start, base) && After(start, base) == s && t !in s.tasks && sid in s.rows && s.rows[sid].open
    ensures Reached(start, base, more, t, With(s, sid, s.rows[sid], t, Pricing(s.rows[sid], event, sid)))
  {
    hide Reached;
    assert Reached(start, base, base, t, s) by { AloneAtFirst(start, base, t, s); }
    assert s.rows[sid := s.rows[sid]] == s.rows;
    more := Then(start, base, base, t, s, SubmitQr(t, sid, event));
  }

  lemma AloneAtFirst(start: State, base: seq<Action>, t: nat, s: State)
    requires Possible(start, base) && After(start, base) == s
    ensures Reached(start, base, base, t, s)
  {
  }

  lemma SubmittedByPlate(start: State, base: seq<Action>, s: State, sid: nat, t: nat, event: nat, ch: Choice)
    returns (more: seq<Action>)
    requires Possible(start, base) && After(start, base) == s && t !in s.tasks && !Replayed(s.rows, event)
    requires sid in s.rows && Newest(s.rows, s.rows[sid].plate, sid)
    ensures Reached(start, base, more, t, With(s, sid, s.rows[sid], t, Pricing(s.rows[sid], event, sid)))
  {
    hide Reached, Replayed, Newest;
    var row := s.rows[sid];
    var asking := Task(Replay, row.plate, event, 0, BLANK, false, 0);
    var finding := asking.(pc := Find);
    AloneAtFirst(start, base, t, s);
    assert s.rows[sid := row] == s.rows;
    more := Then(start, base, base, t, s, SubmitPlate(t, row.plate, event));
    WithTwice(s, sid, row, row, t, asking, finding);
    more := OneTurn(start, base, more, s, sid, row, t, asking, ch, row, finding);
    WithTwice(s, sid, row, row, t, finding, Pricing(row, event, sid));
    SomeOpen(s.rows, row.plate, sid);
    more := OneTurn(start, base, more, s, sid, row, t, finding, ch.(row := sid), row, Pricing(row, event, sid));
  }

  lemma SomeOpen(rows: map<nat, Row>, plate: nat, sid: nat)
    requires Newest(rows, plate, sid)
    ensures !NoneOpen(rows, plate)
  {
  }

  lemma ReadsPrice(start: State, base: seq<Action>, acts: seq<Action>, s: State, sid: nat, row: Row, t: nat, event: nat,
                ch: Choice)
    returns (more: seq<Action>)
    requires Reached(start, base, acts, t, With(s, sid, row, t, Pricing(row, event, sid)))
    ensures Reached(start, base, more, t,
                    With(s, sid, row, t, Pricing(row, event, sid).(pc := ByExit, allow := ch.paid)))
  {
    hide Reached;
    var pricing := Pricing(row, event, sid);
    var priced := pricing.(pc := ByExit, allow := ch.paid);
    WithTwice(s, sid, row, row, t, pricing, priced);
    more := OneTurn(start, base, acts, s, sid, row, t, pricing, ch, row, priced);
  }

  /** No session carries the event. */
  ghost predicate Unused(rows: map<nat, Row>, event: nat) { forall r | r in rows :: !Carries(rows, r, event) }

  /** The queries of start_exit, when no session carries the event: the session itself, taken or left to its owner. */
  lemma Chooses(start: State, base: seq<Action>, acts: seq<Action>, s: State, sid: nat, row: Row, t: nat, event: nat,
                ch: Choice)
    returns (more: seq<Action>)
    requires sid in s.rows && row == s.rows[sid] && Newest(s.rows, row.plate, sid) && Unused(s.rows, event)
    requires Reached(start, base, acts, t,
                     With(s, sid, row, t, Pricing(row, event, sid).(pc := ByExit, allow := ch.paid)))
    ensures var pc := if OwnedByOther(row, event) || row.life == Closed then Judge else Bind;
            Reached(start, base, more, t, With(s, sid, row, t, Pricing(row, event, sid).(pc := pc, allow := ch.paid)))
  {
    hide Reached, Newest, Unused, Carries;
    var billed := Pricing(row, event, sid).(pc := ByExit, allow := ch.paid);
    var held := billed.(pc := Hold);
    assert s.rows[sid := row] == s.rows;
    NotCarried(s.rows, event, ch.row);
    WithTwice(s, sid, row, row, t, billed, held);
    more := OneTurn(start, base, acts, s, sid, row, t, billed, ch, row, held);
    SomeOpen(s.rows, row.plate, sid);
    NotOwn(s.rows, sid, event);
    var chosen := billed.(pc := if OwnedByOther(row, event) || row.life == Closed then Judge else Bind);
    WithTwice(s, sid, row, row, t, held, chosen);
    more := OneTurn(start, base, more, s, sid, row, t, held, ch.(row := sid), row, chosen);
  }

  /** From pricing to the end, if no session carries the event. */
  lemma FreshFromPrice(start: State, base: seq<Action>, acts: seq<Action>, s: State, sid: nat, t: nat, event: nat,
                       ch: Choice)
    returns (more: seq<Action>)
    requires t !in s.tasks && sid in s.rows && Newest(s.rows, s.rows[sid].plate, sid) && Unused(s.rows, event)
    requires Reached(start, base, acts, t, With(s, sid, s.rows[sid], t, Pricing(s.rows[sid], event, sid)))
    requires ch.command != 0
    ensures Reached(start, base, more, t, Submitted(s, sid, event, ch))
  {
    hide Reached, Judged, Unused, With;
    var row := s.rows[sid];
    more := ReadsPrice(start, base, acts, s, sid, row, t, event, ch);
    more := Chooses(start, base, more, s, sid, row, t, event, ch);
    var task := Pricing(row, event, sid).(allow := ch.paid);
    if OwnedByOther(row, event) || row.life == Closed {
      more := Judgement(start, base, more, s, sid, row, t, task.(pc := Judge), ch);
      NotOwn(s.rows, sid, event);
      NotCleared(s, sid, row, event, ch);
    } else {
      more := FreshFromBinding(start, base, more, s, sid, row, t, task.(pc := Bind), ch);
    }
  }

  lemma NotCarried(rows: map<nat, Row>, event: nat, any: nat)
    requires Unused(rows, event)
    ensures !Carries(rows, any, event) && forall r | r in rows :: !Carries(rows, r, event)
  {
  }

  lemma NotOwn(rows: map<nat, Row>, sid: nat, event: nat)
    requires Unused(rows, event) && sid in rows
    ensures event == 0 || rows[sid].event != event
  {
    assert !Carries(rows, sid, event);
  }

  lemma NotCleared(s: State, sid: nat, row: Row, event: nat, ch: Choice)
    requires sid in s.rows && row == s.rows[sid] && (event == 0 || row.event != event)
    requires OwnedByOther(row, event) || row.life == Closed
    ensures Judged(s, sid, row, event, ch) == s
  {
    assert s.rows[sid := row] == s.rows;
  }

  lemma FreshFromBinding(start: State, base: seq<Action>, acts: seq<Action>, s: State, sid: nat, row: Row, t: nat,
                         task: Task, ch: Choice)
    returns (more: seq<Action>)
    requires t !in s.tasks && sid in s.rows && row == s.rows[sid] && row.open && row.life != Closed
    requires Reached(start, base, acts, t, With(s, sid, row, t, task)) && task.pc == Bind && task.sid == sid
    requires task.local == row && task.allow == ch.paid && ch.command != 0 && Unused(s.rows, task.event)
    ensures Reached(start, base, more, t, Judged(s, sid, Decided(row, task.event, ch.paid), task.event, ch))
  {
    hide Reached, Judged, Unused;
    var bound := row.(event := if task.event != 0 then task.event else row.event);
    more := Binds(start, base, acts, s, sid, row, bound, t, task, ch);
    more := Refresh(start, base, more, s, sid, bound, t, task, 0, ch);
    var read := task.(pc := Decide(0), local := bound);
    if MayGoOn(row.life) {
      more := Stages(start, base, more, s, sid, bound, t, read, ch);
      var r := Decided(row, task.event, ch.paid);
      more := Judgement(start, base, more, s, sid, r, t, read.(pc := Judge, local := r), ch);
    } else {
      more := LastTurn(start, base, more, s, sid, bound, t, read, ch);
      NotGoing(s, sid, bound, task.event, ch);
    }
  }

  lemma NotGoing(s: State, sid: nat, row: Row, event: nat, ch: Choice)
    requires !MayGoOn(row.life)
    ensures Judged(s, sid, row, event, ch) == s.(rows := s.rows[sid := row])
  {
  }

  lemma Binds(start: State, base: seq<Action>, acts: seq<Action>, s: State, sid: nat, row: Row, bound: Row, t: nat,
              task: Task, ch: Choice)
    returns (more: seq<Action>)
    requires sid in s.rows && row == s.rows[sid] && Unused(s.rows, task.event)
    requires Reached(start, base, acts, t, With(s, sid, row, t, task)) && task.pc == Bind && task.sid == sid
    requires task.local == row && bound == row.(event := if task.event != 0 then task.event else row.event)
    ensures Reached(start, base, more, t, With(s, sid, bound, t, task.(pc := Reload(0))))
  {
    hide Reached, Carries;
    assert s.rows[sid := row] == s.rows;
    var reloading := task.(pc := Reload(0));
    WithTwice(s, sid, row, bound, t, task, task);
    WithTwice(s, sid, bound, bound, t, task, reloading);
    if task.event != 0 {
      NotCarried(s.rows, task.event, sid);
      more := OneTurn(start, base, acts, s, sid, row, t, task, ch.(row := sid), bound, reloading);
    } else {
      var other := OtherCarrier(s.rows, row.event, sid);
      more := OneTurn(start, base, acts, s, sid, row, t, task, ch.(row := other), bound, reloading);
    }
  }

  /** What the query after a refused commit would return. */
  lemma OtherCarrier(rows: map<nat, Row>, event: nat, sid: nat) returns (other: nat)
    ensures (other != sid && Carries(rows, other, event)) || NoneCarries(rows, event, sid)
  {
    if NoneCarries(rows, event, sid) {
      other := sid;
    } else {
      other :| other in rows && other != sid && Carries(rows, other, event);
    }
  }

  // ----- What an undisturbed submission does -----

  /** A plate read whose event no session carries, from any point of any run. */
  lemma UndisturbedPlateRead(start: State, acts: seq<Action>, s: State, sid: nat, t: nat, event: nat, ch: Choice)
    returns (more: seq<Action>)
    requires Possible(start, acts) && After(start, acts) == s && t !in s.tasks && ch.command != 0
    requires sid in s.rows && Newest(s.rows, s.rows[sid].plate, sid) && Unused(s.rows, event)
    ensures Reached(start, acts, more, t, Submitted(s, sid, event, ch))
  {
    hide Reached, Newest, Possible, After, Submitted, Unused;
    NeverReplayed(s.rows, event);
    more := SubmittedByPlate(start, acts, s, sid, t, event, ch);
    more := FreshFromPrice(start, acts, more, s, sid, t, event, ch);
  }

  lemma NeverReplayed(rows: map<nat, Row>, event: nat)
    requires Unused(rows, event)
    ensures !Replayed(rows, event)
  {
  }

  /** The same for a scanned receipt of that session. */
  lemma UndisturbedQrScan(start: State, acts: seq<Action>, s: State, sid: nat, t: nat, event: nat, ch: Choice)
    returns (more: seq<Action>)
    requires Possible(start, acts) && After(start, acts) == s && t !in s.tasks && ch.command != 0
    requires sid in s.rows && Newest(s.rows, s.rows[sid].plate, sid) && Unused(s.rows, event)
    ensures Reached(start, acts, more, t, Submitted(s, sid, event, ch))
  {
    hide Reached, Possible, After, Submitted, Unused;
    more := SubmittedByQr(start, acts, s, sid, t, event);
    more := FreshFromPrice(start, acts, more, s, sid, t, event, ch);
  }

  /** A plate read delivered again after its event was bound to a session but before a command or the end of it: that
      session is judged as it stands. */
  lemma UndisturbedRedelivery(start: State, acts: seq<Action>, s: State, sid: nat, r: nat, t: nat, event: nat,
                              ch: Choice)
    returns (more: seq<Action>)
    requires Possible(start, acts) && After(start, acts) == s && t !in s.tasks && ch.command != 0
    requires sid in s.rows && Newest(s.rows, s.rows[sid].plate, sid)
    requires r in s.rows && s.rows[r].event == event != 0
    requires forall q | q in s.rows && s.rows[q].event == event :: s.rows[q].command == 0 && !s.rows[q].closedAt
    ensures Reached(start, acts, more, t, Judged(s, r, s.rows[r], event, ch))
  {
    hide Reached, Newest, Possible, After, Judged;
    var row := s.rows[sid];
    assert Carries(s.rows, r, event) && !Replayed(s.rows, event);
    more := SubmittedByPlate(start, acts, s, sid, t, event, ch);
    more := ReadsPrice(start, acts, more, s, sid, row, t, event, ch);
    var billed := Pricing(row, event, sid).(pc := ByExit, allow := ch.paid);
    var judging := billed.(pc := Judge, sid := r, local := s.rows[r]);
    assert s.rows[sid := row] == s.rows && s.rows[r := s.rows[r]] == s.rows;
    assert With(s, sid, row, t, billed) == With(s, r, s.rows[r], t, billed);
    WithTwice(s, r, s.rows[r], s.rows[r], t, billed, judging);
    more := OneTurn(start, acts, more, s, r, s.rows[r], t, billed, ch.(row := r), s.rows[r], judging);
    more := Judgement(start, acts, more, s, r, s.rows[r], t, judging, ch);
  }

  /** One delivered again after a command was given for it, or after its session was closed, changes nothing. */
  lemma UndisturbedReplay(start: State, acts: seq<Action>, s: State, r: nat, plate: nat, t: nat, event: nat, ch: Choice)
    returns (more: seq<Action>)
    requires Possible(start, acts) && After(start, acts) == s && t !in s.tasks && event != 0
    requires r in s.rows && s.rows[r].event == event && (s.rows[r].command != 0 || s.rows[r].closedAt)
    ensures Reached(start, acts, more, t, s)
  {
    hide Reached, Possible, After;
    var asking := Task(Replay, plate, event, 0, BLANK, false, 0);
    AloneAtFirst(start, acts, t, s);
    more := Then(start, acts, acts, t, s, SubmitPlate(t, plate, event));
    assert Carries(s.rows, r, event);
    assert s.rows[r := s.rows[r]] == s.rows;
    more := LastTurn(start, acts, more, s, r, s.rows[r], t, asking, ch);
  }

  lemma Appended(start: State, acts: seq<Action>, s: State, a: Action)
    requires Possible(start, acts) && After(start, acts) == s && Enabled(s, a)
    ensures Possible(start, acts + [a]) && After(start, acts + [a]) == Apply(s, a)
  {
    hide Enabled, Apply;
    assert (acts + [a])[..|acts + [a]| - 1] == acts;
  }

  lemma PassedOnce(s: State, sid: nat)
    requires sid in s.rows && s.rows[sid].life == OpenRequested && s.rows[sid].open
    ensures Enabled(s, Passage(sid))
    ensures Apply(s, Passage(sid)) == s.(rows := s.rows[sid := s.rows[sid].(life := Passed)])
  {
  }

  lemma PassedTwice(s: State, sid: nat)
    requires sid in s.rows && s.rows[sid].life == Passed && s.rows[sid].open
    ensures Enabled(s, Passage(sid))
    ensures Apply(s, Passage(sid)) ==
            s.(rows := s.rows[sid := s.rows[sid].(life := Closed, closedAt := true, open := false)])
  {
  }

  /** The passage sensor closes a session whose barrier was asked for: first passed, then closed, and no longer open. */
  lemma PassageCloses(start: State, acts: seq<Action>, s: State, sid: nat)
    requires Possible(start, acts) && After(start, acts) == s
    requires sid in s.rows && s.rows[sid].life == OpenRequested && s.rows[sid].open
    ensures var passed := s.rows[sid].(life := Passed);
            && Possible(start, acts + [Passage(sid)])
            && After(start, acts + [Passage(sid)]) == s.(rows := s.rows[sid := passed])
            && Possible(start, acts + [Passage(sid)] + [Passage(sid)])
            && After(start, acts + [Passage(sid)] + [Passage(sid)]) ==
               s.(rows := s.rows[sid := passed.(life := Closed, closedAt := true, open := false)])
  {
    hide Possible, After, Enabled, Apply;
    var row, s2 := s.rows[sid], Apply(s, Passage(sid));
    var passed := row.(life := Passed);
    var closed := passed.(life := Closed, closedAt := true, open := false);
    PassedOnce(s, sid);
    Appended(start, acts, s, Passage(sid));
    PassedTwice(s2, sid);
    Appended(start, acts + [Passage(sid)], s2, Passage(sid));
    assert s.rows[sid := passed][sid := closed] == s.rows[sid := closed];
  }

  // ----- Under interference -----

  lemma StagesKeepClosed(s: State, t: nat, task: Task, stage: nat, sid: nat)
    requires sid in s.rows
    ensures var row := RowAt(Advance(s, t, task, stage).rows, sid);
            && (row.open && !s.rows[sid].open ==> task.sid == sid && !task.local.open)
            && (!row.open && s.rows[sid].open ==> row.life == Closed)
  {
  }

  lemma CompletionKeepsClosed(s: State, t: nat, task: Task, ch: Choice, part: nat, sid: nat)
    requires sid in s.rows
    ensures var row := RowAt(Complete(s, t, task, ch, part).rows, sid);
            && (row.open && !s.rows[sid].open ==> task.sid == sid && !task.local.open)
            && (!row.open && s.rows[sid].open ==> row.life == Closed)
  {
  }

  /** No turn reopens a session that was closed since the task read it, and none closes one without its life ending. */
  lemma ClosedSinceReadStaysClosed(s: State, t: nat, task: Task, ch: Choice, sid: nat)
    requires sid in s.rows
    ensures var row := RowAt(TakeTurn(s, t, task, ch).rows, sid);
            && (row.open && !s.rows[sid].open ==> task.sid == sid && !task.local.open)
            && (!row.open && s.rows[sid].open ==> row.life == Closed)
  {
    hide Advance, Complete, MayClaim;
    if task.pc.Decide? {
      StagesKeepClosed(s, t, task, task.pc.stage, sid);
    } else if task.pc.Finish? {
      CompletionKeepsClosed(s, t, task, ch, task.pc.part, sid);
    }
  }

  // ----- In particular -----

  /** A driver who was denied, or stopped at any stage before, and has paid gets out: by any event no session carries,
      whatever event was refused before, through a lane with a gate. */
  lemma PaidDriverGetsOut(start: State, acts: seq<Action>, s: State, sid: nat, t: nat, event: nat, ch: Choice)
    returns (more: seq<Action>)
    requires Possible(start, acts) && After(start, acts) == s && t !in s.tasks && ch.command != 0
    requires sid in s.rows && Newest(s.rows, s.rows[sid].plate, sid) && Unused(s.rows, event)
    requires s.rows[sid].command == 0 && Payable(s.rows[sid].life) && ch.paid && ch.gate
    requires s.rows[sid].life == Denied || s.rows[sid].event == 0
    ensures Alone(acts, more, t) && Possible(start, more)
    ensures After(start, more).log == s.log + [Opening(sid, ch.command, event)]
    ensures var r := RowAt(After(start, more).rows, sid);
            && r.command == ch.command && (event != 0 ==> r.event == event)
            && r.life == if !ch.success then Authorized else if ch.fallback then Closed else OpenRequested
  {
    hide Newest, Unused, Possible, After, Alone;
    NotOwn(s.rows, sid, event);
    more := UndisturbedPlateRead(start, acts, s, sid, t, event, ch);
  }

  /** One who has not is denied, and nothing opens. */
  lemma UnpaidDriverIsDenied(start: State, acts: seq<Action>, s: State, sid: nat, t: nat, event: nat, ch: Choice)
    returns (more: seq<Action>)
    requires Possible(start, acts) && After(start, acts) == s && t !in s.tasks && ch.command != 0
    requires sid in s.rows && Newest(s.rows, s.rows[sid].plate, sid) && Unused(s.rows, event)
    requires Payable(s.rows[sid].life) && !ch.paid && (s.rows[sid].life == Denied || s.rows[sid].event == 0)
    ensures Alone(acts, more, t) && Possible(start, more)
    ensures After(start, more).log == s.log && RowAt(After(start, more).rows, sid).life == Denied
    ensures RowAt(After(start, more).rows, sid).command == s.rows[sid].command
  {
    hide Newest, Unused, Possible, After, Alone;
    more := UndisturbedPlateRead(start, acts, s, sid, t, event, ch);
  }
}

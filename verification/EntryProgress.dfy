/** What one undisturbed entry submission, receipt confirmation or gate retry does, from any point of any run: the steps
    of app/application/entry_lane.py, app/services/receipt_jobs.py and app/services/parking_sessions.py together. */
module EntryProgress {
  import opened EntryGate

  // ----- The whole task at once -----

  /** The command a call of the opener carries: the caller's, the session's, or a fresh one. */
  function CommandFor(row: Row, wanted: nat, ch: Choice): nat
  {
    if wanted != 0 then wanted else if row.command != 0 then row.command else ch.command
  }

  /** The session may be opened: its receipt is taken, it is authorised, or it needs no receipt. */
  predicate MayOpen(row: Row)
  {
    || row.life == ReceiptTaken || row.life == EntryAuthorized
    || (!row.needs && (row.life == Created || row.life == Printing || row.life == Presented))
  }

  /** The session after the barrier was asked for with this command; a failing opener leaves the claim alone. */
  function Requested(row: Row, command: nat, ch: Choice): Row
  {
    var claimed := if row.command == 0 then row.(command := command) else row;
    if (ch.gate && !ch.success) || !MayOpen(row) then claimed
    else row.(command := command, life := if ch.fallback then Active else OpenRequested)
  }

  /** A session already open stays, and so does one with a command, unless an operator retries. */
  predicate Stays(row: Row, retry: bool) { Opened(row.life) || (row.command != 0 && !retry) }

  /** The state once the session stands like this and the barrier is its turn. */
  function Barrier(s: State, sid: nat, row: Row, retry: bool, wanted: nat, ch: Choice): State
  {
    if Stays(row, retry) then s.(rows := s.rows[sid := row])
    else
      var command := CommandFor(row, wanted, ch);
      var o := Opening(sid, command, retry, row.taken);
      State(s.rows[sid := Requested(row, command, ch)], s.tasks, if ch.gate then s.log + [o] else s.log)
  }

  /** The session with its receipt stored as taken. */
  function Receipted(row: Row): Row
  {
    row.(taken := true, life := if PastReceipt(row.life) then row.life else ReceiptTaken)
  }

  /** Taking the receipt, then the barrier: nothing without the sensor or after the vehicle has left. */
  function Confirmed(s: State, sid: nat, row: Row, ch: Choice): State
  {
    if row.taken then Barrier(s, sid, row, false, 0, ch)
    else if !ch.sensor || row.life == Cancelled then s.(rows := s.rows[sid := row])
    else Barrier(s, sid, Receipted(row), false, 0, ch)
  }

  /** A new session: printed if it prints; one that needs its receipt waits for it unless it is taken at once. */
  function Entered(s: State, sid: nat, needs: bool, autoTake: bool, prints: bool, ch: Choice): State
  {
    var row := Row(if prints then ch.life else Created, needs, false, 0);
    if !needs then Barrier(s, sid, row, false, 0, ch)
    else if ch.assistance || !autoTake then s.(rows := s.rows[sid := row])
    else Confirmed(s, sid, row, ch)
  }

  // ----- Undisturbed steps -----

  /** Since base this task was started and then took turns, all with the same answers from outside. */
  ghost predicate Alone(base: seq<Action>, acts: seq<Action>, t: nat, ch: Choice)
  {
    && |base| < |acts| && acts[..|base|] == base
    && !acts[|base|].Stop? && !acts[|base|].Turn? && Actor(acts[|base|]) == t
    && forall k | |base| < k < |acts| :: acts[k] == Turn(t, ch)
  }

  ghost predicate Reached(start: State, base: seq<Action>, acts: seq<Action>, t: nat, ch: Choice, s: State)
  {
    Possible(start, acts) && Alone(base, acts, t, ch) && After(start, acts) == s
  }

  /** The state s with one row and one task replaced. */
  function With(s: State, sid: nat, row: Row, t: nat, task: Task): State
  {
    State(s.rows[sid := row], s.tasks[t := task], s.log)
  }

  lemma WithTwice(s: State, sid: nat, row: Row, row2: Row, t: nat, task: Task, task2: Task)
    ensures PutTask(With(s, sid, row, t, task), t, task2) == With(s, sid, row, t, task2)
    ensures PutRow(With(s, sid, row, t, task), sid, row2) == With(s, sid, row2, t, task)
    ensures t !in s.tasks ==> Leave(With(s, sid, row, t, task), t) == s.(rows := s.rows[sid := row])
  {
    assert s.tasks[t := task][t := task2] == s.tasks[t := task2];
    assert s.rows[sid := row][sid := row2] == s.rows[sid := row2];
    assert t !in s.tasks ==> s.tasks[t := task] - {t} == s.tasks;
  }

  lemma Started(start: State, base: seq<Action>, s: State, a: Action, ch: Choice) returns (more: seq<Action>)
    requires Possible(start, base) && After(start, base) == s && Enabled(s, a) && (a.Submit? || a.Confirm? || a.Retry?)
    ensures Reached(start, base, more, Actor(a), ch, Apply(s, a))
  {
    more := base + [a];
    assert more[..|more| - 1] == base;
  }

  lemma Then(start: State, base: seq<Action>, acts: seq<Action>, t: nat, ch: Choice, s: State)
    returns (more: seq<Action>)
    requires Reached(start, base, acts, t, ch, s) && Enabled(s, Turn(t, ch))
    ensures Reached(start, base, more, t, ch, Apply(s, Turn(t, ch)))
  {
    more := acts + [Turn(t, ch)];
    assert more[..|more| - 1] == acts;
    assert more[..|base|] == acts[..|base|];
  }

  /** One turn of a task on its own row. */
  lemma OneTurn(start: State, base: seq<Action>, acts: seq<Action>, s: State, sid: nat, row: Row, t: nat, task: Task,
                ch: Choice, row2: Row, task2: Task)
    returns (more: seq<Action>)
    requires Reached(start, base, acts, t, ch, With(s, sid, row, t, task)) && Truthful(ch)
    requires TakeTurn(With(s, sid, row, t, task), t, task, ch) == With(s, sid, row2, t, task2)
    ensures Reached(start, base, more, t, ch, With(s, sid, row2, t, task2))
  {
    hide Reached, TakeTurn, Truthful;
    more := Then(start, base, acts, t, ch, With(s, sid, row, t, task));
  }

  lemma LastTurn(start: State, base: seq<Action>, acts: seq<Action>, s: State, sid: nat, row: Row, t: nat, task: Task,
                 ch: Choice, row2: Row)
    returns (more: seq<Action>)
    requires Reached(start, base, acts, t, ch, With(s, sid, row, t, task)) && Truthful(ch) && t !in s.tasks
    requires TakeTurn(With(s, sid, row, t, task), t, task, ch) == Leave(With(s, sid, row2, t, task), t)
    ensures Reached(start, base, more, t, ch, s.(rows := s.rows[sid := row2]))
  {
    hide Reached, TakeTurn, Truthful;
    more := Then(start, base, acts, t, ch, With(s, sid, row, t, task));
    WithTwice(s, sid, row2, row2, t, task, task);
  }

  // ----- The barrier -----

  /** From its authorisation to its end. */
  lemma Authorising(start: State, base: seq<Action>, acts: seq<Action>, s: State, sid: nat, row: Row, t: nat,
                    task: Task, ch: Choice)
    returns (more: seq<Action>)
    requires Reached(start, base, acts, t, ch, With(s, sid, row, t, task)) && Truthful(ch) && t !in s.tasks
    requires task.pc == Authorize && task.sid == sid && task.local == row
    ensures Reached(start, base, more, t, ch, Barrier(s, sid, row, task.retry, task.wanted, ch))
  {
    hide Reached;
    if Stays(row, task.retry) {
      more := LastTurn(start, base, acts, s, sid, row, t, task, ch, row);
    } else {
      var command := CommandFor(row, task.wanted, ch);
      var next := task.(pc := if row.command == 0 then Claim else Call, command := command);
      WithTwice(s, sid, row, row, t, task, next);
      more := OneTurn(start, base, acts, s, sid, row, t, task, ch, row, next);
      var claimed := if row.command == 0 then row.(command := command) else row;
      if row.command == 0 {
        more := Claiming(start, base, more, s, sid, row, t, next, ch);
      }
      more := Calling(start, base, more, s, sid, claimed, row, t, next.(pc := Call, local := claimed), ch);
    }
  }

  lemma Claiming(start: State, base: seq<Action>, acts: seq<Action>, s: State, sid: nat, row: Row, t: nat, task: Task,
                 ch: Choice)
    returns (more: seq<Action>)
    requires Reached(start, base, acts, t, ch, With(s, sid, row, t, task)) && Truthful(ch)
    requires task.pc == Claim && task.sid == sid && row.command == 0
    ensures var claimed := row.(command := task.command);
            Reached(start, base, more, t, ch, With(s, sid, claimed, t, task.(pc := Call, local := claimed)))
  {
    hide Reached;
    var claimed, won := row.(command := task.command), task.(pc := Claimed);
    WithTwice(s, sid, row, claimed, t, task, won);
    WithTwice(s, sid, claimed, claimed, t, task, won);
    more := OneTurn(start, base, acts, s, sid, row, t, task, ch, claimed, won);
    WithTwice(s, sid, claimed, claimed, t, won, task.(pc := Call, local := claimed));
    more := OneTurn(start, base, more, s, sid, claimed, t, won, ch, claimed, task.(pc := Call, local := claimed));
  }

  lemma Calling(start: State, base: seq<Action>, acts: seq<Action>, s: State, sid: nat, claimed: Row, row: Row, t: nat,
                task: Task, ch: Choice)
    returns (more: seq<Action>)
    requires Reached(start, base, acts, t, ch, With(s, sid, claimed, t, task)) && Truthful(ch) && t !in s.tasks
    requires task.pc == Call && task.sid == sid && task.local == claimed && !Opened(row.life)
    requires claimed == if row.command == 0 then row.(command := task.command) else row
    ensures var o := Opening(sid, task.command, task.retry, row.taken);
            Reached(start, base, more, t, ch, State(s.rows[sid := Requested(row, task.command, ch)], s.tasks,
                                                   if ch.gate then s.log + [o] else s.log))
  {
    hide Reached, MayOpen;
    var called := s.(log := if ch.gate then s.log + [Opening(sid, task.command, task.retry, row.taken)] else s.log);
    var requesting := task.(pc := Request(0));
    more := Then(start, base, acts, t, ch, With(s, sid, claimed, t, task));
    WithTwice(called, sid, claimed, claimed, t, task, requesting);
    if !(ch.gate && !ch.success) {
      more := Requesting(start, base, more, called, sid, claimed, row, t, requesting, ch);
    }
  }

  lemma Requesting(start: State, base: seq<Action>, acts: seq<Action>, s: State, sid: nat, claimed: Row, row: Row,
                   t: nat, task: Task, ch: Choice)
    returns (more: seq<Action>)
    requires Reached(start, base, acts, t, ch, With(s, sid, claimed, t, task)) && Truthful(ch) && t !in s.tasks
    requires task.pc == Request(0) && task.sid == sid && task.local == claimed && !Opened(row.life)
    requires claimed == (if row.command == 0 then row.(command := task.command) else row) && !(ch.gate && !ch.success)
    ensures Reached(start, base, more, t, ch, s.(rows := s.rows[sid := Requested(row, task.command, ch)]))
  {
    hide Reached;
    if !MayOpen(row) {
      var next := task.(pc := Request(1));
      WithTwice(s, sid, claimed, claimed, t, task, next);
      more := OneTurn(start, base, acts, s, sid, claimed, t, task, ch, claimed, next);
      more := LastTurn(start, base, more, s, sid, claimed, t, next, ch, claimed);
    } else {
      var authorized := claimed.(life := EntryAuthorized);
      var next := task.(pc := Request(1), local := authorized);
      WithTwice(s, sid, claimed, authorized, t, task, task);
      WithTwice(s, sid, authorized, authorized, t, task, next);
      more := OneTurn(start, base, acts, s, sid, claimed, t, task, ch, authorized, next);
      more := Opens(start, base, more, s, sid, authorized, t, next, ch);
    }
  }

  lemma Opens(start: State, base: seq<Action>, acts: seq<Action>, s: State, sid: nat, row: Row, t: nat, task: Task,
              ch: Choice)
    returns (more: seq<Action>)
    requires Reached(start, base, acts, t, ch, With(s, sid, row, t, task)) && Truthful(ch) && t !in s.tasks
    requires task.pc == Request(1) && task.sid == sid && task.local == row && row.life == EntryAuthorized
    ensures var last := row.(command := task.command, life := if ch.fallback then Active else OpenRequested);
            Reached(start, base, more, t, ch, s.(rows := s.rows[sid := last]))
  {
    hide Reached;
    var open1 := row.(life := OpenRequested);
    var next := task.(pc := Request(2), local := open1);
    WithTwice(s, sid, row, open1, t, task, task);
    WithTwice(s, sid, open1, open1, t, task, next);
    more := OneTurn(start, base, acts, s, sid, row, t, task, ch, open1, next);
    var open2 := open1.(command := task.command);
    var settling := task.(pc := Settle, local := open2);
    WithTwice(s, sid, open1, open2, t, next, next);
    WithTwice(s, sid, open2, open2, t, next, settling);
    more := OneTurn(start, base, more, s, sid, open1, t, next, ch, open2, settling);
    var last := row.(command := task.command, life := if ch.fallback then Active else OpenRequested);
    WithTwice(s, sid, open2, last, t, settling, settling);
    more := LastTurn(start, base, more, s, sid, open2, t, settling, ch, last);
  }

  // ----- The receipt -----

  /** From the receipt to the end. */
  lemma TakesReceipt(start: State, base: seq<Action>, acts: seq<Action>, s: State, sid: nat, row: Row, t: nat,
                     task: Task, ch: Choice)
    returns (more: seq<Action>)
    requires Reached(start, base, acts, t, ch, With(s, sid, row, t, task)) && Truthful(ch) && t !in s.tasks
    requires task.pc == Take && task.sid == sid && task.local == row && !task.retry && task.wanted == 0
    ensures Reached(start, base, more, t, ch, Confirmed(s, sid, row, ch))
  {
    hide Reached, Barrier;
    if row.taken {
      more := TaskTurn(start, base, acts, s, sid, row, t, task, ch, task.(pc := Reread));
      more := Rereading(start, base, more, s, sid, row, t, task.(pc := Reread), ch);
    } else if !ch.sensor {
      more := LastTurn(start, base, acts, s, sid, row, t, task, ch, row);
    } else {
      var taking := task.(pc := Taking(Ahead(row.life)));
      more := TaskTurn(start, base, acts, s, sid, row, t, task, ch, taking);
      if row.life == Cancelled {
        more := LastTurn(start, base, more, s, sid, row, t, taking, ch, row);
      } else {
        var last;
        more, last := ReceiptSteps(start, base, more, s, sid, row, t, taking, ch);
        more := Rereading(start, base, more, s, sid, Receipted(row), t, last, ch);
      }
    }
  }

  /** A turn that moves only the task. */
  lemma TaskTurn(start: State, base: seq<Action>, acts: seq<Action>, s: State, sid: nat, row: Row, t: nat, task: Task,
                 ch: Choice, task2: Task)
    returns (more: seq<Action>)
    requires Reached(start, base, acts, t, ch, With(s, sid, row, t, task)) && Truthful(ch)
    requires TakeTurn(With(s, sid, row, t, task), t, task, ch) == PutTask(With(s, sid, row, t, task), t, task2)
    ensures Reached(start, base, more, t, ch, With(s, sid, row, t, task2))
  {
    hide Reached, TakeTurn;
    WithTwice(s, sid, row, row, t, task, task2);
    more := OneTurn(start, base, acts, s, sid, row, t, task, ch, row, task2);
  }

  lemma Rereading(start: State, base: seq<Action>, acts: seq<Action>, s: State, sid: nat, row: Row, t: nat, task: Task,
                  ch: Choice)
    returns (more: seq<Action>)
    requires Reached(start, base, acts, t, ch, With(s, sid, row, t, task)) && Truthful(ch) && t !in s.tasks
    requires task.pc == Reread && task.sid == sid && !task.retry && task.wanted == 0
    ensures Reached(start, base, more, t, ch, Barrier(s, sid, row, false, 0, ch))
  {
    hide Reached, Barrier;
    var next := task.(pc := Authorize, local := row);
    more := TaskTurn(start, base, acts, s, sid, row, t, task, ch, next);
    more := Authorising(start, base, more, s, sid, row, t, next, ch);
  }

  /** The lifecycle commits, one after the other, and the commit of the receipt. */
  lemma {:induction false} ReceiptSteps(start: State, base: seq<Action>, acts: seq<Action>, s: State, sid: nat,
                                        row: Row, t: nat, task: Task, ch: Choice)
    returns (more: seq<Action>, last: Task)
    requires Reached(start, base, acts, t, ch, With(s, sid, row, t, task)) && Truthful(ch)
    requires row.life != Cancelled && task.sid == sid && task.local == row && !task.retry && task.wanted == 0
    requires task.pc == Taking(Ahead(row.life))
    ensures Reached(start, base, more, t, ch, With(s, sid, Receipted(row), t, last))
    ensures last.pc == Reread && last.sid == sid && !last.retry && last.wanted == 0
    decreases |Ahead(row.life)|
  {
    hide Reached;
    var ahead := Ahead(row.life);
    if ahead == [] {
      last := task.(pc := Reread);
      WithTwice(s, sid, row, Receipted(row), t, task, task);
      WithTwice(s, sid, Receipted(row), Receipted(row), t, task, last);
      more := OneTurn(start, base, acts, s, sid, row, t, task, ch, Receipted(row), last);
    } else {
      var moved := row.(life := ahead[0], taken := true);
      var next := task.(pc := Taking(ahead[1..]), local := moved);
      WithTwice(s, sid, row, moved, t, task, task);
      WithTwice(s, sid, moved, moved, t, task, next);
      more := OneTurn(start, base, acts, s, sid, row, t, task, ch, moved, next);
      assert ahead[1..] == Ahead(moved.life);
      more, last := ReceiptSteps(start, base, more, s, sid, moved, t, next, ch);
    }
  }

  // ----- What an undisturbed task does -----

  /** A submission that creates its session. */
  lemma UndisturbedEntry(start: State, acts: seq<Action>, s: State, sid: nat, t: nat, needs: bool, autoTake: bool,
                         prints: bool, ch: Choice)
    returns (more: seq<Action>)
    requires Possible(start, acts) && After(start, acts) == s && t !in s.tasks && sid !in s.rows
    requires Truthful(ch) && (needs ==> prints)
    ensures Reached(start, acts, more, t, ch, Entered(s, sid, needs, autoTake, prints, ch))
  {
    hide Reached, Possible, After, Barrier, Confirmed;
    var row := Row(Created, needs, false, 0);
    var task := Task(if prints then Print else Authorize, false, autoTake, sid, row, 0, 0);
    more := Started(start, acts, s, Submit(t, sid, needs, autoTake, prints), ch);
    assert Apply(s, Submit(t, sid, needs, autoTake, prints)) == With(s, sid, row, t, task);
    if prints {
      more := Prints(start, acts, more, s, sid, row, t, task, ch);
      var printed := row.(life := ch.life);
      more := AfterPrint(start, acts, more, s, sid, printed, t,
                         task.(pc := Printed(ch.assistance), local := printed), ch);
    } else {
      more := Authorising(start, acts, more, s, sid, row, t, task, ch);
    }
  }

  lemma Prints(start: State, base: seq<Action>, acts: seq<Action>, s: State, sid: nat, row: Row, t: nat, task: Task,
               ch: Choice)
    returns (more: seq<Action>)
    requires Reached(start, base, acts, t, ch, With(s, sid, row, t, task)) && Truthful(ch)
    requires task.pc == Print && task.sid == sid
    ensures var printed := row.(life := ch.life);
            Reached(start, base, more, t, ch,
                    With(s, sid, printed, t, task.(pc := Printed(ch.assistance), local := printed)))
  {
    hide Reached;
    var printed := row.(life := ch.life);
    var next := task.(pc := Printed(ch.assistance), local := printed);
    WithTwice(s, sid, row, printed, t, task, task);
    WithTwice(s, sid, printed, printed, t, task, next);
    more := OneTurn(start, base, acts, s, sid, row, t, task, ch, printed, next);
  }

  lemma AfterPrint(start: State, base: seq<Action>, acts: seq<Action>, s: State, sid: nat, row: Row, t: nat, task: Task,
                   ch: Choice)
    returns (more: seq<Action>)
    requires Reached(start, base, acts, t, ch, With(s, sid, row, t, task)) && Truthful(ch) && t !in s.tasks
    requires task.pc == Printed(ch.assistance) && task.sid == sid && task.local == row && !task.retry
    requires task.wanted == 0
    ensures Reached(start, base, more, t, ch,
                    if !row.needs then Barrier(s, sid, row, false, 0, ch)
                    else if ch.assistance || !task.autoTake then s.(rows := s.rows[sid := row])
                    else Confirmed(s, sid, row, ch))
  {
    hide Reached, Barrier, Confirmed;
    if row.needs && (ch.assistance || !task.autoTake) {
      more := LastTurn(start, base, acts, s, sid, row, t, task, ch, row);
    } else {
      var next := task.(pc := if row.needs then Take else Authorize);
      more := TaskTurn(start, base, acts, s, sid, row, t, task, ch, next);
      if row.needs {
        more := TakesReceipt(start, base, more, s, sid, row, t, next, ch);
      } else {
        more := Authorising(start, base, more, s, sid, row, t, next, ch);
      }
    }
  }

  /** A confirmation that the receipt was taken. */
  lemma UndisturbedConfirmation(start: State, acts: seq<Action>, s: State, sid: nat, t: nat, ch: Choice)
    returns (more: seq<Action>)
    requires Possible(start, acts) && After(start, acts) == s && t !in s.tasks && sid in s.rows && Truthful(ch)
    ensures Reached(start, acts, more, t, ch, Confirmed(s, sid, s.rows[sid], ch))
  {
    hide Reached, Possible, After, Confirmed;
    var row := s.rows[sid];
    var task := Task(Take, false, true, sid, row, 0, 0);
    assert s.rows[sid := row] == s.rows;
    more := Started(start, acts, s, Confirm(t, sid), ch);
    more := TakesReceipt(start, acts, more, s, sid, row, t, task, ch);
  }

  /** An operator's retry. */
  lemma UndisturbedRetry(start: State, acts: seq<Action>, s: State, sid: nat, t: nat, wanted: nat, ch: Choice)
    returns (more: seq<Action>)
    requires Possible(start, acts) && After(start, acts) == s && t !in s.tasks && sid in s.rows && Truthful(ch)
    ensures Reached(start, acts, more, t, ch, Barrier(s, sid, s.rows[sid], true, wanted, ch))
  {
    hide Reached, Possible, After, Barrier;
    var row := s.rows[sid];
    var task := Task(Authorize, true, true, sid, row, wanted, 0);
    assert s.rows[sid := row] == s.rows;
    more := Started(start, acts, s, Retry(t, sid, wanted), ch);
    more := Authorising(start, acts, more, s, sid, row, t, task, ch);
  }

  /** Once its barrier was asked for, the passage sensor makes a session active; before its receipt is taken, a vehicle
      that leaves cancels it. */
  lemma PassageOrDeparture(start: State, acts: seq<Action>, s: State, sid: nat)
    requires Possible(start, acts) && After(start, acts) == s && sid in s.rows
    ensures s.rows[sid].life == OpenRequested ==>
              && Possible(start, acts + [Passage(sid)])
              && After(start, acts + [Passage(sid)]) == s.(rows := s.rows[sid := s.rows[sid].(life := Active)])
    ensures Possible(start, acts + [VehicleLeft(sid)]) <==>
              s.rows[sid].life in {Created, Printing, Presented, Cancelled}
    ensures After(start, acts + [VehicleLeft(sid)]) == s.(rows := s.rows[sid := s.rows[sid].(life := Cancelled)])
  {
    var passing, leaving := acts + [Passage(sid)], acts + [VehicleLeft(sid)];
    assert passing[..|passing| - 1] == acts && leaving[..|leaving| - 1] == acts;
  }

  // ----- In particular -----

  /** A vehicle that needs no receipt gets in: its first submission opens the barrier, not as a retry. */
  lemma EntryWithoutReceiptOpens(start: State, acts: seq<Action>, s: State, sid: nat, t: nat, autoTake: bool,
                                 prints: bool, ch: Choice)
    returns (more: seq<Action>)
    requires Possible(start, acts) && After(start, acts) == s && t !in s.tasks && sid !in s.rows
    requires Truthful(ch) && ch.gate
    ensures Possible(start, more) && Alone(acts, more, t, ch)
    ensures After(start, more).log == s.log + [Opening(sid, ch.command, false, false)]
    ensures ch.success ==>
              RowAt(After(start, more).rows, sid).life == if ch.fallback then Active else OpenRequested
  {
    hide Possible, After, Alone;
    more := UndisturbedEntry(start, acts, s, sid, t, false, autoTake, prints, ch);
  }

  /** Once the sensor sees the receipt taken, the barrier opens, with the receipt stored before. */
  lemma ConfirmedReceiptOpens(start: State, acts: seq<Action>, s: State, sid: nat, t: nat, ch: Choice)
    returns (more: seq<Action>)
    requires Possible(start, acts) && After(start, acts) == s && t !in s.tasks && sid in s.rows
    requires Truthful(ch) && ch.gate && ch.sensor && s.rows[sid].command == 0
    requires s.rows[sid].life in {Created, Printing, Presented, ReceiptTaken}
    ensures Possible(start, more) && Alone(acts, more, t, ch)
    ensures After(start, more).log == s.log + [Opening(sid, ch.command, false, true)]
    ensures ch.success && (s.rows[sid].taken ==> MayOpen(s.rows[sid])) ==>
              RowAt(After(start, more).rows, sid).life == if ch.fallback then Active else OpenRequested
  {
    hide Possible, After, Alone;
    more := UndisturbedConfirmation(start, acts, s, sid, t, ch);
  }

  /** One that needs its receipt and has not shown it waits: nothing opens without the sensor. */
  lemma WaitingForTheReceipt(start: State, acts: seq<Action>, s: State, sid: nat, t: nat, ch: Choice)
    returns (more: seq<Action>)
    requires Possible(start, acts) && After(start, acts) == s && t !in s.tasks && sid in s.rows
    requires Truthful(ch) && !ch.sensor && !s.rows[sid].taken
    ensures Possible(start, more) && Alone(acts, more, t, ch) && After(start, more) == s
  {
    hide Possible, After, Alone, Barrier;
    more := UndisturbedConfirmation(start, acts, s, sid, t, ch);
    assert s.rows[sid := s.rows[sid]] == s.rows;
  }

  /** Retrying does open: from any point of any run, an operator's gate retry opens every session that is not open yet,
      with or without a command, also one that needs its receipt and still waits for it. */
  lemma RetryOpensWithoutReceipt(start: State, acts: seq<Action>, s: State, sid: nat, t: nat, wanted: nat, ch: Choice)
    returns (more: seq<Action>, o: Opening)
    requires Possible(start, acts) && After(start, acts) == s && t !in s.tasks
    requires sid in s.rows && !Opened(s.rows[sid].life) && Truthful(ch) && ch.gate
    ensures Possible(start, more) && Alone(acts, more, t, ch) && After(start, more).log == s.log + [o]
    ensures o.sid == sid && o.retry && o.taken == s.rows[sid].taken
    ensures o.command == CommandFor(s.rows[sid], wanted, ch)
  {
    hide Possible, After, Alone;
    more := UndisturbedRetry(start, acts, s, sid, t, wanted, ch);
    o := Opening(sid, CommandFor(s.rows[sid], wanted, ch), true, s.rows[sid].taken);
  }
}

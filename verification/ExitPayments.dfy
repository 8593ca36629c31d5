/** Which stays were found payable before a barrier opens: the price queries of app/application/exit_lane.py and the
    decision of start_exit in app/services/parking_sessions.py. */
module ExitPayments {
  import opened ExitGate
  import opened ExitEvents

  /** The plate whose stay this action finds paid, free or covered by a plan. */
  function PaidBy(s: State, a: Action): set<nat>
  {
    if a.Turn? && a.task in s.tasks && s.tasks[a.task].pc.Bill? && a.choice.paid
    then {RowAt(s.rows, s.tasks[a.task].sid).plate} else {}
  }

  function PaidPlates(start: State, acts: seq<Action>): set<nat>
  {
    if acts == [] then {}
    else PaidPlates(start, acts[..|acts| - 1]) + PaidBy(After(start, acts[..|acts| - 1]), acts[|acts| - 1])
  }

  // ----- What every step keeps -----

  predicate Pricing(pc: Pc) { pc.ByExit? || pc.Hold? || pc.Bind? || pc.Reload? || pc.Decide? }

  predicate Opens(pc: Pc) { pc.Claim? || pc.Claimed? || pc.Call? || pc.Finish? }

  ghost predicate TaskPaid(rows: map<nat, Row>, task: Task, paid: set<nat>)
  {
    && (Final(task.local.life) || Opens(task.pc) || (task.allow && Pricing(task.pc)) ==> task.local.plate in paid)
    && (!task.pc.Replay? && !task.pc.Find? ==> task.sid in rows && rows[task.sid].plate == task.local.plate)
  }

  ghost predicate RowsPaid(rows: map<nat, Row>, paid: set<nat>)
  {
    forall sid | sid in rows && Final(rows[sid].life) :: rows[sid].plate in paid
  }

  ghost predicate AllPaid(s: State, paid: set<nat>)
  {
    RowsPaid(s.rows, paid) && forall t | t in s.tasks :: TaskPaid(s.rows, s.tasks[t], paid)
  }

  ghost predicate PlatesKept(before: map<nat, Row>, rows: map<nat, Row>)
  {
    forall sid | sid in before :: sid in rows && rows[sid].plate == before[sid].plate
  }

  lemma KeepsAllPaid(s: State, s2: State, t: nat, paid: set<nat>, more: set<nat>)
    requires AllPaid(s, paid) && paid <= more && PlatesKept(s.rows, s2.rows) && OthersStay(s, s2, t)
    requires RowsPaid(s2.rows, more) && (t in s2.tasks ==> TaskPaid(s2.rows, s2.tasks[t], more))
    ensures AllPaid(s2, more)
  {
    forall u | u in s2.tasks
      ensures TaskPaid(s2.rows, s2.tasks[u], more)
    {
      if u != t {
        assert TaskPaid(s.rows, s.tasks[u], paid);
      }
    }
  }

  lemma SameRows(rows: map<nat, Row>)
    ensures PlatesKept(rows, rows)
  {
  }

  lemma RowWrite(rows: map<nat, Row>, sid: nat, row: Row, paid: set<nat>)
    requires RowsPaid(rows, paid) && sid in rows && row.plate == rows[sid].plate && (Final(row.life) ==>
              row.plate in paid)
    ensures RowsPaid(rows[sid := row], paid) && PlatesKept(rows, rows[sid := row])
  {
  }

  lemma LookUpPaid(s: State, t: nat, task: Task, ch: Choice, s2: State, paid: set<nat>)
    requires AllPaid(s, paid) && t in s.tasks && s.tasks[t] == task && Truthful(s, task, ch) && InSection(task)
    requires s2 == LookUp(s, t, task, ch) && (task.pc.Bill? && ch.paid ==> RowAt(s.rows, task.sid).plate in paid)
    ensures s2.rows == s.rows && OthersStay(s, s2, t)
    ensures t in s2.tasks ==> TaskPaid(s2.rows, s2.tasks[t], paid)
  {
    hide Final, Replayed, NoneOpen;
    assert TaskPaid(s.rows, task, paid);
  }

  lemma BindPaid(s: State, t: nat, task: Task, ch: Choice, s2: State, paid: set<nat>)
    requires AllPaid(s, paid) && t in s.tasks && s.tasks[t] == task && task.pc.Bind?
    requires s2 == BindEvent(s, t, task, ch)
    ensures PlatesKept(s.rows, s2.rows) && OthersStay(s, s2, t) && RowsPaid(s2.rows, paid)
    ensures t in s2.tasks ==> TaskPaid(s2.rows, s2.tasks[t], paid)
  {
    hide Final;
    assert TaskPaid(s.rows, task, paid);
  }

  lemma AdvancePaid(s: State, t: nat, task: Task, stage: nat, s2: State, paid: set<nat>)
    requires AllPaid(s, paid) && t in s.tasks && s.tasks[t] == task && task.pc == Decide(stage)
    requires s2 == Advance(s, t, task, stage)
    ensures PlatesKept(s.rows, s2.rows) && OthersStay(s, s2, t) && RowsPaid(s2.rows, paid)
    ensures t in s2.tasks ==> TaskPaid(s2.rows, s2.tasks[t], paid)
  {
    hide WriteLife, RowsPaid, PlatesKept;
    assert TaskPaid(s.rows, task, paid);
    SameRows(s.rows);
    var life := Target(stage, task.local.life, task.allow);
    if life != task.local.life {
      RowWrite(s.rows, task.sid, WriteLife(s.rows[task.sid], task.local, life), paid);
    }
  }

  lemma BarrierPaid(s: State, t: nat, task: Task, ch: Choice, s2: State, paid: set<nat>)
    requires AllPaid(s, paid) && t in s.tasks && s.tasks[t] == task && s2 == TakeTurn(s, t, task, ch)
    requires task.pc.Reload? || task.pc.Judge? || task.pc.Claim? || task.pc.Claimed? || task.pc.Call?
    ensures PlatesKept(s.rows, s2.rows) && OthersStay(s, s2, t) && RowsPaid(s2.rows, paid)
    ensures t in s2.tasks ==> TaskPaid(s2.rows, s2.tasks[t], paid)
  {
    assert TaskPaid(s.rows, task, paid);
  }

  lemma FinishPaid(s: State, t: nat, task: Task, ch: Choice, part: nat, s2: State, paid: set<nat>)
    requires AllPaid(s, paid) && t in s.tasks && s.tasks[t] == task && task.pc == Finish(part)
    requires s2 == Complete(s, t, task, ch, part)
    ensures PlatesKept(s.rows, s2.rows) && RowsPaid(s2.rows, paid) && task.sid in s2.rows
  {
    hide WriteLife, RowsPaid, PlatesKept;
    assert TaskPaid(s.rows, task, paid);
    SameRows(s.rows);
    var row := s.rows[task.sid];
    RowWrite(s.rows, task.sid, WriteLife(row, task.local, OpenRequested), paid);
    RowWrite(s.rows, task.sid, WriteLife(row, task.local, Closed), paid);
    RowWrite(s.rows, task.sid, row.(command := task.command), paid);
  }

  lemma FinishTaskPaid(s: State, t: nat, task: Task, ch: Choice, part: nat, s2: State, paid: set<nat>)
    requires AllPaid(s, paid) && t in s.tasks && s.tasks[t] == task && task.pc == Finish(part)
    requires s2 == Complete(s, t, task, ch, part)
    ensures OthersStay(s, s2, t) && (t in s2.tasks ==> TaskPaid(s2.rows, s2.tasks[t], paid))
  {
    hide WriteLife, RowsPaid, PlatesKept;
    assert TaskPaid(s.rows, task, paid);
  }

  lemma TurnPaid(s: State, t: nat, task: Task, ch: Choice, s2: State, paid: set<nat>)
    requires AllPaid(s, paid) && t in s.tasks && s.tasks[t] == task && Truthful(s, task, ch)
    requires s2 == TakeTurn(s, t, task, ch) && (task.pc.Bill? && ch.paid ==> RowAt(s.rows, task.sid).plate in paid)
    ensures AllPaid(s2, paid)
  {
    hide TaskPaid, RowsPaid, LookUp, BindEvent, Advance, Complete, Truthful;
    if task.pc.Bind? {
      BindPaid(s, t, task, ch, s2, paid);
    } else if task.pc.Decide? {
      AdvancePaid(s, t, task, task.pc.stage, s2, paid);
    } else if task.pc.Finish? {
      FinishPaid(s, t, task, ch, task.pc.part, s2, paid);
      FinishTaskPaid(s, t, task, ch, task.pc.part, s2, paid);
    } else if task.pc.Reload? || task.pc.Judge? || task.pc.Claim? || task.pc.Claimed? || task.pc.Call? {
      BarrierPaid(s, t, task, ch, s2, paid);
    } else {
      LookUpPaid(s, t, task, ch, s2, paid);
    }
    KeepsAllPaid(s, s2, t, paid, paid);
  }

  lemma OutsidePaid(s: State, a: Action, s2: State, paid: set<nat>)
    requires AllPaid(s, paid) && Enabled(s, a) && !a.Turn? && s2 == Apply(s, a)
    ensures AllPaid(s2, paid)
  {
    hide WriteLife;
    forall u | u in s2.tasks
      ensures TaskPaid(s2.rows, s2.tasks[u], paid)
    {
      if u in s.tasks && s2.tasks[u] == s.tasks[u] {
        assert TaskPaid(s.rows, s.tasks[u], paid);
      }
    }
  }

  lemma ActionPaid(s: State, a: Action, paid: set<nat>)
    requires AllPaid(s, paid) && Enabled(s, a)
    ensures AllPaid(Apply(s, a), paid + PaidBy(s, a))
  {
    hide TakeTurn, Truthful, TaskPaid, RowsPaid;
    var more := paid + PaidBy(s, a);
    MorePaid(s, paid, more);
    if a.Turn? {
      TurnPaid(s, a.task, s.tasks[a.task], a.choice, Apply(s, a), more);
    } else {
      OutsidePaid(s, a, Apply(s, a), more);
    }
  }

  lemma MorePaid(s: State, paid: set<nat>, more: set<nat>)
    requires AllPaid(s, paid) && paid <= more
    ensures AllPaid(s, more)
  {
  }

  ghost predicate NoneAuthorised(s: State)
  {
    Quiet(s) && forall sid | sid in s.rows :: !Final(s.rows[sid].life)
  }

  lemma {:induction false} AlwaysPaid(start: State, acts: seq<Action>)
    requires NoneAuthorised(start) && Possible(start, acts)
    ensures AllPaid(After(start, acts), PaidPlates(start, acts))
  {
    if acts != [] {
      hide AllPaid, NoneAuthorised, Enabled, Apply, PaidBy;
      AlwaysPaid(start, acts[..|acts| - 1]);
      ActionPaid(After(start, acts[..|acts| - 1]), acts[|acts| - 1], PaidPlates(start, acts[..|acts| - 1]));
    }
  }

  // ----- Openings -----

  /** A point of the run before opening k at which the plate of its session had been found paid. */
  ghost predicate PaidBefore(start: State, acts: seq<Action>, k: nat, plate: nat, n: nat)
  {
    n <= |acts| && |After(start, acts[..n]).log| <= k && plate in PaidPlates(start, acts[..n])
  }

  lemma PaidBeforeStays(start: State, acts: seq<Action>, a: Action, k: nat, plate: nat, n: nat)
    requires PaidBefore(start, acts, k, plate, n)
    ensures PaidBefore(start, acts + [a], k, plate, n)
  {
    assert (acts + [a])[..n] == acts[..n];
  }

  /** Sessions stay and keep their plates. */
  lemma PlatesStay(s: State, a: Action, paid: set<nat>)
    requires AllPaid(s, paid) && Enabled(s, a)
    ensures PlatesKept(s.rows, Apply(s, a).rows)
  {
    hide Truthful, TakeTurn, WriteLife;
    if a.Turn? {
      TurnKeepsPlates(s, a.task, s.tasks[a.task], a.choice);
    }
  }

  lemma TurnKeepsPlates(s: State, t: nat, task: Task, ch: Choice)
    requires t in s.tasks && s.tasks[t] == task
    ensures PlatesKept(s.rows, TakeTurn(s, t, task, ch).rows)
  {
    hide Carries, NoneCarries, Target, MayClaim, WriteLife, LookUp, Bound;
    LookUpKeepsRows(s, t, task, ch);
  }

  /** The log grows by at most one opening, of a paid plate. */
  lemma OneMoreOpening(s: State, a: Action, paid: set<nat>)
    requires AllPaid(s, paid) && Enabled(s, a)
    ensures Apply(s, a).log == s.log ||
            exists o :: Apply(s, a).log == s.log + [o] && o.sid in s.rows && s.rows[o.sid].plate in paid
  {
    hide Truthful, LookUp, BindEvent, Advance, Complete, MayClaim, WriteLife, Final;
    if a.Turn? {
      var task := s.tasks[a.task];
      assert TaskPaid(s.rows, task, paid);
      TurnLog(s, a.task, task, a.choice);
      if task.pc.Call? {
        assert Apply(s, a).log == s.log + [Opening(task.sid, task.command, task.event)];
      }
    }
  }

  /** In every interleaving each opening comes after a price query that found a stay of the session's plate paid, free
      or covered by a plan. */
  lemma {:induction false} EveryOpeningIsPaid(start: State, acts: seq<Action>, k: nat) returns (n: nat)
    requires NoneAuthorised(start) && Possible(start, acts) && k < |After(start, acts).log|
    ensures After(start, acts).log[k].sid in After(start, acts).rows
    ensures PaidBefore(start, acts, k, After(start, acts).rows[After(start, acts).log[k].sid].plate, n)
  {
    hide Enabled, Apply, AllPaid, PaidPlates;
    if acts == [] {
      NoOpeningYet(start);
    } else {
      var rest, a := acts[..|acts| - 1], acts[|acts| - 1];
      var s := After(start, rest);
      AlwaysPaid(start, rest);
      OneMoreOpening(s, a, PaidPlates(start, rest));
      PlatesStay(s, a, PaidPlates(start, rest));
      if k < |s.log| {
        n := EveryOpeningIsPaid(start, rest, k);
        PaidBeforeStays(start, rest, a, k, s.rows[s.log[k].sid].plate, n);
      } else {
        n := |rest|;
        assert rest[..n] == rest;
        PaidBeforeStays(start, rest, a, k, s.rows[Apply(s, a).log[k].sid].plate, n);
      }
      assert rest + [a] == acts;
    }
  }

  lemma NoOpeningYet(start: State)
    requires NoneAuthorised(start)
    ensures After(start, []).log == []
  {
  }
}

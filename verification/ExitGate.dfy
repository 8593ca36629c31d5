/** The exit barrier protocol: app/application/exit_lane.py with start_exit and complete_authorized_exit of
    app/services/parking_sessions.py. Any number of submissions run as tasks over shared session rows. Each task holds
    its own copy of a row, read at its last refresh, and writes single columns from it; between two database calls
    any other task may run, and any task may stop. */
module ExitGate {

  /** The exit lifecycle; Entering stands for every state before ACTIVE. */
  datatype Life =
    | Entering | Active | Detected | Resolved | Priced | Deciding | Authorized | Denied
    | OpenRequested | Passed | Closed | Cancelled

  /** Event and command ids; 0 is the empty text. */
  datatype Row = Row(plate: nat, open: bool, life: Life, closedAt: bool, event: nat, command: nat)

  const BLANK := Row(0, false, Entering, false, 0, 0)

  /** Where a submission stands; one turn goes from one database call to the next. */
  datatype Pc =
    | Replay | Find | Bill | ByExit | Hold | Bind | Reload(stage: nat) | Decide(stage: nat)
    | Judge | Claim | Claimed | Call | Finish(part: nat)

  datatype Task = Task(pc: Pc, plate: nat, event: nat, sid: nat, local: Row, allow: bool, command: nat)

  /** One call of the barrier opener. */
  datatype Opening = Opening(sid: nat, command: nat, event: nat)

  datatype State = State(rows: map<nat, Row>, tasks: map<nat, Task>, log: seq<Opening>)

  /** What the outside decides: query results, payment, the lane's gate and policy, the opener's answer, a fresh id. */
  datatype Choice = Choice(row: nat, paid: bool, gate: bool, success: bool, fallback: bool, command: nat)

  datatype Action =
    | SubmitPlate(task: nat, plate: nat, event: nat)
    | SubmitQr(task: nat, sid: nat, event: nat)
    | Turn(task: nat, choice: Choice)
    | Stop(task: nat)
    | Arrive(sid: nat, plate: nat)
    | FinishEntry(sid: nat, life: Life)
    | Passage(sid: nat)
    | OperatorClose(sid: nat)

  // ----- Queries -----

  function RowAt(rows: map<nat, Row>, sid: nat): Row { if sid in rows then rows[sid] else BLANK }

  predicate Newest(rows: map<nat, Row>, plate: nat, sid: nat)
  {
    sid in rows && rows[sid].open && rows[sid].plate == plate &&
    forall r | r in rows && rows[r].open && rows[r].plate == plate :: r <= sid
  }

  predicate NoneOpen(rows: map<nat, Row>, plate: nat)
  {
    forall r | r in rows :: !(rows[r].open && rows[r].plate == plate)
  }

  predicate Carries(rows: map<nat, Row>, sid: nat, event: nat)
  {
    event != 0 && sid in rows && rows[sid].event == event
  }

  predicate NoneCarries(rows: map<nat, Row>, event: nat, but: nat)
  {
    forall r | r in rows && r != but :: !Carries(rows, r, event)
  }

  /** The event already opened or finished a session. */
  predicate Replayed(rows: map<nat, Row>, event: nat)
  {
    exists r | r in rows :: Carries(rows, r, event) && (rows[r].command != 0 || rows[r].closedAt)
  }

  // ----- Column writes -----

  /** A lifecycle commit; the stored status moves only if it differs from the writer's copy. */
  function WriteLife(stored: Row, local: Row, life: Life): (r: Row)
    ensures r.command == stored.command && r.event == stored.event && r.plate == stored.plate && r.life == life
  {
    var open := life != Closed && life != Cancelled;
    stored.(life := life, closedAt := stored.closedAt || !open,
            open := if open != local.open then open else stored.open)
  }

  /** Stage k of start_exit: the transition it makes from this lifecycle, if any. */
  function Target(stage: nat, life: Life, paid: bool): Life
  {
    if stage == 0 && life == Active then Detected
    else if stage == 1 && life == Denied then Priced
    else if stage == 2 && life == Detected then Resolved
    else if stage == 3 && life == Resolved then Priced
    else if stage == 4 && life == Priced then Deciding
    else if stage == 5 && life == Deciding then if paid then Authorized else Denied
    else life
  }

  // ----- One turn -----

  function PutTask(s: State, t: nat, task: Task): State { s.(tasks := s.tasks[t := task]) }

  function PutRow(s: State, sid: nat, row: Row): State { s.(rows := s.rows[sid := row]) }

  function Leave(s: State, t: nat): State { s.(tasks := s.tasks - {t}) }

  /** The event a session is bound to when this submission claims it. */
  function Bound(task: Task): nat { if task.event != 0 then task.event else task.local.event }

  /** The copy read by a query that returns a row this submission may already hold. */
  function Loaded(s: State, task: Task, sid: nat): Row
  {
    if sid == task.sid then task.local else RowAt(s.rows, sid)
  }

  function LookUp(s: State, t: nat, task: Task, ch: Choice): State
  {
    match task.pc
    case Replay =>
      if Replayed(s.rows, task.event) then Leave(s, t) else PutTask(s, t, task.(pc := Find))
    case Find =>
      if NoneOpen(s.rows, task.plate) then Leave(s, t)
      else PutTask(s, t, task.(pc := Bill, sid := ch.row, local := RowAt(s.rows, ch.row)))
    case Bill =>
      PutTask(s, t, task.(pc := ByExit, local := RowAt(s.rows, task.sid), allow := ch.paid))
    case ByExit =>
      if Carries(s.rows, ch.row, task.event)
      then PutTask(s, t, task.(pc := Judge, sid := ch.row, local := Loaded(s, task, ch.row)))
      else PutTask(s, t, task.(pc := Hold))
    case Hold =>
      if NoneOpen(s.rows, task.local.plate) then Leave(s, t)
      else
        var local := Loaded(s, task, ch.row);
        var owned := local.event != 0 && task.event != 0 && (local.event == task.event || local.life != Denied);
        PutTask(s, t, task.(pc := if owned || local.life == Closed then Judge else Bind, sid := ch.row, local := local))
    case _ => s
  }

  /** Commit the event id; the unique index refuses an event that another session carries. */
  function BindEvent(s: State, t: nat, task: Task, ch: Choice): State
  {
    var v := Bound(task);
    if v == task.local.event then PutTask(s, t, task.(pc := Reload(0)))
    else if ch.row != task.sid && Carries(s.rows, ch.row, v)
    then PutTask(s, t, task.(pc := Judge, sid := ch.row, local := RowAt(s.rows, ch.row)))
    else PutTask(PutRow(s, task.sid, RowAt(s.rows, task.sid).(event := v)), t, task.(pc := Reload(0)))
  }

  function Advance(s: State, t: nat, task: Task, stage: nat): State
  {
    var life := task.local.life;
    if stage > 5 then PutTask(s, t, task.(pc := Judge))
    else if stage == 0 && (life == Entering || life == Cancelled || life == Closed) then Leave(s, t)
    else if Target(stage, life, task.allow) == life then PutTask(s, t, task.(pc := Decide(stage + 1)))
    else
      PutTask(PutRow(s, task.sid, WriteLife(RowAt(s.rows, task.sid), task.local, Target(stage, life, task.allow))),
              t, task.(pc := Reload(stage + 1)))
  }

  /** Authorised, owned by this event, with a gate and no command yet. */
  predicate MayClaim(task: Task, ch: Choice)
  {
    && task.local.life == Authorized && ch.gate && task.local.command == 0
    && (task.event == 0 || task.local.event == 0 || task.local.event == task.event)
  }

  function ClaimCommand(s: State, t: nat, task: Task, ch: Choice): State
  {
    var row := RowAt(s.rows, task.sid);
    if row.command != 0 then Leave(s, t)
    else PutTask(PutRow(s, task.sid, row.(command := ch.command)), t, task.(pc := Claimed, command := ch.command))
  }

  function CallOpener(s: State, t: nat, task: Task, ch: Choice): State
  {
    var called := s.(log := s.log + [Opening(task.sid, task.command, task.event)]);
    if ch.success then PutTask(called, t, task.(pc := Finish(0))) else Leave(called, t)
  }

  function Complete(s: State, t: nat, task: Task, ch: Choice, part: nat): State
  {
    var row := RowAt(s.rows, task.sid);
    if part == 0 then
      if task.local.life == Denied then Leave(s, t)
      else if task.local.life == Authorized then
        PutTask(PutRow(s, task.sid, WriteLife(row, task.local, OpenRequested)), t, task.(pc := Finish(1)))
      else PutTask(s, t, task.(pc := Finish(2)))
    else if part == 1 then PutTask(s, t, task.(pc := Finish(2), local := row))
    else if part == 2 then
      if task.local.command == task.command && (task.local.life == Closed || task.local.life == Passed) then Leave(s, t)
      else if task.local.command != 0 then PutTask(s, t, task.(pc := Finish(3)))
      else PutTask(PutRow(s, task.sid, row.(command := task.command)), t,
                   task.(pc := Finish(3), local := task.local.(command := task.command)))
    else if ch.fallback && task.local.life == OpenRequested then
      Leave(PutRow(s, task.sid, WriteLife(row, task.local, Closed)), t)
    else Leave(s, t)
  }

  function TakeTurn(s: State, t: nat, task: Task, ch: Choice): State
  {
    match task.pc
    case Bind => BindEvent(s, t, task, ch)
    case Reload(k) => PutTask(s, t, task.(pc := Decide(k), local := RowAt(s.rows, task.sid)))
    case Decide(k) => Advance(s, t, task, k)
    case Judge => if MayClaim(task, ch) then PutTask(s, t, task.(pc := Claim)) else Leave(s, t)
    case Claim => ClaimCommand(s, t, task, ch)
    case Claimed => PutTask(s, t, task.(pc := Call, local := RowAt(s.rows, task.sid)))
    case Call => CallOpener(s, t, task, ch)
    case Finish(part) => Complete(s, t, task, ch, part)
    case _ => LookUp(s, t, task, ch)
  }

  /** The query results in the choice are what the database would return, and a new id is not empty. */
  predicate Truthful(s: State, task: Task, ch: Choice)
  {
    match task.pc
    case Find => NoneOpen(s.rows, task.plate) || Newest(s.rows, task.plate, ch.row)
    case Hold => NoneOpen(s.rows, task.local.plate) || Newest(s.rows, task.local.plate, ch.row)
    case ByExit => Carries(s.rows, ch.row, task.event) || forall r | r in s.rows :: !Carries(s.rows, r, task.event)
    case Bind => (ch.row != task.sid && Carries(s.rows, ch.row, Bound(task))) ||
              NoneCarries(s.rows, Bound(task), task.sid)
    case Claim => ch.command != 0
    case _ => true
  }

  predicate Enabled(s: State, a: Action)
  {
    match a
    case SubmitPlate(t, _, _) => t !in s.tasks
    case SubmitQr(t, sid, _) => t !in s.tasks && sid in s.rows && s.rows[sid].open
    case Turn(t, ch) => t in s.tasks && Truthful(s, s.tasks[t], ch)
    case Stop(t) => true
    case Arrive(sid, _) => forall r | r in s.rows :: r < sid
    case FinishEntry(sid, life) =>
      sid in s.rows && s.rows[sid].life == Entering && (life == Active || life == Cancelled)
    case Passage(sid) => sid in s.rows && (s.rows[sid].life == OpenRequested || s.rows[sid].life == Passed)
    case OperatorClose(sid) => sid in s.rows
  }

  function Apply(s: State, a: Action): State
  {
    match a
    case SubmitPlate(t, plate, event) => PutTask(s, t, Task(Replay, plate, event, 0, BLANK, false, 0))
    case SubmitQr(t, sid, event) =>
      PutTask(s, t, Task(Bill, RowAt(s.rows, sid).plate, event, sid, RowAt(s.rows, sid), false, 0))
    case Turn(t, ch) => if t in s.tasks then TakeTurn(s, t, s.tasks[t], ch) else s
    case Stop(t) => Leave(s, t)
    case Arrive(sid, plate) => PutRow(s, sid, Row(plate, true, Entering, false, 0, 0))
    case FinishEntry(sid, life) => PutRow(s, sid, WriteLife(RowAt(s.rows, sid), RowAt(s.rows, sid), life))
    case Passage(sid) =>
      var row := RowAt(s.rows, sid);
      PutRow(s, sid, WriteLife(row, row, if row.life == OpenRequested then Passed else Closed))
    case OperatorClose(sid) => PutRow(s, sid, RowAt(s.rows, sid).(open := false))
  }

  // ----- Runs -----

  function After(start: State, acts: seq<Action>): State
  {
    if acts == [] then start else Apply(After(start, acts[..|acts| - 1]), acts[|acts| - 1])
  }

  predicate Possible(start: State, acts: seq<Action>)
  {
    acts == [] ||
    (Possible(start, acts[..|acts| - 1]) && Enabled(After(start, acts[..|acts| - 1]), acts[|acts| - 1]))
  }

  /** No submission is under way and none has opened the barrier yet; the rows may hold anything. */
  predicate Quiet(s: State) { s.tasks == map[] && s.log == [] }

  // ----- Safety of the command claim -----

  /** It has won the claim on its session. */
  predicate Owns(task: Task) { task.pc.Claimed? || task.pc.Call? || task.pc.Finish? }

  ghost predicate OwnerOk(s: State, task: Task)
  {
    Owns(task) ==>
      && task.command != 0 && task.sid in s.rows && s.rows[task.sid].command == task.command
      && (task.pc.Finish? ==> task.local.command == task.command)
      && (task.pc.Call? ==> task.local.command == task.command)
      && (!task.pc.Finish? ==> forall o | o in s.log :: o.sid != task.sid)
  }

  ghost predicate CallOk(s: State, k: nat)
    requires k < |s.log|
  {
    && s.log[k].command != 0 && s.log[k].sid in s.rows && s.rows[s.log[k].sid].command == s.log[k].command
    && forall j | 0 <= j < k :: s.log[j].sid != s.log[k].sid
  }

  ghost predicate Claims(s: State)
  {
    && (forall t | t in s.tasks :: OwnerOk(s, s.tasks[t]))
    && (forall t, u | t in s.tasks && u in s.tasks && t != u && Owns(s.tasks[t]) && Owns(s.tasks[u]) ::
          s.tasks[t].sid != s.tasks[u].sid)
    && (forall k | 0 <= k < |s.log| :: CallOk(s, k))
  }

  /** No session disappears and no command id changes. */
  ghost predicate CommandsKept(before: map<nat, Row>, rows: map<nat, Row>)
  {
    forall sid | sid in before :: sid in rows && rows[sid].command == before[sid].command
  }

  /** Nothing is claimed and the opener is not called; only task t moves, and it owns no session it did not own. */
  ghost predicate Plain(s: State, s2: State, t: nat)
  {
    && CommandsKept(s.rows, s2.rows) && s2.log == s.log
    && (forall u | u in s2.tasks && u != t :: u in s.tasks && s2.tasks[u] == s.tasks[u])
    && (t in s2.tasks && Owns(s2.tasks[t]) ==>
          && t in s.tasks && Owns(s.tasks[t]) && s2.tasks[t].sid == s.tasks[t].sid
          && OwnerOk(s2, s2.tasks[t]))
  }

  lemma PlainKeepsClaims(s: State, s2: State, t: nat)
    requires Claims(s) && Plain(s, s2, t)
    ensures Claims(s2)
  {
    forall u | u in s2.tasks
      ensures OwnerOk(s2, s2.tasks[u])
    {
      if u != t {
        assert OwnerOk(s, s.tasks[u]);
      }
    }
    forall k | 0 <= k < |s2.log|
      ensures CallOk(s2, k)
    {
      assert CallOk(s, k);
    }
  }

  lemma ClaimKeepsClaims(s: State, s2: State, t: nat, task: Task, ch: Choice)
    requires Claims(s) && t in s.tasks && s.tasks[t] == task && task.pc == Claim && ch.command != 0
    requires RowAt(s.rows, task.sid).command == 0 && s2 == ClaimCommand(s, t, task, ch)
    ensures Claims(s2)
  {
    forall o | o in s.log
      ensures o.sid != task.sid
    {
      var k :| 0 <= k < |s.log| && s.log[k] == o;
      assert CallOk(s, k);
    }
    forall u | u in s2.tasks
      ensures OwnerOk(s2, s2.tasks[u])
      ensures u != t && Owns(s2.tasks[u]) ==> s2.tasks[u].sid != task.sid
    {
      if u != t {
        assert OwnerOk(s, s.tasks[u]);
      }
    }
    forall k | 0 <= k < |s2.log|
      ensures CallOk(s2, k)
    {
      assert CallOk(s, k);
    }
  }

  lemma CallKeepsClaims(s: State, s2: State, t: nat, task: Task, ch: Choice)
    requires Claims(s) && t in s.tasks && s.tasks[t] == task && task.pc == Call && s2 == CallOpener(s, t, task, ch)
    ensures Claims(s2)
  {
    assert OwnerOk(s, task);
    forall u | u in s2.tasks
      ensures OwnerOk(s2, s2.tasks[u])
    {
      if u != t {
        assert OwnerOk(s, s.tasks[u]);
      }
    }
    forall k | 0 <= k < |s2.log|
      ensures CallOk(s2, k)
    {
      if k < |s.log| {
        assert CallOk(s, k);
      } else {
        assert forall j | 0 <= j < |s.log| :: s2.log[j] in s.log;
      }
    }
  }

  lemma LookUpIsPlain(s: State, t: nat, task: Task, ch: Choice)
    requires t in s.tasks && s.tasks[t] == task && !Owns(task)
    ensures Plain(s, LookUp(s, t, task, ch), t)
  {
    hide NoneOpen, Carries, Replayed, OwnerOk, Loaded;
  }

  lemma BindIsPlain(s: State, t: nat, task: Task, ch: Choice)
    ensures Plain(s, BindEvent(s, t, task, ch), t)
  {
    hide Carries, OwnerOk, Bound;
  }

  lemma AdvanceIsPlain(s: State, t: nat, task: Task, stage: nat)
    ensures Plain(s, Advance(s, t, task, stage), t)
  {
    hide Target, WriteLife, OwnerOk;
  }

  lemma SearchIsPlain(s: State, t: nat, task: Task, ch: Choice, s2: State)
    requires t in s.tasks && s.tasks[t] == task && !Owns(task) && task.pc != Claim && s2 == TakeTurn(s, t, task, ch)
    ensures Plain(s, s2, t)
  {
    if task.pc.Reload? || task.pc.Judge? {
      hide MayClaim, OwnerOk;
    } else {
      hide LookUp, BindEvent, Advance, MayClaim, Plain;
      LookUpIsPlain(s, t, task, ch);
      BindIsPlain(s, t, task, ch);
      if task.pc.Decide? {
        AdvanceIsPlain(s, t, task, task.pc.stage);
      }
    }
  }

  lemma FinishIsPlain(s: State, t: nat, task: Task, ch: Choice, part: nat)
    requires t in s.tasks && s.tasks[t] == task && OwnerOk(s, task) && task.pc.Finish?
    ensures Plain(s, Complete(s, t, task, ch, part), t)
  {
    hide WriteLife;
  }

  lemma OwnerTurnIsPlain(s: State, t: nat, task: Task, ch: Choice, s2: State)
    requires t in s.tasks && s.tasks[t] == task && OwnerOk(s, task) && Owns(task) && task.pc != Call
    requires s2 == TakeTurn(s, t, task, ch)
    ensures Plain(s, s2, t)
  {
    if task.pc.Finish? {
      hide Complete, Plain, OwnerOk;
      FinishIsPlain(s, t, task, ch, task.pc.part);
    }
  }

  lemma TurnKeepsClaims(s: State, t: nat, task: Task, ch: Choice, s2: State)
    requires Claims(s) && t in s.tasks && s.tasks[t] == task && Truthful(s, task, ch)
    requires s2 == TakeTurn(s, t, task, ch)
    ensures Claims(s2)
  {
    hide Claims, OwnerOk, Plain, CallOpener, LookUp, Complete, BindEvent, Advance;
    TaskIsOk(s, t);
    if task.pc == Claim {
      if RowAt(s.rows, task.sid).command == 0 {
        ClaimKeepsClaims(s, s2, t, task, ch);
      } else {
        LeavingIsPlain(s, t);
        PlainKeepsClaims(s, s2, t);
      }
    } else if task.pc == Call {
      CallKeepsClaims(s, s2, t, task, ch);
    } else {
      if Owns(task) {
        OwnerTurnIsPlain(s, t, task, ch, s2);
      } else {
        SearchIsPlain(s, t, task, ch, s2);
      }
      PlainKeepsClaims(s, s2, t);
    }
  }

  lemma LeavingIsPlain(s: State, t: nat)
    ensures Plain(s, Leave(s, t), t)
  {
  }

  lemma TaskIsOk(s: State, t: nat)
    requires Claims(s) && t in s.tasks
    ensures OwnerOk(s, s.tasks[t])
  {
  }

  function Actor(a: Action): nat
  {
    match a
    case SubmitPlate(t, _, _) => t
    case SubmitQr(t, _, _) => t
    case Turn(t, _) => t
    case Stop(t) => t
    case _ => 0
  }

  lemma OutsideIsPlain(s: State, a: Action, t: nat)
    requires !a.Turn? && Enabled(s, a) && t == Actor(a)
    ensures || Plain(s, Apply(s, a), t)
            || (t in s.tasks && Apply(s, a).tasks == s.tasks && CommandsKept(s.rows, Apply(s, a).rows))
    ensures Apply(s, a).log == s.log
  {
    hide WriteLife, OwnerOk;
  }

  lemma RowsMoveKeepsClaims(s: State, s2: State)
    requires Claims(s) && CommandsKept(s.rows, s2.rows) && s2.log == s.log && s2.tasks == s.tasks
    ensures Claims(s2)
  {
    forall u | u in s2.tasks
      ensures OwnerOk(s2, s2.tasks[u])
    {
      assert OwnerOk(s, s.tasks[u]);
    }
    forall k | 0 <= k < |s2.log|
      ensures CallOk(s2, k)
    {
      assert CallOk(s, k);
    }
  }

  lemma ActionKeepsClaims(s: State, a: Action)
    requires Claims(s) && Enabled(s, a)
    ensures Claims(Apply(s, a))
  {
    hide Claims, Truthful, TakeTurn, Plain;
    if a.Turn? {
      TurnKeepsClaims(s, a.task, s.tasks[a.task], a.choice, Apply(s, a));
    } else {
      var t := Actor(a);
      OutsideIsPlain(s, a, t);
      if Plain(s, Apply(s, a), t) {
        PlainKeepsClaims(s, Apply(s, a), t);
      } else {
        RowsMoveKeepsClaims(s, Apply(s, a));
      }
    }
  }

  lemma {:induction false} ClaimsAlways(start: State, acts: seq<Action>)
    requires Quiet(start) && Possible(start, acts)
    ensures Claims(After(start, acts))
  {
    hide Claims, Enabled, Apply;
    if acts == [] {
      QuietClaims(start);
    } else {
      ClaimsAlways(start, acts[..|acts| - 1]);
      ActionKeepsClaims(After(start, acts[..|acts| - 1]), acts[|acts| - 1]);
    }
  }

  lemma QuietClaims(s: State)
    requires Quiet(s)
    ensures Claims(s)
  {
  }

  /** In every interleaving, tasks stopping anywhere, the opener runs at most once per session, and every call's
      command id is the one the session carries from then on. */
  lemma OneOpeningPerSession(start: State, acts: seq<Action>, i: nat, j: nat)
    requires Quiet(start) && Possible(start, acts) && i <= j < |After(start, acts).log|
    ensures var s := After(start, acts);
            && (s.log[i].sid == s.log[j].sid ==> i == j)
            && s.log[j].command != 0 && s.log[j].sid in s.rows && s.rows[s.log[j].sid].command == s.log[j].command
  {
    hide Possible;
    ClaimsAlways(start, acts);
    var s := After(start, acts);
    assert CallOk(s, j);
  }
}

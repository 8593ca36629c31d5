/** The entry barrier protocol: app/application/entry_lane.py with the receipt steps of app/services/receipt_jobs.py and
    app/services/parking_sessions.py. Submissions, receipt confirmations and retries run as tasks over shared session
    rows, each with its own copy of a row; any task may stop anywhere. */
module EntryGate {

  datatype Life =
    | Created | Printing | Presented | ReceiptTaken | EntryAuthorized | OpenRequested | Active | Cancelled

  /** needs: the lane wants this session's receipt taken before it opens. taken: the receipt is stored as taken.
      command: the barrier command id, 0 when empty. */
  datatype Row = Row(life: Life, needs: bool, taken: bool, command: nat)

  const BLANK := Row(Created, false, false, 0)

  datatype Pc =
    | Print | Printed(assistance: bool) | Take | Taking(ahead: seq<Life>) | Reread
    | Authorize | Claim | Claimed | Call | Request(part: nat) | Settle

  /** wanted: the command id the caller passed, 0 if none. */
  datatype Task = Task(pc: Pc, retry: bool, autoTake: bool, sid: nat, local: Row, wanted: nat, command: nat)

  /** One call of the opener, and whether the receipt was stored as taken at that moment. */
  datatype Opening = Opening(sid: nat, command: nat, retry: bool, taken: bool)

  datatype State = State(rows: map<nat, Row>, tasks: map<nat, Task>, log: seq<Opening>)

  /** What the outside decides: the printer, the taken sensor, the gate and its answer, the policy, a fresh id. */
  datatype Choice = Choice(life: Life, assistance: bool, sensor: bool, gate: bool, success: bool, fallback: bool,
                           command: nat)

  datatype Action =
    | Submit(task: nat, sid: nat, needs: bool, autoTake: bool, prints: bool)
    | Confirm(task: nat, sid: nat)
    | Retry(task: nat, sid: nat, command: nat)
    | Turn(task: nat, choice: Choice)
    | Stop(task: nat)
    | VehicleLeft(sid: nat)
    | Passage(sid: nat)

  function RowAt(rows: map<nat, Row>, sid: nat): Row { if sid in rows then rows[sid] else BLANK }

  function PutTask(s: State, t: nat, task: Task): State { s.(tasks := s.tasks[t := task]) }

  function PutRow(s: State, sid: nat, row: Row): State { s.(rows := s.rows[sid := row]) }

  function Leave(s: State, t: nat): State { s.(tasks := s.tasks - {t}) }

  predicate PastReceipt(life: Life)
  {
    life == ReceiptTaken || life == EntryAuthorized || life == OpenRequested || life == Active
  }

  predicate Opened(life: Life) { life == OpenRequested || life == Active }

  // ----- Receipt -----

  /** The lifecycle steps that taking the receipt still has to make. */
  function Ahead(life: Life): seq<Life>
  {
    if PastReceipt(life) then []
    else if life == Created then [Printing, Presented, ReceiptTaken]
    else if life == Printing then [Presented, ReceiptTaken]
    else [ReceiptTaken]
  }

  predicate Follows(life: Life, next: Life)
  {
    (life == Created && next == Printing) || (life == Printing && next == Presented) ||
    (life == Presented && next == ReceiptTaken)
  }

  /** Printing needs a printer; a session that needs its receipt goes on only when the receipt is taken at once. */
  function AfterPrinting(s: State, t: nat, task: Task, assistance: bool): State
  {
    if task.local.needs && (assistance || !task.autoTake) then Leave(s, t)
    else PutTask(s, t, task.(pc := if task.local.needs then Take else Authorize))
  }

  function TakeReceipt(s: State, t: nat, task: Task, ch: Choice): State
  {
    if task.local.taken then PutTask(s, t, task.(pc := Reread))
    else if !ch.sensor then Leave(s, t)
    else PutTask(s, t, task.(pc := Taking(Ahead(task.local.life))))
  }

  /** One lifecycle commit; the first one already stores the receipt as taken. */
  function StepReceipt(s: State, t: nat, task: Task, ahead: seq<Life>): State
  {
    var row := RowAt(s.rows, task.sid);
    if ahead == [] then
      PutTask(PutRow(s, task.sid, row.(taken := true)), t, task.(pc := Reread))
    else if task.local.life == ahead[0] then PutTask(s, t, task.(pc := Taking(ahead[1..])))
    else if !Follows(task.local.life, ahead[0]) then Leave(s, t)
    else
      var moved := row.(life := ahead[0], taken := true);
      PutTask(PutRow(s, task.sid, moved), t, task.(pc := Taking(ahead[1..]), local := moved))
  }

  // ----- Barrier -----

  function Authorizing(s: State, t: nat, task: Task, ch: Choice): State
  {
    var existing := task.local.command;
    var command := if task.wanted != 0 then task.wanted else if existing != 0 then existing else ch.command;
    if Opened(task.local.life) || (existing != 0 && !task.retry) then Leave(s, t)
    else PutTask(s, t, task.(pc := if existing == 0 then Claim else Call, command := command))
  }

  function ClaimCommand(s: State, t: nat, task: Task): State
  {
    var row := RowAt(s.rows, task.sid);
    if row.command != 0 then Leave(s, t)
    else PutTask(PutRow(s, task.sid, row.(command := task.command)), t, task.(pc := Claimed))
  }

  function CallOpener(s: State, t: nat, task: Task, ch: Choice): State
  {
    if !ch.gate then PutTask(s, t, task.(pc := Request(0)))
    else
      var taken := RowAt(s.rows, task.sid).taken;
      var called := s.(log := s.log + [Opening(task.sid, task.command, task.retry, taken)]);
      if ch.success then PutTask(called, t, task.(pc := Request(0))) else Leave(called, t)
  }

  function RequestOpen(s: State, t: nat, task: Task, part: nat): State
  {
    var row, life := RowAt(s.rows, task.sid), task.local.life;
    if part == 0 then
      if Opened(life) then PutTask(s, t, task.(pc := Settle))
      else if life == ReceiptTaken
              || (!task.local.needs && (life == Created || life == Printing || life == Presented)) then
        var moved := row.(life := EntryAuthorized);
        PutTask(PutRow(s, task.sid, moved), t, task.(pc := Request(1), local := moved))
      else PutTask(s, t, task.(pc := Request(1)))
    else if part == 1 then
      if life != EntryAuthorized then Leave(s, t)
      else
        var moved := row.(life := OpenRequested);
        PutTask(PutRow(s, task.sid, moved), t, task.(pc := Request(2), local := moved))
    else
      var moved := row.(command := task.command);
      PutTask(PutRow(s, task.sid, moved), t, task.(pc := Settle, local := moved))
  }

  function SettleEntry(s: State, t: nat, task: Task, ch: Choice): State
  {
    if ch.fallback && task.local.life == OpenRequested
    then Leave(PutRow(s, task.sid, RowAt(s.rows, task.sid).(life := Active)), t)
    else Leave(s, t)
  }

  function TakeTurn(s: State, t: nat, task: Task, ch: Choice): State
  {
    var row := RowAt(s.rows, task.sid);
    match task.pc
    case Print =>
      var moved := row.(life := ch.life);
      PutTask(PutRow(s, task.sid, moved), t, task.(pc := Printed(ch.assistance), local := moved))
    case Printed(assistance) => AfterPrinting(s, t, task, assistance)
    case Take => TakeReceipt(s, t, task, ch)
    case Taking(ahead) => StepReceipt(s, t, task, ahead)
    case Reread => PutTask(s, t, task.(pc := Authorize, local := row))
    case Authorize => Authorizing(s, t, task, ch)
    case Claim => ClaimCommand(s, t, task)
    case Claimed => PutTask(s, t, task.(pc := Call, local := row))
    case Call => CallOpener(s, t, task, ch)
    case Request(part) => RequestOpen(s, t, task, part)
    case Settle => SettleEntry(s, t, task, ch)
  }

  /** A fresh id is not empty; the printer moves a session to printing or presented. */
  predicate Truthful(ch: Choice) { ch.command != 0 && (ch.life == Printing || ch.life == Presented) }

  predicate Enabled(s: State, a: Action)
  {
    match a
    case Submit(t, sid, needs, _, prints) => t !in s.tasks && sid !in s.rows && (needs ==> prints)
    case Confirm(t, sid) => t !in s.tasks && sid in s.rows
    case Retry(t, sid, _) => t !in s.tasks && sid in s.rows
    case Turn(t, ch) => t in s.tasks && Truthful(ch)
    case Stop(_) => true
    case VehicleLeft(sid) => sid in s.rows && !PastReceipt(s.rows[sid].life)
    case Passage(sid) => sid in s.rows && s.rows[sid].life == OpenRequested
  }

  /** Submit is the submission that creates the session; a repeated one finds it and ends at once. */
  function Apply(s: State, a: Action): State
  {
    match a
    case Submit(t, sid, needs, autoTake, prints) =>
      var row := Row(Created, needs, false, 0);
      PutTask(PutRow(s, sid, row), t, Task(if prints then Print else Authorize, false, autoTake, sid, row, 0, 0))
    case Confirm(t, sid) => PutTask(s, t, Task(Take, false, true, sid, RowAt(s.rows, sid), 0, 0))
    case Retry(t, sid, command) => PutTask(s, t, Task(Authorize, true, true, sid, RowAt(s.rows, sid), command, 0))
    case Turn(t, ch) => if t in s.tasks then TakeTurn(s, t, s.tasks[t], ch) else s
    case Stop(t) => Leave(s, t)
    case VehicleLeft(sid) => PutRow(s, sid, RowAt(s.rows, sid).(life := Cancelled))
    case Passage(sid) => PutRow(s, sid, RowAt(s.rows, sid).(life := Active))
  }

  function After(start: State, acts: seq<Action>): State
  {
    if acts == [] then start else Apply(After(start, acts[..|acts| - 1]), acts[|acts| - 1])
  }

  predicate Possible(start: State, acts: seq<Action>)
  {
    acts == [] ||
    (Possible(start, acts[..|acts| - 1]) && Enabled(After(start, acts[..|acts| - 1]), acts[|acts| - 1]))
  }

  predicate Quiet(s: State) { s.tasks == map[] && s.log == [] }

  // ----- What every step keeps -----

  /** It has won the claim, not as a retry, and is about to call the opener. */
  predicate Owns(task: Task) { !task.retry && (task.pc.Claimed? || task.pc.Call?) }

  /** The receipt question is settled for this submission. */
  predicate Cleared(task: Task)
  {
    task.pc.Reread? || task.pc.Authorize? || task.pc.Claim? || task.pc.Claimed? || task.pc.Call?
  }

  ghost predicate TaskOk(s: State, task: Task)
  {
    && task.sid in s.rows && task.local.needs == s.rows[task.sid].needs
    && (task.local.taken ==> s.rows[task.sid].taken) && (task.local.command != 0 ==> s.rows[task.sid].command != 0)
    && (task.pc.Claim? || task.pc.Claimed? || task.pc.Call? || task.pc.Request? ==> task.command != 0)
    && (task.pc.Claimed? || task.pc.Call? ==> s.rows[task.sid].command != 0)
    && (!task.retry && Cleared(task) && s.rows[task.sid].needs ==> s.rows[task.sid].taken)
    && (Owns(task) ==> s.rows[task.sid].command != 0 && forall o | o in s.log && !o.retry :: o.sid != task.sid)
  }

  ghost predicate CallOk(s: State, k: nat)
    requires k < |s.log|
  {
    var o := s.log[k];
    && o.sid in s.rows && s.rows[o.sid].command != 0 && o.command != 0
    && (!o.retry && s.rows[o.sid].needs ==> o.taken)
    && (!o.retry ==> forall j | 0 <= j < k && !s.log[j].retry :: s.log[j].sid != o.sid)
  }

  ghost predicate Good(s: State)
  {
    && (forall t | t in s.tasks :: TaskOk(s, s.tasks[t]))
    && (forall t, u | t in s.tasks && u in s.tasks && t != u && Owns(s.tasks[t]) && Owns(s.tasks[u]) ::
          s.tasks[t].sid != s.tasks[u].sid)
    && (forall k | 0 <= k < |s.log| :: CallOk(s, k))
  }

  /** Sessions stay, what they need stays, and neither a taken receipt nor a command id is ever cleared. */
  ghost predicate Grows(before: map<nat, Row>, rows: map<nat, Row>)
  {
    forall sid | sid in before ::
      && sid in rows && rows[sid].needs == before[sid].needs
      && (before[sid].taken ==> rows[sid].taken) && (before[sid].command != 0 ==> rows[sid].command != 0)
  }

  /** Only task t moves; it owns a session only if it did before. */
  ghost predicate Plain(s: State, s2: State, t: nat)
  {
    && Grows(s.rows, s2.rows) && s2.log == s.log
    && (forall u | u in s2.tasks && u != t :: u in s.tasks && s2.tasks[u] == s.tasks[u])
    && (t in s2.tasks ==> TaskOk(s2, s2.tasks[t]))
    && (t in s2.tasks && Owns(s2.tasks[t]) ==> t in s.tasks && Owns(s.tasks[t]) && s2.tasks[t].sid == s.tasks[t].sid)
  }

  lemma GrowKeepsTask(s: State, s2: State, task: Task)
    requires TaskOk(s, task) && Grows(s.rows, s2.rows) && s2.log == s.log
    ensures TaskOk(s2, task)
  {
  }

  lemma GrowKeepsCall(s: State, s2: State, k: nat)
    requires k < |s.log| && CallOk(s, k) && Grows(s.rows, s2.rows) && s2.log == s.log
    ensures CallOk(s2, k)
  {
  }

  lemma PlainKeepsGood(s: State, s2: State, t: nat)
    requires Good(s) && Plain(s, s2, t)
    ensures Good(s2)
  {
    hide TaskOk, CallOk, Owns;
    forall u | u in s2.tasks
      ensures TaskOk(s2, s2.tasks[u])
    {
      if u != t {
        GrowKeepsTask(s, s2, s.tasks[u]);
      }
    }
    forall k | 0 <= k < |s2.log|
      ensures CallOk(s2, k)
    {
      GrowKeepsCall(s, s2, k);
    }
  }

  lemma NoEarlierCall(s: State, sid: nat)
    requires Good(s) && RowAt(s.rows, sid).command == 0
    ensures forall o | o in s.log :: o.sid != sid
    ensures forall t | t in s.tasks && Owns(s.tasks[t]) :: s.tasks[t].sid != sid
  {
    forall o | o in s.log
      ensures o.sid != sid
    {
      var k :| 0 <= k < |s.log| && s.log[k] == o;
      assert CallOk(s, k);
    }
    forall t | t in s.tasks && Owns(s.tasks[t])
      ensures s.tasks[t].sid != sid
    {
      assert TaskOk(s, s.tasks[t]);
    }
  }

  lemma WinningClaim(s: State, s2: State, t: nat, task: Task)
    requires Good(s) && t in s.tasks && s.tasks[t] == task && task.pc == Claim && TaskOk(s, task)
    requires RowAt(s.rows, task.sid).command == 0 && s2 == ClaimCommand(s, t, task)
    ensures Good(s2)
  {
    NoEarlierCall(s, task.sid);
    forall u | u in s2.tasks
      ensures TaskOk(s2, s2.tasks[u])
    {
      if u != t {
        GrowKeepsTask(s, s2, s.tasks[u]);
      }
    }
    forall k | 0 <= k < |s2.log|
      ensures CallOk(s2, k)
    {
      GrowKeepsCall(s, s2, k);
    }
  }

  lemma Calling(s: State, s2: State, t: nat, task: Task, ch: Choice)
    requires Good(s) && t in s.tasks && s.tasks[t] == task && task.pc == Call && TaskOk(s, task)
    requires s2 == CallOpener(s, t, task, ch) && ch.gate
    ensures Good(s2)
  {
    forall u | u in s2.tasks
      ensures TaskOk(s2, s2.tasks[u])
    {
      if u != t {
        assert TaskOk(s, s.tasks[u]);
      }
    }
    forall k | 0 <= k < |s2.log|
      ensures CallOk(s2, k)
    {
      if k < |s.log| {
        assert CallOk(s, k);
      } else {
        assert forall j | 0 <= j < |s.log| :: s2.log[j] in s.log;
      }
    }
  }

  /** A commit to a submission's own row that clears nothing, while it stays away from the opener. */
  lemma WriteIsPlain(s: State, t: nat, task: Task, row: Row, task2: Task)
    requires TaskOk(s, task) && task2.sid == task.sid && task2.retry == task.retry
    requires row.needs == task2.local.needs == task.local.needs
    requires (s.rows[task.sid].taken || task2.local.taken ==> row.taken)
    requires (s.rows[task.sid].command != 0 || task2.local.command != 0 ==> row.command != 0)
    requires !task2.pc.Claim? && !task2.pc.Claimed? && !task2.pc.Call? && (task2.pc.Request? ==> task2.command != 0)
    requires !task2.retry && Cleared(task2) && row.needs ==> row.taken
    ensures Plain(s, PutTask(PutRow(s, task.sid, row), t, task2), t)
  {
  }

  lemma StepIsPlain(s: State, t: nat, task: Task, task2: Task)
    requires TaskOk(s, task) && task2.sid == task.sid && task2.retry == task.retry && task2.local == task.local
    requires !task2.pc.Claim? && !task2.pc.Claimed? && !task2.pc.Call? && (task2.pc.Request? ==> task2.command != 0)
    requires !task2.retry && Cleared(task2) && task2.local.needs ==> s.rows[task.sid].taken
    ensures Plain(s, PutTask(s, t, task2), t)
  {
  }

  lemma PrintTurn(s: State, t: nat, task: Task, ch: Choice, s2: State)
    requires TaskOk(s, task) && s2 == TakeTurn(s, t, task, ch)
    requires (task.pc.Print? || task.pc.Printed? || task.pc.Reread?)
    ensures Plain(s, s2, t)
  {
    if task.pc.Printed? && !(task.local.needs && (task.pc.assistance || !task.autoTake)) {
      hide Plain;
      StepIsPlain(s, t, task, task.(pc := if task.local.needs then Take else Authorize));
    }
  }

  lemma TakingTurn(s: State, t: nat, task: Task, ahead: seq<Life>, s2: State)
    requires TaskOk(s, task) && task.pc == Taking(ahead) && s2 == StepReceipt(s, t, task, ahead)
    ensures Plain(s, s2, t)
  {
    hide Plain;
    var row := s.rows[task.sid];
    LeavingIsPlain(s, t);
    if ahead == [] {
      WriteIsPlain(s, t, task, row.(taken := true), task.(pc := Reread));
    } else {
      StepIsPlain(s, t, task, task.(pc := Taking(ahead[1..])));
      var moved := row.(life := ahead[0], taken := true);
      WriteIsPlain(s, t, task, moved, task.(pc := Taking(ahead[1..]), local := moved));
    }
  }

  lemma ReceiptTurn(s: State, t: nat, task: Task, ch: Choice, s2: State)
    requires TaskOk(s, task) && s2 == TakeTurn(s, t, task, ch)
    requires task.pc.Print? || task.pc.Printed? || task.pc.Take? || task.pc.Taking? || task.pc.Reread?
    ensures Plain(s, s2, t)
  {
    hide Plain, Ahead, StepReceipt, AfterPrinting;
    if task.pc.Taking? {
      TakingTurn(s, t, task, task.pc.ahead, s2);
    } else if task.pc.Take? {
      LeavingIsPlain(s, t);
      StepIsPlain(s, t, task, task.(pc := Taking(Ahead(task.local.life))));
      if task.local.taken {
        StepIsPlain(s, t, task, task.(pc := Reread));
      }
    } else {
      PrintTurn(s, t, task, ch, s2);
    }
  }

  lemma BarrierTurn(s: State, t: nat, task: Task, ch: Choice, s2: State)
    requires t in s.tasks && s.tasks[t] == task && TaskOk(s, task) && Truthful(ch) && s2 == TakeTurn(s, t, task, ch)
    requires task.pc.Authorize? || task.pc.Claimed? || task.pc.Settle?
    ensures Plain(s, s2, t)
  {
  }

  lemma RequestTurn(s: State, t: nat, task: Task, part: nat, s2: State)
    requires TaskOk(s, task) && task.pc.Request? && s2 == RequestOpen(s, t, task, part)
    ensures Plain(s, s2, t)
  {
    hide Plain;
    var row := s.rows[task.sid];
    LeavingIsPlain(s, t);
    if part == 0 {
      var moved := row.(life := EntryAuthorized);
      StepIsPlain(s, t, task, task.(pc := Settle));
      StepIsPlain(s, t, task, task.(pc := Request(1)));
      WriteIsPlain(s, t, task, moved, task.(pc := Request(1), local := moved));
    } else if part == 1 {
      var moved := row.(life := OpenRequested);
      WriteIsPlain(s, t, task, moved, task.(pc := Request(2), local := moved));
    } else {
      var moved := row.(command := task.command);
      WriteIsPlain(s, t, task, moved, task.(pc := Settle, local := moved));
    }
  }

  lemma LeavingIsPlain(s: State, t: nat)
    ensures Plain(s, Leave(s, t), t)
  {
  }

  lemma SkippedCall(s: State, t: nat, task: Task)
    requires t in s.tasks && s.tasks[t] == task && TaskOk(s, task) && task.pc.Call?
    ensures Plain(s, PutTask(s, t, task.(pc := Request(0))), t)
  {
  }

  lemma TurnKeepsGood(s: State, t: nat, task: Task, ch: Choice, s2: State)
    requires Good(s) && t in s.tasks && s.tasks[t] == task && Truthful(ch) && s2 == TakeTurn(s, t, task, ch)
    ensures Good(s2)
  {
    hide Plain, TaskOk, Authorizing, AfterPrinting, TakeReceipt, StepReceipt, RequestOpen, SettleEntry;
    if task.pc.Claim? {
      if RowAt(s.rows, task.sid).command == 0 {
        WinningClaim(s, s2, t, task);
      } else {
        LeavingIsPlain(s, t);
        PlainKeepsGood(s, s2, t);
      }
    } else if task.pc.Call? && ch.gate {
      Calling(s, s2, t, task, ch);
    } else {
      hide Good;
      GoodTask(s, t);
      if task.pc.Call? {
        SkippedCall(s, t, task);
      } else if task.pc.Authorize? || task.pc.Claimed? || task.pc.Settle? {
        BarrierTurn(s, t, task, ch, s2);
      } else if task.pc.Request? {
        RequestTurn(s, t, task, task.pc.part, s2);
      } else {
        ReceiptTurn(s, t, task, ch, s2);
      }
      PlainKeepsGood(s, s2, t);
    }
  }

  lemma GoodTask(s: State, t: nat)
    requires Good(s) && t in s.tasks
    ensures TaskOk(s, s.tasks[t])
  {
  }

  function Actor(a: Action): nat
  {
    match a
    case Submit(t, _, _, _, _) => t
    case Confirm(t, _) => t
    case Retry(t, _, _) => t
    case Turn(t, _) => t
    case Stop(t) => t
    case _ => 0
  }

  lemma OutsideAction(s: State, a: Action, t: nat, s2: State)
    requires Enabled(s, a) && !a.Turn? && t == Actor(a) && s2 == Apply(s, a)
    ensures Grows(s.rows, s2.rows) && s2.log == s.log
    ensures forall u | u in s2.tasks && u != t :: u in s.tasks && s2.tasks[u] == s.tasks[u]
    ensures a.Submit? || a.Confirm? || a.Retry? ==> t in s2.tasks && !Owns(s2.tasks[t]) && TaskOk(s2, s2.tasks[t])
    ensures !(a.Submit? || a.Confirm? || a.Retry?) && t in s2.tasks ==> t in s.tasks && s2.tasks[t] == s.tasks[t]
  {
  }

  lemma ActionKeepsGood(s: State, a: Action)
    requires Good(s) && Enabled(s, a)
    ensures Good(Apply(s, a))
  {
    hide Enabled, TakeTurn, TaskOk;
    var s2, t := Apply(s, a), Actor(a);
    if a.Turn? {
      TurnFromEnabled(s, a);
      TurnKeepsGood(s, t, s.tasks[t], a.choice, s2);
    } else {
      OutsideAction(s, a, t, s2);
      if t in s2.tasks && t in s.tasks && s2.tasks[t] == s.tasks[t] {
        GrowKeepsTask(s, s2, s.tasks[t]);
      }
      PlainKeepsGood(s, s2, t);
    }
  }

  lemma TurnFromEnabled(s: State, a: Action)
    requires Enabled(s, a) && a.Turn?
    ensures a.task in s.tasks && Truthful(a.choice)
  {
  }

  lemma {:induction false} GoodAlways(start: State, acts: seq<Action>)
    requires Quiet(start) && Possible(start, acts)
    ensures Good(After(start, acts))
  {
    if acts != [] {
      hide Good, Enabled, Apply;
      GoodAlways(start, acts[..|acts| - 1]);
      ActionKeepsGood(After(start, acts[..|acts| - 1]), acts[|acts| - 1]);
    }
  }

  /** In every interleaving, the non-retry paths call the opener at most once per session, and its command id is
      never emptied. */
  lemma OneOpeningPerSession(start: State, acts: seq<Action>, i: nat, j: nat)
    requires Quiet(start) && Possible(start, acts) && i <= j < |After(start, acts).log|
    ensures var s := After(start, acts);
            && (!s.log[i].retry && !s.log[j].retry && s.log[i].sid == s.log[j].sid ==> i == j)
            && s.log[j].command != 0 && s.log[j].sid in s.rows && s.rows[s.log[j].sid].command != 0
  {
    hide Possible, After;
    GoodAlways(start, acts);
    assert CallOk(After(start, acts), j);
  }

  /** A session that needs its receipt is opened before the receipt is stored as taken only by a retry. */
  lemma ReceiptBeforeOpening(start: State, acts: seq<Action>, k: nat)
    requires Quiet(start) && Possible(start, acts) && k < |After(start, acts).log|
    ensures var s := After(start, acts);
            s.log[k].sid in s.rows && (s.rows[s.log[k].sid].needs && !s.log[k].taken ==> s.log[k].retry)
  {
    hide Possible, After;
    GoodAlways(start, acts);
    assert CallOk(After(start, acts), k);
  }
}

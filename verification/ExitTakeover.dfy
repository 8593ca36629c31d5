/** A run of the exit protocol in which one event opens the barrier for two sessions: submissions that overlap before
    the opener, one of them holding a stale copy of the session. */
module ExitTakeover {
  import opened ExitGate
  import opened ExitEvents
  import opened ExitProgress

  const PAID := Choice(0, true, true, true, false, 1)

  function Parked(plate: nat): Row { Row(plate, true, Active, false, 0, 0) }

  /** The submission of this event, having found its session and about to bind it. */
  function Binding(plate: nat, event: nat, sid: nat): Task
  {
    Pricing(Parked(plate), event, sid).(pc := Bind, allow := true)
  }

  function Billed(plate: nat, event: nat, sid: nat): Task { Binding(plate, event, sid).(pc := ByExit) }

  ghost predicate Unclaimed(s: State, sid: nat, plate: nat, event: nat)
  {
    && sid in s.rows && s.rows[sid] == Parked(plate) && Newest(s.rows, plate, sid)
    && event != 0 && Unused(s.rows, event)
  }

  /** A QR submission up to the refresh after pricing. */
  lemma ReadSession(start: State, acts: seq<Action>, s: State, sid: nat, plate: nat, t: nat, event: nat)
    returns (more: seq<Action>)
    requires Possible(start, acts) && After(start, acts) == s && t !in s.tasks
    requires sid in s.rows && s.rows[sid] == Parked(plate)
    ensures Possible(start, more) && After(start, more) == With(s, sid, Parked(plate), t, Billed(plate, event, sid))
  {
    hide Possible, After, Alone;
    more := SubmittedByQr(start, acts, s, sid, t, event);
    more := ReadsPrice(start, acts, more, s, sid, Parked(plate), t, event, PAID);
  }

  /** Its queries inside start_exit and the commit of its event; the copy is the one read before, whatever the session
      is and whatever event it carries by now. */
  lemma BindOver(start: State, acts: seq<Action>, s: State, sid: nat, row: Row, t: nat, plate: nat, event: nat)
    returns (more: seq<Action>)
    requires Possible(start, acts) && After(start, acts) == With(s, sid, row, t, Billed(plate, event, sid))
    requires Newest(s.rows[sid := row], plate, sid) && event != 0 && Unused(s.rows[sid := row], event)
    ensures Possible(start, more)
    ensures After(start, more) == With(s, sid, row.(event := event), t, Binding(plate, event, sid).(pc := Reload(0)))
  {
    hide Newest, Unused, Reached, Possible, After, Carries;
    var rows, billed, binding := s.rows[sid := row], Billed(plate, event, sid), Binding(plate, event, sid);
    var held, bound := billed.(pc := Hold), row.(event := event);
    AloneAtFirst(start, acts, t, With(s, sid, row, t, billed));
    NotCarried(rows, event, 0);
    WithTwice(s, sid, row, row, t, billed, held);
    more := OneTurn(start, acts, acts, s, sid, row, t, billed, PAID, row, held);
    SomeOpen(rows, plate, sid);
    WithTwice(s, sid, row, row, t, held, binding);
    more := OneTurn(start, acts, more, s, sid, row, t, held, PAID.(row := sid), row, binding);
    WithTwice(s, sid, row, bound, t, binding, binding);
    WithTwice(s, sid, bound, bound, t, binding, binding.(pc := Reload(0)));
    NotCarried(rows, event, sid);
    more := OneTurn(start, acts, more, s, sid, row, t, binding, PAID.(row := sid), bound, binding.(pc := Reload(0)));
    ReachedIsPossible(start, acts, more, t, With(s, sid, bound, t, binding.(pc := Reload(0))));
  }

  lemma ReachedIsPossible(start: State, base: seq<Action>, acts: seq<Action>, t: nat, s: State)
    requires Reached(start, base, acts, t, s)
    ensures Possible(start, acts) && After(start, acts) == s
  {
  }

  /** One undisturbed submission that opens the barrier for a parked session. */
  lemma Exit(start: State, acts: seq<Action>, s: State, sid: nat, plate: nat, t: nat, event: nat)
    returns (more: seq<Action>)
    requires Possible(start, acts) && After(start, acts) == s && t !in s.tasks && Unclaimed(s, sid, plate, event)
    ensures Possible(start, more)
    ensures After(start, more) ==
            State(s.rows[sid := Row(plate, true, OpenRequested, false, event, 1)], s.tasks,
                  s.log + [Opening(sid, 1, event)])
  {
    hide Possible, After, Newest, Unused, Alone;
    more := UndisturbedPlateRead(start, acts, s, sid, t, event, PAID);
  }

  /** From any point of any run with two parked sessions: event f reads session a and is overtaken; event e opens a;
      f goes on from its stale copy and puts its own id on the session; then e opens b as well. No two tasks hold the
      row lock at once. */
  lemma OverlapLetsOneEventOpenTwo(start: State, acts: seq<Action>, s: State, a: nat, b: nat, plateA: nat,
                                   plateB: nat, t: nat, u: nat, e: nat, f: nat)
    returns (more: seq<Action>)
    requires Possible(start, acts) && After(start, acts) == s && t !in s.tasks && u !in s.tasks && t != u
    requires Unclaimed(s, a, plateA, e) && Unclaimed(s, b, plateB, e) && plateA != plateB
    requires e != f && f != 0 && Unused(s.rows, f)
    ensures Possible(start, more)
    ensures After(start, more).log == s.log + [Opening(a, 1, e)] + [Opening(b, 1, e)]
  {
    hide Possible, After, Newest;
    more := ReadSession(start, acts, s, a, plateA, u, f);
    var s1 := With(s, a, Parked(plateA), u, Billed(plateA, f, a));
    assert s1.rows == s.rows;
    more := Exit(start, more, s1, a, plateA, t, e);
    var opened1 := Row(plateA, true, OpenRequested, false, e, 1);
    var s2 := State(s.rows, s.tasks, s.log + [Opening(a, 1, e)]);
    assert With(s2, a, opened1, u, Billed(plateA, f, a)) == After(start, more);
    StillNewest(s.rows, plateA, a, a, opened1);
    more := BindOver(start, more, s2, a, opened1, u, plateA, f);
    var taken := opened1.(event := f);
    var s3 := With(s2, a, taken, u, Binding(plateA, f, a).(pc := Reload(0)));
    StillNewest(s.rows, plateB, b, a, taken);
    more := Exit(start, more, s3, b, plateB, t, e);
  }

  lemma StillNewest(rows: map<nat, Row>, plate: nat, sid: nat, other: nat, row: Row)
    requires Newest(rows, plate, sid) && other in rows && row.plate == rows[other].plate && row.open
    requires other == sid || row.plate != plate
    ensures Newest(rows[other := row], plate, sid)
  {
  }
}

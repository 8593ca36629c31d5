/** The worker supervisor: the running, retiring and configurations dictionaries of _loop in
    app/recognition_worker.py. */
module Supervisor {
  import CameraSets

  /** A camera row as the database describes it; only its identity matters here. */
  type Config = nat

  /** started: the camera of every inference task ever created. finished: those that are done. */
  datatype View = View(tasks: map<int, nat>, retiring: map<int, nat>, configurations: map<int, Config>,
                       started: map<nat, int>, finished: set<nat>, nextId: nat)

  // ----- One cycle, in three steps -----

  function Dropped(v: View): View
  {
    v.(retiring := map c | c in v.retiring && v.retiring[c] !in v.finished :: v.retiring[c])
  }

  /** Not wanted any more, wanted differently, finished by itself, or stalled. */
  predicate MustStop(v: View, wanted: map<int, Config>, stalled: set<int>, c: int)
    requires c in v.tasks
  {
    c !in wanted || c !in v.configurations || v.configurations[c] != wanted[c] || v.tasks[c] in v.finished ||
              c in stalled
  }

  /** These cameras' tasks are told to stop and put aside. */
  function Retired(v: View, gone: set<int>): (w: View)
    ensures w.finished == v.finished && w.started == v.started && w.nextId == v.nextId
  {
    v.(tasks := v.tasks - gone, configurations := v.configurations - gone,
       retiring := v.retiring + map c | c in v.tasks && c in gone :: v.tasks[c])
  }

  /** The cameras to stop among those outside rest. */
  function ToStop(v: View, wanted: map<int, Config>, stalled: set<int>, rest: set<int>): set<int>
  {
    set c | c in v.tasks && c !in rest && MustStop(v, wanted, stalled, c)
  }

  function Stopped(v: View, wanted: map<int, Config>, stalled: set<int>): View
  {
    Retired(v, ToStop(v, wanted, stalled, {}))
  }

  lemma NoneLookedAt(v: View, wanted: map<int, Config>, stalled: set<int>, rest: set<int>)
    requires rest == v.tasks.Keys
    ensures Retired(v, ToStop(v, wanted, stalled, rest)) == v
  {
    hide MustStop;
    assert ToStop(v, wanted, stalled, rest) == {};
    RetireNone(v);
  }

  lemma LookAtOne(v: View, wanted: map<int, Config>, stalled: set<int>, rest: set<int>, c: int, u: View)
    requires c in rest && c in v.tasks && c in v.configurations && u == Retired(v, ToStop(v, wanted, stalled, rest))
    ensures c in u.tasks && u.tasks[c] == v.tasks[c] && c in u.configurations
    ensures u.configurations[c] == v.configurations[c]
    ensures Retired(v, ToStop(v, wanted, stalled, rest - {c})) ==
            if MustStop(v, wanted, stalled, c)
            then u.(tasks := u.tasks - {c}, configurations := u.configurations - {c},
                    retiring := u.retiring[c := v.tasks[c]])
            else u
  {
    hide MustStop, Retired;
    var gone := ToStop(v, wanted, stalled, rest);
    RetireOne(v, gone, c, u);
    if MustStop(v, wanted, stalled, c) {
      assert ToStop(v, wanted, stalled, rest - {c}) == gone + {c};
    } else {
      assert ToStop(v, wanted, stalled, rest - {c}) == gone;
    }
  }

  lemma RetireNone(v: View)
    ensures Retired(v, {}) == v
  {
    assert v.tasks - {} == v.tasks && v.configurations - {} == v.configurations;
    assert Retired(v, {}).retiring == v.retiring;
  }

  lemma RetireOne(v: View, gone: set<int>, c: int, u: View)
    requires u == Retired(v, gone) && c !in gone && c in v.tasks
    ensures c in u.tasks && u.tasks[c] == v.tasks[c] && (c in v.configurations ==> c in u.configurations)
    ensures c in v.configurations ==> u.configurations[c] == v.configurations[c]
    ensures Retired(v, gone + {c}) ==
            u.(tasks := u.tasks - {c}, configurations := u.configurations - {c},
               retiring := u.retiring[c := v.tasks[c]])
  {
    var w := Retired(v, gone + {c});
    assert w.tasks == u.tasks - {c};
    assert w.configurations == u.configurations - {c};
    assert w.retiring == u.retiring[c := v.tasks[c]];
  }

  predicate Starts(v: View, wanted: map<int, Config>, c: int) { c in wanted && c !in v.tasks && c !in v.retiring }

  /** Exactly the cameras that start are added, with their wanted settings. */
  ghost predicate LaunchedCameras(v: View, wanted: map<int, Config>, w: View)
  {
    && w.retiring == v.retiring && w.finished == v.finished
    && (forall c :: c in w.tasks <==> c in v.tasks || Starts(v, wanted, c))
    && (forall c :: c in w.configurations <==> c in v.configurations || Starts(v, wanted, c))
    && (forall c | c in v.tasks :: w.tasks[c] == v.tasks[c])
    && (forall c | c in w.configurations ::
          w.configurations[c] == if Starts(v, wanted, c) then wanted[c] else v.configurations[c])
  }

  /** Each of them has one new task. */
  ghost predicate LaunchedTasks(v: View, wanted: map<int, Config>, w: View)
  {
    && w.nextId >= v.nextId
    && (forall id | id in v.started :: id in w.started && w.started[id] == v.started[id])
    && (forall c | Starts(v, wanted, c) ::
          c in w.tasks && v.nextId <= w.tasks[c] < w.nextId && w.tasks[c] in w.started && w.started[w.tasks[c]] == c)
    && (forall id | id in w.started && id !in v.started ::
          && v.nextId <= id < w.nextId && Starts(v, wanted, w.started[id])
          && w.started[id] in w.tasks && w.tasks[w.started[id]] == id)
  }

  /** Cameras are started in any order; ids are handed out one after the other. */
  ghost predicate Launched(v: View, wanted: map<int, Config>, w: View)
  {
    LaunchedCameras(v, wanted, w) && LaunchedTasks(v, wanted, w)
  }

  /** A whole cycle; tasks may finish while it waits for the retired ones. */
  ghost predicate Cycled(v: View, wanted: map<int, Config>, stalled: set<int>, meanwhile: set<nat>, w: View)
  {
    var d := Dropped(v);
    Launched(Stopped(d.(finished := d.finished + meanwhile), wanted, stalled), wanted, w)
  }

  /** The wanted rows without those still to be looked at. */
  ghost function RowsLaunched(wanted: map<int, Config>, rest: set<int>): map<int, Config>
  {
    map c | c in wanted && c !in rest :: wanted[c]
  }

  lemma LaunchNone(v: View, wanted: map<int, Config>)
    ensures Launched(v, RowsLaunched(wanted, wanted.Keys), v)
  {
    assert RowsLaunched(wanted, wanted.Keys) == map[];
  }

  lemma LaunchAll(wanted: map<int, Config>)
    ensures RowsLaunched(wanted, {}) == wanted
  {
  }

  lemma LaunchNext(v: View, wanted: map<int, Config>, rest: set<int>, c: int, u: View, w: View)
    requires c in rest && c in wanted && Launched(v, RowsLaunched(wanted, rest), u)
    requires forall id | id in v.started :: id < v.nextId
    requires w == if c !in u.tasks && c !in u.retiring
                  then u.(tasks := u.tasks[c := u.nextId], configurations := u.configurations[c := wanted[c]],
                          started := u.started[u.nextId := c], nextId := u.nextId + 1)
                  else u
    ensures Launched(v, RowsLaunched(wanted, rest - {c}), w)
  {
    hide Launched;
    LaunchOne(v, RowsLaunched(wanted, rest), u, c, wanted[c], w);
    assert RowsLaunched(wanted, rest)[c := wanted[c]] == RowsLaunched(wanted, rest - {c});
  }

  lemma LaunchOne(v: View, done: map<int, Config>, u: View, c: int, row: Config, w: View)
    requires Launched(v, done, u) && c !in done && forall id | id in v.started :: id < v.nextId
    requires w == if c !in u.tasks && c !in u.retiring
                  then u.(tasks := u.tasks[c := u.nextId], configurations := u.configurations[c := row],
                          started := u.started[u.nextId := c], nextId := u.nextId + 1)
                  else u
    ensures Launched(v, done[c := row], w)
  {
    var more := done[c := row];
    var unheld := c !in v.tasks && c !in v.retiring;
    assert forall k :: Starts(v, more, k) <==> Starts(v, done, k) || (k == c && unheld);
    assert !Starts(v, done, c);
    if unheld {
      hide LaunchedTasks;
      LaunchFresh(v, done, more, u, c, row, w);
    } else {
      LaunchSame(v, done, more, w);
    }
  }

  lemma LaunchSame(v: View, done: map<int, Config>, more: map<int, Config>, w: View)
    requires Launched(v, done, w) && (forall k :: Starts(v, more, k) <==> Starts(v, done, k))
    requires forall k | k in done :: k in more && more[k] == done[k]
    ensures Launched(v, more, w)
  {
  }

  lemma LaunchFresh(v: View, done: map<int, Config>, more: map<int, Config>, u: View, c: int, row: Config, w: View)
    requires LaunchedCameras(v, done, u) && LaunchedTasks(v, done, u)
    requires c !in u.tasks && !Starts(v, done, c) && more == done[c := row]
    requires forall id | id in v.started :: id < v.nextId
    requires forall k :: Starts(v, more, k) <==> Starts(v, done, k) || k == c
    requires w == u.(tasks := u.tasks[c := u.nextId], configurations := u.configurations[c := row],
                     started := u.started[u.nextId := c], nextId := u.nextId + 1)
    ensures Launched(v, more, w)
  {
    FreshCamera(v, done, more, u, c, row, w);
    FreshTask(v, done, more, u, c, row, w);
  }

  lemma FreshCamera(v: View, done: map<int, Config>, more: map<int, Config>, u: View, c: int, row: Config, w: View)
    requires LaunchedCameras(v, done, u) && LaunchedTasks(v, done, u)
    requires c !in u.tasks && !Starts(v, done, c) && more == done[c := row]
    requires forall id | id in v.started :: id < v.nextId
    requires forall k :: Starts(v, more, k) <==> Starts(v, done, k) || k == c
    requires w == u.(tasks := u.tasks[c := u.nextId], configurations := u.configurations[c := row],
                     started := u.started[u.nextId := c], nextId := u.nextId + 1)
    ensures LaunchedCameras(v, more, w)
  {
    hide LaunchedTasks;
  }

  lemma FreshTask(v: View, done: map<int, Config>, more: map<int, Config>, u: View, c: int, row: Config, w: View)
    requires LaunchedCameras(v, done, u) && LaunchedTasks(v, done, u)
    requires c !in u.tasks && !Starts(v, done, c) && more == done[c := row]
    requires forall id | id in v.started :: id < v.nextId
    requires forall k :: Starts(v, more, k) <==> Starts(v, done, k) || k == c
    requires w == u.(tasks := u.tasks[c := u.nextId], configurations := u.configurations[c := row],
                     started := u.started[u.nextId := c], nextId := u.nextId + 1)
    ensures LaunchedTasks(v, more, w)
  {
    hide Starts;
    forall id | id in w.started && id !in v.started
      ensures v.nextId <= id < w.nextId && Starts(v, more, w.started[id])
      ensures w.started[id] in w.tasks && w.tasks[w.started[id]] == id
    {
      if id != u.nextId {
        assert u.started[id] != c;
      }
    }
  }

  // ----- The program -----

  class RecognitionSupervisor {
    var tasks: map<int, nat>
    var retiring: map<int, nat>
    var configurations: map<int, Config>
    var finished: set<nat>
    var nextId: nat
    ghost var started: map<nat, int>

    ghost function Seen(): View
      reads this
    {
      View(tasks, retiring, configurations, started, finished, nextId)
    }

    constructor ()
      ensures Seen() == View(map[], map[], map[], map[], {}, 0)
    {
      tasks, retiring, configurations, finished, nextId, started := map[], map[], map[], {}, 0, map[];
    }

    /** An inference task comes to its end. */
    method Finish(done: set<nat>)
      modifies this
      ensures Seen() == old(Seen()).(finished := old(finished) + done)
    {
      finished := finished + done;
    }

    method DropFinished()
      modifies this
      ensures Seen() == Dropped(old(Seen()))
    {
      var rest := retiring.Keys;
      while rest != {}
        invariant rest <= old(retiring).Keys
        invariant Seen() == old(Seen()).(retiring := retiring)
        invariant retiring == map c | c in old(retiring) && (c in rest ||
                  old(retiring)[c] !in finished) :: old(retiring)[c]
        decreases |rest|
      {
        CameraSets.NonEmpty(rest);
        var c :| c in rest;
        if retiring[c] in finished {
          retiring := retiring - {c};
        }
        rest := rest - {c};
      }
    }

    method StopCameras(wanted: map<int, Config>, stalled: set<int>)
      requires tasks.Keys == configurations.Keys
      modifies this
      ensures Seen() == Stopped(old(Seen()), wanted, stalled)
    {
      hide Retired, ToStop;
      var rest := tasks.Keys;
      ghost var v := Seen();
      NoneLookedAt(v, wanted, stalled, rest);
      while rest != {}
        invariant rest <= v.tasks.Keys && Seen() == Retired(v, ToStop(v, wanted, stalled, rest))
        decreases |rest|
      {
        CameraSets.NonEmpty(rest);
        var c :| c in rest;
        LookAtOne(v, wanted, stalled, rest, c, Seen());
        if c !in wanted || configurations[c] != wanted[c] || tasks[c] in finished || c in stalled {
          var task := tasks[c];
          tasks := tasks - {c};
          configurations := configurations - {c};
          retiring := retiring[c := task];
        }
        rest := rest - {c};
      }
    }

    method StartCameras(wanted: map<int, Config>)
      requires tasks.Keys == configurations.Keys && forall id | id in started :: id < nextId
      modifies this
      ensures Launched(old(Seen()), wanted, Seen())
    {
      hide Launched, RowsLaunched;
      var rest := wanted.Keys;
      ghost var v := Seen();
      LaunchNone(v, wanted);
      while rest != {}
        invariant rest <= wanted.Keys && Launched(v, RowsLaunched(wanted, rest), Seen())
        decreases |rest|
      {
        CameraSets.NonEmpty(rest);
        var c :| c in rest;
        ghost var u := Seen();
        if c !in tasks && c !in retiring {
          configurations := configurations[c := wanted[c]];
          tasks := tasks[c := nextId];
          started := started[nextId := c];
          nextId := nextId + 1;
        }
        LaunchNext(v, wanted, rest, c, u, Seen());
        rest := rest - {c};
      }
      LaunchAll(wanted);
    }

    method Cycle(wanted: map<int, Config>, stalled: set<int>, meanwhile: set<nat>)
      requires tasks.Keys == configurations.Keys && forall id | id in started :: id < nextId
      modifies this
      ensures Cycled(old(Seen()), wanted, stalled, meanwhile, Seen())
    {
      DropFinished();
      Finish(meanwhile);
      StopCameras(wanted, stalled);
      StartCameras(wanted);
    }
  }

  // ----- What every cycle keeps -----

  ghost predicate Consistent(v: View)
  {
    && v.tasks.Keys == v.configurations.Keys && v.tasks.Keys !! v.retiring.Keys
    && (forall id | id in v.started :: id < v.nextId)
    && (forall c | c in v.tasks :: v.tasks[c] in v.started && v.started[v.tasks[c]] == c)
    && (forall c | c in v.retiring :: v.retiring[c] in v.started && v.started[v.retiring[c]] == c)
    && (forall id | id in v.started && id !in v.finished :: Held(v, id, v.started[id]))
  }

  ghost predicate Held(v: View, id: nat, c: int)
  {
    (c in v.tasks && v.tasks[c] == id) || (c in v.retiring && v.retiring[c] == id)
  }

  lemma DropKeepsConsistent(v: View)
    requires Consistent(v)
    ensures Consistent(Dropped(v))
  {
    var w := Dropped(v);
    forall id | id in w.started && id !in w.finished
      ensures Held(w, id, w.started[id])
    {
      assert Held(v, id, v.started[id]);
    }
  }

  lemma FinishKeepsConsistent(v: View, done: set<nat>)
    requires Consistent(v)
    ensures Consistent(v.(finished := v.finished + done))
  {
    var w := v.(finished := v.finished + done);
    forall id | id in w.started && id !in w.finished
      ensures Held(w, id, w.started[id])
    {
      assert Held(v, id, v.started[id]);
    }
  }

  /** A retired task takes a free place: nothing unfinished is overwritten. */
  lemma StopKeepsConsistent(v: View, wanted: map<int, Config>, stalled: set<int>)
    requires Consistent(v)
    ensures Consistent(Stopped(v, wanted, stalled))
    ensures forall c | c in v.retiring :: Stopped(v, wanted, stalled).retiring[c] == v.retiring[c]
  {
    var w := Stopped(v, wanted, stalled);
    assert w.tasks.Keys == w.configurations.Keys;
    forall id | id in w.started && id !in w.finished
      ensures Held(w, id, w.started[id])
    {
      assert Held(v, id, v.started[id]);
    }
  }

  lemma LaunchKeepsConsistent(v: View, wanted: map<int, Config>, w: View)
    requires Consistent(v) && Launched(v, wanted, w)
    ensures Consistent(w)
  {
    assert w.tasks.Keys == w.configurations.Keys by {
      assert forall c :: c in w.tasks <==> c in w.configurations;
    }
    forall id | id in w.started && id !in w.finished
      ensures Held(w, id, w.started[id])
    {
      if id in v.started {
        assert Held(v, id, v.started[id]);
      }
    }
    forall c | c in w.tasks
      ensures w.tasks[c] in w.started && w.started[w.tasks[c]] == c
    {
      if c !in v.tasks {
        assert Starts(v, wanted, c);
      }
    }
  }

  lemma CycleKeepsConsistent(v: View, wanted: map<int, Config>, stalled: set<int>, meanwhile: set<nat>, w: View)
    requires Consistent(v) && Cycled(v, wanted, stalled, meanwhile, w)
    ensures Consistent(w)
  {
    hide Consistent, Dropped, Stopped, Launched;
    DropKeepsConsistent(v);
    FinishKeepsConsistent(Dropped(v), meanwhile);
    var d := Dropped(v);
    StopKeepsConsistent(d.(finished := d.finished + meanwhile), wanted, stalled);
    LaunchKeepsConsistent(Stopped(d.(finished := d.finished + meanwhile), wanted, stalled), wanted, w);
  }

  // ----- Runs -----

  datatype Event =
    | Cycle(wanted: map<int, Config>, stalled: set<int>, meanwhile: set<nat>)
    | Finishing(done: set<nat>)

  ghost predicate Next(v: View, e: Event, w: View)
  {
    match e
    case Cycle(wanted, stalled, meanwhile) => Cycled(v, wanted, stalled, meanwhile, w)
    case Finishing(done) => w == v.(finished := v.finished + done)
  }

  ghost predicate IsRun(start: View, events: seq<Event>, views: seq<View>)
  {
    && |views| == |events| + 1 && views[0] == start
    && forall i | 0 <= i < |events| :: Next(views[i], events[i], views[i + 1])
  }

  lemma {:induction false} AlwaysConsistent(events: seq<Event>, views: seq<View>, n: nat)
    requires IsRun(View(map[], map[], map[], map[], {}, 0), events, views) && n < |views|
    ensures Consistent(views[n])
  {
    hide Consistent, Cycled;
    if n == 0 {
      EmptyConsistent();
    } else {
      AlwaysConsistent(events, views, n - 1);
      assert Next(views[n - 1], events[n - 1], views[n]);
      match events[n - 1]
      case Cycle(wanted, stalled, meanwhile) =>
        CycleKeepsConsistent(views[n - 1], wanted, stalled, meanwhile, views[n]);
      case Finishing(done) => FinishKeepsConsistent(views[n - 1], done);
    }
  }

  lemma EmptyConsistent()
    ensures Consistent(View(map[], map[], map[], map[], {}, 0))
  {
  }

  /** Over every run no camera has two unfinished inference tasks, however settings change and lanes stall; the
      dictionaries of tasks and configurations have the same cameras, none of which is retiring. */
  lemma OneUnfinishedTaskPerCamera(events: seq<Event>, views: seq<View>, n: nat, a: nat, b: nat)
    requires IsRun(View(map[], map[], map[], map[], {}, 0), events, views) && n < |views|
    requires a in views[n].started && b in views[n].started && views[n].started[a] == views[n].started[b]
    requires a !in views[n].finished && b !in views[n].finished
    ensures a == b
    ensures views[n].tasks.Keys == views[n].configurations.Keys && views[n].tasks.Keys !! views[n].retiring.Keys
  {
    hide IsRun;
    AlwaysConsistent(events, views, n);
    assert Held(views[n], a, views[n].started[a]) && Held(views[n], b, views[n].started[b]);
  }

  /** After a cycle exactly the wanted cameras that are not still retiring run, each with its wanted settings. */
  lemma CycleMeetsTheWish(v: View, wanted: map<int, Config>, stalled: set<int>, meanwhile: set<nat>, w: View)
    requires Consistent(v) && Cycled(v, wanted, stalled, meanwhile, w)
    ensures forall c :: c in w.tasks <==> c in wanted && c !in w.retiring
    ensures forall c | c in w.tasks :: c in w.configurations && w.configurations[c] == wanted[c]
  {
    DropKeepsConsistent(v);
    FinishKeepsConsistent(Dropped(v), meanwhile);
    CycleKeepsConsistent(v, wanted, stalled, meanwhile, w);
  }

  /** The task keeps running: its camera is wanted as it is, and it was neither finished nor stalled when looked at. */
  ghost predicate KeepsRunning(v: View, wanted: map<int, Config>, stalled: set<int>, finished: set<nat>, c: int)
  {
    && c in v.tasks && c in wanted && c in v.configurations && v.configurations[c] == wanted[c]
    && v.tasks[c] !in finished && c !in stalled
  }

  /** Exactly what a cycle does to each camera: its task goes on, or is retired; a retired task is let go of once it
      has finished; and a wanted camera without either gets a new task. */
  lemma CycleDecides(v: View, wanted: map<int, Config>, stalled: set<int>, meanwhile: set<nat>, w: View, c: int)
    requires Consistent(v) && Cycled(v, wanted, stalled, meanwhile, w)
    ensures var keeps := KeepsRunning(v, wanted, stalled, v.finished + meanwhile, c);
            var waits := c in v.retiring && v.retiring[c] !in v.finished;
            && (c in v.tasks && c in w.tasks ==> (w.tasks[c] == v.tasks[c] <==> keeps))
            && (keeps ==> c in w.tasks && c !in w.retiring)
            && (c in w.retiring <==> waits || (c in v.tasks && !keeps))
            && (waits ==> w.retiring[c] == v.retiring[c])
            && (c in v.tasks && !keeps ==> w.retiring[c] == v.tasks[c])
            && (c in w.tasks && !keeps ==> c in wanted && w.tasks[c] in w.started && w.tasks[c] !in v.started)
            && (c in wanted && c !in v.tasks && !waits ==> c in w.tasks)
  {
    hide Consistent, Launched;
    var d := Dropped(v);
    var f := d.(finished := d.finished + meanwhile);
    ConsistentTask(v, c);
    LaunchedCamera(Stopped(f, wanted, stalled), wanted, w, c);
  }

  lemma ConsistentTask(v: View, c: int)
    requires Consistent(v)
    ensures c in v.tasks ==> c in v.configurations && c !in v.retiring && v.tasks[c] in v.started
    ensures forall id | id in v.started :: id < v.nextId
  {
  }

  lemma LaunchedCamera(v: View, wanted: map<int, Config>, w: View, c: int)
    requires Launched(v, wanted, w) && forall id | id in v.started :: id < v.nextId
    ensures w.retiring == v.retiring && (c in w.tasks <==> c in v.tasks || Starts(v, wanted, c))
    ensures c in v.tasks ==> w.tasks[c] == v.tasks[c]
    ensures Starts(v, wanted, c) ==> c in w.tasks && w.tasks[c] in w.started && w.tasks[c] !in v.started
  {
  }
}

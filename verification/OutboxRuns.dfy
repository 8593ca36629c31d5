/** What the outbox keeps over every run: any mix of publications, deliveries that may fail or crash, waiting, and
    captures made elsewhere, with one consumer. */
module OutboxRuns {
  import opened Outbox

  datatype Action =
    | Publish(item: Item, identity: nat)
    | Handle(item: Item, o: Outside)
    | Wait(seconds: real)
    | OtherCapture(c: Capture)

  predicate Enabled(s: State, a: Action)
  {
    match a
    case Publish(_, _) => true
    case Handle(item, _) => item in s.events
    case Wait(seconds) => seconds >= 0.0
    case OtherCapture(c) => !c.mine
  }

  function Apply(s: State, a: Action): State
  {
    match a
    case Publish(item, identity) => Enqueue(s, item, identity)
    case Handle(item, o) => Deliver(s, item, o)
    case Wait(seconds) => s.(now := s.now + seconds)
    case OtherCapture(c) => s.(captures := s.captures + [c])
  }

  function After(start: State, acts: seq<Action>): State
  {
    if acts == [] then start else Apply(After(start, acts[..|acts| - 1]), acts[|acts| - 1])
  }

  predicate Possible(start: State, acts: seq<Action>)
  {
    acts == [] ||
    (Possible(start, acts[..|acts| - 1]) && Enabled(After(start, acts[..|acts| - 1]), acts[|acts| - 1]))
  }

  /** An empty outbox; the captures already there were made by others. */
  ghost predicate Fresh(s: State)
  {
    s.events == [] && s.history == [] && s.processed == map[] && forall c | c in s.captures :: !c.mine
  }

  // ----- Conservation of rows -----

  function Count(history: seq<Note>, n: Note): nat
  {
    if history == [] then 0 else Count(history[..|history| - 1], n) + if history[|history| - 1] == n then 1 else 0
  }

  function Waiting(events: seq<Item>, id: nat): nat
  {
    if events == [] then 0 else (if events[0].id == id then 1 else 0) + Waiting(events[1..], id)
  }

  lemma CountNext(history: seq<Note>, last: Note, n: Note)
    ensures Count(history + [last], n) == Count(history, n) + if last == n then 1 else 0
  {
    assert (history + [last])[..|history|] == history;
  }

  lemma {:induction false} WaitingWithout(events: seq<Item>, id: nat, other: nat)
    ensures Waiting(Without(events, id), other) == if other == id then 0 else Waiting(events, other)
  {
    if events != [] {
      WaitingWithout(events[1..], id, other);
      assert ([events[0]] + Without(events[1..], id))[1..] == Without(events[1..], id);
    }
  }

  lemma {:induction false} WaitingAppended(events: seq<Item>, item: Item, id: nat)
    ensures Waiting(events + [item], id) == Waiting(events, id) + if item.id == id then 1 else 0
  {
    if events != [] {
      WaitingAppended(events[1..], item, id);
      assert (events + [item])[1..] == events[1..] + [item];
    } else {
      assert events + [item] == [item];
    }
  }

  lemma {:induction false} WaitingMember(events: seq<Item>, item: Item)
    requires item in events
    ensures Waiting(events, item.id) >= 1
  {
    if events[0] != item {
      WaitingMember(events[1..], item);
    }
  }

  /** A row was enqueued once, and either waits or was acknowledged once. */
  ghost predicate RowKept(s: State, id: nat)
  {
    && Count(s.history, Enqueued(id)) == Waiting(s.events, id) + Count(s.history, Acked(id)) <= 1
    && (id >= s.nextId ==> Count(s.history, Enqueued(id)) == 0)
  }

  ghost predicate RowsKept(s: State) { forall id: nat :: RowKept(s, id) }

  lemma AckKeepsRows(s: State, id: nat, key: nat)
    requires RowsKept(s) && Waiting(s.events, id) >= 1
    ensures RowsKept(Ack(s, id, key))
  {
    var t := Ack(s, id, key);
    forall other: nat
      ensures RowKept(t, other)
    {
      assert RowKept(s, other);
      WaitingWithout(s.events, id, other);
      CountNext(s.history, Acked(id), Enqueued(other));
      CountNext(s.history, Acked(id), Acked(other));
      CountNext(s.history + [Acked(id)], Marked(key, s.now), Enqueued(other));
      CountNext(s.history + [Acked(id)], Marked(key, s.now), Acked(other));
    }
  }

  lemma EnqueueKeepsRows(s: State, item: Item, identity: nat)
    requires RowsKept(s)
    ensures RowsKept(Enqueue(s, item, identity))
  {
    var t := Enqueue(s, item, identity);
    if t != s {
      forall other: nat
        ensures RowKept(t, other)
      {
        assert RowKept(s, other);
        WaitingAppended(s.events, item.(id := s.nextId), other);
        CountNext(s.history, Enqueued(s.nextId), Enqueued(other));
        CountNext(s.history, Enqueued(s.nextId), Acked(other));
      }
    }
  }

  lemma PersistKeepsRows(s: State, item: Item, allowed: bool)
    requires RowsKept(s)
    ensures RowsKept(Persist(s, item, allowed))
  {
    forall other: nat
      ensures RowKept(Persist(s, item, allowed), other)
    {
      assert RowKept(s, other);
      CountNext(s.history, Tried(item.key, s.now), Enqueued(other));
      CountNext(s.history, Tried(item.key, s.now), Acked(other));
    }
  }

  // ----- Processed marks -----

  /** A mark is still there, renewed perhaps, or older than the retention. */
  ghost predicate MarkOk(s: State, i: nat)
    requires i < |s.history|
  {
    s.history[i].Marked? ==>
      var k, at := s.history[i].key, s.history[i].at;
      && k != 0 && at <= s.now
      && (if k in s.processed then s.processed[k] >= at else s.now - at > RETENTION)
  }

  /** Persistence was reached only for a key without a mark young enough to be there. */
  ghost predicate TriedOk(history: seq<Note>, j: nat)
    requires j < |history|
  {
    history[j].Tried? ==>
      forall i | 0 <= i < j && history[i].Marked? && history[i].key == history[j].key ::
        history[j].at - history[i].at > RETENTION
  }

  ghost predicate MarksKept(s: State)
  {
    (forall i | 0 <= i < |s.history| :: MarkOk(s, i)) && (forall j | 0 <= j < |s.history| :: TriedOk(s.history, j))
  }

  lemma TriedStays(history: seq<Note>, more: seq<Note>, j: nat)
    requires j < |history| && TriedOk(history, j)
    ensures TriedOk(history + more, j)
  {
    assert forall i | 0 <= i <= j :: (history + more)[i] == history[i];
  }

  lemma AckKeepsMarks(s: State, id: nat, key: nat)
    requires MarksKept(s)
    ensures MarksKept(Ack(s, id, key))
  {
    var t := Ack(s, id, key);
    var more := if key == 0 then [Acked(id)] else [Acked(id), Marked(key, s.now)];
    assert t.history == s.history + more;
    forall i | 0 <= i < |t.history|
      ensures MarkOk(t, i) && TriedOk(t.history, i)
    {
      if i < |s.history| {
        assert MarkOk(s, i);
        TriedStays(s.history, more, i);
      }
    }
  }

  lemma PersistKeepsMarks(s: State, item: Item, allowed: bool)
    requires MarksKept(s) && !KnownProcessed(s, item.key)
    ensures MarksKept(Persist(s, item, allowed))
  {
    var t := Persist(s, item, allowed);
    var more := [Tried(item.key, s.now)];
    assert t.history == s.history + more;
    forall i | 0 <= i < |t.history|
      ensures MarkOk(t, i) && TriedOk(t.history, i)
    {
      if i < |s.history| {
        assert MarkOk(s, i);
        TriedStays(s.history, more, i);
      } else {
        assert forall m | 0 <= m < |s.history| :: MarkOk(s, m) && t.history[m] == s.history[m];
      }
    }
  }

  lemma EnqueueKeepsMarks(s: State, item: Item, identity: nat)
    requires MarksKept(s)
    ensures MarksKept(Enqueue(s, item, identity))
  {
    var t := Enqueue(s, item, identity);
    if t != s {
      forall i | 0 <= i < |t.history|
        ensures MarkOk(t, i) && TriedOk(t.history, i)
      {
        if i < |s.history| {
          assert MarkOk(s, i);
          TriedStays(s.history, [Enqueued(s.nextId)], i);
        }
      }
    }
  }

  // ----- Captures -----

  ghost predicate OneEach(captures: seq<Capture>)
  {
    forall i, j | 0 <= i < j < |captures| && captures[i].mine && captures[j].mine && captures[i].event != 0 ::
      captures[i].event != captures[j].event
  }

  lemma PersistKeepsOneEach(s: State, item: Item, allowed: bool)
    requires OneEach(s.captures) && (item.key == 0 || !Captured(s, item.key))
    ensures OneEach(Persist(s, item, allowed).captures)
  {
    assert forall i | 0 <= i < |s.captures| :: s.captures[i] in s.captures;
  }

  // ----- All of it, over every run -----

  ghost predicate Sound(s: State) { RowsKept(s) && MarksKept(s) && OneEach(s.captures) }

  lemma AckKeepsSound(s: State, fault: Fault, id: nat, key: nat)
    requires Sound(s) && Waiting(s.events, id) >= 1
    ensures Sound(AckUnless(s, fault, id, key))
  {
    hide RowsKept, MarksKept, OneEach;
    AckKeepsRows(s, id, key);
    AckKeepsMarks(s, id, key);
  }

  lemma DeliverKeepsSound(s: State, item: Item, o: Outside)
    requires Sound(s) && item in s.events
    ensures Sound(Deliver(s, item, o))
  {
    hide Sound, AckUnless, Persist, Waiting, Captured, KnownProcessed;
    WaitingMember(s.events, item);
    AckKeepsSound(s, o.fault, item.id, 0);
    AckKeepsSound(s, o.fault, item.id, item.key);
    if Recognized(item) && !KnownProcessed(s, item.key) && (item.key == 0 || !Captured(s, item.key)) {
      PersistKeepsSound(s, item, o.allowed);
      AckKeepsSound(Persist(s, item, o.allowed), o.fault, item.id, item.key);
    }
  }

  lemma PersistKeepsSound(s: State, item: Item, allowed: bool)
    requires Sound(s) && !KnownProcessed(s, item.key) && (item.key == 0 || !Captured(s, item.key))
    ensures Sound(Persist(s, item, allowed)) && Persist(s, item, allowed).events == s.events
  {
    hide RowsKept, MarksKept, OneEach, KnownProcessed, Captured;
    PersistKeepsRows(s, item, allowed);
    PersistKeepsMarks(s, item, allowed);
    PersistKeepsOneEach(s, item, allowed);
  }

  lemma OtherKeepsSound(s: State, a: Action)
    requires Sound(s) && Enabled(s, a) && (a.Wait? || a.OtherCapture?)
    ensures Sound(Apply(s, a))
  {
    var t := Apply(s, a);
    forall id: nat
      ensures RowKept(t, id)
    {
      assert RowKept(s, id);
    }
    forall i | 0 <= i < |t.history|
      ensures MarkOk(t, i) && TriedOk(t.history, i)
    {
      assert MarkOk(s, i) && TriedOk(s.history, i);
    }
  }

  lemma ActionKeepsSound(s: State, a: Action)
    requires Sound(s) && Enabled(s, a)
    ensures Sound(Apply(s, a))
  {
    hide RowsKept, MarksKept, OneEach, Deliver;
    match a
    case Handle(item, o) => DeliverKeepsSound(s, item, o);
    case Publish(item, identity) =>
      EnqueueKeepsRows(s, item, identity);
      EnqueueKeepsMarks(s, item, identity);
    case _ => OtherKeepsSound(s, a);
  }

  lemma FreshIsSound(s: State)
    requires Fresh(s)
    ensures Sound(s)
  {
    assert forall id: nat :: RowKept(s, id);
    assert forall i | 0 <= i < |s.captures| :: s.captures[i] in s.captures;
  }

  lemma {:induction false} SoundAlways(start: State, acts: seq<Action>)
    requires Fresh(start) && Possible(start, acts)
    ensures Sound(After(start, acts))
  {
    hide Sound, Enabled, Apply, Fresh;
    if acts == [] {
      FreshIsSound(start);
    } else {
      SoundAlways(start, acts[..|acts| - 1]);
      ActionKeepsSound(After(start, acts[..|acts| - 1]), acts[|acts| - 1]);
    }
  }

  /** One consumer creates at most one capture per event id, whatever is redelivered, repeated or cut short. */
  lemma OneCapturePerEvent(start: State, acts: seq<Action>, i: nat, j: nat)
    requires Fresh(start) && Possible(start, acts) && i <= j < |After(start, acts).captures|
    ensures var c := After(start, acts).captures;
            c[i].mine && c[j].mine && c[i].event == c[j].event != 0 ==> i == j
  {
    hide Possible, After;
    SoundAlways(start, acts);
  }

  /** A row leaves the outbox only by an acknowledgement, and only once. */
  lemma RowsLeaveByAck(start: State, acts: seq<Action>, id: nat)
    requires Fresh(start) && Possible(start, acts)
    ensures var s := After(start, acts);
            Count(s.history, Enqueued(id)) == Waiting(s.events, id) + Count(s.history, Acked(id)) <= 1
  {
    hide Possible, After;
    SoundAlways(start, acts);
    assert RowKept(After(start, acts), id);
  }

  /** An event marked processed does not reach persistence for the seven days the mark is kept. */
  lemma MarkBlocksPersistence(start: State, acts: seq<Action>, i: nat, j: nat)
    requires Fresh(start) && Possible(start, acts) && i < j < |After(start, acts).history|
    requires var h := After(start, acts).history; h[i].Marked? && h[j].Tried? && h[i].key == h[j].key
    ensures After(start, acts).history[j].at - After(start, acts).history[i].at > RETENTION
  {
    hide Possible, After;
    SoundAlways(start, acts);
    assert TriedOk(After(start, acts).history, j);
  }

  // ----- Exactly when a mark still counts -----

  /** Note i marks the key, and no later mark of any key came more than the retention after it. */
  ghost predicate Living(history: seq<Note>, i: int, key: nat)
  {
    && 0 <= i < |history| && history[i].Marked? && history[i].key == key
    && forall j | i < j < |history| && history[j].Marked? :: history[j].at - history[i].at <= RETENTION
  }

  /** The marks kept are the living ones, each with the time of a living note no older than any other. */
  ghost predicate MarkExact(s: State, key: nat)
  {
    && (key in s.processed ==> exists i :: Living(s.history, i, key) && s.history[i].at == s.processed[key])
    && (forall i | Living(s.history, i, key) :: key in s.processed && s.history[i].at <= s.processed[key])
  }

  ghost predicate MarksExact(s: State)
  {
    && (forall key :: MarkExact(s, key))
    && (forall i | 0 <= i < |s.history| && s.history[i].Marked? :: s.history[i].at <= s.now && s.history[i].key != 0)
  }

  lemma LivingLater(history: seq<Note>, last: Note, i: int, key: nat)
    requires 0 <= i < |history|
    ensures Living(history + [last], i, key) <==>
            Living(history, i, key) && (last.Marked? ==> last.at - history[i].at <= RETENTION)
  {
    var more := history + [last];
    assert more[|history|] == last;
    assert forall j | 0 <= j < |history| :: more[j] == history[j];
  }

  /** A note that marks nothing changes no mark. */
  lemma PlainNoteKeepsExact(s: State, t: State, last: Note)
    requires MarksExact(s) && !last.Marked? && t.history == s.history + [last] && t.processed == s.processed
    requires t.now == s.now
    ensures MarksExact(t)
  {
    forall key
      ensures MarkExact(t, key)
    {
      assert MarkExact(s, key);
      if key in s.processed {
        var i :| Living(s.history, i, key) && s.history[i].at == s.processed[key];
        LivingLater(s.history, last, i, key);
      }
      forall i | Living(t.history, i, key)
        ensures key in t.processed && t.history[i].at <= t.processed[key]
      {
        LivingLater(s.history, last, i, key);
      }
    }
  }

  lemma MarkKeepsExact(s: State, t: State, marked: nat)
    requires MarksExact(s) && marked != 0 && t.history == s.history + [Marked(marked, s.now)] && t.now == s.now
    requires t.processed == Kept(s.processed[marked := s.now], s.now)
    ensures MarksExact(t)
  {
    forall key
      ensures MarkExact(t, key)
    {
      OneMarkExact(s, t, marked, key);
    }
  }

  lemma OneMarkExact(s: State, t: State, marked: nat, key: nat)
    requires MarksExact(s) && marked != 0 && t.history == s.history + [Marked(marked, s.now)] && t.now == s.now
    requires t.processed == Kept(s.processed[marked := s.now], s.now)
    ensures MarkExact(t, key)
  {
    var last := Marked(marked, s.now);
    assert MarkExact(s, key);
    if key == marked {
      assert Living(t.history, |s.history|, key);
    } else if key in t.processed {
      var i :| Living(s.history, i, key) && s.history[i].at == s.processed[key];
      LivingLater(s.history, last, i, key);
    }
    forall i | Living(t.history, i, key)
      ensures key in t.processed && t.history[i].at <= t.processed[key]
    {
      if i < |s.history| {
        LivingLater(s.history, last, i, key);
      }
    }
  }

  lemma AckKeepsExact(s: State, id: nat, key: nat)
    requires MarksExact(s)
    ensures MarksExact(Ack(s, id, key))
  {
    hide MarksExact;
    var t := s.(events := Without(s.events, id), history := s.history + [Acked(id)]);
    PlainNoteKeepsExact(s, t, Acked(id));
    if key != 0 {
      MarkKeepsExact(t, Ack(s, id, key), key);
    }
  }

  lemma EnqueueKeepsExact(s: State, item: Item, identity: nat)
    requires MarksExact(s)
    ensures MarksExact(Enqueue(s, item, identity))
  {
    hide MarksExact;
    if Enqueue(s, item, identity) != s {
      PlainNoteKeepsExact(s, Enqueue(s, item, identity), Enqueued(s.nextId));
    }
  }

  lemma PersistKeepsExact(s: State, item: Item, allowed: bool)
    requires MarksExact(s)
    ensures MarksExact(Persist(s, item, allowed))
  {
    hide MarksExact, SameCapture;
    PlainNoteKeepsExact(s, Persist(s, item, allowed), Tried(item.key, s.now));
  }

  lemma DeliverKeepsExact(s: State, item: Item, o: Outside)
    requires MarksExact(s)
    ensures MarksExact(Deliver(s, item, o))
  {
    hide MarksExact, Ack, Persist, Captured, KnownProcessed;
    AckKeepsExact(s, item.id, 0);
    AckKeepsExact(s, item.id, item.key);
    PersistKeepsExact(s, item, o.allowed);
    AckKeepsExact(Persist(s, item, o.allowed), item.id, item.key);
  }

  lemma ActionKeepsExact(s: State, a: Action)
    requires MarksExact(s) && Enabled(s, a)
    ensures MarksExact(Apply(s, a))
  {
    match a
    case Handle(item, o) => DeliverKeepsExact(s, item, o);
    case Publish(item, identity) => EnqueueKeepsExact(s, item, identity);
    case _ =>
      forall key
        ensures MarkExact(Apply(s, a), key)
      {
        assert MarkExact(s, key);
      }
  }

  lemma {:induction false} ExactAlways(start: State, acts: seq<Action>)
    requires Fresh(start) && Possible(start, acts)
    ensures MarksExact(After(start, acts))
  {
    if acts == [] {
      assert forall key :: MarkExact(start, key);
    } else {
      hide MarksExact, Enabled, Apply, Fresh;
      ExactAlways(start, acts[..|acts| - 1]);
      ActionKeepsExact(After(start, acts[..|acts| - 1]), acts[|acts| - 1]);
    }
  }

  /** Over every run, an event counts as processed exactly while one of its marks is living. */
  lemma ProcessedExactly(start: State, acts: seq<Action>, key: nat)
    requires Fresh(start) && Possible(start, acts)
    ensures var s := After(start, acts); KnownProcessed(s, key) <==> exists i :: Living(s.history, i, key)
  {
    hide Possible, After;
    ExactAlways(start, acts);
    assert MarkExact(After(start, acts), key);
  }

  /** The delivery attempts to store a capture. */
  predicate Reaches(s: State, item: Item, o: Outside)
  {
    |Deliver(s, item, o).history| > |s.history| && Deliver(s, item, o).history[|s.history|].Tried?
  }

  lemma ReachesByBranch(s: State, item: Item, o: Outside)
    ensures Reaches(s, item, o) <==>
            && o.fault != BeforeWork && Recognized(item) && !KnownProcessed(s, item.key)
            && o.alprOn && o.cameraOn && !(item.key != 0 && Captured(s, item.key)) && !o.hybrid && !o.nativeOnly
  {
    hide Captured, SameCapture, KnownProcessed, Kept, Without;
  }

  /** Exactly when a waiting item reaches persistence: it is a recognised plate with no living mark and no capture of
      its event, the module and its camera are on, no other path owns the camera, and nothing fails before. */
  lemma ReachesPersistenceExactly(start: State, acts: seq<Action>, item: Item, o: Outside)
    requires Fresh(start) && Possible(start, acts) && item in After(start, acts).events
    ensures var s := After(start, acts);
            Reaches(s, item, o) <==>
            && o.fault != BeforeWork && Recognized(item) && !(exists i :: Living(s.history, i, item.key))
            && o.alprOn && o.cameraOn && !(item.key != 0 && Captured(s, item.key)) && !o.hybrid && !o.nativeOnly
  {
    hide Possible, After, Living, KnownProcessed, Captured, Reaches;
    ProcessedExactly(start, acts, item.key);
    ReachesByBranch(After(start, acts), item, o);
  }

  // ----- A pass of the loop is part of such a run -----

  lemma Then(start: State, acts: seq<Action>, s: State, a: Action) returns (more: seq<Action>)
    requires Possible(start, acts) && s == After(start, acts) && Enabled(s, a)
    ensures more == acts + [a] && Possible(start, more) && After(start, more) == Apply(s, a)
  {
    more := acts + [a];
    assert more[..|more| - 1] == acts;
  }

  lemma {:induction false} WithoutKeeps(events: seq<Item>, id: nat, item: Item)
    requires item in events && item.id != id
    ensures item in Without(events, id)
  {
    if events[0] != item {
      WithoutKeeps(events[1..], id, item);
    }
  }

  lemma DeliverKeepsOthers(s: State, item: Item, o: Outside, other: Item)
    requires other in s.events && other.id != item.id
    ensures other in Deliver(s, item, o).events
  {
    WithoutKeeps(s.events, item.id, other);
  }

  ghost predicate DistinctIds(batch: seq<Item>)
  {
    forall i, j | 0 <= i < j < |batch| :: batch[i].id != batch[j].id
  }

  function Handles(batch: seq<Item>, outs: seq<Outside>): seq<Action>
    requires |batch| == |outs|
  {
    seq(|batch|, i requires 0 <= i < |batch| => Handle(batch[i], outs[i]))
  }

  /** The batch is handled up to its first failure, that one included, or to its end. */
  ghost predicate UpToFailure(outs: seq<Outside>, k: nat)
  {
    && k <= |outs| && (forall i | 0 <= i < k - 1 :: outs[i].fault == NoFault)
    && (k < |outs| ==> k > 0 && outs[k - 1].fault != NoFault)
  }

  lemma {:induction false} BatchIsARun(start: State, acts: seq<Action>, s: State, batch: seq<Item>, outs: seq<Outside>)
    returns (k: nat)
    requires Possible(start, acts) && s == After(start, acts) && |outs| == |batch| && DistinctIds(batch)
    requires forall i | 0 <= i < |batch| :: batch[i] in s.events
    ensures UpToFailure(outs, k) && Possible(start, acts + Handles(batch[..k], outs[..k]))
    ensures After(start, acts + Handles(batch[..k], outs[..k])) == Pass(s, batch, outs)
    decreases |batch|
  {
    hide Possible, After, Deliver;
    k := 0;
    if batch == [] {
      assert acts + Handles([], []) == acts;
    } else {
      var t := Deliver(s, batch[0], outs[0]);
      var more := Then(start, acts, s, Handle(batch[0], outs[0]));
      k := 1;
      assert acts + Handles(batch[..1], outs[..1]) == more;
      if outs[0].fault == NoFault {
        var rest := batch[1..];
        forall i | 0 <= i < |rest|
          ensures rest[i] in t.events
        {
          DeliverKeepsOthers(s, batch[0], outs[0], rest[i]);
        }
        assert DistinctIds(rest);
        var j := BatchIsARun(start, more, t, rest, outs[1..]);
        k := j + 1;
        assert acts + Handles(batch[..k], outs[..k]) == more + Handles(rest[..j], outs[1..][..j]);
        forall i | 0 < i < k - 1
          ensures outs[i].fault == NoFault
        {
          assert outs[1..][i - 1] == outs[i];
        }
      }
    }
  }

  lemma {:induction false} WaitingTail(events: seq<Item>, k: nat, id: nat)
    requires k <= |events|
    ensures Waiting(events[k..], id) <= Waiting(events, id)
  {
    if k > 0 {
      WaitingTail(events[1..], k - 1, id);
      assert events[1..][k - 1..] == events[k..];
    } else {
      assert events[0..] == events;
    }
  }

  lemma WaitingTwice(events: seq<Item>, i: nat, j: nat)
    requires i < j < |events| && events[i].id == events[j].id
    ensures Waiting(events, events[i].id) >= 2
  {
    WaitingTail(events, i, events[i].id);
    var tail := events[i..];
    assert tail[0] == events[i] && tail[1..][j - i - 1] == events[j];
    WaitingMember(tail[1..], events[j]);
  }

  /** A pass handles its batch in order up to the first failure, and everything proved of runs holds of it. */
  lemma PassIsARun(start: State, acts: seq<Action>, s: State, n: nat, outs: seq<Outside>)
    returns (k: nat)
    requires Fresh(start) && Possible(start, acts) && s == After(start, acts) && n <= |s.events| && |outs| == n
    ensures UpToFailure(outs, k)
    ensures var more := acts + Handles(s.events[..k], outs[..k]);
            Possible(start, more) && After(start, more) == Pass(s, s.events[..n], outs)
  {
    hide Possible, After, Pass, Handles;
    SoundAlways(start, acts);
    forall i, j | 0 <= i < j < |s.events|
      ensures s.events[i].id != s.events[j].id
    {
      assert RowKept(s, s.events[i].id);
      if s.events[i].id == s.events[j].id {
        WaitingTwice(s.events, i, j);
      }
    }
    k := BatchIsARun(start, acts, s, s.events[..n], outs);
    assert s.events[..n][..k] == s.events[..k];
  }

  // ----- After the retention -----

  const PLAIN := Outside(true, true, true, false, false, true, true, true, NoFault)

  function Read(key: nat): Item { Item(0, PlateRecognized, true, key, 3, 0) }

  lemma PublishAndHandle(start: State, acts: seq<Action>, s: State, key: nat, identity: nat, o: Outside)
    returns (more: seq<Action>)
    requires Possible(start, acts) && s == After(start, acts) && s.events == []
    requires identity != 0 && (PlateRecognized, identity) !in s.published
    ensures Possible(start, more)
    ensures After(start, more) == Deliver(Enqueue(s, Read(key), identity), Read(key).(id := s.nextId), o)
  {
    hide Possible, After, Deliver;
    more := Then(start, acts, s, Publish(Read(key), identity));
    var t := Enqueue(s, Read(key), identity);
    more := Then(start, more, t, Handle(Read(key).(id := s.nextId), o));
  }

  /** The mark does wear out: an event marked processed while its camera was off is stored as a capture after seven
      days, once another acknowledgement has purged the mark and the event is published under another identity. */
  lemma MarkWearsOut() returns (start: State, acts: seq<Action>)
    ensures Fresh(start) && Possible(start, acts)
    ensures var s := After(start, acts);
            && Marked(5, 0.0) in s.history && Tried(5, RETENTION + 1.0) in s.history
            && s.captures == [Capture(3, 5, 0, true)]
  {
    hide Possible, After;
    start := State([], map[], map[], [], 0.0, 1, []);
    var off := PLAIN.(cameraOn := false);
    Start(start);
    acts := PublishAndHandle(start, [], start, 5, 1, off);
    var s1 := State([], map[5 := 0.0], map[(PlateRecognized, 1) := 1], [], 0.0, 2,
                    [Enqueued(1), Acked(1), Marked(5, 0.0)]);
    assert After(start, acts) == s1 by { FirstMark(start, off, s1); }
    acts := Then(start, acts, s1, Wait(RETENTION + 1.0));
    var s2 := s1.(now := RETENTION + 1.0);
    acts := PublishAndHandle(start, acts, s2, 6, 2, off);
    var s3 := State([], map[6 := RETENTION + 1.0], s1.published[(PlateRecognized, 2) := 2], [], RETENTION + 1.0, 3,
                    s1.history + [Enqueued(2)] + [Acked(2)] + [Marked(6, RETENTION + 1.0)]);
    assert After(start, acts) == s3 by { SecondMark(s2, off, s3); }
    acts := PublishAndHandle(start, acts, s3, 5, 3, PLAIN);
    Stored(s3);
  }

  lemma Start(start: State)
    ensures Possible(start, []) && After(start, []) == start
  {
  }

  lemma OnlyRow(item: Item)
    ensures Without([item], item.id) == []
  {
    assert [item][1..] == [];
  }

  lemma FirstMark(s: State, off: Outside, s1: State)
    requires s == State([], map[], map[], [], 0.0, 1, []) && off == PLAIN.(cameraOn := false)
    requires s1 == State([], map[5 := 0.0], map[(PlateRecognized, 1) := 1], [], 0.0, 2,
                         [Enqueued(1), Acked(1), Marked(5, 0.0)])
    ensures Deliver(Enqueue(s, Read(5), 1), Read(5).(id := 1), off) == s1
  {
    var item, e := Read(5).(id := 1), Enqueue(s, Read(5), 1);
    OnlyRow(item);
    assert e.events == [item] && e.history == [Enqueued(1)];
    assert Kept(map[5 := 0.0], 0.0) == map[5 := 0.0];
    assert Ack(e, 1, 5) == s1;
  }

  lemma SecondMark(s2: State, off: Outside, s3: State)
    requires s2.events == [] && s2.processed == map[5 := 0.0] && s2.now == RETENTION + 1.0 && s2.nextId == 2
             && s2.captures == []
    requires (PlateRecognized, 2) !in s2.published && off == PLAIN.(cameraOn := false)
    requires s3 == State([], map[6 := RETENTION + 1.0], s2.published[(PlateRecognized, 2) := 2], [], RETENTION + 1.0, 3,
                         s2.history + [Enqueued(2)] + [Acked(2)] + [Marked(6, RETENTION + 1.0)])
    ensures Deliver(Enqueue(s2, Read(6), 2), Read(6).(id := 2), off) == s3
  {
    var item, e := Read(6).(id := 2), Enqueue(s2, Read(6), 2);
    OnlyRow(item);
    assert e.events == [item];
    assert Kept(map[5 := 0.0][6 := RETENTION + 1.0], RETENTION + 1.0) == map[6 := RETENTION + 1.0];
    assert Ack(e, 2, 6) == s3;
  }

  lemma Stored(s: State)
    requires s.events == [] && 5 !in s.processed && s.captures == [] && s.now == RETENTION + 1.0
    requires (PlateRecognized, 3) !in s.published && Marked(5, 0.0) in s.history
    ensures var t := Deliver(Enqueue(s, Read(5), 3), Read(5).(id := s.nextId), PLAIN);
            && Marked(5, 0.0) in t.history && Tried(5, RETENTION + 1.0) in t.history
            && t.captures == [Capture(3, 5, 0, true)]
  {
    hide Without, Kept;
  }
}

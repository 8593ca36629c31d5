/** What a publication adds and what a delivery does, over every run of the outbox: app/services/queues.py and
    _outbox_loop of app/api_main.py. */
module OutboxDelivery {
  import opened Outbox
  import opened OutboxRuns

  // ----- Publications -----

  /** Action m published something under this identity. */
  predicate Published(acts: seq<Action>, m: int, kind: Kind, identity: nat)
  {
    0 <= m < |acts| && acts[m].Publish? && acts[m].item.kind == kind && acts[m].identity == identity
  }

  /** The published table remembers exactly the identities published, for good. */
  ghost predicate TableOk(start: State, acts: seq<Action>, kind: Kind, identity: nat)
  {
    (kind, identity) in After(start, acts).published <==>
    (kind, identity) in start.published || (identity != 0 && exists m :: Published(acts, m, kind, identity))
  }

  lemma DeliverKeepsTable(s: State, item: Item, o: Outside)
    ensures Deliver(s, item, o).published == s.published
  {
  }

  lemma {:induction false} TableIsExact(start: State, acts: seq<Action>, kind: Kind, identity: nat)
    requires (kind, 0) !in start.published
    ensures TableOk(start, acts, kind, identity)
  {
    if acts != [] {
      var rest, a := acts[..|acts| - 1], acts[|acts| - 1];
      hide Deliver;
      TableIsExact(start, rest, kind, identity);
      if a.Handle? {
        DeliverKeepsTable(After(start, rest), a.item, a.o);
      }
      if m :| Published(rest, m, kind, identity) {
        assert Published(acts, m, kind, identity);
      }
      if m :| Published(acts, m, kind, identity) {
        assert m < |rest| ==> Published(rest, m, kind, identity);
      }
      if Published(acts, |rest|, kind, identity) {
        assert a.Publish? && a.item.kind == kind && a.identity == identity;
      }
    }
  }

  /** From an empty table: a publication adds one row at the end, unless something of its kind was published under its
      identity before, at any time; then it adds nothing at all. */
  lemma PublicationAdds(start: State, acts: seq<Action>, item: Item, identity: nat)
    requires start.published == map[]
    ensures var s, t := After(start, acts), After(start, acts + [Publish(item, identity)]);
            if identity != 0 && exists m :: Published(acts, m, item.kind, identity) then t == s
            else && t.events == s.events + [item.(id := s.nextId)] && t.nextId == s.nextId + 1
                 && t.history == s.history + [Enqueued(s.nextId)]
                 && t.processed == s.processed && t.captures == s.captures && t.now == s.now
  {
    hide Deliver;
    var more := acts + [Publish(item, identity)];
    assert more[..|more| - 1] == acts;
    TableIsExact(start, acts, item.kind, identity);
  }

  /** So of two publications under one identity the second changes nothing, whatever came between. */
  lemma SecondPublicationAddsNothing(start: State, acts: seq<Action>, m: nat, n: nat)
    requires start.published == map[] && m < n < |acts| && acts[m].Publish? && acts[n].Publish?
    requires acts[m].item.kind == acts[n].item.kind && acts[m].identity == acts[n].identity != 0
    ensures After(start, acts[..n + 1]) == After(start, acts[..n])
  {
    hide After;
    assert acts[..n + 1] == acts[..n] + [Publish(acts[n].item, acts[n].identity)];
    assert Published(acts[..n], m, acts[n].item.kind, acts[n].identity);
    PublicationAdds(start, acts[..n], acts[n].item, acts[n].identity);
  }

  // ----- Deliveries -----

  /** The event's mark is living after these actions. */
  ghost predicate Remembered(history: seq<Note>, key: nat) { exists i :: Living(history, i, key) }

  /** An attempt to store the plate that reaches persistence. */
  ghost predicate Stores(s: State, item: Item, o: Outside)
  {
    && o.fault != BeforeWork && item.kind == PlateRecognized && item.plate && !Remembered(s.history, item.key)
    && o.alprOn && o.cameraOn && !o.hybrid && !o.nativeOnly
    && (item.key == 0 || forall c | c in s.captures :: c.event != item.key)
  }

  /** The camera already has a capture of this visit or this event. */
  ghost predicate Duplicate(s: State, item: Item)
  {
    exists c :: c in s.captures && c.camera == item.camera
                && ((item.visit != 0 && c.visit == item.visit) || (item.key != 0 && c.event == item.key))
  }

  /** The row leaves the outbox: nothing fails, and its module is on or there is nothing left to do for it. */
  ghost predicate Leaves(s: State, item: Item, o: Outside)
  {
    && o.fault == NoFault
    && (|| Remembered(s.history, item.key)
        || (item.kind == PlateRecognized && (item.plate ==> o.alprOn))
        || (item.kind == PlateEvent && o.sessionsOn) || item.kind == OtherKind)
  }

  /** It is marked processed as it leaves: a recognised plate, or a plate event whose data were complete. */
  ghost predicate Marks(s: State, item: Item, o: Outside)
  {
    && Leaves(s, item, o) && item.key != 0 && !Remembered(s.history, item.key)
    && ((item.kind == PlateRecognized && item.plate) || (item.kind == PlateEvent && o.complete && o.captureFits))
  }

  lemma {:induction false} WithoutMeaning(events: seq<Item>, id: nat, x: Item)
    ensures x in Without(events, id) <==> x in events && x.id != id
  {
    if events != [] {
      WithoutMeaning(events[1..], id, x);
    }
  }

  /** What is noted of it, in order: the attempt, the acknowledgement, the mark. */
  ghost function Notes(s: State, item: Item, o: Outside): seq<Note>
  {
    (if Stores(s, item, o) then [Tried(item.key, s.now)] else []) +
    (if Leaves(s, item, o) then [Acked(item.id)] else []) +
    (if Marks(s, item, o) then [Marked(item.key, s.now)] else [])
  }

  /** One delivery, over every run: which rows stay, which capture appears, which mark is set. */
  lemma DeliveryDecides(start: State, acts: seq<Action>, item: Item, o: Outside)
    requires Fresh(start) && Possible(start, acts) && item in After(start, acts).events
    ensures var s, t := After(start, acts), Deliver(After(start, acts), item, o);
            && (forall x :: x in t.events <==> x in s.events && !(Leaves(s, item, o) && x.id == item.id))
            && t.captures == s.captures + (if Stores(s, item, o) && !Duplicate(s, item) && o.allowed
                                           then [Capture(item.camera, item.key, item.visit, true)] else [])
            && t.history == s.history + Notes(s, item, o)
            && t.published == s.published && t.nextId == s.nextId && t.now == s.now
  {
    hide Possible, After, Living, Remembered;
    var s := After(start, acts);
    Known(start, acts, item.key);
    forall x
      ensures x in Without(s.events, item.id) <==> x in s.events && x.id != item.id
    {
      WithoutMeaning(s.events, item.id, x);
    }
    DeliveryByBranch(s, item, o);
  }

  lemma Known(start: State, acts: seq<Action>, key: nat)
    requires Fresh(start) && Possible(start, acts)
    ensures KnownProcessed(After(start, acts), key) <==> Remembered(After(start, acts).history, key)
  {
    hide Possible, After, Living;
    ProcessedExactly(start, acts, key);
  }

  /** The delivery did this. */
  ghost predicate Delivered(s: State, item: Item, o: Outside, t: State)
  {
    && t.events == (if Leaves(s, item, o) then Without(s.events, item.id) else s.events)
    && t.captures == s.captures + (if Stores(s, item, o) && !Duplicate(s, item) && o.allowed
                                   then [Capture(item.camera, item.key, item.visit, true)] else [])
    && t.history == s.history + Notes(s, item, o)
    && t.published == s.published && t.nextId == s.nextId && t.now == s.now
  }

  lemma DeliveryByBranch(s: State, item: Item, o: Outside)
    requires KnownProcessed(s, item.key) <==> Remembered(s.history, item.key)
    ensures Delivered(s, item, o, Deliver(s, item, o))
  {
    hide Delivered, KnownProcessed, Remembered, Deliver;
    if Recognized(item) && !KnownProcessed(s, item.key) {
      ReadDelivery(s, item, o);
    } else {
      OtherDelivery(s, item, o);
    }
  }

  lemma AckDoes(s: State, fault: Fault, id: nat, key: nat)
    ensures var t := AckUnless(s, fault, id, key);
            && t.events == (if fault == NoFault then Without(s.events, id) else s.events) && t.captures == s.captures
            && t.history == s.history + (if fault == NoFault then [Acked(id)] else [])
                            + (if fault == NoFault && key != 0 then [Marked(key, s.now)] else [])
            && t.published == s.published && t.nextId == s.nextId && t.now == s.now
  {
    hide Without, Kept;
  }

  lemma PersistDoes(s: State, item: Item, allowed: bool)
    ensures Persist(s, item, allowed) ==
            s.(history := s.history + [Tried(item.key, s.now)],
               captures := s.captures + (if !Duplicate(s, item) && allowed
                                         then [Capture(item.camera, item.key, item.visit, true)] else []))
  {
  }

  lemma ReadDelivery(s: State, item: Item, o: Outside)
    requires Recognized(item) && !KnownProcessed(s, item.key) && !Remembered(s.history, item.key)
    ensures Delivered(s, item, o, Deliver(s, item, o))
  {
    hide Living, Remembered, Without, Kept, KnownProcessed, AckUnless, Persist, Duplicate;
    AckDoes(s, o.fault, item.id, item.key);
    PersistDoes(s, item, o.allowed);
    AckDoes(Persist(s, item, o.allowed), o.fault, item.id, item.key);
  }

  lemma OtherDelivery(s: State, item: Item, o: Outside)
    requires KnownProcessed(s, item.key) <==> Remembered(s.history, item.key)
    requires !Recognized(item) || KnownProcessed(s, item.key)
    ensures Delivered(s, item, o, Deliver(s, item, o))
  {
    hide Living, Remembered, Without, Kept, Captured, SameCapture, Persist;
  }
}

/** Durable delivery: _outbox_loop of app/api_main.py over the SQLite outbox of app/services/queues.py and the capture
    identity of app/services/captures.py. */
module Outbox {

  datatype Kind = PlateRecognized | PlateEvent | OtherKind

  /** key is the business event id and visit the visit id, 0 when empty; plate says the payload carries a plate. */
  datatype Item = Item(id: nat, kind: Kind, plate: bool, key: nat, camera: nat, visit: nat)

  /** mine: created by this consumer. */
  datatype Capture = Capture(camera: nat, event: nat, visit: nat, mine: bool)

  /** What happened, in order: history only, no branch reads it. */
  datatype Note = Enqueued(id: nat) | Acked(id: nat) | Marked(key: nat, at: real) | Tried(key: nat, at: real)

  datatype State = State(events: seq<Item>, processed: map<nat, real>, published: map<(Kind, nat), nat>,
                         captures: seq<Capture>, now: real, nextId: nat, history: seq<Note>)

  /** An exception or a crash before any commit, or after the work and before the acknowledgement. */
  datatype Fault = NoFault | BeforeWork | AfterWork

  /** What the loop finds outside the outbox while it handles one item. */
  datatype Outside = Outside(alprOn: bool, sessionsOn: bool, cameraOn: bool, hybrid: bool, nativeOnly: bool,
                             allowed: bool, complete: bool, captureFits: bool, fault: Fault)

  /** Processed marks are kept for seven days. */
  const RETENTION: real := 604800.0
  const BATCH: nat := 20

  // ----- Outbox -----

  function Without(events: seq<Item>, id: nat): seq<Item>
  {
    if events == [] then []
    else if events[0].id == id then Without(events[1..], id)
    else [events[0]] + Without(events[1..], id)
  }

  function Kept(processed: map<nat, real>, now: real): map<nat, real>
  {
    map k | k in processed && processed[k] >= now - RETENTION :: processed[k]
  }

  /** Delete the row and, in the same commit, mark the key and purge old marks. */
  function Ack(s: State, id: nat, key: nat): State
  {
    var t := s.(events := Without(s.events, id), history := s.history + [Acked(id)]);
    if key == 0 then t
    else t.(processed := Kept(s.processed[key := s.now], s.now), history := t.history + [Marked(key, s.now)])
  }

  /** A second publication of one identity adds nothing; the identity is remembered for good. */
  function Enqueue(s: State, item: Item, identity: nat): State
  {
    var entry := item.(id := s.nextId);
    var t := s.(events := s.events + [entry], nextId := s.nextId + 1, history := s.history + [Enqueued(s.nextId)]);
    if identity == 0 then t
    else if (item.kind, identity) in s.published then s
    else t.(published := s.published[(item.kind, identity) := s.nextId])
  }

  // ----- Captures -----

  predicate SameCapture(c: Capture, item: Item)
  {
    c.camera == item.camera && ((item.visit != 0 && c.visit == item.visit) || (item.key != 0 && c.event == item.key))
  }

  /** A capture of the same visit or event on the camera is returned as it is; policy may refuse a new one. */
  function Persist(s: State, item: Item, allowed: bool): State
  {
    var tried := s.(history := s.history + [Tried(item.key, s.now)]);
    if (exists c | c in s.captures :: SameCapture(c, item)) || !allowed then tried
    else tried.(captures := s.captures + [Capture(item.camera, item.key, item.visit, true)])
  }

  predicate Captured(s: State, key: nat) { exists c | c in s.captures :: c.event == key }

  // ----- One item -----

  predicate Recognized(item: Item) { item.kind == PlateRecognized && item.plate }

  predicate KnownProcessed(s: State, key: nat) { key != 0 && key in s.processed }

  function AckUnless(s: State, fault: Fault, id: nat, key: nat): State
  {
    if fault == NoFault then Ack(s, id, key) else s
  }

  function DeliverRecognized(s: State, item: Item, o: Outside): State
  {
    if !o.alprOn then s
    else if !o.cameraOn || (item.key != 0 && Captured(s, item.key)) || o.hybrid || o.nativeOnly then
      AckUnless(s, o.fault, item.id, item.key)
    else AckUnless(Persist(s, item, o.allowed), o.fault, item.id, item.key)
  }

  function DeliverPlateEvent(s: State, item: Item, o: Outside): State
  {
    if !o.sessionsOn then s
    else if !o.complete || !o.captureFits then AckUnless(s, o.fault, item.id, 0)
    else AckUnless(s, o.fault, item.id, item.key)
  }

  function Deliver(s: State, item: Item, o: Outside): State
  {
    if o.fault == BeforeWork then s
    else if !Recognized(item) && item.kind != PlateEvent then AckUnless(s, o.fault, item.id, 0)
    else if KnownProcessed(s, item.key) then AckUnless(s, o.fault, item.id, 0)
    else if Recognized(item) then DeliverRecognized(s, item, o)
    else DeliverPlateEvent(s, item, o)
  }

  /** One pass over a batch; a failure ends it. */
  function Pass(s: State, batch: seq<Item>, outs: seq<Outside>): State
    requires |outs| == |batch|
    decreases |batch|
  {
    if batch == [] then s
    else
      var t := Deliver(s, batch[0], outs[0]);
      if outs[0].fault != NoFault then t else Pass(t, batch[1..], outs[1..])
  }

  // ----- The program -----

  class ParkingOutbox {
    var events: seq<Item>
    var processed: map<nat, real>
    var published: map<(Kind, nat), nat>
    var captures: seq<Capture>
    var now: real
    var nextId: nat
    ghost var history: seq<Note>

    ghost function View(): State
      reads this
    {
      State(events, processed, published, captures, now, nextId, history)
    }

    constructor (now: real)
      ensures View() == State([], map[], map[], [], now, 1, [])
    {
      events, processed, published, captures := [], map[], map[], [];
      this.now, nextId, history := now, 1, [];
    }

    method EnqueueItem(item: Item, identity: nat)
      modifies this
      ensures View() == Enqueue(old(View()), item, identity)
    {
      if identity != 0 {
        if (item.kind, identity) in published {
          return;
        }
        published := published[(item.kind, identity) := nextId];
      }
      events := events + [item.(id := nextId)];
      history := history + [Enqueued(nextId)];
      nextId := nextId + 1;
    }

    method AckItem(id: nat, key: nat)
      modifies this
      ensures View() == Ack(old(View()), id, key)
    {
      var kept := [];
      for i := 0 to |events|
        modifies {}
        invariant Without(events, id) == kept + Without(events[i..], id)
      {
        if events[i].id != id {
          kept := kept + [events[i]];
        }
        assert events[i..][1..] == events[i + 1..];
      }
      events := kept;
      history := history + [Acked(id)];
      if key != 0 {
        history := history + [Marked(key, now)];
        processed := processed[key := now];
        processed := map k | k in processed && processed[k] >= now - RETENTION :: processed[k];
      }
    }

    method PersistCapture(item: Item, allowed: bool)
      modifies this
      ensures View() == Persist(old(View()), item, allowed)
    {
      history := history + [Tried(item.key, now)];
      var found := false;
      for i := 0 to |captures|
        modifies {}
        invariant found <==> exists c | c in captures[..i] :: SameCapture(c, item)
      {
        assert captures[..i + 1] == captures[..i] + [captures[i]];
        found := found || SameCapture(captures[i], item);
      }
      assert captures[..|captures|] == captures;
      if !found && allowed {
        captures := captures + [Capture(item.camera, item.key, item.visit, true)];
      }
    }

    method HandleRecognized(item: Item, o: Outside)
      modifies this
      ensures View() == DeliverRecognized(old(View()), item, o)
    {
      if !o.alprOn {
        return;
      }
      var captured := item.key != 0 && exists c | c in captures :: c.event == item.key;
      if o.cameraOn && !captured && !o.hybrid && !o.nativeOnly {
        PersistCapture(item, o.allowed);
      }
      if o.fault == NoFault {
        AckItem(item.id, item.key);
      }
    }

    method HandleItem(item: Item, o: Outside)
      modifies this
      ensures View() == Deliver(old(View()), item, o)
    {
      if o.fault == BeforeWork {
        return;
      }
      var known := item.key != 0 && item.key in processed;
      if (!Recognized(item) && item.kind != PlateEvent) || known {
        if o.fault == NoFault {
          AckItem(item.id, 0);
        }
      } else if Recognized(item) {
        HandleRecognized(item, o);
      } else if o.sessionsOn && o.fault == NoFault {
        AckItem(item.id, if o.complete && o.captureFits then item.key else 0);
      }
    }

    /** One turn of the loop: the oldest pending items, one after the other, until one fails. */
    method RunPass(outs: seq<Outside>)
      requires |outs| == if |events| < BATCH then |events| else BATCH
      modifies this
      ensures View() == Pass(old(View()), old(events)[..|outs|], outs)
    {
      var batch := events[..|outs|];
      for i := 0 to |batch|
        invariant Pass(old(View()), batch, outs) == Pass(View(), batch[i..], outs[i..])
      {
        HandleItem(batch[i], outs[i]);
        if outs[i].fault != NoFault {
          return;
        }
        assert batch[i..][1..] == batch[i + 1..] && outs[i..][1..] == outs[i + 1..];
      }
    }
  }
}

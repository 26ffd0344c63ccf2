/** The edge-to-cloud protocol: phones posting their outboxes over a network that loses,
    delays and repeats, to a connector whose handlers can fail or die at any point. */
module Delivery {
  import opened Wrappers
  import opened Domain
  import opened Events
  import opened Ingest
  import Outbox

  /** One post of one item: the phone, and the item's place in its report order. Repeats
      of the same post are not told apart. */
  datatype Req = Req(device: nat, serial: nat)

  type Key = (ProviderName, string)

  /** What is fixed for a run: each phone's settings, and what the connector decodes from
      a body. */
  datatype Env = Env(settings: nat -> Outbox.Settings, decode: string -> Option<EdgeEvent>)

  /** Everything ever sent stays on the wire, so it can arrive late and repeatedly; the
      same for handlers that resolved their device. `pending` are rows whose handler has
      inserted but not yet published them, `lost` rows whose handler never will. */
  datatype System = System(
    boxes: seq<Outbox.Box>,
    wire: set<Req>,
    devices: map<Key, Device>,
    resolved: set<(Req, HazardEvent)>,
    rows: seq<HazardEvent>,
    pending: map<Key, Req>,
    lost: set<Key>,
    published: seq<HazardEvent>,
    answers: set<(Req, int)>)

  datatype Step =
    | Phone(d: nat, action: Outbox.Action)
    | Send(d: nat)
    | Hear(d: nat, exchange: Outbox.Exchange)
    | Resolve(req: Req, now: int, fault: Fault, freshId: string)
    | Store(req: Req, e: HazardEvent, fault: Fault)
    | Publish(key: Key)
    | Die(key: Key)
    | Elsewhere(e: HazardEvent, fault: Fault)

  function Initial(phones: nat): System {
    System(seq(phones, _ => Outbox.EMPTY), {}, map[], {}, [], map[], {}, [], {})
  }

  /** The item a request carries. */
  function Carried(s: System, r: Req): Option<Outbox.Item> {
    if r.device < |s.boxes| && r.serial < |s.boxes[r.device].reported|
    then Some(s.boxes[r.device].reported[r.serial])
    else None
  }

  function Body(env: Env, s: System, r: Req): Option<EdgeEvent> {
    if Carried(s, r).Some? && Carried(s, r).value.Event? then env.decode(Carried(s, r).value.json) else None
  }

  /** The request the phone is waiting for an answer to, if it is delivering an event. */
  function Outstanding(s: System, d: nat): Option<Req> {
    if d >= |s.boxes| || s.boxes[d].current.None? then None
    else
      var r := Req(d, s.boxes[d].current.value.serial);
      if Carried(s, r).Some? && Carried(s, r).value.Event? then Some(r) else None
  }

  /** A phone can only hear a success for an event that a handler gave for it; failures
      of the network, of anything between, or of its own can come at any time. */
  predicate CanHear(s: System, d: nat, x: Outbox.Exchange) {
    x.Answered? && 200 <= x.code <= 299 && Outstanding(s, d).Some? ==> (Outstanding(s, d).value, x.code) in s.answers
  }

  function PhoneStep(env: Env, s: System, d: nat, a: Outbox.Action): System
    requires d < |s.boxes|
  {
    s.(boxes := s.boxes[d := Outbox.Step(env.settings(d), s.boxes[d], a)])
  }

  function Database(s: System): Db {
    Db(s.rows, s.published, s.devices)
  }

  function ResolveStep(env: Env, s: System, r: Req, now: int, fault: Fault, freshId: string): System {
    var body := Body(env, s, r);
    if body.None? || body.value.deviceId == "" then s.(answers := s.answers + {(r, 400)})
    else if fault == FailsBefore then s.(answers := s.answers + {(r, 500)})
    else
      var (id, db) := UpsertDevice(Database(s), GuardianEdge, Presence(body.value, now), freshId);
      var s' := s.(devices := db.devices);
      if fault == CommitsThenFails then s'.(answers := s.answers + {(r, 500)})
      else s'.(resolved := s.resolved + {(r, ToEvent(body.value, id, now))})
  }

  function StoreStep(s: System, r: Req, e: HazardEvent, fault: Fault): System {
    if !e.Valid() then s.(answers := s.answers + {(r, 400)})
    else
      var (result, rows) := InsertHazardEvent(s.rows, e, fault);
      match result
      case DuplicateRow => s.(answers := s.answers + {(r, 202)})
      case Inserted => s.(rows := rows, pending := s.pending[e.Key() := r])
      case InsertFailed =>
        s.(rows := rows, answers := s.answers + {(r, 500)},
           lost := if rows == s.rows then s.lost else s.lost + {e.Key()})
  }

  function RowOf(rows: seq<HazardEvent>, key: Key): (e: HazardEvent)
    requires HasKey(rows, key)
    ensures e in rows && e.Key() == key
  {
    if rows[|rows| - 1].Key() == key then rows[|rows| - 1]
    else
      assert rows == rows[..|rows| - 1] + [rows[|rows| - 1]];
      RowOf(rows[..|rows| - 1], key)
  }

  function PublishStep(s: System, key: Key): System {
    if key in s.pending && HasKey(s.rows, key) then
      s.(pending := s.pending - {key}, published := s.published + [RowOf(s.rows, key)],
         answers := s.answers + {(s.pending[key], 202)})
    else s
  }

  /** Another source's handler, run in one go. */
  function ElsewhereStep(s: System, e: HazardEvent, fault: Fault): System {
    if !e.Valid() || e.source == GuardianEdge then s
    else
      var (result, rows) := InsertHazardEvent(s.rows, e, fault);
      if result == Inserted then s.(rows := rows, published := s.published + [e])
      else s.(rows := rows, lost := if rows == s.rows then s.lost else s.lost + {e.Key()})
  }

  function Next(env: Env, s: System, step: Step): System {
    match step
    case Phone(d, a) => if d < |s.boxes| && !a.Post? then PhoneStep(env, s, d, a) else s
    case Send(d) => if Outstanding(s, d).Some? then s.(wire := s.wire + {Outstanding(s, d).value}) else s
    case Hear(d, x) =>
      if d < |s.boxes| && CanHear(s, d, x) then PhoneStep(env, s, d, Outbox.Post(Outbox.Classify(x))) else s
    case Resolve(r, now, fault, freshId) =>
      if r in s.wire && freshId != "" then ResolveStep(env, s, r, now, fault, freshId) else s
    case Store(r, e, fault) => if (r, e) in s.resolved then StoreStep(s, r, e, fault) else s
    case Publish(key) => PublishStep(s, key)
    case Die(key) => if key in s.pending then s.(pending := s.pending - {key}, lost := s.lost + {key}) else s
    case Elsewhere(e, fault) => ElsewhereStep(s, e, fault)
  }

  function Run(env: Env, s: System, steps: seq<Step>): System
    decreases |steps|
  {
    if steps == [] then s else Run(env, Next(env, s, steps[0]), steps[1..])
  }

  // ---- The handler as one call -----------------------------------------------------------------

  /** The steps a handler takes when nothing runs beside it. */
  function Handler(env: Env, s: System, r: Req, now: int, w: Weather): seq<Step> {
    var resolve := Resolve(r, now, w.device, w.freshId);
    var body := Body(env, s, r);
    if body.None? || body.value.deviceId == "" || w.device != NoFault then [resolve]
    else
      var id := UpsertDevice(Database(s), GuardianEdge, Presence(body.value, now), w.freshId).0;
      var e := ToEvent(body.value, id, now);
      var store := Store(r, e, w.insert);
      if e.Valid() && w.insert == NoFault && !HasKey(s.rows, e.Key()) then [resolve, store, Publish(e.Key())]
      else [resolve, store]
  }

  lemma ResolveAlone(env: Env, s: System, r: Req, now: int, fault: Fault, freshId: string)
    ensures var s' := ResolveStep(env, s, r, now, fault, freshId);
            var body := Body(env, s, r);
            && s'.rows == s.rows && s'.published == s.published && s'.pending == s.pending && s'.wire == s.wire
            && (body.Some? && body.value.deviceId != "" && fault != FailsBefore ==>
                  var (id, db) := UpsertDevice(Database(s), GuardianEdge, Presence(body.value, now), freshId);
                  && s'.devices == db.devices
                  && (fault == NoFault ==> (r, ToEvent(body.value, id, now)) in s'.resolved)
                  && (fault != NoFault ==> (r, 500) in s'.answers))
            && (body.None? || body.value.deviceId == "" ==> s'.devices == s.devices && (r, 400) in s'.answers)
            && (body.Some? && body.value.deviceId != "" && fault == FailsBefore ==>
                  s'.devices == s.devices && (r, 500) in s'.answers)
  {
  }

  lemma StoreAlone(s: System, r: Req, e: HazardEvent, fault: Fault)
    ensures var s1 := StoreStep(s, r, e, fault);
            var created := e.Valid() && fault == NoFault && !HasKey(s.rows, e.Key());
            var s2 := if created then PublishStep(s1, e.Key()) else s1;
            var (result, db) := Accept(Database(s), e, fault);
            var code := match result case Accepted(_) => 202 case RejectedEvent => 400 case StorageError => 500;
            Database(s2) == db && (r, code) in s2.answers
  {
    if e.Valid() && fault == NoFault && !HasKey(s.rows, e.Key()) {
      assert e in s.rows + [e] && HasKey(s.rows + [e], e.Key());
      assert RowOf(s.rows + [e], e.Key()) == e;
    }
  }

  lemma RunOne(env: Env, s: System, a: Step, rest: seq<Step>)
    ensures Run(env, s, [a] + rest) == Run(env, Next(env, s, a), rest)
  {
    assert ([a] + rest)[1..] == rest;
  }

  lemma RunHandler(env: Env, s: System, resolve: Step, store: Step, publish: Step)
    ensures Run(env, s, [resolve]) == Next(env, s, resolve)
    ensures Run(env, s, [resolve, store]) == Next(env, Next(env, s, resolve), store)
    ensures Run(env, s, [resolve, store, publish]) == Next(env, Next(env, Next(env, s, resolve), store), publish)
  {
    var s1 := Next(env, s, resolve);
    var s2 := Next(env, s1, store);
    RunOne(env, s, resolve, []);
    RunOne(env, s1, store, []);
    RunOne(env, s2, publish, []);
    RunOne(env, s, resolve, [store]);
    RunOne(env, s1, store, [publish]);
    RunOne(env, s, resolve, [store, publish]);
    assert [resolve] + [] == [resolve] && [store] + [] == [store] && [publish] + [] == [publish];
    assert [resolve] + [store] == [resolve, store] && [store] + [publish] == [store, publish];
    assert [resolve] + [store, publish] == [resolve, store, publish];
  }

  /** Run without interference, the steps have the endpoint's effect and give its answer. */
  lemma HandlerIsPostEvent(env: Env, s: System, r: Req, now: int, w: Weather)
    requires r in s.wire && w.freshId != ""
    ensures var s' := Run(env, s, Handler(env, s, r, now, w));
            var (status, db) := PostEvent(Database(s), Body(env, s, r), now, w);
            Database(s') == db && (r, status) in s'.answers
  {
    var body := Body(env, s, r);
    var resolve := Resolve(r, now, w.device, w.freshId);
    ResolveAlone(env, s, r, now, w.device, w.freshId);
    var s1 := ResolveStep(env, s, r, now, w.device, w.freshId);
    assert Next(env, s, resolve) == s1;
    if body.None? || body.value.deviceId == "" || w.device != NoFault {
      RunHandler(env, s, resolve, resolve, resolve);
    } else {
      var id := UpsertDevice(Database(s), GuardianEdge, Presence(body.value, now), w.freshId).0;
      var e := ToEvent(body.value, id, now);
      RunHandler(env, s, resolve, Store(r, e, w.insert), Publish(e.Key()));
      StoreAlone(s1, r, e, w.insert);
      HandlerStores(env, s1, r, e, w.insert);
    }
  }

  lemma HandlerStores(env: Env, s: System, r: Req, e: HazardEvent, fault: Fault)
    requires (r, e) in s.resolved
    ensures var s1 := Next(env, s, Store(r, e, fault));
            s1 == StoreStep(s, r, e, fault) && Next(env, s1, Publish(e.Key())) == PublishStep(s1, e.Key())
  {
  }

  // ---- Storage and publication ------------------------------------------------------------

  /** The table honours its unique constraint, and each row was published once, is about
      to be, or never will be: exactly one of the three. */
  ghost predicate Books(rows: seq<HazardEvent>, pending: set<Key>, lost: set<Key>, published: seq<HazardEvent>) {
    && UniqueKeys(rows) && UniqueKeys(published)
    && (forall e :: e in published ==> e in rows)
    && (forall key :: HasKey(rows, key) <==> HasKey(published, key) || key in pending || key in lost)
    && (forall key :: key in pending ==> !HasKey(published, key) && key !in lost)
    && (forall key :: key in lost ==> !HasKey(published, key))
  }

  ghost predicate Balanced(s: System) {
    Books(s.rows, s.pending.Keys, s.lost, s.published)
  }

  lemma KeysAppend(rows: seq<HazardEvent>, e: HazardEvent)
    ensures forall key :: HasKey(rows + [e], key) <==> HasKey(rows, key) || key == e.Key()
  {
    forall key ensures HasKey(rows + [e], key) <==> HasKey(rows, key) || key == e.Key() {
      if HasKey(rows, key) {
        KeysStay(rows, rows + [e], key);
      }
      assert e in rows + [e];
    }
  }

  lemma InsertPending(
      rows: seq<HazardEvent>, pending: set<Key>, lost: set<Key>, published: seq<HazardEvent>, e: HazardEvent)
    requires Books(rows, pending, lost, published) && !HasKey(rows, e.Key())
    ensures Books(rows + [e], pending + {e.Key()}, lost, published)
  {
    AppendKeepsUnique(rows, e);
    KeysAppend(rows, e);
  }

  lemma LosePending(rows: seq<HazardEvent>, pending: set<Key>, lost: set<Key>, published: seq<HazardEvent>, key: Key)
    requires Books(rows, pending, lost, published) && key in pending
    ensures Books(rows, pending - {key}, lost + {key}, published)
  {
  }

  lemma PublishPending(rows: seq<HazardEvent>, pending: set<Key>, lost: set<Key>, published: seq<HazardEvent>, key: Key)
    requires Books(rows, pending, lost, published) && key in pending && HasKey(rows, key)
    ensures Books(rows, pending - {key}, lost, published + [RowOf(rows, key)])
  {
    AppendKeepsUnique(published, RowOf(rows, key));
    KeysAppend(published, RowOf(rows, key));
  }

  lemma InsertLost(
      rows: seq<HazardEvent>, pending: set<Key>, lost: set<Key>, published: seq<HazardEvent>, e: HazardEvent)
    requires Books(rows, pending, lost, published) && !HasKey(rows, e.Key())
    ensures Books(rows + [e], pending, lost + {e.Key()}, published)
  {
    InsertPending(rows, pending, lost, published, e);
    LosePending(rows + [e], pending + {e.Key()}, lost, published, e.Key());
    assert pending + {e.Key()} - {e.Key()} == pending;
  }

  lemma InsertPublished(
      rows: seq<HazardEvent>, pending: set<Key>, lost: set<Key>, published: seq<HazardEvent>, e: HazardEvent)
    requires Books(rows, pending, lost, published) && !HasKey(rows, e.Key())
    ensures Books(rows + [e], pending, lost, published + [e])
  {
    InsertPending(rows, pending, lost, published, e);
    KeysAppend(rows, e);
    PublishPending(rows + [e], pending + {e.Key()}, lost, published, e.Key());
    assert RowOf(rows + [e], e.Key()) == e;
    assert pending + {e.Key()} - {e.Key()} == pending;
  }

  lemma StoreKeepsBalance(s: System, r: Req, e: HazardEvent, fault: Fault)
    requires Balanced(s)
    ensures Balanced(StoreStep(s, r, e, fault))
  {
    if e.Valid() && fault != FailsBefore && !HasKey(s.rows, e.Key()) {
      InsertPending(s.rows, s.pending.Keys, s.lost, s.published, e);
      InsertLost(s.rows, s.pending.Keys, s.lost, s.published, e);
      assert s.pending[e.Key() := r].Keys == s.pending.Keys + {e.Key()};
    }
  }

  lemma ElsewhereKeepsBalance(s: System, e: HazardEvent, fault: Fault)
    requires Balanced(s)
    ensures Balanced(ElsewhereStep(s, e, fault))
  {
    if e.Valid() && e.source != GuardianEdge && fault != FailsBefore && !HasKey(s.rows, e.Key()) {
      InsertLost(s.rows, s.pending.Keys, s.lost, s.published, e);
      InsertPublished(s.rows, s.pending.Keys, s.lost, s.published, e);
    }
  }

  lemma PublishKeepsBalance(s: System, key: Key)
    requires Balanced(s)
    ensures Balanced(PublishStep(s, key))
  {
    if key in s.pending && HasKey(s.rows, key) {
      PublishPending(s.rows, s.pending.Keys, s.lost, s.published, key);
      assert (s.pending - {key}).Keys == s.pending.Keys - {key};
    }
  }

  lemma NextKeepsBalance(env: Env, s: System, step: Step)
    requires Balanced(s)
    ensures Balanced(Next(env, s, step))
  {
    match step
    case Store(r, e, fault) => StoreKeepsBalance(s, r, e, fault);
    case Elsewhere(e, fault) => ElsewhereKeepsBalance(s, e, fault);
    case Publish(key) => PublishKeepsBalance(s, key);
    case Die(key) =>
      if key in s.pending {
        LosePending(s.rows, s.pending.Keys, s.lost, s.published, key);
        assert (s.pending - {key}).Keys == s.pending.Keys - {key};
      }
    case _ =>
  }

  // ---- Nothing is forgotten -----------------------------------------------------------------

  /** Reports, requests and rows only accumulate. */
  ghost predicate Grew(s: System, s': System) {
    && |s.boxes| == |s'.boxes|
    && (forall d :: 0 <= d < |s.boxes| ==> s.boxes[d].reported <= s'.boxes[d].reported)
    && s.wire <= s'.wire && s.rows <= s'.rows
  }

  lemma PhoneGrows(env: Env, s: System, d: nat, a: Outbox.Action)
    requires d < |s.boxes|
    ensures Grew(s, PhoneStep(env, s, d, a))
  {
  }

  lemma NextGrows(env: Env, s: System, step: Step)
    ensures Grew(s, Next(env, s, step))
  {
    match step
    case Phone(d, a) =>
      if d < |s.boxes| && !a.Post? {
        PhoneGrows(env, s, d, a);
      }
    case Hear(d, x) =>
      if d < |s.boxes| && CanHear(s, d, x) {
        PhoneGrows(env, s, d, Outbox.Post(Outbox.Classify(x)));
      }
    case _ =>
  }

  lemma BodyStays(env: Env, s: System, s': System, r: Req)
    requires Grew(s, s') && Body(env, s, r).Some?
    ensures Body(env, s', r) == Body(env, s, r)
  {
    assert s.boxes[r.device].reported <= s'.boxes[r.device].reported;
  }

  // ---- Where stored events come from ----------------------------------------------------------

  /** The event is what the connector makes of a body that was posted. */
  ghost predicate Faithful(env: Env, s: System, r: Req, e: HazardEvent) {
    && r in s.wire && Body(env, s, r).Some? && e == ToEvent(Body(env, s, r).value, e.deviceId, e.receivedAt)
  }

  ghost predicate Originates(env: Env, s: System, e: HazardEvent) {
    e.source == GuardianEdge ==> exists r :: Faithful(env, s, r, e)
  }

  ghost predicate Sourced(env: Env, s: System) {
    && (forall r, e :: (r, e) in s.resolved ==> Faithful(env, s, r, e))
    && (forall e :: e in s.rows ==> Originates(env, s, e))
  }

  lemma FaithfulStays(env: Env, s: System, s': System, r: Req, e: HazardEvent)
    requires Grew(s, s') && Faithful(env, s, r, e)
    ensures Faithful(env, s', r, e)
  {
    BodyStays(env, s, s', r);
  }

  lemma OriginStays(env: Env, s: System, s': System, e: HazardEvent)
    requires Grew(s, s') && Originates(env, s, e)
    ensures Originates(env, s', e)
  {
    if e.source == GuardianEdge {
      var r :| Faithful(env, s, r, e);
      FaithfulStays(env, s, s', r, e);
    }
  }

  /** A row that was not there before comes from a resolved request or another source. */
  lemma NewRows(env: Env, s: System, step: Step, e: HazardEvent)
    requires Sourced(env, s) && e in Next(env, s, step).rows && e !in s.rows
    ensures Originates(env, s, e)
  {
    match step
    case Store(r, e', fault) =>
      if (r, e') in s.resolved {
        assert Faithful(env, s, r, e');
      }
    case _ =>
  }

  lemma NewlyResolved(env: Env, s: System, step: Step, r: Req, e: HazardEvent)
    requires (r, e) in Next(env, s, step).resolved && (r, e) !in s.resolved
    ensures Faithful(env, s, r, e)
  {
  }

  lemma NextKeepsSourced(env: Env, s: System, step: Step)
    requires Sourced(env, s)
    ensures Sourced(env, Next(env, s, step))
  {
    var s' := Next(env, s, step);
    NextGrows(env, s, step);
    forall r, e | (r, e) in s'.resolved ensures Faithful(env, s', r, e) {
      if (r, e) !in s.resolved {
        NewlyResolved(env, s, step, r, e);
      }
      FaithfulStays(env, s, s', r, e);
    }
    forall e | e in s'.rows ensures Originates(env, s', e) {
      if e !in s.rows {
        NewRows(env, s, step, e);
      }
      OriginStays(env, s, s', e);
    }
  }

  // ---- What an answer promises ------------------------------------------------------------------

  function EventKey(b: EdgeEvent): Key {
    (GuardianEdge, b.eventId)
  }

  ghost predicate Kept(env: Env, s: System, r: Req) {
    Body(env, s, r).Some? && HasKey(s.rows, EventKey(Body(env, s, r).value))
  }

  ghost predicate Promised(env: Env, s: System) {
    && (forall r, code :: (r, code) in s.answers && 200 <= code <= 299 ==> Kept(env, s, r))
    && (forall key :: key in s.pending ==>
          Body(env, s, s.pending[key]).Some? && EventKey(Body(env, s, s.pending[key]).value) == key)
  }

  lemma KeptStays(env: Env, s: System, s': System, r: Req)
    requires Grew(s, s') && Kept(env, s, r)
    ensures Kept(env, s', r)
  {
    BodyStays(env, s, s', r);
    KeysStay(s.rows, s'.rows, EventKey(Body(env, s, r).value));
  }

  lemma StoreAnswers(env: Env, s: System, r: Req, e: HazardEvent, fault: Fault)
    requires Faithful(env, s, r, e)
    ensures var s' := StoreStep(s, r, e, fault);
            && (forall a :: a in s'.answers && a !in s.answers && 200 <= a.1 <= 299 ==> a.0 == r && Kept(env, s, r))
            && (forall key :: key in s'.pending && (key !in s.pending || s.pending[key] != s'.pending[key]) ==>
                  s'.pending[key] == r && key == EventKey(Body(env, s, r).value))
  {
  }

  lemma PublishAnswers(env: Env, s: System, key: Key)
    requires Promised(env, s)
    ensures var s' := PublishStep(s, key);
            forall a :: a in s'.answers && a !in s.answers ==> Kept(env, s, a.0)
  {
  }

  /** A handler says 2xx only for an event that is in the table. */
  lemma NewAnswers(env: Env, s: System, step: Step, r: Req, code: int)
    requires Sourced(env, s) && Promised(env, s)
    requires (r, code) in Next(env, s, step).answers && (r, code) !in s.answers && 200 <= code <= 299
    ensures Kept(env, s, r)
  {
    match step
    case Store(r', e, fault) =>
      if (r', e) in s.resolved {
        StoreAnswers(env, s, r', e, fault);
      }
    case Publish(key) => PublishAnswers(env, s, key);
    case Resolve(r', now, fault, freshId) => ResolveRefuses(env, s, r', now, fault, freshId);
    case _ =>
  }

  lemma ResolveRefuses(env: Env, s: System, r: Req, now: int, fault: Fault, freshId: string)
    ensures forall a :: a in ResolveStep(env, s, r, now, fault, freshId).answers && a !in s.answers ==> a.1 >= 400
  {
  }

  lemma NewPending(env: Env, s: System, step: Step, key: Key)
    requires Sourced(env, s) && Promised(env, s) && key in Next(env, s, step).pending
    ensures var r := Next(env, s, step).pending[key];
            Body(env, s, r).Some? && EventKey(Body(env, s, r).value) == key
  {
    match step
    case Store(r, e, fault) =>
      if (r, e) in s.resolved {
        StoreAnswers(env, s, r, e, fault);
      }
    case _ => assert key in s.pending && Next(env, s, step).pending[key] == s.pending[key];
  }

  lemma NextKeepsPromises(env: Env, s: System, step: Step)
    requires Sourced(env, s) && Promised(env, s)
    ensures Promised(env, Next(env, s, step))
  {
    var s' := Next(env, s, step);
    NextGrows(env, s, step);
    forall r, code | (r, code) in s'.answers && 200 <= code <= 299 ensures Kept(env, s', r) {
      if (r, code) !in s.answers {
        NewAnswers(env, s, step, r, code);
      }
      KeptStays(env, s, s', r);
    }
    forall key | key in s'.pending
      ensures Body(env, s', s'.pending[key]).Some? && EventKey(Body(env, s', s'.pending[key]).value) == key
    {
      NewPending(env, s, step, key);
      BodyStays(env, s, s', s'.pending[key]);
    }
  }

  // ---- What the phones believe --------------------------------------------------------------------

  /** An event some phone counts as delivered. */
  ghost predicate CountsDelivered(s: System, r: Req) {
    && Carried(s, r).Some? && Carried(s, r).value.Event?
    && r.serial < |s.boxes[r.device].fates| && s.boxes[r.device].fates[r.serial] == Outbox.Delivered
  }

  ghost predicate Believed(env: Env, s: System) {
    && (forall d :: 0 <= d < |s.boxes| ==> Outbox.Invariant(env.settings(d), s.boxes[d]))
    && (forall r :: CountsDelivered(s, r) ==> Kept(env, s, r))
  }

  /** A fate becomes "delivered" only by hearing a success for that item. */
  lemma BecomesDelivered(cfg: Outbox.Settings, b: Outbox.Box, a: Outbox.Action, k: nat)
    requires var b' := Outbox.Step(cfg, b, a);
             k < |b'.fates| && b'.fates[k] == Outbox.Delivered
    ensures || (k < |b.fates| && b.fates[k] == Outbox.Delivered)
            || (a == Outbox.Post(Outbox.Accepted) && b.current.Some? && b.current.value.serial == k < |b.reported|)
  {
  }

  /** Hearing an answer makes an event count as delivered only if it was a success given
      for that event. */
  lemma HearDelivers(env: Env, s: System, d: nat, x: Outbox.Exchange, r: Req)
    requires d < |s.boxes| && |s.boxes[d].fates| <= |s.boxes[d].reported| && CanHear(s, d, x) && Promised(env, s)
    requires CountsDelivered(PhoneStep(env, s, d, Outbox.Post(Outbox.Classify(x))), r) && !CountsDelivered(s, r)
    ensures Kept(env, s, r)
  {
    PhoneDelivers(env, s, d, Outbox.Post(Outbox.Classify(x)), r);
    assert (r, x.code) in s.answers;
  }

  lemma NewlyDelivered(env: Env, s: System, step: Step, r: Req)
    requires Promised(env, s)
    requires forall d :: 0 <= d < |s.boxes| ==> |s.boxes[d].fates| <= |s.boxes[d].reported|
    requires CountsDelivered(Next(env, s, step), r) && !CountsDelivered(s, r)
    ensures Kept(env, s, r)
  {
    match step
    case Phone(d, a) => PhoneDelivers(env, s, d, a, r);
    case Hear(d, x) => HearDelivers(env, s, d, x, r);
    case _ =>
  }

  lemma PhoneDelivers(env: Env, s: System, d: nat, a: Outbox.Action, r: Req)
    requires d < |s.boxes| && |s.boxes[d].fates| <= |s.boxes[d].reported|
    requires CountsDelivered(PhoneStep(env, s, d, a), r) && !CountsDelivered(s, r)
    ensures a == Outbox.Post(Outbox.Accepted) && Outstanding(s, d) == Some(r)
  {
    BecomesDelivered(env.settings(d), s.boxes[d], a, r.serial);
  }

  lemma NextKeepsBelief(env: Env, s: System, step: Step)
    requires Believed(env, s) && Promised(env, s)
    ensures Believed(env, Next(env, s, step))
  {
    var s' := Next(env, s, step);
    NextGrows(env, s, step);
    forall d | 0 <= d < |s'.boxes| ensures Outbox.Invariant(env.settings(d), s'.boxes[d]) {
      BoxKeepsInvariant(env, s, step, d);
    }
    assert forall d :: 0 <= d < |s.boxes| ==> |s.boxes[d].fates| <= |s.boxes[d].reported|;
    forall r | CountsDelivered(s', r) ensures Kept(env, s', r) {
      if !CountsDelivered(s, r) {
        NewlyDelivered(env, s, step, r);
      }
      KeptStays(env, s, s', r);
    }
  }

  lemma BoxKeepsInvariant(env: Env, s: System, step: Step, d: nat)
    requires d < |s.boxes| && Outbox.Invariant(env.settings(d), s.boxes[d])
    ensures Outbox.Invariant(env.settings(d), Next(env, s, step).boxes[d])
  {
    match step
    case Phone(d', a) => Outbox.StepKeepsInvariant(env.settings(d), s.boxes[d], a);
    case Hear(d', x) => Outbox.StepKeepsInvariant(env.settings(d), s.boxes[d], Outbox.Post(Outbox.Classify(x)));
    case _ =>
  }

  // ---- Every run ----------------------------------------------------------------------------------

  ghost predicate Invariant(env: Env, s: System) {
    Balanced(s) && Sourced(env, s) && Promised(env, s) && Believed(env, s)
  }

  lemma {:induction false} RunsKeepInvariant(env: Env, s: System, steps: seq<Step>)
    requires Invariant(env, s)
    ensures Invariant(env, Run(env, s, steps))
    decreases |steps|
  {
    if steps != [] {
      NextKeepsBalance(env, s, steps[0]);
      NextKeepsSourced(env, s, steps[0]);
      NextKeepsPromises(env, s, steps[0]);
      NextKeepsBelief(env, s, steps[0]);
      RunsKeepInvariant(env, Next(env, s, steps[0]), steps[1..]);
    }
  }

  lemma InitialHolds(env: Env, phones: nat)
    ensures Invariant(env, Initial(phones))
  {
  }

  /** The stored event `e` stands for the request `r`: it has its event id and is what the
      connector makes of the body of some posted request `q`, of r's own if they agree. */
  ghost predicate StandsFor(env: Env, s: System, r: Req, e: HazardEvent, q: Req) {
    && Body(env, s, r).Some? && e in s.rows && e.Key() == EventKey(Body(env, s, r).value)
    && Faithful(env, s, q, e)
    && (Body(env, s, q) == Body(env, s, r) ==> MadeOf(env, s, r, e))
  }

  ghost predicate MadeOf(env: Env, s: System, r: Req, e: HazardEvent) {
    Body(env, s, r).Some? && e == ToEvent(Body(env, s, r).value, e.deviceId, e.receivedAt)
  }

  /** No request posted another event under the same id. */
  ghost predicate OwnsId(env: Env, s: System, r: Req) {
    Body(env, s, r).Some? &&
    forall q :: q in s.wire && Body(env, s, q).Some? ==>
      EventKey(Body(env, s, q).value) == EventKey(Body(env, s, r).value) ==> Body(env, s, q) == Body(env, s, r)
  }

  lemma KeptIsStoodFor(env: Env, s: System, r: Req) returns (e: HazardEvent, q: Req)
    requires Sourced(env, s) && Kept(env, s, r)
    ensures StandsFor(env, s, r, e, q)
    ensures OwnsId(env, s, r) ==> e in s.rows && MadeOf(env, s, r, e)
  {
    e :| e in s.rows && e.Key() == EventKey(Body(env, s, r).value);
    assert Originates(env, s, e);
    q :| Faithful(env, s, q, e);
  }

  /** Exactly-once storage under arbitrary loss, delay, repetition and failure. In every
      run: no event id is stored twice under one source; for every event a phone counts as
      delivered one event with its id is stored, its own unless another request posted a
      different event under that id; every stored edge event is what some phone posted. */
  lemma ExactlyOnceStorage(env: Env, phones: nat, steps: seq<Step>)
    ensures var s := Run(env, Initial(phones), steps);
            && (forall key :: HasKey(s.rows, key) ==> StoredOnce(s.rows, key))
            && (forall r :: CountsDelivered(s, r) ==> exists e, q :: StandsFor(env, s, r, e, q))
            && (forall r :: CountsDelivered(s, r) && OwnsId(env, s, r) ==>
                  exists e :: e in s.rows && MadeOf(env, s, r, e))
            && (forall e :: e in s.rows && e.source == GuardianEdge ==> exists r :: Faithful(env, s, r, e))
  {
    var s := Run(env, Initial(phones), steps);
    InitialHolds(env, phones);
    RunsKeepInvariant(env, Initial(phones), steps);
    forall key | HasKey(s.rows, key) ensures StoredOnce(s.rows, key) {
      UniqueMeansOnce(s.rows, key);
    }
    forall r | CountsDelivered(s, r)
      ensures exists e, q :: StandsFor(env, s, r, e, q)
      ensures OwnsId(env, s, r) ==> exists e :: e in s.rows && MadeOf(env, s, r, e)
    {
      var e, q := KeptIsStoodFor(env, s, r);
    }
    forall e | e in s.rows && e.source == GuardianEdge ensures exists r :: Faithful(env, s, r, e) {
      assert Originates(env, s, e);
    }
  }

  /** In every run each stored event is published at most once, and only if stored; it was
      published exactly once unless its handler is still running or died (or lost the
      database's answer) between insert and publish. */
  lemma PublishedAtMostOnce(env: Env, phones: nat, steps: seq<Step>, key: Key)
    ensures var s := Run(env, Initial(phones), steps);
            && (HasKey(s.published, key) ==> StoredOnce(s.published, key) && HasKey(s.rows, key))
            && (HasKey(s.rows, key) ==>
                  (StoredOnce(s.published, key) <==> key !in s.pending && key !in s.lost))
  {
    var s := Run(env, Initial(phones), steps);
    InitialHolds(env, phones);
    RunsKeepInvariant(env, Initial(phones), steps);
    if HasKey(s.published, key) {
      UniqueMeansOnce(s.published, key);
    }
    assert StoredOnce(s.published, key) ==> HasKey(s.published, key);
  }

  /** A row's handler is only ever lost to a death or a lost database answer. */
  predicate Smooth(step: Step) {
    && !step.Die?
    && (step.Store? ==> step.fault != CommitsThenFails)
    && (step.Elsewhere? ==> step.fault != CommitsThenFails)
  }

  lemma {:induction false} SmoothRunsLoseNothing(env: Env, s: System, steps: seq<Step>)
    requires forall step :: step in steps ==> Smooth(step)
    ensures Run(env, s, steps).lost == s.lost
    decreases |steps|
  {
    if steps != [] {
      assert Smooth(steps[0]);
      SmoothRunsLoseNothing(env, Next(env, s, steps[0]), steps[1..]);
    }
  }

  /** Without crashes, once no handler is between insert and publish, every stored event
      has been published exactly once. */
  lemma PublishedExactlyOnce(env: Env, phones: nat, steps: seq<Step>, key: Key)
    requires forall step :: step in steps ==> Smooth(step)
    requires Run(env, Initial(phones), steps).pending == map[]
    ensures var s := Run(env, Initial(phones), steps);
            HasKey(s.rows, key) <==> StoredOnce(s.published, key)
  {
    SmoothRunsLoseNothing(env, Initial(phones), steps);
    PublishedAtMostOnce(env, phones, steps, key);
    assert StoredOnce(Run(env, Initial(phones), steps).published, key)
           ==> HasKey(Run(env, Initial(phones), steps).published, key);
  }

  /** However the network behaves, no phone posts an event more often than its limit, and
      posts go out in report order. */
  lemma PostsAreBounded(env: Env, phones: nat, steps: seq<Step>, d: nat, k: nat)
    requires var s := Run(env, Initial(phones), steps);
             d < |s.boxes| && k < |s.boxes[d].reported|
    ensures var b := Run(env, Initial(phones), steps).boxes[d];
            multiset(b.posts)[k] <= Outbox.Limit(env.settings(d), b.reported[k]) && Outbox.InOrder(b)
  {
    InitialHolds(env, phones);
    RunsKeepInvariant(env, Initial(phones), steps);
    var b := Run(env, Initial(phones), steps).boxes[d];
    assert Outbox.Invariant(env.settings(d), b);
    Outbox.PostsWithinLimit(env.settings(d), b, k);
  }
}
